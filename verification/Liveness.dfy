/** What ticks achieve on a runtime that fails only where it must: exactly when
    one succeeds, what stands in the way, and how many reach the fixed point. */
module Liveness {
  import opened Domain
  import opened Ordering
  import opened Labels
  import opened Diff
  import opened Churn
  import opened Journal
  import opened Runtime
  import opened Strategy
  import opened Tick
  import opened Convergence
  import opened Reconciler
  import opened Success

  // ---------- one tick ----------

  /** Exactly when a tick succeeds on a runtime that fails only where it must:
      when its actions are in an order in which no name is still taken, and
      every start-first replace saw its new container healthy. */
  lemma TickSucceedsExactly(h: TaskDef -> string, r: Round, t: Trace)
    requires Reconciled(h, r) && Ran(r, t, true)
    ensures r.failed == {} <==> Clear(r.actions, r.before) && HealthyUpTo(r.actions, t, |r.actions|)
  {
    ActionsRunnable(h, r.desired, r.listing, r.unhealthy, r.actions, r.before, r.project, r.used);
    MadeInProject(h, r);
    SucceedsExactly(r.actions, t, |r.actions|, r.used);
    assert AllOk(t) <==> OkUpTo(t, |r.actions|);
    NoneFailed(r.actions, t, r.failed);
    assert r.actions[..|r.actions|] == r.actions;
  }

  lemma MadeInProject(h: TaskDef -> string, r: Round)
    requires Reconciled(h, r)
    ensures OneProject(r.actions)
    ensures forall a | a in r.actions && a.Makes() :: a.slot in DesiredMap(r.desired) && a.slot.project == r.project && a.slot.replica >= 0
  {
    MemberOf(r.actions, Actions(h, r.desired, r.listing, r.unhealthy));
    forall a | a in r.actions && a.Makes() ensures a.slot in DesiredMap(r.desired) && a.slot.project == r.project && a.slot.replica >= 0 {
      MakingIsWanted(h, r.desired, r.listing, r.unhealthy, a);
      DesiredSound(r.desired, a.slot);
    }
  }

  // ---------- runs of two actions ----------

  /** One step of a run. */
  ghost predicate Stepped(h: TaskDef -> string, a: Action, w: World, w': World, used: set<string>, ok: bool) {
    && Confined(h, a, w, w', used) && (ok ==> Achieved(a, w, w')) && Performed(a, w, w', used, ok, true, true)
  }

  lemma StepMade(h: TaskDef -> string, a: Action, w: World, n: ContainerInfo, used: set<string>)
    requires a.Create? && Unobstructed(a, w) && n.id !in used && n.id !in w
    requires n.state == "running" && n.name == CanonicalName(a.slot) && Fills(n, a.slot, MadeHash(h, a))
    ensures Stepped(h, a, w, w[n.id := n], used, true)
  {
    assert n.id in w[n.id := n];
  }

  lemma StepRefused(h: TaskDef -> string, a: Action, w: World, used: set<string>)
    requires a.Create? && !Unobstructed(a, w)
    ensures Stepped(h, a, w, w, used, false)
  {
  }

  lemma StepDropped(h: TaskDef -> string, a: Action, w: World, used: set<string>)
    requires a.Remove? && a.id in w
    ensures Stepped(h, a, w, w - {a.id}, used, true)
  {
  }

  function FailedOf(a: Action, ok: bool): set<Slot> {
    if ok then {} else {a.slot}
  }

  lemma OneApplied(h: TaskDef -> string, a: Action, w0: World, w1: World, ok: bool, used: set<string>)
    requires Stepped(h, a, w0, w1, used, ok) && w0.Keys <= used && Executable(a, used)
    ensures Applied(h, [a], FailedOf(a, ok), w0, w1, used)
  {
    NothingToDo(h, w0, used);
    AppliedStep(h, [], a, ok, {}, w0, w0, w1, used, used);
    assert [] + [a] == [a] && {} + {a.slot} == {a.slot};
  }

  lemma TwoApplied(h: TaskDef -> string, a: Action, b: Action, w0: World, w1: World, w2: World, oka: bool, okb: bool, used: set<string>)
    requires Stepped(h, a, w0, w1, used, oka) && Stepped(h, b, w1, w2, used, okb)
    requires w0.Keys <= used && Executable(a, used) && Executable(b, used) && !(a.Makes() && b.Makes())
    ensures Applied(h, [a, b], FailedOf(a, oka) + FailedOf(b, okb), w0, w2, used)
  {
    OneApplied(h, a, w0, w1, oka, used);
    var list, fa := [a], FailedOf(a, oka);
    assert list + [b] == [a, b] && MakersDiffer(list + [b]);
    AppliedStep(h, list, b, okb, fa, w0, w1, w2, used, used);
    assert fa + FailedOf(b, okb) == if okb then fa else fa + {b.slot};
  }

  lemma TwoFailed(actions: seq<Action>, t: Trace)
    requires |actions| == |t.oks| == 2
    ensures FailedAre(actions, t, FailedOf(actions[0], t.oks[0]) + FailedOf(actions[1], t.oks[1]))
  {
    var failed := FailedOf(actions[0], t.oks[0]) + FailedOf(actions[1], t.oks[1]);
    forall s ensures s in failed <==> exists i | 0 <= i < 2 :: !t.oks[i] && actions[i].slot == s {
      if s in FailedOf(actions[0], t.oks[0]) { assert !t.oks[0] && actions[0].slot == s; }
      if s in FailedOf(actions[1], t.oks[1]) { assert !t.oks[1] && actions[1].slot == s; }
    }
  }

  lemma TwoTraced(h: TaskDef -> string, a: Action, b: Action, w0: World, w1: World, w2: World, oka: bool, okb: bool, used: set<string>)
    requires Stepped(h, a, w0, w1, used, oka) && Stepped(h, b, w1, w2, used, okb)
    ensures var t := Trace([w0, w1, w2], [oka, okb], [true, true]);
            Traced([a, b], t, used, true) && FailedAre([a, b], t, FailedOf(a, oka) + FailedOf(b, okb))
  {
    var actions, t := [a, b], Trace([w0, w1, w2], [oka, okb], [true, true]);
    TwoFailed(actions, t);
    forall i | 0 <= i < 2 ensures Performed(actions[i], t.worlds[i], t.worlds[i + 1], used, t.oks[i], true, t.healthy[i]) {
      assert if i == 0 then actions[i] == a && t.worlds[i] == w0 && t.worlds[i + 1] == w1 && t.oks[i] == oka
             else actions[i] == b && t.worlds[i] == w1 && t.worlds[i + 1] == w2 && t.oks[i] == okb;
    }
  }

  // ---------- a container that is rotated ----------

  /** The diff where the one replica of a service is rotated. */
  lemma RotationDiff(h: TaskDef -> string, svc: Service, c: ContainerInfo, s: Slot, unhealthy: set<string>, make: Action, drop: Action)
    requires svc.spec.replicas == 1 && s == Slot(svc.project, svc.name, 0) && SlotOf(c.labels) == Some(s) && !Kept(c, unhealthy)
    requires make == Action.Create(s, svc.spec, h(svc.spec), "actual<desired") && drop == Action.Remove(s, c.id, RotationReason(c))
    ensures Actions(h, [svc], [c], unhealthy) == multiset{make, drop}
  {
    WantedOne(svc);
    assert [c][..0] == [];
    assert LiveMap([c], unhealthy) == map[] && Rotations([c], unhealthy) == [drop];
    assert WantedAction(h, map[s := svc], map[], s) == Some(make);
    assert WantedActions(h, map[s := svc], map[], {s}) == {make};
  }

  /** A new container for the slot, as the runtime stamps it. */
  function Successor(id: string, s: Slot, specHash: string): ContainerInfo {
    ContainerInfo(id, CanonicalName(s), "running", CreatedLabels(RequestedLabels(s, specHash), "", ""))
  }

  lemma SuccessorFills(id: string, s: Slot, specHash: string)
    requires Printable(s)
    ensures Fills(Successor(id, s, specHash), s, specHash)
  {
    SlotRoundTrip(s, specHash, "", "");
  }

  lemma RotationRound(h: TaskDef -> string, svc: Service, c: ContainerInfo, s: Slot, unhealthy: set<string>, actions: seq<Action>,
                      make: Action, drop: Action, failed: set<Slot>, after: World, t: Trace) returns (r: Round)
    requires svc.spec.replicas == 1 && s == Slot(svc.project, svc.name, 0) && SlotOf(c.labels) == Some(s) && !Kept(c, unhealthy)
    requires InProject(c, svc.project) && forall id | id in after :: after[id].id == id
    requires make == Action.Create(s, svc.spec, h(svc.spec), "actual<desired") && drop == Action.Remove(s, c.id, RotationReason(c))
    requires actions == [make, drop] || actions == [drop, make]
    requires Applied(h, actions, failed, map[c.id := c], after, {c.id})
    requires Traced(actions, t, {c.id}, true) && t.worlds[0] == map[c.id := c] && t.worlds[2] == after && FailedAre(actions, t, failed)
    ensures Reconciled(h, r) && Ran(r, t, true) && r.actions == actions && r.failed == failed && r.unhealthy == unhealthy
    ensures r.desired == [svc] && r.before == map[c.id := c] && r.after == after
  {
    RotationDiff(h, svc, c, s, unhealthy, make, drop);
    assert multiset([make, drop]) == multiset{make, drop} == multiset([drop, make]);
    r := MakeRound(h, [svc], svc.project, unhealthy, [c], actions, failed, map[c.id := c], after, {c.id});
  }

  lemma DropFirst(h: TaskDef -> string, svc: Service, c: ContainerInfo, s: Slot, make: Action, drop: Action) returns (r: Round, t: Trace)
    requires svc.spec.replicas == 1 && s == Slot(svc.project, svc.name, 0) && SlotOf(c.labels) == Some(s) && !Kept(c, {})
    requires InProject(c, svc.project)
    requires make == Action.Create(s, svc.spec, h(svc.spec), "actual<desired") && drop == Action.Remove(s, c.id, RotationReason(c))
    ensures Reconciled(h, r) && Ran(r, t, true) && r.actions == [drop, make] && r.failed == {}
    ensures r.desired == [svc] && r.before == map[c.id := c]
  {
    var before: World, none: World := map[c.id := c], map[];
    var n := Successor(c.id + "'", s, h(svc.spec));
    SuccessorFills(n.id, s, h(svc.spec));
    assert before - {c.id} == none && c.id in before;
    StepDropped(h, drop, before, {c.id});
    StepMade(h, make, none, n, {c.id});
    TwoApplied(h, drop, make, before, none, none[n.id := n], true, true, {c.id});
    TwoTraced(h, drop, make, before, none, none[n.id := n], true, true, {c.id});
    t := Trace([before, none, none[n.id := n]], [true, true], [true, true]);
    r := RotationRound(h, svc, c, s, {}, [drop, make], make, drop, FailedOf(drop, true) + FailedOf(make, true), none[n.id := n], t);
  }

  lemma MakeFirst(h: TaskDef -> string, svc: Service, c: ContainerInfo, s: Slot, make: Action, drop: Action) returns (r: Round, t: Trace)
    requires svc.spec.replicas == 1 && s == Slot(svc.project, svc.name, 0) && SlotOf(c.labels) == Some(s) && !Kept(c, {})
    requires InProject(c, svc.project) && c.name == CanonicalName(s)
    requires make == Action.Create(s, svc.spec, h(svc.spec), "actual<desired") && drop == Action.Remove(s, c.id, RotationReason(c))
    ensures Reconciled(h, r) && Ran(r, t, true) && r.actions == [make, drop] && r.failed == {s}
    ensures r.desired == [svc] && r.before == map[c.id := c] && r.after == map[]
  {
    var before: World, none: World := map[c.id := c], map[];
    assert before - {c.id} == none && c.id in before && !Unobstructed(make, before);
    StepRefused(h, make, before, {c.id});
    StepDropped(h, drop, before, {c.id});
    TwoApplied(h, make, drop, before, before, none, false, true, {c.id});
    TwoTraced(h, make, drop, before, before, none, false, true, {c.id});
    t := Trace([before, before, none], [false, true], [true, true]);
    r := RotationRound(h, svc, c, s, {}, [make, drop], make, drop, FailedOf(make, false) + FailedOf(drop, true), none, t);
  }

  /** A dead container under its own name: its removal and the create that
      replaces it sort alike, so either may come first. On a reliable runtime
      the tick succeeds in one order and fails in the other. */
  lemma SortDecides(h: TaskDef -> string, svc: Service, c: ContainerInfo) returns (good: Round, bad: Round, t: Trace, t': Trace)
    requires svc.spec.replicas == 1 && !IsActive(c.state) && InProject(c, svc.project)
    requires var s := Slot(svc.project, svc.name, 0); SlotOf(c.labels) == Some(s) && c.name == CanonicalName(s)
    ensures Reconciled(h, good) && Ran(good, t, true) && Reconciled(h, bad) && Ran(bad, t', true)
    ensures good.before == bad.before == map[c.id := c] && good.desired == bad.desired == [svc]
    ensures multiset(good.actions) == multiset(bad.actions) && Sorted(ActionLe, good.actions) && Sorted(ActionLe, bad.actions)
    ensures good.failed == {} && bad.failed == {Slot(svc.project, svc.name, 0)} && bad.after == map[]
  {
    var s := Slot(svc.project, svc.name, 0);
    var make: Action, drop: Action := Action.Create(s, svc.spec, h(svc.spec), "actual<desired"), Action.Remove(s, c.id, RotationReason(c));
    EitherOrder(make, drop);
    good, t := DropFirst(h, svc, c, s, make, drop);
    bad, t' := MakeFirst(h, svc, c, s, make, drop);
  }

  lemma EitherOrder(a: Action, b: Action)
    requires a.slot == b.slot
    ensures Sorted(ActionLe, [a, b]) && Sorted(ActionLe, [b, a]) && multiset([a, b]) == multiset([b, a])
  {
    ActionLeIsTotalPreorder();
    assert ActionLe(a, b) && ActionLe(b, a);
  }

  // ---------- two writers ----------

  /** At no moment of a reconciliation, whatever fails, does a container made for
      a stop-first slot exist together with one that had the slot's name. */
  lemma NoSecondHolder(h: TaskDef -> string, r: Round, events: seq<Event>, start: nat, k: nat, s: Slot, id: string)
    requires Reconciled(h, r) && Overseen(h, r, events, start) && At(events, start, k)
    requires s in DesiredMap(r.desired) && StopsFirst(DesiredMap(r.desired)[s].spec)
    requires id in r.before && r.before[id].name == CanonicalName(s)
    ensures var w := events[k].world;
            id in w ==> forall n | n in w && n !in r.before :: SlotOf(w[n].labels) != Some(s)
  {
    var w := events[k].world;
    assert Moment(h, r.actions, w, events[start..k], r.before, r.used);
    forall n | id in w && n in w && n !in r.before ensures SlotOf(w[n].labels) != Some(s) {
      if SlotOf(w[n].labels) == Some(s) { NewcomerAfterHolder(h, r, w, events[start..k], s, id, n); }
    }
  }

  lemma NewcomerAfterHolder(h: TaskDef -> string, r: Round, w: World, seen: seq<Event>, s: Slot, id: string, n: string)
    requires Reconciled(h, r) && Moment(h, r.actions, w, seen, r.before, r.used)
    requires s in DesiredMap(r.desired) && StopsFirst(DesiredMap(r.desired)[s].spec)
    requires id in r.before && r.before[id].name == CanonicalName(s)
    requires n in w && n !in r.before && SlotOf(w[n].labels) == Some(s)
    ensures id !in w
  {
    var a := Maker(h, r, w, s, n);
    assert Guarded(h, a, w, seen, r.before, r.used);
    HolderGone(a, w, r.before, r.used, id, n);
  }

  lemma HolderGone(a: Action, w: World, before: World, used: set<string>, id: string, n: string)
    requires Cleared(a, w, before, used) && Plain(a) && a.Makes()
    requires n in w && n !in used && SlotOf(w[n].labels) == Some(a.slot)
    requires id in before && before[id].name == CanonicalName(a.slot)
    ensures id !in w
  {
  }

  /** The one action that makes what is new in the slot. */
  lemma Maker(h: TaskDef -> string, r: Round, w: World, s: Slot, n: string) returns (a: Action)
    requires Reconciled(h, r) && BornMade(h, r.actions, r.before, w, r.used)
    requires s in DesiredMap(r.desired) && n in w && n !in r.before && SlotOf(w[n].labels) == Some(s)
    ensures a in r.actions && a.Makes() && a.slot == s && n !in r.used && a.spec == DesiredMap(r.desired)[s].spec
  {
    MemberOf(r.actions, Actions(h, r.desired, r.listing, r.unhealthy));
    assert MadeBy(h, r.actions, w[n]) && n !in r.used;
    a :| a in r.actions && a.Makes() && Fills(w[n], a.slot, MadeHash(h, a));
    MakingIsWanted(h, r.desired, r.listing, r.unhealthy, a);
  }

  /** The name is needed: a given-up replica of a stop-first service that still
      has its temporary name is rotated outside any strategy, and its
      successor runs beside it. */
  lemma TemporaryNameCoexists(h: TaskDef -> string, svc: Service, c: ContainerInfo) returns (r: Round, t: Trace, n: string)
    requires svc.spec.replicas == 1 && StopsFirst(svc.spec) && IsActive(c.state) && InProject(c, svc.project)
    requires var s := Slot(svc.project, svc.name, 0); SlotOf(c.labels) == Some(s) && c.name == MeanwhileName(s)
    ensures var s := Slot(svc.project, svc.name, 0);
            && Reconciled(h, r) && Ran(r, t, true) && r.failed == {} && r.before == map[c.id := c] && r.unhealthy == {c.id}
            && |t.worlds| == 3
            && var w := t.worlds[1];
               n != c.id && c.id in w && w[c.id] == c && n in w && SlotOf(w[n].labels) == Some(s) && w[n].state == "running"
  {
    var s := Slot(svc.project, svc.name, 0);
    var make: Action, drop: Action := Action.Create(s, svc.spec, h(svc.spec), "actual<desired"), Action.Remove(s, c.id, RotationReason(c));
    var before: World := map[c.id := c];
    var x := Successor(c.id + "'", s, h(svc.spec));
    n := x.id;
    SuccessorFills(n, s, h(svc.spec));
    assert |MeanwhileName(s)| != |CanonicalName(s)|;
    StepMade(h, make, before, x, {c.id});
    var both := before[n := x];
    StepDropped(h, drop, both, {c.id});
    TwoApplied(h, make, drop, before, both, both - {c.id}, true, true, {c.id});
    TwoTraced(h, make, drop, before, both, both - {c.id}, true, true, {c.id});
    t := Trace([before, both, both - {c.id}], [true, true], [true, true]);
    r := RotationRound(h, svc, c, s, {c.id}, [make, drop], make, drop, FailedOf(make, true) + FailedOf(drop, true), both - {c.id}, t);
  }
}
