/** What one reconciliation achieves: slots whose actions succeed are settled,
    a fully successful one reaches a fixed point, and a service without
    desired slots drains away. */
module Convergence {
  import opened Domain
  import opened Journal
  import opened Labels
  import opened Diff
  import opened Churn
  import opened Runtime
  import opened Strategy
  import opened Tick

  /** No two containers that are kept share a slot. */
  ghost predicate OneLivePerSlot(listing: seq<ContainerInfo>, unhealthy: set<string>) {
    forall c, d | c in listing && d in listing && Kept(c, unhealthy) && Kept(d, unhealthy) && SlotOf(c.labels) == SlotOf(d.labels) :: c == d
  }

  ghost predicate OfProject(desired: seq<Service>, project: string) {
    forall svc | svc in desired :: svc.project == project
  }

  /** One reconciliation of a project: what was desired and listed, which
      containers counted as unhealthy, the actions in the order they ran, the
      slots on which one failed, the worlds around it and the IDs used before. */
  datatype Round = Round(
    desired: seq<Service>,
    project: string,
    unhealthy: set<string>,
    listing: seq<ContainerInfo>,
    actions: seq<Action>,
    failed: set<Slot>,
    before: World,
    after: World,
    used: set<string>)

  /** The round is a run of the reconciler. */
  ghost predicate Reconciled(h: TaskDef -> string, r: Round) {
    && Enumerates(r.listing, r.before, r.project)
    && multiset(r.actions) == Actions(h, r.desired, r.listing, r.unhealthy)
    && Applied(h, r.actions, r.failed, r.before, r.after, r.used)
    && r.before.Keys <= r.used
    && OfProject(r.desired, r.project)
    && (forall id | id in r.before :: r.before[id].id == id) && (forall id | id in r.after :: r.after[id].id == id)
  }

  /** Whatever is in the slot is as desired, and there is something if
      something is desired. */
  ghost predicate SlotFits(h: TaskDef -> string, desired: seq<Service>, listing: seq<ContainerInfo>, s: Slot) {
    var want := DesiredMap(desired);
    && (forall c | c in listing && SlotOf(c.labels) == Some(s) ::
          s in want && IsActive(c.state) && Get(c.labels, SPEC_HASH) == h(want[s].spec))
    && (s in want ==> exists c | c in listing :: SlotOf(c.labels) == Some(s))
  }

  /** The slot holds exactly what is desired. */
  ghost predicate SlotSettled(h: TaskDef -> string, desired: seq<Service>, listing: seq<ContainerInfo>, s: Slot) {
    && SlotFits(h, desired, listing, s)
    && (forall c, d | c in listing && d in listing && SlotOf(c.labels) == Some(s) == SlotOf(d.labels) :: c == d)
  }

  /** A kept container that is not the one its slot counts. */
  ghost predicate Leftover(r: Round, c: ContainerInfo) {
    var live := LiveMap(r.listing, r.unhealthy);
    c in r.listing && Kept(c, r.unhealthy) && SlotOf(c.labels).value in live && live[SlotOf(c.labels).value] != c
  }

  /** The leftovers happen to be as their slots want them. */
  ghost predicate LeftoversFit(h: TaskDef -> string, r: Round) {
    forall c | Leftover(r, c) ::
      var want, s := DesiredMap(r.desired), SlotOf(c.labels).value;
      s in want && Get(c.labels, SPEC_HASH) == h(want[s].spec)
  }

  /** However the resulting world is listed, its diff is empty. */
  ghost predicate Converged(h: TaskDef -> string, r: Round) {
    forall after | Enumerates(after, r.after, r.project) :: Actions(h, r.desired, after, {}) == multiset{}
  }

  // ---------- survivors and newcomers ----------

  lemma MemberOf(actions: seq<Action>, m: multiset<Action>)
    requires multiset(actions) == m
    ensures forall a :: a in actions <==> a in m
  {
    assert forall a :: a in actions <==> a in multiset(actions);
  }

  /** A container that is still there and sits in a slot without failures was
      not condemned. */
  lemma SurvivorNotCondemned(h: TaskDef -> string, r: Round, c: ContainerInfo, s: Slot)
    requires Reconciled(h, r)
    requires s !in r.failed && c.id in r.before && c.id in r.after && r.after[c.id] == c && SlotOf(c.labels) == Some(s) && InProject(c, r.project)
    ensures r.before[c.id] == c && c in r.listing && !Condemned(h, r.desired, r.listing, r.unhealthy, c)
  {
    MemberOf(r.actions, Actions(h, r.desired, r.listing, r.unhealthy));
    var c0 := r.before[c.id];
    assert c0.labels == c.labels;
    assert c0 in r.listing;
    if !Spared(r.actions, c.id) {
      var a :| a in r.actions && a.Names(c.id);
      var d := ActionNamesCondemned(h, r.desired, r.listing, r.unhealthy, a);
      SameId(r.listing, c0, d);
      assert false;
    }
    NamedExactly(h, r.desired, r.listing, r.unhealthy, r.actions, c);
  }

  lemma SparedSurvives(h: TaskDef -> string, r: Round, c: ContainerInfo)
    requires Reconciled(h, r)
    requires c in r.listing && !Condemned(h, r.desired, r.listing, r.unhealthy, c)
    ensures c.id in r.after && r.after[c.id] == c
  {
    NamedExactly(h, r.desired, r.listing, r.unhealthy, r.actions, c);
    assert Spared(r.actions, c.id);
  }

  /** A new container comes from the one action that makes one for its slot. */
  lemma NewcomerMade(h: TaskDef -> string, r: Round, id: string, s: Slot) returns (a: Action)
    requires Reconciled(h, r)
    requires s !in r.failed && id in r.after && id !in r.before && SlotOf(r.after[id].labels) == Some(s)
    ensures a in r.actions && a.Makes() && a.slot == s && s in DesiredMap(r.desired)
    ensures WantedAction(h, DesiredMap(r.desired), LiveMap(r.listing, r.unhealthy), s) == Some(a)
    ensures Get(r.after[id].labels, SPEC_HASH) == h(DesiredMap(r.desired)[s].spec) && InProject(r.after[id], s.project)
  {
    MemberOf(r.actions, Actions(h, r.desired, r.listing, r.unhealthy));
    assert MadeBy(h, r.actions, r.after[id]);
    a :| a in r.actions && a.Makes() && Fills(r.after[id], a.slot, MadeHash(h, a));
    MakingIsWanted(h, r.desired, r.listing, r.unhealthy, a);
    MadeHashWanted(h, DesiredMap(r.desired), LiveMap(r.listing, r.unhealthy), a);
  }

  lemma MadeHashWanted(h: TaskDef -> string, want: map<Slot, Service>, live: map<Slot, ContainerInfo>, a: Action)
    requires a.slot in want && WantedAction(h, want, live, a.slot) == Some(a)
    ensures MadeHash(h, a) == h(want[a.slot].spec)
  {
  }

  lemma NewcomerAlone(h: TaskDef -> string, r: Round, id: string, s: Slot, a: Action)
    requires Reconciled(h, r) && a in r.actions && a.Makes() && a.slot == s
    requires s !in r.failed && id in r.after && id !in r.before && SlotOf(r.after[id].labels) == Some(s)
    ensures BornAt(r.before, r.after, s) == {id} && r.after[id].state == "running"
  {
    assert id in BornAt(r.before, r.after, s);
    assert Filled(r.before, r.after, a.slot);
  }

  // ---------- convergence ----------

  /** Per-slot convergence: whatever fails elsewhere, a slot whose own actions
      succeeded is settled in the world that results. */
  lemma SlotConverges(h: TaskDef -> string, r: Round, listing': seq<ContainerInfo>, s: Slot)
    requires Reconciled(h, r) && OneLivePerSlot(r.listing, r.unhealthy)
    requires Enumerates(listing', r.after, r.project) && s !in r.failed
    ensures SlotSettled(h, r.desired, listing', s)
  {
    var want := DesiredMap(r.desired);
    forall c | c in listing' && SlotOf(c.labels) == Some(s)
      ensures s in want && IsActive(c.state) && Get(c.labels, SPEC_HASH) == h(want[s].spec)
    {
      OccupantRight(h, r, c, s);
    }
    forall c, d | c in listing' && d in listing' && SlotOf(c.labels) == Some(s) == SlotOf(d.labels) ensures c == d {
      OccupantsAgree(h, r, c, d, s);
    }
    if s in want { OccupantExists(h, r, listing', s); }
  }

  lemma OccupantsAgree(h: TaskDef -> string, r: Round, c: ContainerInfo, d: ContainerInfo, s: Slot)
    requires Reconciled(h, r) && OneLivePerSlot(r.listing, r.unhealthy) && s !in r.failed
    requires c.id in r.after && r.after[c.id] == c && InProject(c, r.project) && SlotOf(c.labels) == Some(s)
    requires d.id in r.after && r.after[d.id] == d && InProject(d, r.project) && SlotOf(d.labels) == Some(s)
    ensures c == d
  {
    OccupantRight(h, r, c, s);
    OccupantRight(h, r, d, s);
    assert c.id !in r.before ==> c.id in BornAt(r.before, r.after, s);
    assert d.id !in r.before ==> d.id in BornAt(r.before, r.after, s);
  }

  lemma OccupantRight(h: TaskDef -> string, r: Round, c: ContainerInfo, s: Slot)
    requires Reconciled(h, r)
    requires OneLivePerSlot(r.listing, r.unhealthy) && s !in r.failed
    requires c.id in r.after && r.after[c.id] == c && InProject(c, r.project) && SlotOf(c.labels) == Some(s)
    ensures var want, live := DesiredMap(r.desired), LiveMap(r.listing, r.unhealthy);
            && s in want && IsActive(c.state) && Get(c.labels, SPEC_HASH) == h(want[s].spec)
            && if c.id in r.before then s in live && live[s] == c && WantedAction(h, want, live, s) == None
               else BornAt(r.before, r.after, s) == {c.id} && WantedAction(h, want, live, s) != None
  {
    if c.id in r.before {
      SurvivorNotCondemned(h, r, c, s);
      LiveComplete(r.listing, r.unhealthy, c);
      LiveSound(r.listing, r.unhealthy, s);
    } else {
      var a := NewcomerMade(h, r, c.id, s);
      NewcomerAlone(h, r, c.id, s, a);
    }
  }

  lemma OccupantExists(h: TaskDef -> string, r: Round, listing': seq<ContainerInfo>, s: Slot)
    requires Reconciled(h, r)
    requires Enumerates(listing', r.after, r.project) && s !in r.failed && s in DesiredMap(r.desired)
    ensures exists c | c in listing' :: SlotOf(c.labels) == Some(s)
  {
    var want, live := DesiredMap(r.desired), LiveMap(r.listing, r.unhealthy);
    MemberOf(r.actions, Actions(h, r.desired, r.listing, r.unhealthy));
    PassesAreActions(h, r.desired, r.listing, r.unhealthy);
    DesiredSound(r.desired, s);
    match WantedAction(h, want, live, s)
    case Some(a) =>
      assert a in r.actions && Filled(r.before, r.after, a.slot);
      var n :| n in r.after && BornAt(r.before, r.after, s) == {n};
      assert n in BornAt(r.before, r.after, s);
      var b := NewcomerMade(h, r, n, s);
      assert r.after[n] in listing';
    case None =>
      LiveSound(r.listing, r.unhealthy, s);
      SparedSurvives(h, r, live[s]);
      assert live[s] in listing';
  }

  /** Where every slot fits there is nothing to do. */
  lemma SettledIsQuiet(h: TaskDef -> string, desired: seq<Service>, listing: seq<ContainerInfo>)
    requires forall s :: SlotFits(h, desired, listing, s)
    ensures Actions(h, desired, listing, {}) == multiset{}
  {
    var want, live := DesiredMap(desired), LiveMap(listing, {});
    forall a ensures a !in Actions(h, desired, listing, {}) {
      if a in Actions(h, desired, listing, {}) {
        NoActionWhenFit(h, desired, listing, a);
      }
    }
  }

  lemma NoActionWhenFit(h: TaskDef -> string, desired: seq<Service>, listing: seq<ContainerInfo>, a: Action)
    requires a in Actions(h, desired, listing, {})
    ensures !SlotFits(h, desired, listing, a.slot)
  {
    if SlotFits(h, desired, listing, a.slot) {
      if a.Create? {
        MakingIsWanted(h, desired, listing, {}, a);
        var c :| c in listing && SlotOf(c.labels) == Some(a.slot);
        LiveComplete(listing, {}, c);
      } else {
        var c := ActionNamesCondemned(h, desired, listing, {}, a);
      }
      assert false;
    }
  }

  lemma OccupantFits(h: TaskDef -> string, r: Round, c: ContainerInfo, s: Slot)
    requires Reconciled(h, r) && LeftoversFit(h, r) && s !in r.failed
    requires c.id in r.after && r.after[c.id] == c && InProject(c, r.project) && SlotOf(c.labels) == Some(s)
    ensures var want := DesiredMap(r.desired);
            s in want && IsActive(c.state) && Get(c.labels, SPEC_HASH) == h(want[s].spec)
  {
    if c.id in r.before {
      SurvivorNotCondemned(h, r, c, s);
      LiveComplete(r.listing, r.unhealthy, c);
      assert LiveMap(r.listing, r.unhealthy)[s] != c ==> Leftover(r, c);
    } else {
      var a := NewcomerMade(h, r, c.id, s);
      NewcomerAlone(h, r, c.id, s, a);
    }
  }

  lemma {:induction false} ListingExists(w: World, project: string) returns (listing: seq<ContainerInfo>)
    requires forall id | id in w :: w[id].id == id
    ensures Enumerates(listing, w, project)
    decreases |w|
  {
    if w == map[] {
      listing := [];
    } else {
      var id :| id in w;
      var rest := ListingExists(w - {id}, project);
      listing := if InProject(w[id], project) then rest + [w[id]] else rest;
    }
  }

  /** Any container can be the last one listed. */
  lemma ListedLast(w: World, project: string, c: ContainerInfo) returns (listing: seq<ContainerInfo>)
    requires forall id | id in w :: w[id].id == id
    requires c.id in w && w[c.id] == c && InProject(c, project)
    ensures Enumerates(listing + [c], w, project)
  {
    listing := ListingExists(w - {c.id}, project);
  }

  lemma LastCounts(listing: seq<ContainerInfo>, c: ContainerInfo, unhealthy: set<string>)
    requires Kept(c, unhealthy)
    ensures var live, s := LiveMap(listing + [c], unhealthy), SlotOf(c.labels).value; s in live && live[s] == c
  {
  }

  /** A leftover that does not fit is acted on as soon as it is listed last. */
  lemma MisfitSeen(h: TaskDef -> string, r: Round, c: ContainerInfo) returns (listing': seq<ContainerInfo>)
    requires Reconciled(h, r) && Leftover(r, c)
    requires var want, s := DesiredMap(r.desired), SlotOf(c.labels).value;
             s in want ==> Get(c.labels, SPEC_HASH) != h(want[s].spec)
    ensures Enumerates(listing', r.after, r.project)
    ensures Actions(h, r.desired, listing', {}) != multiset{}
  {
    SparedSurvives(h, r, c);
    var rest := ListedLast(r.after, r.project, c);
    listing' := rest + [c];
    LastCounts(rest, c, {});
    assert c in listing' && Condemned(h, r.desired, listing', {}, c);
    var a := CondemnedIsNamed(h, r.desired, listing', {}, c);
  }

  /** Exactly when a tick in which every action succeeds converges: the diff
      of the resulting world is empty, however it is listed, if and only if
      the containers that shared a slot with the one that counted were
      themselves as desired. */
  lemma ConvergesExactly(h: TaskDef -> string, r: Round)
    requires Reconciled(h, r) && r.failed == {}
    ensures Converged(h, r) <==> LeftoversFit(h, r)
  {
    if LeftoversFit(h, r) {
      forall after | Enumerates(after, r.after, r.project) ensures Actions(h, r.desired, after, {}) == multiset{} {
        forall s ensures SlotFits(h, r.desired, after, s) {
          forall c: ContainerInfo | c in after && SlotOf(c.labels) == Some(s) { OccupantFits(h, r, c, s); }
          if s in DesiredMap(r.desired) { OccupantExists(h, r, after, s); }
        }
        SettledIsQuiet(h, r.desired, after);
      }
    } else {
      var c :| Leftover(r, c) && var want, s := DesiredMap(r.desired), SlotOf(c.labels).value;
                                 s in want ==> Get(c.labels, SPEC_HASH) != h(want[s].spec);
      var after := MisfitSeen(h, r, c);
    }
  }

  /** With one live container per slot there are no leftovers. */
  lemma NoLeftovers(h: TaskDef -> string, r: Round)
    requires OneLivePerSlot(r.listing, r.unhealthy)
    ensures LeftoversFit(h, r)
  {
    forall c | Leftover(r, c) ensures false {
      LiveSound(r.listing, r.unhealthy, SlotOf(c.labels).value);
    }
  }

  /** Convergence: with one live container per slot, if every action of one
      reconciliation succeeds, a fresh diff of the resulting world, however it
      is listed, finds nothing to do, and again one container is live per slot. */
  lemma Converges(h: TaskDef -> string, r: Round, listing': seq<ContainerInfo>)
    requires Reconciled(h, r) && r.failed == {}
    requires OneLivePerSlot(r.listing, r.unhealthy) && Enumerates(listing', r.after, r.project)
    ensures Actions(h, r.desired, listing', {}) == multiset{}
    ensures OneLivePerSlot(listing', {})
  {
    NoLeftovers(h, r);
    ConvergesExactly(h, r);
    forall c, d | c in listing' && d in listing' && Kept(c, {}) && Kept(d, {}) && SlotOf(c.labels) == SlotOf(d.labels) ensures c == d {
      SlotConverges(h, r, listing', SlotOf(c.labels).value);
    }
  }

  // ---------- what the fixed point does not say ----------

  /** A running container of the slot, as the runtime stamps it. */
  function Running(id: string, slot: Slot, specHash: string): ContainerInfo {
    ContainerInfo(id, "", "running", CreatedLabels(RequestedLabels(slot, specHash), "", ""))
  }

  lemma {:induction false} NoRotations(actual: seq<ContainerInfo>, unhealthy: set<string>)
    requires forall c | c in actual :: Kept(c, unhealthy)
    ensures Rotations(actual, unhealthy) == []
  {
    if actual != [] { NoRotations(actual[..|actual| - 1], unhealthy); }
  }

  lemma SurplusOf(h: TaskDef -> string, s: Slot, c: ContainerInfo)
    requires SlotOf(c.labels) == Some(s) && IsActive(c.state)
    ensures Actions(h, [], [c], {}) == multiset{SurplusAction(map[s := c], s)}
  {
    assert [c][..0] == [];
    assert LiveMap([c], {}) == map[s := c];
    NoRotations([c], {});
    assert SurplusActions(map[], map[s := c], {s}) == {SurplusAction(map[s := c], s)};
  }

  lemma SurplusOfTwo(h: TaskDef -> string, s: Slot, c: ContainerInfo, d: ContainerInfo)
    requires SlotOf(c.labels) == Some(s) == SlotOf(d.labels) && IsActive(c.state) && IsActive(d.state)
    ensures Actions(h, [], [c, d], {}) == multiset{SurplusAction(map[s := d], s)}
  {
    assert [c, d][..1] == [c] && [c][..0] == [];
    assert LiveMap([c], {}) == map[s := c];
    assert LiveMap([c, d], {}) == map[s := d];
    NoRotations([c, d], {});
    assert SurplusActions(map[], map[s := d], {s}) == {SurplusAction(map[s := d], s)};
  }

  lemma RemovedOne(h: TaskDef -> string, a: Action, c: ContainerInfo, d: ContainerInfo)
    requires a.Remove? && a.id == d.id && c.id != d.id
    ensures Applied(h, [a], {}, map[c.id := c, d.id := d], map[c.id := c], {c.id, d.id})
  {
    assert a.Names(d.id) && a in [a];
  }

  lemma PairListed(c: ContainerInfo, d: ContainerInfo, project: string)
    requires c.id != d.id && InProject(c, project) && InProject(d, project)
    ensures Enumerates([c, d], map[c.id := c, d.id := d], project) && Enumerates([c], map[c.id := c], project)
  {
  }

  lemma MakeRound(h: TaskDef -> string, desired: seq<Service>, project: string, unhealthy: set<string>, listing: seq<ContainerInfo>,
                  actions: seq<Action>, failed: set<Slot>, before: World, after: World, used: set<string>) returns (r: Round)
    requires Enumerates(listing, before, project) && multiset(actions) == Actions(h, desired, listing, unhealthy)
    requires Applied(h, actions, failed, before, after, used) && before.Keys <= used && OfProject(desired, project)
    requires (forall id | id in before :: before[id].id == id) && (forall id | id in after :: after[id].id == id)
    ensures Reconciled(h, r) && r == Round(desired, project, unhealthy, listing, actions, failed, before, after, used)
  {
    r := Round(desired, project, unhealthy, listing, actions, failed, before, after, used);
  }

  lemma PairRound(h: TaskDef -> string, s: Slot, c: ContainerInfo, d: ContainerInfo) returns (r: Round)
    requires SlotOf(c.labels) == Some(s) && IsActive(c.state) && InProject(c, s.project)
    requires SlotOf(d.labels) == Some(s) && IsActive(d.state) && InProject(d, s.project) && c.id != d.id
    ensures Reconciled(h, r) && r.failed == {} && !Converged(h, r)
  {
    var a := SurplusAction(map[s := d], s);
    var before: World, after: World := map[c.id := c, d.id := d], map[c.id := c];
    SurplusOfTwo(h, s, c, d);
    RemovedOne(h, a, c, d);
    PairListed(c, d, s.project);
    assert before.Keys == {c.id, d.id};
    r := MakeRound(h, [], s.project, {}, [c, d], [a], {}, before, after, {c.id, d.id});
    OneRemains(h, s, c, r);
  }

  lemma OneRemains(h: TaskDef -> string, s: Slot, c: ContainerInfo, r: Round)
    requires SlotOf(c.labels) == Some(s) && IsActive(c.state) && Enumerates([c], r.after, r.project) && r.desired == []
    ensures !Converged(h, r)
  {
    SurplusOf(h, s, c);
  }

  /** Without one live container per slot a fully successful tick need not
      converge: of two running containers in an undesired slot it removes one. */
  lemma DuplicateRemains(h: TaskDef -> string, s: Slot) returns (r: Round)
    requires Printable(s)
    ensures Reconciled(h, r) && r.failed == {} && !Converged(h, r)
  {
    SlotRoundTrip(s, "", "", "");
    r := PairRound(h, s, Running("c", s, ""), Running("d", s, ""));
  }

  /** The fixed point is about active containers, not running ones: a container
      whose start failed counts from then on, and no later diff acts on it. */
  lemma StartFailedCounts(h: TaskDef -> string, svc: Service, nodeId: string, now: string) returns (r: Round)
    requires svc.spec.replicas == 1
    ensures var s := Slot(svc.project, svc.name, 0);
            && Reconciled(h, r) && r.desired == [svc] && r.failed == {s}
            && (exists id :: r.after == map[id := NewContainer(id, CanonicalName(s), RequestedLabels(s, h(svc.spec)), nodeId, now)])
            && Converged(h, r)
  {
    var s := Slot(svc.project, svc.name, 0);
    SlotRoundTrip(s, h(svc.spec), nodeId, now);
    var c := NewContainer("c", CanonicalName(s), RequestedLabels(s, h(svc.spec)), nodeId, now);
    var a := Action.Create(s, svc.spec, h(svc.spec), "actual<desired");
    MissingDiff(h, svc, s, a);
    StartFailedApplied(h, a, c, s);
    r := MakeRound(h, [svc], svc.project, {}, [], [a], {s}, map[], map[c.id := c], {});
    StillQuiet(h, svc, c, s, r);
  }

  /** The diff of one missing replica. */
  lemma MissingDiff(h: TaskDef -> string, svc: Service, s: Slot, a: Action)
    requires svc.spec.replicas == 1 && s == Slot(svc.project, svc.name, 0)
    requires a == Action.Create(s, svc.spec, h(svc.spec), "actual<desired")
    ensures Actions(h, [svc], [], {}) == multiset{a}
  {
    WantedOne(svc);
    assert WantedAction(h, map[s := svc], map[], s) == Some(a);
    assert WantedActions(h, map[s := svc], map[], {s}) == {a};
  }

  lemma StartFailedApplied(h: TaskDef -> string, a: Action, c: ContainerInfo, s: Slot)
    requires a.Create? && a.slot == s && Fills(c, s, a.specHash)
    ensures Applied(h, [a], {s}, map[], map[c.id := c], {})
  {
    assert a in [a];
    assert MadeBy(h, [a], c);
  }

  lemma StillQuiet(h: TaskDef -> string, svc: Service, c: ContainerInfo, s: Slot, r: Round)
    requires svc.spec.replicas == 1 && s == Slot(svc.project, svc.name, 0) && Fills(c, s, h(svc.spec)) && IsActive(c.state)
    requires r.desired == [svc] && r.project == svc.project && r.after == map[c.id := c]
    ensures Converged(h, r)
  {
    WantedOne(svc);
    forall listing' | Enumerates(listing', r.after, svc.project) ensures Actions(h, [svc], listing', {}) == multiset{} {
      assert c in listing' && forall d | d in listing' :: d == c;
      forall t ensures SlotFits(h, [svc], listing', t) {
      }
      SettledIsQuiet(h, [svc], listing');
    }
  }

  lemma WantedOne(svc: Service)
    requires svc.spec.replicas == 1
    ensures DesiredMap([svc]) == map[Slot(svc.project, svc.name, 0) := svc]
  {
    assert [svc][..0] == [];
    assert AddReplicas(map[], svc, 0) == map[];
    assert AddReplicas(map[], svc, 1) == map[Slot(svc.project, svc.name, 0) := svc];
  }

  /** The container fills a desired slot and the tick leaves it alone. */
  ghost predicate Stays(h: TaskDef -> string, r: Round, c: ContainerInfo) {
    && c in r.listing && SlotOf(c.labels).Some? && SlotOf(c.labels).value in DesiredMap(r.desired)
    && !Condemned(h, r.desired, r.listing, r.unhealthy, c)
  }

  /** After the tick every container in a desired slot runs. */
  ghost predicate DesiredRun(r: Round) {
    forall id | id in r.after && InProject(r.after[id], r.project) && SlotOf(r.after[id].labels).Some?
                && SlotOf(r.after[id].labels).value in DesiredMap(r.desired) ::
      r.after[id].state == "running"
  }

  /** Exactly when a fully successful tick leaves only running containers in
      desired slots: when those it leaves alone were running. */
  lemma RunsExactly(h: TaskDef -> string, r: Round)
    requires Reconciled(h, r) && r.failed == {}
    ensures DesiredRun(r) <==> forall c | Stays(h, r, c) :: c.state == "running"
  {
    forall c | Stays(h, r, c) ensures c.id in r.after && r.after[c.id] == c && InProject(c, r.project) {
      SparedSurvives(h, r, c);
    }
    if forall c | Stays(h, r, c) :: c.state == "running" {
      forall id | id in r.after && InProject(r.after[id], r.project) && SlotOf(r.after[id].labels).Some?
                  && SlotOf(r.after[id].labels).value in DesiredMap(r.desired)
        ensures r.after[id].state == "running"
      {
        OccupantRuns(h, r, r.after[id], SlotOf(r.after[id].labels).value);
      }
    }
  }

  lemma OccupantRuns(h: TaskDef -> string, r: Round, c: ContainerInfo, s: Slot)
    requires Reconciled(h, r) && s !in r.failed && s in DesiredMap(r.desired)
    requires c.id in r.after && r.after[c.id] == c && InProject(c, r.project) && SlotOf(c.labels) == Some(s)
    ensures c.state == "running" || Stays(h, r, c)
  {
    if c.id in r.before {
      SurvivorNotCondemned(h, r, c, s);
    } else {
      var a := NewcomerMade(h, r, c.id, s);
      NewcomerAlone(h, r, c.id, s, a);
    }
  }

  /** The diff has nothing to do for the desired slot: what counts in it fits. */
  ghost predicate Idle(h: TaskDef -> string, r: Round, s: Slot) {
    var want, live := DesiredMap(r.desired), LiveMap(r.listing, r.unhealthy);
    s in want && s in live && WantedAction(h, want, live, s) == None
  }

  /** With one live container per slot: every desired slot's container runs
      after the tick if and only if the one that counted in each slot the diff
      had nothing to do for was running before. */
  lemma OccupantsRunExactly(h: TaskDef -> string, r: Round)
    requires Reconciled(h, r) && r.failed == {} && OneLivePerSlot(r.listing, r.unhealthy)
    ensures DesiredRun(r) <==> forall s | Idle(h, r, s) :: LiveMap(r.listing, r.unhealthy)[s].state == "running"
  {
    RunsExactly(h, r);
    if DesiredRun(r) {
      forall s | Idle(h, r, s) ensures LiveMap(r.listing, r.unhealthy)[s].state == "running" { CountingStays(h, r, s); }
    }
    if forall s | Idle(h, r, s) :: LiveMap(r.listing, r.unhealthy)[s].state == "running" {
      forall c | Stays(h, r, c) ensures c.state == "running" { StayingCounts(h, r, c); }
    }
  }

  lemma CountingStays(h: TaskDef -> string, r: Round, s: Slot)
    requires Idle(h, r, s)
    ensures Stays(h, r, LiveMap(r.listing, r.unhealthy)[s])
  {
    LiveSound(r.listing, r.unhealthy, s);
  }

  lemma StayingCounts(h: TaskDef -> string, r: Round, c: ContainerInfo)
    requires OneLivePerSlot(r.listing, r.unhealthy) && Stays(h, r, c)
    ensures var s := SlotOf(c.labels).value; Idle(h, r, s) && LiveMap(r.listing, r.unhealthy)[s] == c
  {
    LiveComplete(r.listing, r.unhealthy, c);
    LiveSound(r.listing, r.unhealthy, SlotOf(c.labels).value);
  }

  // ---------- drain ----------

  /** The containers of the project in slot `s`. */
  function Occupants(w: World, project: string, s: Slot): set<string> {
    set id | id in w && InProject(w[id], project) && SlotOf(w[id].labels) == Some(s)
  }

  function ActiveOccupants(w: World, project: string, s: Slot): set<string> {
    set id | id in Occupants(w, project, s) && IsActive(w[id].state)
  }

  /** An undesired slot only loses containers: the dead and unhealthy ones and
      the last listed of the others. */
  lemma UndesiredSlotDrains(h: TaskDef -> string, r: Round, s: Slot)
    requires Reconciled(h, r) && s !in r.failed && s !in DesiredMap(r.desired)
    ensures var was, now := Occupants(r.before, r.project, s), Occupants(r.after, r.project, s);
            && now <= ActiveOccupants(r.before, r.project, s) <= was
            && now == ActiveOccupants(r.after, r.project, s)
            && (was != {} ==> now < was)
            && (ActiveOccupants(r.before, r.project, s) != {} ==> now < ActiveOccupants(r.before, r.project, s))
  {
    var live, active := LiveMap(r.listing, r.unhealthy), ActiveOccupants(r.before, r.project, s);
    var was, now := Occupants(r.before, r.project, s), Occupants(r.after, r.project, s);
    forall id | id in now ensures id in active && r.after[id] == r.before[id] && (s in live ==> live[s].id != id) {
      StayerActive(h, r, id, s);
    }
    if s in live {
      LiveSound(r.listing, r.unhealthy, s);
      assert live[s].id in active && live[s].id !in now;
    } else if id :| id in was {
      StayersNone(h, r, s);
      assert now == {};
    }
  }

  lemma StayerActive(h: TaskDef -> string, r: Round, id: string, s: Slot)
    requires Reconciled(h, r) && s !in r.failed && s !in DesiredMap(r.desired) && id in Occupants(r.after, r.project, s)
    ensures id in ActiveOccupants(r.before, r.project, s) && r.after[id] == r.before[id]
    ensures s in LiveMap(r.listing, r.unhealthy) && LiveMap(r.listing, r.unhealthy)[s].id != id
  {
    if id !in r.before {
      var a := NewcomerMade(h, r, id, s);
    }
    var c := r.after[id];
    SurvivorNotCondemned(h, r, c, s);
    LiveComplete(r.listing, r.unhealthy, c);
    LiveSound(r.listing, r.unhealthy, s);
    SameId(r.listing, c, LiveMap(r.listing, r.unhealthy)[s]);
  }

  lemma StayersNone(h: TaskDef -> string, r: Round, s: Slot)
    requires Reconciled(h, r) && s !in r.failed && s !in DesiredMap(r.desired) && s !in LiveMap(r.listing, r.unhealthy)
    ensures Occupants(r.after, r.project, s) == {}
  {
    forall id ensures id !in Occupants(r.after, r.project, s) {
      if id in Occupants(r.after, r.project, s) { StayerActive(h, r, id, s); }
    }
  }

  /** No slot of the service is desired. */
  ghost predicate Undesired(desired: seq<Service>, project: string, service: string) {
    forall s | s in DesiredMap(desired) :: s.project != project || s.service != service
  }

  /** A round in which the service is not desired and no action on it fails. */
  ghost predicate DrainRound(h: TaskDef -> string, r: Round, project: string, service: string) {
    && Reconciled(h, r) && r.project == project && Undesired(r.desired, project, service)
    && forall s | s in r.failed :: s.project != project || s.service != service
  }

  /** Between two rounds no container of the service appears and none is
      relabelled; they may change state or go, and others may do anything. */
  ghost predicate Continues(earlier: World, later: World, project: string, service: string) {
    forall id | id in ServiceOccupants(later, project, service) :: id in earlier && earlier[id].labels == later[id].labels
  }

  /** Successive rounds. */
  ghost predicate DrainRun(h: TaskDef -> string, rounds: seq<Round>, project: string, service: string) {
    && (forall i | 0 <= i < |rounds| :: DrainRound(h, rounds[i], project, service))
    && (forall i | 0 < i < |rounds| :: Continues(rounds[i - 1].after, rounds[i].before, project, service))
  }

  /** The containers of the service, in whatever slot. */
  function ServiceOccupants(w: World, project: string, service: string): set<string> {
    set id | id in w && InProject(w[id], project) && SlotOf(w[id].labels).Some? && SlotOf(w[id].labels).value.service == service
  }

  lemma {:induction false} SmallerSet<T>(a: set<T>, b: set<T>)
    requires a <= b
    ensures |a| <= |b| && (a < b ==> |a| < |b|)
  {
    assert |b| == |a| + |b - a| by { assert b == a + (b - a); }
    if a < b {
      var x :| x in b - a;
    }
  }

  /** After k rounds a slot holds at most (its live containers at the start) - k. */
  lemma {:induction false} SlotBound(h: TaskDef -> string, rounds: seq<Round>, project: string, service: string, s: Slot, k: nat)
    requires DrainRun(h, rounds, project, service) && 1 <= k <= |rounds|
    requires s.project == project && s.service == service
    ensures var live := |ActiveOccupants(rounds[0].before, project, s)|;
            |Occupants(rounds[k - 1].after, project, s)| <= if k <= live then live - k else 0
  {
    var r := rounds[k - 1];
    UndesiredSlotDrains(h, r, s);
    var active, now := ActiveOccupants(r.before, project, s), Occupants(r.after, project, s);
    SmallerSet(now, active);
    if k > 1 {
      SlotBound(h, rounds, project, service, s, k - 1);
      StillThere(rounds[k - 2].after, r.before, project, s);
      SmallerSet(active, Occupants(rounds[k - 2].after, project, s));
    }
  }

  lemma StillThere(earlier: World, later: World, project: string, s: Slot)
    requires Continues(earlier, later, project, s.service)
    ensures ActiveOccupants(later, project, s) <= Occupants(earlier, project, s)
  {
    forall id | id in ActiveOccupants(later, project, s) ensures id in Occupants(earlier, project, s) {
      assert id in ServiceOccupants(later, project, s.service);
    }
  }

  /** In every round a service with containers left loses at least one. */
  lemma DrainDecreases(h: TaskDef -> string, r: Round, project: string, service: string)
    requires DrainRound(h, r, project, service)
    ensures var was, now := ServiceOccupants(r.before, project, service), ServiceOccupants(r.after, project, service);
            now <= was && (was != {} ==> now < was && |now| < |was|)
  {
    var was, now := ServiceOccupants(r.before, project, service), ServiceOccupants(r.after, project, service);
    forall id | id in now ensures id in was {
      var s := SlotOf(r.after[id].labels).value;
      UndesiredSlotDrains(h, r, s);
      assert id in Occupants(r.after, project, s);
    }
    if id :| id in was {
      var s := SlotOf(r.before[id].labels).value;
      UndesiredSlotDrains(h, r, s);
      assert id in Occupants(r.before, project, s);
      SlotLoses(r, project, service, s);
    }
    SmallerSet(now, was);
  }

  lemma SlotLoses(r: Round, project: string, service: string, s: Slot)
    requires s.project == project && s.service == service
    requires Occupants(r.after, project, s) < Occupants(r.before, project, s)
    requires forall id | id in r.before && id in r.after :: r.after[id].labels == r.before[id].labels
    ensures exists id :: id in ServiceOccupants(r.before, project, service) && id !in ServiceOccupants(r.after, project, service)
  {
    var id :| id in Occupants(r.before, project, s) && id !in Occupants(r.after, project, s);
    assert id in ServiceOccupants(r.before, project, service);
  }

  /** Drain terminates, even with several containers in one slot: after as many
      rounds as the fullest slot had live containers, and at least one, nothing
      of the service is left. */
  lemma DrainTerminates(h: TaskDef -> string, rounds: seq<Round>, project: string, service: string, most: nat)
    requires DrainRun(h, rounds, project, service) && |rounds| >= 1 && |rounds| >= most
    requires forall s: Slot | s.project == project && s.service == service ::
               |ActiveOccupants(rounds[0].before, project, s)| <= most
    ensures ServiceOccupants(rounds[|rounds| - 1].after, project, service) == {}
  {
    var w := rounds[|rounds| - 1].after;
    if id :| id in ServiceOccupants(w, project, service) {
      var s := SlotOf(w[id].labels).value;
      assert id in Occupants(w, project, s);
      SlotBound(h, rounds, project, service, s, |rounds|);
      assert false;
    }
  }
}
