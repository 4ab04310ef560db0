/** How many ticks reach the fixed point on a runtime that fails only where it
    must. */
module TwoTicks {
  import opened Domain
  import opened Labels
  import opened Diff
  import opened Churn
  import opened Journal
  import opened Runtime
  import opened Strategy
  import opened Tick
  import opened Convergence
  import opened Reconciler
  import opened Success
  import opened Liveness

  // ---------- what is left after some actions ----------

  /** The action takes its container away even if it is refused. */
  predicate TakesAnyway(a: Action) {
    a.Replace? && StopsFirst(a.spec)
  }

  ghost predicate Taken(actions: seq<Action>, t: Trace, i: nat, id: string)
    requires i <= |actions| == |t.oks|
  {
    exists j | 0 <= j < i :: actions[j].Names(id) && (t.oks[j] || TakesAnyway(actions[j]))
  }

  ghost predicate MadeBefore(actions: seq<Action>, t: Trace, i: nat, c: ContainerInfo)
    requires i <= |actions| == |t.oks|
  {
    exists j | 0 <= j < i :: t.oks[j] && actions[j].Makes() && InSlot(actions[j].slot, c)
  }

  /** The world after `i` actions, container by container. */
  ghost predicate LeftAfter(actions: seq<Action>, t: Trace, i: nat, before: World, w: World, used: set<string>)
    requires i <= |actions| == |t.oks|
  {
    && (forall id | id in before :: id in w <==> !Taken(actions, t, i, id))
    && (forall id | id in before && id in w :: w[id] == before[id])
    && (forall n | n in w && n !in before :: n !in used && MadeBefore(actions, t, i, w[n]))
  }

  lemma TakenStep(actions: seq<Action>, t: Trace, i: nat, id: string)
    requires i < |actions| == |t.oks|
    ensures Taken(actions, t, i + 1, id) <==> Taken(actions, t, i, id) || (actions[i].Names(id) && (t.oks[i] || TakesAnyway(actions[i])))
  {
  }

  lemma MadeStep(actions: seq<Action>, t: Trace, i: nat, c: ContainerInfo)
    requires i < |actions| == |t.oks|
    ensures MadeBefore(actions, t, i + 1, c) <==> MadeBefore(actions, t, i, c) || (t.oks[i] && actions[i].Makes() && InSlot(actions[i].slot, c))
  {
  }

  /** An action's container is still there when its turn comes. */
  lemma NotTakenYet(actions: seq<Action>, t: Trace, i: nat)
    requires i < |actions| == |t.oks| && NamesDiffer(actions) && !actions[i].Create?
    ensures !Taken(actions, t, i, actions[i].id)
  {
  }

  /** On a reliable runtime a container that was there is gone exactly if the
      action takes it, and otherwise unchanged; what is new was made. */
  lemma StepLeaves(a: Action, w: World, w': World, used: set<string>, ok: bool, healthy: bool)
    requires Performed(a, w, w', used, ok, true, healthy) && (a.Create? || a.id in w)
    ensures forall id | id in w :: id in w' <==> !(a.Names(id) && (ok || TakesAnyway(a)))
    ensures forall id | id in w && id in w' :: w'[id] == w[id]
    ensures forall n | n in w' && n !in w :: ok && n !in used && a.Makes() && InSlot(a.slot, w'[n])
    ensures a.Remove? ==> ok
  {
  }

  lemma LeftStep(actions: seq<Action>, t: Trace, i: nat, before: World, w: World, w': World, used: set<string>, healthy: bool)
    requires i < |actions| == |t.oks| && NamesDiffer(actions) && before.Keys <= used && LeftAfter(actions, t, i, before, w, used)
    requires !actions[i].Create? ==> actions[i].id in before
    requires Performed(actions[i], w, w', used, t.oks[i], true, healthy)
    ensures LeftAfter(actions, t, i + 1, before, w', used)
    ensures actions[i].Remove? ==> t.oks[i]
  {
    var a := actions[i];
    if !a.Create? { NotTakenYet(actions, t, i); }
    StepLeaves(a, w, w', used, t.oks[i], healthy);
    forall id | id in before ensures id in w' <==> !Taken(actions, t, i + 1, id) {
      TakenStep(actions, t, i, id);
    }
    forall n | n in w' && n !in before ensures n !in used && MadeBefore(actions, t, i + 1, w'[n]) {
      MadeStep(actions, t, i, w'[n]);
    }
  }

  lemma {:induction false} LeftAt(actions: seq<Action>, t: Trace, i: nat, used: set<string>)
    requires Traced(actions, t, used, true) && i <= |actions| && NamesDiffer(actions) && t.worlds[0].Keys <= used
    requires forall a | a in actions && !a.Create? :: a.id in t.worlds[0]
    ensures LeftAfter(actions, t, i, t.worlds[0], t.worlds[i], used)
  {
    if i > 0 {
      var k := i - 1;
      LeftAt(actions, t, k, used);
      PerformedAt(actions, t, k, used);
      assert actions[k] in actions;
      LeftStep(actions, t, k, t.worlds[0], t.worlds[k], t.worlds[i], used, t.healthy[k]);
    }
  }

  lemma RemoveSucceeds(actions: seq<Action>, t: Trace, j: nat, used: set<string>)
    requires Traced(actions, t, used, true) && j < |actions| && NamesDiffer(actions) && t.worlds[0].Keys <= used
    requires (forall a | a in actions && !a.Create? :: a.id in t.worlds[0]) && actions[j].Remove?
    ensures t.oks[j]
  {
    LeftAt(actions, t, j, used);
    PerformedAt(actions, t, j, used);
    NotTakenYet(actions, t, j);
    assert actions[j] in actions;
  }

  lemma PerformedAt(actions: seq<Action>, t: Trace, k: nat, used: set<string>)
    requires Traced(actions, t, used, true) && k < |actions|
    ensures Performed(actions[k], t.worlds[k], t.worlds[k + 1], used, t.oks[k], true, t.healthy[k])
  {
  }

  /** A tick on a reliable runtime. */
  ghost predicate Turn(h: TaskDef -> string, r: Round, t: Trace) {
    Reconciled(h, r) && Ran(r, t, true)
  }

  lemma NamedBefore(h: TaskDef -> string, r: Round)
    requires Reconciled(h, r)
    ensures forall a | a in r.actions && !a.Create? :: a.id in r.before
  {
    MemberOf(r.actions, Actions(h, r.desired, r.listing, r.unhealthy));
    forall a | a in r.actions && !a.Create? ensures a.id in r.before {
      var c := ActionNamesCondemned(h, r.desired, r.listing, r.unhealthy, a);
    }
  }

  lemma LeftOver(h: TaskDef -> string, r: Round, t: Trace)
    requires Turn(h, r, t)
    ensures LeftAfter(r.actions, t, |r.actions|, r.before, r.after, r.used)
    ensures forall j | 0 <= j < |r.actions| && r.actions[j].Remove? :: t.oks[j]
    ensures MakersDiffer(r.actions) && NamesDiffer(r.actions)
  {
    ActionsRunnable(h, r.desired, r.listing, r.unhealthy, r.actions, r.before, r.project, r.used);
    NamedBefore(h, r);
    LeftAt(r.actions, t, |r.actions|, r.used);
    forall j | 0 <= j < |r.actions| && r.actions[j].Remove? ensures t.oks[j] { RemoveSucceeds(r.actions, t, j, r.used); }
  }

  // ---------- slots whose action was refused ----------

  /** What a refused slot may still hold: the container that a start-first
      replace was to succeed, untouched. */
  ghost predicate LeftHeld(r: Round, s: Slot, c: ContainerInfo) {
    var live := LiveMap(r.listing, r.unhealthy);
    && s in live && live[s] == c && c.id in r.before && r.before[c.id] == c
    && exists a | a in r.actions :: a.Replace? && a.slot == s && a.id == c.id && !Plain(a)
  }

  lemma RefusedMaker(r: Round, t: Trace, s: Slot) returns (i: nat)
    requires Ran(r, t, true) && s in r.failed
    requires forall j | 0 <= j < |r.actions| && r.actions[j].Remove? :: t.oks[j]
    ensures i < |r.actions| && !t.oks[i] && r.actions[i].slot == s && r.actions[i].Makes()
  {
    i :| 0 <= i < |r.actions| && !t.oks[i] && r.actions[i].slot == s;
  }

  lemma SameMaker(actions: seq<Action>, i: nat, j: nat)
    requires MakersDiffer(actions) && i < |actions| && j < |actions|
    requires actions[i].Makes() && actions[j].Makes() && actions[i].slot == actions[j].slot
    ensures i == j
  {
  }

  /** What is new in a slot was made by an action that succeeded. */
  lemma NewMade(h: TaskDef -> string, r: Round, t: Trace, c: ContainerInfo, s: Slot) returns (j: nat)
    requires Turn(h, r, t) && c.id in r.after && r.after[c.id] == c && c.id !in r.before && SlotOf(c.labels) == Some(s)
    ensures j < |r.actions| && t.oks[j] && r.actions[j].Makes() && r.actions[j].slot == s
  {
    LeftOver(h, r, t);
    assert MadeBefore(r.actions, t, |r.actions|, c);
    j :| 0 <= j < |r.actions| && t.oks[j] && r.actions[j].Makes() && InSlot(r.actions[j].slot, c);
  }

  /** Where something new was made nothing was refused. */
  lemma NewNotRefused(h: TaskDef -> string, r: Round, t: Trace, c: ContainerInfo, s: Slot)
    requires Turn(h, r, t) && c.id in r.after && r.after[c.id] == c && c.id !in r.before && SlotOf(c.labels) == Some(s)
    ensures s !in r.failed
  {
    LeftOver(h, r, t);
    var j := NewMade(h, r, t, c, s);
    if s in r.failed {
      var i := RefusedMaker(r, t, s);
      SameMaker(r.actions, i, j);
    }
  }

  lemma RotatedTaken(h: TaskDef -> string, r: Round, t: Trace, c: ContainerInfo)
    requires Turn(h, r, t) && c in r.listing && SlotOf(c.labels).Some? && !Kept(c, r.unhealthy)
    ensures Taken(r.actions, t, |r.actions|, c.id)
  {
    LeftOver(h, r, t);
    var a := Action.Remove(SlotOf(c.labels).value, c.id, RotationReason(c));
    RotationsComplete(r.listing, r.unhealthy, a, c);
    MemberOf(r.actions, Actions(h, r.desired, r.listing, r.unhealthy));
    var j :| 0 <= j < |r.actions| && r.actions[j] == a;
    assert r.actions[j].Names(c.id) && t.oks[j];
  }

  /** A refused slot holds at most the container that should have been replaced. */
  lemma RefusedHolds(h: TaskDef -> string, r: Round, t: Trace, c: ContainerInfo, s: Slot)
    requires Turn(h, r, t) && s in r.failed && OneLivePerSlot(r.listing, r.unhealthy)
    requires c.id in r.after && r.after[c.id] == c && InProject(c, r.project) && SlotOf(c.labels) == Some(s)
    ensures s in DesiredMap(r.desired) && LeftHeld(r, s, c) && IsActive(c.state)
  {
    var live := LiveMap(r.listing, r.unhealthy);
    LeftOver(h, r, t);
    if c.id !in r.before { NewNotRefused(h, r, t, c, s); }
    if !Kept(c, r.unhealthy) { RotatedTaken(h, r, t, c); }
    LiveComplete(r.listing, r.unhealthy, c);
    LiveSound(r.listing, r.unhealthy, s);
    RefusedReplace(h, r, t, c, s);
  }

  /** What was refused in a slot with a live container is its replacement. */
  lemma RefusedReplace(h: TaskDef -> string, r: Round, t: Trace, c: ContainerInfo, s: Slot)
    requires Turn(h, r, t) && s in r.failed && !Taken(r.actions, t, |r.actions|, c.id)
    requires s in LiveMap(r.listing, r.unhealthy) && LiveMap(r.listing, r.unhealthy)[s] == c
    ensures s in DesiredMap(r.desired) && exists a | a in r.actions :: a.Replace? && a.slot == s && a.id == c.id && !Plain(a)
  {
    LeftOver(h, r, t);
    var i := RefusedMaker(r, t, s);
    var a := r.actions[i];
    MemberOf(r.actions, Actions(h, r.desired, r.listing, r.unhealthy));
    MakingIsWanted(h, r.desired, r.listing, r.unhealthy, a);
    assert a.Replace? && a.id == c.id && a.Names(c.id);
    assert !TakesAnyway(a);
  }

  // ---------- after the first tick ----------

  /** Every container of the project that is left sits in a desired slot, is
      active, and either fits or is the one a refused replace left. */
  lemma AfterFirst(h: TaskDef -> string, r: Round, t: Trace, c: ContainerInfo, s: Slot)
    requires Turn(h, r, t) && OneLivePerSlot(r.listing, r.unhealthy)
    requires c.id in r.after && r.after[c.id] == c && InProject(c, r.project) && SlotOf(c.labels) == Some(s)
    ensures var want := DesiredMap(r.desired);
            && s in want && IsActive(c.state)
            && if s in r.failed then LeftHeld(r, s, c) else Get(c.labels, SPEC_HASH) == h(want[s].spec)
  {
    if s in r.failed {
      RefusedHolds(h, r, t, c, s);
    } else {
      OccupantRight(h, r, c, s);
    }
  }

  lemma AfterFirstAlone(h: TaskDef -> string, r: Round, t: Trace, c: ContainerInfo, d: ContainerInfo, s: Slot)
    requires Turn(h, r, t) && OneLivePerSlot(r.listing, r.unhealthy)
    requires c.id in r.after && r.after[c.id] == c && InProject(c, r.project) && SlotOf(c.labels) == Some(s)
    requires d.id in r.after && r.after[d.id] == d && InProject(d, r.project) && SlotOf(d.labels) == Some(s)
    ensures c == d
  {
    if s in r.failed {
      RefusedHolds(h, r, t, c, s);
      RefusedHolds(h, r, t, d, s);
    } else {
      OccupantsAgree(h, r, c, d, s);
    }
  }

  /** The names of desired slots are held only in those slots. */
  ghost predicate WellNamed(w: World, project: string, desired: seq<Service>) {
    forall id, s | id in w && s in DesiredMap(desired) :: HoldsRightly(w[id], project, s)
  }

  predicate HoldsRightly(c: ContainerInfo, project: string, s: Slot) {
    NamedFor(s, c.name) ==> InProject(c, project) && SlotOf(c.labels) == Some(s)
  }

  lemma WellNamedAt(w: World, project: string, desired: seq<Service>, id: string, s: Slot)
    requires WellNamed(w, project, desired) && id in w && s in DesiredMap(desired) && NamedFor(s, w[id].name)
    ensures InProject(w[id], project) && SlotOf(w[id].labels) == Some(s)
  {
    assert HoldsRightly(w[id], project, s);
  }

  lemma NewWellNamed(h: TaskDef -> string, r: Round, t: Trace, c: ContainerInfo, s: Slot)
    requires Reconciled(h, r) && |t.oks| == |r.actions| && MadeBefore(r.actions, t, |r.actions|, c)
    requires s in DesiredMap(r.desired) && NamedFor(s, c.name)
    ensures InProject(c, r.project) && SlotOf(c.labels) == Some(s)
  {
    var j :| 0 <= j < |r.actions| && t.oks[j] && r.actions[j].Makes() && InSlot(r.actions[j].slot, c);
    MadeInProject(h, r);
    assert r.actions[j] in r.actions;
    DesiredSound(r.desired, s);
    SameSlotName(s, r.actions[j].slot, c.name);
  }

  lemma StaysNamedAt(h: TaskDef -> string, r: Round, t: Trace, id: string, s: Slot)
    requires Turn(h, r, t) && WellNamed(r.before, r.project, r.desired)
    requires id in r.after && s in DesiredMap(r.desired) && NamedFor(s, r.after[id].name)
    ensures InProject(r.after[id], r.project) && SlotOf(r.after[id].labels) == Some(s)
  {
    LeftOver(h, r, t);
    if id in r.before { WellNamedAt(r.before, r.project, r.desired, id, s); } else { NewWellNamed(h, r, t, r.after[id], s); }
  }

  lemma StaysWellNamed(h: TaskDef -> string, r: Round, t: Trace)
    requires Turn(h, r, t) && WellNamed(r.before, r.project, r.desired)
    ensures WellNamed(r.after, r.project, r.desired)
  {
    forall id, s | id in r.after && s in DesiredMap(r.desired) ensures HoldsRightly(r.after[id], r.project, s) {
      if NamedFor(s, r.after[id].name) { StaysNamedAt(h, r, t, id, s); }
    }
  }

  lemma SameSlotName(s: Slot, u: Slot, name: string)
    requires s.replica >= 0 && u.replica >= 0 && NamedFor(s, name) && NamedFor(u, name)
    ensures s.project == u.project ==> s == u
  {
    if s.project == u.project && s != u { NamesApart(s, u); }
  }

  // ---------- the second tick ----------

  /** Two ticks in a row with the same desired services; in the second nothing
      is given up on. */
  ghost predicate Consecutive(r1: Round, r2: Round) {
    r2.before == r1.after && r2.desired == r1.desired && r2.project == r1.project && r2.unhealthy == {}
  }

  /** No container that a start-first replace is to succeed has a temporary name. */
  ghost predicate NoneStuck(r: Round) {
    forall a | a in r.actions && a.Replace? && !Plain(a) && a.id in r.before :: r.before[a.id].name != MeanwhileName(a.slot)
  }

  lemma SecondAlone(h: TaskDef -> string, r1: Round, t1: Trace, r2: Round)
    requires Turn(h, r1, t1) && OneLivePerSlot(r1.listing, r1.unhealthy) && Reconciled(h, r2) && Consecutive(r1, r2)
    ensures OneLivePerSlot(r2.listing, r2.unhealthy)
  {
    forall c, d | c in r2.listing && d in r2.listing && Kept(c, {}) && Kept(d, {}) && SlotOf(c.labels) == SlotOf(d.labels) ensures c == d {
      AfterFirstAlone(h, r1, t1, c, d, SlotOf(c.labels).value);
    }
  }

  /** What counts in a slot of the second tick. */
  lemma SecondLive(h: TaskDef -> string, r1: Round, t1: Trace, r2: Round, c: ContainerInfo, s: Slot)
    requires Turn(h, r1, t1) && OneLivePerSlot(r1.listing, r1.unhealthy) && Reconciled(h, r2) && Consecutive(r1, r2)
    requires c in r2.listing && SlotOf(c.labels) == Some(s)
    ensures s in LiveMap(r2.listing, r2.unhealthy) && LiveMap(r2.listing, r2.unhealthy)[s] == c
    ensures s in DesiredMap(r2.desired) && (s !in r1.failed ==> Get(c.labels, SPEC_HASH) == h(DesiredMap(r2.desired)[s].spec))
    ensures s in r1.failed ==> LeftHeld(r1, s, c)
  {
    AfterFirst(h, r1, t1, c, s);
    LiveComplete(r2.listing, r2.unhealthy, c);
    LiveSound(r2.listing, r2.unhealthy, s);
    AfterFirstAlone(h, r1, t1, c, LiveMap(r2.listing, r2.unhealthy)[s], s);
  }

  /** The second tick only makes containers. */
  lemma SecondMakes(h: TaskDef -> string, r1: Round, t1: Trace, r2: Round, a: Action)
    requires Turn(h, r1, t1) && OneLivePerSlot(r1.listing, r1.unhealthy) && Reconciled(h, r2) && Consecutive(r1, r2)
    requires a in r2.actions
    ensures a.Makes() && a.slot in DesiredMap(r2.desired)
    ensures WantedAction(h, DesiredMap(r2.desired), LiveMap(r2.listing, r2.unhealthy), a.slot) == Some(a)
  {
    MemberOf(r2.actions, Actions(h, r2.desired, r2.listing, r2.unhealthy));
    if a.Remove? {
      var c := ActionNamesCondemned(h, r2.desired, r2.listing, r2.unhealthy, a);
      AfterFirst(h, r1, t1, c, a.slot);
      assert false;
    } else {
      MakingIsWanted(h, r2.desired, r2.listing, r2.unhealthy, a);
    }
  }

  /** A container with the name that an action of the second tick needs is the
      one that it replaces. */
  lemma SecondHolder(h: TaskDef -> string, r1: Round, t1: Trace, r2: Round, a: Action, id: string)
    requires Turn(h, r1, t1) && OneLivePerSlot(r1.listing, r1.unhealthy) && Reconciled(h, r2) && Consecutive(r1, r2)
    requires a in r2.actions && id in r2.before && InProject(r2.before[id], r2.project) && SlotOf(r2.before[id].labels) == Some(a.slot)
    ensures a.Replace? && a.id == id && a.slot in r1.failed && LeftHeld(r1, a.slot, r2.before[id])
  {
    var c := r2.before[id];
    SecondMakes(h, r1, t1, r2, a);
    assert c in r2.listing;
    SecondLive(h, r1, t1, r2, c, a.slot);
    ReplacesLive(h, DesiredMap(r2.desired), LiveMap(r2.listing, r2.unhealthy), a, c);
  }

  lemma ReplacesLive(h: TaskDef -> string, want: map<Slot, Service>, live: map<Slot, ContainerInfo>, a: Action, c: ContainerInfo)
    requires a.slot in want && WantedAction(h, want, live, a.slot) == Some(a) && a.slot in live && live[a.slot] == c
    ensures a.Replace? && a.id == c.id && Get(c.labels, SPEC_HASH) != h(want[a.slot].spec)
  {
  }

  /** Nothing stands in the way of an action of the second tick. */
  lemma SecondClearAt(h: TaskDef -> string, r1: Round, t1: Trace, r2: Round, i: nat, id: string)
    requires Turn(h, r1, t1) && OneLivePerSlot(r1.listing, r1.unhealthy) && Reconciled(h, r2) && Consecutive(r1, r2)
    requires WellNamed(r2.before, r2.project, r2.desired) && NoneStuck(r1)
    requires i < |r2.actions| && id in r2.before && r2.before[id].name == NameNeeded(r2.actions[i])
    ensures NamedBy(r2.actions, i, id)
  {
    var a, c := r2.actions[i], r2.before[id];
    SecondMakes(h, r1, t1, r2, a);
    WellNamedAt(r2.before, r2.project, r2.desired, id, a.slot);
    SecondHolder(h, r1, t1, r2, a, id);
    var b :| b in r1.actions && b.Replace? && b.slot == a.slot && b.id == c.id && !Plain(b);
    assert r1.before[b.id].name != MeanwhileName(b.slot);
  }

  /** Two ticks reach the fixed point: from a world with one live container per
      slot in which the slots' names are held only in those slots, and if no
      container to be replaced start-first has its temporary name and every new
      one is seen healthy in time, the second tick succeeds in full, whatever
      was refused in the first, and after it there is nothing to do. One tick
      is enough exactly if its actions are clear (`TickSucceedsExactly`). */
  lemma TwoTicksConverge(h: TaskDef -> string, r1: Round, t1: Trace, r2: Round, t2: Trace)
    requires Turn(h, r1, t1) && Turn(h, r2, t2) && Consecutive(r1, r2)
    requires OneLivePerSlot(r1.listing, r1.unhealthy) && WellNamed(r1.before, r1.project, r1.desired) && NoneStuck(r1)
    requires HealthyUpTo(r2.actions, t2, |r2.actions|)
    ensures r2.failed == {} && Converged(h, r2)
  {
    NamedBefore(h, r2);
    StaysWellNamed(h, r1, t1);
    forall i | 0 <= i < |r2.actions| ensures ClearAt(r2.actions, i, r2.before) {
      assert r2.actions[i] in r2.actions;
      forall id | r2.actions[i].Makes() && id in r2.before && r2.before[id].name == NameNeeded(r2.actions[i]) ensures NamedBy(r2.actions, i, id) {
        SecondClearAt(h, r1, t1, r2, i, id);
      }
    }
    TickSucceedsExactly(h, r2, t2);
    SecondAlone(h, r1, t1, r2);
    NoLeftovers(h, r2);
    ConvergesExactly(h, r2);
  }

  // ---------- what two ticks do not mend ----------

  lemma DriftDiff(h: TaskDef -> string, svc: Service, c: ContainerInfo, s: Slot, a: Action)
    requires svc.spec.replicas == 1 && s == Slot(svc.project, svc.name, 0) && SlotOf(c.labels) == Some(s) && Kept(c, {})
    requires Get(c.labels, SPEC_HASH) != h(svc.spec)
    requires a == Replace(s, svc.spec, h(svc.spec), c.id, "spec_hash drift")
    ensures Actions(h, [svc], [c], {}) == multiset{a}
  {
    WantedOne(svc);
    assert [c][..0] == [];
    assert LiveMap([c], {}) == map[s := c] && Rotations([c], {}) == [];
    assert WantedAction(h, map[s := svc], map[s := c], s) == Some(a);
    assert WantedActions(h, map[s := svc], map[s := c], {s}) == {a};
  }

  /** A start-first replica that kept its temporary name cannot be replaced: on
      a reliable runtime the tick is refused and ends in the world it started
      from, where the next one starts. */
  lemma LeakedNameStuck(h: TaskDef -> string, svc: Service, c: ContainerInfo) returns (r: Round, t: Trace)
    requires svc.spec.replicas == 1 && !StopsFirst(svc.spec) && IsActive(c.state) && InProject(c, svc.project)
    requires Get(c.labels, SPEC_HASH) != h(svc.spec)
    requires var s := Slot(svc.project, svc.name, 0); SlotOf(c.labels) == Some(s) && c.name == MeanwhileName(s)
    ensures Turn(h, r, t) && r.desired == [svc] && r.unhealthy == {}
    ensures r.before == r.after == map[c.id := c] && r.failed == {Slot(svc.project, svc.name, 0)} && !Converged(h, r)
  {
    var s := Slot(svc.project, svc.name, 0);
    var a := Replace(s, svc.spec, h(svc.spec), c.id, "spec_hash drift");
    var w: World := map[c.id := c];
    t := Trace([w, w], [false], [false]);
    DriftDiff(h, svc, c, s, a);
    assert c.id in w && !Unobstructed(a, w);
    assert Performed(a, w, w, {c.id}, false, true, false);
    OneApplied(h, a, w, w, false, {c.id});
    assert t.worlds[0] == w && t.worlds[1] == w && [a][0] == a;
    assert FailedAre([a], t, {s}) by { assert !t.oks[0] && [a][0].slot == s; }
    r := MakeRound(h, [svc], svc.project, {}, [c], [a], {s}, w, w, {c.id});
    assert Enumerates([c], r.after, svc.project) && a in Actions(h, [svc], [c], {});
  }
}
