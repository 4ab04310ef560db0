/** How little a diff disturbs: which containers and slots its actions name. */
module Churn {
  import opened Domain
  import opened Labels
  import opened Diff

  ghost predicate DistinctIds(actual: seq<ContainerInfo>) {
    forall i, j | 0 <= i < j < |actual| :: actual[i].id != actual[j].id
  }

  // ---------- the two maps ----------

  lemma {:induction false} LiveSound(actual: seq<ContainerInfo>, unhealthy: set<string>, s: Slot)
    requires s in LiveMap(actual, unhealthy)
    ensures var c := LiveMap(actual, unhealthy)[s];
            c in actual && Kept(c, unhealthy) && SlotOf(c.labels) == Some(s)
  {
    var n := |actual| - 1;
    if s in LiveMap(actual[..n], unhealthy) {
      LiveSound(actual[..n], unhealthy, s);
    }
  }

  lemma {:induction false} LiveComplete(actual: seq<ContainerInfo>, unhealthy: set<string>, c: ContainerInfo)
    requires c in actual && Kept(c, unhealthy)
    ensures SlotOf(c.labels).value in LiveMap(actual, unhealthy)
  {
    var n := |actual| - 1;
    if c != actual[n] {
      assert c in actual[..n];
      LiveComplete(actual[..n], unhealthy, c);
    }
  }

  ghost predicate Wants(svc: Service, s: Slot) {
    svc.project == s.project && svc.name == s.service && 0 <= s.replica < ReplicaCount(svc)
  }

  lemma {:induction false} AddReplicasAt(m: map<Slot, Service>, svc: Service, n: nat, s: Slot)
    ensures var r := AddReplicas(m, svc, n);
            if svc.project == s.project && svc.name == s.service && 0 <= s.replica < n
            then s in r && r[s] == svc
            else (s in r <==> s in m) && (s in m ==> r[s] == m[s])
  {
    if n > 0 { AddReplicasAt(m, svc, n - 1, s); }
  }

  lemma {:induction false} DesiredSound(desired: seq<Service>, s: Slot)
    requires s in DesiredMap(desired)
    ensures DesiredMap(desired)[s] in desired && Wants(DesiredMap(desired)[s], s)
  {
    var n := |desired| - 1;
    AddReplicasAt(DesiredMap(desired[..n]), desired[n], ReplicaCount(desired[n]), s);
    if !Wants(desired[n], s) {
      DesiredSound(desired[..n], s);
    }
  }

  lemma {:induction false} DesiredComplete(desired: seq<Service>, svc: Service, s: Slot)
    requires svc in desired && Wants(svc, s)
    ensures s in DesiredMap(desired)
  {
    var n := |desired| - 1;
    AddReplicasAt(DesiredMap(desired[..n]), desired[n], ReplicaCount(desired[n]), s);
    if svc != desired[n] {
      assert svc in desired[..n];
      DesiredComplete(desired[..n], svc, s);
    }
  }

  // ---------- membership ----------

  ghost predicate Rotates(a: Action, c: ContainerInfo, unhealthy: set<string>) {
    SlotOf(c.labels).Some? && !Kept(c, unhealthy) && a == Remove(SlotOf(c.labels).value, c.id, RotationReason(c))
  }

  lemma {:induction false} RotationsSound(actual: seq<ContainerInfo>, unhealthy: set<string>, a: Action)
    requires a in Rotations(actual, unhealthy)
    ensures exists c | c in actual :: Rotates(a, c, unhealthy)
  {
    var n := |actual| - 1;
    if a in Rotations(actual[..n], unhealthy) {
      RotationsSound(actual[..n], unhealthy, a);
      var c :| c in actual[..n] && Rotates(a, c, unhealthy);
      assert c in actual;
    } else {
      assert Rotates(a, actual[n], unhealthy);
    }
  }

  lemma RotationsGrow(actual: seq<ContainerInfo>, unhealthy: set<string>, a: Action)
    requires actual != []
    ensures var n := |actual| - 1;
            a in Rotations(actual, unhealthy) <==> a in Rotations(actual[..n], unhealthy) || Rotates(a, actual[n], unhealthy)
  {
  }

  lemma {:induction false} RotationsComplete(actual: seq<ContainerInfo>, unhealthy: set<string>, a: Action, c: ContainerInfo)
    requires c in actual && Rotates(a, c, unhealthy)
    ensures a in Rotations(actual, unhealthy)
  {
    var n := |actual| - 1;
    RotationsGrow(actual, unhealthy, a);
    if c != actual[n] {
      assert c in actual[..n];
      RotationsComplete(actual[..n], unhealthy, a, c);
    }
  }

  lemma {:induction false} RotationsOnce(actual: seq<ContainerInfo>, unhealthy: set<string>, a: Action)
    requires DistinctIds(actual)
    ensures multiset(Rotations(actual, unhealthy))[a] <= 1
  {
    if actual != [] {
      var n := |actual| - 1;
      RotationsOnce(actual[..n], unhealthy, a);
      if a in Rotations(actual[..n], unhealthy) {
        RotationsSound(actual[..n], unhealthy, a);
        var c :| c in actual[..n] && Rotates(a, c, unhealthy);
        assert a.id != actual[n].id;
      }
    }
  }

  /** The container an action takes away, and why. */
  ghost predicate Condemned(h: TaskDef -> string, desired: seq<Service>, actual: seq<ContainerInfo>, unhealthy: set<string>, c: ContainerInfo) {
    && SlotOf(c.labels).Some?
    && (Kept(c, unhealthy) ==>
          var s := SlotOf(c.labels).value;
          var live, want := LiveMap(actual, unhealthy), DesiredMap(desired);
          && s in live && live[s] == c
          && (s in want ==> Get(c.labels, SPEC_HASH) != h(want[s].spec)))
  }

  /** The action is the one its slot calls for. */
  ghost predicate SlotDecides(h: TaskDef -> string, desired: seq<Service>, actual: seq<ContainerInfo>, unhealthy: set<string>, a: Action) {
    var want, live := DesiredMap(desired), LiveMap(actual, unhealthy);
    if a.slot in want then Some(a) == WantedAction(h, want, live, a.slot)
    else a.slot in live && a == SurplusAction(live, a.slot)
  }

  /** Every removal or replacement names a listed container in its own slot
      that has to go. */
  lemma ActionNamesCondemned(h: TaskDef -> string, desired: seq<Service>, actual: seq<ContainerInfo>, unhealthy: set<string>, a: Action)
    returns (c: ContainerInfo)
    requires a in Actions(h, desired, actual, unhealthy) && !a.Create?
    ensures c in actual && a.id == c.id && SlotOf(c.labels) == Some(a.slot)
    ensures Condemned(h, desired, actual, unhealthy, c)
    ensures if Kept(c, unhealthy) then SlotDecides(h, desired, actual, unhealthy, a) else Rotates(a, c, unhealthy)
  {
    if a in Rotations(actual, unhealthy) {
      RotationsSound(actual, unhealthy, a);
      c :| c in actual && Rotates(a, c, unhealthy);
    } else {
      LiveSound(actual, unhealthy, a.slot);
      c := LiveMap(actual, unhealthy)[a.slot];
    }
  }

  lemma CondemnedIsNamed(h: TaskDef -> string, desired: seq<Service>, actual: seq<ContainerInfo>, unhealthy: set<string>, c: ContainerInfo)
    returns (a: Action)
    requires c in actual && Condemned(h, desired, actual, unhealthy, c)
    ensures a in Actions(h, desired, actual, unhealthy) && a.Names(c.id)
  {
    var s := SlotOf(c.labels).value;
    var live, want := LiveMap(actual, unhealthy), DesiredMap(desired);
    if !Kept(c, unhealthy) {
      a := Remove(s, c.id, RotationReason(c));
      RotationsComplete(actual, unhealthy, a, c);
    } else if s in want {
      a := WantedAction(h, want, live, s).value;
      assert a in WantedActions(h, want, live, want.Keys);
    } else {
      a := SurplusAction(live, s);
      assert a in SurplusActions(want, live, live.Keys);
    }
  }

  // ---------- minimality ----------

  lemma ActionsOnce(h: TaskDef -> string, desired: seq<Service>, actual: seq<ContainerInfo>, unhealthy: set<string>, a: Action)
    requires DistinctIds(actual)
    ensures Actions(h, desired, actual, unhealthy)[a] <= 1
  {
    var want, live := DesiredMap(desired), LiveMap(actual, unhealthy);
    RotationsOnce(actual, unhealthy, a);
    if a in Rotations(actual, unhealthy) {
      RotationsSound(actual, unhealthy, a);
      var c :| c in actual && Rotates(a, c, unhealthy);
      if a.slot in live {
        LiveSound(actual, unhealthy, a.slot);
        SameId(actual, c, live[a.slot]);
      }
    }
  }

  lemma SameId(actual: seq<ContainerInfo>, c: ContainerInfo, d: ContainerInfo)
    requires DistinctIds(actual) && c in actual && d in actual
    ensures c.id == d.id <==> c == d
  {
    var i :| 0 <= i < |actual| && actual[i] == c;
    var j :| 0 <= j < |actual| && actual[j] == d;
    assert i < j ==> actual[i].id != actual[j].id;
    assert j < i ==> actual[j].id != actual[i].id;
  }

  lemma MakingIsWanted(h: TaskDef -> string, desired: seq<Service>, actual: seq<ContainerInfo>, unhealthy: set<string>, a: Action)
    requires a in Actions(h, desired, actual, unhealthy) && a.Makes()
    ensures a.slot in DesiredMap(desired) && SlotDecides(h, desired, actual, unhealthy, a)
  {
    if a in Rotations(actual, unhealthy) { RotationsSound(actual, unhealthy, a); }
  }

  lemma TwoActionsTwoIds(h: TaskDef -> string, desired: seq<Service>, actual: seq<ContainerInfo>, unhealthy: set<string>, a: Action, b: Action)
    requires DistinctIds(actual) && a != b
    requires a in Actions(h, desired, actual, unhealthy) && b in Actions(h, desired, actual, unhealthy)
    requires !a.Create? && !b.Create?
    ensures a.id != b.id
  {
    var c := ActionNamesCondemned(h, desired, actual, unhealthy, a);
    var d := ActionNamesCondemned(h, desired, actual, unhealthy, b);
    SameId(actual, c, d);
  }

  lemma TwoActionsTwoSlots(h: TaskDef -> string, desired: seq<Service>, actual: seq<ContainerInfo>, unhealthy: set<string>, a: Action, b: Action)
    requires a in Actions(h, desired, actual, unhealthy) && b in Actions(h, desired, actual, unhealthy)
    requires a != b && a.Makes() && b.Makes()
    ensures a.slot != b.slot
  {
    MakingIsWanted(h, desired, actual, unhealthy, a);
    MakingIsWanted(h, desired, actual, unhealthy, b);
  }

  lemma RepeatedElement<T>(xs: seq<T>, i: nat, j: nat)
    requires i < j < |xs| && xs[i] == xs[j]
    ensures multiset(xs)[xs[i]] >= 2
  {
    assert xs == xs[..j] + xs[j..];
    assert xs[i] in xs[..j] && xs[j] in xs[j..];
    assert xs[i] in multiset(xs[..j]) && xs[j] in multiset(xs[j..]);
  }

  /** Minimal churn: each container is named by at most one action and each
      slot by at most one create or replace. */
  lemma EachNamedOnce(h: TaskDef -> string, desired: seq<Service>, actual: seq<ContainerInfo>, unhealthy: set<string>, actions: seq<Action>)
    requires DistinctIds(actual) && multiset(actions) == Actions(h, desired, actual, unhealthy)
    ensures forall i, j | 0 <= i < j < |actions| ::
              && (!actions[i].Create? && !actions[j].Create? ==> actions[i].id != actions[j].id)
              && (actions[i].Makes() && actions[j].Makes() ==> actions[i].slot != actions[j].slot)
  {
    forall i, j | 0 <= i < j < |actions|
      ensures !actions[i].Create? && !actions[j].Create? ==> actions[i].id != actions[j].id
      ensures actions[i].Makes() && actions[j].Makes() ==> actions[i].slot != actions[j].slot
    {
      var a, b := actions[i], actions[j];
      assert a in multiset(actions) && b in multiset(actions);
      ActionsOnce(h, desired, actual, unhealthy, a);
      if a == b { RepeatedElement(actions, i, j); }
      if !a.Create? && !b.Create? { TwoActionsTwoIds(h, desired, actual, unhealthy, a, b); }
      if a.Makes() && b.Makes() { TwoActionsTwoSlots(h, desired, actual, unhealthy, a, b); }
    }
  }

  /** Exactly the condemned containers are named; in particular a live,
      healthy, desired container with the right hash never is. */
  lemma NamedExactly(h: TaskDef -> string, desired: seq<Service>, actual: seq<ContainerInfo>, unhealthy: set<string>, actions: seq<Action>, c: ContainerInfo)
    requires DistinctIds(actual) && multiset(actions) == Actions(h, desired, actual, unhealthy) && c in actual
    ensures (exists a | a in actions :: a.Names(c.id)) <==> Condemned(h, desired, actual, unhealthy, c)
  {
    if Condemned(h, desired, actual, unhealthy, c) {
      var a := CondemnedIsNamed(h, desired, actual, unhealthy, c);
      assert a in multiset(actions);
    }
    if a :| a in actions && a.Names(c.id) {
      assert a in multiset(actions);
      var d := ActionNamesCondemned(h, desired, actual, unhealthy, a);
      SameId(actual, c, d);
    }
  }

  // ---------- scaling ----------

  ghost predicate UniqueServices(desired: seq<Service>) {
    forall i, j | 0 <= i < j < |desired| :: desired[i].project != desired[j].project || desired[i].name != desired[j].name
  }

  function Scaled(svc: Service, m: GoInt): Service {
    svc.(spec := svc.spec.(replicas := m))
  }

  lemma WantedValue(desired: seq<Service>, svc: Service, s: Slot)
    requires UniqueServices(desired) && svc in desired && svc.project == s.project && svc.name == s.service
    ensures s in DesiredMap(desired) <==> Wants(svc, s)
    ensures s in DesiredMap(desired) ==> DesiredMap(desired)[s] == svc
  {
    if Wants(svc, s) { DesiredComplete(desired, svc, s); }
    if s in DesiredMap(desired) {
      DesiredSound(desired, s);
      SameService(desired, svc, DesiredMap(desired)[s]);
    }
  }

  lemma SameService(desired: seq<Service>, a: Service, b: Service)
    requires UniqueServices(desired) && a in desired && b in desired && a.project == b.project && a.name == b.name
    ensures a == b
  {
    var i :| 0 <= i < |desired| && desired[i] == a;
    var j :| 0 <= j < |desired| && desired[j] == b;
    assert !(i < j) && !(j < i);
  }

  function SlotAt(svc: Service, r: int): Slot {
    Slot(svc.project, svc.name, r)
  }

  function CreateAction(hash: string, svc: Service, s: Slot): Action {
    Create(s, svc.spec, hash, "actual<desired")
  }

  /** Creates for replicas `n` up to `m`; `hash` is the specification hash. */
  function ScaleUp(hash: string, svc: Service, n: nat, m: nat): (r: seq<Action>)
    requires n <= m
    ensures |r| == m - n
  {
    if n == m then [] else ScaleUp(hash, svc, n, m - 1) + [CreateAction(hash, svc, SlotAt(svc, m - 1))]
  }

  /** Removes of replicas `m` up to `n`. */
  function ScaleDown(svc: Service, live: map<Slot, ContainerInfo>, n: nat, m: nat): (r: seq<Action>)
    requires m <= n && forall i | m <= i < n :: SlotAt(svc, i) in live
    ensures |r| == n - m
  {
    if n == m then [] else ScaleDown(svc, live, n - 1, m) + [SurplusAction(live, SlotAt(svc, n - 1))]
  }

  /** What scaling a service from `n` to `m` replicas asks for. */
  function ScaleActions(hash: string, svc: Service, live: map<Slot, ContainerInfo>, n: nat, m: nat): (r: seq<Action>)
    requires forall i | m <= i < n :: SlotAt(svc, i) in live
    ensures |r| == if n <= m then m - n else n - m
  {
    if n <= m then ScaleUp(hash, svc, n, m) else ScaleDown(svc, live, n, m)
  }

  /** The slot is a replica of the service from `lo` up to `hi`. */
  predicate ReplicaIn(svc: Service, lo: int, hi: int, s: Slot) {
    s == SlotAt(svc, s.replica) && lo <= s.replica < hi
  }

  ghost predicate IsScaleAction(hash: string, svc: Service, live: map<Slot, ContainerInfo>, n: nat, m: nat, a: Action) {
    || (ReplicaIn(svc, n, m, a.slot) && a == CreateAction(hash, svc, a.slot))
    || (ReplicaIn(svc, m, n, a.slot) && a.slot in live && a == SurplusAction(live, a.slot))
  }

  lemma {:induction false} ScaleUpAre(hash: string, svc: Service, n: nat, m: nat, a: Action)
    requires n <= m
    ensures multiset(ScaleUp(hash, svc, n, m))[a]
         == if ReplicaIn(svc, n, m, a.slot) && a == CreateAction(hash, svc, a.slot) then 1 else 0
    decreases m
  {
    if n < m {
      ScaleUpAre(hash, svc, n, m - 1, a);
      CountSnoc(ScaleUp(hash, svc, n, m - 1), CreateAction(hash, svc, SlotAt(svc, m - 1)), a);
    }
  }

  lemma {:induction false} ScaleDownAre(svc: Service, live: map<Slot, ContainerInfo>, n: nat, m: nat, a: Action)
    requires m <= n && forall i | m <= i < n :: SlotAt(svc, i) in live
    ensures multiset(ScaleDown(svc, live, n, m))[a]
         == if ReplicaIn(svc, m, n, a.slot) && a.slot in live && a == SurplusAction(live, a.slot) then 1 else 0
    decreases n
  {
    if m < n {
      ScaleDownAre(svc, live, n - 1, m, a);
      CountSnoc(ScaleDown(svc, live, n - 1, m), SurplusAction(live, SlotAt(svc, n - 1)), a);
    }
  }

  lemma ScaleActionsAre(hash: string, svc: Service, live: map<Slot, ContainerInfo>, n: nat, m: nat, a: Action)
    requires forall i | m <= i < n :: SlotAt(svc, i) in live
    ensures multiset(ScaleActions(hash, svc, live, n, m))[a] == if IsScaleAction(hash, svc, live, n, m, a) then 1 else 0
  {
    if n <= m {
      ScaleUpAre(hash, svc, n, m, a);
    } else {
      ScaleDownAre(svc, live, n, m, a);
    }
  }

  lemma CountSnoc<T>(xs: seq<T>, x: T, a: T)
    ensures multiset(xs + [x])[a] == multiset(xs)[a] + if a == x then 1 else 0
  {
  }

  lemma PassesAreActions(h: TaskDef -> string, desired: seq<Service>, actual: seq<ContainerInfo>, unhealthy: set<string>)
    ensures var want, live, actions := DesiredMap(desired), LiveMap(actual, unhealthy), Actions(h, desired, actual, unhealthy);
            && (forall s | s in want :: WantedAction(h, want, live, s) != None ==> WantedAction(h, want, live, s).value in actions)
            && (forall s | s in live :: s !in want ==> SurplusAction(live, s) in actions)
  {
    var want, live := DesiredMap(desired), LiveMap(actual, unhealthy);
    forall s | s in live && s !in want ensures SurplusAction(live, s) in Actions(h, desired, actual, unhealthy) {
      assert SurplusAction(live, s) in SurplusActions(want, live, live.Keys);
    }
    forall s | s in want && WantedAction(h, want, live, s) != None
      ensures WantedAction(h, want, live, s).value in Actions(h, desired, actual, unhealthy)
    {
      assert WantedAction(h, want, live, s).value in WantedActions(h, want, live, want.Keys);
    }
  }

  lemma QuietMeans(h: TaskDef -> string, desired: seq<Service>, actual: seq<ContainerInfo>, unhealthy: set<string>)
    requires Actions(h, desired, actual, unhealthy) == multiset{}
    ensures Rotations(actual, unhealthy) == []
    ensures Settled(h, DesiredMap(desired), LiveMap(actual, unhealthy))
  {
    assert |multiset(Rotations(actual, unhealthy))| == 0;
    PassesAreActions(h, desired, actual, unhealthy);
  }

  lemma ScaledService(desired: seq<Service>, i: nat, m: GoInt, s: Slot)
    requires UniqueServices(desired) && i < |desired| && m >= 0
    ensures UniqueServices(desired[i := Scaled(desired[i], m)])
    ensures var before, after, svc := DesiredMap(desired), DesiredMap(desired[i := Scaled(desired[i], m)]), desired[i];
            if s.project == svc.project && s.service == svc.name
            then (s in after <==> 0 <= s.replica < m) && (s in after ==> after[s] == Scaled(svc, m))
                 && (s in before <==> 0 <= s.replica < ReplicaCount(svc)) && (s in before ==> before[s] == svc)
            else (s in after <==> s in before) && (s in after ==> after[s] == before[s])
  {
    var svc, desired' := desired[i], desired[i := Scaled(desired[i], m)];
    assert UniqueServices(desired');
    assert desired'[i] in desired';
    if s.project == svc.project && s.service == svc.name {
      WantedValue(desired, svc, s);
      WantedValue(desired', Scaled(svc, m), s);
    } else {
      OtherServices(desired, desired', s, i);
      OtherServices(desired', desired, s, i);
    }
  }

  lemma OtherServices(desired: seq<Service>, desired': seq<Service>, s: Slot, i: nat)
    requires UniqueServices(desired) && UniqueServices(desired') && i < |desired| == |desired'|
    requires forall j | 0 <= j < |desired| && j != i :: desired[j] == desired'[j]
    requires desired[i].project != s.project || desired[i].name != s.service
    ensures s in DesiredMap(desired) ==> s in DesiredMap(desired') && DesiredMap(desired')[s] == DesiredMap(desired)[s]
  {
    if s in DesiredMap(desired) {
      DesiredSound(desired, s);
      var svc := DesiredMap(desired)[s];
      var j :| 0 <= j < |desired| && desired[j] == svc;
      assert desired'[j] == svc;
      WantedValue(desired', svc, s);
    }
  }

  lemma WantedMember(h: TaskDef -> string, want: map<Slot, Service>, live: map<Slot, ContainerInfo>, a: Action)
    ensures a in WantedActions(h, want, live, want.Keys) <==> a.slot in want && WantedAction(h, want, live, a.slot) == Some(a)
    ensures a in SurplusActions(want, live, live.Keys) <==> a.slot in live && a.slot !in want && a == SurplusAction(live, a.slot)
  {
  }

  lemma ScalingOneAction(h: TaskDef -> string, desired: seq<Service>, live: map<Slot, ContainerInfo>, i: nat, m: GoInt, a: Action)
    requires UniqueServices(desired) && i < |desired| && m >= 0
    requires Settled(h, DesiredMap(desired), live)
    requires h(Scaled(desired[i], m).spec) == h(desired[i].spec)
    ensures var svc, n, want' := desired[i], ReplicaCount(desired[i]), DesiredMap(desired[i := Scaled(desired[i], m)]);
            IsScaleAction(h(svc.spec), Scaled(svc, m), live, n, m, a)
            <==> a in WantedActions(h, want', live, want'.Keys) || a in SurplusActions(want', live, live.Keys)
  {
    var svc, want' := desired[i], DesiredMap(desired[i := Scaled(desired[i], m)]);
    ScaledService(desired, i, m, a.slot);
    WantedMember(h, want', live, a);
  }

  /** Every desired slot is filled with the wanted hash, and nothing else is. */
  ghost predicate Settled(h: TaskDef -> string, want: map<Slot, Service>, live: map<Slot, ContainerInfo>) {
    want.Keys == live.Keys && forall s | s in want :: Get(live[s].labels, SPEC_HASH) == h(want[s].spec)
  }

  lemma SurplusSlotsLive(h: TaskDef -> string, desired: seq<Service>, live: map<Slot, ContainerInfo>, i: nat, m: nat)
    requires UniqueServices(desired) && i < |desired| && Settled(h, DesiredMap(desired), live)
    ensures forall r | m <= r < ReplicaCount(desired[i]) :: SlotAt(desired[i], r) in live
  {
    forall r | m <= r < ReplicaCount(desired[i]) ensures SlotAt(desired[i], r) in live {
      WantedValue(desired, desired[i], SlotAt(desired[i], r));
    }
  }

  lemma ScalingPasses(h: TaskDef -> string, desired: seq<Service>, live: map<Slot, ContainerInfo>, i: nat, m: GoInt, want: map<Slot, Service>, scale: seq<Action>)
    requires UniqueServices(desired) && i < |desired| && m >= 0 && Settled(h, DesiredMap(desired), live)
    requires h(Scaled(desired[i], m).spec) == h(desired[i].spec)
    requires want == DesiredMap(desired[i := Scaled(desired[i], m)])
    requires forall r | m <= r < ReplicaCount(desired[i]) :: SlotAt(Scaled(desired[i], m), r) in live
    requires scale == ScaleActions(h(desired[i].spec), Scaled(desired[i], m), live, ReplicaCount(desired[i]), m)
    ensures multiset(WantedActions(h, want, live, want.Keys)) + multiset(SurplusActions(want, live, live.Keys)) == multiset(scale)
  {
    var wanted, surplus := WantedActions(h, want, live, want.Keys), SurplusActions(want, live, live.Keys);
    forall a: Action ensures (multiset(wanted) + multiset(surplus))[a] == multiset(scale)[a] {
      ScalingOneAction(h, desired, live, i, m, a);
      ScaleActionsAre(h(desired[i].spec), Scaled(desired[i], m), live, ReplicaCount(desired[i]), m, a);
      WantedMember(h, want, live, a);
    }
  }

  /** Scaling a converged service from n to m replicas costs exactly |n - m|
      creates or removes, of the replicas between n and m, and no replace. The
      hash must not depend on the replica count; `HashIgnoresDeployment` says
      the program's does not. */
  lemma ScalingChurn(h: TaskDef -> string, desired: seq<Service>, actual: seq<ContainerInfo>, unhealthy: set<string>, i: nat, m: GoInt)
    returns (scale: seq<Action>)
    requires UniqueServices(desired) && i < |desired| && m >= 0
    requires Actions(h, desired, actual, unhealthy) == multiset{}
    requires h(Scaled(desired[i], m).spec) == h(desired[i].spec)
    ensures Actions(h, desired[i := Scaled(desired[i], m)], actual, unhealthy) == multiset(scale)
    ensures var n := ReplicaCount(desired[i]);
            if n <= m
            then |scale| == m - n && scale == ScaleUp(h(desired[i].spec), Scaled(desired[i], m), n, m)
            else |scale| == n - m && forall k | 0 <= k < n - m ::
                   scale[k].Remove? && scale[k].slot == SlotAt(desired[i], m + k)
  {
    var live, n := LiveMap(actual, unhealthy), ReplicaCount(desired[i]);
    QuietMeans(h, desired, actual, unhealthy);
    SurplusSlotsLive(h, desired, live, i, m);
    assert forall r :: SlotAt(Scaled(desired[i], m), r) == SlotAt(desired[i], r);
    scale := ScaleActions(h(desired[i].spec), Scaled(desired[i], m), live, n, m);
    ScalingPasses(h, desired, live, i, m, DesiredMap(desired[i := Scaled(desired[i], m)]), scale);
    if m < n { ScaleDownSlots(Scaled(desired[i], m), live, n, m); }
  }

  lemma {:induction false} ScaleDownSlots(svc: Service, live: map<Slot, ContainerInfo>, n: nat, m: nat)
    requires m <= n && forall i | m <= i < n :: SlotAt(svc, i) in live
    ensures forall k | 0 <= k < n - m ::
              ScaleDown(svc, live, n, m)[k].Remove? && ScaleDown(svc, live, n, m)[k].slot == SlotAt(svc, m + k)
    decreases n
  {
    if m < n { ScaleDownSlots(svc, live, n - 1, m); }
  }
}
