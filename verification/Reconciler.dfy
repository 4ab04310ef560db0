/** One reconciliation of a project (internal/reconciler/reconciler.go): which
    containers are given up on, the actions, and which containers are probed
    afterwards. */
module Reconciler {
  import opened Domain
  import opened Ordering
  import opened Journal
  import opened Labels
  import opened Diff
  import opened Churn
  import opened Probes
  import opened Runtime
  import opened Strategy
  import opened Tick
  import opened Convergence

  const DEFAULT_RETRIES := 3

  function ServiceLabel(c: ContainerInfo): string {
    Get(c.labels, SERVICE)
  }

  /** The service of that name that a map built by iterating keeps: the last. */
  function Named(desired: seq<Service>, name: string): Option<Service> {
    if desired == [] then None
    else if desired[|desired| - 1].name == name then Some(desired[|desired| - 1])
    else Named(desired[..|desired| - 1], name)
  }

  function EffectiveRetries(svc: Service): int {
    if svc.spec.health.retries <= 0 then DEFAULT_RETRIES else svc.spec.health.retries
  }

  // ---------- giving up on containers ----------

  /** The container has failed its probe as often in a row as its service
      allows. The history caps the count, so a budget above the cap is never
      used up. */
  predicate GivenUp(desired: seq<Service>, view: map<string, Tracking>, c: ContainerInfo) {
    && Named(desired, ServiceLabel(c)).Some?
    && c.id in view && view[c.id].probed
    && var retries := EffectiveRetries(Named(desired, ServiceLabel(c)).value);
       retries <= HISTORY_CAP && TailFailures(view[c.id].results) >= retries
  }

  /** What the snapshot says about the budget, in terms of the whole run. */
  lemma BudgetUsedUp(id: string, t: Tracking, retries: int)
    requires retries >= 1
    ensures (!SnapshotOf(id, t).healthOk && SnapshotOf(id, t).streak >= retries)
            <==> (t.probed && retries <= HISTORY_CAP && TailFailures(t.results) >= retries)
  {
  }

  /** Since `before`, snapshots were read and no call was made. */
  ghost predicate OnlyLooked(before: seq<Event>, after: seq<Event>) {
    before <= after && forall k | |before| <= k < |after| :: after[k].Saw?
  }

  /** The IDs are exactly those of the containers that are given up on. */
  ghost predicate AreGivenUp(desired: seq<Service>, actual: seq<ContainerInfo>, view: map<string, Tracking>, ids: set<string>) {
    forall id :: id in ids <==> exists c | c in actual :: c.id == id && GivenUp(desired, view, c)
  }

  /** `probeUnhealthySet`. Results may arrive between two reads: `looked` is
      what was known of each container when it was read. */
  method ProbeUnhealthySet(desired: seq<Service>, actual: seq<ContainerInfo>, probes: Manager)
    returns (out: set<string>, ghost looked: map<string, Tracking>)
    requires probes.Valid() && DistinctIds(actual)
    modifies probes.Repr, probes.log
    ensures probes.Valid() && probes.Repr == old(probes.Repr) && probes.log.calls == old(probes.log.calls)
    ensures OnlyLooked(old(probes.log.events), probes.log.events)
    ensures Later(old(probes.view), looked) && Later(looked, probes.view)
    ensures AreGivenUp(desired, actual, looked, out)
  {
    var retriesByService := CollectRetries(desired);
    out, looked := {}, probes.view;
    for i := 0 to |actual|
      invariant probes.Valid() && probes.Repr == old(probes.Repr) && probes.log.calls == old(probes.log.calls)
      invariant OnlyLooked(old(probes.log.events), probes.log.events)
      invariant Later(old(probes.view), looked) && Later(looked, probes.view)
      invariant AreGivenUp(desired, actual[..i], looked, out)
    {
      out, looked := LookNext(desired, retriesByService, actual, i, probes, out, looked);
    }
    assert actual[..|actual|] == actual;
  }

  method LookNext(desired: seq<Service>, retriesByService: map<string, int>, actual: seq<ContainerInfo>, i: nat, probes: Manager,
                  out: set<string>, ghost looked: map<string, Tracking>)
    returns (out': set<string>, ghost looked': map<string, Tracking>)
    requires probes.Valid() && Later(looked, probes.view) && i < |actual| && DistinctIds(actual)
    requires forall name :: name in retriesByService <==> Named(desired, name).Some?
    requires forall name | name in retriesByService :: retriesByService[name] == EffectiveRetries(Named(desired, name).value)
    requires AreGivenUp(desired, actual[..i], looked, out)
    modifies probes.Repr, probes.log
    ensures probes.Valid() && probes.Repr == old(probes.Repr) && probes.log.calls == old(probes.log.calls)
    ensures OnlyLooked(old(probes.log.events), probes.log.events)
    ensures Later(looked, looked') && Later(looked', probes.view)
    ensures AreGivenUp(desired, actual[..i + 1], looked', out')
  {
    var bad: bool;
    bad, looked' := LookAt(desired, retriesByService, actual[i], probes, looked);
    NextLooked(desired, actual, i, looked, looked', out, bad);
    out' := out;
    if bad {
      out' := out' + {actual[i].id};
    }
  }

  /** One container of the loop of `probeUnhealthySet`, some time later. */
  method LookAt(desired: seq<Service>, retriesByService: map<string, int>, c: ContainerInfo, probes: Manager, ghost looked: map<string, Tracking>)
    returns (bad: bool, ghost looked': map<string, Tracking>)
    requires probes.Valid() && Later(looked, probes.view)
    requires forall name :: name in retriesByService <==> Named(desired, name).Some?
    requires forall name | name in retriesByService :: retriesByService[name] == EffectiveRetries(Named(desired, name).value)
    modifies probes.Repr, probes.log
    ensures probes.Valid() && probes.Repr == old(probes.Repr) && probes.log.calls == old(probes.log.calls)
    ensures OnlyLooked(old(probes.log.events), probes.log.events)
    ensures Later(looked, looked') && Later(looked', probes.view)
    ensures forall id | id in looked && id != c.id :: looked'[id] == looked[id]
    ensures bad == GivenUp(desired, looked', c)
  {
    ghost var before := probes.view;
    probes.Elapse();
    looked' := LookedAt(looked, probes.view, c.id);
    LookedLater(desired, looked, before, probes.view, c);
    bad := JudgeNow(desired, retriesByService, c, probes);
  }

  function LookedAt(looked: map<string, Tracking>, view: map<string, Tracking>, id: string): map<string, Tracking> {
    if id in looked && id in view then looked[id := view[id]] else looked
  }

  lemma LookedLater(desired: seq<Service>, looked: map<string, Tracking>, before: map<string, Tracking>, view: map<string, Tracking>, c: ContainerInfo)
    requires Later(looked, before) && Later(before, view)
    ensures var looked' := LookedAt(looked, view, c.id);
            && Later(looked, looked') && Later(looked', view) && GivenUp(desired, looked', c) == GivenUp(desired, view, c)
            && forall id | id in looked && id != c.id :: looked'[id] == looked[id]
  {
    LaterTrans(looked, before, view);
  }

  method JudgeNow(desired: seq<Service>, retriesByService: map<string, int>, c: ContainerInfo, probes: Manager) returns (bad: bool)
    requires probes.Valid()
    requires forall name :: name in retriesByService <==> Named(desired, name).Some?
    requires forall name | name in retriesByService :: retriesByService[name] == EffectiveRetries(Named(desired, name).value)
    modifies probes.log
    ensures probes.Valid() && probes.log.calls == old(probes.log.calls)
    ensures OnlyLooked(old(probes.log.events), probes.log.events)
    ensures bad == GivenUp(desired, probes.view, c)
  {
    var svcName := Get(c.labels, SERVICE);
    if svcName !in retriesByService { return false; }
    var retries := retriesByService[svcName];
    var snap := probes.ReadSnapshot(c.id);
    if snap.Some? { BudgetUsedUp(c.id, probes.view[c.id], retries); }
    if snap.None? || snap.value.healthOk { return false; }
    bad := snap.value.streak >= retries;
  }

  lemma NextLooked(desired: seq<Service>, actual: seq<ContainerInfo>, i: nat, was: map<string, Tracking>, looked: map<string, Tracking>,
                   out: set<string>, bad: bool)
    requires i < |actual| && DistinctIds(actual)
    requires was.Keys == looked.Keys && forall id | id in was && id != actual[i].id :: looked[id] == was[id]
    requires AreGivenUp(desired, actual[..i], was, out) && bad == GivenUp(desired, looked, actual[i])
    ensures AreGivenUp(desired, actual[..i + 1], looked, if bad then out + {actual[i].id} else out)
  {
    assert actual[..i + 1] == actual[..i] + [actual[i]];
    FirstOf(actual, i);
    forall c | c in actual[..i] ensures GivenUp(desired, looked, c) == GivenUp(desired, was, c) {
    }
  }

  method CollectRetries(desired: seq<Service>) returns (m: map<string, int>)
    ensures forall name :: name in m <==> Named(desired, name).Some?
    ensures forall name | name in m :: m[name] == EffectiveRetries(Named(desired, name).value)
  {
    m := map[];
    for i := 0 to |desired|
      invariant forall name :: name in m <==> Named(desired[..i], name).Some?
      invariant forall name | name in m :: m[name] == EffectiveRetries(Named(desired[..i], name).value)
    {
      assert desired[..i + 1][..i] == desired[..i];
      var retries := desired[i].spec.health.retries;
      if retries <= 0 {
        retries := DEFAULT_RETRIES;
      }
      m := m[desired[i].name := retries];
    }
    assert desired[..|desired|] == desired;
  }

  // ---------- which containers are probed ----------

  /** The container should be probed: it is active and its service is desired. */
  predicate ShouldTrack(desired: seq<Service>, c: ContainerInfo) {
    IsActive(c.state) && Named(desired, ServiceLabel(c)).Some?
  }

  /** What tracking container `c` for its service makes of its entry. */
  function TrackedEntry(desired: seq<Service>, digest: TaskDef -> string, view: map<string, Tracking>, c: ContainerInfo): Tracking
    requires ShouldTrack(desired, c)
  {
    var spec := Named(desired, ServiceLabel(c)).value.spec;
    if c.id in view && view[c.id].specHash == digest(spec) then view[c.id] else StartTracking(digest(spec), spec)
  }

  predicate Listed(actual: seq<ContainerInfo>, id: string) {
    exists c | c in actual :: c.id == id
  }

  /** The container is one of the listed ones that should be probed. */
  predicate Wanted(desired: seq<Service>, actual: seq<ContainerInfo>, id: string) {
    exists c | c in actual :: c.id == id && ShouldTrack(desired, c)
  }

  /** On the listing, exactly the containers that should be probed are, with
      entries restarted where the probe settings changed; off the listing
      nothing changed. */
  ghost predicate TrackingExact(desired: seq<Service>, actual: seq<ContainerInfo>, digest: TaskDef -> string,
                                before: map<string, Tracking>, after: map<string, Tracking>) {
    && (forall c | c in actual :: c.id in after <==> ShouldTrack(desired, c))
    && (forall c | c in actual && ShouldTrack(desired, c) :: c.id in after ==> after[c.id] == TrackedEntry(desired, digest, before, c))
    && (forall id | !Listed(actual, id) :: (id in after <==> id in before) && (id in after ==> after[id] == before[id]))
  }

  /** The tracking part of `updateProbesAndStatus`. */
  method UpdateProbes(project: string, desired: seq<Service>, actual: seq<ContainerInfo>, probes: Manager)
    requires probes.Valid() && DistinctIds(actual)
    requires forall c | c in actual :: c.id != "" && Get(c.labels, PROJECT) == project
    modifies probes, probes.Repr
    ensures probes.Valid() && fresh(probes.Repr - old(probes.Repr))
    ensures TrackingExact(desired, actual, probes.digest, old(probes.view), probes.view)
    ensures probes.events == old(probes.events)
  {
    var specByService := CollectSpecs(desired);
    var activeIDs := CollectActive(project, specByService, desired, actual);
    TrackActive(specByService, desired, actual, probes);
    ghost var tracked := probes.view;
    UntrackInactive(desired, actual, activeIDs, probes);
    ExactAfter(desired, actual, probes.digest, old(probes.view), tracked, probes.view);
  }

  method CollectSpecs(desired: seq<Service>) returns (m: map<string, TaskDef>)
    ensures forall name :: name in m <==> Named(desired, name).Some?
    ensures forall name | name in m :: m[name] == Named(desired, name).value.spec
  {
    m := map[];
    for i := 0 to |desired|
      invariant forall name :: name in m <==> Named(desired[..i], name).Some?
      invariant forall name | name in m :: m[name] == Named(desired[..i], name).value.spec
    {
      assert desired[..i + 1][..i] == desired[..i];
      m := m[desired[i].name := desired[i].spec];
    }
    assert desired[..|desired|] == desired;
  }

  method CollectActive(project: string, specs: map<string, TaskDef>, ghost desired: seq<Service>, actual: seq<ContainerInfo>) returns (ids: set<string>)
    requires forall name :: name in specs <==> Named(desired, name).Some?
    requires forall c | c in actual :: Get(c.labels, PROJECT) == project
    ensures forall id :: id in ids <==> Wanted(desired, actual, id)
  {
    ids := {};
    for i := 0 to |actual|
      invariant forall id :: id in ids <==> Wanted(desired, actual[..i], id)
    {
      var c := actual[i];
      assert actual[..i + 1] == actual[..i] + [c];
      if !IsActive(c.state) { continue; }
      if Get(c.labels, PROJECT) != project || Get(c.labels, SERVICE) !in specs { continue; }
      ids := ids + {c.id};
    }
    assert actual[..|actual|] == actual;
  }

  /** The entries of the wanted containers are as tracking makes them, all
      others as before. */
  ghost predicate TrackedSoFar(desired: seq<Service>, actual: seq<ContainerInfo>, digest: TaskDef -> string,
                               before: map<string, Tracking>, now: map<string, Tracking>) {
    && (forall c | c in actual && ShouldTrack(desired, c) :: c.id in now && now[c.id] == TrackedEntry(desired, digest, before, c))
    && (forall id | !Wanted(desired, actual, id) :: (id in now <==> id in before) && (id in now ==> now[id] == before[id]))
  }

  method TrackActive(specs: map<string, TaskDef>, ghost desired: seq<Service>, actual: seq<ContainerInfo>, probes: Manager)
    requires probes.Valid() && DistinctIds(actual) && forall c | c in actual :: c.id != ""
    requires forall name :: name in specs <==> Named(desired, name).Some?
    requires forall name | name in specs :: specs[name] == Named(desired, name).value.spec
    modifies probes
    ensures probes.Valid() && fresh(probes.Repr - old(probes.Repr)) && probes.events == old(probes.events)
    ensures TrackedSoFar(desired, actual, probes.digest, old(probes.view), probes.view)
  {
    for i := 0 to |actual|
      invariant probes.Valid() && fresh(probes.Repr - old(probes.Repr)) && probes.events == old(probes.events)
      invariant TrackedSoFar(desired, actual[..i], probes.digest, old(probes.view), probes.view)
    {
      ghost var middle := probes.view;
      TrackWanted(specs, desired, actual[i], probes);
      TrackOne(desired, actual, i, probes.digest, old(probes.view), middle, probes.view);
    }
    assert actual[..|actual|] == actual;
  }

  method TrackWanted(specs: map<string, TaskDef>, ghost desired: seq<Service>, c: ContainerInfo, probes: Manager)
    requires probes.Valid()
    requires forall name :: name in specs <==> Named(desired, name).Some?
    requires forall name | name in specs :: specs[name] == Named(desired, name).value.spec
    modifies probes
    ensures probes.Valid() && fresh(probes.Repr - old(probes.Repr)) && probes.events == old(probes.events)
    ensures if ShouldTrack(desired, c)
            then var spec := Named(desired, ServiceLabel(c)).value.spec;
                 probes.view == Tracked(old(probes.view), c.id, probes.digest(spec), spec)
            else probes.view == old(probes.view)
  {
    var s := Get(c.labels, SERVICE);
    if IsActive(c.state) && s in specs {
      var ok := probes.Track(c.id, specs[s]);
    }
  }

  lemma TrackOne(desired: seq<Service>, actual: seq<ContainerInfo>, i: nat, digest: TaskDef -> string,
                 before: map<string, Tracking>, middle: map<string, Tracking>, after: map<string, Tracking>)
    requires DistinctIds(actual) && i < |actual| && actual[i].id != ""
    requires TrackedSoFar(desired, actual[..i], digest, before, middle)
    requires var c := actual[i];
             if ShouldTrack(desired, c)
             then var spec := Named(desired, ServiceLabel(c)).value.spec; after == Tracked(middle, c.id, digest(spec), spec)
             else after == middle
    ensures TrackedSoFar(desired, actual[..i + 1], digest, before, after)
  {
    var c, done := actual[i], actual[..i];
    assert actual[..i + 1] == done + [c];
    FirstOf(actual, i);
    assert !Wanted(desired, done, c.id);
    if ShouldTrack(desired, c) {
      assert after == middle[c.id := TrackedEntry(desired, digest, before, c)];
      TrackSet(desired, done, c, digest, before, middle, after);
    } else {
      TrackSkip(desired, done, c, digest, before, middle);
    }
  }

  lemma TrackSet(desired: seq<Service>, done: seq<ContainerInfo>, c: ContainerInfo, digest: TaskDef -> string,
                 before: map<string, Tracking>, middle: map<string, Tracking>, after: map<string, Tracking>)
    requires TrackedSoFar(desired, done, digest, before, middle) && ShouldTrack(desired, c)
    requires forall d | d in done :: d.id != c.id
    requires after == middle[c.id := TrackedEntry(desired, digest, before, c)]
    ensures TrackedSoFar(desired, done + [c], digest, before, after)
  {
    forall id ensures Wanted(desired, done + [c], id) <==> Wanted(desired, done, id) || id == c.id {
      WantedStep(desired, done, c, id);
    }
  }

  lemma TrackSkip(desired: seq<Service>, done: seq<ContainerInfo>, c: ContainerInfo, digest: TaskDef -> string,
                  before: map<string, Tracking>, middle: map<string, Tracking>)
    requires TrackedSoFar(desired, done, digest, before, middle) && !ShouldTrack(desired, c)
    ensures TrackedSoFar(desired, done + [c], digest, before, middle)
  {
    forall id ensures Wanted(desired, done + [c], id) <==> Wanted(desired, done, id) {
      WantedStep(desired, done, c, id);
    }
  }

  lemma FirstOf(actual: seq<ContainerInfo>, i: nat)
    requires DistinctIds(actual) && i < |actual|
    ensures forall d | d in actual[..i] :: d.id != actual[i].id
  {
    forall d | d in actual[..i] ensures d.id != actual[i].id {
      var j :| 0 <= j < i && actual[j] == d;
    }
  }

  lemma WantedStep(desired: seq<Service>, done: seq<ContainerInfo>, c: ContainerInfo, id: string)
    ensures Wanted(desired, done + [c], id) <==> Wanted(desired, done, id) || (id == c.id && ShouldTrack(desired, c))
  {
    assert c in done + [c] && forall d | d in done :: d in done + [c];
  }

  /** Of what was tracked, the listed and not active among `done` is gone. */
  ghost predicate Pruned(before: map<string, Tracking>, now: map<string, Tracking>, done: seq<string>, actual: seq<ContainerInfo>, activeIDs: set<string>) {
    && (forall id :: id in now <==> id in before && (id in done ==> id in activeIDs || !Listed(actual, id)))
    && (forall id | id in now :: now[id] == before[id])
  }

  lemma PruneStep(before: map<string, Tracking>, now: map<string, Tracking>, done: seq<string>, id: string, actual: seq<ContainerInfo>, activeIDs: set<string>)
    requires Pruned(before, now, done, actual, activeIDs)
    ensures Pruned(before, if id in activeIDs || !Listed(actual, id) then now else now - {id}, done + [id], actual, activeIDs)
  {
  }

  /** Untracks what is tracked, listed and not active. */
  method UntrackInactive(ghost desired: seq<Service>, actual: seq<ContainerInfo>, activeIDs: set<string>, probes: Manager)
    requires probes.Valid()
    modifies probes
    ensures probes.Valid() && probes.Repr == old(probes.Repr) && probes.events == old(probes.events)
    ensures forall id :: id in probes.view <==> id in old(probes.view) && (id in activeIDs || !Listed(actual, id))
    ensures forall id | id in probes.view :: probes.view[id] == old(probes.view)[id]
  {
    var ids := probes.TrackedIDs();
    for i := 0 to |ids|
      invariant probes.Valid() && probes.Repr == old(probes.Repr) && probes.events == old(probes.events)
      invariant Pruned(old(probes.view), probes.view, ids[..i], actual, activeIDs)
    {
      var id := ids[i];
      assert ids[..i + 1] == ids[..i] + [id];
      PruneStep(old(probes.view), probes.view, ids[..i], id, actual, activeIDs);
      if id in activeIDs { continue; }
      var belongs := Belongs(actual, id);
      if belongs { probes.Untrack(id); }
    }
    assert ids[..|ids|] == ids;
  }

  method Belongs(actual: seq<ContainerInfo>, id: string) returns (belongs: bool)
    ensures belongs <==> Listed(actual, id)
  {
    for i := 0 to |actual|
      invariant !Listed(actual[..i], id)
    {
      assert actual[..i + 1] == actual[..i] + [actual[i]];
      if actual[i].id == id { return true; }
    }
    assert actual[..|actual|] == actual;
    return false;
  }

  lemma ExactAfter(desired: seq<Service>, actual: seq<ContainerInfo>, digest: TaskDef -> string,
                   before: map<string, Tracking>, tracked: map<string, Tracking>, after: map<string, Tracking>)
    requires DistinctIds(actual) && TrackedSoFar(desired, actual, digest, before, tracked)
    requires forall id :: id in after <==> id in tracked && (Wanted(desired, actual, id) || !Listed(actual, id))
    requires forall id | id in after :: after[id] == tracked[id]
    ensures TrackingExact(desired, actual, digest, before, after)
  {
    forall c | c in actual ensures Listed(actual, c.id) && (Wanted(desired, actual, c.id) <==> ShouldTrack(desired, c)) {
      if Wanted(desired, actual, c.id) {
        var d :| d in actual && d.id == c.id && ShouldTrack(desired, d);
        SameId(actual, c, d);
      }
    }
    forall id | !Listed(actual, id) ensures !Wanted(desired, actual, id) {
    }
  }

  // ---------- the whole reconciliation ----------

  /** The actions of a diff can be executed and never make two containers for
      one slot. */
  lemma ActionsRunnable(h: TaskDef -> string, desired: seq<Service>, listing: seq<ContainerInfo>, unhealthy: set<string>,
                        actions: seq<Action>, w: World, project: string, used: set<string>)
    requires Enumerates(listing, w, project) && w.Keys <= used
    requires multiset(actions) == Actions(h, desired, listing, unhealthy)
    ensures MakersDiffer(actions) && NamesDiffer(actions)
    ensures forall a | a in actions :: Executable(a, used)
  {
    EachNamedOnce(h, desired, listing, unhealthy, actions);
    MemberOf(actions, Actions(h, desired, listing, unhealthy));
    forall a | a in actions ensures Executable(a, used) {
      if !a.Create? {
        var c := ActionNamesCondemned(h, desired, listing, unhealthy, a);
      }
      if a.Makes() {
        MakingIsWanted(h, desired, listing, unhealthy, a);
        DesiredSound(desired, a.slot);
      }
    }
  }

  /** A listing that finds nothing to do leaves everything as it is. */
  lemma NothingToDo(h: TaskDef -> string, w: World, used: set<string>)
    ensures Applied(h, [], {}, w, w, used)
  {
  }

  /** The round is a run of the reconciler on these services and worlds, with
      the containers given up on as the unhealthy ones. */
  ghost predicate RoundOf(h: TaskDef -> string, r: Round, project: string, desired: seq<Service>, before: World, after: World,
                          looked: map<string, Tracking>) {
    && Reconciled(h, r) && r.desired == desired && r.project == project && r.before == before && r.after == after
    && AreGivenUp(desired, r.listing, looked, r.unhealthy)
  }

  /** Every moment from `start` on is one of the round: see `SlotGuarded`. */
  ghost predicate Overseen(h: TaskDef -> string, r: Round, events: seq<Event>, start: nat) {
    AllMoments(h, r.actions, events, start, r.before, r.used)
  }

  /** The round is the run that the trace describes. */
  ghost predicate Ran(r: Round, t: Trace, reliable: bool) {
    && Traced(r.actions, t, r.used, reliable)
    && t.worlds[0] == r.before && t.worlds[|r.actions|] == r.after && FailedAre(r.actions, t, r.failed)
  }

  /** What a reconciliation did: the round with its trace, what was known of
      each container when it was looked at, and of all right after that. */
  datatype Report = Report(round: Round, trace: Trace, looked: map<string, Tracking>, known: map<string, Tracking>)

  /** From the start to when the actions have run, tracking gained results and
      was otherwise changed only for replaced containers and new ones. */
  ghost predicate KnownAlong(p: Report, used': set<string>, before: map<string, Tracking>, after: map<string, Tracking>) {
    && Later(before, p.looked) && Later(p.looked, p.known)
    && LaterBut(p.known, after, ReplacedIds(p.round.actions) + (used' - p.round.used))
    && SuccessorsTracked(p.round.actions, p.round.failed, p.round.before, p.round.after, after)
  }

  /** Lists, diffs and acts: the first half of `reconcileProject`. */
  method Act(h: TaskDef -> string, project: string, desired: seq<Service>, rt: Docker, probes: Manager)
    returns (ghost report: Option<Report>, listing: Option<seq<ContainerInfo>>, acted: bool)
    requires Ready(rt, probes) && OfProject(desired, project)
    modifies rt, rt.log, probes, probes.Repr
    ensures Ready(rt, probes) && fresh(probes.Repr - old(probes.Repr)) && old(rt.used) <= rt.used
    ensures listing.None? <==> report.None?
    ensures !acted ==> rt.containers == old(rt.containers)
    ensures report.None? ==> !acted && probes.view == old(probes.view)
    ensures old(rt.log.events) <= rt.log.events
    ensures report.Some? ==>
              && RoundOf(h, report.value.round, project, desired, old(rt.containers), rt.containers, report.value.looked)
              && listing == Some(report.value.round.listing) && report.value.round.used == old(rt.used)
              && Overseen(h, report.value.round, rt.log.events, |old(rt.log.events)|)
              && Ran(report.value.round, report.value.trace, rt.reliable)
              && KnownAlong(report.value, rt.used, old(probes.view), probes.view)
              && Moment(h, report.value.round.actions, rt.containers, rt.log.events[|old(rt.log.events)|..], old(rt.containers), old(rt.used))
  {
    ghost var before, used, e := rt.containers, rt.used, rt.log.events;
    report, listing, acted := None, None, false;
    listing := rt.ListContainers(project);
    if listing.None? { return; }
    var unhealthy: set<string>;
    ghost var looked: map<string, Tracking>;
    unhealthy, looked := ProbeUnhealthySet(desired, listing.value, probes);
    var actions := Compute(h, desired, listing.value, unhealthy);
    ActionsRunnable(h, desired, listing.value, unhealthy, actions, before, project, used);
    ghost var e', known := rt.log.events, probes.view;
    ghost var failed: set<Slot>, t: Trace;
    acted, failed, t := RunIfAny(h, actions, rt, probes);
    MomentsBefore(h, actions, e, e', rt.log.events, before, rt.containers, used);
    report := Some(Report(Round(desired, project, unhealthy, listing.value, actions, failed, before, rt.containers, used), t, looked, known));
  }

  method RunIfAny(h: TaskDef -> string, actions: seq<Action>, rt: Docker, probes: Manager)
    returns (acted: bool, ghost failed: set<Slot>, ghost t: Trace)
    requires Ready(rt, probes) && MakersDiffer(actions) && NamesDiffer(actions)
    requires forall a | a in actions :: Executable(a, rt.used)
    modifies rt, rt.log, probes, probes.Repr
    ensures Ready(rt, probes) && fresh(probes.Repr - old(probes.Repr)) && old(rt.used) <= rt.used
    ensures acted == (actions != []) && (!acted ==> rt.containers == old(rt.containers))
    ensures Applied(h, actions, failed, old(rt.containers), rt.containers, old(rt.used))
    ensures old(rt.log.events) <= rt.log.events
    ensures AllMoments(h, actions, rt.log.events, |old(rt.log.events)|, old(rt.containers), old(rt.used))
    ensures Moment(h, actions, rt.containers, rt.log.events[|old(rt.log.events)|..], old(rt.containers), old(rt.used))
    ensures Traced(actions, t, old(rt.used), rt.reliable) && FailedAre(actions, t, failed)
    ensures t.worlds[0] == old(rt.containers) && t.worlds[|actions|] == rt.containers
    ensures LaterBut(old(probes.view), probes.view, ReplacedIds(actions) + (rt.used - old(rt.used)))
    ensures SuccessorsTracked(actions, failed, old(rt.containers), rt.containers, probes.view)
  {
    acted, failed, t := |actions| > 0, {}, Trace([rt.containers], [], []);
    NothingToDo(h, rt.containers, rt.used);
    FirstMoment(h, actions, rt.log.events[|old(rt.log.events)|..], rt.containers, rt.used);
    LaterIsBut(probes.view, probes.view, ReplacedIds(actions) + (rt.used - rt.used));
    if acted {
      failed, t := RunActions(h, actions, rt, probes);
    }
  }

  lemma MomentSeen(h: TaskDef -> string, actions: seq<Action>, w: World, seen: seq<Event>, seen': seq<Event>, before: World, used: set<string>)
    requires Moment(h, actions, w, seen, before, used) && forall e | e in seen :: e in seen'
    ensures Moment(h, actions, w, seen', before, used)
  {
    forall a | a in actions && a.Replace? && a.id in before && !StopsFirst(a.spec) ensures HoldsSlot(h, a, w, seen', before, used) {
      assert Guarded(h, a, w, seen, before, used);
    }
  }

  /** The listing and the looks before the first action are moments, too. */
  lemma MomentsBefore(h: TaskDef -> string, actions: seq<Action>, e: seq<Event>, e': seq<Event>, e'': seq<Event>,
                      before: World, after: World, used: set<string>)
    requires e <= e' <= e'' && before.Keys <= used && OnlyLooked(e + [Called(before)], e')
    requires AllMoments(h, actions, e'', |e'|, before, used) && Moment(h, actions, after, e''[|e'|..], before, used)
    ensures AllMoments(h, actions, e'', |e|, before, used) && Moment(h, actions, after, e''[|e|..], before, used)
  {
    SeenPart(e', e'', |e|, |e''|);
    MomentSeen(h, actions, after, e''[|e'|..], e''[|e|..], before, used);
    forall k: nat | At(e'', |e|, k) ensures Moment(h, actions, e''[k].world, e''[|e|..k], before, used) {
      if k < |e'| {
        assert e''[k] == e'[k] && (k < |e| + 1 ==> e'[k] == (e + [Called(before)])[k]);
        FirstMoment(h, actions, e''[|e|..k], before, used);
      } else {
        assert At(e'', |e'|, k);
        SeenPart(e', e'', |e|, k);
        MomentSeen(h, actions, e''[k].world, e''[|e'|..k], e''[|e|..k], before, used);
      }
    }
  }

  /** So is the listing after the last one. */
  lemma MomentAfter(h: TaskDef -> string, actions: seq<Action>, e: seq<Event>, start: nat, before: World, after: World, used: set<string>)
    requires start <= |e| && AllMoments(h, actions, e, start, before, used) && Moment(h, actions, after, e[start..], before, used)
    ensures AllMoments(h, actions, e + [Called(after)], start, before, used)
  {
    var e' := e + [Called(after)];
    forall k: nat | At(e', start, k) ensures Moment(h, actions, e'[k].world, e'[start..k], before, used) {
      SameSlice(e, Called(after), start, k);
      if k < |e| { assert At(e, start, k) && e'[k] == e[k]; }
    }
  }

  lemma SameSlice(e: seq<Event>, x: Event, start: nat, k: nat)
    requires start <= k <= |e|
    ensures (e + [x])[start..k] == e[start..k] && e[start..|e|] == e[start..]
  {
  }

  /** Whatever fails, at every moment of a reconciliation every desired slot
      whose container counts is guarded: left alone, the container is there
      unchanged and nothing joins it; replaced start-first, it is there
      unchanged or a new one with the wanted hash was seen healthy; replaced
      stop-first, nothing new is in the slot while it exists. */
  lemma SlotGuarded(h: TaskDef -> string, r: Round, events: seq<Event>, start: nat, k: nat, s: Slot)
    requires Reconciled(h, r) && Overseen(h, r, events, start) && At(events, start, k)
    requires s in DesiredMap(r.desired) && s in LiveMap(r.listing, r.unhealthy)
    ensures var spec, c, w := DesiredMap(r.desired)[s].spec, LiveMap(r.listing, r.unhealthy)[s], events[k].world;
            var kept := c.id in w && w[c.id] == c;
            var alone := forall n | n in w && n !in r.before :: SlotOf(w[n].labels) != Some(s);
            if Get(c.labels, SPEC_HASH) == h(spec) then kept && alone
            else if StopsFirst(spec) then c.id in w ==> alone
            else kept || exists n :: n in w && n !in r.before && Fills(w[n], s, h(spec)) && Saw(n, true) in events[start..k]
  {
    var want, live := DesiredMap(r.desired), LiveMap(r.listing, r.unhealthy);
    var c, w := live[s], events[k].world;
    LiveSound(r.listing, r.unhealthy, s);
    MemberOf(r.actions, Actions(h, r.desired, r.listing, r.unhealthy));
    assert Moment(h, r.actions, w, events[start..k], r.before, r.used);
    match WantedAction(h, want, live, s)
    case None =>
      NamedExactly(h, r.desired, r.listing, r.unhealthy, r.actions, c);
      assert Spared(r.actions, c.id);
      NothingMade(h, r, w, s);
    case Some(a) =>
      PassesAreActions(h, r.desired, r.listing, r.unhealthy);
      assert a in r.actions && Guarded(h, a, w, events[start..k], r.before, r.used);
      ReplaceGuarded(h, r, a, c, w, events[start..k]);
  }

  lemma ReplaceGuarded(h: TaskDef -> string, r: Round, a: Action, c: ContainerInfo, w: World, seen: seq<Event>)
    requires a.Replace? && a.id == c.id && c.id in r.before && r.before[c.id] == c
    requires Guarded(h, a, w, seen, r.before, r.used) && BornMade(h, r.actions, r.before, w, r.used) && r.before.Keys <= r.used
    ensures if StopsFirst(a.spec) then c.id in w ==> forall n | n in w && n !in r.before :: SlotOf(w[n].labels) != Some(a.slot)
            else (c.id in w && w[c.id] == c) || exists n :: n in w && n !in r.before && Fills(w[n], a.slot, h(a.spec)) && Saw(n, true) in seen
  {
    NewcomersNew(h, r, w);
  }

  lemma NewcomersNew(h: TaskDef -> string, r: Round, w: World)
    requires BornMade(h, r.actions, r.before, w, r.used) && r.before.Keys <= r.used
    ensures forall n | n in w :: n in r.before <==> n in r.used
  {
  }

  lemma NothingMade(h: TaskDef -> string, r: Round, w: World, s: Slot)
    requires Reconciled(h, r) && BornMade(h, r.actions, r.before, w, r.used)
    requires s in DesiredMap(r.desired) && WantedAction(h, DesiredMap(r.desired), LiveMap(r.listing, r.unhealthy), s) == None
    ensures forall n | n in w && n !in r.before :: SlotOf(w[n].labels) != Some(s)
  {
    MemberOf(r.actions, Actions(h, r.desired, r.listing, r.unhealthy));
    forall n | n in w && n !in r.before ensures SlotOf(w[n].labels) != Some(s) {
      var a :| a in r.actions && a.Makes() && Fills(w[n], a.slot, MadeHash(h, a));
      MakingIsWanted(h, r.desired, r.listing, r.unhealthy, a);
    }
  }

  // ---------- tracking over the whole reconciliation ----------

  /** The containers of the project. */
  function ProjectIds(w: World, project: string): set<string> {
    set id | id in w && InProject(w[id], project)
  }

  function ListedIds(listing: seq<ContainerInfo>): set<string> {
    set c | c in listing :: c.id
  }

  lemma ListedInProject(h: TaskDef -> string, r: Round, listing: seq<ContainerInfo>, used': set<string>)
    requires Reconciled(h, r) && Enumerates(listing, r.after, r.project) && r.after.Keys <= used'
    ensures ListedIds(listing) <= ProjectIds(r.before, r.project) + (used' - r.used)
  {
    forall id | id in ListedIds(listing) ensures id in ProjectIds(r.before, r.project) + (used' - r.used) {
      assert id in r.after;
      assert id in r.before ==> r.after[id].labels == r.before[id].labels;
    }
  }

  lemma ReplacedInProject(h: TaskDef -> string, r: Round)
    requires Reconciled(h, r)
    ensures ReplacedIds(r.actions) <= ProjectIds(r.before, r.project)
  {
    MemberOf(r.actions, Actions(h, r.desired, r.listing, r.unhealthy));
    forall id | id in ReplacedIds(r.actions) ensures id in ProjectIds(r.before, r.project) {
      var a :| a in r.actions && a.Replace? && a.id == id;
      var c := ActionNamesCondemned(h, r.desired, r.listing, r.unhealthy, a);
    }
  }

  lemma ExactFrame(desired: seq<Service>, listing: seq<ContainerInfo>, digest: TaskDef -> string, before: map<string, Tracking>, after: map<string, Tracking>)
    requires TrackingExact(desired, listing, digest, before, after)
    ensures LaterBut(before, after, ListedIds(listing))
  {
    forall id | id !in ListedIds(listing) ensures !Listed(listing, id) {
    }
  }

  /** Entries of containers outside the project only gain results until the
      actions have run. */
  lemma FrameUntilActed(h: TaskDef -> string, p: Report, used': set<string>, before: map<string, Tracking>, tracked: map<string, Tracking>)
    requires Reconciled(h, p.round) && KnownAlong(p, used', before, tracked)
    ensures LaterBut(before, tracked, ProjectIds(p.round.before, p.round.project) + (used' - p.round.used))
  {
    var r := p.round;
    var some, all := ReplacedIds(r.actions) + (used' - r.used), ProjectIds(r.before, r.project) + (used' - r.used);
    ReplacedInProject(h, r);
    LaterTrans(before, p.looked, p.known);
    LaterIsBut(before, p.known, all);
    LaterButMore(p.known, tracked, some, all);
    LaterButTrans(before, p.known, tracked, all, all);
    assert all + all == all;
  }

  /** And so they do until tracking has been brought in line with a listing. */
  lemma FrameUntilDone(h: TaskDef -> string, p: Report, listing: seq<ContainerInfo>, digest: TaskDef -> string, used': set<string>,
                       before: map<string, Tracking>, tracked: map<string, Tracking>, after: map<string, Tracking>)
    requires Reconciled(h, p.round) && KnownAlong(p, used', before, tracked)
    requires Enumerates(listing, p.round.after, p.round.project) && p.round.after.Keys <= used'
    requires TrackingExact(p.round.desired, listing, digest, tracked, after)
    ensures LaterBut(before, after, ProjectIds(p.round.before, p.round.project) + (used' - p.round.used))
  {
    var all := ProjectIds(p.round.before, p.round.project) + (used' - p.round.used);
    FrameUntilActed(h, p, used', before, tracked);
    ListedInProject(h, p.round, listing, used');
    ExactFrame(p.round.desired, listing, digest, tracked, after);
    LaterButMore(tracked, after, ListedIds(listing), all);
    LaterButTrans(before, tracked, after, all, all);
    assert all + all == all;
  }

  /** `reconcileProject`. `desired` is None when the store cannot be read. What
      is reported is the diff and what became of it; `ConvergesExactly`, the
      drain lemmas and `SlotGuarded` hold of every such round. `listing` is the
      one the probes were brought in line with, None if it was not reached, and
      `tracked` what was tracked until then. Whatever happens, tracking of
      containers outside the project only gains results. */
  method ReconcileProject(h: TaskDef -> string, project: string, desired: Option<seq<Service>>, rt: Docker, probes: Manager)
    returns (ghost report: Option<Report>, ghost listing: Option<seq<ContainerInfo>>, ghost tracked: map<string, Tracking>)
    requires Ready(rt, probes) && (desired.Some? ==> OfProject(desired.value, project))
    modifies rt, rt.log, probes, probes.Repr
    ensures Ready(rt, probes) && fresh(probes.Repr - old(probes.Repr)) && old(rt.used) <= rt.used
    ensures report.None? ==> rt.containers == old(rt.containers) && probes.view == old(probes.view) && listing.None?
    ensures old(rt.log.events) <= rt.log.events
    ensures report.Some? ==>
              && desired.Some?
              && RoundOf(h, report.value.round, project, desired.value, old(rt.containers), rt.containers, report.value.looked)
              && report.value.round.used == old(rt.used)
              && Overseen(h, report.value.round, rt.log.events, |old(rt.log.events)|)
              && Ran(report.value.round, report.value.trace, rt.reliable)
              && KnownAlong(report.value, rt.used, old(probes.view), tracked)
    ensures LaterBut(old(probes.view), probes.view, ProjectIds(old(rt.containers), project) + (rt.used - old(rt.used)))
    ensures listing.Some? ==>
              && report.Some? && Enumerates(listing.value, rt.containers, project)
              && TrackingExact(report.value.round.desired, listing.value, probes.digest, tracked, probes.view)
    ensures listing.None? && report.Some? ==> probes.view == tracked
  {
    report, listing, tracked := None, None, probes.view;
    LaterIsBut(probes.view, probes.view, ProjectIds(rt.containers, project) + (rt.used - rt.used));
    if desired.None? { return; }
    var actual: Option<seq<ContainerInfo>>, acted: bool;
    report, actual, acted := Act(h, project, desired.value, rt, probes);
    tracked := probes.view;
    if actual.None? { return; }
    FrameUntilActed(h, report.value, rt.used, old(probes.view), tracked);
    if acted {
      ghost var r := report.value.round;
      MomentAfter(h, r.actions, rt.log.events, |old(rt.log.events)|, r.before, rt.containers, r.used);
      actual := rt.ListContainers(project);
      if actual.None? { return; }
    }
    listing := actual;
    UpdateProbes(project, desired.value, actual.value, probes);
    FrameUntilDone(h, report.value, actual.value, probes.digest, rt.used, old(probes.view), tracked, probes.view);
  }
}
