/** The two rollout strategies (internal/reconciler/strategy.go), run against a
    runtime in which every call may fail. Their safety is stated for every
    moment of every run, read off the shared log. */
module Strategy {
  import opened Domain
  import opened Strings
  import opened Arithmetic
  import opened Decimals
  import opened Journal
  import opened Labels
  import opened Probes
  import opened Runtime

  const SECOND: int := 1_000_000_000
  const POLL: int := SECOND / 5

  datatype Kind = StartFirstKind | StopFirstKind

  function SelectStrategy(spec: TaskDef): Kind {
    if spec.strategy == "start-first" then StartFirstKind
    else if spec.strategy == "stop-first" then StopFirstKind
    else if spec.strategy == "" && spec.stateful then StopFirstKind
    else StartFirstKind
  }

  datatype Request = Request(slot: Slot, oldId: string, spec: TaskDef)

  /** Where a rollout stopped. */
  datatype Outcome = Done | RolledBack | StopOldFailed | RemoveOldFailed | PullFailed | CreateFailed | StartFailed

  // ---------- waiting ----------

  function Max(a: int, b: int): int {
    if a >= b then a else b
  }

  /** max(interval * (retries + 1), 10s), in Go's wrapping arithmetic. */
  function ProbeDeadlineFor(h: HealthCheck): (d: int)
    ensures d >= 10 * SECOND
  {
    var interval := if h.interval <= 0 then 10 * SECOND else h.interval;
    var retries := if h.retries <= 0 then 3 else h.retries;
    Max(Wrap64(interval * Wrap64(retries + 1)), 10 * SECOND)
  }

  lemma WrapKeeps(n: int)
    ensures Wrap64(n) == n <==> MIN_INT <= n <= MAX_INT
  {
  }

  /** The deadline is the documented maximum exactly when that product of the
      effective interval and one more than the effective retries fits. */
  lemma DeadlineExact(h: HealthCheck)
    ensures var interval := if h.interval <= 0 then 10 * SECOND else h.interval;
            var tries := if h.retries <= 0 then 4 else h.retries + 1;
            ProbeDeadlineFor(h) == Max(interval * tries, 10 * SECOND) <==> interval * tries <= MAX_INT
  {
    var interval := if h.interval <= 0 then 10 * SECOND else h.interval;
    var tries := if h.retries <= 0 then 4 else h.retries + 1;
    WrapKeeps(tries);
    WrapKeeps(interval * tries);
    NoSmallMultiple(interval, tries);
  }

  /** Polls until a snapshot says healthy, the deadline passes or the context
      is cancelled. Ticks come no faster than one per poll interval on average. */
  method WaitForFirstHealthy(probes: Manager, id: string, timeout: int) returns (healthy: bool)
    requires probes.Valid()
    modifies probes.Repr, probes.log
    ensures probes.Valid() && probes.Repr == old(probes.Repr) && probes.log.calls == old(probes.log.calls)
    ensures Later(old(probes.view), probes.view)
    ensures OnlySaw(old(probes.log.events), probes.log.events, id)
    ensures healthy <==> Saw(id, true) in probes.log.events[|old(probes.log.events)|..]
    ensures id in old(probes.view) ==> |probes.log.events| > |old(probes.log.events)|
  {
    ghost var start := probes.log.events;
    var elapsed, ticks := 0, 0;
    while true
      invariant probes.Valid() && probes.Repr == old(probes.Repr) && probes.log.calls == old(probes.log.calls)
      invariant Later(old(probes.view), probes.view)
      invariant OnlySaw(start, probes.log.events, id)
      invariant Saw(id, true) !in probes.log.events[|start|..]
      invariant ticks <= elapsed
      decreases timeout - ticks
    {
      ghost var before, seen := probes.view, probes.log.events;
      healthy := PollOnce(probes, id);
      Looked(start, seen, probes.log.events, id, id in probes.view, healthy);
      LaterTrans(old(probes.view), before, probes.view);
      if healthy {
        return;
      }
      if elapsed > timeout { return; }
      var cancelled: bool, now: int := *, *;
      if cancelled { return; }
      ticks := ticks + POLL;
      elapsed := Max(now, Max(elapsed, ticks));
    }
  }

  /** Time passes, then the snapshot is read. */
  method PollOnce(probes: Manager, id: string) returns (healthy: bool)
    requires probes.Valid()
    modifies probes.Repr, probes.log
    ensures probes.Valid() && probes.Repr == old(probes.Repr) && probes.log.calls == old(probes.log.calls)
    ensures Later(old(probes.view), probes.view)
    ensures probes.log.events == old(probes.log.events) + if id in probes.view then [Saw(id, healthy)] else []
    ensures healthy ==> id in probes.view
  {
    probes.Elapse();
    var snap := probes.ReadSnapshot(id);
    healthy := snap.Some? && snap.value.healthOk;
  }

  lemma Looked(start: seq<Event>, middle: seq<Event>, end: seq<Event>, id: string, looked: bool, healthy: bool)
    requires OnlySaw(start, middle, id) && Saw(id, true) !in middle[|start|..]
    requires end == middle + (if looked then [Saw(id, healthy)] else []) && (healthy ==> looked)
    ensures OnlySaw(start, end, id)
    ensures Saw(id, true) in end[|start|..] <==> healthy
  {
    assert end[|start|..] == middle[|start|..] + end[|middle|..];
  }

  /** Since `before`, snapshots of `id` were read and nothing else happened. */
  ghost predicate OnlySaw(before: seq<Event>, after: seq<Event>, id: string) {
    before <= after && forall k | |before| <= k < |after| :: after[k].Saw? && after[k].id == id
  }

  /** Since `before`, snapshots of no other container were read. */
  ghost predicate SawOnly(before: seq<Event>, after: seq<Event>, id: string) {
    before <= after && forall k | |before| <= k < |after| && after[k].Saw? :: after[k].id == id
  }

  /** At no moment is there a container that was not there before. */
  ghost predicate NothingNew(events: seq<Event>, start: nat, before: World) {
    forall k: nat :: At(events, start, k) ==> events[k].world.Keys <= before.Keys
  }

  lemma NothingNewAfter(e1: seq<Event>, e2: seq<Event>, start: nat, before: World, middle: World, oldId: string)
    requires start <= |e1| && AllShrunk(e1, start, before, oldId) && OnlySame(e1, e2, middle) && middle.Keys <= before.Keys
    ensures NothingNew(e2, start, before)
  {
    forall k: nat | At(e2, start, k) ensures e2[k].world.Keys <= before.Keys {
      if k < |e1| { assert At(e1, start, k) && e1[k] == e2[k]; }
    }
  }

  /** Since `before`, calls were made and no snapshot was read. */
  ghost predicate OnlyCalled(before: seq<Event>, after: seq<Event>) {
    before <= after && forall k | |before| <= k < |after| :: after[k].Called?
  }

  lemma NothingSeen(start: seq<Event>, middle: seq<Event>, end: seq<Event>, e: Event)
    requires OnlyCalled(start, middle) && middle <= end && e.Saw?
    ensures e in end[|start|..] <==> e in end[|middle|..]
  {
    assert end[|start|..] == middle[|start|..] + end[|middle|..];
  }

  /** Polls until the container reports "exited"; false when it gives up. */
  method WaitForExit(rt: Docker, id: string, timeout: int) returns (exited: bool)
    requires rt.Valid()
    modifies rt.log`events
    ensures OnlySame(old(rt.log.events), rt.log.events, rt.containers)
    ensures exited ==> id in rt.containers && rt.containers[id].state == "exited"
  {
    var elapsed, ticks := 0, 0;
    while true
      invariant OnlySame(old(rt.log.events), rt.log.events, rt.containers)
      invariant ticks <= elapsed
      decreases timeout - ticks
    {
      var info := rt.InspectContainer(id);
      if info.Some? && info.value.state == "exited" { return true; }
      if elapsed > timeout { return false; }
      var cancelled: bool, now: int := *, *;
      if cancelled { return false; }
      ticks := ticks + POLL;
      elapsed := Max(now, Max(elapsed, ticks));
    }
  }

  /** Since `before`, calls were made that left the world at `w`. */
  ghost predicate OnlySame(before: seq<Event>, after: seq<Event>, w: World) {
    before <= after && forall k | |before| <= k < |after| :: after[k] == Called(w)
  }

  // ---------- safety over a run ----------

  /** A container made for the slot with the wanted hash. */
  predicate Fills(c: ContainerInfo, slot: Slot, specHash: string) {
    && SlotOf(c.labels) == Some(slot) && Get(c.labels, SPEC_HASH) == specHash
    && InProject(c, slot.project)
  }

  /** The part of a run after the first `start` events. */
  ghost predicate At(events: seq<Event>, start: nat, k: nat) {
    start <= k < |events| && events[k].Called?
  }

  /** At moment `k` the slot holds the old container as it was, or a new one
      that was seen healthy earlier in the run. */
  ghost predicate Held(events: seq<Event>, start: nat, k: nat, oldId: string, before: World, newId: string, slot: Slot, specHash: string)
    requires At(events, start, k)
  {
    var w := events[k].world;
    || (oldId in before && oldId in w && w[oldId] == before[oldId])
    || (Saw(newId, true) in events[start..k] && newId !in before && newId in w && Fills(w[newId], slot, specHash))
  }

  /** Everything of `before` is still there, unchanged; whatever is new has a
      never-used ID and was made for the slot. */
  ghost predicate Grown(before: World, w: World, used: set<string>, slot: Slot, specHash: string) {
    && (forall id | id in before :: id in w && w[id] == before[id])
    && (forall id | id in w && id !in before :: id !in used && Fills(w[id], slot, specHash))
  }

  ghost predicate AllGrown(events: seq<Event>, start: nat, before: World, used: set<string>, slot: Slot, specHash: string) {
    forall k: nat :: At(events, start, k) ==> Grown(before, events[k].world, used, slot, specHash)
  }

  lemma GrownStep(events: seq<Event>, start: nat, before: World, used: set<string>, slot: Slot, specHash: string, w: World)
    requires AllGrown(events, start, before, used, slot, specHash) && Grown(before, w, used, slot, specHash)
    ensures AllGrown(events + [Called(w)], start, before, used, slot, specHash)
  {
  }

  lemma GrownSaw(events: seq<Event>, after: seq<Event>, id: string, start: nat, before: World, used: set<string>, slot: Slot, specHash: string)
    requires AllGrown(events, start, before, used, slot, specHash) && OnlySaw(events, after, id)
    ensures AllGrown(after, start, before, used, slot, specHash)
  {
    assert forall k: nat | At(after, start, k) :: k < |events| && At(events, start, k) && after[k] == events[k];
  }

  /** A change of state or the removal of the new container keeps the world grown. */
  lemma GrownTouch(before: World, w: World, used: set<string>, slot: Slot, specHash: string, id: string, state: string)
    requires Grown(before, w, used, slot, specHash) && id !in before
    ensures Grown(before, WithState(w, id, state), used, slot, specHash)
    ensures Grown(before, w - {id}, used, slot, specHash)
  {
  }

  /** The new container is there; of those beside it only the old one may be gone. */
  ghost predicate Promoting(beside: World, w: World, oldId: string, newId: string, slot: Slot, specHash: string) {
    && w.Keys <= beside.Keys && newId in w && Fills(w[newId], slot, specHash)
    && (forall id | id in w && id != newId :: w[id] == beside[id])
    && (forall id | id in beside && id != oldId :: id in w)
  }

  /** That is so at every moment from `cut` on. */
  ghost predicate AllPromoting(events: seq<Event>, cut: nat, beside: World, oldId: string, newId: string, slot: Slot, specHash: string) {
    forall k: nat :: At(events, cut, k) ==> Promoting(beside, events[k].world, oldId, newId, slot, specHash)
  }

  /** The slot is never lost. */
  ghost predicate NeverLost(events: seq<Event>, start: nat, oldId: string, before: World, newId: string, slot: Slot, specHash: string) {
    forall k: nat :: At(events, start, k) ==> Held(events, start, k, oldId, before, newId, slot, specHash)
  }

  /** The old container and a new one never exist together. */
  ghost predicate NeverBoth(events: seq<Event>, start: nat, oldId: string, before: World) {
    forall k: nat :: At(events, start, k) && oldId in events[k].world ==> events[k].world.Keys <= before.Keys
  }

  /** Containers other than the old one are as before, the old one keeps its
      name and labels; whatever is new has a never-used ID and was made for the slot. */
  ghost predicate Contained(before: World, after: World, used: set<string>, oldId: string, slot: Slot, specHash: string) {
    && (forall id | id in before && id != oldId :: id in after && after[id] == before[id])
    && (forall id | id in before && id in after :: after[id].labels == before[id].labels && after[id].name == before[id].name)
    && (forall id | id in after && id !in before :: id !in used && Fills(after[id], slot, specHash))
  }

  /** That is so at every moment of the run. */
  ghost predicate AllContained(events: seq<Event>, start: nat, before: World, used: set<string>, oldId: string, slot: Slot, specHash: string) {
    forall k: nat :: At(events, start, k) ==> Contained(before, events[k].world, used, oldId, slot, specHash)
  }

  lemma GrownContained(events: seq<Event>, start: nat, before: World, used: set<string>, oldId: string, slot: Slot, specHash: string)
    requires AllGrown(events, start, before, used, slot, specHash)
    ensures AllContained(events, start, before, used, oldId, slot, specHash)
  {
  }

  /** The old container is gone and exactly `newId` has taken its place, running. */
  ghost predicate Replaced(before: World, after: World, oldId: string, newId: string, slot: Slot, specHash: string) {
    && after.Keys == before.Keys - {oldId} + {newId} && newId !in before && newId != oldId
    && Fills(after[newId], slot, specHash) && after[newId].state == "running"
  }

  /** The wanted slot's replica is a machine integer. */
  predicate Printable(slot: Slot) {
    MIN_INT <= slot.replica <= MAX_INT
  }

  lemma CreatedFills(before: World, used: set<string>, after: World, id: string, name: string, slot: Slot, specHash: string, nodeId: string)
    requires Printable(slot)
    requires Created(before, used, after, id, name, RequestedLabels(slot, specHash), nodeId)
    ensures id in after && Fills(after[id], slot, specHash) && after == before[id := after[id]]
  {
    var now :| after == before[id := NewContainer(id, name, RequestedLabels(slot, specHash), nodeId, now)];
    SlotRoundTrip(slot, specHash, nodeId, now);
  }

  /** Creates a container for the slot. Whether or not it is reported, at most
      one new container appears. */
  method CreateFor(rt: Docker, name: string, slot: Slot, specHash: string) returns (result: Option<string>)
    requires rt.Valid() && Printable(slot)
    modifies rt, rt.log
    ensures rt.Valid() && old(rt.used) <= rt.used
    ensures rt.log.events == old(rt.log.events) + [Called(rt.containers)]
    ensures rt.log.calls == old(rt.log.calls) + [Step(Create(name, RequestedLabels(slot, specHash)), result.Some?)]
    ensures Grown(old(rt.containers), rt.containers, old(rt.used), slot, specHash)
    ensures result.Some? ==> result.value !in old(rt.used)
                             && rt.containers.Keys == old(rt.containers).Keys + {result.value}
    ensures rt.reliable ==> (result.Some? <==> !NameTaken(old(rt.containers), name))
    ensures result.Some? ==> rt.containers[result.value].name == name
    ensures NameTaken(old(rt.containers), name) ==> result.None? && rt.containers == old(rt.containers)
  {
    result := rt.CreateContainer(name, RequestedLabels(slot, specHash));
    if rt.containers != old(rt.containers) {
      ghost var id: string;
      if result.Some? { id := result.value; }
      else { id :| Created(old(rt.containers), old(rt.used), rt.containers, id, name, RequestedLabels(slot, specHash), rt.nodeId); }
      CreatedFills(old(rt.containers), old(rt.used), rt.containers, id, name, slot, specHash, rt.nodeId);
    }
  }

  /** The calls of creating and starting a container. */
  function BootCalls(name: string, slot: Slot, specHash: string, out: Outcome, id: string): seq<Step> {
    var create := Create(name, RequestedLabels(slot, specHash));
    if out == CreateFailed then [Step(create, false)] else [Step(create, true), Step(Start(id), out != StartFailed)]
  }

  /** The calls of a deployment that ended with `out`. */
  function LaunchCalls(name: string, slot: Slot, spec: TaskDef, specHash: string, out: Outcome, id: string): seq<Step> {
    if out == PullFailed then [Step(Pull(spec.image), false)]
    else [Step(Pull(spec.image), true)] + BootCalls(name, slot, specHash, out, id)
  }

  method Boot(rt: Docker, name: string, slot: Slot, specHash: string) returns (out: Outcome, id: string)
    requires rt.Valid() && Printable(slot)
    modifies rt, rt.log
    ensures rt.Valid() && old(rt.used) <= rt.used
    ensures out in {Done, CreateFailed, StartFailed}
    ensures rt.log.calls == old(rt.log.calls) + BootCalls(name, slot, specHash, out, id)
    ensures OnlyCalled(old(rt.log.events), rt.log.events)
    ensures AllGrown(rt.log.events, |old(rt.log.events)|, old(rt.containers), old(rt.used), slot, specHash)
    ensures Grown(old(rt.containers), rt.containers, old(rt.used), slot, specHash)
    ensures out != CreateFailed ==> id !in old(rt.used) && rt.containers.Keys == old(rt.containers).Keys + {id}
    ensures out == Done ==> rt.containers[id].state == "running"
    ensures rt.reliable ==> out == if NameTaken(old(rt.containers), name) then CreateFailed else Done
    ensures out == Done ==> rt.containers[id].name == name
    ensures NameTaken(old(rt.containers), name) ==> out == CreateFailed && OnlySame(old(rt.log.events), rt.log.events, rt.containers) && rt.containers == old(rt.containers)
  {
    ghost var before, used, start := rt.containers, rt.used, |rt.log.events|;
    var created := CreateFor(rt, name, slot, specHash);
    if created.None? { return CreateFailed, ""; }
    id := created.value;
    ghost var e := rt.log.events;
    GrownTouch(before, rt.containers, used, slot, specHash, id, "running");
    var ok := rt.StartContainer(id);
    GrownStep(e, start, before, used, slot, specHash, rt.containers);
    out := if ok then Done else StartFailed;
  }

  /** The common part of every deployment: pull, create, start. */
  method Launch(rt: Docker, name: string, slot: Slot, spec: TaskDef, specHash: string) returns (out: Outcome, id: string)
    requires rt.Valid() && Printable(slot)
    modifies rt, rt.log
    ensures rt.Valid() && old(rt.used) <= rt.used
    ensures out in {Done, PullFailed, CreateFailed, StartFailed}
    ensures rt.log.calls == old(rt.log.calls) + LaunchCalls(name, slot, spec, specHash, out, id)
    ensures OnlyCalled(old(rt.log.events), rt.log.events)
    ensures AllGrown(rt.log.events, |old(rt.log.events)|, old(rt.containers), old(rt.used), slot, specHash)
    ensures Grown(old(rt.containers), rt.containers, old(rt.used), slot, specHash)
    ensures out in {Done, StartFailed} ==>
              id !in old(rt.used) && rt.containers.Keys == old(rt.containers).Keys + {id}
    ensures out == Done ==> rt.containers[id].state == "running"
    ensures rt.reliable ==> out == if NameTaken(old(rt.containers), name) then CreateFailed else Done
    ensures out == Done ==> rt.containers[id].name == name
    ensures NameTaken(old(rt.containers), name) ==>
              out in {PullFailed, CreateFailed} && OnlySame(old(rt.log.events), rt.log.events, rt.containers) && rt.containers == old(rt.containers)
  {
    var ok := rt.PullImage(spec.image);
    if !ok { return PullFailed, ""; }
    out, id := Boot(rt, name, slot, specHash);
  }

  // ---------- start-first ----------

  /** What the reconciler owns while it runs a rollout. */
  ghost predicate Ready(rt: Docker, probes: Manager)
    reads rt, probes, probes.Repr
  {
    rt.Valid() && probes.Valid() && probes.log == rt.log && rt !in probes.Repr
  }

  function CanonicalName(slot: Slot): string {
    ContainerNameFor(slot.project, slot.service, slot.replica)
  }

  function MeanwhileName(slot: Slot): string {
    TemporaryName(slot.project, slot.service, slot.replica)
  }

  /** The calls up to the health verdict; `cleaned` is the ignored result of
      removing a new container that did not make it. */
  function TrialCalls(req: Request, specHash: string, out: Outcome, newId: string, cleaned: bool): seq<Step> {
    LaunchCalls(MeanwhileName(req.slot), req.slot, req.spec, specHash, out, newId)
    + if out in {StartFailed, RolledBack} then [Step(Remove(newId), cleaned)] else []
  }

  /** What a rollout does to tracking: entries of other containers than the old
      one and those created meanwhile only gain results. */
  ghost predicate ProbesAfter(before: map<string, Tracking>, after: map<string, Tracking>, oldId: string, used: set<string>, used': set<string>) {
    LaterBut(before, after, Id(oldId) + (used' - used))
  }

  function Id(id: string): set<string> {
    if id == "" then {} else {id}
  }

  lemma TrialFrame(before: map<string, Tracking>, after: map<string, Tracking>, oldId: string, newId: string, used: set<string>, used': set<string>)
    requires after == before || (LaterBut(before, after, {newId}) && newId in used' - used)
    ensures ProbesAfter(before, after, "", used, used') && ProbesAfter(before, after, oldId, used, used')
  {
    if after != before {
      LaterButMore(before, after, {newId}, Id("") + (used' - used));
      LaterButMore(before, after, {newId}, Id(oldId) + (used' - used));
    }
  }

  lemma FinishFrame(a: map<string, Tracking>, b: map<string, Tracking>, oldId: string, newId: string, used: set<string>, used': set<string>)
    requires newId in used' - used && newId != oldId && LaterBut(a, b, {newId}) && newId in b
    ensures ProbesAfter(a, b - Id(oldId), oldId, used, used') && newId in b - Id(oldId)
  {
    LaterButMore(a, b, {newId}, used' - used);
  }

  lemma DropFrame(a: map<string, Tracking>, oldId: string, c: map<string, Tracking>, newId: string, used: set<string>, used': set<string>)
    requires c == a - Id(oldId) || (LaterBut(a - Id(oldId), c, {newId}) && newId in used' - used)
    requires oldId in used || oldId == ""
    ensures ProbesAfter(a, c, oldId, used, used') && (oldId != "" ==> oldId !in c)
  {
    var b := a - Id(oldId);
    if c != b { LaterButMore(b, c, {newId}, used' - used); }
  }

  lemma RetireFrame(a: map<string, Tracking>, c: map<string, Tracking>, oldId: string, used: set<string>, used': set<string>)
    requires c == a || c == a - {oldId}
    ensures oldId != "" ==> ProbesAfter(a, c, oldId, used, used')
  {
  }

  lemma DroppedAfter(was: map<string, Tracking>, watched: map<string, Tracking>, id: string)
    requires LaterBut(was, watched, {id})
    ensures LaterBut(was, watched - {id}, {id})
  {
  }

  /** Puts a new container beside the old one; one that does not start is
      removed again. */
  method Bring(rt: Docker, req: Request, specHash: string) returns (out: Outcome, newId: string, ghost cleaned: bool)
    requires rt.Valid() && Printable(req.slot)
    modifies rt, rt.log
    ensures rt.Valid() && old(rt.used) <= rt.used
    ensures out in {Done, PullFailed, CreateFailed, StartFailed}
    ensures rt.log.calls == old(rt.log.calls) + TrialCalls(req, specHash, out, newId, cleaned)
    ensures OnlyCalled(old(rt.log.events), rt.log.events)
    ensures AllGrown(rt.log.events, |old(rt.log.events)|, old(rt.containers), old(rt.used), req.slot, specHash)
    ensures Grown(old(rt.containers), rt.containers, old(rt.used), req.slot, specHash)
    ensures out == Done ==>
              && newId !in old(rt.used) && rt.containers.Keys == old(rt.containers).Keys + {newId}
              && rt.containers[newId].state == "running"
    ensures rt.reliable ==> out == if NameTaken(old(rt.containers), MeanwhileName(req.slot)) then CreateFailed else Done
    ensures rt.reliable && out == CreateFailed ==> rt.containers == old(rt.containers)
    ensures out == Done ==> rt.containers[newId].name == MeanwhileName(req.slot)
  {
    cleaned := false;
    ghost var before, used, start := rt.containers, rt.used, |rt.log.events|;
    out, newId := Launch(rt, MeanwhileName(req.slot), req.slot, req.spec, specHash);
    if out == StartFailed {
      ghost var e := rt.log.events;
      GrownTouch(before, rt.containers, used, req.slot, specHash, newId, "");
      var ok := rt.RemoveContainer(newId);
      cleaned := ok;
      GrownStep(e, start, before, used, req.slot, specHash, rt.containers);
    }
  }

  /** Puts a new container beside the old one and waits for it to be healthy;
      `Done` means it was. Nothing that existed before is touched. */
  method Trial(h: TaskDef -> string, req: Request, rt: Docker, probes: Manager)
    returns (out: Outcome, newId: string, ghost cleaned: bool)
    requires Ready(rt, probes) && Printable(req.slot)
    modifies rt, rt.log, probes, probes.Repr
    ensures Ready(rt, probes) && fresh(probes.Repr - old(probes.Repr)) && old(rt.used) <= rt.used
    ensures out in {Done, RolledBack, PullFailed, CreateFailed, StartFailed}
    ensures rt.log.calls == old(rt.log.calls) + TrialCalls(req, h(req.spec), out, newId, cleaned)
    ensures old(rt.log.events) <= rt.log.events
    ensures AllGrown(rt.log.events, |old(rt.log.events)|, old(rt.containers), old(rt.used), req.slot, h(req.spec))
    ensures Grown(old(rt.containers), rt.containers, old(rt.used), req.slot, h(req.spec))
    ensures out == Done ==>
              && newId !in old(rt.used) && rt.containers.Keys == old(rt.containers).Keys + {newId}
              && rt.containers[newId].state == "running"
              && Saw(newId, true) in rt.log.events[|old(rt.log.events)|..]
    ensures out == RolledBack ==> Saw(newId, true) !in rt.log.events[|old(rt.log.events)|..]
    ensures rt.reliable ==> out in {Done, RolledBack, CreateFailed} && (out == CreateFailed <==> NameTaken(old(rt.containers), MeanwhileName(req.slot)))
    ensures if out in {Done, RolledBack}
            then LaterBut(old(probes.view), probes.view, {newId}) && newId !in old(rt.used) && newId in rt.used && (newId in probes.view <==> out == Done)
            else probes.view == old(probes.view)
    ensures rt.reliable && out in {CreateFailed, RolledBack} ==> rt.containers == old(rt.containers)
    ensures SawOnly(old(rt.log.events), rt.log.events, newId)
    ensures out == Done ==> rt.containers[newId].name == MeanwhileName(req.slot)
  {
    ghost var before, used, start := rt.containers, rt.used, |rt.log.events|;
    out, newId, cleaned := Bring(rt, req, h(req.spec));
    if out != Done { return; }
    ghost var e, w := rt.log.events, rt.containers;
    var healthy: bool;
    ghost var seen: seq<Event>;
    healthy, cleaned, seen := Judge(rt, probes, newId, req.spec);
    Judged(before, w, rt.containers, e, seen, rt.log.events, start, used, req.slot, h(req.spec), newId);
    NothingSeen(old(rt.log.events), e, rt.log.events, Saw(newId, true));
    if !healthy { out := RolledBack; }
  }

  /** Waits for the new container to be healthy and drops it again if it never
      is. `seen` is the log before that. */
  method Judge(rt: Docker, probes: Manager, id: string, spec: TaskDef) returns (healthy: bool, ghost cleaned: bool, ghost seen: seq<Event>)
    requires Ready(rt, probes) && id != ""
    modifies rt`containers, rt.log, probes, probes.Repr
    ensures Ready(rt, probes) && fresh(probes.Repr - old(probes.Repr))
    ensures OnlySaw(old(rt.log.events), seen, id) && rt.log.events == seen + if healthy then [] else [Called(rt.containers)]
    ensures healthy <==> Saw(id, true) in seen[|old(rt.log.events)|..]
    ensures rt.log.calls == old(rt.log.calls) + if healthy then [] else [Step(Remove(id), cleaned)]
    ensures rt.containers == old(rt.containers) || (!healthy && rt.containers == old(rt.containers) - {id})
    ensures rt.reliable && !healthy && id in old(rt.containers) ==> rt.containers == old(rt.containers) - {id}
    ensures LaterBut(old(probes.view), probes.view, {id}) && (id in probes.view <==> healthy)
  {
    healthy := Watch(probes, id, spec);
    seen, cleaned := rt.log.events, false;
    if healthy { return; }
    DroppedAfter(old(probes.view), probes.view, id);
    var ok := DropOld(rt, probes, id);
    cleaned := ok;
  }

  /** What the verdict leaves of a world that has only grown. */
  lemma Judged(before: World, w: World, w': World, e: seq<Event>, seen: seq<Event>, e': seq<Event>, start: nat, used: set<string>,
               slot: Slot, specHash: string, id: string)
    requires AllGrown(e, start, before, used, slot, specHash) && Grown(before, w, used, slot, specHash) && id !in before
    requires OnlySaw(e, seen, id) && (w' == w || w' == w - {id}) && (e' == seen || e' == seen + [Called(w')])
    ensures AllGrown(e', start, before, used, slot, specHash) && Grown(before, w', used, slot, specHash)
    ensures SawOnly(e, e', id) && (Saw(id, true) in e'[|e|..] <==> Saw(id, true) in seen[|e|..])
  {
    GrownSaw(e, seen, id, start, before, used, slot, specHash);
    GrownTouch(before, w, used, slot, specHash, id, "");
    if e' != seen { GrownStep(seen, start, before, used, slot, specHash, w'); }
    SawThenCalled(e, seen, e', id);
  }

  lemma SawThenCalled(e: seq<Event>, e': seq<Event>, e'': seq<Event>, id: string)
    requires SawOnly(e, e', id) && OnlyCalled(e', e'')
    ensures SawOnly(e, e'', id) && (Saw(id, true) in e''[|e|..] <==> Saw(id, true) in e'[|e|..])
  {
    assert e''[|e|..] == e'[|e|..] + e''[|e'|..];
  }

  /** Tracks a container and waits for its first healthy snapshot. */
  method Watch(probes: Manager, id: string, spec: TaskDef) returns (healthy: bool)
    requires probes.Valid() && id != ""
    modifies probes, probes.Repr, probes.log
    ensures probes.log.calls == old(probes.log.calls)
    ensures probes.Valid() && fresh(probes.Repr - old(probes.Repr))
    ensures OnlySaw(old(probes.log.events), probes.log.events, id)
    ensures healthy <==> Saw(id, true) in probes.log.events[|old(probes.log.events)|..]
    ensures LaterBut(old(probes.view), probes.view, {id}) && id in probes.view
  {
    ghost var was := probes.view;
    var tracked := probes.Track(id, spec);
    ghost var began := probes.view;
    TrackedBut(was, id, probes.digest(spec), spec);
    assert tracked;  // Track refuses only the empty ID
    healthy := WaitForFirstHealthy(probes, id, ProbeDeadlineFor(spec.health));
    LaterIsBut(began, probes.view, {id});
    LaterButTrans(was, began, probes.view, {id}, {id});
  }

  /** Stops probing the old container and removes it. */
  method DropOld(rt: Docker, probes: Manager, oldId: string) returns (ok: bool)
    requires Ready(rt, probes)
    modifies rt`containers, rt.log, probes
    ensures Ready(rt, probes) && probes.Repr == old(probes.Repr)
    ensures rt.log.events == old(rt.log.events) + [Called(rt.containers)]
    ensures rt.log.calls == old(rt.log.calls) + [Step(Remove(oldId), ok)]
    ensures rt.containers == old(rt.containers) - {oldId} || (!ok && rt.containers == old(rt.containers))
    ensures rt.reliable ==> (ok <==> oldId in old(rt.containers))
    ensures probes.view == old(probes.view) - {oldId}
  {
    probes.Untrack(oldId);
    ok := rt.RemoveContainer(oldId);
  }

  function PromoteCalls(oldId: string, newId: string, slot: Slot, ok: bool, renamed: bool): seq<Step> {
    (if oldId == "" then [] else [Step(Remove(oldId), ok)])
    + if ok then [Step(Rename(newId, CanonicalName(slot)), renamed)] else []
  }

  /** Removes the old container and gives the new one its name. */
  method Promote(rt: Docker, probes: Manager, oldId: string, newId: string, slot: Slot, ghost specHash: string)
    returns (ok: bool, ghost renamed: bool)
    requires Ready(rt, probes) && newId in rt.containers && newId != oldId
    requires Fills(rt.containers[newId], slot, specHash)
    modifies rt`containers, rt.log, probes, probes.Repr
    ensures Ready(rt, probes) && probes.Repr == old(probes.Repr)
    ensures old(rt.log.events) <= rt.log.events
    ensures rt.log.calls == old(rt.log.calls) + PromoteCalls(oldId, newId, slot, ok, renamed)
    ensures AllPromoting(rt.log.events, |old(rt.log.events)|, old(rt.containers), oldId, newId, slot, specHash)
    ensures Promoting(old(rt.containers), rt.containers, oldId, newId, slot, specHash)
    ensures rt.containers[newId].state == old(rt.containers)[newId].state
    ensures if ok then rt.containers.Keys == old(rt.containers).Keys - (if oldId == "" then {} else {oldId})
            else oldId != "" && rt.containers.Keys <= old(rt.containers).Keys
    ensures rt.reliable && oldId != "" ==> (ok <==> oldId in old(rt.containers))
    ensures probes.view == old(probes.view) - Id(oldId)
    ensures rt.containers[newId].name in {old(rt.containers)[newId].name, CanonicalName(slot)}
    ensures OnlyCalled(old(rt.log.events), rt.log.events)
  {
    ghost var beside, e := rt.containers, rt.log.events;
    ok := DropOldIfAny(rt, probes, oldId);
    DropPromoting(beside, rt.containers, e, rt.log.events, oldId, newId, slot, specHash);
    renamed := false;
    if ok {
      ghost var w, e' := rt.containers, rt.log.events;
      renamed := GiveName(rt, newId, CanonicalName(slot));
      NamePromoting(beside, w, rt.containers, e', |e|, oldId, newId, slot, specHash);
    }
  }

  lemma DropPromoting(beside: World, w: World, e: seq<Event>, e': seq<Event>, oldId: string, newId: string, slot: Slot, specHash: string)
    requires newId in beside && newId != oldId && Fills(beside[newId], slot, specHash)
    requires w == beside || w == beside - Id(oldId)
    requires e' == e || e' == e + [Called(w)]
    ensures Promoting(beside, w, oldId, newId, slot, specHash)
    ensures AllPromoting(e', |e|, beside, oldId, newId, slot, specHash)
  {
  }

  lemma NamePromoting(beside: World, w: World, w': World, e: seq<Event>, cut: nat, oldId: string, newId: string, slot: Slot, specHash: string)
    requires Promoting(beside, w, oldId, newId, slot, specHash) && AllPromoting(e, cut, beside, oldId, newId, slot, specHash)
    requires w'.Keys == w.Keys && w'[newId].labels == w[newId].labels && forall id | id in w && id != newId :: w'[id] == w[id]
    ensures Promoting(beside, w', oldId, newId, slot, specHash)
    ensures AllPromoting(e + [Called(w')], cut, beside, oldId, newId, slot, specHash)
  {
  }

  /** Drops the old container, if there is one. */
  method DropOldIfAny(rt: Docker, probes: Manager, oldId: string) returns (ok: bool)
    requires Ready(rt, probes)
    modifies rt`containers, rt.log, probes
    ensures Ready(rt, probes) && probes.Repr == old(probes.Repr)
    ensures rt.log.events == old(rt.log.events) + if oldId == "" then [] else [Called(rt.containers)]
    ensures rt.log.calls == old(rt.log.calls) + if oldId == "" then [] else [Step(Remove(oldId), ok)]
    ensures rt.containers == old(rt.containers) - Id(oldId) || (!ok && rt.containers == old(rt.containers))
    ensures oldId == "" ==> ok
    ensures rt.reliable && oldId != "" ==> (ok <==> oldId in old(rt.containers))
    ensures probes.view == old(probes.view) - Id(oldId)
  {
    if oldId == "" { return true; }
    ok := DropOld(rt, probes, oldId);
  }

  /** A failed rename is only logged: containers are found by their labels. */
  method GiveName(rt: Docker, id: string, name: string) returns (ghost renamed: bool)
    requires rt.Valid() && id in rt.containers
    modifies rt`containers, rt.log
    ensures rt.Valid()
    ensures rt.log.events == old(rt.log.events) + [Called(rt.containers)]
    ensures rt.log.calls == old(rt.log.calls) + [Step(Rename(id, name), renamed)]
    ensures rt.containers.Keys == old(rt.containers).Keys
    ensures forall k | k in rt.containers && k != id :: rt.containers[k] == old(rt.containers)[k]
    ensures rt.containers[id].labels == old(rt.containers)[id].labels && rt.containers[id].state == old(rt.containers)[id].state
    ensures rt.containers[id].name in {old(rt.containers)[id].name, name}
  {
    var ok := rt.RenameContainer(id, name);
    renamed := ok;
  }

  lemma CutHolds(before: World, e1: seq<Event>, e2: seq<Event>, start: nat, used: set<string>, oldId: string, newId: string, slot: Slot, specHash: string)
    requires start <= |e1| && e1 <= e2 && oldId in before && newId !in before
    requires AllGrown(e1, start, before, used, slot, specHash)
    requires Saw(newId, true) in e1[start..]
    requires forall k: nat :: At(e2, |e1|, k) ==> newId in e2[k].world && Fills(e2[k].world[newId], slot, specHash)
    ensures NeverLost(e2, start, oldId, before, newId, slot, specHash)
  {
    forall k: nat | At(e2, start, k) ensures Held(e2, start, k, oldId, before, newId, slot, specHash) {
      if k < |e1| {
        assert At(e1, start, k) && e1[k] == e2[k];
      } else {
        assert At(e2, |e1|, k);
        SeenLater(e1, e2, start, k, Saw(newId, true));
      }
    }
  }

  lemma SeenLater(e1: seq<Event>, e2: seq<Event>, start: nat, k: nat, e: Event)
    requires start <= |e1| <= k <= |e2| && e1 <= e2 && e in e1[start..]
    ensures e in e2[start..k]
  {
    var i :| 0 <= i < |e1| - start && e1[start..][i] == e;
    assert e2[start..k][i] == e;
  }

  lemma GrownHolds(before: World, e: seq<Event>, start: nat, used: set<string>, oldId: string, newId: string, slot: Slot, specHash: string)
    requires oldId in before && AllGrown(e, start, before, used, slot, specHash)
    ensures NeverLost(e, start, oldId, before, newId, slot, specHash)
  {
  }

  /** The calls of a start-first rollout that ended with `out`, in order.
      `ignored` is the result of its last call where the program drops it. */
  function StartFirstCalls(req: Request, specHash: string, out: Outcome, newId: string, ignored: bool): seq<Step> {
    if out in {Done, RemoveOldFailed}
    then TrialCalls(req, specHash, Done, newId, false) + PromoteCalls(req.oldId, newId, req.slot, out == Done, ignored)
    else TrialCalls(req, specHash, out, newId, ignored)
  }

  /** Start-first never loses the slot: at every moment of every run, whichever
      calls fail, it holds the untouched old container or a new one that was
      seen healthy. `Done` means exactly the new one is left; any other result
      but a failed removal of the old one leaves the old one untouched. */
  method StartFirst(h: TaskDef -> string, req: Request, rt: Docker, probes: Manager)
    returns (out: Outcome, newId: string, ghost ignored: bool)
    requires Ready(rt, probes) && Printable(req.slot) && (req.oldId == "" || req.oldId in rt.used)
    modifies rt, rt.log, probes, probes.Repr
    ensures Ready(rt, probes) && fresh(probes.Repr - old(probes.Repr)) && old(rt.used) <= rt.used
    ensures old(rt.log.events) <= rt.log.events
    ensures req.oldId in old(rt.containers) ==>
              NeverLost(rt.log.events, |old(rt.log.events)|, req.oldId, old(rt.containers), newId, req.slot, h(req.spec))
    ensures AllContained(rt.log.events, |old(rt.log.events)|, old(rt.containers), old(rt.used), req.oldId, req.slot, h(req.spec))
    ensures Contained(old(rt.containers), rt.containers, old(rt.used), req.oldId, req.slot, h(req.spec))
    ensures out == Done ==> Replaced(old(rt.containers), rt.containers, req.oldId, newId, req.slot, h(req.spec))
    ensures out in {Done, RemoveOldFailed} ==> Saw(newId, true) in rt.log.events[|old(rt.log.events)|..]
    ensures out == RemoveOldFailed ==>
              newId !in old(rt.containers) && newId in rt.containers && Fills(rt.containers[newId], req.slot, h(req.spec))
    ensures out !in {Done, RemoveOldFailed} && req.oldId in old(rt.containers) ==>
              req.oldId in rt.containers && rt.containers[req.oldId] == old(rt.containers)[req.oldId]
    ensures out == RolledBack ==> Saw(newId, true) !in rt.log.events[|old(rt.log.events)|..]
    ensures out != StopOldFailed
    ensures rt.log.calls == old(rt.log.calls) + StartFirstCalls(req, h(req.spec), out, newId, ignored)
    ensures rt.reliable && req.oldId in old(rt.containers) ==>
              out == if NameTaken(old(rt.containers), MeanwhileName(req.slot)) then CreateFailed
                     else if Saw(newId, true) in rt.log.events[|old(rt.log.events)|..] then Done else RolledBack
    ensures ProbesAfter(old(probes.view), probes.view, req.oldId, old(rt.used), rt.used)
    ensures out in {Done, RemoveOldFailed} ==> newId in probes.view && (req.oldId != "" ==> req.oldId !in probes.view)
    ensures out == RolledBack ==> newId !in probes.view
    ensures out !in {Done, RemoveOldFailed} ==> ProbesAfter(old(probes.view), probes.view, "", old(rt.used), rt.used)
    ensures SawOnly(old(rt.log.events), rt.log.events, newId)
    ensures rt.reliable && out in {CreateFailed, RolledBack} ==> rt.containers == old(rt.containers)
    ensures out == Done ==> rt.containers[newId].name in {MeanwhileName(req.slot), CanonicalName(req.slot)}
    ensures rt.reliable && req.oldId != "" && out == Done ==> req.oldId in old(rt.containers)
  {
    ghost var before, used, start, calls := rt.containers, rt.used, |rt.log.events|, rt.log.calls;
    out, newId, ignored := Trial(h, req, rt, probes);
    ghost var tried, e := probes.view, rt.log.events;
    if out != Done {
      TrialFrame(old(probes.view), tried, req.oldId, newId, used, rt.used);
      GrownContained(rt.log.events, start, before, used, req.oldId, req.slot, h(req.spec));
      if req.oldId in before { GrownHolds(before, rt.log.events, start, used, req.oldId, newId, req.slot, h(req.spec)); }
      return;
    }
    out, ignored := Finish(rt, probes, req, newId, start, before, used, h(req.spec));
    FinishFrame(old(probes.view), tried, req.oldId, newId, used, rt.used);
    SawThenCalled(old(rt.log.events), e, rt.log.events, newId);
    Assoc(calls, TrialCalls(req, h(req.spec), Done, newId, false), PromoteCalls(req.oldId, newId, req.slot, out == Done, ignored));
  }

  lemma PromotedWorld(before: World, beside: World, after: World, used: set<string>, oldId: string, newId: string, slot: Slot, specHash: string)
    requires before.Keys <= used && newId !in used && beside.Keys == before.Keys + {newId} && oldId != newId
    requires Grown(before, beside, used, slot, specHash)
    requires Promoting(beside, after, oldId, newId, slot, specHash)
    ensures Contained(before, after, used, oldId, slot, specHash)
  {
  }

  lemma PromotedWorlds(e1: seq<Event>, e2: seq<Event>, start: nat, before: World, beside: World, used: set<string>,
                       oldId: string, newId: string, slot: Slot, specHash: string)
    requires before.Keys <= used && newId !in used && beside.Keys == before.Keys + {newId} && oldId != newId
    requires Grown(before, beside, used, slot, specHash) && e1 <= e2
    requires AllGrown(e1, start, before, used, slot, specHash) && AllPromoting(e2, |e1|, beside, oldId, newId, slot, specHash)
    ensures AllContained(e2, start, before, used, oldId, slot, specHash)
  {
    forall k: nat | At(e2, start, k) ensures Contained(before, e2[k].world, used, oldId, slot, specHash) {
      if k < |e1| {
        assert At(e1, start, k) && e1[k] == e2[k];
      } else {
        assert At(e2, |e1|, k);
        PromotedWorld(before, beside, e2[k].world, used, oldId, newId, slot, specHash);
      }
    }
  }

  /** The promotion of a new container that was seen healthy. */
  method Finish(rt: Docker, probes: Manager, req: Request, newId: string,
                ghost start: nat, ghost before: World, ghost used: set<string>, ghost specHash: string)
    returns (out: Outcome, ghost ignored: bool)
    requires Ready(rt, probes) && start <= |rt.log.events| && before.Keys <= used
    requires newId !in used && rt.containers.Keys == before.Keys + {newId} && rt.containers[newId].state == "running"
    requires req.oldId == "" || req.oldId in used
    requires AllGrown(rt.log.events, start, before, used, req.slot, specHash)
    requires Grown(before, rt.containers, used, req.slot, specHash)
    requires Saw(newId, true) in rt.log.events[start..]
    modifies rt`containers, rt.log, probes, probes.Repr
    ensures Ready(rt, probes) && probes.Repr == old(probes.Repr)
    ensures old(rt.log.events) <= rt.log.events && out in {Done, RemoveOldFailed}
    ensures rt.log.calls == old(rt.log.calls) + PromoteCalls(req.oldId, newId, req.slot, out == Done, ignored)
    ensures req.oldId in before ==> NeverLost(rt.log.events, start, req.oldId, before, newId, req.slot, specHash)
    ensures AllContained(rt.log.events, start, before, used, req.oldId, req.slot, specHash)
    ensures Contained(before, rt.containers, used, req.oldId, req.slot, specHash)
    ensures out == Done ==> Replaced(before, rt.containers, req.oldId, newId, req.slot, specHash)
    ensures newId in rt.containers && Fills(rt.containers[newId], req.slot, specHash)
    ensures rt.reliable && req.oldId != "" ==> (out == Done <==> req.oldId in before)
    ensures probes.view == old(probes.view) - Id(req.oldId)
    ensures rt.containers[newId].name in {old(rt.containers)[newId].name, CanonicalName(req.slot)}
    ensures OnlyCalled(old(rt.log.events), rt.log.events)
  {
    ghost var e1, beside := rt.log.events, rt.containers;
    var ok: bool;
    ok, ignored := Promote(rt, probes, req.oldId, newId, req.slot, specHash);
    PromotedWorld(before, beside, rt.containers, used, req.oldId, newId, req.slot, specHash);
    PromotedWorlds(e1, rt.log.events, start, before, beside, used, req.oldId, newId, req.slot, specHash);
    if req.oldId in before { CutHolds(before, e1, rt.log.events, start, used, req.oldId, newId, req.slot, specHash); }
    out := if ok then Done else RemoveOldFailed;
  }

  // ---------- stop-first ----------

  /** Nothing was added and only the old container was touched. */
  ghost predicate Shrunk(before: World, after: World, oldId: string) {
    && after.Keys <= before.Keys
    && (forall id | id in before && id != oldId :: id in after && after[id] == before[id])
    && (forall id | id in after :: after[id].labels == before[id].labels && after[id].name == before[id].name)
  }

  ghost predicate AllShrunk(events: seq<Event>, start: nat, before: World, oldId: string) {
    forall k: nat :: At(events, start, k) ==> Shrunk(before, events[k].world, oldId)
  }

  lemma ShrunkThenGrown(before: World, middle: World, after: World, used: set<string>, oldId: string, newId: string, slot: Slot, specHash: string)
    requires Shrunk(before, middle, oldId) && Grown(middle, after, used, slot, specHash) && before.Keys <= used
    ensures Contained(before, after, used, oldId, slot, specHash)
    ensures newId !in used && after.Keys == middle.Keys + {newId} && middle.Keys == before.Keys - {oldId}
            && newId != oldId && after[newId].state == "running"
            ==> Replaced(before, after, oldId, newId, slot, specHash)
  {
  }

  function RetireCalls(oldId: string, out: Outcome): seq<Step> {
    if oldId == "" then []
    else if out == StopOldFailed then [Step(Stop(oldId), false)]
    else [Step(Stop(oldId), true), Step(Remove(oldId), out != RemoveOldFailed)]
  }

  /** The calls of a stop-first rollout that ended with `out`, in order. */
  function StopFirstCalls(req: Request, specHash: string, out: Outcome, newId: string): seq<Step> {
    RetireCalls(req.oldId, out)
    + if out in {StopOldFailed, RemoveOldFailed} then []
      else LaunchCalls(CanonicalName(req.slot), req.slot, req.spec, specHash, out, newId)
  }

  /** Stops, waits for and removes the old container. */
  method Retire(rt: Docker, probes: Manager, oldId: string) returns (out: Outcome)
    requires Ready(rt, probes)
    modifies rt`containers, rt.log, probes, probes.Repr
    ensures Ready(rt, probes) && probes.Repr == old(probes.Repr)
    ensures out in {Done, StopOldFailed, RemoveOldFailed}
    ensures oldId != "" ==> rt.log.calls == old(rt.log.calls) + RetireCalls(oldId, out)
    ensures old(rt.log.events) <= rt.log.events
    ensures AllShrunk(rt.log.events, |old(rt.log.events)|, old(rt.containers), oldId)
    ensures Shrunk(old(rt.containers), rt.containers, oldId)
    ensures out == Done ==> rt.containers == old(rt.containers) - {oldId}
    ensures rt.reliable ==> (out == Done <==> oldId in old(rt.containers))
    ensures probes.view == if out == StopOldFailed then old(probes.view) else old(probes.view) - {oldId}
  {
    var ok := StopOld(rt, oldId);
    if !ok { return StopOldFailed; }
    ok := DropOld(rt, probes, oldId);
    return if ok then Done else RemoveOldFailed;
  }

  method RetireIfAny(rt: Docker, probes: Manager, oldId: string) returns (out: Outcome)
    requires Ready(rt, probes)
    modifies rt`containers, rt.log, probes, probes.Repr
    ensures Ready(rt, probes) && probes.Repr == old(probes.Repr)
    ensures out in {Done, StopOldFailed, RemoveOldFailed} && (oldId == "" ==> out == Done)
    ensures rt.log.calls == old(rt.log.calls) + RetireCalls(oldId, out)
    ensures old(rt.log.events) <= rt.log.events
    ensures AllShrunk(rt.log.events, |old(rt.log.events)|, old(rt.containers), oldId)
    ensures Shrunk(old(rt.containers), rt.containers, oldId)
    ensures out == Done ==> rt.containers == old(rt.containers) - {oldId}
    ensures rt.reliable && oldId != "" ==> (out == Done <==> oldId in old(rt.containers))
    ensures probes.view == if out == StopOldFailed then old(probes.view) else old(probes.view) - Id(oldId)
  {
    if oldId == "" { return Done; }
    out := Retire(rt, probes, oldId);
  }

  /** Stops the old container; one that never reports its exit is removed anyway. */
  method StopOld(rt: Docker, oldId: string) returns (ok: bool)
    requires rt.Valid()
    modifies rt`containers, rt.log
    ensures rt.Valid() && rt.containers.Keys == old(rt.containers).Keys
    ensures rt.log.calls == old(rt.log.calls) + [Step(Stop(oldId), ok)]
    ensures old(rt.log.events) <= rt.log.events
    ensures AllShrunk(rt.log.events, |old(rt.log.events)|, old(rt.containers), oldId)
    ensures Shrunk(old(rt.containers), rt.containers, oldId)
    ensures rt.reliable ==> (ok <==> oldId in old(rt.containers))
  {
    ok := rt.StopContainer(oldId);
    if !ok { return; }
    var _ := WaitForExit(rt, oldId, 35 * SECOND);
  }

  /** Stop-first has no two-writers window: at no moment of any run does a new
      container exist together with the old one. A probe that never succeeds
      does not undo the rollout. */
  method StopFirst(h: TaskDef -> string, req: Request, rt: Docker, probes: Manager) returns (out: Outcome, newId: string)
    requires Ready(rt, probes) && Printable(req.slot) && (req.oldId == "" || req.oldId in rt.used)
    modifies rt, rt.log, probes, probes.Repr
    ensures Ready(rt, probes) && fresh(probes.Repr - old(probes.Repr)) && old(rt.used) <= rt.used
    ensures old(rt.log.events) <= rt.log.events
    ensures req.oldId != "" ==> NeverBoth(rt.log.events, |old(rt.log.events)|, req.oldId, old(rt.containers))
    ensures AllContained(rt.log.events, |old(rt.log.events)|, old(rt.containers), old(rt.used), req.oldId, req.slot, h(req.spec))
    ensures Contained(old(rt.containers), rt.containers, old(rt.used), req.oldId, req.slot, h(req.spec))
    ensures out == Done ==> Replaced(old(rt.containers), rt.containers, req.oldId, newId, req.slot, h(req.spec))
    ensures if out in {StopOldFailed, RemoveOldFailed} then rt.containers.Keys <= old(rt.containers).Keys
            else req.oldId !in rt.containers
    ensures out != RolledBack
    ensures rt.log.calls == old(rt.log.calls) + StopFirstCalls(req, h(req.spec), out, newId)
    ensures rt.reliable && req.oldId != "" ==>
              (out == Done <==> req.oldId in old(rt.containers) && !NameTaken(old(rt.containers) - {req.oldId}, CanonicalName(req.slot)))
    ensures out == Done ==> rt.containers[newId].name == CanonicalName(req.slot)
    ensures ProbesAfter(old(probes.view), probes.view, req.oldId, old(rt.used), rt.used)
    ensures out == Done ==> newId in probes.view
    ensures out == StopOldFailed ==> probes.view == old(probes.view)
    ensures out != StopOldFailed && req.oldId != "" ==> req.oldId !in probes.view
    ensures NameTaken(old(rt.containers) - {req.oldId}, CanonicalName(req.slot)) ==>
              NothingNew(rt.log.events, |old(rt.log.events)|, old(rt.containers)) && rt.containers.Keys <= old(rt.containers).Keys
    ensures rt.reliable && req.oldId in old(rt.containers) && out != Done ==> rt.containers == old(rt.containers) - {req.oldId}
  {
    newId := "";
    ghost var before, used, start, calls := rt.containers, rt.used, |rt.log.events|, rt.log.calls;
    out := RetireIfAny(rt, probes, req.oldId);
    if out != Done {
      RetireFrame(old(probes.view), probes.view, req.oldId, used, rt.used);
      ShrunkContained(rt.log.events, start, before, used, req.oldId, req.slot, h(req.spec));
      return;
    }
    ghost var e, middle := rt.log.events, rt.containers;
    out, newId := Succeed(rt, probes, req, start, before, used, h(req.spec));
    if NameTaken(middle, CanonicalName(req.slot)) { NothingNewAfter(e, rt.log.events, start, before, middle, req.oldId); }
    DropFrame(old(probes.view), req.oldId, probes.view, newId, used, rt.used);
    Assoc(calls, RetireCalls(req.oldId, Done), LaunchCalls(CanonicalName(req.slot), req.slot, req.spec, h(req.spec), out, newId));
  }

  /** The deployment after the old container is gone. */
  method Succeed(rt: Docker, probes: Manager, req: Request,
                 ghost start: nat, ghost before: World, ghost used: set<string>, specHash: string)
    returns (out: Outcome, newId: string)
    requires Ready(rt, probes) && Printable(req.slot)
    requires before.Keys <= used <= rt.used && (req.oldId == "" || req.oldId in used)
    requires Shrunk(before, rt.containers, req.oldId) && rt.containers.Keys == before.Keys - {req.oldId}
    requires start <= |rt.log.events|
    requires AllShrunk(rt.log.events, start, before, req.oldId)
    modifies rt, rt.log, probes, probes.Repr
    ensures Ready(rt, probes) && fresh(probes.Repr - old(probes.Repr)) && old(rt.used) <= rt.used
    ensures old(rt.log.events) <= rt.log.events && out in {Done, PullFailed, CreateFailed, StartFailed}
    ensures req.oldId != "" ==> NeverBoth(rt.log.events, start, req.oldId, before)
    ensures req.oldId !in rt.containers
    ensures AllContained(rt.log.events, start, before, used, req.oldId, req.slot, specHash)
    ensures Contained(before, rt.containers, used, req.oldId, req.slot, specHash)
    ensures out == Done ==> Replaced(before, rt.containers, req.oldId, newId, req.slot, specHash)
    ensures rt.log.calls == old(rt.log.calls) + LaunchCalls(CanonicalName(req.slot), req.slot, req.spec, specHash, out, newId)
    ensures rt.reliable ==> out == if NameTaken(old(rt.containers), CanonicalName(req.slot)) then CreateFailed else Done
    ensures out == Done ==> rt.containers[newId].name == CanonicalName(req.slot)
    ensures if out == Done then LaterBut(old(probes.view), probes.view, {newId}) && newId in probes.view && newId !in used && newId in rt.used
            else probes.view == old(probes.view)
    ensures NameTaken(old(rt.containers), CanonicalName(req.slot)) ==>
              out != Done && OnlySame(old(rt.log.events), rt.log.events, rt.containers) && rt.containers == old(rt.containers)
  {
    ghost var e1, middle, used' := rt.log.events, rt.containers, rt.used;
    ghost var e2;
    out, newId, e2 := Relaunch(rt, probes, req, specHash);
    assert Grown(middle, rt.containers, used, req.slot, specHash);
    ShrunkThenGrown(before, middle, rt.containers, used, req.oldId, newId, req.slot, specHash);
    ApartHolds(before, middle, e1, e2, rt.log.events, start, used', req.oldId, newId, req.slot, specHash);
    GrownWithin(e2, |e1|, middle, used, used', req.slot, specHash);
    SucceededWorlds(before, middle, e1, e2, rt.log.events, start, used, req.oldId, newId, req.slot, specHash);
  }

  lemma ShrunkContained(events: seq<Event>, start: nat, before: World, used: set<string>, oldId: string, slot: Slot, specHash: string)
    requires AllShrunk(events, start, before, oldId)
    ensures AllContained(events, start, before, used, oldId, slot, specHash)
    ensures NothingNew(events, start, before) && NeverBoth(events, start, oldId, before)
  {
  }

  lemma GrownWithin(events: seq<Event>, start: nat, before: World, used: set<string>, used': set<string>, slot: Slot, specHash: string)
    requires AllGrown(events, start, before, used', slot, specHash) && used <= used'
    ensures AllGrown(events, start, before, used, slot, specHash)
  {
  }

  lemma SucceededWorlds(before: World, middle: World, e1: seq<Event>, e2: seq<Event>, e3: seq<Event>, start: nat, used: set<string>,
                        oldId: string, newId: string, slot: Slot, specHash: string)
    requires start <= |e1| && e1 <= e2 && (e3 == e2 || OnlySaw(e2, e3, newId)) && before.Keys <= used
    requires AllShrunk(e1, start, before, oldId) && Shrunk(before, middle, oldId)
    requires AllGrown(e2, |e1|, middle, used, slot, specHash)
    ensures AllContained(e3, start, before, used, oldId, slot, specHash)
  {
    forall k: nat | At(e3, start, k) ensures Contained(before, e3[k].world, used, oldId, slot, specHash) {
      if k < |e1| {
        assert e1[k] == e3[k] && At(e1, start, k);
      } else {
        assert At(e2, |e1|, k) && e2[k] == e3[k];
        ShrunkThenGrown(before, middle, e3[k].world, used, oldId, newId, slot, specHash);
      }
    }
  }

  /** Deploys under the canonical name; an unhealthy container stays and the
      next tick decides. */
  method Relaunch(rt: Docker, probes: Manager, req: Request, specHash: string) returns (out: Outcome, newId: string, ghost launched: seq<Event>)
    requires Ready(rt, probes) && Printable(req.slot)
    modifies rt, rt.log, probes, probes.Repr
    ensures Ready(rt, probes) && fresh(probes.Repr - old(probes.Repr)) && old(rt.used) <= rt.used
    ensures out in {Done, PullFailed, CreateFailed, StartFailed}
    ensures rt.log.calls == old(rt.log.calls) + LaunchCalls(CanonicalName(req.slot), req.slot, req.spec, specHash, out, newId)
    ensures old(rt.log.events) <= launched && (rt.log.events == launched || OnlySaw(launched, rt.log.events, newId))
    ensures AllGrown(launched, |old(rt.log.events)|, old(rt.containers), old(rt.used), req.slot, specHash)
    ensures Grown(old(rt.containers), rt.containers, old(rt.used), req.slot, specHash)
    ensures out == Done ==> newId !in old(rt.used) && rt.containers.Keys == old(rt.containers).Keys + {newId}
                            && rt.containers[newId].state == "running"
    ensures rt.reliable ==> out == if NameTaken(old(rt.containers), CanonicalName(req.slot)) then CreateFailed else Done
    ensures out == Done ==> rt.containers[newId].name == CanonicalName(req.slot)
    ensures if out == Done then LaterBut(old(probes.view), probes.view, {newId}) && newId in probes.view && newId in rt.used
            else probes.view == old(probes.view)
    ensures NameTaken(old(rt.containers), CanonicalName(req.slot)) ==>
              out != Done && OnlySame(old(rt.log.events), rt.log.events, rt.containers) && rt.containers == old(rt.containers)
  {
    out, newId := Launch(rt, CanonicalName(req.slot), req.slot, req.spec, specHash);
    launched := rt.log.events;
    if out == Done {
      var _ := Watch(probes, newId, req.spec);
    }
  }

  lemma ApartHolds(before: World, middle: World, e1: seq<Event>, e2: seq<Event>, e3: seq<Event>, start: nat, used: set<string>,
                   oldId: string, newId: string, slot: Slot, specHash: string)
    requires start <= |e1| && e1 <= e2 && (e3 == e2 || OnlySaw(e2, e3, newId))
    requires AllShrunk(e1, start, before, oldId)
    requires AllGrown(e2, |e1|, middle, used, slot, specHash) && middle.Keys <= before.Keys
    requires oldId == "" || (oldId in used && oldId !in middle)
    ensures oldId != "" ==> NeverBoth(e3, start, oldId, before)
  {
    forall k: nat | oldId != "" && At(e3, start, k) ensures oldId in e3[k].world ==> e3[k].world.Keys <= before.Keys {
      if k < |e1| {
        assert e1[k] == e3[k] && At(e1, start, k);
      } else {
        assert At(e2, |e1|, k) && e2[k] == e3[k];
      }
    }
  }
}
