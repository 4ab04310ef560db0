/** Executing the actions of one reconciliation (internal/reconciler/action.go
    and the action loop of reconciler.go). Any action may fail and the loop goes on. */
module Tick {
  import opened Domain
  import opened Journal
  import opened Labels
  import opened Diff
  import opened Probes
  import opened Runtime
  import opened Strategy

  /** The hash label an action puts on its new container. */
  function MadeHash(h: TaskDef -> string, a: Action): string {
    if a.Create? then a.specHash else if a.Replace? then h(a.spec) else ""
  }

  /** What an action does to the world, whether or not it succeeds: it touches
      only the container it names, and what it adds fills its slot. */
  ghost predicate Confined(h: TaskDef -> string, a: Action, before: World, after: World, used: set<string>) {
    && (forall id | id in before && !a.Names(id) :: id in after && after[id] == before[id])
    && (forall id | id in before && id in after :: after[id].labels == before[id].labels && after[id].name == before[id].name)
    && (forall id | id in after && id !in before :: id !in used && a.Makes() && Fills(after[id], a.slot, MadeHash(h, a)))
  }

  /** What a successful action achieves: the named container is gone, and a
      create or replace adds exactly one running container. */
  ghost predicate Achieved(a: Action, before: World, after: World) {
    && (!a.Create? ==> a.id !in after)
    && (a.Makes() ==> exists n | n in after :: n !in before && after[n].state == "running"
                        && (forall m | m in after && m !in before :: m == n))
  }

  /** The actions name containers the runtime knows, for slots it can print. */
  ghost predicate Executable(a: Action, used: set<string>) {
    (!a.Create? ==> a.id in used) && (a.Makes() ==> Printable(a.slot))
  }

  // ---------- what holds at every moment ----------

  /** The service asked for stop-first, or is stateful and asked for nothing. */
  predicate StopsFirst(spec: TaskDef) {
    spec.strategy == "stop-first" || (spec.strategy == "" && spec.stateful)
  }

  /** The slot of a replaced container is held: by that container as it was or
      by a new one with the wanted hash that was seen healthy. */
  ghost predicate HoldsSlot(h: TaskDef -> string, a: Action, w: World, seen: seq<Event>, before: World, used: set<string>)
    requires a.Replace? && a.id in before
  {
    || (a.id in w && w[a.id] == before[a.id])
    || (exists n :: n in w && n !in used && Fills(w[n], a.slot, h(a.spec)) && Saw(n, true) in seen)
  }

  /** While the replaced container exists nothing new is in its slot. */
  ghost predicate Alone(a: Action, w: World, used: set<string>)
    requires a.Replace?
  {
    a.id in w ==> forall n | n in w && n !in used :: SlotOf(w[n].labels) != Some(a.slot)
  }

  /** Everything but a start-first replace. */
  predicate Plain(a: Action) {
    a.Replace? ==> StopsFirst(a.spec)
  }

  /** Once there is something new in the slot of a create or a stop-first
      replace, no container that held the slot's name before is left. */
  ghost predicate Cleared(a: Action, w: World, before: World, used: set<string>) {
    Plain(a) && a.Makes() && (exists n | n in w :: n !in used && SlotOf(w[n].labels) == Some(a.slot))
    ==> forall id | id in before && before[id].name == CanonicalName(a.slot) :: id !in w
  }

  /** What an action guarantees of the world at any moment: a replace by its
      strategy, a create and a stop-first replace by the name they need. */
  ghost predicate Guarded(h: TaskDef -> string, a: Action, w: World, seen: seq<Event>, before: World, used: set<string>) {
    && (a.Replace? && a.id in before ==> if StopsFirst(a.spec) then Alone(a, w, used) else HoldsSlot(h, a, w, seen, before, used))
    && Cleared(a, w, before, used)
  }

  /** Both hold at every moment of a run from `start` on. */
  ghost predicate AllSafe(h: TaskDef -> string, a: Action, events: seq<Event>, start: nat, before: World, used: set<string>)
  {
    forall k: nat :: At(events, start, k) ==>
      Confined(h, a, before, events[k].world, used) && Guarded(h, a, events[k].world, events[start..k], before, used)
  }

  lemma ContainedConfined(h: TaskDef -> string, a: Action, before: World, w: World, used: set<string>)
    requires a.Replace? && Contained(before, w, used, a.id, a.slot, h(a.spec))
    ensures Confined(h, a, before, w, used)
  {
  }

  lemma StartFirstSafe(h: TaskDef -> string, a: Action, events: seq<Event>, start: nat, before: World, used: set<string>, newId: string)
    requires a.Replace? && !StopsFirst(a.spec)
    requires AllContained(events, start, before, used, a.id, a.slot, h(a.spec))
    requires a.id in before ==> NeverLost(events, start, a.id, before, newId, a.slot, h(a.spec))
    ensures AllSafe(h, a, events, start, before, used)
  {
    forall k: nat | At(events, start, k)
      ensures Confined(h, a, before, events[k].world, used) && Guarded(h, a, events[k].world, events[start..k], before, used)
    {
      ContainedConfined(h, a, before, events[k].world, used);
      assert a.id in before ==> Held(events, start, k, a.id, before, newId, a.slot, h(a.spec));
    }
  }

  lemma StopFirstSafe(h: TaskDef -> string, a: Action, events: seq<Event>, start: nat, before: World, used: set<string>)
    requires a.Replace? && StopsFirst(a.spec) && before.Keys <= used
    requires AllContained(events, start, before, used, a.id, a.slot, h(a.spec))
    requires NeverBoth(events, start, a.id, before)
    requires NameTaken(before - {a.id}, CanonicalName(a.slot)) ==> NothingNew(events, start, before)
    ensures AllSafe(h, a, events, start, before, used)
  {
    forall k: nat | At(events, start, k)
      ensures Confined(h, a, before, events[k].world, used) && Guarded(h, a, events[k].world, events[start..k], before, used)
    {
      ContainedConfined(h, a, before, events[k].world, used);
      NewMeansFree(a, before, events[k].world, used);
    }
  }

  lemma NewMeansFree(a: Action, before: World, w: World, used: set<string>)
    requires a.Replace? && before.Keys <= used
    requires NameTaken(before - {a.id}, CanonicalName(a.slot)) ==> w.Keys <= before.Keys
    requires a.id in w ==> w.Keys <= before.Keys
    ensures Cleared(a, w, before, used)
  {
    OthersName(before, a);
  }

  lemma OthersName(w: World, a: Action)
    requires a.Replace?
    ensures NameTaken(w - {a.id}, CanonicalName(a.slot)) <==> exists id | id in w && !a.Names(id) :: w[id].name == CanonicalName(a.slot)
  {
    var rest := w - {a.id};
    assert forall id :: id in rest <==> id in w && !a.Names(id);
    assert forall id | id in rest :: rest[id] == w[id];
  }

  // ---------- when an action succeeds ----------

  /** The name under which a new container is created. */
  function NameNeeded(a: Action): string {
    if Plain(a) then CanonicalName(a.slot) else MeanwhileName(a.slot)
  }

  /** What the daemon must refuse does not stand in the way: the container to
      take away exists, and no container has the name the new one needs, but
      for the one that a stop-first replace takes away first. */
  predicate Unobstructed(a: Action, w: World) {
    && (!a.Create? ==> a.id in w)
    && (a.Makes() ==> forall id | id in w && !(Plain(a) && a.Names(id)) :: w[id].name != NameNeeded(a))
  }

  /** The name is one of the two that a container of the slot may get. */
  predicate NamedFor(slot: Slot, name: string) {
    name == CanonicalName(slot) || name == MeanwhileName(slot)
  }

  /** The container is in the slot and has one of its names. */
  predicate InSlot(slot: Slot, c: ContainerInfo) {
    SlotOf(c.labels) == Some(slot) && InProject(c, slot.project) && NamedFor(slot, c.name)
  }

  /** The container taken away is gone, a new one has slot and name, and every
      other container is as it was. */
  ghost predicate NamesMoved(a: Action, w: World, w': World, used: set<string>) {
    && (forall id | id in w :: id in w' <==> !a.Names(id))
    && (forall id | id in w && id in w' :: w'[id] == w[id])
    && (forall id | id in w' && id !in w :: id !in used && a.Makes() && InSlot(a.slot, w'[id]))
  }

  /** What a refused action leaves on a reliable runtime: a stop-first replace
      has taken the old container away, any other changed nothing. */
  function Refused(a: Action, w: World): World {
    if a.Replace? && StopsFirst(a.spec) then w - {a.id} else w
  }

  /** On a reliable runtime an action succeeds exactly when nothing stands in
      its way and, for a start-first replace, a new container was seen healthy. */
  ghost predicate Performed(a: Action, w: World, w': World, used: set<string>, ok: bool, reliable: bool, healthy: bool) {
    && (ok ==> NamesMoved(a, w, w', used))
    && (reliable ==> (ok <==> Unobstructed(a, w) && (Plain(a) || healthy)))
    && (reliable && !ok && (a.Create? || a.id in w) ==> w' == Refused(a, w))
  }

  /** A container with a new ID was seen healthy. */
  ghost predicate SawNew(events: seq<Event>, used: set<string>) {
    exists n :: n !in used && Saw(n, true) in events
  }

  /** The container whose tracking an action may end. */
  function ReplacedId(a: Action): set<string> {
    if a.Replace? then {a.id} else {}
  }

  method ApplyCreate(h: TaskDef -> string, rt: Docker, a: Action) returns (ok: bool)
    requires rt.Valid() && a.Create? && Printable(a.slot)
    modifies rt, rt.log
    ensures rt.Valid() && old(rt.used) <= rt.used
    ensures exists out, id {:trigger LaunchCalls(CanonicalName(a.slot), a.slot, a.spec, a.specHash, out, id)} ::
              ok == (out == Done)
              && rt.log.calls == old(rt.log.calls) + LaunchCalls(CanonicalName(a.slot), a.slot, a.spec, a.specHash, out, id)
    ensures old(rt.log.events) <= rt.log.events
    ensures ok ==> Achieved(a, old(rt.containers), rt.containers)
    ensures Performed(a, old(rt.containers), rt.containers, old(rt.used), ok, rt.reliable,
                      SawNew(rt.log.events[|old(rt.log.events)|..], old(rt.used)))
    ensures Confined(h, a, old(rt.containers), rt.containers, old(rt.used))
    ensures AllSafe(h, a, rt.log.events, |old(rt.log.events)|, old(rt.containers), old(rt.used))
    ensures Guarded(h, a, rt.containers, rt.log.events[|old(rt.log.events)|..], old(rt.containers), old(rt.used))
  {
    ghost var before, used, e := rt.containers, rt.used, rt.log.events;
    var out, id := Launch(rt, CanonicalName(a.slot), a.slot, a.spec, a.specHash);
    ok := out == Done;
    CreateSafe(h, a, e, rt.log.events, before, rt.containers, used);
    assert ok ==> id in rt.containers && id !in old(rt.containers);
  }

  /** A replace runs the strategy the service asks for. */
  method ApplyReplace(h: TaskDef -> string, rt: Docker, probes: Manager, a: Action) returns (ok: bool)
    requires Ready(rt, probes) && a.Replace? && Printable(a.slot) && a.id in rt.used
    modifies rt, rt.log, probes, probes.Repr
    ensures Ready(rt, probes) && fresh(probes.Repr - old(probes.Repr)) && old(rt.used) <= rt.used
    ensures old(rt.log.events) <= rt.log.events
    ensures Confined(h, a, old(rt.containers), rt.containers, old(rt.used))
    ensures AllSafe(h, a, rt.log.events, |old(rt.log.events)|, old(rt.containers), old(rt.used))
    ensures Guarded(h, a, rt.containers, rt.log.events[|old(rt.log.events)|..], old(rt.containers), old(rt.used))
    ensures ok ==> Achieved(a, old(rt.containers), rt.containers)
    ensures Performed(a, old(rt.containers), rt.containers, old(rt.used), ok, rt.reliable,
                      SawNew(rt.log.events[|old(rt.log.events)|..], old(rt.used)))
    ensures LaterBut(old(probes.view), probes.view, ReplacedId(a) + (rt.used - old(rt.used)))
    ensures ok && a.Replace? ==>
              a.id !in probes.view && forall n | n in rt.containers && n !in old(rt.containers) :: n in probes.view
  {
    var strategy := SelectStrategy(a.spec);
    if strategy == StartFirstKind {
      ok := ReplaceStartFirst(h, rt, probes, a);
    } else {
      ok := ReplaceStopFirst(h, rt, probes, a);
    }
  }

  method ReplaceStartFirst(h: TaskDef -> string, rt: Docker, probes: Manager, a: Action) returns (ok: bool)
    requires Ready(rt, probes) && a.Replace? && Printable(a.slot) && a.id in rt.used && !StopsFirst(a.spec)
    modifies rt, rt.log, probes, probes.Repr
    ensures Ready(rt, probes) && fresh(probes.Repr - old(probes.Repr)) && old(rt.used) <= rt.used
    ensures old(rt.log.events) <= rt.log.events
    ensures Confined(h, a, old(rt.containers), rt.containers, old(rt.used))
    ensures AllSafe(h, a, rt.log.events, |old(rt.log.events)|, old(rt.containers), old(rt.used))
    ensures Guarded(h, a, rt.containers, rt.log.events[|old(rt.log.events)|..], old(rt.containers), old(rt.used))
    ensures ok ==> Achieved(a, old(rt.containers), rt.containers)
    ensures Performed(a, old(rt.containers), rt.containers, old(rt.used), ok, rt.reliable,
                      SawNew(rt.log.events[|old(rt.log.events)|..], old(rt.used)))
    ensures LaterBut(old(probes.view), probes.view, ReplacedId(a) + (rt.used - old(rt.used)))
    ensures ok && a.Replace? ==>
              a.id !in probes.view && forall n | n in rt.containers && n !in old(rt.containers) :: n in probes.view
  {
    ghost var before, used, e := rt.containers, rt.used, rt.log.events;
    ghost var ignored;
    var out, n: string;
    out, n, ignored := StartFirst(h, Request(a.slot, a.id, a.spec), rt, probes);
    ok := out == Done;
    StartFirstEffect(h, a, e, rt.log.events, before, rt.containers, used, n, out);
    StartFirstPerformed(a, e, rt.log.events, before, rt.containers, used, n, out, rt.reliable, h(a.spec));
  }

  lemma StartFirstEffect(h: TaskDef -> string, a: Action, e: seq<Event>, events: seq<Event>, before: World, after: World, used: set<string>,
                         n: string, out: Outcome)
    requires a.Replace? && !StopsFirst(a.spec) && before.Keys <= used && a.id in used && e <= events
    requires Contained(before, after, used, a.id, a.slot, h(a.spec)) && AllContained(events, |e|, before, used, a.id, a.slot, h(a.spec))
    requires a.id in before ==> NeverLost(events, |e|, a.id, before, n, a.slot, h(a.spec))
    requires out in {Done, RemoveOldFailed} ==> Saw(n, true) in events[|e|..] && n !in before && n in after && Fills(after[n], a.slot, h(a.spec))
    requires out !in {Done, RemoveOldFailed} && a.id in before ==> a.id in after && after[a.id] == before[a.id]
    requires out == Done ==> Replaced(before, after, a.id, n, a.slot, h(a.spec))
    ensures Confined(h, a, before, after, used) && AllSafe(h, a, events, |e|, before, used)
    ensures Guarded(h, a, after, events[|e|..], before, used)
    ensures out == Done ==> Achieved(a, before, after) && forall m | m in after && m !in before :: m == n
  {
    ContainedConfined(h, a, before, after, used);
    StartFirstSafe(h, a, events, |e|, before, used, n);
    if out == Done { ReplacedAchieves(a, before, after, n, h(a.spec)); }
  }

  lemma StartFirstPerformed(a: Action, e: seq<Event>, events: seq<Event>, before: World, after: World, used: set<string>,
                            n: string, out: Outcome, reliable: bool, specHash: string)
    requires a.Replace? && !StopsFirst(a.spec) && before.Keys <= used && e <= events
    requires Contained(before, after, used, a.id, a.slot, specHash) && SawOnly(e, events, n)
    requires out == Done ==> Replaced(before, after, a.id, n, a.slot, specHash) && NamedFor(a.slot, after[n].name) && Saw(n, true) in events[|e|..]
    requires reliable && out == Done ==> a.id in before
    requires reliable && a.id in before ==>
               out == if NameTaken(before, MeanwhileName(a.slot)) then CreateFailed
                      else if Saw(n, true) in events[|e|..] then Done else RolledBack
    requires reliable && out in {CreateFailed, RolledBack} ==> after == before
    ensures Performed(a, before, after, used, out == Done, reliable, SawNew(events[|e|..], used))
  {
    assert NameTaken(before, MeanwhileName(a.slot)) <==> exists id | id in before :: before[id].name == NameNeeded(a);
    forall m | Saw(m, true) in events[|e|..] ensures m == n {
      var i :| 0 <= i < |events| - |e| && events[|e|..][i] == Saw(m, true);
      assert events[|e| + i] == Saw(m, true);
    }
  }

  method ReplaceStopFirst(h: TaskDef -> string, rt: Docker, probes: Manager, a: Action) returns (ok: bool)
    requires Ready(rt, probes) && a.Replace? && Printable(a.slot) && a.id in rt.used && StopsFirst(a.spec)
    modifies rt, rt.log, probes, probes.Repr
    ensures Ready(rt, probes) && fresh(probes.Repr - old(probes.Repr)) && old(rt.used) <= rt.used
    ensures old(rt.log.events) <= rt.log.events
    ensures Confined(h, a, old(rt.containers), rt.containers, old(rt.used))
    ensures AllSafe(h, a, rt.log.events, |old(rt.log.events)|, old(rt.containers), old(rt.used))
    ensures Guarded(h, a, rt.containers, rt.log.events[|old(rt.log.events)|..], old(rt.containers), old(rt.used))
    ensures ok ==> Achieved(a, old(rt.containers), rt.containers)
    ensures Performed(a, old(rt.containers), rt.containers, old(rt.used), ok, rt.reliable,
                      SawNew(rt.log.events[|old(rt.log.events)|..], old(rt.used)))
    ensures LaterBut(old(probes.view), probes.view, ReplacedId(a) + (rt.used - old(rt.used)))
    ensures ok && a.Replace? ==>
              a.id !in probes.view && forall n | n in rt.containers && n !in old(rt.containers) :: n in probes.view
  {
    ghost var before, used, e := rt.containers, rt.used, rt.log.events;
    var out, n := StopFirst(h, Request(a.slot, a.id, a.spec), rt, probes);
    ok := out == Done;
    StopFirstEffect(h, a, |e|, rt.log.events, before, rt.containers, used, n, ok, rt.reliable, SawNew(rt.log.events[|e|..], used));
  }

  lemma StopFirstEffect(h: TaskDef -> string, a: Action, start: nat, events: seq<Event>, before: World, after: World, used: set<string>,
                        n: string, ok: bool, reliable: bool, healthy: bool)
    requires a.Replace? && StopsFirst(a.spec) && before.Keys <= used && a.id in used && start <= |events|
    requires Contained(before, after, used, a.id, a.slot, h(a.spec)) && AllContained(events, start, before, used, a.id, a.slot, h(a.spec))
    requires NeverBoth(events, start, a.id, before) && (a.id in after ==> after.Keys <= before.Keys)
    requires NameTaken(before - {a.id}, CanonicalName(a.slot)) ==> NothingNew(events, start, before) && after.Keys <= before.Keys
    requires ok ==> Replaced(before, after, a.id, n, a.slot, h(a.spec)) && after[n].name == CanonicalName(a.slot)
    requires reliable ==> (ok <==> a.id in before && !NameTaken(before - {a.id}, CanonicalName(a.slot)))
    requires reliable && a.id in before && !ok ==> after == before - {a.id}
    ensures Confined(h, a, before, after, used) && AllSafe(h, a, events, start, before, used)
    ensures Guarded(h, a, after, events[start..], before, used)
    ensures ok ==> Achieved(a, before, after) && forall m | m in after && m !in before :: m == n
    ensures Performed(a, before, after, used, ok, reliable, healthy)
  {
    ContainedConfined(h, a, before, after, used);
    StopFirstSafe(h, a, events, start, before, used);
    NewMeansFree(a, before, after, used);
    OthersName(before, a);
    if ok { ReplacedAchieves(a, before, after, n, h(a.spec)); }
  }

  lemma ReplacedAchieves(a: Action, before: World, after: World, n: string, specHash: string)
    requires a.Replace? && Replaced(before, after, a.id, n, a.slot, specHash)
    ensures Achieved(a, before, after) && forall m | m in after && m !in before :: m == n
  {
    assert n in after && n !in before;
  }

  /** A remove is safe at every moment if it is confined then. */
  lemma RemoveSafe(h: TaskDef -> string, a: Action, events: seq<Event>, start: nat, before: World, used: set<string>)
    requires a.Remove? && forall k: nat :: At(events, start, k) ==> Confined(h, a, before, events[k].world, used)
    ensures AllSafe(h, a, events, start, before, used)
  {
  }

  /** A create is safe: where its name is taken nothing changes. */
  lemma CreateSafe(h: TaskDef -> string, a: Action, e: seq<Event>, events: seq<Event>, before: World, after: World, used: set<string>)
    requires a.Create? && e <= events && before.Keys <= used
    requires AllGrown(events, |e|, before, used, a.slot, a.specHash) && Grown(before, after, used, a.slot, a.specHash)
    requires NameTaken(before, CanonicalName(a.slot)) ==> OnlySame(e, events, before) && after == before
    ensures AllSafe(h, a, events, |e|, before, used) && Guarded(h, a, after, events[|e|..], before, used) && Confined(h, a, before, after, used)
  {
    forall k: nat | At(events, |e|, k)
      ensures Confined(h, a, before, events[k].world, used) && Guarded(h, a, events[k].world, events[|e|..k], before, used)
    {
    }
  }

  /** `Apply`: one action, by kind. */
  method Apply(h: TaskDef -> string, a: Action, rt: Docker, probes: Manager) returns (ok: bool)
    requires Ready(rt, probes) && Executable(a, rt.used)
    modifies rt, rt.log, probes, probes.Repr
    ensures Ready(rt, probes) && fresh(probes.Repr - old(probes.Repr)) && old(rt.used) <= rt.used
    ensures old(rt.log.events) <= rt.log.events
    ensures Confined(h, a, old(rt.containers), rt.containers, old(rt.used))
    ensures AllSafe(h, a, rt.log.events, |old(rt.log.events)|, old(rt.containers), old(rt.used))
    ensures Guarded(h, a, rt.containers, rt.log.events[|old(rt.log.events)|..], old(rt.containers), old(rt.used))
    ensures ok ==> Achieved(a, old(rt.containers), rt.containers)
    ensures Performed(a, old(rt.containers), rt.containers, old(rt.used), ok, rt.reliable,
                      SawNew(rt.log.events[|old(rt.log.events)|..], old(rt.used)))
    ensures LaterBut(old(probes.view), probes.view, ReplacedId(a) + (rt.used - old(rt.used)))
    ensures ok && a.Replace? ==>
              a.id !in probes.view && forall n | n in rt.containers && n !in old(rt.containers) :: n in probes.view
  {
    ghost var before, used, start := rt.containers, rt.used, |rt.log.events|;
    match a
    case Create(_, _, _, _) =>
      ok := ApplyCreate(h, rt, a);
    case Remove(_, id, _) =>
      ok := rt.RemoveContainer(id);
      RemoveSafe(h, a, rt.log.events, start, before, used);
    case Replace(_, _, _, _, _) => ok := ApplyReplace(h, rt, probes, a);
  }

  // ---------- a whole list of actions ----------

  ghost predicate Spared(actions: seq<Action>, id: string) {
    forall a | a in actions :: !a.Names(id)
  }

  ghost predicate MadeBy(h: TaskDef -> string, actions: seq<Action>, c: ContainerInfo) {
    exists a | a in actions :: a.Makes() && Fills(c, a.slot, MadeHash(h, a))
  }

  /** The containers of slot `s` that are in `after` but not in `before`. */
  function BornAt(before: World, after: World, s: Slot): set<string> {
    set id | id in after && id !in before && SlotOf(after[id].labels) == Some(s)
  }

  /** Exactly one container was born in the slot, and it runs. */
  ghost predicate Filled(before: World, after: World, s: Slot) {
    exists n | n in after :: BornAt(before, after, s) == {n} && after[n].state == "running"
  }

  ghost predicate SparedKept(actions: seq<Action>, before: World, after: World) {
    && (forall id | id in before && Spared(actions, id) :: id in after && after[id] == before[id])
    && (forall id | id in before && id in after :: after[id].labels == before[id].labels && after[id].name == before[id].name)
  }

  ghost predicate NamedGone(actions: seq<Action>, failed: set<Slot>, after: World) {
    forall a | a in actions :: !a.Create? && a.slot !in failed ==> a.id !in after
  }

  ghost predicate BornMade(h: TaskDef -> string, actions: seq<Action>, before: World, after: World, used: set<string>) {
    forall id | id in after && id !in before :: id !in used && MadeBy(h, actions, after[id])
  }

  ghost predicate MadeFilled(actions: seq<Action>, failed: set<Slot>, before: World, after: World) {
    forall a | a in actions :: a.Makes() && a.slot !in failed ==> Filled(before, after, a.slot)
  }

  /** The effect of running `actions` one after the other, where the actions
      that failed were on slots in `failed`. */
  ghost predicate Applied(h: TaskDef -> string, actions: seq<Action>, failed: set<Slot>, before: World, after: World, used: set<string>) {
    && SparedKept(actions, before, after) && NamedGone(actions, failed, after)
    && BornMade(h, actions, before, after, used) && MadeFilled(actions, failed, before, after)
  }

  /** No two actions make a container for the same slot. */
  ghost predicate MakersDiffer(actions: seq<Action>) {
    forall i, j | 0 <= i < j < |actions| :: actions[i].Makes() && actions[j].Makes() ==> actions[i].slot != actions[j].slot
  }

  lemma SparedStep(actions: seq<Action>, a: Action, id: string)
    ensures Spared(actions + [a], id) <==> Spared(actions, id) && !a.Names(id)
  {
    assert a in actions + [a];
    assert forall b | b in actions :: b in actions + [a];
  }

  lemma MadeByStep(h: TaskDef -> string, actions: seq<Action>, a: Action, c: ContainerInfo)
    requires MadeBy(h, actions, c) || (a.Makes() && Fills(c, a.slot, MadeHash(h, a)))
    ensures MadeBy(h, actions + [a], c)
  {
    assert a in actions + [a];
    if MadeBy(h, actions, c) {
      var b :| b in actions && b.Makes() && Fills(c, b.slot, MadeHash(h, b));
      assert b in actions + [a];
    }
  }

  lemma KeptStep(h: TaskDef -> string, actions: seq<Action>, a: Action, before: World, middle: World, after: World, used': set<string>)
    requires SparedKept(actions, before, middle) && Confined(h, a, middle, after, used') && before.Keys <= used'
    ensures SparedKept(actions + [a], before, after)
  {
    forall id | id in before && Spared(actions + [a], id) ensures id in after && after[id] == before[id] {
      SparedStep(actions, a, id);
    }
  }

  lemma BornStep(h: TaskDef -> string, actions: seq<Action>, a: Action, before: World, middle: World, after: World, used: set<string>, used': set<string>)
    requires BornMade(h, actions, before, middle, used) && Confined(h, a, middle, after, used') && used <= used'
    requires Executable(a, used)
    ensures BornMade(h, actions + [a], before, after, used)
  {
    forall id | id in after && id !in before ensures id !in used && MadeBy(h, actions + [a], after[id]) {
      if id in middle {
        assert !a.Names(id);
      }
      MadeByStep(h, actions, a, after[id]);
    }
  }

  lemma GoneStep(h: TaskDef -> string, actions: seq<Action>, a: Action, ok: bool, failed: set<Slot>, middle: World, after: World, used: set<string>, used': set<string>)
    requires NamedGone(actions, failed, middle) && Confined(h, a, middle, after, used') && used <= used'
    requires ok ==> Achieved(a, middle, after)
    requires forall b | b in actions :: Executable(b, used)
    ensures NamedGone(actions + [a], if ok then failed else failed + {a.slot}, after)
  {
  }

  /** Slots the action does not make anything for keep their births. */
  lemma BirthsStay(h: TaskDef -> string, a: Action, before: World, middle: World, after: World, used: set<string>, used': set<string>, s: Slot)
    requires Confined(h, a, middle, after, used') && used <= used' && before.Keys <= used'
    requires forall id | id in middle && id !in before :: id !in used
    requires Executable(a, used) && (a.Makes() ==> a.slot != s)
    requires Filled(before, middle, s)
    ensures Filled(before, after, s)
  {
    var n :| n in middle && BornAt(before, middle, s) == {n} && middle[n].state == "running";
    assert n in BornAt(before, middle, s);
    assert n in after && after[n] == middle[n];
    forall id ensures id in BornAt(before, after, s) <==> id in BornAt(before, middle, s) {
    }
    assert BornAt(before, after, s) == {n};
  }

  lemma BirthHappens(h: TaskDef -> string, actions: seq<Action>, a: Action, before: World, middle: World, after: World, used: set<string>, used': set<string>)
    requires Confined(h, a, middle, after, used') && Achieved(a, middle, after) && a.Makes()
    requires BornMade(h, actions, before, middle, used) && before.Keys <= used'
    requires forall b | b in actions && b.Makes() :: b.slot != a.slot
    ensures Filled(before, after, a.slot)
  {
    var n :| n in after && n !in middle && after[n].state == "running" && (forall m | m in after && m !in middle :: m == n);
    forall id | id in after && id !in before && id in middle ensures SlotOf(after[id].labels) != Some(a.slot) {
      assert MadeBy(h, actions, middle[id]);
    }
    assert BornAt(before, after, a.slot) == {n};
  }

  lemma FilledStep(h: TaskDef -> string, actions: seq<Action>, a: Action, ok: bool, failed: set<Slot>, before: World, middle: World, after: World,
                   used: set<string>, used': set<string>)
    requires MadeFilled(actions, failed, before, middle) && BornMade(h, actions, before, middle, used)
    requires Confined(h, a, middle, after, used') && (ok ==> Achieved(a, middle, after))
    requires used <= used' && before.Keys <= used' && Executable(a, used)
    requires MakersDiffer(actions + [a])
    ensures MadeFilled(actions + [a], if ok then failed else failed + {a.slot}, before, after)
  {
    var failed' := if ok then failed else failed + {a.slot};
    forall b | b in actions && b.Makes() && a.Makes() ensures b.slot != a.slot {
      var i :| 0 <= i < |actions| && actions[i] == b;
      assert (actions + [a])[i] == b && (actions + [a])[|actions|] == a;
    }
    forall b | b in actions && b.Makes() && b.slot !in failed' ensures Filled(before, after, b.slot) {
      BirthsStay(h, a, before, middle, after, used, used', b.slot);
    }
    if ok && a.Makes() { BirthHappens(h, actions, a, before, middle, after, used, used'); }
  }

  lemma AppliedStep(h: TaskDef -> string, actions: seq<Action>, a: Action, ok: bool, failed: set<Slot>, before: World, middle: World, after: World,
                    used: set<string>, used': set<string>)
    requires Applied(h, actions, failed, before, middle, used)
    requires Confined(h, a, middle, after, used') && (ok ==> Achieved(a, middle, after))
    requires before.Keys <= used <= used'
    requires forall b | b in actions + [a] :: Executable(b, used)
    requires MakersDiffer(actions + [a])
    ensures Applied(h, actions + [a], if ok then failed else failed + {a.slot}, before, after, used)
  {
    assert a in actions + [a] && forall b | b in actions :: b in actions + [a];
    KeptStep(h, actions, a, before, middle, after, used');
    BornStep(h, actions, a, before, middle, after, used, used');
    GoneStep(h, actions, a, ok, failed, middle, after, used, used');
    FilledStep(h, actions, a, ok, failed, before, middle, after, used, used');
  }

  // ---------- every moment of the whole list ----------

  /** No two actions name one container. */
  ghost predicate NamesDiffer(actions: seq<Action>) {
    forall i, j | 0 <= i < j < |actions| :: !actions[i].Create? && !actions[j].Create? ==> actions[i].id != actions[j].id
  }

  /** What holds of the world at any moment while the actions run: containers
      that no action names are as they were, new ones were made for an action's
      slot, and every replace is guarded. */
  ghost predicate Moment(h: TaskDef -> string, actions: seq<Action>, w: World, seen: seq<Event>, before: World, used: set<string>) {
    && SparedKept(actions, before, w) && BornMade(h, actions, before, w, used)
    && forall a | a in actions :: Guarded(h, a, w, seen, before, used)
  }

  ghost predicate AllMoments(h: TaskDef -> string, actions: seq<Action>, events: seq<Event>, start: nat, before: World, used: set<string>) {
    forall k: nat :: At(events, start, k) ==> Moment(h, actions, events[k].world, events[start..k], before, used)
  }

  lemma FirstMoment(h: TaskDef -> string, actions: seq<Action>, seen: seq<Event>, before: World, used: set<string>)
    requires before.Keys <= used
    ensures Moment(h, actions, before, seen, before, used)
  {
  }

  /** No action so far touched the container of action `i` or filled its slot. */
  ghost predicate Pristine(a: Action, w: World, before: World, used: set<string>) {
    && (!a.Create? && a.id in before ==> a.id in w && w[a.id] == before[a.id])
    && (a.Makes() ==> forall n | n in w && n !in used :: SlotOf(w[n].labels) != Some(a.slot))
  }

  lemma StillPristine(h: TaskDef -> string, actions: seq<Action>, i: nat, w: World, before: World, used: set<string>)
    requires i < |actions| && before.Keys <= used && MakersDiffer(actions) && NamesDiffer(actions)
    requires SparedKept(actions[..i], before, w) && BornMade(h, actions[..i], before, w, used)
    ensures Pristine(actions[i], w, before, used)
  {
    var a := actions[i];
    forall b | b in actions[..i] ensures (!a.Create? ==> !b.Names(a.id)) && (a.Makes() && b.Makes() ==> a.slot != b.slot) {
      var j :| 0 <= j < i && actions[j] == b;
    }
  }

  /** A guarded replace stays guarded while another action runs. */
  lemma GuardKept(h: TaskDef -> string, a: Action, b: Action, middle: World, w: World, seen: seq<Event>, seen': seq<Event>,
                  before: World, used: set<string>, used': set<string>)
    requires Guarded(h, b, middle, seen, before, used) && Confined(h, a, middle, w, used')
    requires used <= used' && before.Keys <= used && (!a.Create? ==> a.id in used)
    requires (b.Replace? ==> !a.Names(b.id)) && (b.Makes() && a.Makes() ==> a.slot != b.slot)
    requires forall e | e in seen :: e in seen'
    ensures Guarded(h, b, w, seen', before, used)
  {
    if b.Replace? && b.id in before && !StopsFirst(b.spec) && !(b.id in middle && middle[b.id] == before[b.id]) {
      var n :| n in middle && n !in used && Fills(middle[n], b.slot, h(b.spec)) && Saw(n, true) in seen;
      assert n in w && w[n] == middle[n];
    }
  }

  lemma ClearedTaken(h: TaskDef -> string, a: Action, middle: World, w: World, before: World, used: set<string>, used': set<string>)
    requires Cleared(a, w, middle, used') && Confined(h, a, middle, w, used') && Pristine(a, middle, before, used)
    requires used <= used' && before.Keys <= used && forall id | id in before && id in middle :: middle[id].name == before[id].name
    ensures Cleared(a, w, before, used)
  {
    if Plain(a) && a.Makes() {
      forall n | n in w && n !in used && SlotOf(w[n].labels) == Some(a.slot) ensures n !in used' {
        assert n in used' ==> n in middle;
      }
    }
  }

  /** The guard of the action that runs, read from the start of the list. */
  lemma GuardTaken(h: TaskDef -> string, a: Action, middle: World, w: World, seen: seq<Event>, seen': seq<Event>,
                   before: World, used: set<string>, used': set<string>)
    requires Guarded(h, a, w, seen, middle, used') && Confined(h, a, middle, w, used') && Pristine(a, middle, before, used)
    requires used <= used' && before.Keys <= used && forall id | id in before && id in middle :: middle[id].name == before[id].name
    requires forall e | e in seen :: e in seen'
    ensures Guarded(h, a, w, seen', before, used)
  {
    ClearedTaken(h, a, middle, w, before, used, used');
    if a.Replace? && a.id in before && !StopsFirst(a.spec) && !(a.id in w && w[a.id] == before[a.id]) {
      var n :| n in w && n !in used' && Fills(w[n], a.slot, h(a.spec)) && Saw(n, true) in seen;
      assert n !in used;
    }
  }

  lemma MomentStep(h: TaskDef -> string, actions: seq<Action>, i: nat, middle: World, w: World,
                   seen: seq<Event>, own: seq<Event>, seen': seq<Event>, before: World, used: set<string>, used': set<string>)
    requires i < |actions| && MakersDiffer(actions) && NamesDiffer(actions) && Executable(actions[i], used)
    requires Moment(h, actions, middle, seen, before, used) && Pristine(actions[i], middle, before, used)
    requires Confined(h, actions[i], middle, w, used') && Guarded(h, actions[i], w, own, middle, used')
    requires used <= used' && before.Keys <= used
    requires (forall e | e in seen :: e in seen') && (forall e | e in own :: e in seen')
    ensures Moment(h, actions, w, seen', before, used)
  {
    var a := actions[i];
    assert a in actions;
    forall b | b in actions ensures Guarded(h, b, w, seen', before, used) {
      if b == a {
        GuardTaken(h, a, middle, w, own, seen', before, used, used');
      } else {
        var j :| 0 <= j < |actions| && actions[j] == b;
        assert i < j || j < i;
        GuardKept(h, a, b, middle, w, seen, seen', before, used, used');
      }
    }
  }

  lemma AllMomentsStep(h: TaskDef -> string, actions: seq<Action>, i: nat, middle: World, after: World,
                       e0: seq<Event>, e1: seq<Event>, start: nat, before: World, used: set<string>, used': set<string>)
    requires i < |actions| && MakersDiffer(actions) && NamesDiffer(actions) && Executable(actions[i], used)
    requires start <= |e0| && e0 <= e1 && used <= used' && before.Keys <= used
    requires AllMoments(h, actions, e0, start, before, used)
    requires Moment(h, actions, middle, e0[start..], before, used) && Pristine(actions[i], middle, before, used)
    requires AllSafe(h, actions[i], e1, |e0|, middle, used')
    requires Confined(h, actions[i], middle, after, used') && Guarded(h, actions[i], after, e1[|e0|..], middle, used')
    ensures AllMoments(h, actions, e1, start, before, used)
    ensures Moment(h, actions, after, e1[start..], before, used)
  {
    SeenPart(e0, e1, start, |e1|);
    MomentStep(h, actions, i, middle, after, e0[start..], e1[|e0|..], e1[start..], before, used, used');
    forall k: nat | At(e1, start, k) ensures Moment(h, actions, e1[k].world, e1[start..k], before, used) {
      if k < |e0| {
        assert At(e0, start, k) && e0[k] == e1[k] && e0[start..k] == e1[start..k];
      } else {
        assert At(e1, |e0|, k);
        SeenPart(e0, e1, start, k);
        MomentStep(h, actions, i, middle, e1[k].world, e0[start..], e1[|e0|..k], e1[start..k], before, used, used');
      }
    }
  }

  lemma SeenPart(e0: seq<Event>, e1: seq<Event>, start: nat, k: nat)
    requires start <= |e0| <= k <= |e1| && e0 <= e1
    ensures (forall e | e in e0[start..] :: e in e1[start..k]) && (forall e | e in e1[|e0|..k] :: e in e1[start..k])
  {
    assert e1[start..k] == e0[start..] + e1[|e0|..k];
  }

  // ---------- tracking ----------

  function ReplacedIds(actions: seq<Action>): set<string> {
    set a | a in actions && a.Replace? :: a.id
  }

  /** Where a replace succeeded the old container is not probed any more and
      its successor is. */
  ghost predicate SuccessorsTracked(actions: seq<Action>, failed: set<Slot>, before: World, after: World, view: map<string, Tracking>) {
    forall a | a in actions && a.Replace? && a.slot !in failed ::
      a.id !in view && forall n | n in BornAt(before, after, a.slot) :: n in view
  }

  ghost predicate Probed(actions: seq<Action>, failed: set<Slot>, before: World, w: World, used: set<string>, used': set<string>,
                         view0: map<string, Tracking>, view: map<string, Tracking>) {
    && LaterBut(view0, view, ReplacedIds(actions) + (used' - used))
    && SuccessorsTracked(actions, failed, before, w, view)
  }

  lemma FrameStep(actions: seq<Action>, a: Action, used: set<string>, used': set<string>, used'': set<string>,
                  view0: map<string, Tracking>, view1: map<string, Tracking>, view2: map<string, Tracking>)
    requires used <= used' <= used''
    requires LaterBut(view0, view1, ReplacedIds(actions) + (used' - used)) && LaterBut(view1, view2, ReplacedId(a) + (used'' - used'))
    ensures LaterBut(view0, view2, ReplacedIds(actions + [a]) + (used'' - used))
  {
    var all := ReplacedIds(actions) + (used' - used) + (ReplacedId(a) + (used'' - used'));
    LaterButTrans(view0, view1, view2, ReplacedIds(actions) + (used' - used), ReplacedId(a) + (used'' - used'));
    assert a in actions + [a] && forall b | b in actions :: b in actions + [a];
    LaterButMore(view0, view2, all, ReplacedIds(actions + [a]) + (used'' - used));
  }

  lemma ProbedStep(h: TaskDef -> string, actions: seq<Action>, i: nat, ok: bool, failed: set<Slot>, before: World, middle: World, after: World,
                   used: set<string>, used': set<string>, used'': set<string>,
                   view0: map<string, Tracking>, view1: map<string, Tracking>, view2: map<string, Tracking>)
    requires i < |actions| && MakersDiffer(actions) && NamesDiffer(actions) && forall a | a in actions :: Executable(a, used)
    requires before.Keys <= used <= used' <= used'' && middle.Keys <= used'
    requires BornMade(h, actions[..i], before, middle, used) && Pristine(actions[i], middle, before, used)
    requires Probed(actions[..i], failed, before, middle, used, used', view0, view1)
    requires Confined(h, actions[i], middle, after, used') && LaterBut(view1, view2, ReplacedId(actions[i]) + (used'' - used'))
    requires ok && actions[i].Replace? ==> actions[i].id !in view2 && forall n | n in after && n !in middle :: n in view2
    ensures Probed(actions[..i + 1], if ok then failed else failed + {actions[i].slot}, before, after, used, used'', view0, view2)
  {
    var a := actions[i];
    assert actions[..i + 1] == actions[..i] + [a] && a in actions;
    FrameStep(actions[..i], a, used, used', used'', view0, view1, view2);
    forall b | b in actions[..i + 1] && b.Replace? && (b.slot !in failed && (ok || b.slot != a.slot))
      ensures b.id !in view2 && forall n | n in BornAt(before, after, b.slot) :: n in view2
    {
      if b != a || b in actions[..i] {
        var j :| 0 <= j < i && actions[j] == b;
        assert b in actions && b in actions[..i];
        SuccessorStays(h, a, b, before, middle, after, used, used', used'', view1, view2);
      }
    }
  }

  lemma SuccessorStays(h: TaskDef -> string, a: Action, b: Action, before: World, middle: World, after: World,
                       used: set<string>, used': set<string>, used'': set<string>, view1: map<string, Tracking>, view2: map<string, Tracking>)
    requires b.Replace? && b.id in used && (!a.Create? ==> a.id in used && a.id != b.id) && (a.Makes() ==> a.slot != b.slot)
    requires before.Keys <= used <= used' <= used'' && middle.Keys <= used'
    requires forall n | n in middle && n !in before :: n !in used
    requires Confined(h, a, middle, after, used') && LaterBut(view1, view2, ReplacedId(a) + (used'' - used'))
    requires b.id !in view1 && forall n | n in BornAt(before, middle, b.slot) :: n in view1
    ensures b.id !in view2 && forall n | n in BornAt(before, after, b.slot) :: n in view2
  {
    forall n | n in BornAt(before, after, b.slot) ensures n in view2 {
      assert n in BornAt(before, middle, b.slot);
    }
  }

  // ---------- the action loop ----------

  /** The worlds between the actions, which actions succeeded, and during which
      a new container was seen healthy. */
  datatype Trace = Trace(worlds: seq<World>, oks: seq<bool>, healthy: seq<bool>)

  ghost predicate Traced(actions: seq<Action>, t: Trace, used: set<string>, reliable: bool) {
    && |t.worlds| == |actions| + 1 && |t.oks| == |t.healthy| == |actions|
    && forall i | 0 <= i < |actions| :: Performed(actions[i], t.worlds[i], t.worlds[i + 1], used, t.oks[i], reliable, t.healthy[i])
  }

  ghost predicate AllOk(t: Trace) {
    forall i | 0 <= i < |t.oks| :: t.oks[i]
  }

  /** The failed slots are those of the actions that failed. */
  ghost predicate FailedAre(actions: seq<Action>, t: Trace, failed: set<Slot>)
    requires |t.oks| == |actions|
  {
    forall s :: s in failed <==> exists i | 0 <= i < |actions| :: !t.oks[i] && actions[i].slot == s
  }

  lemma NoneFailed(actions: seq<Action>, t: Trace, failed: set<Slot>)
    requires |t.oks| == |actions| && FailedAre(actions, t, failed)
    ensures failed == {} <==> AllOk(t)
  {
    if i :| 0 <= i < |actions| && !t.oks[i] { assert actions[i].slot in failed; }
    if s :| s in failed { var i :| 0 <= i < |actions| && !t.oks[i] && actions[i].slot == s; }
  }

  lemma FailedStep(actions: seq<Action>, a: Action, t: Trace, after: World, ok: bool, healthy: bool, failed: set<Slot>)
    requires |t.oks| == |actions| && FailedAre(actions, t, failed)
    ensures FailedAre(actions + [a], Trace(t.worlds + [after], t.oks + [ok], t.healthy + [healthy]), if ok then failed else failed + {a.slot})
  {
    var long, oks := actions + [a], t.oks + [ok];
    var failed' := if ok then failed else failed + {a.slot};
    forall s ensures s in failed' <==> exists i | 0 <= i < |long| :: !oks[i] && long[i].slot == s {
      if i :| 0 <= i < |actions| && !t.oks[i] && actions[i].slot == s {
        assert !oks[i] && long[i].slot == s;
      }
      if !ok && s == a.slot { assert !oks[|actions|] && long[|actions|].slot == s; }
      if i :| 0 <= i < |long| && !oks[i] && long[i].slot == s {
        assert i < |actions| ==> !t.oks[i] && actions[i].slot == s;
      }
    }
  }

  lemma TracedStep(actions: seq<Action>, a: Action, t: Trace, after: World, used: set<string>, used': set<string>, ok: bool, healthy: bool, reliable: bool)
    requires Traced(actions, t, used, reliable) && used <= used'
    requires Performed(a, t.worlds[|actions|], after, used', ok, reliable, healthy)
    ensures Traced(actions + [a], Trace(t.worlds + [after], t.oks + [ok], t.healthy + [healthy]), used, reliable)
  {
  }

  /** Where the loop stands after `i` actions. */
  ghost predicate Progress(h: TaskDef -> string, actions: seq<Action>, i: nat, failed: set<Slot>, t: Trace, before: World, w: World,
                           used: set<string>, used': set<string>, events: seq<Event>, start: nat, reliable: bool,
                           view0: map<string, Tracking>, view: map<string, Tracking>)
    requires i <= |actions|
  {
    && Probed(actions[..i], failed, before, w, used, used', view0, view)
    && start <= |events|
    && Applied(h, actions[..i], failed, before, w, used)
    && AllMoments(h, actions, events, start, before, used) && Moment(h, actions, w, events[start..], before, used)
    && Traced(actions[..i], t, used, reliable) && t.worlds[0] == before && t.worlds[i] == w && FailedAre(actions[..i], t, failed)
  }

  lemma ProgressStep(h: TaskDef -> string, actions: seq<Action>, i: nat, ok: bool, healthy: bool, failed: set<Slot>, t: Trace, before: World, middle: World,
                     after: World, used: set<string>, used': set<string>, used'': set<string>, e: seq<Event>, e': seq<Event>, start: nat, reliable: bool,
                     view0: map<string, Tracking>, view1: map<string, Tracking>, view2: map<string, Tracking>)
    requires i < |actions| && MakersDiffer(actions) && NamesDiffer(actions) && before.Keys <= used <= used' <= used'' && middle.Keys <= used'
    requires LaterBut(view1, view2, ReplacedId(actions[i]) + (used'' - used'))
    requires ok && actions[i].Replace? ==> actions[i].id !in view2 && forall n | n in after && n !in middle :: n in view2
    requires forall a | a in actions :: Executable(a, used)
    requires Progress(h, actions, i, failed, t, before, middle, used, used', e, start, reliable, view0, view1)
    requires e <= e' && AllSafe(h, actions[i], e', |e|, middle, used')
    requires Confined(h, actions[i], middle, after, used') && Guarded(h, actions[i], after, e'[|e|..], middle, used')
    requires (ok ==> Achieved(actions[i], middle, after)) && Performed(actions[i], middle, after, used', ok, reliable, healthy)
    ensures Progress(h, actions, i + 1, if ok then failed else failed + {actions[i].slot}, Trace(t.worlds + [after], t.oks + [ok], t.healthy + [healthy]),
                     before, after, used, used'', e', start, reliable, view0, view2)
  {
    var a := actions[i];
    assert actions[..i + 1] == actions[..i] + [a];
    StillPristine(h, actions, i, middle, before, used);
    AllMomentsStep(h, actions, i, middle, after, e, e', start, before, used, used');
    assert MakersDiffer(actions[..i + 1]);
    AppliedStep(h, actions[..i], a, ok, failed, before, middle, after, used, used');
    ProbedStep(h, actions, i, ok, failed, before, middle, after, used, used', used'', view0, view1, view2);
    TracedStep(actions[..i], a, t, after, used, used', ok, healthy, reliable);
    FailedStep(actions[..i], a, t, after, ok, healthy, failed);
  }

  /** One turn of the action loop. */
  method RunNext(h: TaskDef -> string, actions: seq<Action>, i: nat, rt: Docker, probes: Manager, ghost failed: set<Slot>, ghost t: Trace,
                 ghost before: World, ghost used: set<string>, ghost start: nat, ghost view0: map<string, Tracking>)
    returns (ok: bool, ghost t': Trace)
    requires Ready(rt, probes) && i < |actions| && MakersDiffer(actions) && NamesDiffer(actions)
    requires before.Keys <= used <= rt.used && forall a | a in actions :: Executable(a, used)
    requires Progress(h, actions, i, failed, t, before, rt.containers, used, rt.used, rt.log.events, start, rt.reliable, view0, probes.view)
    modifies rt, rt.log, probes, probes.Repr
    ensures Ready(rt, probes) && fresh(probes.Repr - old(probes.Repr)) && old(rt.used) <= rt.used
    ensures old(rt.log.events) <= rt.log.events
    ensures Progress(h, actions, i + 1, if ok then failed else failed + {actions[i].slot}, t', before, rt.containers, used, rt.used,
                     rt.log.events, start, rt.reliable, view0, probes.view)
  {
    ghost var middle, used', e, view := rt.containers, rt.used, rt.log.events, probes.view;
    assert actions[i] in actions && Executable(actions[i], used);
    ok := Apply(h, actions[i], rt, probes);
    ghost var healthy := SawNew(rt.log.events[|e|..], used');
    t' := Trace(t.worlds + [rt.containers], t.oks + [ok], t.healthy + [healthy]);
    ProgressStep(h, actions, i, ok, healthy, failed, t, before, middle, rt.containers, used, used', rt.used, e, rt.log.events, start, rt.reliable,
                 view0, view, probes.view);
  }

  /** The action loop: a failed action is logged and the loop goes on. Every
      slot none of whose actions failed gets what its actions promise, and at
      every moment of the loop every replace is guarded. */
  method RunActions(h: TaskDef -> string, actions: seq<Action>, rt: Docker, probes: Manager) returns (failed: set<Slot>, ghost t: Trace)
    requires Ready(rt, probes)
    requires forall a | a in actions :: Executable(a, rt.used)
    requires MakersDiffer(actions) && NamesDiffer(actions)
    modifies rt, rt.log, probes, probes.Repr
    ensures Ready(rt, probes) && fresh(probes.Repr - old(probes.Repr)) && old(rt.used) <= rt.used
    ensures Applied(h, actions, failed, old(rt.containers), rt.containers, old(rt.used))
    ensures old(rt.log.events) <= rt.log.events
    ensures AllMoments(h, actions, rt.log.events, |old(rt.log.events)|, old(rt.containers), old(rt.used))
    ensures Moment(h, actions, rt.containers, rt.log.events[|old(rt.log.events)|..], old(rt.containers), old(rt.used))
    ensures Traced(actions, t, old(rt.used), rt.reliable) && t.worlds[0] == old(rt.containers) && t.worlds[|actions|] == rt.containers
    ensures FailedAre(actions, t, failed)
    ensures LaterBut(old(probes.view), probes.view, ReplacedIds(actions) + (rt.used - old(rt.used)))
    ensures SuccessorsTracked(actions, failed, old(rt.containers), rt.containers, probes.view)
  {
    ghost var before, used, start, view0 := rt.containers, rt.used, |rt.log.events|, probes.view;
    failed, t := {}, Trace([rt.containers], [], []);
    Begin(h, actions, before, used, rt.log.events, rt.reliable, view0);
    for i := 0 to |actions|
      invariant Ready(rt, probes) && fresh(probes.Repr - old(probes.Repr)) && used <= rt.used
      invariant old(rt.log.events) <= rt.log.events
      invariant Progress(h, actions, i, failed, t, before, rt.containers, used, rt.used, rt.log.events, start, rt.reliable, view0, probes.view)
    {
      ghost var was := failed;
      var ok: bool;
      ok, t := RunNext(h, actions, i, rt, probes, was, t, before, used, start, view0);
      if !ok { failed := failed + {actions[i].slot}; }
    }
    assert actions[..|actions|] == actions;
  }

  lemma Begin(h: TaskDef -> string, actions: seq<Action>, before: World, used: set<string>, events: seq<Event>, reliable: bool, view: map<string, Tracking>)
    requires before.Keys <= used
    ensures Progress(h, actions, 0, {}, Trace([before], [], []), before, before, used, used, events, |events|, reliable, view, view)
  {
    LaterIsBut(view, view, ReplacedIds(actions[..0]) + (used - used));
    FirstMoment(h, actions, events[|events|..], before, used);
  }
}
