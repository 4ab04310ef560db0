/** The reconciler's diff (internal/reconciler/diff.go): desired services and
    listed containers in, an ordered list of actions out. The specification
    hash is the parameter `h`; the program's is `Hashing.Hash`. */
module Diff {
  import opened Domain
  import opened Ordering
  import opened Labels

  datatype Action =
    | Create(slot: Slot, spec: TaskDef, specHash: string, reason: string)
    | Remove(slot: Slot, id: string, reason: string)
    | Replace(slot: Slot, spec: TaskDef, specHash: string, id: string, reason: string)
  {
    /** The action puts a container into its slot. */
    predicate Makes() { Create? || Replace? }

    /** The action takes container `c` away. */
    predicate Names(c: string) { !Create? && id == c }
  }

  predicate IsActive(state: string) {
    state in {"running", "restarting", "created"}
  }

  // ---------- specification ----------

  /** The container fills its slot: labelled, active and not given up on. */
  predicate Kept(c: ContainerInfo, unhealthy: set<string>) {
    SlotOf(c.labels).Some? && IsActive(c.state) && c.id !in unhealthy
  }

  /** Which container counts as the one in each slot: the last one listed. */
  function LiveMap(actual: seq<ContainerInfo>, unhealthy: set<string>): map<Slot, ContainerInfo> {
    if actual == [] then map[]
    else
      var c, before := actual[|actual| - 1], LiveMap(actual[..|actual| - 1], unhealthy);
      if Kept(c, unhealthy) then before[SlotOf(c.labels).value := c] else before
  }

  function RotationReason(c: ContainerInfo): string {
    if !IsActive(c.state) then "container in non-running state: " + c.state else "probe streak exceeded retries"
  }

  /** The removals that free slots of dead and unhealthy containers. */
  function Rotations(actual: seq<ContainerInfo>, unhealthy: set<string>): seq<Action> {
    if actual == [] then []
    else
      var c, before := actual[|actual| - 1], Rotations(actual[..|actual| - 1], unhealthy);
      if SlotOf(c.labels).Some? && !Kept(c, unhealthy)
      then before + [Remove(SlotOf(c.labels).value, c.id, RotationReason(c))]
      else before
  }

  function AddReplicas(m: map<Slot, Service>, svc: Service, n: nat): map<Slot, Service> {
    if n == 0 then m else AddReplicas(m, svc, n - 1)[Slot(svc.project, svc.name, n - 1) := svc]
  }

  function ReplicaCount(svc: Service): nat {
    if svc.spec.replicas < 0 then 0 else svc.spec.replicas
  }

  function DesiredMap(desired: seq<Service>): map<Slot, Service> {
    if desired == [] then map[]
    else
      var svc := desired[|desired| - 1];
      AddReplicas(DesiredMap(desired[..|desired| - 1]), svc, ReplicaCount(svc))
  }

  /** What a desired slot needs. */
  ghost function WantedAction(h: TaskDef -> string, want: map<Slot, Service>, live: map<Slot, ContainerInfo>, s: Slot): Option<Action>
    requires s in want
  {
    var spec := want[s].spec;
    if s !in live then Some(Create(s, spec, h(spec), "actual<desired"))
    else if Get(live[s].labels, SPEC_HASH) != h(spec)
    then Some(Replace(s, spec, h(spec), live[s].id, "spec_hash drift"))
    else None
  }

  ghost function WantedActions(h: TaskDef -> string, want: map<Slot, Service>, live: map<Slot, ContainerInfo>, slots: set<Slot>): set<Action>
    requires slots <= want.Keys
  {
    set s | s in slots && WantedAction(h, want, live, s).Some? :: WantedAction(h, want, live, s).value
  }

  function SurplusAction(live: map<Slot, ContainerInfo>, s: Slot): Action
    requires s in live
  {
    Remove(s, live[s].id, "actual>desired")
  }

  function SurplusActions(want: map<Slot, Service>, live: map<Slot, ContainerInfo>, slots: set<Slot>): set<Action>
    requires slots <= live.Keys
  {
    set s | s in slots && s !in want :: SurplusAction(live, s)
  }

  /** The actions of one diff, with multiplicity. */
  ghost function Actions(h: TaskDef -> string, desired: seq<Service>, actual: seq<ContainerInfo>, unhealthy: set<string>): multiset<Action> {
    var want, live := DesiredMap(desired), LiveMap(actual, unhealthy);
    multiset(Rotations(actual, unhealthy))
    + multiset(WantedActions(h, want, live, want.Keys))
    + multiset(SurplusActions(want, live, live.Keys))
  }

  predicate SlotLe(a: Slot, b: Slot) {
    if a.project != b.project then StringLe(a.project, b.project)
    else if a.service != b.service then StringLe(a.service, b.service)
    else a.replica <= b.replica
  }

  predicate ActionLe(a: Action, b: Action) {
    SlotLe(a.slot, b.slot)
  }

  lemma SlotLeTrans(a: Slot, b: Slot, c: Slot)
    requires SlotLe(a, b) && SlotLe(b, c)
    ensures SlotLe(a, c)
  {
    if StringLe(a.project, b.project) && StringLe(b.project, c.project) {
      StringLeTrans(a.project, b.project, c.project);
      if a.project == c.project && a.project != b.project { StringLeAntisym(a.project, b.project); }
    }
    if StringLe(a.service, b.service) && StringLe(b.service, c.service) {
      StringLeTrans(a.service, b.service, c.service);
      if a.service == c.service && a.service != b.service { StringLeAntisym(a.service, b.service); }
    }
  }

  lemma ActionLeIsTotalPreorder()
    ensures TotalPreorder(ActionLe)
  {
    forall a, b ensures ActionLe(a, b) || ActionLe(b, a) {
      StringLeTotal(a.slot.project, b.slot.project);
      StringLeTotal(a.slot.service, b.slot.service);
    }
    forall a, b, c | ActionLe(a, b) && ActionLe(b, c) ensures ActionLe(a, c) { SlotLeTrans(a.slot, b.slot, c.slot); }
  }

  // ---------- the diff itself ----------

  /** `Compute`. The order in which the maps are walked and the order of
      actions on one slot are left open. */
  method Compute(h: TaskDef -> string, desired: seq<Service>, actual: seq<ContainerInfo>, unhealthy: set<string>)
    returns (actions: seq<Action>)
    ensures multiset(actions) == Actions(h, desired, actual, unhealthy)
    ensures Sorted(ActionLe, actions)
  {
    var live: map<Slot, ContainerInfo> := map[];
    actions := [];
    for i := 0 to |actual|
      invariant live == LiveMap(actual[..i], unhealthy)
      invariant actions == Rotations(actual[..i], unhealthy)
    {
      var c := actual[i];
      assert actual[..i + 1][..i] == actual[..i];
      var slot := SlotOf(c.labels);
      if slot.None? { continue; }
      var dead, bad := !IsActive(c.state), c.id in unhealthy;
      if !dead && !bad {
        live := live[slot.value := c];
        continue;
      }
      var reason := "container in non-running state: " + c.state;
      if !dead && bad {
        reason := "probe streak exceeded retries";
      }
      actions := actions + [Remove(slot.value, c.id, reason)];
    }
    assert actual[..|actual|] == actual;
    var want := CollectDesired(desired);
    var pass1 := WantedPass(h, want, live);
    var pass2 := SurplusPass(want, live);
    ActionLeIsTotalPreorder();
    actions := SortFunc(actions + pass1 + pass2, ActionLe);
  }

  method CollectDesired(desired: seq<Service>) returns (want: map<Slot, Service>)
    ensures want == DesiredMap(desired)
  {
    want := map[];
    for i := 0 to |desired|
      invariant want == DesiredMap(desired[..i])
    {
      var svc := desired[i];
      assert desired[..i + 1][..i] == desired[..i];
      ghost var before := want;
      var r := 0;
      while r < svc.spec.replicas
        invariant 0 <= r <= ReplicaCount(svc) && want == AddReplicas(before, svc, r)
      {
        want := want[Slot(svc.project, svc.name, r) := svc];
        r := r + 1;
      }
    }
    assert desired[..|desired|] == desired;
  }

  method WantedPass(h: TaskDef -> string, want: map<Slot, Service>, live: map<Slot, ContainerInfo>) returns (actions: seq<Action>)
    ensures multiset(actions) == multiset(WantedActions(h, want, live, want.Keys))
  {
    actions := [];
    var rest := want.Keys;
    while rest != {}
      invariant rest <= want.Keys
      invariant multiset(actions) == multiset(WantedActions(h, want, live, want.Keys - rest))
      decreases rest
    {
      var k :| k in rest;
      var svc := want[k];
      WantedStep(h, want, live, want.Keys - rest, k);
      assert want.Keys - rest + {k} == want.Keys - (rest - {k});
      rest := rest - {k};
      var hash := h(svc.spec);
      if k !in live {
        actions := actions + [Create(k, svc.spec, hash, "actual<desired")];
        continue;
      }
      var c := live[k];
      var got := Get(c.labels, SPEC_HASH);
      if got != hash {
        actions := actions + [Replace(k, svc.spec, hash, c.id, "spec_hash drift")];
      }
    }
    assert want.Keys - rest == want.Keys;
  }

  lemma WantedStep(h: TaskDef -> string, want: map<Slot, Service>, live: map<Slot, ContainerInfo>, done: set<Slot>, k: Slot)
    requires done <= want.Keys && k in want && k !in done
    ensures multiset(WantedActions(h, want, live, done + {k})) == multiset(WantedActions(h, want, live, done))
         + (match WantedAction(h, want, live, k) case None => multiset{} case Some(a) => multiset{a})
  {
    var before, after := WantedActions(h, want, live, done), WantedActions(h, want, live, done + {k});
    match WantedAction(h, want, live, k)
    case None => assert after == before;
    case Some(a) =>
      assert after == before + {a};
      assert forall b | b in before :: b.slot in done;
      assert a !in before;
  }

  method SurplusPass(want: map<Slot, Service>, live: map<Slot, ContainerInfo>) returns (actions: seq<Action>)
    ensures multiset(actions) == multiset(SurplusActions(want, live, live.Keys))
  {
    actions := [];
    var rest := live.Keys;
    while rest != {}
      invariant rest <= live.Keys
      invariant multiset(actions) == multiset(SurplusActions(want, live, live.Keys - rest))
      decreases rest
    {
      var k :| k in rest;
      SurplusStep(want, live, live.Keys - rest, k);
      assert live.Keys - rest + {k} == live.Keys - (rest - {k});
      rest := rest - {k};
      if k !in want {
        actions := actions + [Remove(k, live[k].id, "actual>desired")];
      }
    }
    assert live.Keys - rest == live.Keys;
  }

  lemma SurplusStep(want: map<Slot, Service>, live: map<Slot, ContainerInfo>, done: set<Slot>, k: Slot)
    requires done <= live.Keys && k in live && k !in done
    ensures multiset(SurplusActions(want, live, done + {k})) == multiset(SurplusActions(want, live, done))
         + (if k in want then multiset{} else multiset{SurplusAction(live, k)})
  {
    var before, after := SurplusActions(want, live, done), SurplusActions(want, live, done + {k});
    if k in want {
      assert after == before;
    } else {
      assert after == before + {SurplusAction(live, k)};
      assert forall b | b in before :: b.slot in done;
    }
  }
}
