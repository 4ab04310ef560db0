/** Requests that interleave: a handler checks or reads the store first and
    writes to it later, and others may come in between. */
module Interleaving {
  import opened Domain
  import opened Routing
  import opened Admission

  /** A stored service, when what is stored was checked and when it was written. */
  datatype Row = Row(svc: Service, checkedAt: nat, wroteAt: nat)

  /** A write that is still to come. */
  datatype Pending = Pending(spec: TaskDef, checkedAt: nat)

  datatype State = State(projects: set<string>, rows: map<ServiceID, Row>, pending: seq<Pending>, now: nat)

  const START := State({}, map[], [], 0)

  /** One step of some request. */
  datatype Event =
    | AddProject(name: string)
    | DropProject(name: string)
    | Check(project: string, name: string, spec: TaskDef)              // the check of an upsert
    | ReadForScale(project: string, name: string, replicas: GoInt)     // the read of a scale
    | Write(i: nat)                                                    // the write of either
    | Fail(i: nat)                                                     // or its failure
    | Erase(project: string, name: string)

  function IdOf(spec: TaskDef): ServiceID {
    ServiceID(spec.project, spec.name)
  }

  function StoreOf(st: State): Store {
    Store(st.projects, map id | id in st.rows :: st.rows[id].svc)
  }

  function Without(ps: seq<Pending>, i: nat): seq<Pending>
    requires i < |ps|
  {
    ps[..i] + ps[i + 1..]
  }

  function Next(rules: Rules, st: State, e: Event): State {
    Effect(rules, st, e).(now := st.now + 1)
  }

  function Effect(rules: Rules, st: State, e: Event): State {
    match e
    case AddProject(name) => st.(projects := st.projects + {name})
    case DropProject(name) =>
      if exists id | id in st.rows :: id.project == name then st else st.(projects := st.projects - {name})
    case Check(project, name, spec) =>
      if spec.project != project || spec.name != name || (project !in st.projects && project != "default") then st
      else
        var st' := st.(projects := st.projects + {project});
        if ValidateAgainstStore(rules, spec, StoreOf(st')).Some? then st'
        else st'.(pending := st'.pending + [Pending(spec, st.now)])
    case ReadForScale(project, name, replicas) =>
      var id := ServiceID(project, name);
      if replicas < 0 || id !in st.rows then st
      else st.(pending := st.pending + [Pending(st.rows[id].svc.spec.(replicas := replicas), st.rows[id].checkedAt)])
    case Write(i) =>
      if i >= |st.pending| then st
      else
        var p := st.pending[i];
        var st' := st.(pending := Without(st.pending, i));
        if p.spec.project !in st.projects then st'
        else st'.(rows := st'.rows[IdOf(p.spec) := Row(Service(p.spec.project, p.spec.name, p.spec), p.checkedAt, st.now)])
    case Fail(i) => if i >= |st.pending| then st else st.(pending := Without(st.pending, i))
    case Erase(project, name) => st.(rows := st.rows - {ServiceID(project, name)})
  }

  function After(rules: Rules, events: seq<Event>): State {
    if events == [] then START else Next(rules, After(rules, events[..|events| - 1]), events[|events| - 1])
  }

  // ---------- what every interleaving keeps ----------

  predicate RowOk(rules: Rules, st: State, id: ServiceID, r: Row) {
    && r.svc.project == id.project == r.svc.spec.project && r.svc.name == id.service == r.svc.spec.name && id.project in st.projects
    && r.checkedAt < r.wroteAt < st.now && ValidateRoutes(rules, r.svc.spec.routes).None?
  }

  /** Each was checked before the other was written. */
  predicate Overlap(r: Row, q: Row) {
    r.checkedAt < q.wroteAt && q.checkedAt < r.wroteAt
  }

  /** A pending write conflicts only with what was written since its check. */
  ghost predicate PendingOk(rules: Rules, st: State, p: Pending) {
    && p.checkedAt < st.now && ValidateRoutes(rules, p.spec.routes).None?
    && forall id | id in st.rows && id != IdOf(p.spec) && SpecsConflict(p.spec, st.rows[id].svc.spec) :: p.checkedAt < st.rows[id].wroteAt
  }

  ghost predicate RowsOk(rules: Rules, st: State) {
    && (forall id | id in st.rows :: RowOk(rules, st, id, st.rows[id]))
    && (forall id, jd | id in st.rows && jd in st.rows && id != jd && SpecsConflict(st.rows[id].svc.spec, st.rows[jd].svc.spec) ::
          Overlap(st.rows[id], st.rows[jd]))
  }

  ghost predicate Ok(rules: Rules, st: State) {
    RowsOk(rules, st) && forall p | p in st.pending :: PendingOk(rules, st, p)
  }

  lemma ConflictSymmetric(a: TaskDef, b: TaskDef)
    ensures SpecsConflict(a, b) <==> SpecsConflict(b, a)
  {
    if i, j :| 0 <= i < |a.routes| && 0 <= j < |b.routes| && RoutesConflict(a.routes[i], b.routes[j], a.project, b.project) {
      assert RoutesConflict(b.routes[j], a.routes[i], b.project, a.project);
    }
    if i, j :| 0 <= i < |b.routes| && 0 <= j < |a.routes| && RoutesConflict(b.routes[i], a.routes[j], b.project, a.project) {
      assert RoutesConflict(a.routes[j], b.routes[i], a.project, b.project);
    }
  }

  /** Time passing, projects that come and rows that go are harmless. */
  lemma Weaken(rules: Rules, st: State, st': State)
    requires Ok(rules, st) && st'.now >= st.now
    requires forall id | id in st'.rows :: id in st.rows && st'.rows[id] == st.rows[id] && id.project in st'.projects
    requires forall p | p in st'.pending :: p in st.pending
    ensures Ok(rules, st')
  {
    forall p | p in st'.pending ensures PendingOk(rules, st', p) {
      assert PendingOk(rules, st, p);
    }
  }

  lemma AddPending(rules: Rules, st: State, p: Pending)
    requires Ok(rules, st) && PendingOk(rules, st, p)
    ensures Ok(rules, st.(pending := st.pending + [p]))
  {
    var st' := st.(pending := st.pending + [p]);
    forall q | q in st'.pending ensures PendingOk(rules, st', q) {
      assert PendingOk(rules, st, q);
    }
  }

  /** A passed check leaves nothing in the store that the write conflicts with. */
  lemma CheckedOk(rules: Rules, st: State, spec: TaskDef)
    requires Ok(rules, st) && ValidateAgainstStore(rules, spec, StoreOf(st)).None?
    ensures PendingOk(rules, st.(now := st.now + 1), Pending(spec, st.now))
  {
    forall id | id in st.rows && id != IdOf(spec) ensures !SpecsConflict(spec, st.rows[id].svc.spec) {
      if SpecsConflict(spec, st.rows[id].svc.spec) {
        ConflictSeen(rules, st, spec, id);
      }
    }
  }

  lemma ConflictSeen(rules: Rules, st: State, spec: TaskDef, id: ServiceID)
    requires Ok(rules, st) && id in st.rows && id != IdOf(spec) && SpecsConflict(spec, st.rows[id].svc.spec)
    ensures spec.routes != [] && ConflictsWithStore(spec, StoreOf(st))
  {
    var i, j :| 0 <= i < |spec.routes| && 0 <= j < |st.rows[id].svc.spec.routes|
                && RoutesConflict(spec.routes[i], st.rows[id].svc.spec.routes[j], spec.project, st.rows[id].svc.spec.project);
    assert RowOk(rules, st, id, st.rows[id]);
    assert StoreOf(st).services[id] == st.rows[id].svc;
  }

  lemma ScaleReadOk(rules: Rules, st: State, id: ServiceID, replicas: GoInt)
    requires Ok(rules, st) && id in st.rows
    ensures PendingOk(rules, st.(now := st.now + 1), Pending(st.rows[id].svc.spec.(replicas := replicas), st.rows[id].checkedAt))
  {
    var spec := st.rows[id].svc.spec.(replicas := replicas);
    assert RowOk(rules, st, id, st.rows[id]);
    forall jd | jd in st.rows && jd != IdOf(spec) && SpecsConflict(spec, st.rows[jd].svc.spec)
      ensures st.rows[id].checkedAt < st.rows[jd].wroteAt
    {
      var i, j :| 0 <= i < |spec.routes| && 0 <= j < |st.rows[jd].svc.spec.routes|
                  && RoutesConflict(spec.routes[i], st.rows[jd].svc.spec.routes[j], spec.project, st.rows[jd].svc.spec.project);
      assert SpecsConflict(st.rows[id].svc.spec, st.rows[jd].svc.spec);
    }
  }

  lemma WriteOk(rules: Rules, st: State, p: Pending)
    requires Ok(rules, st) && PendingOk(rules, st, p) && p.spec.project in st.projects
    ensures var row := Row(Service(p.spec.project, p.spec.name, p.spec), p.checkedAt, st.now);
            Ok(rules, st.(rows := st.rows[IdOf(p.spec) := row], now := st.now + 1))
  {
    var me, row := IdOf(p.spec), Row(Service(p.spec.project, p.spec.name, p.spec), p.checkedAt, st.now);
    var st' := st.(rows := st.rows[me := row], now := st.now + 1);
    forall id | id in st'.rows ensures RowOk(rules, st', id, st'.rows[id]) {
      if id != me { assert RowOk(rules, st, id, st.rows[id]); }
    }
    forall id, jd | id in st'.rows && jd in st'.rows && id != jd && SpecsConflict(st'.rows[id].svc.spec, st'.rows[jd].svc.spec)
      ensures Overlap(st'.rows[id], st'.rows[jd])
    {
      ConflictSymmetric(st'.rows[id].svc.spec, st'.rows[jd].svc.spec);
      assert id != me ==> RowOk(rules, st, id, st.rows[id]);
      assert jd != me ==> RowOk(rules, st, jd, st.rows[jd]);
    }
    forall q | q in st'.pending ensures PendingOk(rules, st', q) {
      assert PendingOk(rules, st, q);
    }
  }

  lemma CheckOk(rules: Rules, st: State, project: string, name: string, spec: TaskDef)
    requires Ok(rules, st)
    ensures Ok(rules, Next(rules, st, Check(project, name, spec)))
  {
    var st' := st.(projects := st.projects + {project});
    ProjectsHeld(rules, st);
    Weaken(rules, st, st');
    Weaken(rules, st, st'.(now := st.now + 1));
    Weaken(rules, st, st.(now := st.now + 1));
    if ValidateAgainstStore(rules, spec, StoreOf(st')).None? {
      ValidRoutes(rules, spec, StoreOf(st'));
      CheckedOk(rules, st', spec);
      AddPending(rules, st'.(now := st.now + 1), Pending(spec, st.now));
    }
  }

  lemma ValidRoutes(rules: Rules, spec: TaskDef, store: Store)
    requires ValidateAgainstStore(rules, spec, store).None?
    ensures ValidateRoutes(rules, spec.routes).None?
  {
  }

  lemma ReadOk(rules: Rules, st: State, project: string, name: string, replicas: GoInt)
    requires Ok(rules, st)
    ensures Ok(rules, Next(rules, st, ReadForScale(project, name, replicas)))
  {
    var id := ServiceID(project, name);
    ProjectsHeld(rules, st);
    Weaken(rules, st, st.(now := st.now + 1));
    if replicas >= 0 && id in st.rows {
      ScaleReadOk(rules, st, id, replicas);
      AddPending(rules, st.(now := st.now + 1), Pending(st.rows[id].svc.spec.(replicas := replicas), st.rows[id].checkedAt));
    }
  }

  lemma WrittenOk(rules: Rules, st: State, i: nat)
    requires Ok(rules, st)
    ensures Ok(rules, Next(rules, st, Write(i)))
  {
    ProjectsHeld(rules, st);
    Weaken(rules, st, st.(now := st.now + 1));
    if i < |st.pending| {
      var p, st' := st.pending[i], st.(pending := Without(st.pending, i));
      Weaken(rules, st, st');
      Weaken(rules, st, st'.(now := st.now + 1));
      assert PendingOk(rules, st, p);
      if p.spec.project in st.projects { WriteOk(rules, st', p); }
    }
  }

  lemma NextOk(rules: Rules, st: State, e: Event)
    requires Ok(rules, st)
    ensures Ok(rules, Next(rules, st, e))
  {
    ProjectsHeld(rules, st);
    match e
    case Check(project, name, spec) => CheckOk(rules, st, project, name, spec);
    case ReadForScale(project, name, replicas) => ReadOk(rules, st, project, name, replicas);
    case Write(i) => WrittenOk(rules, st, i);
    case AddProject(name) => Weaken(rules, st, Next(rules, st, e));
    case DropProject(name) => Weaken(rules, st, Next(rules, st, e));
    case Erase(project, name) => Weaken(rules, st, Next(rules, st, e));
    case Fail(i) => Weaken(rules, st, Next(rules, st, e));
  }

  lemma ProjectsHeld(rules: Rules, st: State)
    requires Ok(rules, st)
    ensures forall id | id in st.rows :: id.project in st.projects
  {
    forall id | id in st.rows ensures id.project in st.projects { assert RowOk(rules, st, id, st.rows[id]); }
  }

  lemma {:induction false} AfterOk(rules: Rules, events: seq<Event>)
    ensures Ok(rules, After(rules, events))
  {
    if events != [] {
      AfterOk(rules, events[..|events| - 1]);
      NextOk(rules, After(rules, events[..|events| - 1]), events[|events| - 1]);
    }
  }

  /** However requests interleave, two stored services conflict only if each was
      checked before the other was written: only if the requests overlapped.
      Where none did, the store is free of conflicts. */
  lemma ConflictsOnlyByOverlap(rules: Rules, events: seq<Event>)
    ensures var st := After(rules, events);
            && WellFormed(rules, StoreOf(st))
            && (forall id, jd | id in st.rows && jd in st.rows && id != jd && SpecsConflict(st.rows[id].svc.spec, st.rows[jd].svc.spec) ::
                  Overlap(st.rows[id], st.rows[jd]))
            && ((forall id, jd | id in st.rows && jd in st.rows && id != jd :: !Overlap(st.rows[id], st.rows[jd])) ==> ConflictFree(StoreOf(st)))
  {
    var st := After(rules, events);
    AfterOk(rules, events);
    forall id | id in st.rows ensures RowOk(rules, st, id, st.rows[id]) {
    }
    if forall id, jd | id in st.rows && jd in st.rows && id != jd :: !Overlap(st.rows[id], st.rows[jd]) {
      NoOverlapNoConflict(rules, st);
    }
  }

  lemma NoOverlapNoConflict(rules: Rules, st: State)
    requires Ok(rules, st)
    requires forall id, jd | id in st.rows && jd in st.rows && id != jd :: !Overlap(st.rows[id], st.rows[jd])
    ensures ConflictFree(StoreOf(st))
  {
    var store := StoreOf(st);
    forall s, t, i, j | s in store.services && t in store.services && s != t
                        && 0 <= i < |store.services[s].spec.routes| && 0 <= j < |store.services[t].spec.routes|
      ensures !RoutesConflict(store.services[s].spec.routes[i], store.services[t].spec.routes[j], s.project, t.project)
    {
      assert RowOk(rules, st, s, st.rows[s]) && RowOk(rules, st, t, st.rows[t]);
      assert !Overlap(st.rows[s], st.rows[t]);
      assert !SpecsConflict(st.rows[s].svc.spec, st.rows[t].svc.spec);
    }
  }
}
