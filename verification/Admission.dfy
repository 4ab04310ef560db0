/** Store-side admission (internal/parser/toml/validate.go and the service
    handlers of internal/server/handlers.go): what the route checks at upsert
    guarantee about every store that can be reached. */
module Admission {
  import opened Domain
  import opened Probes
  import opened Reconciler
  import opened Routing

  // ---------- the rules of one definition ----------

  datatype Code = RouteInvalidProtocol | RouteNeedsHost | RouteNeedsPort | RouteBadHost | RouteBadPath | RouteBadLb
    | HealthMutuallyExclusive | HealthProbeNeedsPort | HealthTimeoutOutOfRange | HealthRetriesOutOfRange | HealthBadVia
    | RouteConflict | Other(message: string)

  /** Everything `Validate` checks outside routes and health, and the host
      name syntax, are parameters: the results hold for any such rules. */
  datatype Rules = Rules(basics: TaskDef -> Option<Code>, hostOk: string -> bool)

  /** The star is allowed only as the last character. */
  function ValidateStars(p: string, j: nat): Option<Code>
    requires j <= |p|
    decreases |p| - j
  {
    if j == |p| then None
    else if p[j] == '*' && j != |p| - 1 then Some(RouteBadPath)
    else ValidateStars(p, j + 1)
  }

  function ValidateRoutePath(p: string): Option<Code> {
    if p == "" then None else if p[0] != '/' then Some(RouteBadPath) else ValidateStars(p, 0)
  }

  function ValidateRoute(rules: Rules, r: Route): Option<Code> {
    if r.l4 !in {"", "tcp", "udp"} then Some(RouteInvalidProtocol)
    else if r.l4 == "" && r.host == "" then Some(RouteNeedsHost)
    else if r.l4 != "" && (r.port < 1 || r.port > 65535) then Some(RouteNeedsPort)
    else if r.host != "" && !rules.hostOk(r.host) then Some(RouteBadHost)
    else if ValidateRoutePath(r.path).Some? then ValidateRoutePath(r.path)
    else if r.lb !in {"", "random", "round-robin"} then Some(RouteBadLb)
    else None
  }

  /** The first violation among the routes. */
  function ValidateRoutes(rules: Rules, routes: seq<Route>): Option<Code> {
    if routes == [] then None
    else if ValidateRoute(rules, routes[0]).Some? then ValidateRoute(rules, routes[0])
    else ValidateRoutes(rules, routes[1..])
  }

  function ValidateHealth(td: TaskDef): Option<Code> {
    var h := td.health;
    var port := if h.port == 0 && td.expose != [] then td.expose[0].container else h.port;
    if h.path != "" && h.command != [] then Some(HealthMutuallyExclusive)
    else if h.path != "" && port == 0 then Some(HealthProbeNeedsPort)
    else if h.timeout > 0 && h.interval > 0 && h.timeout > h.interval then Some(HealthTimeoutOutOfRange)
    else if h.retries < 0 || h.retries > 100 then Some(HealthRetriesOutOfRange)
    else if h.via !in {"", "direct", "ingress"} then Some(HealthBadVia)
    else None
  }

  function Validate(rules: Rules, td: TaskDef): Option<Code> {
    if rules.basics(td).Some? then rules.basics(td)
    else if ValidateHealth(td).Some? then ValidateHealth(td)
    else ValidateRoutes(rules, td.routes)
  }

  predicate StarsOk(p: string) {
    p == "" || (p[0] == '/' && forall j | 0 <= j < |p| - 1 :: p[j] != '*')
  }

  lemma {:induction false} StarsChecked(p: string, j: nat)
    requires j <= |p|
    ensures ValidateStars(p, j) == if exists i | j <= i < |p| - 1 :: p[i] == '*' then Some(RouteBadPath) else None
    decreases |p| - j
  {
    if j < |p| { StarsChecked(p, j + 1); }
  }

  /** What an accepted route list guarantees about each route. */
  lemma {:induction false} RoutesChecked(rules: Rules, routes: seq<Route>)
    ensures ValidateRoutes(rules, routes).None? <==> forall i | 0 <= i < |routes| :: ValidateRoute(rules, routes[i]).None?
  {
    if routes != [] {
      RoutesChecked(rules, routes[1..]);
      assert forall i | 0 < i < |routes| :: routes[i] == routes[1..][i - 1];
    }
  }

  lemma AcceptedRoute(rules: Rules, r: Route)
    requires ValidateRoute(rules, r).None?
    ensures r.l4 == "" ==> r.host != ""
    ensures r.l4 != "" ==> 1 <= r.port <= 65535
    ensures StarsOk(r.path)
  {
    StarsChecked(r.path, 0);
  }

  /** Retry budgets of 33 to 100 are accepted, but no container of such a
      service is ever given up on, however often its probe fails. */
  lemma LargeBudgetNeverUsedUp(td: TaskDef, name: string, desired: seq<Service>, view: map<string, Tracking>, c: ContainerInfo)
    requires ValidateHealth(td).None? && Named(desired, ServiceLabel(c)) == Some(Service(td.project, name, td))
    ensures td.health.retries <= 100
    ensures td.health.retries > HISTORY_CAP ==> !GivenUp(desired, view, c)
    ensures td.health.retries <= HISTORY_CAP && c.id in view && view[c.id].probed ==>
              (GivenUp(desired, view, c) <==>
               TailFailures(view[c.id].results) >= if td.health.retries == 0 then DEFAULT_RETRIES else td.health.retries)
  {
  }

  // ---------- the store ----------

  datatype Store = Store(projects: set<string>, services: map<ServiceID, Service>)

  const EMPTY_STORE := Store({}, map[])

  predicate RoutesConflict(a: Route, b: Route, aProject: string, bProject: string) {
    if a.host != b.host then false
    else if aProject != bProject then true
    else a.path == b.path
  }

  /** Some route of the definition conflicts with one of another stored service. */
  predicate ConflictsWithStore(td: TaskDef, store: Store) {
    exists id, i, j | id in store.services && 0 <= i < |store.services[id].spec.routes| && 0 <= j < |td.routes| ::
      && id.project in store.projects
      && !(store.services[id].project == td.project && store.services[id].name == td.name)
      && RoutesConflict(td.routes[j], store.services[id].spec.routes[i], td.project, store.services[id].project)
  }

  function ValidateAgainstStore(rules: Rules, td: TaskDef, store: Store): Option<Code> {
    if Validate(rules, td).Some? then Validate(rules, td)
    else if td.routes == [] then None
    else if ConflictsWithStore(td, store) then Some(RouteConflict)
    else None
  }

  /** The requests that change the store. */
  datatype Op =
    | CreateProject(name: string)
    | DeleteProject(name: string)
    | Upsert(project: string, name: string, spec: TaskDef)
    | Scale(project: string, name: string, replicas: GoInt)
    | Delete(project: string, name: string)

  /** The effect of one request; a rejected one leaves the store alone, except
      that upserting into the missing project "default" creates it first. */
  function Step(rules: Rules, store: Store, op: Op): Store {
    match op
    case CreateProject(name) => store.(projects := store.projects + {name})
    case DeleteProject(name) =>
      if exists id | id in store.services :: id.project == name then store
      else store.(projects := store.projects - {name})
    case Upsert(project, name, spec) =>
      if spec.project != project || spec.name != name then store
      else if project !in store.projects && project != "default" then store
      else
        var store' := store.(projects := store.projects + {project});
        if ValidateAgainstStore(rules, spec, store').Some? then store'
        else store'.(services := store'.services[ServiceID(project, name) := Service(project, name, spec)])
    case Scale(project, name, replicas) =>
      var id := ServiceID(project, name);
      if replicas < 0 || id !in store.services then store
      else
        var svc := store.services[id];
        store.(services := store.services[id := svc.(spec := svc.spec.(replicas := replicas))])
    case Delete(project, name) => store.(services := store.services - {ServiceID(project, name)})
  }

  function Run(rules: Rules, ops: seq<Op>): Store {
    if ops == [] then EMPTY_STORE else Step(rules, Run(rules, ops[..|ops| - 1]), ops[|ops| - 1])
  }

  /** Keys match rows, rows belong to projects, and stored routes were accepted. */
  ghost predicate WellFormed(rules: Rules, store: Store) {
    forall id | id in store.services ::
      && store.services[id].project == id.project && store.services[id].name == id.service
      && id.project in store.projects
      && ValidateRoutes(rules, store.services[id].spec.routes).None?
  }

  /** No route of one service conflicts with a route of another. */
  ghost predicate ConflictFree(store: Store) {
    forall s, t, i, j | s in store.services && t in store.services && s != t
                        && 0 <= i < |store.services[s].spec.routes| && 0 <= j < |store.services[t].spec.routes| ::
      !RoutesConflict(store.services[s].spec.routes[i], store.services[t].spec.routes[j], s.project, t.project)
  }

  lemma UpsertKeeps(rules: Rules, store: Store, project: string, name: string, spec: TaskDef)
    requires WellFormed(rules, store) && ConflictFree(store) && project in store.projects
    requires spec.project == project && spec.name == name && ValidateAgainstStore(rules, spec, store).None?
    ensures var store' := store.(services := store.services[ServiceID(project, name) := Service(project, name, spec)]);
            WellFormed(rules, store') && ConflictFree(store')
  {
    var me := ServiceID(project, name);
    var store' := store.(services := store.services[me := Service(project, name, spec)]);
    forall s, i, j | s in store.services && s != me && 0 <= i < |store.services[s].spec.routes| && 0 <= j < |spec.routes|
      ensures !RoutesConflict(spec.routes[j], store.services[s].spec.routes[i], project, s.project)
      ensures !RoutesConflict(store.services[s].spec.routes[i], spec.routes[j], s.project, project)
    {
      assert !ConflictsWithStore(spec, store);
    }
  }

  lemma ScaleKeeps(rules: Rules, store: Store, id: ServiceID, replicas: GoInt)
    requires WellFormed(rules, store) && ConflictFree(store) && id in store.services
    ensures var svc := store.services[id];
            var store' := store.(services := store.services[id := svc.(spec := svc.spec.(replicas := replicas))]);
            WellFormed(rules, store') && ConflictFree(store')
  {
    var svc := store.services[id];
    var store' := store.(services := store.services[id := svc.(spec := svc.spec.(replicas := replicas))]);
    SameRoutes(rules, store, store');
  }

  /** Rows that disappear, or change nothing but what is not about routes. */
  lemma SameRoutes(rules: Rules, store: Store, store': Store)
    requires WellFormed(rules, store) && ConflictFree(store)
    requires forall id | id in store'.services ::
               && id in store.services && id.project in store'.projects
               && store'.services[id].project == store.services[id].project && store'.services[id].name == store.services[id].name
               && store'.services[id].spec.routes == store.services[id].spec.routes
    ensures WellFormed(rules, store') && ConflictFree(store')
  {
  }

  lemma DeleteKeeps(rules: Rules, store: Store, id: ServiceID)
    requires WellFormed(rules, store) && ConflictFree(store)
    ensures var store' := store.(services := store.services - {id}); WellFormed(rules, store') && ConflictFree(store')
  {
    SameRoutes(rules, store, store.(services := store.services - {id}));
  }

  lemma ProjectsKeep(rules: Rules, store: Store, projects: set<string>)
    requires WellFormed(rules, store) && ConflictFree(store)
    requires forall id | id in store.services :: id.project in projects
    ensures WellFormed(rules, store.(projects := projects)) && ConflictFree(store.(projects := projects))
  {
    SameRoutes(rules, store, store.(projects := projects));
  }

  lemma StepKeeps(rules: Rules, store: Store, op: Op)
    requires WellFormed(rules, store) && ConflictFree(store)
    ensures WellFormed(rules, Step(rules, store, op)) && ConflictFree(Step(rules, store, op))
  {
    match op
    case Upsert(project, name, spec) =>
      var store' := store.(projects := store.projects + {project});
      ProjectsKeep(rules, store, store'.projects);
      if Step(rules, store, op) != store && Step(rules, store, op) != store' {
        UpsertKeeps(rules, store', project, name, spec);
      }
    case Scale(project, name, replicas) =>
      if replicas >= 0 && ServiceID(project, name) in store.services {
        ScaleKeeps(rules, store, ServiceID(project, name), replicas);
      }
    case Delete(project, name) => DeleteKeeps(rules, store, ServiceID(project, name));
    case CreateProject(name) => ProjectsKeep(rules, store, store.projects + {name});
    case DeleteProject(name) =>
      if Step(rules, store, op) != store { ProjectsKeep(rules, store, store.projects - {name}); }
  }

  /** After any sequence of requests the stored routes are conflict-free. */
  lemma {:induction false} ReachableStoresConflictFree(rules: Rules, ops: seq<Op>)
    ensures WellFormed(rules, Run(rules, ops)) && ConflictFree(Run(rules, ops))
  {
    if ops != [] {
      ReachableStoresConflictFree(rules, ops[..|ops| - 1]);
      StepKeeps(rules, Run(rules, ops[..|ops| - 1]), ops[|ops| - 1]);
    }
  }

  // ---------- racing requests ----------

  function Put(store: Store, td: TaskDef): Store {
    store.(services := store.services[ServiceID(td.project, td.name) := Service(td.project, td.name, td)])
  }

  ghost predicate SpecsConflict(a: TaskDef, b: TaskDef) {
    exists i, j | 0 <= i < |a.routes| && 0 <= j < |b.routes| :: RoutesConflict(a.routes[i], b.routes[j], a.project, b.project)
  }

  /** The check and the write of an upsert are two steps. When two upserts of
      different services both check before either writes, both are admitted,
      and the store stays conflict-free if and only if they do not conflict
      with each other. */
  lemma RacingUpserts(rules: Rules, store: Store, a: TaskDef, b: TaskDef)
    requires WellFormed(rules, store) && ConflictFree(store)
    requires a.project in store.projects && b.project in store.projects && (a.project != b.project || a.name != b.name)
    requires ValidateAgainstStore(rules, a, store).None? && ValidateAgainstStore(rules, b, store).None?
    ensures WellFormed(rules, Put(Put(store, a), b))
    ensures ConflictFree(Put(Put(store, a), b)) <==> !SpecsConflict(a, b)
  {
    UpsertKeeps(rules, store, a.project, a.name, a);
    WrittenWellFormed(rules, Put(store, a), b);
    if SpecsConflict(a, b) {
      ConflictStored(Put(Put(store, a), b), a, b);
    } else {
      if b.routes != [] { SecondUnopposed(store, a, b); }
      UpsertKeeps(rules, Put(store, a), b.project, b.name, b);
    }
  }

  lemma WrittenWellFormed(rules: Rules, store: Store, td: TaskDef)
    requires WellFormed(rules, store) && td.project in store.projects && ValidateRoutes(rules, td.routes).None?
    ensures WellFormed(rules, Put(store, td))
  {
  }

  lemma ConflictStored(store: Store, a: TaskDef, b: TaskDef)
    requires SpecsConflict(a, b) && (a.project != b.project || a.name != b.name)
    requires var s, t := ServiceID(a.project, a.name), ServiceID(b.project, b.name);
             && s in store.services && store.services[s].spec.routes == a.routes
             && t in store.services && store.services[t].spec.routes == b.routes
    ensures !ConflictFree(store)
  {
    var s, t := ServiceID(a.project, a.name), ServiceID(b.project, b.name);
    var i, j :| 0 <= i < |a.routes| && 0 <= j < |b.routes| && RoutesConflict(a.routes[i], b.routes[j], a.project, b.project);
    assert RoutesConflict(store.services[s].spec.routes[i], store.services[t].spec.routes[j], s.project, t.project);
  }

  lemma SecondUnopposed(store: Store, a: TaskDef, b: TaskDef)
    requires !ConflictsWithStore(b, store)
    ensures ConflictsWithStore(b, Put(store, a)) ==> SpecsConflict(a, b)
  {
    if ConflictsWithStore(b, Put(store, a)) {
      var first, s := Put(store, a), ServiceID(a.project, a.name);
      var id, i, j :| id in first.services && 0 <= i < |first.services[id].spec.routes| && 0 <= j < |b.routes|
                      && id.project in first.projects
                      && !(first.services[id].project == b.project && first.services[id].name == b.name)
                      && RoutesConflict(b.routes[j], first.services[id].spec.routes[i], b.project, first.services[id].project);
      assert id == s;
      assert RoutesConflict(a.routes[i], b.routes[j], a.project, b.project);
    }
  }

  // ---------- from the store to the routing table ----------

  /** What `pushRoutes` publishes when the services of the projects in
      `readable` can be listed. */
  function Published(store: Store, readable: set<string>): Routes {
    map id | id in store.services && id.project in store.projects && id.project in readable && store.services[id].spec.routes != []
      :: store.services[id].spec.routes
  }

  /** No service repeats a host and path in its own list. */
  ghost predicate NoOwnRepeats(routes: Routes) {
    forall p, q | IsL7(routes, p) && IsL7(routes, q) && p.service == q.service && p != q ::
      RouteAt(routes, p).host != RouteAt(routes, q).host || RouteAt(routes, p).path != RouteAt(routes, q).path
  }

  /** No two L4 routes share protocol and port. */
  ghost predicate NoSharedPorts(routes: Routes) {
    forall p, q | IsL4(routes, p) && IsL4(routes, q) && p != q :: KeyAt(routes, p) != KeyAt(routes, q)
  }

  /** The two things admission does not check are all that can go wrong: the
      published routes of a reachable store build a table if and only if no
      service repeats a host and path and no two L4 routes share a port. */
  lemma AdmittedRoutesBuild(rules: Rules, ops: seq<Op>, readable: set<string>)
    ensures var routes := Published(Run(rules, ops), readable);
            ClashFree(routes) <==> NoOwnRepeats(routes) && NoSharedPorts(routes)
  {
    var store := Run(rules, ops);
    var routes := Published(store, readable);
    ReachableStoresConflictFree(rules, ops);
    if NoOwnRepeats(routes) && NoSharedPorts(routes) {
      forall p, q | Declared(routes, p) && Declared(routes, q) && p != q ensures !Clash(routes, p, q) {
        OnlyUncheckedClash(rules, store, routes, readable, p, q);
      }
    }
    if ClashFree(routes) { BuildsWithoutRepeats(routes); }
  }

  lemma OnlyUncheckedClash(rules: Rules, store: Store, routes: Routes, readable: set<string>, p: Place, q: Place)
    requires WellFormed(rules, store) && ConflictFree(store) && routes == Published(store, readable)
    requires NoOwnRepeats(routes) && NoSharedPorts(routes) && Declared(routes, p) && Declared(routes, q) && p != q
    ensures !Clash(routes, p, q)
  {
    if p.service != q.service {
      assert !RoutesConflict(store.services[p.service].spec.routes[p.index], store.services[q.service].spec.routes[q.index],
                             p.service.project, q.service.project);
    }
  }

  /** Every published L4 route has a bindable port, every L7 route a host. */
  lemma AdmittedRoutesUsable(rules: Rules, ops: seq<Op>, readable: set<string>)
    ensures var routes := Published(Run(rules, ops), readable);
            forall p :: (IsL4(routes, p) ==> 1 <= RouteAt(routes, p).port <= 65535)
                        && (IsL7(routes, p) ==> RouteAt(routes, p).host != "")
  {
    var store := Run(rules, ops);
    var routes := Published(store, readable);
    ReachableStoresConflictFree(rules, ops);
    forall p | Declared(routes, p)
      ensures (IsL4(routes, p) ==> 1 <= RouteAt(routes, p).port <= 65535) && (IsL7(routes, p) ==> RouteAt(routes, p).host != "")
    {
      RoutesChecked(rules, store.services[p.service].spec.routes);
      AcceptedRoute(rules, RouteAt(routes, p));
    }
  }

  /** Such repeats do get in: a service that declares one route twice, L7 or
      L4, is admitted and its table is refused. */
  lemma UncheckedRepeatAdmitted(rules: Rules, spec: TaskDef)
    requires spec.project == "default" && Validate(rules, spec).None?
    requires |spec.routes| == 2 && spec.routes[0] == spec.routes[1]
    ensures var store := Run(rules, [Upsert("default", spec.name, spec)]);
            && ServiceID("default", spec.name) in store.services
            && !ClashFree(Published(store, {"default"}))
  {
    var ops := [Upsert("default", spec.name, spec)];
    assert ops[..|ops| - 1] == [] && Run(rules, []) == EMPTY_STORE;
    var id := ServiceID("default", spec.name);
    var store := Run(rules, ops);
    assert !ConflictsWithStore(spec, EMPTY_STORE.(projects := {"default"}));
    assert store == Step(rules, EMPTY_STORE, ops[0]);
    var routes := Published(store, {"default"});
    assert routes[id] == spec.routes;
    assert Clash(routes, Place(id, 0), Place(id, 1));
  }

  // ---------- refused though it would build ----------

  /** Route j of the definition conflicts with route i of another stored service. */
  predicate ConflictPair(td: TaskDef, store: Store, id: ServiceID, i: int, j: int) {
    && id in store.services && 0 <= i < |store.services[id].spec.routes| && 0 <= j < |td.routes|
    && id.project in store.projects
    && !(store.services[id].project == td.project && store.services[id].name == td.name)
    && RoutesConflict(td.routes[j], store.services[id].spec.routes[i], td.project, store.services[id].project)
  }

  /** The table of the store with the definition in it. */
  function TableWith(store: Store, td: TaskDef): Routes {
    Published(Put(store, td), store.projects)
  }

  /** Two routes that conflict for admission clash in the table if both are L7. */
  lemma PairClashes(rules: Rules, store: Store, td: TaskDef, id: ServiceID, i: int, j: int)
    requires WellFormed(rules, store) && td.project in store.projects
    requires ConflictPair(td, store, id, i, j) && td.routes[j].l4 == "" && store.services[id].spec.routes[i].l4 == ""
    ensures !ClashFree(TableWith(store, td))
  {
    var table, me := TableWith(store, td), ServiceID(td.project, td.name);
    assert table[me] == td.routes && table[id] == store.services[id].spec.routes;
    assert Clash(table, Place(me, j), Place(id, i));
  }

  lemma OtherRoutes(store: Store, td: TaskDef, p: Place)
    requires Declared(TableWith(store, td), p) && p.service != ServiceID(td.project, td.name)
    ensures p.service in store.services && store.services[p.service].spec.routes == TableWith(store, td)[p.service]
    ensures p.service.project in store.projects
  {
  }

  /** Without such pairs only repeats and shared ports are left. */
  lemma NoPairNoClash(rules: Rules, store: Store, td: TaskDef, p: Place, q: Place)
    requires WellFormed(rules, store) && ConflictFree(store)
    requires forall id, i, j | ConflictPair(td, store, id, i, j) :: td.routes[j].l4 != "" || store.services[id].spec.routes[i].l4 != ""
    requires var table := TableWith(store, td);
             NoOwnRepeats(table) && NoSharedPorts(table) && Declared(table, p) && Declared(table, q) && p != q
    ensures !Clash(TableWith(store, td), p, q)
  {
    var me := ServiceID(td.project, td.name);
    if p.service != q.service {
      if p.service == me {
        OtherRoutes(store, td, q);
        assert !ConflictPair(td, store, q.service, q.index, p.index) || !IsL7(TableWith(store, td), p) || !IsL7(TableWith(store, td), q);
      } else if q.service == me {
        OtherRoutes(store, td, p);
        assert !ConflictPair(td, store, p.service, p.index, q.index) || !IsL7(TableWith(store, td), p) || !IsL7(TableWith(store, td), q);
      } else {
        OtherRoutes(store, td, p);
        OtherRoutes(store, td, q);
        assert !RoutesConflict(store.services[p.service].spec.routes[p.index], store.services[q.service].spec.routes[q.index],
                               p.service.project, q.service.project);
      }
    }
  }

  /** Exactly when a valid definition is refused although the table with it
      would build: it conflicts with the store, every conflict has an L4 route
      in it, and no service repeats a host and path and no port is shared. */
  lemma RefusedThoughBuildable(rules: Rules, store: Store, td: TaskDef)
    requires WellFormed(rules, store) && ConflictFree(store) && td.project in store.projects && Validate(rules, td).None?
    ensures var table := TableWith(store, td);
            ValidateAgainstStore(rules, td, store).Some? && ClashFree(table)
            <==>
            && td.routes != [] && ConflictsWithStore(td, store)
            && (forall id, i, j | ConflictPair(td, store, id, i, j) :: td.routes[j].l4 != "" || store.services[id].spec.routes[i].l4 != "")
            && NoOwnRepeats(table) && NoSharedPorts(table)
  {
    var table := TableWith(store, td);
    forall id, i, j | ConflictPair(td, store, id, i, j) && td.routes[j].l4 == "" && store.services[id].spec.routes[i].l4 == ""
      ensures !ClashFree(table)
    {
      PairClashes(rules, store, td, id, i, j);
    }
    if ClashFree(table) { BuildsWithoutRepeats(table); }
    if NoOwnRepeats(table) && NoSharedPorts(table)
       && (forall id, i, j | ConflictPair(td, store, id, i, j) :: td.routes[j].l4 != "" || store.services[id].spec.routes[i].l4 != "") {
      forall p, q | Declared(table, p) && Declared(table, q) && p != q ensures !Clash(table, p, q) {
        NoPairNoClash(rules, store, td, p, q);
      }
    }
  }

  lemma BuildsWithoutRepeats(routes: Routes)
    requires ClashFree(routes)
    ensures NoOwnRepeats(routes) && NoSharedPorts(routes)
  {
    forall p, q | IsL4(routes, p) && IsL4(routes, q) && p != q ensures KeyAt(routes, p) != KeyAt(routes, q) {
      assert !Clash(routes, p, q);
    }
    forall p, q | IsL7(routes, p) && IsL7(routes, q) && p.service == q.service && p != q
      ensures RouteAt(routes, p).host != RouteAt(routes, q).host || RouteAt(routes, p).path != RouteAt(routes, q).path
    {
      assert !Clash(routes, p, q);
    }
  }

  /** Two services with one L4 route each and no host, on different ports: the
      second is refused, although the table of both builds. */
  lemma HostlessPortsRefused(rules: Rules, a: TaskDef, b: TaskDef)
    requires Validate(rules, a).None? && Validate(rules, b).None? && a.project == b.project && a.name != b.name
    requires |a.routes| == 1 && |b.routes| == 1 && a.routes[0].l4 != "" && b.routes[0].l4 != ""
    requires a.routes[0].host == b.routes[0].host == "" && a.routes[0].path == b.routes[0].path
    requires a.routes[0].port != b.routes[0].port
    ensures var store := Store({a.project}, map[]);
            && ValidateAgainstStore(rules, a, store).None?
            && ValidateAgainstStore(rules, b, Put(store, a)) == Some(RouteConflict)
            && ClashFree(TableWith(Put(store, a), b))
  {
    var store := Put(Store({a.project}, map[]), a);
    var id := ServiceID(a.project, a.name);
    assert store.services[id].spec.routes[0] == a.routes[0] && RoutesConflict(b.routes[0], store.services[id].spec.routes[0], b.project, a.project);
    assert ConflictsWithStore(b, store);
    var table := TableWith(store, b);
    assert forall p | Declared(table, p) :: p.index == 0;
  }

  /** Two routes for one host in two projects, both valid: each upsert passes
      its check against the empty store, and after both writes the store holds
      a conflict. */
  lemma RaceBreaks(rules: Rules, a: TaskDef, b: TaskDef)
    requires Validate(rules, a).None? && Validate(rules, b).None? && a.project != b.project
    requires |a.routes| >= 1 && |b.routes| >= 1 && a.routes[0].host == b.routes[0].host
    ensures var store := Store({a.project, b.project}, map[]);
            && ValidateAgainstStore(rules, a, store).None? && ValidateAgainstStore(rules, b, store).None?
            && !ConflictFree(Put(Put(store, a), b))
  {
    assert RoutesConflict(a.routes[0], b.routes[0], a.project, b.project);
    assert SpecsConflict(a, b);
    RacingUpserts(rules, Store({a.project, b.project}, map[]), a, b);
  }
}
