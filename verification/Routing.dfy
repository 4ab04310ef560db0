/** The routing table (internal/ingress/router.go). Go walks the route map in
    an arbitrary order and sorts with an unstable sort; acceptance and every
    lookup are nevertheless determined by the declared routes alone. */
module Routing {
  import opened Domain
  import opened Ordering

  datatype L7Route = L7Route(project: string, host: string, glob: string, service: ServiceID, lb: string)
  datatype L4Route = L4Route(project: string, service: ServiceID, lb: string)
  datatype L4Key = L4Key(proto: string, port: int)

  /** A routing table; `NoRouter` is the nil pointer. */
  datatype Router = NoRouter | Table(l7: seq<L7Route>, l4: map<L4Key, L4Route>)

  type Routes = map<ServiceID, seq<Route>>

  // ---------- matching ----------

  predicate HasSuffix(s: string, suffix: string) {
    |suffix| <= |s| && s[|s| - |suffix|..] == suffix
  }

  predicate HasPrefix(s: string, prefix: string) {
    prefix <= s
  }

  predicate MatchPath(glob: string, path: string) {
    if glob == "" then true
    else if HasSuffix(glob, "/*") then
      var prefix := glob[..|glob| - 2];
      path == prefix || HasPrefix(path, prefix + "/") || path == prefix + "/"
    else if HasSuffix(glob, "*") then HasPrefix(path, glob[..|glob| - 1])
    else glob == path
  }

  predicate IsWildcard(glob: string) {
    HasSuffix(glob, "*")
  }

  /** `g` is more specific than `k`: longer, or as long and exact rather than
      a wildcard. */
  predicate Beats(g: string, k: string) {
    |g| > |k| || (|g| == |k| && !IsWildcard(g) && IsWildcard(k))
  }

  /** No two distinct globs of equal length and class match the same path, so
      among the globs matching a path one beats all others. */
  lemma MatchesAreRanked(g: string, k: string, path: string)
    requires MatchPath(g, path) && MatchPath(k, path)
    ensures g == k || Beats(g, k) || Beats(k, g)
  {
    if |g| == |k| && IsWildcard(g) == IsWildcard(k) {
      if IsWildcard(g) {
        MatchMeans(g, path);
        MatchMeans(k, path);
        assert g == g[..|g| - 1] + "*" && k == k[..|k| - 1] + "*";
      }
    }
  }

  /** A wildcard glob matches the paths that start with all of it but the star;
      one ending in slash and star also matches the path before the slash. Any
      other glob matches itself, and the empty one everything. */
  lemma MatchMeans(g: string, path: string)
    ensures IsWildcard(g) ==> g != "" && g[|g| - 1] == '*'
    ensures MatchPath(g, path) <==>
              if IsWildcard(g) then HasPrefix(path, g[..|g| - 1]) || (HasSuffix(g, "/*") && path == g[..|g| - 2])
              else g == "" || g == path
  {
    if HasSuffix(g, "/*") {
      assert g[..|g| - 2] + "/" == g[..|g| - 1];
    }
  }

  // ---------- declared routes ----------

  /** The place of a declaration: the service and the index in its list. */
  datatype Place = Place(service: ServiceID, index: int)

  predicate Declared(routes: Routes, p: Place) {
    p.service in routes && 0 <= p.index < |routes[p.service]|
  }

  function RouteAt(routes: Routes, p: Place): Route
    requires Declared(routes, p)
  {
    routes[p.service][p.index]
  }

  predicate IsL7(routes: Routes, p: Place) {
    Declared(routes, p) && RouteAt(routes, p).l4 == ""
  }

  predicate IsL4(routes: Routes, p: Place) {
    Declared(routes, p) && RouteAt(routes, p).l4 != ""
  }

  function L7At(routes: Routes, p: Place): L7Route
    requires Declared(routes, p)
  {
    var d := RouteAt(routes, p);
    L7Route(p.service.project, d.host, d.path, p.service, d.lb)
  }

  function KeyAt(routes: Routes, p: Place): L4Key
    requires Declared(routes, p)
  {
    L4Key(RouteAt(routes, p).l4, RouteAt(routes, p).port)
  }

  function L4At(routes: Routes, p: Place): L4Route
    requires Declared(routes, p)
  {
    L4Route(p.service.project, p.service, RouteAt(routes, p).lb)
  }

  /** Two declarations exclude each other: the same L4 key, the same host in
      two projects, or the same host and path. */
  predicate Clash(routes: Routes, p: Place, q: Place) {
    || (IsL4(routes, p) && IsL4(routes, q) && KeyAt(routes, p) == KeyAt(routes, q))
    || (IsL7(routes, p) && IsL7(routes, q)
        && var a, b := L7At(routes, p), L7At(routes, q); a.host == b.host && (a.project != b.project || a.glob == b.glob))
  }

  /** The acceptance condition, independent of any order: no two declarations
      at different places clash. */
  ghost predicate ClashFree(routes: Routes) {
    forall p, q | Declared(routes, p) && Declared(routes, q) && p != q :: !Clash(routes, p, q)
  }

  // ---------- building the table ----------

  datatype HostPath = HostPath(project: string, host: string, path: string)

  ghost predicate Unclashing(routes: Routes, places: set<Place>) {
    && (forall p | p in places :: Declared(routes, p))
    && (forall p, q | p in places && q in places && p != q :: !Clash(routes, p, q))
  }

  ghost predicate L4Table(routes: Routes, places: set<Place>, l4: map<L4Key, L4Route>) {
    && (forall p | p in places && IsL4(routes, p) :: KeyAt(routes, p) in l4 && l4[KeyAt(routes, p)] == L4At(routes, p))
    && (forall k | k in l4 :: exists p | p in places :: IsL4(routes, p) && KeyAt(routes, p) == k)
  }

  ghost predicate L7Table(routes: Routes, places: set<Place>, l7: seq<L7Route>) {
    && (forall p | p in places && IsL7(routes, p) :: L7At(routes, p) in l7)
    && (forall r | r in l7 :: exists p | p in places :: IsL7(routes, p) && L7At(routes, p) == r)
  }

  /** The project that owns every host routed so far. */
  ghost predicate OwnerTable(routes: Routes, places: set<Place>, owner: map<string, string>) {
    && (forall p | p in places && IsL7(routes, p) ::
          L7At(routes, p).host in owner && owner[L7At(routes, p).host] == p.service.project)
    && (forall h | h in owner :: exists p | p in places :: IsL7(routes, p) && L7At(routes, p).host == h)
  }

  /** Every host and path seen so far. */
  ghost predicate SeenTable(routes: Routes, places: set<Place>, seen: set<HostPath>) {
    && (forall p | p in places && IsL7(routes, p) :: HostPathAt(routes, p) in seen)
    && (forall x | x in seen :: exists p | p in places :: IsL7(routes, p) && HostPathAt(routes, p) == x)
  }

  function HostPathAt(routes: Routes, p: Place): HostPath
    requires Declared(routes, p)
  {
    HostPath(p.service.project, RouteAt(routes, p).host, RouteAt(routes, p).path)
  }

  /** The tables hold exactly the declarations at `places`, none of which clash. */
  ghost predicate Tabulated(routes: Routes, places: set<Place>, l7: seq<L7Route>, l4: map<L4Key, L4Route>,
                            owner: map<string, string>, seen: set<HostPath>) {
    Unclashing(routes, places) && L4Table(routes, places, l4) && L7Table(routes, places, l7)
    && OwnerTable(routes, places, owner) && SeenTable(routes, places, seen)
  }

  lemma TakenKeyClashes(routes: Routes, places: set<Place>, l4: map<L4Key, L4Route>, p: Place)
    requires L4Table(routes, places, l4) && IsL4(routes, p)
    ensures KeyAt(routes, p) in l4 <==> exists q | q in places :: Clash(routes, p, q)
  {
    if KeyAt(routes, p) in l4 {
      var q :| q in places && IsL4(routes, q) && KeyAt(routes, q) == KeyAt(routes, p);
      assert Clash(routes, p, q);
    }
  }

  /** Whether the bookkeeping rejects the L7 declaration at `p`. */
  predicate Rejects(routes: Routes, owner: map<string, string>, seen: set<HostPath>, p: Place)
    requires Declared(routes, p)
  {
    var host := RouteAt(routes, p).host;
    (host in owner && owner[host] != p.service.project) || HostPathAt(routes, p) in seen
  }

  lemma RejectedClashes(routes: Routes, places: set<Place>, owner: map<string, string>, seen: set<HostPath>, p: Place)
    requires OwnerTable(routes, places, owner) && SeenTable(routes, places, seen) && IsL7(routes, p)
    ensures Rejects(routes, owner, seen, p) <==> exists q | q in places :: Clash(routes, p, q)
  {
    forall q | q in places && Clash(routes, p, q) ensures Rejects(routes, owner, seen, p) {
      ClashRejected(routes, places, owner, seen, p, q);
    }
    if HostPathAt(routes, p) in seen {
      var q :| q in places && IsL7(routes, q) && HostPathAt(routes, q) == HostPathAt(routes, p);
      assert Clash(routes, p, q);
    } else if Rejects(routes, owner, seen, p) {
      var q :| q in places && IsL7(routes, q) && L7At(routes, q).host == RouteAt(routes, p).host;
      assert Clash(routes, p, q);
    }
  }

  lemma ClashRejected(routes: Routes, places: set<Place>, owner: map<string, string>, seen: set<HostPath>, p: Place, q: Place)
    requires OwnerTable(routes, places, owner) && SeenTable(routes, places, seen) && IsL7(routes, p)
    requires q in places && Clash(routes, p, q)
    ensures Rejects(routes, owner, seen, p)
  {
    assert HostPathAt(routes, q) in seen && owner[L7At(routes, q).host] == q.service.project;
  }

  lemma UnclashingGrows(routes: Routes, places: set<Place>, p: Place)
    requires Unclashing(routes, places) && Declared(routes, p) && !exists q | q in places :: Clash(routes, p, q)
    ensures Unclashing(routes, places + {p})
  {
  }

  lemma L4TableGrows(routes: Routes, places: set<Place>, l4: map<L4Key, L4Route>, p: Place)
    requires L4Table(routes, places, l4) && Declared(routes, p) && (IsL4(routes, p) ==> KeyAt(routes, p) !in l4)
    ensures L4Table(routes, places + {p}, if IsL4(routes, p) then l4[KeyAt(routes, p) := L4At(routes, p)] else l4)
  {
    assert p in places + {p} && forall q | q in places :: q in places + {p};
  }

  lemma L7TableGrows(routes: Routes, places: set<Place>, l7: seq<L7Route>, p: Place)
    requires L7Table(routes, places, l7) && Declared(routes, p)
    ensures L7Table(routes, places + {p}, if IsL7(routes, p) then l7 + [L7At(routes, p)] else l7)
  {
    assert p in places + {p} && forall q | q in places :: q in places + {p};
  }

  lemma OwnerTableGrows(routes: Routes, places: set<Place>, owner: map<string, string>, p: Place)
    requires OwnerTable(routes, places, owner) && Declared(routes, p)
    requires IsL7(routes, p) && RouteAt(routes, p).host in owner ==> owner[RouteAt(routes, p).host] == p.service.project
    ensures OwnerTable(routes, places + {p}, if IsL7(routes, p) then owner[RouteAt(routes, p).host := p.service.project] else owner)
  {
    assert p in places + {p} && forall q | q in places :: q in places + {p};
  }

  lemma SeenTableGrows(routes: Routes, places: set<Place>, seen: set<HostPath>, p: Place)
    requires SeenTable(routes, places, seen) && Declared(routes, p)
    ensures SeenTable(routes, places + {p}, if IsL7(routes, p) then seen + {HostPathAt(routes, p)} else seen)
  {
    assert p in places + {p} && forall q | q in places :: q in places + {p};
  }

  // ---------- the order of the table ----------

  /** The comparator of the sort: longest first, exact before wildcard, then
      host and glob. */
  predicate RouteLe(a: L7Route, b: L7Route) {
    if |a.glob| != |b.glob| then |b.glob| < |a.glob|
    else if IsWildcard(a.glob) != IsWildcard(b.glob) then !IsWildcard(a.glob)
    else if a.host != b.host then StringLe(a.host, b.host)
    else StringLe(a.glob, b.glob)
  }

  lemma RouteLeTrans(a: L7Route, b: L7Route, c: L7Route)
    requires RouteLe(a, b) && RouteLe(b, c)
    ensures RouteLe(a, c)
  {
    if StringLe(a.host, b.host) && StringLe(b.host, c.host) {
      StringLeTrans(a.host, b.host, c.host);
      if a.host == c.host && a.host != b.host { StringLeAntisym(a.host, b.host); }
    }
    if StringLe(a.glob, b.glob) && StringLe(b.glob, c.glob) { StringLeTrans(a.glob, b.glob, c.glob); }
  }

  lemma RouteLeIsTotalPreorder()
    ensures TotalPreorder(RouteLe)
  {
    forall a, b ensures RouteLe(a, b) || RouteLe(b, a) {
      StringLeTotal(a.host, b.host);
      StringLeTotal(a.glob, b.glob);
    }
    forall a, b, c | RouteLe(a, b) && RouteLe(b, c) ensures RouteLe(a, c) { RouteLeTrans(a, b, c); }
  }


  // ---------- BuildRouter ----------

  /** The table the routes denote: every L7 declaration in order of precedence
      and every L4 declaration under its key. */
  ghost predicate Denotes(routes: Routes, router: Router) {
    && router.Table? && Sorted(RouteLe, router.l7)
    && (forall p | IsL7(routes, p) :: L7At(routes, p) in router.l7)
    && (forall r | r in router.l7 :: exists p :: IsL7(routes, p) && L7At(routes, p) == r)
    && (forall p | IsL4(routes, p) :: KeyAt(routes, p) in router.l4 && router.l4[KeyAt(routes, p)] == L4At(routes, p))
    && (forall k | k in router.l4 :: exists p :: IsL4(routes, p) && KeyAt(routes, p) == k)
  }

  /** `places` are those of the services already walked and the first `n` of
      the current one. */
  ghost predicate Walked(routes: Routes, places: set<Place>, rest: set<ServiceID>, current: Option<ServiceID>, n: nat) {
    forall p | Declared(routes, p) ::
      p in places <==> if Some(p.service) == current then p.index < n else p.service !in rest
  }

  /** One step of the walk: the declaration at `p` is checked and entered. */
  method AddRoute(svc: ServiceID, rt: Route, l7: seq<L7Route>, l4: map<L4Key, L4Route>, owner: map<string, string>, seen: set<HostPath>,
                  ghost routes: Routes, ghost places: set<Place>, ghost p: Place)
    returns (ok: bool, l7': seq<L7Route>, l4': map<L4Key, L4Route>, owner': map<string, string>, seen': set<HostPath>)
    requires Tabulated(routes, places, l7, l4, owner, seen)
    requires Declared(routes, p) && p.service == svc && RouteAt(routes, p) == rt
    ensures ok <==> !exists q | q in places :: Clash(routes, p, q)
    ensures ok ==> Tabulated(routes, places + {p}, l7', l4', owner', seen')
  {
    l7', l4', owner', seen' := l7, l4, owner, seen;
    if rt.l4 != "" {
      TakenKeyClashes(routes, places, l4, p);
      var key := L4Key(rt.l4, rt.port);
      if key in l4 { return false, l7', l4', owner', seen'; }
      l4' := l4[key := L4Route(svc.project, svc, rt.lb)];
    } else {
      RejectedClashes(routes, places, owner, seen, p);
      if rt.host in owner && owner[rt.host] != svc.project { return false, l7', l4', owner', seen'; }
      owner' := owner[rt.host := svc.project];
      var key := HostPath(svc.project, rt.host, rt.path);
      if key in seen { return false, l7', l4', owner', seen'; }
      seen' := seen + {key};
      l7' := l7 + [L7Route(svc.project, rt.host, rt.path, svc, rt.lb)];
    }
    UnclashingGrows(routes, places, p);
    L4TableGrows(routes, places, l4, p);
    L7TableGrows(routes, places, l7, p);
    TableGrows(routes, places, l7, l4, owner, seen, p);
    ok := true;
  }

  lemma TableGrows(routes: Routes, places: set<Place>, l7: seq<L7Route>, l4: map<L4Key, L4Route>, owner: map<string, string>,
                   seen: set<HostPath>, p: Place)
    requires Declared(routes, p) && OwnerTable(routes, places, owner) && SeenTable(routes, places, seen)
    ensures IsL4(routes, p) ==> OwnerTable(routes, places + {p}, owner) && SeenTable(routes, places + {p}, seen)
    ensures IsL7(routes, p) && !Rejects(routes, owner, seen, p) ==>
              OwnerTable(routes, places + {p}, owner[RouteAt(routes, p).host := p.service.project])
              && SeenTable(routes, places + {p}, seen + {HostPathAt(routes, p)})
  {
    SeenTableGrows(routes, places, seen, p);
    if IsL7(routes, p) && !Rejects(routes, owner, seen, p) {
      OwnerTableGrows(routes, places, owner, p);
    }
    assert p in places + {p} && forall q | q in places :: q in places + {p};
  }

  /** `BuildRouter`, for any order of walking the map: it succeeds exactly on
      clash-free routes, and then yields the table they denote. */
  method BuildRouter(routes: Routes) returns (result: Option<Router>)
    ensures result.Some? <==> ClashFree(routes)
    ensures result.Some? ==> Denotes(routes, result.value)
  {
    var l7: seq<L7Route>, l4: map<L4Key, L4Route>, owner: map<string, string>, seen: set<HostPath> := [], map[], map[], {};
    var rest := routes.Keys;
    ghost var places: set<Place> := {};
    while rest != {}
      invariant rest <= routes.Keys
      invariant Walked(routes, places, rest, None, 0)
      invariant Tabulated(routes, places, l7, l4, owner, seen)
      decreases rest
    {
      var svc :| svc in rest;
      var list := routes[svc];
      for i := 0 to |list|
        invariant Walked(routes, places, rest, Some(svc), i)
        invariant Tabulated(routes, places, l7, l4, owner, seen)
      {
        ghost var p := Place(svc, i);
        var ok;
        ok, l7, l4, owner, seen := AddRoute(svc, list[i], l7, l4, owner, seen, routes, places, p);
        if !ok {
          RefusalClashes(routes, places, p);
          return None;
        }
        WalkOn(routes, places, rest, svc, i);
        places := places + {p};
      }
      rest := rest - {svc};
    }
    AllWalked(routes, places, l7, l4);
    l7 := SortTable(l7);
    result := Some(Table(l7, l4));
  }

  lemma WalkOn(routes: Routes, places: set<Place>, rest: set<ServiceID>, svc: ServiceID, i: nat)
    requires Walked(routes, places, rest, Some(svc), i)
    ensures Walked(routes, places + {Place(svc, i)}, rest, Some(svc), i + 1)
  {
  }

  lemma RefusalClashes(routes: Routes, places: set<Place>, p: Place)
    requires Unclashing(routes, places) && Declared(routes, p) && p !in places
    requires exists q | q in places :: Clash(routes, p, q)
    ensures !ClashFree(routes)
  {
    var q :| q in places && Clash(routes, p, q);
    assert Declared(routes, q) && p != q;
  }

  lemma AllWalked(routes: Routes, places: set<Place>, l7: seq<L7Route>, l4: map<L4Key, L4Route>)
    requires Walked(routes, places, {}, None, 0)
    requires Unclashing(routes, places) && L4Table(routes, places, l4) && L7Table(routes, places, l7)
    ensures ClashFree(routes)
    ensures forall p | IsL7(routes, p) :: L7At(routes, p) in l7
    ensures forall r | r in l7 :: exists p :: IsL7(routes, p) && L7At(routes, p) == r
    ensures forall p | IsL4(routes, p) :: KeyAt(routes, p) in l4 && l4[KeyAt(routes, p)] == L4At(routes, p)
    ensures forall k | k in l4 :: exists p :: IsL4(routes, p) && KeyAt(routes, p) == k
  {
    assert forall p :: Declared(routes, p) <==> p in places;
  }

  method SortTable(l7: seq<L7Route>) returns (sorted: seq<L7Route>)
    ensures Sorted(RouteLe, sorted)
    ensures forall r :: r in sorted <==> r in l7
  {
    RouteLeIsTotalPreorder();
    sorted := SortFunc(l7, RouteLe);
    assert forall r :: r in sorted <==> r in multiset(sorted);
    assert forall r :: r in l7 <==> r in multiset(l7);
  }

  // ---------- lookups ----------

  /** The declaration applies to a request. */
  predicate Applies(routes: Routes, host: string, path: string, p: Place) {
    IsL7(routes, p) && RouteAt(routes, p).host == host && MatchPath(RouteAt(routes, p).path, path)
  }

  /** The declaration applies and beats every other one that does. */
  ghost predicate Best(routes: Routes, host: string, path: string, p: Place) {
    && Applies(routes, host, path, p)
    && forall q | Applies(routes, host, path, q) && q != p :: Beats(RouteAt(routes, p).path, RouteAt(routes, q).path)
  }

  /** Of the declarations that apply, one is best: the answer does not depend
      on how the table was built. */
  lemma BestIsUnique(routes: Routes, host: string, path: string, p: Place, q: Place)
    requires Best(routes, host, path, p) && Best(routes, host, path, q)
    ensures p == q
  {
  }

  lemma SameGlobSamePlace(routes: Routes, host: string, path: string, p: Place, q: Place)
    requires ClashFree(routes) && Applies(routes, host, path, p) && Applies(routes, host, path, q)
    requires RouteAt(routes, p).path == RouteAt(routes, q).path
    ensures p == q
  {
    assert p != q ==> Clash(routes, p, q);
  }

  /** The first match of a sorted table is the best declaration. */
  lemma FirstMatchIsBest(routes: Routes, router: Router, host: string, path: string, i: nat) returns (p: Place)
    requires ClashFree(routes) && Denotes(routes, router) && i < |router.l7|
    requires router.l7[i].host == host && MatchPath(router.l7[i].glob, path)
    requires forall j | 0 <= j < i :: router.l7[j].host != host || !MatchPath(router.l7[j].glob, path)
    ensures Best(routes, host, path, p) && L7At(routes, p) == router.l7[i]
  {
    var r := router.l7[i];
    assert r in router.l7;
    p :| IsL7(routes, p) && L7At(routes, p) == r;
    forall q | Applies(routes, host, path, q) && q != p ensures Beats(r.glob, RouteAt(routes, q).path) {
      var t := L7At(routes, q);
      assert t in router.l7;
      var j :| 0 <= j < |router.l7| && router.l7[j] == t;
      assert j >= i;
      if j == i || r.glob == t.glob { SameGlobSamePlace(routes, host, path, p, q); }
      MatchesAreRanked(r.glob, t.glob, path);
      assert RouteLe(router.l7[i], router.l7[j]);
    }
  }

  /** `LookupL7`: the best of the declared routes for host and path, or nothing
      if none applies. */
  method LookupL7(router: Router, host: string, path: string, ghost routes: Routes) returns (answer: Option<(ServiceID, string)>)
    requires router.Table? ==> ClashFree(routes) && Denotes(routes, router)
    ensures router.NoRouter? ==> answer.None?
    ensures router.Table? && answer.None? ==> forall p :: !Applies(routes, host, path, p)
    ensures router.Table? && answer.Some? ==>
              exists p :: Best(routes, host, path, p) && answer.value == (p.service, RouteAt(routes, p).lb)
  {
    if router.NoRouter? { return None; }
    for i := 0 to |router.l7|
      invariant forall j | 0 <= j < i :: router.l7[j].host != host || !MatchPath(router.l7[j].glob, path)
    {
      var rt := router.l7[i];
      if rt.host != host { continue; }
      if MatchPath(rt.glob, path) {
        ghost var p := FirstMatchIsBest(routes, router, host, path, i);
        return Some((rt.service, rt.lb));
      }
    }
    forall p ensures !Applies(routes, host, path, p) {
      assert IsL7(routes, p) ==> L7At(routes, p) in router.l7;
    }
    return None;
  }

  /** `LookupL4`: the declaration under that key, or nothing if there is none. */
  method LookupL4(router: Router, proto: string, port: int, ghost routes: Routes) returns (answer: Option<(ServiceID, string)>)
    requires router.Table? ==> Denotes(routes, router)
    ensures router.NoRouter? ==> answer.None?
    ensures router.Table? && answer.None? ==> forall p :: IsL4(routes, p) ==> KeyAt(routes, p) != L4Key(proto, port)
    ensures router.Table? && answer.Some? ==>
              exists p :: IsL4(routes, p) && KeyAt(routes, p) == L4Key(proto, port)
                          && answer.value == (p.service, RouteAt(routes, p).lb)
  {
    if router.NoRouter? { return None; }
    var key := L4Key(proto, port);
    if key !in router.l4 { return None; }
    var rt := router.l4[key];
    return Some((rt.service, rt.lb));
  }
}
