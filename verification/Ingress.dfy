/** The ingress controller's reaction to a new route table
    (internal/ingress/certmagic_ingress.go): the router is swapped, the hosts
    allowed for certificates are replaced and the L4 forwarders follow. */
module Ingress {
  import opened Domain
  import opened Routing

  /** A listener for one L4 key; how often it was stopped is counted. */
  class Forwarder {
    const key: L4Key
    const service: ServiceID
    const lb: string
    var stops: nat

    constructor (key: L4Key, service: ServiceID, lb: string)
      ensures this.key == key && this.service == service && this.lb == lb && stops == 0
    {
      this.key, this.service, this.lb, stops := key, service, lb, 0;
    }

    method Stop()
      modifies this
      ensures stops == old(stops) + 1
    {
      stops := stops + 1;
    }
  }

  /** The declaration gets a forwarder: an L4 route with a positive port. */
  predicate Forwards(routes: Routes, p: Place) {
    IsL4(routes, p) && RouteAt(routes, p).port > 0
  }

  /** The keys that need a forwarder. */
  ghost predicate WantsKey(routes: Routes, k: L4Key) {
    exists p :: Forwards(routes, p) && KeyAt(routes, p) == k
  }

  /** What a forwarder hands its connections to. */
  datatype Binding = Binding(service: ServiceID, lb: string)

  function Places(routes: Routes): set<Place> {
    set svc, i | svc in routes && 0 <= i < |routes[svc]| :: Place(svc, i)
  }

  function BindingAt(routes: Routes, p: Place): Binding
    requires Declared(routes, p)
  {
    Binding(p.service, RouteAt(routes, p).lb)
  }

  lemma OneDeclaration(routes: Routes, p: Place, q: Place)
    requires ClashFree(routes) && Forwards(routes, p) && Forwards(routes, q) && KeyAt(routes, p) == KeyAt(routes, q)
    ensures p == q
  {
    assert p != q ==> !Clash(routes, p, q);
  }

  function Keys(routes: Routes): (ks: set<L4Key>)
    ensures forall k :: k in ks <==> WantsKey(routes, k)
  {
    assert forall p | Forwards(routes, p) :: p == Place(p.service, p.index) && p in Places(routes);
    set p | p in Places(routes) && Forwards(routes, p) :: KeyAt(routes, p)
  }

  ghost function DeclarationOf(routes: Routes, k: L4Key): (p: Place)
    requires WantsKey(routes, k)
    ensures Forwards(routes, p) && KeyAt(routes, p) == k
  {
    var p :| Forwards(routes, p) && KeyAt(routes, p) == k;
    p
  }

  /** The forwarders that the routes declare. */
  ghost function Bindings(routes: Routes): (m: map<L4Key, Binding>)
    requires ClashFree(routes)
    ensures forall k :: k in m <==> WantsKey(routes, k)
    ensures forall p | Forwards(routes, p) :: KeyAt(routes, p) in m && m[KeyAt(routes, p)] == BindingAt(routes, p)
  {
    var m := map k | k in Keys(routes) :: BindingAt(routes, DeclarationOf(routes, k));
    assert forall p | Forwards(routes, p) :: KeyAt(routes, p) in m && DeclarationOf(routes, KeyAt(routes, p)) == p by {
      forall p | Forwards(routes, p) ensures KeyAt(routes, p) in m && DeclarationOf(routes, KeyAt(routes, p)) == p {
        OneDeclaration(routes, p, DeclarationOf(routes, KeyAt(routes, p)));
      }
    }
    m
  }

  /** Declared keys that are bound keep their binding; once the controller
      runs the other declared keys get theirs. */
  function Merge(bound: map<L4Key, Binding>, declared: map<L4Key, Binding>, started: bool): map<L4Key, Binding> {
    map k | k in declared && (k in bound || started) :: if k in bound then bound[k] else declared[k]
  }

  function BoundOf(l4: map<L4Key, Forwarder>): map<L4Key, Binding> {
    map k | k in l4 :: Binding(l4[k].service, l4[k].lb)
  }

  /** What an update makes of the bindings; refused routes change nothing. */
  ghost function Follow(bound: map<L4Key, Binding>, routes: Routes, started: bool): map<L4Key, Binding> {
    if ClashFree(routes) then Merge(bound, Bindings(routes), started) else bound
  }

  /** The hosts of the L7 routes. */
  ghost predicate WantsHost(routes: Routes, host: string) {
    host != "" && exists p :: IsL7(routes, p) && RouteAt(routes, p).host == host
  }

  class CertMagicIngress {
    var router: Router
    var allowedHost: set<string>
    var started: bool               // Run has set the forwarders' context
    var l4: map<L4Key, Forwarder>

    /** Every forwarder listens on the key it is filed under. */
    ghost predicate Valid()
      reads this, l4.Values
    {
      forall k | k in l4 :: l4[k].key == k
    }

    ghost function Bound(): map<L4Key, Binding>
      reads this
    {
      BoundOf(l4)
    }

    constructor ()
      ensures Valid() && l4 == map[] && !started && allowedHost == {} && router == Table([], map[])
    {
      router, allowedHost, started, l4 := Table([], map[]), {}, false, map[];
    }

    /** `Run`, as far as it concerns the forwarders: their context is set. */
    method Start()
      requires Valid()
      modifies this`started
      ensures Valid() && started
    {
      started := true;
    }

    /** The hosts and the L4 declarations of the routes. */
    method Collect(routes: Routes) returns (hosts: set<string>, desired: map<L4Key, L4Route>)
      requires ClashFree(routes)
      ensures forall h :: h in hosts <==> WantsHost(routes, h)
      ensures forall k :: k in desired <==> WantsKey(routes, k)
      ensures forall p | Forwards(routes, p) :: KeyAt(routes, p) in desired && desired[KeyAt(routes, p)] == L4At(routes, p)
    {
      hosts, desired := {}, map[];
      var rest := routes.Keys;
      ghost var places: set<Place> := {};
      while rest != {}
        invariant rest <= routes.Keys && Walked(routes, places, rest, None, 0)
        invariant Collected(routes, places, hosts, desired)
        decreases rest
      {
        var svc :| svc in rest;
        var list := routes[svc];
        for i := 0 to |list|
          invariant Walked(routes, places, rest, Some(svc), i)
          invariant Collected(routes, places, hosts, desired)
        {
          var route := list[i];
          ghost var p := Place(svc, i);
          CollectOne(routes, places, hosts, desired, p);
          if route.l4 == "" && route.host != "" {
            hosts := hosts + {route.host};
          } else if route.l4 != "" && route.port > 0 {
            desired := desired[L4Key(route.l4, route.port) := L4Route(svc.project, svc, route.lb)];
          }
          WalkOn(routes, places, rest, svc, i);
          places := places + {p};
        }
        rest := rest - {svc};
      }
      assert forall p :: Declared(routes, p) ==> p in places;
    }

    /** Stops, once each, the forwarders whose keys are not desired any more. */
    method StopGone(desired: set<L4Key>)
      requires Valid()
      modifies this`l4, l4.Values
      ensures Valid()
      ensures forall k :: k in l4 <==> k in old(l4) && k in desired
      ensures forall k | k in l4 :: l4[k] == old(l4)[k]
      ensures forall k | k in old(l4) :: old(l4)[k].stops == old(l4[k].stops) + if k in desired then 0 else 1
    {
      ghost var was := l4;
      var rest := l4.Keys;
      while rest != {}
        invariant rest <= was.Keys
        invariant forall k :: k in l4 <==> k in was && (k in rest || k in desired)
        invariant forall k | k in l4 :: l4[k] == was[k]
        invariant forall k | k in was :: was[k].stops == old(was[k].stops) + if k in rest || k in desired then 0 else 1
        decreases rest
      {
        var key :| key in rest;
        rest := rest - {key};
        if key !in desired {
          l4[key].Stop();
          l4 := l4 - {key};
        }
      }
    }

    /** Starts a forwarder for every desired key that has none. */
    method StartNew(desired: map<L4Key, L4Route>)
      requires Valid() && started
      modifies this`l4
      ensures Valid()
      ensures l4.Keys == old(l4).Keys + desired.Keys
      ensures forall k | k in old(l4) :: l4[k] == old(l4)[k]
      ensures forall k | k in l4 && k !in old(l4) ::
                fresh(l4[k]) && l4[k].service == desired[k].service && l4[k].lb == desired[k].lb && l4[k].stops == 0
    {
      var rest := desired.Keys;
      while rest != {}
        invariant Valid() && rest <= desired.Keys
        invariant l4.Keys == old(l4).Keys + (desired.Keys - rest)
        invariant forall k | k in old(l4) :: l4[k] == old(l4)[k]
        invariant forall k | k in l4 && k !in old(l4) ::
                    fresh(l4[k]) && l4[k].service == desired[k].service && l4[k].lb == desired[k].lb && l4[k].stops == 0
        decreases rest
      {
        var key :| key in rest;
        rest := rest - {key};
        if key in l4 { continue; }
        var fwd := new Forwarder(key, desired[key].service, desired[key].lb);
        l4 := l4[key := fwd];
      }
    }

    /** `UpdateRoutes`: refused exactly when two routes clash, and then nothing
        changes. Otherwise the new table is served and, once the controller
        runs, the forwarders are exactly those the table asks for: kept ones
        are the same objects with their old binding, dropped ones were stopped
        once, new ones are bound as declared. */
    method UpdateRoutes(routes: Routes) returns (ok: bool)
      requires Valid()
      modifies this, l4.Values
      ensures Valid() && started == old(started)
      ensures ok <==> ClashFree(routes)
      ensures !ok ==> router == old(router) && allowedHost == old(allowedHost) && l4 == old(l4)
                      && forall k | k in old(l4) :: old(l4)[k].stops == old(l4[k].stops)
      ensures ok ==> Denotes(routes, router) && forall h :: h in allowedHost <==> WantsHost(routes, h)
      ensures ok ==> forall k :: k in l4 <==> WantsKey(routes, k) && (started || k in old(l4))
      ensures ok ==> forall k | k in old(l4) ::
                && (k in l4 ==> l4[k] == old(l4)[k])
                && old(l4)[k].stops == old(l4[k].stops) + if k in l4 then 0 else 1
      ensures ok ==> forall k | k in l4 && k !in old(l4) :: fresh(l4[k])
      ensures Bound() == Follow(old(Bound()), routes, started)
    {
      var built := BuildRouter(routes);
      if built.None? { return false; }
      router := built.value;
      Reforward(routes);
      return true;
    }

    /** The hosts and forwarders of an accepted update. */
    method Reforward(routes: Routes)
      requires Valid() && ClashFree(routes)
      modifies this`allowedHost, this`l4, l4.Values
      ensures Valid()
      ensures forall h :: h in allowedHost <==> WantsHost(routes, h)
      ensures forall k :: k in l4 <==> WantsKey(routes, k) && (started || k in old(l4))
      ensures forall k | k in old(l4) ::
                && (k in l4 ==> l4[k] == old(l4)[k])
                && old(l4)[k].stops == old(l4[k].stops) + if k in l4 then 0 else 1
      ensures forall k | k in l4 && k !in old(l4) :: fresh(l4[k])
      ensures Bound() == Follow(old(Bound()), routes, started)
    {
      ghost var was := l4;
      var hosts, desired := Collect(routes);
      allowedHost := hosts;
      StopGone(desired.Keys);
      if started { StartNew(desired); }
      Merged(was, l4, desired, started);
      Followed(was, l4, routes, desired, started);
    }
  }

  function Declaration(desired: map<L4Key, L4Route>): map<L4Key, Binding> {
    map k | k in desired :: Binding(desired[k].service, desired[k].lb)
  }

  /** What was collected from the routes is what they declare. */
  lemma CollectedBindings(routes: Routes, desired: map<L4Key, L4Route>)
    requires ClashFree(routes)
    requires forall k :: k in desired <==> WantsKey(routes, k)
    requires forall p | Forwards(routes, p) :: KeyAt(routes, p) in desired && desired[KeyAt(routes, p)] == L4At(routes, p)
    ensures Declaration(desired) == Bindings(routes)
  {
    var d := Bindings(routes);
    assert d.Keys == desired.Keys;
    forall k | k in desired ensures d[k] == Declaration(desired)[k] {
      var p := DeclarationOf(routes, k);
      assert d[KeyAt(routes, p)] == BindingAt(routes, p);
    }
  }

  /** What the two passes over the forwarders make of the bindings. */
  lemma Merged(was: map<L4Key, Forwarder>, now: map<L4Key, Forwarder>, desired: map<L4Key, L4Route>, started: bool)
    requires forall k :: k in now <==> k in desired && (k in was || started)
    requires forall k | k in now && k in was :: now[k] == was[k]
    requires forall k | k in now && k !in was :: now[k].service == desired[k].service && now[k].lb == desired[k].lb
    ensures BoundOf(now) == Merge(BoundOf(was), Declaration(desired), started)
  {
  }

  lemma Followed(was: map<L4Key, Forwarder>, now: map<L4Key, Forwarder>, routes: Routes, desired: map<L4Key, L4Route>, started: bool)
    requires ClashFree(routes)
    requires forall k :: k in desired <==> WantsKey(routes, k)
    requires forall p | Forwards(routes, p) :: KeyAt(routes, p) in desired && desired[KeyAt(routes, p)] == L4At(routes, p)
    requires BoundOf(now) == Merge(BoundOf(was), Declaration(desired), started)
    ensures BoundOf(now) == Follow(BoundOf(was), routes, started)
  {
    CollectedBindings(routes, desired);
  }

  // ---------- bindings over a run ----------

  /** Exactly when an accepted update leaves every forwarder bound as declared:
      when the keys that are kept were already bound as the new routes say. */
  lemma BoundAsDeclared(bound: map<L4Key, Binding>, routes: Routes)
    requires ClashFree(routes)
    ensures Follow(bound, routes, true) == Bindings(routes)
            <==> forall k | k in bound && k in Bindings(routes) :: bound[k] == Bindings(routes)[k]
  {
    var now, d := Follow(bound, routes, true), Bindings(routes);
    if now == d {
      forall k | k in bound && k in d ensures bound[k] == d[k] { assert now[k] == bound[k]; }
    }
  }

  /** The bindings after a run of updates of a running controller. */
  ghost function Serving(updates: seq<Routes>): map<L4Key, Binding> {
    if updates == [] then map[] else Follow(Serving(updates[..|updates| - 1]), updates[|updates| - 1], true)
  }

  /** The last accepted update declares the key. */
  ghost predicate Declares(updates: seq<Routes>, k: L4Key) {
    if updates == [] then false
    else if ClashFree(updates[|updates| - 1]) then WantsKey(updates[|updates| - 1], k)
    else Declares(updates[..|updates| - 1], k)
  }

  /** The key was last taken up by update `j`: not declared before it, declared
      by it and by every accepted update since. */
  ghost predicate AppearedAt(updates: seq<Routes>, k: L4Key, j: nat) {
    && j < |updates| && ClashFree(updates[j]) && WantsKey(updates[j], k) && !Declares(updates[..j], k)
    && forall i | j < i < |updates| && ClashFree(updates[i]) :: WantsKey(updates[i], k)
  }

  lemma {:induction false} ServingKeys(updates: seq<Routes>, k: L4Key)
    ensures k in Serving(updates) <==> Declares(updates, k)
  {
    if updates != [] { ServingKeys(updates[..|updates| - 1], k); }
  }

  lemma {:induction false} Appeared(updates: seq<Routes>, k: L4Key) returns (j: nat)
    requires Declares(updates, k)
    ensures AppearedAt(updates, k, j)
  {
    var n := |updates| - 1;
    if Declares(updates[..n], k) {
      j := Appeared(updates[..n], k);
      assert updates[..n][..j] == updates[..j];
      assert forall i | 0 <= i < n :: updates[..n][i] == updates[i];
    } else {
      j := n;
    }
  }

  lemma AppearedBefore(updates: seq<Routes>, k: L4Key, j: nat)
    requires AppearedAt(updates, k, j) && j < |updates| - 1
    ensures AppearedAt(updates[..|updates| - 1], k, j)
  {
    assert updates[..|updates| - 1][..j] == updates[..j];
  }

  lemma DeclaredLast(updates: seq<Routes>, k: L4Key, j: nat)
    requires AppearedAt(updates, k, j)
    ensures ClashFree(updates[|updates| - 1]) ==> WantsKey(updates[|updates| - 1], k)
  {
  }

  lemma KeepsBinding(bound: map<L4Key, Binding>, routes: Routes, k: L4Key)
    requires k in bound && (ClashFree(routes) ==> WantsKey(routes, k))
    ensures k in Follow(bound, routes, true) && Follow(bound, routes, true)[k] == bound[k]
  {
  }

  lemma TakesBinding(bound: map<L4Key, Binding>, routes: Routes, k: L4Key)
    requires k !in bound && ClashFree(routes) && WantsKey(routes, k)
    ensures k in Follow(bound, routes, true) && Follow(bound, routes, true)[k] == Bindings(routes)[k]
  {
  }

  lemma BoundLast(updates: seq<Routes>, k: L4Key)
    requires updates != [] && ClashFree(updates[|updates| - 1]) && WantsKey(updates[|updates| - 1], k)
    requires !Declares(updates[..|updates| - 1], k)
    ensures k in Serving(updates) && Serving(updates)[k] == Bindings(updates[|updates| - 1])[k]
  {
    var n := |updates| - 1;
    ServingKeys(updates[..n], k);
    TakesBinding(Serving(updates[..n]), updates[n], k);
  }

  lemma BoundOn(updates: seq<Routes>, k: L4Key)
    requires updates != [] && k in Serving(updates[..|updates| - 1])
    requires ClashFree(updates[|updates| - 1]) ==> WantsKey(updates[|updates| - 1], k)
    ensures k in Serving(updates) && Serving(updates)[k] == Serving(updates[..|updates| - 1])[k]
  {
    KeepsBinding(Serving(updates[..|updates| - 1]), updates[|updates| - 1], k);
  }

  lemma {:induction false} BoundSince(updates: seq<Routes>, k: L4Key, j: nat)
    requires AppearedAt(updates, k, j)
    ensures k in Serving(updates) && Serving(updates)[k] == Bindings(updates[j])[k]
  {
    var n := |updates| - 1;
    if j < n {
      AppearedBefore(updates, k, j);
      BoundSince(updates[..n], k, j);
      assert updates[..n][j] == updates[j];
      DeclaredLast(updates, k, j);
      BoundOn(updates, k);
    } else {
      BoundLast(updates, k);
    }
  }

  lemma {:induction false} StaysDeclared(updates: seq<Routes>, k: L4Key, i: nat, m: nat)
    requires i < m <= |updates| && ClashFree(updates[i]) && WantsKey(updates[i], k)
    requires forall x | i < x < m && ClashFree(updates[x]) :: WantsKey(updates[x], k)
    ensures Declares(updates[..m], k)
    decreases m
  {
    assert updates[..m][..m - 1] == updates[..m - 1];
    if i < m - 1 { StaysDeclared(updates, k, i, m - 1); }
  }

  /** Over any run of updates, refused ones included, exactly the keys of the
      last accepted table are bound (`ServingKeys`), each as declared by the
      one update at which it last appeared. */
  lemma ServedSinceAppearance(updates: seq<Routes>, k: L4Key) returns (j: nat)
    requires Declares(updates, k)
    ensures AppearedAt(updates, k, j) && forall i: nat :: AppearedAt(updates, k, i) ==> i == j
    ensures k in Serving(updates) && Serving(updates)[k] == Bindings(updates[j])[k]
  {
    j := Appeared(updates, k);
    BoundSince(updates, k, j);
    forall i: nat | AppearedAt(updates, k, i) ensures i == j {
      if i < j { StaysDeclared(updates, k, i, j); }
      if j < i { StaysDeclared(updates, k, j, i); }
    }
  }

  /** A key that changes hands while it is declared keeps its first binding:
      two accepted updates after which the forwarder serves no declared route. */
  lemma StaleBinding(a: ServiceID, b: ServiceID, r: Route)
    requires a != b && r.l4 != "" && r.port > 0
    ensures var first, second, k := map[a := [r]], map[b := [r]], L4Key(r.l4, r.port);
            && ClashFree(first) && ClashFree(second)
            && k in Serving([first, second]) && Serving([first, second])[k] == Binding(a, r.lb)
            && WantsKey(second, k) && Bindings(second)[k] == Binding(b, r.lb)
  {
    var first: Routes, second: Routes, k := map[a := [r]], map[b := [r]], L4Key(r.l4, r.port);
    assert Forwards(first, Place(a, 0)) && KeyAt(first, Place(a, 0)) == k;
    assert Forwards(second, Place(b, 0)) && KeyAt(second, Place(b, 0)) == k;
    assert Bindings(first)[k] == BindingAt(first, Place(a, 0));
    assert Bindings(second)[k] == BindingAt(second, Place(b, 0));
    var updates := [first, second];
    assert updates[..1] == [first] && updates[..0] == [];
    assert AppearedAt(updates, k, 0);
    BoundSince(updates, k, 0);
  }

  /** Once running, after an accepted update the forwarders' keys are the
      router's L4 keys with a positive port. */
  lemma ForwardersTrackTable(routes: Routes, router: Router, keys: set<L4Key>)
    requires Denotes(routes, router) && forall k :: k in keys <==> WantsKey(routes, k)
    ensures keys == set k | k in router.l4 && k.port > 0
  {
    forall k ensures k in keys <==> k in router.l4 && k.port > 0 {
      if k in router.l4 {
        var p :| IsL4(routes, p) && KeyAt(routes, p) == k;
        assert k.port > 0 ==> Forwards(routes, p);
      }
      if k in keys {
        var p :| Forwards(routes, p) && KeyAt(routes, p) == k;
      }
    }
  }

  /** What has been collected from the declarations at `places`. */
  ghost predicate HostsCollected(routes: Routes, places: set<Place>, hosts: set<string>) {
    && (forall p | p in places && IsL7(routes, p) && RouteAt(routes, p).host != "" :: RouteAt(routes, p).host in hosts)
    && (forall h | h in hosts :: h != "" && exists p | p in places :: IsL7(routes, p) && RouteAt(routes, p).host == h)
  }

  ghost predicate KeysCollected(routes: Routes, places: set<Place>, desired: map<L4Key, L4Route>) {
    && (forall p | p in places && Forwards(routes, p) :: KeyAt(routes, p) in desired && desired[KeyAt(routes, p)] == L4At(routes, p))
    && (forall k | k in desired :: exists p | p in places :: Forwards(routes, p) && KeyAt(routes, p) == k)
  }

  ghost predicate Collected(routes: Routes, places: set<Place>, hosts: set<string>, desired: map<L4Key, L4Route>) {
    && (forall p | p in places :: Declared(routes, p))
    && HostsCollected(routes, places, hosts) && KeysCollected(routes, places, desired)
  }

  lemma CollectHost(routes: Routes, places: set<Place>, hosts: set<string>, p: Place)
    requires HostsCollected(routes, places, hosts) && Declared(routes, p)
    ensures var r := RouteAt(routes, p);
            HostsCollected(routes, places + {p}, if r.l4 == "" && r.host != "" then hosts + {r.host} else hosts)
  {
    assert p in places + {p} && forall q | q in places :: q in places + {p};
  }

  lemma CollectKey(routes: Routes, places: set<Place>, desired: map<L4Key, L4Route>, p: Place)
    requires KeysCollected(routes, places, desired) && Declared(routes, p)
    requires Forwards(routes, p) ==> forall q | q in places && Forwards(routes, q) :: KeyAt(routes, q) != KeyAt(routes, p)
    ensures KeysCollected(routes, places + {p}, if Forwards(routes, p) then desired[KeyAt(routes, p) := L4At(routes, p)] else desired)
  {
    assert p in places + {p} && forall q | q in places :: q in places + {p};
  }

  lemma CollectOne(routes: Routes, places: set<Place>, hosts: set<string>, desired: map<L4Key, L4Route>, p: Place)
    requires ClashFree(routes) && Collected(routes, places, hosts, desired) && Declared(routes, p) && p !in places
    ensures var r := RouteAt(routes, p);
            Collected(routes, places + {p},
                      if r.l4 == "" && r.host != "" then hosts + {r.host} else hosts,
                      if r.l4 != "" && r.port > 0 then desired[KeyAt(routes, p) := L4At(routes, p)] else desired)
  {
    forall q | q in places && Forwards(routes, q) && Forwards(routes, p) ensures KeyAt(routes, q) != KeyAt(routes, p) {
      if KeyAt(routes, q) == KeyAt(routes, p) { OneDeclaration(routes, p, q); }
    }
    CollectHost(routes, places, hosts, p);
    CollectKey(routes, places, desired, p);
  }
}
