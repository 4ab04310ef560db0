/** The specification hash of internal/hash: which task definitions it tells
    apart. SHA-256 is a parameter; results that need it to be injective say
    so for the two texts compared. */
module Hashing {
  import opened Arithmetic
  import opened Domain
  import opened Json

  // ---------- numbers pass through float64 ----------

  const TWO_53: int := 0x20_0000_0000_0000

  /** The distance between neighbouring float64 values around `m`. */
  function Ulp(m: nat): (u: nat)
    ensures u >= 1 && (m < TWO_53 ==> u == 1)
  {
    if m < TWO_53 then 1 else 2 * Ulp(m / 2)
  }

  function RoundHalfEven(m: nat, u: nat): nat
    requires u >= 1
  {
    var q, r := m / u, m % u;
    if 2 * r < u || (2 * r == u && q % 2 == 0) then q * u else (q + 1) * u
  }

  /** An integer after decoding into float64: the nearest representable value. */
  function Float64(n: int): int {
    if n < 0 then -(RoundHalfEven(-n, Ulp(-n)) as int) else RoundHalfEven(n, Ulp(n))
  }

  lemma RoundExact(m: nat)
    requires m <= TWO_53
    ensures RoundHalfEven(m, Ulp(m)) == m
  {
    if m == TWO_53 {
      assert Ulp(m / 2) == 1;
    }
  }

  lemma Float64Exact(n: int)
    requires -TWO_53 <= n <= TWO_53
    ensures Float64(n) == n
  {
    RoundExact(if n < 0 then -n else n);
  }

  function Rounded(m: nat): nat {
    RoundHalfEven(m, Ulp(m))
  }

  predicate PowerOfTwo(u: nat) {
    u == 1 || (u > 1 && u % 2 == 0 && PowerOfTwo(u / 2))
  }

  lemma HalfQuotient(m: nat, u: nat)
    requires u >= 1
    ensures m / (2 * u) == m / 2 / u
  {
    var q, r := m / 2 / u, m / 2 % u;
    assert m / 2 == q * u + r;
    assert m == q * (2 * u) + (2 * r + m % 2);
    ModUnique(m, q, 2 * r + m % 2, 2 * u);
  }

  /** Above 2^53 a float64 has exactly 53 significant bits. */
  lemma {:induction false} UlpRange(m: nat)
    ensures PowerOfTwo(Ulp(m)) && m / Ulp(m) < TWO_53 && (m >= TWO_53 ==> m / Ulp(m) >= TWO_53 / 2)
  {
    if m >= TWO_53 {
      var u := Ulp(m / 2);
      UlpRange(m / 2);
      HalfQuotient(m, u);
      assert Ulp(m) == 2 * u && 2 * u / 2 == u;
    }
  }

  lemma {:induction false} UlpAt(k: nat, u: nat)
    requires TWO_53 / 2 <= k < TWO_53 && PowerOfTwo(u)
    ensures Ulp(k * u) == u
  {
    if u > 1 {
      UlpAt(k, u / 2);
      assert k * u == 2 * (k * (u / 2));
      NoSmallMultiple(k, u);
      assert k * u >= TWO_53;
    }
  }

  lemma MultipleExact(k: nat, u: nat)
    requires u >= 1
    ensures RoundHalfEven(k * u, u) == k * u
  {
    ModUnique(k * u, k, 0, u);
  }

  /** 53-bit multiples of a power of two are represented exactly. */
  lemma MultipleBelow(k: nat, u: nat)
    requires TWO_53 / 2 <= k < TWO_53 && PowerOfTwo(u)
    ensures Rounded(k * u) == k * u
  {
    UlpAt(k, u);
    MultipleExact(k, u);
  }

  /** So is the next power of two. */
  lemma MultipleTop(u: nat)
    requires PowerOfTwo(u)
    ensures Rounded(TWO_53 * u) == TWO_53 * u
  {
    var v := 2 * u;
    assert v / 2 == u && v % 2 == 0;
    MultipleBelow(TWO_53 / 2, v);
    assert TWO_53 / 2 * v == TWO_53 * u;
  }

  lemma RoundsToMultiple(m: nat, u: nat) returns (k: nat)
    requires u >= 1
    ensures RoundHalfEven(m, u) == k * u && m / u <= k <= m / u + 1
  {
    k := if 2 * (m % u) < u || (2 * (m % u) == u && m / u % 2 == 0) then m / u else m / u + 1;
  }

  /** A float64 value is represented exactly. */
  lemma RoundedTwice(m: nat)
    ensures Rounded(Rounded(m)) == Rounded(m)
  {
    if m < TWO_53 {
      RoundExact(m);
    } else {
      UlpRange(m);
      var u := Ulp(m);
      var k := RoundsToMultiple(m, u);
      if k < TWO_53 { MultipleBelow(k, u); } else { MultipleTop(u); }
    }
  }

  lemma RoundedLarge(m: nat)
    requires m >= TWO_53
    ensures Rounded(m) >= TWO_53
  {
    var u := Ulp(m);
    UlpRange(m);
    assert u == 2 * Ulp(m / 2);
    assert m / u * u >= TWO_53 / 2 * u >= TWO_53 by {
      MulLe(TWO_53 / 2, m / u, u);
      MulLe(2, u, TWO_53 / 2);
    }
  }

  lemma MulLe(a: nat, b: nat, c: nat)
    requires a <= b
    ensures a * c <= b * c && c * a <= c * b
  {
    assert b * c == a * c + (b - a) * c;
  }

  function Pow10(p: nat): (r: nat)
    ensures r >= 1
  {
    if p == 0 then 1 else 10 * Pow10(p - 1)
  }

  lemma ModLe(v: nat, t: nat)
    requires t >= 1
    ensures v % t <= v
  {
    if v < t { ModUnique(v, 0, v, t); }
  }

  /** The shortest decimal that decodes to the float64 value `v`, the nearest
      if there are two: as few digits as possible, then zeros. */
  function Shortest(v: nat, p: nat): nat {
    ModLe(v, Pow10(p));
    var lo := v - v % Pow10(p);
    var hi := lo + Pow10(p);
    if Rounded(lo) == v && (Rounded(hi) != v || v - lo <= hi - v) then lo
    else if Rounded(hi) == v then hi
    else if p == 0 then v
    else Shortest(v, p - 1)
  }

  lemma {:induction false} ShortestDecodes(v: nat, p: nat)
    requires Rounded(v) == v
    ensures Rounded(Shortest(v, p)) == v
  {
    if p > 0 { ShortestDecodes(v, p - 1); }
  }

  /** The integer whose digits are printed: 19 covers every 64-bit integer. */
  function Printed(n: int): int {
    if n < 0 then -(Shortest(Rounded(-n), 19) as int) else Shortest(Rounded(n), 19)
  }

  lemma PrintedDecodes(n: int)
    ensures Float64(Printed(n)) == Float64(n)
  {
    var m: nat := if n < 0 then -n else n;
    RoundedTwice(m);
    ShortestDecodes(Rounded(m), 19);
    RoundExact(0);
  }

  /** Two integers print alike if and only if they decode to one float64. */
  lemma PrintedSame(m: int, n: int)
    ensures Printed(m) == Printed(n) <==> Float64(m) == Float64(n)
  {
    PrintedDecodes(m);
    PrintedDecodes(n);
    Float64Sign(m);
    Float64Sign(n);
  }

  /** Integers below 2^53 are printed as they are. */
  lemma PrintedExact(n: int)
    requires -TWO_53 < n < TWO_53
    ensures Printed(n) == n
  {
    var m: nat := if n < 0 then -n else n;
    RoundExact(m);
    ShortestDecodes(m, 19);
    var s := Shortest(m, 19);
    if s < TWO_53 { RoundExact(s); } else { RoundedLarge(s); }
  }

  lemma UlpFits(m: nat)
    ensures m == 0 || Ulp(m) <= m
  {
    if m >= TWO_53 { UlpFits(m / 2); }
  }

  lemma RoundPositive(m: nat, u: nat)
    requires 1 <= u <= m
    ensures RoundHalfEven(m, u) > 0
  {
    assert m == m / u * u + m % u;
    assert m / u >= 1;
    assert m / u * u >= u;
  }

  lemma Float64Sign(n: int)
    ensures Float64(n) == 0 <==> n == 0
    ensures Float64(n) < 0 <==> n < 0
  {
    if n == 0 {
      RoundExact(0);
    } else {
      var m: nat := if n < 0 then -n else n;
      UlpFits(m);
      RoundPositive(m, Ulp(m));
    }
  }

  // ---------- objects with optional fields ----------

  ghost predicate Distinct(keys: seq<string>) {
    forall i, j | 0 <= i < j < |keys| :: keys[i] != keys[j]
  }

  /** The JSON object of a struct: `keys` are its tags, `None` is an omitted field. */
  function Object(keys: seq<string>, vals: seq<Option<Json>>): map<string, Json>
    requires Distinct(keys) && |vals| == |keys|
  {
    map i | 0 <= i < |keys| && vals[i].Some? :: keys[i] := vals[i].value
  }

  lemma ObjectInjective(keys: seq<string>, va: seq<Option<Json>>, vb: seq<Option<Json>>)
    requires Distinct(keys) && |va| == |vb| == |keys|
    requires Object(keys, va) == Object(keys, vb)
    ensures va == vb
  {
    var a, b := Object(keys, va), Object(keys, vb);
    forall i | 0 <= i < |keys| ensures va[i] == vb[i] {
      assert va[i].Some? <==> keys[i] in a;
      assert vb[i].Some? <==> keys[i] in b;
      assert va[i].Some? ==> a[keys[i]] == va[i].value && b[keys[i]] == vb[i].value;
    }
  }

  /** Values of fields tagged `omitempty`, by Go type. */
  function NonEmpty(s: string): Option<Json> {
    if s == "" then None else Some(Str(s))
  }

  function Number(n: int): Json {
    Num(Printed(n))
  }

  function NonZero(n: int): Option<Json> {
    if n == 0 then None else Some(Number(n))
  }

  function IfTrue(b: bool): Option<Json> {
    if b then Some(Bool(true)) else None
  }

  function Pointer(b: Option<bool>): Option<Json> {
    if b.None? then None else Some(Bool(b.value))
  }

  function List<T>(xs: seq<T>, f: T -> Json): Option<Json> {
    if xs == [] then None else Some(Arr(Mapped(xs, f)))
  }

  function Mapped<T>(xs: seq<T>, f: T -> Json): (js: seq<Json>)
    ensures |js| == |xs| && forall i | 0 <= i < |xs| :: js[i] == f(xs[i])
  {
    seq(|xs|, i requires 0 <= i < |xs| => f(xs[i]))
  }

  function StringMap(m: map<string, string>): Option<Json> {
    if m == map[] then None else Some(Obj(map k | k in m :: Str(m[k])))
  }

  /** Two integers that decode to the same float64. */
  predicate SameNumber(m: int, n: int) {
    Float64(m) == Float64(n)
  }

  lemma NumberSame(m: int, n: int)
    ensures Number(m) == Number(n) <==> SameNumber(m, n)
  {
    PrintedSame(m, n);
  }

  lemma NonZeroSame(m: int, n: int)
    ensures NonZero(m) == NonZero(n) <==> SameNumber(m, n)
  {
    Float64Sign(m);
    Float64Sign(n);
    NumberSame(m, n);
  }

  lemma ListSame<T>(xs: seq<T>, ys: seq<T>, f: T -> Json)
    ensures List(xs, f) == List(ys, f) <==> |xs| == |ys| && forall i | 0 <= i < |xs| :: f(xs[i]) == f(ys[i])
  {
    var a, b := Mapped(xs, f), Mapped(ys, f);
    assert a == b <==> |xs| == |ys| && forall i | 0 <= i < |xs| :: a[i] == b[i];
  }

  lemma StringsSame(xs: seq<string>, ys: seq<string>)
    ensures List(xs, s => Str(s)) == List(ys, s => Str(s)) <==> xs == ys
  {
    ListSame(xs, ys, s => Str(s));
  }

  lemma StringMapSame(a: map<string, string>, b: map<string, string>)
    ensures StringMap(a) == StringMap(b) <==> a == b
  {
    if a != map[] && b != map[] && StringMap(a) == StringMap(b) {
      var f, g := StringMap(a).value.fields, StringMap(b).value.fields;
      assert f.Keys == a.Keys && g.Keys == b.Keys;
      forall k | k in a ensures a[k] == b[k] { assert f[k] == Str(a[k]) && g[k] == Str(b[k]); }
      assert a == b;
    }
  }

  // ---------- the JSON form of a task definition ----------

  const VOLUME_KEYS := ["source", "target", "readOnly"]
  const PORT_KEYS := ["container", "host", "protocol"]
  const ROUTE_KEYS := ["host", "path", "l4", "port", "lbStrategy"]
  const RESOURCE_KEYS := ["cpu", "memory", "pidsLimit"]
  const HEALTH_KEYS := ["path", "port", "command", "interval", "timeout", "retries", "via", "follow_redirects"]
  const SECURITY_KEYS := ["user", "allowRoot", "capAdd", "capDrop", "noNewPrivileges", "readOnlyRootFs",
                          "seccompProfile", "appArmorProfile"]
  const TASK_KEYS := ["meta", "project", "name", "image", "replicas", "stateful", "security", "env", "volumes",
                      "expose", "strategy", "health", "resources", "schedule", "routes"]
  const META_KEYS := ["proxaVersion"]

  lemma KeysDistinct()
    ensures Distinct(VOLUME_KEYS) && Distinct(PORT_KEYS) && Distinct(ROUTE_KEYS) && Distinct(RESOURCE_KEYS)
    ensures Distinct(HEALTH_KEYS) && Distinct(META_KEYS)
  {
  }

  lemma SecurityKeysDistinct()
    ensures Distinct(SECURITY_KEYS)
  {
  }

  lemma TaskKeysDistinct()
    ensures Distinct(TASK_KEYS)
  {
  }

  function VolumeJson(v: VolumeMount): Json {
    KeysDistinct();
    Obj(Object(VOLUME_KEYS, [Some(Str(v.source)), Some(Str(v.target)), Some(Bool(v.readOnly))]))
  }

  function PortJson(p: PortSpec): Json {
    KeysDistinct();
    Obj(Object(PORT_KEYS, [Some(Number(p.container)), NonZero(p.host), Some(Str(p.protocol))]))
  }

  function RouteJson(r: Route): Json {
    KeysDistinct();
    Obj(Object(ROUTE_KEYS, [Some(Str(r.host)), NonEmpty(r.path), NonEmpty(r.l4), NonZero(r.port), NonEmpty(r.lb)]))
  }

  function ResourcesJson(r: ResourceLimits): Json {
    KeysDistinct();
    Obj(Object(RESOURCE_KEYS, [NonEmpty(r.cpu), NonEmpty(r.memory), NonZero(r.pidsLimit)]))
  }

  function HealthFields(h: HealthCheck): (f: seq<Option<Json>>)
    ensures |f| == |HEALTH_KEYS|
  {
    [NonEmpty(h.path), NonZero(h.port), List(h.command, s => Str(s)), Some(Number(h.interval)),
     Some(Number(h.timeout)), Some(Number(h.retries)), NonEmpty(h.via), Pointer(h.followRedirects)]
  }

  function HealthJson(h: HealthCheck): Json {
    KeysDistinct();
    Obj(Object(HEALTH_KEYS, HealthFields(h)))
  }

  function SecurityFields(s: SecurityProfile): (f: seq<Option<Json>>)
    ensures |f| == |SECURITY_KEYS|
  {
    [NonEmpty(s.user), IfTrue(s.allowRoot), List(s.capAdd, c => Str(c)), List(s.capDrop, c => Str(c)),
     Pointer(s.noNewPrivileges), IfTrue(s.readOnlyRootFs), NonEmpty(s.seccompProfile), NonEmpty(s.appArmorProfile)]
  }

  function SecurityJson(s: SecurityProfile): Json {
    SecurityKeysDistinct();
    Obj(Object(SECURITY_KEYS, SecurityFields(s)))
  }

  function MetaJson(proxaVersion: string): Json {
    KeysDistinct();
    Obj(Object(META_KEYS, [NonEmpty(proxaVersion)]))
  }

  function TaskFields(t: TaskDef): (f: seq<Option<Json>>)
    ensures |f| == |TASK_KEYS|
  {
    [Some(MetaJson(t.proxaVersion)), Some(Str(t.project)), Some(Str(t.name)), Some(Str(t.image)),
     Some(Number(t.replicas)), Some(Bool(t.stateful)), Some(SecurityJson(t.security)), StringMap(t.env),
     List(t.volumes, v => VolumeJson(v)), List(t.expose, p => PortJson(p)), Some(Str(t.strategy)),
     Some(HealthJson(t.health)), Some(ResourcesJson(t.resources)), NonEmpty(t.schedule),
     List(t.routes, r => RouteJson(r))]
  }

  /** The document `canonicalJSON` prints: the task definition after a round
      trip through `map[string]any`. */
  function ToJson(t: TaskDef): Json {
    TaskKeysDistinct();
    Obj(Object(TASK_KEYS, TaskFields(t)))
  }

  // ---------- what the JSON form tells apart ----------

  predicate SamePort(p: PortSpec, q: PortSpec) {
    SameNumber(p.container, q.container) && SameNumber(p.host, q.host) && p.protocol == q.protocol
  }

  predicate SameRoute(p: Route, q: Route) {
    p.host == q.host && p.path == q.path && p.l4 == q.l4 && SameNumber(p.port, q.port) && p.lb == q.lb
  }

  predicate SameResources(p: ResourceLimits, q: ResourceLimits) {
    p.cpu == q.cpu && p.memory == q.memory && SameNumber(p.pidsLimit, q.pidsLimit)
  }

  predicate SameHealth(g: HealthCheck, h: HealthCheck) {
    && g.path == h.path && SameNumber(g.port, h.port) && g.command == h.command
    && SameNumber(g.interval, h.interval) && SameNumber(g.timeout, h.timeout) && SameNumber(g.retries, h.retries)
    && g.via == h.via && g.followRedirects == h.followRedirects
  }

  /** Equal in every field, integers up to their float64 value. */
  predicate SameSpec(a: TaskDef, b: TaskDef) {
    && a.proxaVersion == b.proxaVersion && a.project == b.project && a.name == b.name && a.image == b.image
    && SameNumber(a.replicas, b.replicas) && a.stateful == b.stateful && a.security == b.security && a.env == b.env
    && a.volumes == b.volumes
    && |a.expose| == |b.expose| && (forall i | 0 <= i < |a.expose| :: SamePort(a.expose[i], b.expose[i]))
    && a.strategy == b.strategy && SameHealth(a.health, b.health) && SameResources(a.resources, b.resources)
    && a.schedule == b.schedule
    && |a.routes| == |b.routes| && (forall i | 0 <= i < |a.routes| :: SameRoute(a.routes[i], b.routes[i]))
  }

  lemma VolumeSame(u: VolumeMount, v: VolumeMount)
    ensures VolumeJson(u) == VolumeJson(v) <==> u == v
  {
    KeysDistinct();
    var f, g := [Some(Str(u.source)), Some(Str(u.target)), Some(Bool(u.readOnly))],
                [Some(Str(v.source)), Some(Str(v.target)), Some(Bool(v.readOnly))];
    if VolumeJson(u) == VolumeJson(v) {
      ObjectInjective(VOLUME_KEYS, f, g);
      assert f[0] == g[0] && f[1] == g[1] && f[2] == g[2];
    }
  }

  lemma PortSame(p: PortSpec, q: PortSpec)
    ensures PortJson(p) == PortJson(q) <==> SamePort(p, q)
  {
    KeysDistinct();
    NumberSame(p.container, q.container);
    NonZeroSame(p.host, q.host);
    var f, g := [Some(Number(p.container)), NonZero(p.host), Some(Str(p.protocol))],
                [Some(Number(q.container)), NonZero(q.host), Some(Str(q.protocol))];
    if PortJson(p) == PortJson(q) {
      ObjectInjective(PORT_KEYS, f, g);
      assert f[0] == g[0] && f[1] == g[1] && f[2] == g[2];
    }
  }

  lemma RouteSame(p: Route, q: Route)
    ensures RouteJson(p) == RouteJson(q) <==> SameRoute(p, q)
  {
    KeysDistinct();
    NonZeroSame(p.port, q.port);
    var f, g := [Some(Str(p.host)), NonEmpty(p.path), NonEmpty(p.l4), NonZero(p.port), NonEmpty(p.lb)],
                [Some(Str(q.host)), NonEmpty(q.path), NonEmpty(q.l4), NonZero(q.port), NonEmpty(q.lb)];
    if RouteJson(p) == RouteJson(q) {
      ObjectInjective(ROUTE_KEYS, f, g);
      assert f[0] == g[0] && f[1] == g[1] && f[2] == g[2] && f[3] == g[3] && f[4] == g[4];
    }
  }

  lemma ResourcesSame(p: ResourceLimits, q: ResourceLimits)
    ensures ResourcesJson(p) == ResourcesJson(q) <==> SameResources(p, q)
  {
    KeysDistinct();
    NonZeroSame(p.pidsLimit, q.pidsLimit);
    var f, g := [NonEmpty(p.cpu), NonEmpty(p.memory), NonZero(p.pidsLimit)],
                [NonEmpty(q.cpu), NonEmpty(q.memory), NonZero(q.pidsLimit)];
    if ResourcesJson(p) == ResourcesJson(q) {
      ObjectInjective(RESOURCE_KEYS, f, g);
      assert f[0] == g[0] && f[1] == g[1] && f[2] == g[2];
    }
  }

  lemma HealthSame(g: HealthCheck, h: HealthCheck)
    ensures HealthJson(g) == HealthJson(h) <==> SameHealth(g, h)
  {
    KeysDistinct();
    NonZeroSame(g.port, h.port);
    NumberSame(g.interval, h.interval);
    NumberSame(g.timeout, h.timeout);
    NumberSame(g.retries, h.retries);
    StringsSame(g.command, h.command);
    var a, b := HealthFields(g), HealthFields(h);
    if HealthJson(g) == HealthJson(h) {
      ObjectInjective(HEALTH_KEYS, a, b);
      assert a[0] == b[0] && a[1] == b[1] && a[2] == b[2] && a[3] == b[3];
      assert a[4] == b[4] && a[5] == b[5] && a[6] == b[6] && a[7] == b[7];
    }
  }

  lemma SecuritySame(p: SecurityProfile, q: SecurityProfile)
    ensures SecurityJson(p) == SecurityJson(q) <==> p == q
  {
    SecurityKeysDistinct();
    StringsSame(p.capAdd, q.capAdd);
    StringsSame(p.capDrop, q.capDrop);
    var a, b := SecurityFields(p), SecurityFields(q);
    if SecurityJson(p) == SecurityJson(q) {
      ObjectInjective(SECURITY_KEYS, a, b);
      assert a[0] == b[0] && a[1] == b[1] && a[2] == b[2] && a[3] == b[3];
      assert a[4] == b[4] && a[5] == b[5] && a[6] == b[6] && a[7] == b[7];
    }
  }

  lemma MetaSame(u: string, v: string)
    ensures MetaJson(u) == MetaJson(v) <==> u == v
  {
    KeysDistinct();
    if MetaJson(u) == MetaJson(v) {
      ObjectInjective(META_KEYS, [NonEmpty(u)], [NonEmpty(v)]);
      assert [NonEmpty(u)][0] == [NonEmpty(v)][0];
    }
  }

  lemma ListsSame(a: TaskDef, b: TaskDef)
    ensures List(a.volumes, v => VolumeJson(v)) == List(b.volumes, v => VolumeJson(v)) <==> a.volumes == b.volumes
    ensures List(a.expose, p => PortJson(p)) == List(b.expose, p => PortJson(p)) <==>
            |a.expose| == |b.expose| && forall i | 0 <= i < |a.expose| :: SamePort(a.expose[i], b.expose[i])
    ensures List(a.routes, r => RouteJson(r)) == List(b.routes, r => RouteJson(r)) <==>
            |a.routes| == |b.routes| && forall i | 0 <= i < |a.routes| :: SameRoute(a.routes[i], b.routes[i])
  {
    ListSame(a.volumes, b.volumes, v => VolumeJson(v));
    ListSame(a.expose, b.expose, p => PortJson(p));
    ListSame(a.routes, b.routes, r => RouteJson(r));
    forall i | 0 <= i < |a.volumes| && i < |b.volumes| { VolumeSame(a.volumes[i], b.volumes[i]); }
    forall i | 0 <= i < |a.expose| && i < |b.expose| { PortSame(a.expose[i], b.expose[i]); }
    forall i | 0 <= i < |a.routes| && i < |b.routes| { RouteSame(a.routes[i], b.routes[i]); }
  }

  lemma FieldsSame(a: TaskDef, b: TaskDef)
    ensures TaskFields(a) == TaskFields(b) <==> SameSpec(a, b)
  {
    var f, g := TaskFields(a), TaskFields(b);
    NumberSame(a.replicas, b.replicas);
    MetaSame(a.proxaVersion, b.proxaVersion);
    SecuritySame(a.security, b.security);
    StringMapSame(a.env, b.env);
    HealthSame(a.health, b.health);
    ResourcesSame(a.resources, b.resources);
    ListsSame(a, b);
    if f == g {
      assert f[0] == g[0] && f[1] == g[1] && f[2] == g[2] && f[3] == g[3] && f[4] == g[4];
      assert f[5] == g[5] && f[6] == g[6] && f[7] == g[7] && f[8] == g[8] && f[9] == g[9];
      assert f[10] == g[10] && f[11] == g[11] && f[12] == g[12] && f[13] == g[13] && f[14] == g[14];
    }
  }

  /** The JSON forms agree exactly when every field does, up to float64. */
  lemma JsonSame(a: TaskDef, b: TaskDef)
    ensures ToJson(a) == ToJson(b) <==> SameSpec(a, b)
  {
    TaskKeysDistinct();
    FieldsSame(a, b);
    if ToJson(a) == ToJson(b) {
      ObjectInjective(TASK_KEYS, TaskFields(a), TaskFields(b));
    }
  }

  // ---------- the hash ----------

  /** Clears the deployment-control fields. */
  function Stable(t: TaskDef): TaskDef {
    t.(replicas := 0, strategy := "", schedule := "")
  }

  ghost function CanonicalJson(t: TaskDef): string {
    Print(ToJson(t))
  }

  /** `Hash`, for a digest function `sha` standing for hex SHA-256. */
  ghost function Hash(sha: string -> string, t: TaskDef): string {
    "sha256:" + sha(CanonicalJson(Stable(t)))
  }

  /** Scaling, switching strategy or rescheduling never changes the hash. */
  lemma HashIgnoresDeployment(sha: string -> string, t: TaskDef, replicas: GoInt, strategy: string, schedule: string)
    ensures Hash(sha, t.(replicas := replicas, strategy := strategy, schedule := schedule)) == Hash(sha, t)
  {
    assert Stable(t.(replicas := replicas, strategy := strategy, schedule := schedule)) == Stable(t);
  }

  /** The hash as the program computes it: copy, clear, print, digest. */
  method ComputeHash(sha: string -> string, t: TaskDef) returns (h: string)
    ensures h == Hash(sha, t)
  {
    var stable := t.(replicas := 0, strategy := "", schedule := "");
    var canonical := MarshalSorted(ToJson(stable));
    h := "sha256:" + sha(canonical);
  }

  /** No collision between the two texts that are hashed. */
  ghost predicate NoCollision(sha: string -> string, a: TaskDef, b: TaskDef) {
    var x, y := CanonicalJson(Stable(a)), CanonicalJson(Stable(b));
    sha(x) == sha(y) ==> x == y
  }

  /** Two definitions hash alike exactly when they agree on every field but
      replicas, strategy and schedule, integers up to their float64 value. */
  lemma HashAgrees(sha: string -> string, a: TaskDef, b: TaskDef)
    requires NoCollision(sha, a, b)
    ensures Hash(sha, a) == Hash(sha, b) <==> SameSpec(Stable(a), Stable(b))
  {
    var x, y := CanonicalJson(Stable(a)), CanonicalJson(Stable(b));
    JsonSame(Stable(a), Stable(b));
    PrintInjective(ToJson(Stable(a)), ToJson(Stable(b)));
    if Hash(sha, a) == Hash(sha, b) {
      assert Hash(sha, a)[7..] == sha(x) && Hash(sha, b)[7..] == sha(y);
    }
  }

  /** Every integer of the definition is exactly representable. */
  predicate SmallIntegers(t: TaskDef) {
    && (forall i | 0 <= i < |t.expose| :: Small(t.expose[i].container) && Small(t.expose[i].host))
    && (forall i | 0 <= i < |t.routes| :: Small(t.routes[i].port))
    && Small(t.resources.pidsLimit) && Small(t.health.port) && Small(t.health.interval)
    && Small(t.health.timeout) && Small(t.health.retries)
  }

  predicate Small(n: int) {
    -TWO_53 <= n <= TWO_53
  }

  lemma SmallSame(m: int, n: int)
    requires Small(m) && Small(n)
    ensures SameNumber(m, n) <==> m == n
  {
    Float64Exact(m);
    Float64Exact(n);
  }

  lemma SmallSpecSame(a: TaskDef, b: TaskDef)
    requires SmallIntegers(a) && SmallIntegers(b)
    ensures SameSpec(Stable(a), Stable(b)) <==> Stable(a) == Stable(b)
  {
    var p, q := Stable(a), Stable(b);
    SmallSame(a.resources.pidsLimit, b.resources.pidsLimit);
    SmallSame(a.health.port, b.health.port);
    SmallSame(a.health.interval, b.health.interval);
    SmallSame(a.health.timeout, b.health.timeout);
    SmallSame(a.health.retries, b.health.retries);
    if SameSpec(p, q) {
      forall i | 0 <= i < |p.expose| ensures p.expose[i] == q.expose[i] {
        assert SamePort(p.expose[i], q.expose[i]);
        SmallSame(a.expose[i].container, b.expose[i].container);
        SmallSame(a.expose[i].host, b.expose[i].host);
      }
      forall i | 0 <= i < |p.routes| ensures p.routes[i] == q.routes[i] {
        assert SameRoute(p.routes[i], q.routes[i]);
        SmallSame(a.routes[i].port, b.routes[i].port);
      }
      assert p.expose == q.expose && p.routes == q.routes;
    }
  }

  /** Drift is detected exactly: with integers up to 2^53 the hashes differ
      if and only if some hashed field does. */
  lemma HashDetectsDrift(sha: string -> string, a: TaskDef, b: TaskDef)
    requires NoCollision(sha, a, b) && SmallIntegers(a) && SmallIntegers(b)
    ensures Hash(sha, a) == Hash(sha, b) <==> Stable(a) == Stable(b)
  {
    HashAgrees(sha, a, b);
    SmallSpecSame(a, b);
  }

  /** Above 2^53 drift can be missed: a probe interval of 2^53 nanoseconds
      and one a nanosecond longer hash alike, whatever the digest. */
  lemma LargeIntervalsCollide(sha: string -> string, t: TaskDef)
    requires t.health.interval == TWO_53
    ensures var u := t.(health := t.health.(interval := TWO_53 + 1));
            Hash(sha, t) == Hash(sha, u) && Stable(t) != Stable(u)
  {
    var u := t.(health := t.health.(interval := TWO_53 + 1));
    RoundExact(TWO_53);
    assert Ulp((TWO_53 + 1) / 2) == 1;
    assert Float64(TWO_53 + 1) == TWO_53;
    JsonSame(Stable(t), Stable(u));
  }
}
