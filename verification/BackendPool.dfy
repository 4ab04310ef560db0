/** Backend selection (internal/ingress/backend_pool.go): round robin by a
    wrapping 64-bit ticket counter. */
module BackendPool {
  import opened Domain
  import opened Arithmetic

  const TWO_64: nat := 0x1_0000_0000_0000_0000

  datatype Backend = Backend(containerId: string, ip: string, port: int, healthy: bool)

  /** The indices of the healthy backends, in order. */
  function HealthyIndices(backends: seq<Backend>): seq<nat> {
    if backends == [] then []
    else
      var n := |backends| - 1;
      HealthyIndices(backends[..n]) + if backends[n].healthy then [n] else []
  }

  ghost predicate AnyHealthy(backends: seq<Backend>) {
    exists i | 0 <= i < |backends| :: backends[i].healthy
  }

  /** `hs` are the positions of the healthy backends, in order. */
  ghost predicate AreHealthy(backends: seq<Backend>, hs: seq<nat>) {
    && (forall i | 0 <= i < |hs| :: hs[i] < |backends| && backends[hs[i]].healthy)
    && (forall i, j | 0 <= i < j < |hs| :: hs[i] < hs[j])
    && (forall k | 0 <= k < |backends| && backends[k].healthy :: k in hs)
  }

  lemma {:induction false} HealthyIndicesAre(backends: seq<Backend>)
    ensures AreHealthy(backends, HealthyIndices(backends))
  {
    if backends != [] {
      var n := |backends| - 1;
      HealthyIndicesAre(backends[..n]);
      NextHealthy(backends, HealthyIndices(backends[..n]));
    }
  }

  lemma NextHealthy(backends: seq<Backend>, before: seq<nat>)
    requires backends != [] && AreHealthy(backends[..|backends| - 1], before)
    ensures var n := |backends| - 1; AreHealthy(backends, before + if backends[n].healthy then [n] else [])
  {
    var n := |backends| - 1;
    var hs := before + if backends[n].healthy then [n] else [];
    assert forall i | 0 <= i < |before| :: before[i] < n && backends[..n][before[i]] == backends[before[i]];
    forall k | 0 <= k < |backends| && backends[k].healthy ensures k in hs {
      assert k < n ==> backends[..n][k].healthy;
    }
  }

  class Pool {
    var backends: seq<Backend>
    var cursor: nat

    ghost predicate Valid()
      reads this
    {
      cursor < TWO_64
    }

    constructor ()
      ensures Valid() && backends == [] && cursor == 0
    {
      backends, cursor := [], 0;
    }

    method Replace(backends: seq<Backend>)
      requires Valid()
      modifies this`backends
      ensures Valid() && this.backends == backends
    {
      this.backends := backends;
    }

    method Healthy() returns (out: seq<Backend>)
      requires Valid()
      ensures |out| == |HealthyIndices(backends)|
      ensures forall i | 0 <= i < |out| :: HealthyIndices(backends)[i] < |backends| && out[i] == backends[HealthyIndices(backends)[i]]
    {
      out := [];
      for i := 0 to |backends|
        invariant |out| == |HealthyIndices(backends[..i])|
        invariant forall j | 0 <= j < |out| ::
                    HealthyIndices(backends[..i])[j] < i && out[j] == backends[HealthyIndices(backends[..i])[j]]
      {
        assert backends[..i + 1][..i] == backends[..i];
        if backends[i].healthy { out := out + [backends[i]]; }
      }
      assert backends[..|backends|] == backends;
    }

    method HealthyCount() returns (n: nat)
      requires Valid()
      ensures n == |HealthyIndices(backends)|
    {
      n := 0;
      for i := 0 to |backends|
        invariant n == |HealthyIndices(backends[..i])|
      {
        assert backends[..i + 1][..i] == backends[..i];
        if backends[i].healthy { n := n + 1; }
      }
      assert backends[..|backends|] == backends;
    }

    method HealthyPositions() returns (healthy: seq<nat>)
      ensures healthy == HealthyIndices(backends)
    {
      healthy := [];
      for i := 0 to |backends|
        invariant healthy == HealthyIndices(backends[..i])
      {
        assert backends[..i + 1][..i] == backends[..i];
        if backends[i].healthy { healthy := healthy + [i]; }
      }
      assert backends[..|backends|] == backends;
    }

    /** `Pick`: nothing if no backend is healthy, and then no ticket is used.
        Round robin gives ticket t the healthy backend number t modulo their
        count; every other strategy gives some healthy backend. */
    method Pick(strategy: string) returns (picked: Option<Backend>)
      requires Valid()
      modifies this`cursor
      ensures Valid()
      ensures picked.None? <==> forall k | 0 <= k < |backends| :: !backends[k].healthy
      ensures picked.Some? ==> picked.value in backends && picked.value.healthy
      ensures strategy == "round-robin" && picked.Some? ==> picked.value == backends[TicketIndex(backends, old(cursor))]
      ensures cursor == if strategy == "round-robin" && picked.Some? then NextTicket(old(cursor)) else old(cursor)
    {
      var healthy := HealthyPositions();
      HealthyIndicesAre(backends);
      if |healthy| == 0 { return None; }
      if strategy == "round-robin" {
        var n := cursor;
        TicketServes(backends, n);
        cursor := (cursor + 1) % TWO_64;
        return Some(backends[healthy[Modulo(n, |healthy|)]]);
      }
      var r: int := *;
      var i := Modulo(r, |healthy|);
      return Some(backends[healthy[i]]);
    }
  }

  lemma TicketServes(backends: seq<Backend>, t: nat)
    requires HealthyIndices(backends) != []
    ensures var hs := HealthyIndices(backends);
            AnyHealthy(backends) && TicketIndex(backends, t) == hs[Modulo(t, |hs|)]
            && hs[Modulo(t, |hs|)] < |backends| && backends[hs[Modulo(t, |hs|)]].healthy
  {
    HealthyIndicesAre(backends);
    var hs := HealthyIndices(backends);
    assert backends[hs[0]].healthy;
  }

  function NextTicket(t: nat): nat {
    (t + 1) % TWO_64
  }

  function Modulo(r: int, n: nat): (i: nat)
    requires n > 0
    ensures i < n
  {
    r % n
  }

  /** The index of the backend that ticket `t` is served by. */
  function TicketIndex(backends: seq<Backend>, t: nat): (k: nat)
    requires AnyHealthy(backends)
    ensures k < |backends| && backends[k].healthy
  {
    HealthyIndicesAre(backends);
    var hs := HealthyIndices(backends);
    hs[Modulo(t, |hs|)]
  }

  // ---------- fairness ----------

  /** How many of the `n` tickets starting at `a` fall to position `i` of `h`. */
  function Served(a: nat, n: nat, h: nat, i: nat): nat
    requires h > 0
  {
    if n == 0 then 0 else Served(a, n - 1, h, i) + if Ticket(a, n - 1) % h == i then 1 else 0
  }

  /** The k-th ticket after `a`, wrapping at 2^64. */
  function Ticket(a: nat, k: nat): nat {
    (a + k) % TWO_64
  }

  /** Every position gets floor or ceiling of its share. */
  ghost predicate Fair(a: nat, n: nat, h: nat)
    requires h > 0
  {
    forall i: nat | i < h :: n / h <= Served(a, n, h, i) <= (n + h - 1) / h
  }

  /** The same count without the wrap. */
  function Plain(a: nat, n: nat, h: nat, i: nat): nat
    requires h > 0
  {
    if n == 0 then 0 else Plain(a, n - 1, h, i) + if (a + n - 1) % h == i then 1 else 0
  }

  /** Offset n from `a` lands on i exactly when n is the distance from a to i. */
  lemma OffsetHits(a: nat, n: nat, h: nat, i: nat)
    requires n < h && i < h
    ensures (a + n) % h == i <==> (i - a) % h == n
  {
    var q, s := (a + n) / h, (i - a) / h;
    assert a + n == q * h + (a + n) % h;
    assert i - a == s * h + (i - a) % h;
    if (a + n) % h == i {
      assert i - a == -q * h + n;
      ModUnique(i - a, -q, n, h);
    }
    if (i - a) % h == n {
      assert a + n == -s * h + i;
      ModUnique(a + n, -s, i, h);
    }
  }

  lemma {:induction false} ShortRun(a: nat, n: nat, h: nat, i: nat)
    requires n <= h && i < h
    ensures Plain(a, n, h, i) == if (i - a) % h < n then 1 else 0
  {
    if n > 0 {
      ShortRun(a, n - 1, h, i);
      OffsetHits(a, n - 1, h, i);
    }
  }

  lemma {:induction false} SplitRun(a: nat, m: nat, n: nat, h: nat, i: nat)
    requires h > 0
    ensures Plain(a, m + n, h, i) == Plain(a, m, h, i) + Plain(a + m, n, h, i)
  {
    if n > 0 { SplitRun(a, m, n - 1, h, i); }
  }

  lemma DivShift(n: nat, h: nat)
    requires h > 0 && n >= h
    ensures n / h == (n - h) / h + 1 && (n + h - 1) / h == (n - 1) / h + 1
  {
    DivStep(n - h, h);
    DivStep(n - 1, h);
  }

  lemma DivStep(n: nat, h: nat)
    requires h > 0
    ensures (n + h) / h == n / h + 1
  {
    var q, r := n / h, n % h;
    assert n + h == (q + 1) * h + r;
    ModUnique(n + h, q + 1, r, h);
  }

  /** Every run without a wrap is fair. */
  lemma {:induction false} PlainFair(a: nat, n: nat, h: nat, i: nat)
    requires i < h
    ensures n / h <= Plain(a, n, h, i) <= (n + h - 1) / h
    decreases n
  {
    if n < h {
      ShortRun(a, n, h, i);
      ModUnique(n, 0, n, h);
      if n > 0 { ModUnique(n + h - 1, 1, n - 1, h); }
    } else {
      PlainFair(a, n - h, h, i);
      SplitRun(a, n - h, h, h, i);
      ShortRun(a + n - h, h, h, i);
      DivShift(n, h);
    }
  }

  /** Where the wrap does not matter: before it, or if h divides 2^64. */
  lemma {:induction false} ServedIsPlain(a: nat, n: nat, h: nat, i: nat)
    requires h > 0 && (a + n <= TWO_64 || TWO_64 % h == 0)
    ensures Served(a, n, h, i) == Plain(a, n, h, i)
  {
    if n > 0 {
      ServedIsPlain(a, n - 1, h, i);
      WrapVanishes(a + n - 1, h);
    }
  }

  lemma WrapVanishes(t: nat, h: nat)
    requires h > 0 && (t < TWO_64 || TWO_64 % h == 0)
    ensures t % TWO_64 % h == t % h
  {
    if t >= TWO_64 { MultipleVanishes(t / TWO_64, t % TWO_64, h); }
  }

  lemma MultipleVanishes(k: nat, r: nat, h: nat)
    requires h > 0 && TWO_64 % h == 0
    ensures (k * TWO_64 + r) % h == r % h
  {
    var q := TWO_64 / h;
    assert TWO_64 == q * h;
    assert k * TWO_64 == (k * q) * h;
    ModUnique(k * TWO_64 + r, k * q + r / h, r % h, h);
  }

  lemma FairAt(a: nat, n: nat, h: nat, i: nat)
    requires i < h && (a + n <= TWO_64 || TWO_64 % h == 0)
    ensures n / h <= Served(a, n, h, i) <= (n + h - 1) / h
  {
    ServedIsPlain(a, n, h, i);
    PlainFair(a, n, h, i);
  }

  /** Round robin is fair over every run of tickets that does not wrap. */
  lemma FairBeforeWrap(a: nat, n: nat, h: nat)
    requires h > 0 && a + n <= TWO_64
    ensures Fair(a, n, h)
  {
    forall i: nat | i < h ensures n / h <= Served(a, n, h, i) <= (n + h - 1) / h { FairAt(a, n, h, i); }
  }

  /** Across the wrap it is fair for every run exactly if the number of healthy
      backends divides 2^64. */
  lemma FairAlways(h: nat)
    requires 0 < h < TWO_64
    ensures (forall a: nat, n: nat | a < TWO_64 :: Fair(a, n, h)) <==> TWO_64 % h == 0
  {
    if TWO_64 % h == 0 {
      forall a: nat, n: nat | a < TWO_64 ensures Fair(a, n, h) {
        forall i: nat | i < h ensures n / h <= Served(a, n, h, i) <= (n + h - 1) / h { FairAt(a, n, h, i); }
      }
    } else {
      UnfairAtWrap(h);
    }
  }

  /** The r + 1 tickets around the wrap, where r is the remainder of 2^64,
      serve position 0 twice. */
  lemma UnfairAtWrap(h: nat)
    requires 0 < h < TWO_64 && TWO_64 % h != 0
    ensures !Fair(TWO_64 - TWO_64 % h, TWO_64 % h + 1, h)
  {
    var r, q := TWO_64 % h, TWO_64 / h;
    var a := TWO_64 - r;
    assert a == q * h + 0;
    ModUnique(a, q, 0, h);
    ModUnique(0, 0, 0, h);
    assert Ticket(a, 0) == a && Ticket(a, r) == 0;
    assert Served(a, 1, h, 0) == 1;
    ServedGrows(a, 1, r, h, 0);
    assert Served(a, r + 1, h, 0) >= 2;
    ModUnique(r + h, 1, r, h);
  }

  lemma {:induction false} ServedGrows(a: nat, m: nat, n: nat, h: nat, i: nat)
    requires h > 0 && m <= n
    ensures Served(a, m, h, i) <= Served(a, n, h, i)
  {
    if m < n { ServedGrows(a, m, n - 1, h, i); }
  }

  // ---------- a run of picks ----------

  /** The backends that `n` round-robin picks return, from ticket `a` on. */
  function Picks(backends: seq<Backend>, a: nat, n: nat): (ks: seq<nat>)
    requires AnyHealthy(backends)
    ensures |ks| == n
  {
    if n == 0 then [] else Picks(backends, a, n - 1) + [TicketIndex(backends, Ticket(a, n - 1))]
  }

  /** How often `x` occurs. */
  function Times<T(==)>(xs: seq<T>, x: T): nat {
    if xs == [] then 0 else Times(xs[..|xs| - 1], x) + if xs[|xs| - 1] == x then 1 else 0
  }

  lemma TimesSnoc<T>(xs: seq<T>, y: T, x: T)
    ensures Times(xs + [y], x) == Times(xs, x) + if y == x then 1 else 0
  {
    assert (xs + [y])[..|xs|] == xs;
  }

  lemma HealthyDistinct(backends: seq<Backend>, i: nat, j: nat)
    requires i < |HealthyIndices(backends)| && j < |HealthyIndices(backends)|
    ensures HealthyIndices(backends)[i] == HealthyIndices(backends)[j] <==> i == j
  {
    HealthyIndicesAre(backends);
  }

  lemma {:induction false} PicksCount(backends: seq<Backend>, a: nat, n: nat, i: nat)
    requires AnyHealthy(backends) && i < |HealthyIndices(backends)|
    ensures Times(Picks(backends, a, n), HealthyIndices(backends)[i]) == Served(a, n, |HealthyIndices(backends)|, i)
  {
    if n > 0 {
      PicksCount(backends, a, n - 1, i);
      HealthyIndicesAre(backends);
      var j := Ticket(a, n - 1) % |HealthyIndices(backends)|;
      HealthyDistinct(backends, j, i);
      TimesSnoc(Picks(backends, a, n - 1), TicketIndex(backends, Ticket(a, n - 1)), HealthyIndices(backends)[i]);
    }
  }

  /** Over any run of picks on a fixed pool that does not wrap, each of the h
      healthy backends is picked floor(n/h) or ceiling(n/h) times and no other
      backend at all. */
  lemma PicksFair(backends: seq<Backend>, a: nat, n: nat, k: nat)
    requires AnyHealthy(backends)
    requires a + n <= TWO_64 && k < |backends|
    ensures var h, count := |HealthyIndices(backends)|, Times(Picks(backends, a, n), k);
            h > 0 && if backends[k].healthy then n / h <= count <= (n + h - 1) / h else count == 0
  {
    HealthyIndicesAre(backends);
    var hs := HealthyIndices(backends);
    assert |hs| > 0;
    if backends[k].healthy {
      var i :| 0 <= i < |hs| && hs[i] == k;
      PicksCount(backends, a, n, i);
      FairAt(a, n, |hs|, i);
    } else {
      NeverPicked(backends, a, n, k);
    }
  }

  lemma {:induction false} NeverPicked(backends: seq<Backend>, a: nat, n: nat, k: nat)
    requires AnyHealthy(backends)
    requires k < |backends| && !backends[k].healthy
    ensures Times(Picks(backends, a, n), k) == 0
  {
    if n > 0 { NeverPicked(backends, a, n - 1, k); }
  }

  /** The backends at the positions `ks`. */
  function At(backends: seq<Backend>, ks: seq<nat>): (bs: seq<Backend>)
    requires forall i | 0 <= i < |ks| :: ks[i] < |backends|
    ensures |bs| == |ks|
  {
    if ks == [] then [] else At(backends, ks[..|ks| - 1]) + [backends[ks[|ks| - 1]]]
  }

  /** Where a backend is listed once, it is picked as often as its position. */
  lemma {:induction false} AtCount(backends: seq<Backend>, ks: seq<nat>, k: nat)
    requires k < |backends| && forall i | 0 <= i < |ks| :: ks[i] < |backends|
    requires forall i | 0 <= i < |backends| && i != k :: backends[i] != backends[k]
    ensures Times(At(backends, ks), backends[k]) == Times(ks, k)
  {
    if ks != [] {
      var n := |ks| - 1;
      AtCount(backends, ks[..n], k);
      TimesSnoc(At(backends, ks[..n]), backends[ks[n]], backends[k]);
    }
  }

  lemma AtSnoc(backends: seq<Backend>, ks: seq<nat>, k: nat)
    requires k < |backends| && forall i | 0 <= i < |ks| :: ks[i] < |backends|
    ensures At(backends, ks + [k]) == At(backends, ks) + [backends[k]]
  {
    assert (ks + [k])[..|ks|] == ks;
  }

  lemma {:induction false} PicksValid(backends: seq<Backend>, a: nat, n: nat)
    requires AnyHealthy(backends)
    ensures forall i | 0 <= i < n :: Picks(backends, a, n)[i] < |backends|
  {
    if n > 0 { PicksValid(backends, a, n - 1); }
  }

  lemma TicketAfter(a: nat, n: nat)
    ensures NextTicket(Ticket(a, n)) == Ticket(a, n + 1)
  {
    assert a + n == (a + n) / TWO_64 * TWO_64 + (a + n) % TWO_64;
    var q := (a + n) / TWO_64;
    assert (a + n + 1) - q * TWO_64 == (a + n) % TWO_64 + 1;
    ModShift(a + n + 1, q, TWO_64);
  }

  /** A run of calls of `Pick`: what they return and where the cursor ends are
      those of the tickets. */
  method PickRun(pool: Pool, n: nat) returns (picked: seq<Backend>)
    requires pool.Valid() && AnyHealthy(pool.backends)
    modifies pool`cursor
    ensures pool.Valid() && pool.cursor == Ticket(old(pool.cursor), n)
    ensures |picked| == n
    ensures forall i | 0 <= i < n :: Picks(pool.backends, old(pool.cursor), n)[i] < |pool.backends|
    ensures picked == At(pool.backends, Picks(pool.backends, old(pool.cursor), n))
  {
    PicksValid(pool.backends, pool.cursor, n);
    picked := [];
    for i := 0 to n
      invariant pool.Valid() && pool.cursor == Ticket(old(pool.cursor), i)
      invariant forall j | 0 <= j < i :: Picks(pool.backends, old(pool.cursor), i)[j] < |pool.backends|
      invariant picked == At(pool.backends, Picks(pool.backends, old(pool.cursor), i))
    {
      var b := pool.Pick("round-robin");
      TicketAfter(old(pool.cursor), i);
      PicksValid(pool.backends, old(pool.cursor), i + 1);
      AtSnoc(pool.backends, Picks(pool.backends, old(pool.cursor), i), TicketIndex(pool.backends, Ticket(old(pool.cursor), i)));
      picked := picked + [b.value];
    }
  }
}
