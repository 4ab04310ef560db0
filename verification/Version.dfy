/** The version gate of internal/parser/toml/parser.go: which binaries may read
    a document that names the version it needs. */
module Version {
  import opened Domain
  import opened Strings
  import opened Decimals
  import opened Arithmetic

  // ---------- components ----------

  /** The number read from digits in Go's wrapping arithmetic. */
  function Wrapped(s: string): GoInt
    requires AllDigits(s)
  {
    if s == "" then 0 else Wrap64(Wrapped(s[..|s| - 1]) * 10 + DigitValue(s[|s| - 1]))
  }

  function Component(s: string): Option<GoInt> {
    if s != "" && AllDigits(s) then Some(Wrapped(s)) else None
  }

  /** `atoiSafe`. */
  method AtoiSafe(s: string) returns (n: Option<GoInt>)
    ensures n == Component(s)
  {
    if s == "" { return None; }
    var acc: GoInt := 0;
    for i := 0 to |s|
      invariant AllDigits(s[..i]) && acc == Wrapped(s[..i])
    {
      if s[i] < '0' || s[i] > '9' {
        assert !IsDigit(s[i]);
        return None;
      }
      assert s[..i + 1][..i] == s[..i] && s[..i + 1][i] == s[i];
      acc := Wrap64(acc * 10 + DigitValue(s[i]));
    }
    assert s[..|s|] == s;
    return Some(acc);
  }

  lemma WrapStep(x: int, d: int)
    ensures Wrap64(Wrap64(x) * 10 + d) == Wrap64(x * 10 + d)
  {
    var m := MAX_INT - MIN_INT + 1;
    var q := (x - MIN_INT) / m;
    assert x - MIN_INT == q * m + (x - MIN_INT) % m;
    assert Wrap64(x) == x - q * m;
    var y := x * 10 + d - MIN_INT;
    assert Wrap64(x) * 10 + d - MIN_INT == y - (q * 10) * m;
    ModShift(y, q * 10, m);
  }

  /** Components wrap at 64 bits; they are read as written exactly when they fit. */
  lemma {:induction false} WrappedIsValue(s: string)
    requires AllDigits(s)
    ensures Wrapped(s) == Wrap64(Value(s))
    ensures Wrapped(s) == Value(s) <==> Value(s) <= MAX_INT
  {
    if s != "" {
      WrappedIsValue(s[..|s| - 1]);
      WrapStep(Value(s[..|s| - 1]), DigitValue(s[|s| - 1]));
    }
    WrapFixes(Value(s));
  }

  lemma WrapFixes(n: nat)
    ensures Wrap64(n) == n <==> n <= MAX_INT
  {
  }

  // ---------- comparison ----------

  function StripPrerelease(s: string): string {
    if s == "" || s[0] == '-' || s[0] == '+' then "" else [s[0]] + StripPrerelease(s[1..])
  }

  function GetOrZero(xs: seq<string>, i: nat): string {
    if i >= |xs| then "0" else xs[i]
  }

  /** Component i of a version, None if it is not a number. */
  function ComponentAt(xs: seq<string>, i: nat): Option<GoInt> {
    Component(GetOrZero(xs, i))
  }

  function Parts(s: string): seq<string> {
    Split(StripPrerelease(s), '.')
  }

  /** The comparison of components `i` and later. */
  function CompareFrom(a: seq<string>, b: seq<string>, i: nat): Option<int>
    decreases |a| + |b| - i
  {
    if i >= |a| && i >= |b| then Some(0)
    else
      match (ComponentAt(a, i), ComponentAt(b, i))
      case (Some(x), Some(y)) => if x < y then Some(-1) else if x > y then Some(1) else CompareFrom(a, b, i + 1)
      case _ => None
  }

  /** `semverCompare`: the sign, or None when a component met on the way is not
      a number. */
  method SemverCompare(a: string, b: string) returns (sign: Option<int>)
    ensures sign == CompareFrom(Parts(a), Parts(b), 0)
  {
    var aparts, bparts := Parts(a), Parts(b);
    sign := CompareComponents(aparts, bparts, if |bparts| > |aparts| then |bparts| else |aparts|);
  }

  /** The loop of `semverCompare`, `n` being the longer length. */
  method CompareComponents(aparts: seq<string>, bparts: seq<string>, n: nat) returns (sign: Option<int>)
    requires n >= |aparts| && n >= |bparts| && (n == |aparts| || n == |bparts|)
    ensures sign == CompareFrom(aparts, bparts, 0)
  {
    for i := 0 to n
      invariant CompareFrom(aparts, bparts, 0) == CompareFrom(aparts, bparts, i)
    {
      var ai := AtoiSafe(GetOrZero(aparts, i));
      var bi := AtoiSafe(GetOrZero(bparts, i));
      CompareStep(aparts, bparts, i);
      if ai.None? || bi.None? { return None; }
      if ai.value != bi.value {
        if ai.value < bi.value { return Some(-1); }
        return Some(1);
      }
    }
    return Some(0);
  }

  lemma CompareStep(a: seq<string>, b: seq<string>, i: nat)
    requires i < |a| || i < |b|
    ensures CompareFrom(a, b, i) ==
              var x, y := ComponentAt(a, i), ComponentAt(b, i);
              if x.None? || y.None? then None
              else if x.value != y.value then Some(if x.value < y.value then -1 else 1)
              else CompareFrom(a, b, i + 1)
  {
  }

  // ---------- the order ----------

  /** Two versions agree, as numbers, on the components before `i`. */
  ghost predicate AgreeBefore(a: seq<string>, b: seq<string>, i: nat) {
    forall j: nat | j < i :: ComponentAt(a, j).Some? && ComponentAt(a, j) == ComponentAt(b, j)
  }

  /** `i` is the first component in which the versions differ, and there `a`
      is smaller: the lexicographic order on zero-padded component lists. */
  ghost predicate LessAt(a: seq<string>, b: seq<string>, i: nat) {
    && AgreeBefore(a, b, i)
    && ComponentAt(a, i).Some? && ComponentAt(b, i).Some? && ComponentAt(a, i).value < ComponentAt(b, i).value
  }

  ghost predicate Less(a: seq<string>, b: seq<string>) {
    exists i :: LessAt(a, b, i)
  }

  ghost predicate Same(a: seq<string>, b: seq<string>) {
    forall i :: ComponentAt(a, i).Some? && ComponentAt(a, i) == ComponentAt(b, i)
  }

  lemma ZeroPadding(a: seq<string>, i: nat)
    requires i >= |a|
    ensures ComponentAt(a, i) == Some(0)
  {
    assert "0"[..0] == "";
    assert Wrapped("0") == Wrap64(0 * 10 + 0);
  }

  lemma {:induction false} CompareFromMeans(a: seq<string>, b: seq<string>, i: nat)
    requires AgreeBefore(a, b, i)
    ensures CompareFrom(a, b, i) == Some(-1) <==> exists k: nat :: k >= i && LessAt(a, b, k)
    ensures CompareFrom(a, b, i) == Some(1) <==> exists k: nat :: k >= i && LessAt(b, a, k)
    ensures CompareFrom(a, b, i) == Some(0) <==> Same(a, b)
    ensures CompareFrom(a, b, i) in {None, Some(-1), Some(0), Some(1)}
    decreases |a| + |b| - i
  {
    if i >= |a| && i >= |b| {
      forall k: nat | k >= i ensures ComponentAt(a, k) == Some(0) == ComponentAt(b, k) {
        ZeroPadding(a, k);
        ZeroPadding(b, k);
      }
    } else {
      var x, y := ComponentAt(a, i), ComponentAt(b, i);
      if x.Some? && x == y {
        assert AgreeBefore(a, b, i + 1);
        CompareFromMeans(a, b, i + 1);
        assert !LessAt(a, b, i) && !LessAt(b, a, i);
      } else {
        forall k: nat | k > i ensures !AgreeBefore(a, b, k) && !AgreeBefore(b, a, k) {
        }
        if x.Some? && y.Some? {
          assert x.value < y.value ==> LessAt(a, b, i);
          assert y.value < x.value ==> LessAt(b, a, i);
        }
      }
    }
  }

  /** The comparison is the lexicographic order on zero-padded components. */
  lemma CompareMeans(a: seq<string>, b: seq<string>)
    ensures CompareFrom(a, b, 0) == Some(-1) <==> Less(a, b)
    ensures CompareFrom(a, b, 0) == Some(1) <==> Less(b, a)
    ensures CompareFrom(a, b, 0) == Some(0) <==> Same(a, b)
    ensures CompareFrom(a, b, 0) in {None, Some(-1), Some(0), Some(1)}
  {
    CompareFromMeans(a, b, 0);
  }

  predicate Numeric(a: seq<string>) {
    forall i | 0 <= i < |a| :: Component(a[i]).Some?
  }

  ghost predicate AtMost(a: seq<string>, b: seq<string>) {
    Less(a, b) || Same(a, b)
  }

  lemma NumericAt(a: seq<string>, i: nat)
    requires Numeric(a)
    ensures ComponentAt(a, i).Some?
  {
    if i >= |a| { ZeroPadding(a, i); }
  }

  /** Of two numeric versions one is less, or they are the same. */
  lemma NumericTotal(a: seq<string>, b: seq<string>)
    requires Numeric(a) && Numeric(b)
    ensures CompareFrom(a, b, 0) != None
    ensures AtMost(a, b) || Less(b, a)
    ensures !(Less(a, b) && AtMost(b, a))
  {
    NumericFrom(a, b, 0);
    CompareFromMeans(a, b, 0);
    CompareFromMeans(b, a, 0);
  }

  lemma {:induction false} NumericFrom(a: seq<string>, b: seq<string>, i: nat)
    requires Numeric(a) && Numeric(b)
    ensures CompareFrom(a, b, i) != None
    decreases |a| + |b| - i
  {
    NumericAt(a, i);
    NumericAt(b, i);
    if i < |a| || i < |b| { NumericFrom(a, b, i + 1); }
  }

  /** Swapping the arguments negates the sign, for any versions. */
  lemma CompareAntisymmetric(a: seq<string>, b: seq<string>)
    ensures CompareFrom(a, b, 0).Some? <==> CompareFrom(b, a, 0).Some?
    ensures CompareFrom(a, b, 0).Some? ==> CompareFrom(a, b, 0).value == -CompareFrom(b, a, 0).value
  {
    CompareFromMeans(a, b, 0);
    CompareFromMeans(b, a, 0);
    assert Same(a, b) <==> Same(b, a);
  }

  lemma LessAtTrans(a: seq<string>, b: seq<string>, c: seq<string>, i: nat, j: nat)
    requires LessAt(a, b, i) && LessAt(b, c, j)
    ensures LessAt(a, c, if i <= j then i else j)
  {
  }

  lemma LessAtSame(a: seq<string>, b: seq<string>, c: seq<string>, i: nat)
    ensures LessAt(a, b, i) && Same(b, c) ==> LessAt(a, c, i)
    ensures Same(a, b) && LessAt(b, c, i) ==> LessAt(a, c, i)
  {
  }

  /** If the first of two comparisons is "less" and the second "at most", the
      first version is less than the last; likewise with the roles exchanged. */
  lemma LessTrans(a: seq<string>, b: seq<string>, c: seq<string>)
    requires (Less(a, b) && AtMost(b, c)) || (AtMost(a, b) && Less(b, c))
    ensures Less(a, c)
  {
    if Less(a, b) {
      var i :| LessAt(a, b, i);
      if Less(b, c) {
        var j :| LessAt(b, c, j);
        LessAtTrans(a, b, c, i, j);
      } else {
        LessAtSame(a, b, c, i);
      }
    } else {
      var j :| LessAt(b, c, j);
      LessAtSame(a, b, c, j);
    }
  }

  /** "At most" is a total preorder on numeric versions. */
  lemma AtMostTrans(a: seq<string>, b: seq<string>, c: seq<string>)
    requires AtMost(a, b) && AtMost(b, c)
    ensures AtMost(a, c)
  {
    if Less(a, b) || Less(b, c) {
      LessTrans(a, b, c);
    } else {
      assert Same(a, c);
    }
  }

  /** A trailing ".0" never matters. */
  lemma TrailingZero(a: seq<string>, b: seq<string>)
    ensures CompareFrom(a + ["0"], b, 0) == CompareFrom(a, b, 0)
  {
    forall i: nat ensures ComponentAt(a + ["0"], i) == ComponentAt(a, i) {
      ZeroPadding(a, i + |a|);
      if i >= |a| { ZeroPadding(a, i); }
    }
    SameComponents(a + ["0"], a, b);
  }

  lemma SameComponentsLess(a: seq<string>, a': seq<string>, b: seq<string>, i: nat)
    requires forall j: nat :: ComponentAt(a, j) == ComponentAt(a', j)
    ensures LessAt(a, b, i) ==> LessAt(a', b, i)
    ensures LessAt(b, a, i) ==> LessAt(b, a', i)
  {
  }

  lemma SameComponentsOrder(a: seq<string>, a': seq<string>, b: seq<string>)
    requires forall j: nat :: ComponentAt(a, j) == ComponentAt(a', j)
    ensures (Less(a, b) ==> Less(a', b)) && (Less(b, a) ==> Less(b, a')) && (Same(a, b) ==> Same(a', b))
  {
    if Less(a, b) {
      var i :| LessAt(a, b, i);
      SameComponentsLess(a, a', b, i);
    }
    if Less(b, a) {
      var i :| LessAt(b, a, i);
      SameComponentsLess(a, a', b, i);
    }
  }

  lemma SameComponents(a: seq<string>, a': seq<string>, b: seq<string>)
    requires forall j: nat :: ComponentAt(a, j) == ComponentAt(a', j)
    ensures CompareFrom(a, b, 0) == CompareFrom(a', b, 0)
  {
    SameComponentsOrder(a, a', b);
    SameComponentsOrder(a', a, b);
    CompareMeans(a, b);
    CompareMeans(a', b);
  }

  // ---------- the gate ----------

  function TrimV(s: string): string {
    if s != "" && s[0] == 'v' then s[1..] else s
  }

  /** `checkMetaVersion`: the document may be read. */
  predicate GateOpen(required: string, binary: string) {
    var r, b := TrimV(required), TrimV(binary);
    r == "" || b == "" || b == "dev" || CompareFrom(Parts(b), Parts(r), 0) != Some(-1)
  }

  /** Any newer binary passes a gate that an older one passes, whatever the
      document requires. */
  lemma NewerPasses(required: string, older: string, newer: string)
    requires Numeric(Parts(TrimV(older))) && Numeric(Parts(TrimV(newer)))
    requires AtMost(Parts(TrimV(older)), Parts(TrimV(newer)))
    requires GateOpen(required, older)
    ensures GateOpen(required, newer)
  {
    var r, o, n := Parts(TrimV(required)), Parts(TrimV(older)), Parts(TrimV(newer));
    CompareMeans(o, r);
    CompareMeans(n, r);
    if Less(n, r) {
      LessTrans(o, n, r);
      SpecialNotNumeric(TrimV(older));
    }
  }

  /** The names that never gate are not numeric versions. */
  lemma SpecialNotNumeric(s: string)
    requires Numeric(Parts(s))
    ensures s != "" && s != "dev"
  {
    assert Parts("") == [""];
    DevParts();
  }

  lemma DevParts()
    ensures !Numeric(Parts("dev"))
  {
    var s := "dev";
    assert s[1..] == "ev" && s[1..][1..] == "v" && s[1..][1..][1..] == "";
    assert StripPrerelease("") == "" && StripPrerelease("v") == "v" && StripPrerelease("ev") == "ev" && StripPrerelease(s) == s;
    assert Split("", '.') == [""] && Split("v", '.') == ["v"] && Split("ev", '.') == ["ev"] && Split(s, '.') == ["dev"];
    assert Parts(s) == ["dev"] && !IsDigit("dev"[0]);
    assert Component("dev") == None;
    assert Parts(s)[0] == "dev";
  }

  /** The gate rejects exactly when both sides are declared and the binary is
      lexicographically older than the requirement. */
  lemma GateMeans(required: string, binary: string)
    ensures GateOpen(required, binary) <==>
              TrimV(required) == "" || TrimV(binary) == "" || TrimV(binary) == "dev"
              || !Less(Parts(TrimV(binary)), Parts(TrimV(required)))
  {
    CompareMeans(Parts(TrimV(binary)), Parts(TrimV(required)));
  }

  method CheckMetaVersion(required: string, binary: string) returns (ok: bool)
    ensures ok == GateOpen(required, binary)
  {
    var r := TrimV(required);
    if r == "" { return true; }
    var b := TrimV(binary);
    if b == "" || b == "dev" { return true; }
    var cmp := SemverCompare(b, r);
    if cmp.Some? && cmp.value < 0 {
      CompareFromMeans(Parts(b), Parts(r), 0);
      return false;
    }
    return true;
  }

  /** Everything from the first tag on is ignored, pre-release and build alike. */
  lemma {:induction false} TagsIgnored(core: string, tag: string, mark: char)
    requires mark in {'-', '+'} && forall i | 0 <= i < |core| :: core[i] !in {'-', '+'}
    ensures StripPrerelease(core + [mark] + tag) == StripPrerelease(core) == core
  {
    var s := core + [mark] + tag;
    if core != "" {
      assert s[0] == core[0] && s[1..] == core[1..] + [mark] + tag;
      TagsIgnored(core[1..], tag, mark);
    }
  }

  /** A component of 2^63 wraps to a negative number and ranks below zero. */
  lemma HugeComponentWraps()
    ensures Component(Digits(MAX_INT + 1)) == Some(MIN_INT)
    ensures Less([Digits(MAX_INT + 1)], ["0"])
  {
    var huge := Digits(MAX_INT + 1);
    WrappedIsValue(huge);
    ValueOfDigits(MAX_INT + 1);
    ZeroPadding(["0"], 1);
    ZeroPadding([], 0);
    assert LessAt([huge], ["0"], 0);
  }
}
