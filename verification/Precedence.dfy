/** Section 11 of Semantic Versioning 2.0.0, and exactly when the version gate
    gives its verdict. */
module Precedence {
  import opened Domain
  import opened Decimals
  import opened Ordering
  import opened Strings
  import opened Version

  // ---------- the standard's order ----------

  function Until(s: string, c: char): string {
    if s == "" || s[0] == c then "" else [s[0]] + Until(s[1..], c)
  }

  /** The identifiers of the pre-release; build metadata does not count. */
  function TagOf(version: string): Option<seq<string>> {
    var rest := version[CoreLength(version)..];
    if rest != "" && rest[0] == '-' then Some(Split(Until(rest[1..], '+'), '.')) else None
  }

  function CoreLength(version: string): (n: nat)
    ensures n <= |version|
  {
    if version == "" || version[0] in {'-', '+'} then 0 else 1 + CoreLength(version[1..])
  }

  predicate IsNumber(id: string) {
    id != "" && AllDigits(id)
  }

  /** 11.4.1 to 11.4.3: numbers by value, other identifiers by characters, and
      numbers below the others. */
  predicate IdLe(x: string, y: string) {
    if IsNumber(x) && IsNumber(y) then Value(x) <= Value(y)
    else IsNumber(x) || (!IsNumber(y) && StringLe(x, y))
  }

  /** 11.4.4: the first difference decides, and then the length. */
  predicate IdsLe(a: seq<string>, b: seq<string>) {
    a == [] || (b != [] && IdLe(a[0], b[0]) && (IdLe(b[0], a[0]) ==> IdsLe(a[1..], b[1..])))
  }

  /** 11.3: a pre-release ranks below its release. */
  predicate TagLe(a: Option<seq<string>>, b: Option<seq<string>>) {
    b.None? || (a.Some? && IdsLe(a.value, b.value))
  }

  /** The number in position `i` of a core, without bound. */
  function NumberAt(core: seq<string>, i: nat): nat {
    if IsNumber(GetOrZero(core, i)) then Value(GetOrZero(core, i)) else 0
  }

  /** 11.2: the first difference of the cores decides. */
  function CoreCompare(a: seq<string>, b: seq<string>, i: nat): int
    decreases |a| + |b| - i
  {
    if i >= |a| && i >= |b| then 0
    else if NumberAt(a, i) != NumberAt(b, i) then (if NumberAt(a, i) < NumberAt(b, i) then -1 else 1)
    else CoreCompare(a, b, i + 1)
  }

  /** The standard's verdict: `binary` does not rank below `required`. */
  predicate Meets(binary: string, required: string) {
    var c := CoreCompare(Parts(binary), Parts(required), 0);
    c > 0 || (c == 0 && TagLe(TagOf(required), TagOf(binary)))
  }

  // ---------- the order is one ----------

  lemma IdLeTrans(x: string, y: string, z: string)
    requires IdLe(x, y) && IdLe(y, z)
    ensures IdLe(x, z)
  {
    if !IsNumber(x) { StringLeTrans(x, y, z); }
  }

  lemma {:induction false} IdsLeTotal(a: seq<string>, b: seq<string>)
    ensures IdsLe(a, b) || IdsLe(b, a)
  {
    if a != [] && b != [] {
      StringLeTotal(a[0], b[0]);
      IdsLeTotal(a[1..], b[1..]);
    }
  }

  lemma {:induction false} IdsLeTrans(a: seq<string>, b: seq<string>, c: seq<string>)
    requires IdsLe(a, b) && IdsLe(b, c)
    ensures IdsLe(a, c)
  {
    if a != [] {
      IdLeTrans(a[0], b[0], c[0]);
      if IdLe(c[0], a[0]) {
        IdLeTrans(b[0], c[0], a[0]);
        IdLeTrans(c[0], a[0], b[0]);
        IdsLeTrans(a[1..], b[1..], c[1..]);
      }
    }
  }

  /** Pre-releases and releases of one core are totally preordered. */
  lemma TagLeIsTotalPreorder()
    ensures TotalPreorder(TagLe)
  {
    forall a: Option<seq<string>>, b: Option<seq<string>> ensures TagLe(a, b) || TagLe(b, a) {
      if a.Some? && b.Some? { IdsLeTotal(a.value, b.value); }
    }
    forall a: Option<seq<string>>, b: Option<seq<string>>, c: Option<seq<string>> | TagLe(a, b) && TagLe(b, c) ensures TagLe(a, c) {
      if c.Some? { IdsLeTrans(a.value, b.value, c.value); }
    }
  }

  predicate Below(a: Option<seq<string>>, b: Option<seq<string>>) {
    TagLe(a, b) && !TagLe(b, a)
  }

  lemma SmallNumbers()
    ensures IsNumber("1") && IsNumber("2") && IsNumber("11")
    ensures Value("1") == 1 && Value("2") == 2 && Value("11") == 11
    ensures !IsNumber("alpha") && !IsNumber("beta") && !IsNumber("rc")
  {
    assert "1"[..0] == "" && "2"[..0] == "" && "11"[..1] == "1";
    assert !IsDigit("alpha"[0]) && !IsDigit("beta"[0]) && !IsDigit("rc"[0]);
  }

  /** A longer list of identifiers ranks above its beginning. */
  lemma LongerAbove(id: string, more: seq<string>)
    requires more != []
    ensures Below(Some([id]), Some([id] + more))
  {
    StringLeRefl(id);
    assert ([id] + more)[0] == id && ([id] + more)[1..] == more && [id][1..] == [];
    assert IdLe(id, id) && !IdsLe(more, []);
  }

  /** Of two lists that begin alike, the next identifier decides. */
  lemma NextDecides(first: seq<string>, x: string, y: string)
    requires |first| <= 1 && !IdLe(y, x) && IdLe(x, y)
    ensures Below(Some(first + [x]), Some(first + [y]))
  {
    assert IdsLe([x], [y]) && !IdsLe([y], [x]);
    if |first| == 1 {
      StringLeRefl(first[0]);
      assert (first + [x])[1..] == [x] && (first + [y])[1..] == [y];
      assert IdLe(first[0], first[0]);
    } else {
      assert first + [x] == [x] && first + [y] == [y];
    }
  }

  lemma FirstDecides(x: string, a: seq<string>, y: string, b: seq<string>)
    requires !IdLe(y, x) && IdLe(x, y)
    ensures Below(Some([x] + a), Some([y] + b))
  {
  }

  /** The example chain of section 11.4. */
  lemma StandardsExample()
    ensures Below(Some(["alpha"]), Some(["alpha", "1"])) && Below(Some(["alpha", "1"]), Some(["alpha", "beta"]))
    ensures Below(Some(["alpha", "beta"]), Some(["beta"])) && Below(Some(["beta"]), Some(["beta", "2"]))
    ensures Below(Some(["beta", "2"]), Some(["beta", "11"])) && Below(Some(["beta", "11"]), Some(["rc", "1"]))
    ensures Below(Some(["rc", "1"]), None)
  {
    SmallNumbers();
    LongerAbove("alpha", ["1"]);
    NextDecides(["alpha"], "1", "beta");
    FirstDecides("alpha", ["beta"], "beta", []);
    LongerAbove("beta", ["2"]);
    NextDecides(["beta"], "2", "11");
    FirstDecides("beta", ["11"], "rc", ["1"]);
  }

  // ---------- reading a version ----------

  predicate Plain(core: string) {
    forall i | 0 <= i < |core| :: core[i] !in {'-', '+'}
  }

  lemma {:induction false} CoreLengthIs(core: string, mark: char, tag: string)
    requires Plain(core) && mark in {'-', '+'}
    ensures CoreLength(core + [mark] + tag) == |core| && CoreLength(core) == |core|
  {
    var s := core + [mark] + tag;
    if core != "" {
      assert s[0] == core[0] && s[1..] == core[1..] + [mark] + tag;
      CoreLengthIs(core[1..], mark, tag);
    }
  }

  lemma {:induction false} UntilStops(pre: string, build: string)
    requires forall i | 0 <= i < |pre| :: pre[i] != '+'
    ensures Until(pre, '+') == pre && Until(pre + "+" + build, '+') == pre
  {
    var s := pre + "+" + build;
    if pre != "" {
      assert s[0] == pre[0] && s[1..] == pre[1..] + "+" + build;
      UntilStops(pre[1..], build);
    }
  }

  lemma TagAfter(core: string, mark: char, rest: string)
    requires Plain(core) && mark in {'-', '+'}
    ensures TagOf(core + [mark] + rest) == if mark == '-' then Some(Split(Until(rest, '+'), '.')) else None
  {
    var s := core + [mark] + rest;
    CoreLengthIs(core, mark, rest);
    assert s[|core|..] == [mark] + rest && ([mark] + rest)[1..] == rest;
  }

  lemma NoTag(core: string)
    requires Plain(core)
    ensures TagOf(core) == None
  {
    CoreLengthIs(core, '+', "");
    assert core[|core|..] == "";
  }

  /** The pre-release is what stands between the core and the build metadata. */
  lemma TagRead(core: string, pre: string, build: string)
    requires Plain(core) && forall i | 0 <= i < |pre| :: pre[i] != '+'
    ensures TagOf(core) == None && TagOf(core + "+" + build) == None
    ensures TagOf(core + "-" + pre) == TagOf(core + "-" + (pre + "+" + build)) == Some(Split(pre, '.'))
  {
    NoTag(core);
    TagAfter(core, '+', build);
    TagAfter(core, '-', pre);
    TagAfter(core, '-', pre + "+" + build);
    UntilStops(pre, build);
  }

  // ---------- the gate against the standard ----------

  /** Every component is a number that fits the program's integers. */
  predicate Fits(core: seq<string>) {
    forall i | 0 <= i < |core| :: IsNumber(core[i]) && Value(core[i]) <= MAX_INT
  }

  lemma ComponentIs(core: seq<string>, i: nat)
    requires Numeric(core)
    ensures IsNumber(GetOrZero(core, i)) && ComponentAt(core, i) == Some(Wrap64(NumberAt(core, i)))
    ensures Fits(core) ==> ComponentAt(core, i) == Some(NumberAt(core, i))
  {
    NumericAt(core, i);
    WrappedIsValue(GetOrZero(core, i));
    if i >= |core| { ZeroPadding(core, i); }
  }

  lemma {:induction false} CoresAgree(a: seq<string>, b: seq<string>, i: nat)
    requires Numeric(a) && Numeric(b)
    ensures CoreCompare(a, b, i) in {-1, 0, 1} && CompareFrom(a, b, i) in {Some(-1), Some(0), Some(1)}
    ensures CoreCompare(a, b, i) == 0 ==> CompareFrom(a, b, i) == Some(0)
    ensures Fits(a) && Fits(b) ==> CompareFrom(a, b, i) == Some(CoreCompare(a, b, i))
    decreases |a| + |b| - i
  {
    if i < |a| || i < |b| {
      ComponentIs(a, i);
      ComponentIs(b, i);
      CoresAgree(a, b, i + 1);
    }
  }

  lemma GateIsCompare(required: string, binary: string)
    requires Numeric(Parts(TrimV(required))) && Numeric(Parts(TrimV(binary)))
    ensures GateOpen(required, binary) <==> CompareFrom(Parts(TrimV(binary)), Parts(TrimV(required)), 0) != Some(-1)
  {
    SpecialNotNumeric(TrimV(required));
    SpecialNotNumeric(TrimV(binary));
  }

  /** Whatever the size of the numbers: the gate gives the verdict of section
      11 exactly when, for equal cores, the binary's pre-release does not rank
      below the required one and, for different ones, wrap-around has not
      turned their order. */
  lemma GateAgreesExactly(required: string, binary: string)
    requires Numeric(Parts(TrimV(required))) && Numeric(Parts(TrimV(binary)))
    ensures var r, b := TrimV(required), TrimV(binary);
            var c := CoreCompare(Parts(b), Parts(r), 0);
            (GateOpen(required, binary) <==> Meets(b, r))
            <==> if c == 0 then TagLe(TagOf(r), TagOf(b)) else (c < 0 <==> Less(Parts(b), Parts(r)))
  {
    var r, b := Parts(TrimV(required)), Parts(TrimV(binary));
    GateIsCompare(required, binary);
    CoresAgree(b, r, 0);
    CompareMeans(b, r);
  }

  /** With numbers that fit: exactly when the cores differ or the binary's
      pre-release does not rank below the required one. */
  lemma GateFollowsStandard(required: string, binary: string)
    requires Numeric(Parts(TrimV(required))) && Numeric(Parts(TrimV(binary)))
    requires Fits(Parts(TrimV(required))) && Fits(Parts(TrimV(binary)))
    ensures var r, b := TrimV(required), TrimV(binary);
            (GateOpen(required, binary) <==> Meets(b, r))
            <==> CoreCompare(Parts(b), Parts(r), 0) != 0 || TagLe(TagOf(r), TagOf(b))
  {
    GateIsCompare(required, binary);
    CoresAgree(Parts(TrimV(binary)), Parts(TrimV(required)), 0);
  }

  lemma {:induction false} SameCore(core: seq<string>, i: nat)
    ensures CoreCompare(core, core, i) == 0
    decreases 2 * |core| - i
  {
    if i < |core| { SameCore(core, i + 1); }
  }

  /** The gate lets every pre-release pass where its release is required; the
      standard ranks it below. */
  lemma PrereleaseAdmitted(core: string, pre: string)
    requires Plain(core) && Numeric(Parts(core)) && TrimV(core) == core
    requires forall i | 0 <= i < |pre| :: pre[i] != '+'
    ensures GateOpen(core, core + "-" + pre) && !Meets(core + "-" + pre, core)
  {
    var binary := core + "-" + pre;
    SpecialNotNumeric(core);
    assert binary[0] == core[0];
    assert TrimV(binary) == binary;
    TagsIgnored(core, pre, '-');
    assert Parts(binary) == Parts(core);
    GateIsCompare(core, binary);
    SameCore(Parts(core), 0);
    CoresAgree(Parts(core), Parts(core), 0);
    TagRead(core, pre, "");
  }
}
