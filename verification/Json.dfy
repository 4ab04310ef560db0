/** The canonical JSON printer of internal/hash: strings are quoted as
    `json.Marshal` quotes them and object keys are printed in sorted order.
    The main result is that a printed tree can be read back in one way only. */
module Json {
  import opened Strings
  import opened Decimals
  import opened Ordering

  /** A decoded JSON document. A number is the integer whose digits are printed. */
  datatype Json =
    | Null
    | Bool(b: bool)
    | Num(n: int)
    | Str(s: string)
    | Arr(items: seq<Json>)
    | Obj(fields: map<string, Json>)

  // ---------- string quoting ----------

  function HexChar(d: nat): (c: char)
    requires d < 16
  {
    if d < 10 then '0' + d as char else 'a' + (d - 10) as char
  }

  function HexEscape(n: nat): string
    requires n < 0x10000
  {
    ['\\', 'u', HexChar(n / 4096), HexChar(n / 256 % 16), HexChar(n / 16 % 16), HexChar(n % 16)]
  }

  predicate NeedsHex(c: char) {
    c in {'<', '>', '&', 0x2028 as char, 0x2029 as char}
    || (c < ' ' && c as int !in {8, 9, 10, 12, 13})
  }

  /** How one character appears inside a quoted string. */
  function Escape(c: char): (s: string)
    ensures s != "" && s[0] != '"'
  {
    if c == '"' || c == '\\' then ['\\', c]
    else if c == 8 as char then "\\b"
    else if c == 12 as char then "\\f"
    else if c == '\n' then "\\n"
    else if c == '\r' then "\\r"
    else if c == '\t' then "\\t"
    else if NeedsHex(c) then HexEscape(c as int)
    else [c]
  }

  /** The escaped characters of `s` and the closing quote. */
  function QuotedRest(s: string): string {
    if s == "" then "\"" else Escape(s[0]) + QuotedRest(s[1..])
  }

  function Quote(s: string): string {
    "\"" + QuotedRest(s)
  }

  function HexValue(c: char): nat {
    if '0' <= c <= '9' then (c - '0') as nat
    else if 'a' <= c <= 'f' then (c - 'a') as nat + 10
    else 0
  }

  /** Reads the first character of a quoted string's inside: its value and
      how many characters it takes. */
  function Unescape(s: string): (int, nat)
    requires s != ""
  {
    if s[0] != '\\' || |s| < 2 then (s[0] as int, 1)
    else if s[1] == 'u' && |s| >= 6 then
      (HexValue(s[2]) * 4096 + HexValue(s[3]) * 256 + HexValue(s[4]) * 16 + HexValue(s[5]), 6)
    else
      ((match s[1]
        case 'b' => 8
        case 'f' => 12
        case 'n' => 10
        case 'r' => 13
        case 't' => 9
        case c => c as int), 2)
  }

  lemma HexValueOfChar(d: nat)
    requires d < 16
    ensures HexValue(HexChar(d)) == d
  {
  }

  lemma HexSplit(n: nat)
    requires n < 0x10000
    ensures n / 4096 < 16
    ensures n == n / 4096 * 4096 + n / 256 % 16 * 256 + n / 16 % 16 * 16 + n % 16
  {
    assert n == n / 16 * 16 + n % 16;
    assert n / 16 == n / 256 * 16 + n / 16 % 16;
    assert n / 256 == n / 4096 * 16 + n / 256 % 16;
  }

  lemma UnescapeDigits(d0: nat, d1: nat, d2: nat, d3: nat, rest: string)
    requires d0 < 16 && d1 < 16 && d2 < 16 && d3 < 16
    ensures Unescape(['\\', 'u', HexChar(d0), HexChar(d1), HexChar(d2), HexChar(d3)] + rest) == (d0 * 4096 + d1 * 256 + d2 * 16 + d3, 6)
  {
    HexValueOfChar(d0);
    HexValueOfChar(d1);
    HexValueOfChar(d2);
    HexValueOfChar(d3);
  }

  lemma UnescapeHex(n: nat, rest: string)
    requires n < 0x10000
    ensures Unescape(HexEscape(n) + rest) == (n as int, 6)
  {
    HexSplit(n);
    UnescapeDigits(n / 4096, n / 256 % 16, n / 16 % 16, n % 16, rest);
  }

  lemma UnescapeEscape(c: char, rest: string)
    ensures Unescape(Escape(c) + rest) == (c as int, |Escape(c)|)
  {
    if NeedsHex(c) {
      assert Escape(c) == HexEscape(c as int);
      UnescapeHex(c as int, rest);
    } else {
      var s := Escape(c) + rest;
      assert s[0] == Escape(c)[0] && (|Escape(c)| == 2 ==> s[1] == Escape(c)[1]);
    }
  }

  lemma CancelPrefix(p: string, x: string, y: string)
    requires p + x == p + y
    ensures x == y
  {
    assert x == (p + x)[|p|..] && y == (p + y)[|p|..];
  }

  lemma EscapeUnique(c: char, d: char, x: string, y: string)
    requires Escape(c) + x == Escape(d) + y
    ensures c == d && x == y
  {
    UnescapeEscape(c, x);
    UnescapeEscape(d, y);
    CancelPrefix(Escape(c), x, y);
  }

  lemma QuotedRestStep(a: string, x: string)
    ensures a == "" ==> QuotedRest(a) + x == "\"" + x
    ensures a != "" ==> QuotedRest(a) + x == Escape(a[0]) + (QuotedRest(a[1..]) + x)
    ensures QuotedRest(a) + x != ""
    ensures a == "" <==> (QuotedRest(a) + x)[0] == '"'
  {
    if a != "" { Assoc(Escape(a[0]), QuotedRest(a[1..]), x); }
  }

  /** Quoting is injective and self-delimiting. */
  lemma {:induction false} QuotedRestUnique(a: string, b: string, x: string, y: string)
    requires QuotedRest(a) + x == QuotedRest(b) + y
    ensures a == b && x == y
    decreases |a|
  {
    QuotedRestStep(a, x);
    QuotedRestStep(b, y);
    if a == "" {
      CancelPrefix("\"", x, y);
    } else {
      EscapeUnique(a[0], b[0], QuotedRest(a[1..]) + x, QuotedRest(b[1..]) + y);
      QuotedRestUnique(a[1..], b[1..], x, y);
      assert a == [a[0]] + a[1..] && b == [b[0]] + b[1..];
    }
  }

  lemma QuoteStep(a: string, x: string)
    ensures Quote(a) + x == "\"" + (QuotedRest(a) + x)
  {
  }

  lemma QuoteUnique(a: string, b: string, x: string, y: string)
    requires Quote(a) + x == Quote(b) + y
    ensures a == b && x == y
  {
    var u, v := QuotedRest(a) + x, QuotedRest(b) + y;
    QuoteStep(a, x);
    QuoteStep(b, y);
    CancelPrefix("\"", u, v);
    QuotedRestUnique(a, b, x, y);
  }

  // ---------- sorted keys ----------

  ghost predicate IsSortedList(s: set<string>, xs: seq<string>) {
    multiset(xs) == multiset(s) && Sorted(StringLe, xs)
  }

  lemma {:induction false} SortedListExists(s: set<string>) returns (xs: seq<string>)
    ensures IsSortedList(s, xs)
  {
    StringLeIsTotalPreorder();
    if s == {} {
      xs := [];
    } else {
      var k :| k in s;
      var ys := SortedListExists(s - {k});
      var i := 0;
      while i < |ys| && StringLe(ys[i], k)
        invariant 0 <= i <= |ys|
        invariant forall j | 0 <= j < i :: StringLe(ys[j], k)
      {
        i := i + 1;
      }
      InsertSorted(StringLe, ys, i, k);
      InsertMultiset(ys, i, k);
      xs := ys[..i] + [k] + ys[i..];
      assert multiset(s) == multiset(s - {k}) + multiset{k};
    }
  }

  /** The elements of a set, each once, in string order. */
  ghost function SortedKeys(s: set<string>): (xs: seq<string>)
    ensures IsSortedList(s, xs)
    ensures forall k :: k in xs <==> k in s
  {
    assert exists xs :: IsSortedList(s, xs) by { var xs := SortedListExists(s); }
    var xs :| IsSortedList(s, xs);
    assert forall k :: k in xs <==> k in multiset(xs);
    xs
  }

  // ---------- the printer ----------

  function Comma(first: bool): string {
    if first then "" else ","
  }

  /** The remaining parts of a list, separated by commas, and what closes it. */
  function Joined(parts: seq<string>, first: bool, close: string): string {
    if parts == [] then close else Comma(first) + parts[0] + Joined(parts[1..], false, close)
  }

  /** The canonical text of a document. */
  ghost function Print(j: Json): string
    decreases j, 1
  {
    match j
    case Null => "null"
    case Bool(b) => if b then "true" else "false"
    case Num(n) => Format(n)
    case Str(s) => Quote(s)
    case Arr(items) => "[" + Joined(ItemTexts(j), true, "]")
    case Obj(fields) => "{" + Joined(FieldTexts(j), true, "}")
  }

  ghost function ItemTexts(j: Json): (ts: seq<string>)
    requires j.Arr?
    ensures |ts| == |j.items| && forall i | 0 <= i < |ts| :: ts[i] == Print(j.items[i])
    decreases j, 0
  {
    seq(|j.items|, i requires 0 <= i < |j.items| => Print(j.items[i]))
  }

  /** The fields of an object in the order of their keys. */
  ghost function FieldTexts(j: Json): (ts: seq<string>)
    requires j.Obj?
    ensures var keys := SortedKeys(j.fields.Keys);
            |ts| == |keys| && forall i | 0 <= i < |ts| :: ts[i] == FieldText(keys[i], Print(j.fields[keys[i]]))
    decreases j, 0
  {
    var keys := SortedKeys(j.fields.Keys);
    seq(|keys|, i requires 0 <= i < |keys| => FieldText(keys[i], Print(j.fields[keys[i]])))
  }

  function FieldText(key: string, value: string): string {
    Quote(key) + ":" + value
  }

  /** `marshalSorted`: whatever order the map is iterated in and however the
      sort breaks ties, the bytes are those of `Print`. */
  method MarshalSorted(v: Json) returns (out: string)
    ensures out == Print(v)
    decreases v
  {
    match v
    case Obj(fields) => out := MarshalObject(v);
    case Arr(items) => out := MarshalArray(v);
    case Null => out := "null";
    case Bool(b) => out := if b then "true" else "false";
    case Num(n) => out := Format(n);
    case Str(s) => out := Quote(s);
  }

  method CollectKeys(fields: map<string, Json>) returns (keys: seq<string>)
    ensures keys == SortedKeys(fields.Keys)
  {
    var rest := fields.Keys;
    keys := [];
    while rest != {}
      invariant rest <= fields.Keys && multiset(keys) + multiset(rest) == multiset(fields.Keys)
      decreases rest
    {
      var k :| k in rest;
      keys, rest := keys + [k], rest - {k};
    }
    StringLeIsTotalPreorder();
    keys := SortFunc(keys, StringLe);
    SortedUnique(keys, SortedKeys(fields.Keys));
  }

  /** One part of a list has been written. */
  lemma PartWritten(parts: seq<string>, i: nat, close: string, before: string, after: string)
    requires i < |parts| && after == before + Comma(i == 0) + parts[i]
    ensures before + Joined(parts[i..], i == 0, close) == after + Joined(parts[i + 1..], false, close)
  {
    assert parts[i..][1..] == parts[i + 1..];
    Assoc4(before, Comma(i == 0), parts[i], Joined(parts[i + 1..], false, close));
  }

  lemma FieldWritten(before: string, key: string, value: string)
    ensures before + Quote(key) + ":" + value == before + FieldText(key, value)
  {
    Assoc4(before, Quote(key), ":", value);
  }

  method MarshalObject(v: Json) returns (out: string)
    requires v.Obj?
    ensures out == Print(v)
    decreases v, 0
  {
    var keys := CollectKeys(v.fields);
    ghost var parts := FieldTexts(v);
    out := "{";
    for i := 0 to |keys|
      invariant out + Joined(parts[i..], i == 0, "}") == Print(v)
    {
      ghost var p := out;
      if i > 0 { out := out + ","; }
      assert out == p + Comma(i == 0);
      ghost var q := out;
      out := out + Quote(keys[i]);
      out := out + ":";
      var vb := MarshalSorted(v.fields[keys[i]]);
      out := out + vb;
      FieldWritten(q, keys[i], vb);
      PartWritten(parts, i, "}", p, out);
    }
    out := out + "}";
  }

  method MarshalArray(v: Json) returns (out: string)
    requires v.Arr?
    ensures out == Print(v)
    decreases v, 0
  {
    ghost var parts := ItemTexts(v);
    out := "[";
    for i := 0 to |v.items|
      invariant out + Joined(parts[i..], i == 0, "]") == Print(v)
    {
      ghost var p := out;
      if i > 0 { out := out + ","; }
      assert out == p + Comma(i == 0);
      var ib := MarshalSorted(v.items[i]);
      out := out + ib;
      PartWritten(parts, i, "]", p, out);
    }
    out := out + "]";
  }

  // ---------- unique reading: numbers ----------

  /** What may follow a value inside a document, or the end of the text. */
  predicate Delimited(x: string) {
    x == "" || x[0] in {',', ']', '}'}
  }

  lemma DigitRunNotShorter(a: string, b: string, x: string, y: string)
    requires AllDigits(b) && a + x == b + y
    requires x == "" || !IsDigit(x[0])
    ensures |b| <= |a|
  {
    assert forall i | 0 <= i < |b| :: IsDigit((b + y)[i]);
    assert |a + x| == |b + y|;
    assert x != "" ==> (a + x)[|a|] == x[0];
  }

  lemma DigitRunUnique(a: string, b: string, x: string, y: string)
    requires AllDigits(a) && AllDigits(b) && a + x == b + y
    requires (x == "" || !IsDigit(x[0])) && (y == "" || !IsDigit(y[0]))
    ensures a == b && x == y
  {
    DigitRunNotShorter(a, b, x, y);
    DigitRunNotShorter(b, a, y, x);
    assert a == (a + x)[..|a|] && b == (b + y)[..|a|];
    CancelPrefix(a, x, y);
  }

  lemma DigitsUnique(m: nat, n: nat, x: string, y: string)
    requires Digits(m) + x == Digits(n) + y && Delimited(x) && Delimited(y)
    ensures m == n && x == y
  {
    DigitRunUnique(Digits(m), Digits(n), x, y);
    DigitsInjective(m, n);
  }

  lemma NumberSign(m: int, x: string)
    ensures Format(m) + x != "" && ((Format(m) + x)[0] == '-' <==> m < 0)
    ensures m < 0 ==> Format(m) + x == "-" + (Digits(-m) + x)
  {
    assert m >= 0 ==> IsDigit(Digits(m)[0]);
  }

  lemma NumberUnique(m: int, n: int, x: string, y: string)
    requires Format(m) + x == Format(n) + y && Delimited(x) && Delimited(y)
    ensures m == n && x == y
  {
    NumberSign(m, x);
    NumberSign(n, y);
    if m < 0 {
      CancelPrefix("-", Digits(-m) + x, Digits(-n) + y);
      DigitsUnique(-m, -n, x, y);
    } else {
      DigitsUnique(m, n, x, y);
    }
  }

  // ---------- unique reading: lists ----------

  /** Neither text is the other one continued by a delimiter. */
  ghost predicate Apart(p: string, q: string) {
    forall x, y | Delimited(x) && Delimited(y) && p + x == q + y :: p == q
  }

  /** The text does not start like what separates or closes a list. */
  predicate Opens(p: string) {
    p != "" && p[0] !in {',', ']', '}'}
  }

  lemma JoinedStep(parts: seq<string>, first: bool, close: string, x: string)
    requires parts != []
    ensures Joined(parts, first, close) + x == Comma(first) + (parts[0] + (Joined(parts[1..], false, close) + x))
  {
    Assoc4("", Comma(first), parts[0], Joined(parts[1..], false, close));
    Assoc4(Comma(first), parts[0], Joined(parts[1..], false, close), x);
  }

  lemma JoinedDelimited(parts: seq<string>, close: string, x: string)
    requires close in {"]", "}"}
    ensures Delimited(Joined(parts, false, close) + x)
  {
  }

  lemma JoinedFirst(parts: seq<string>, first: bool, close: string, x: string)
    requires close in {"]", "}"} && forall p | p in parts :: Opens(p)
    ensures Joined(parts, first, close) + x != ""
    ensures parts == [] <==> (Joined(parts, first, close) + x)[0] == close[0]
  {
    if parts != [] {
      JoinedStep(parts, first, close, x);
      assert parts[0] in parts;
    }
  }

  lemma PartUnique(p: string, q: string, comma: string, x: string, y: string)
    requires Apart(p, q) && Delimited(x) && Delimited(y) && comma + (p + x) == comma + (q + y)
    ensures p == q && x == y
  {
    CancelPrefix(comma, p + x, q + y);
    CancelPrefix(p, x, y);
  }

  /** A joined list can be read back part by part. */
  lemma {:induction false} JoinedUnique(ps: seq<string>, qs: seq<string>, first: bool, close: string, x: string, y: string)
    requires close in {"]", "}"} && Joined(ps, first, close) + x == Joined(qs, first, close) + y
    requires (forall p | p in ps :: Opens(p)) && (forall q | q in qs :: Opens(q))
    requires forall i | 0 <= i < |ps| && i < |qs| :: Apart(ps[i], qs[i])
    ensures ps == qs && x == y
  {
    JoinedFirst(ps, first, close, x);
    JoinedFirst(qs, first, close, y);
    if ps == [] {
      CancelPrefix(close, x, y);
    } else {
      JoinedStep(ps, first, close, x);
      JoinedStep(qs, first, close, y);
      JoinedDelimited(ps[1..], close, x);
      JoinedDelimited(qs[1..], close, y);
      PartUnique(ps[0], qs[0], Comma(first), Joined(ps[1..], false, close) + x, Joined(qs[1..], false, close) + y);
      assert forall i | 0 <= i < |ps| - 1 && i < |qs| - 1 :: ps[1..][i] == ps[i + 1] && qs[1..][i] == qs[i + 1];
      JoinedUnique(ps[1..], qs[1..], false, close, x, y);
      assert ps == [ps[0]] + ps[1..] && qs == [qs[0]] + qs[1..];
    }
  }

  // ---------- unique reading: documents ----------

  /** The first character of a printed value tells its kind. */
  function FirstChar(j: Json): char {
    match j
    case Null => 'n'
    case Bool(b) => if b then 't' else 'f'
    case Num(n) => if n < 0 then '-' else '0'
    case Str(_) => '"'
    case Arr(_) => '['
    case Obj(_) => '{'
  }

  lemma PrintFirst(j: Json)
    ensures Print(j) != "" && Opens(Print(j))
    ensures if j.Num? && j.n >= 0 then IsDigit(Print(j)[0]) else Print(j)[0] == FirstChar(j)
  {
  }

  lemma SameKind(a: Json, b: Json, x: string, y: string)
    requires Print(a) + x == Print(b) + y
    ensures a.Null? == b.Null? && a.Num? == b.Num? && a.Str? == b.Str? && a.Arr? == b.Arr? && a.Obj? == b.Obj?
    ensures a.Bool? == b.Bool? && (a.Bool? ==> a == b)
  {
    PrintFirst(a);
    PrintFirst(b);
    assert (Print(a) + x)[0] == Print(a)[0] && (Print(b) + y)[0] == Print(b)[0];
  }

  lemma ItemsOpen(a: Json)
    requires a.Arr?
    ensures forall t | t in ItemTexts(a) :: Opens(t)
  {
    forall i | 0 <= i < |a.items| ensures Opens(ItemTexts(a)[i]) { PrintFirst(a.items[i]); }
  }

  lemma FieldsOpen(a: Json)
    requires a.Obj?
    ensures forall t | t in FieldTexts(a) :: Opens(t)
  {
    forall i | 0 <= i < |FieldTexts(a)| ensures Opens(FieldTexts(a)[i]) {
      FieldOpens(SortedKeys(a.fields.Keys)[i], Print(a.fields[SortedKeys(a.fields.Keys)[i]]));
    }
  }

  lemma FieldOpens(key: string, value: string)
    ensures Opens(FieldText(key, value))
  {
    assert FieldText(key, value)[0] == Quote(key)[0];
  }

  /** Two fields that read alike have the same key and then the same value text. */
  lemma FieldUnique(k: string, l: string, u: string, v: string, x: string, y: string)
    requires FieldText(k, u) + x == FieldText(l, v) + y
    ensures k == l && u + x == v + y
  {
    Assoc4(Quote(k), ":", u, x);
    Assoc4(Quote(l), ":", v, y);
    QuoteUnique(k, l, ":" + (u + x), ":" + (v + y));
    CancelPrefix(":", u + x, v + y);
  }

  lemma {:induction false} ValuesApart(a: Json, b: Json)
    ensures Apart(Print(a), Print(b))
    decreases a, 2
  {
    forall x, y | Delimited(x) && Delimited(y) && Print(a) + x == Print(b) + y ensures Print(a) == Print(b) {
      PrintUnique(a, b, x, y);
    }
  }

  lemma {:induction false} FieldsApart(k: string, a: Json, l: string, b: Json)
    ensures Apart(FieldText(k, Print(a)), FieldText(l, Print(b)))
    decreases a, 3
  {
    var u, v := Print(a), Print(b);
    ValuesApart(a, b);
    forall x, y | Delimited(x) && Delimited(y) && FieldText(k, u) + x == FieldText(l, v) + y ensures FieldText(k, u) == FieldText(l, v) {
      FieldUnique(k, l, u, v, x, y);
    }
  }

  lemma {:induction false} ItemsUnique(a: Json, b: Json, x: string, y: string)
    requires a.Arr? && b.Arr?
    requires Joined(ItemTexts(a), true, "]") + x == Joined(ItemTexts(b), true, "]") + y
    ensures a == b && x == y
    decreases a, 0
  {
    var ps, qs := ItemTexts(a), ItemTexts(b);
    ItemsOpen(a);
    ItemsOpen(b);
    forall i | 0 <= i < |ps| && i < |qs| ensures Apart(ps[i], qs[i]) { ValuesApart(a.items[i], b.items[i]); }
    JoinedUnique(ps, qs, true, "]", x, y);
    forall i | 0 <= i < |ps| ensures a.items[i] == b.items[i] {
      assert ps[i] == qs[i];
      PrintUnique(a.items[i], b.items[i], "", "");
    }
  }

  lemma {:induction false} FieldsUnique(a: Json, b: Json, x: string, y: string)
    requires a.Obj? && b.Obj?
    requires Joined(FieldTexts(a), true, "}") + x == Joined(FieldTexts(b), true, "}") + y
    ensures a == b && x == y
    decreases a, 0
  {
    var ps, qs := FieldTexts(a), FieldTexts(b);
    var ka, kb := SortedKeys(a.fields.Keys), SortedKeys(b.fields.Keys);
    FieldsOpen(a);
    FieldsOpen(b);
    forall i | 0 <= i < |ps| && i < |qs| ensures Apart(ps[i], qs[i]) {
      FieldsApart(ka[i], a.fields[ka[i]], kb[i], b.fields[kb[i]]);
    }
    JoinedUnique(ps, qs, true, "}", x, y);
    forall i | 0 <= i < |ps| ensures ka[i] == kb[i] && a.fields[ka[i]] == b.fields[kb[i]] {
      FieldUnique(ka[i], kb[i], Print(a.fields[ka[i]]), Print(b.fields[kb[i]]), "", "");
      PrintUnique(a.fields[ka[i]], b.fields[kb[i]], "", "");
    }
    SameFields(a.fields, b.fields, ka, kb);
  }

  lemma SameFields(f: map<string, Json>, g: map<string, Json>, ka: seq<string>, kb: seq<string>)
    requires (forall k :: k in ka <==> k in f) && (forall k :: k in kb <==> k in g) && |ka| == |kb|
    requires forall i | 0 <= i < |ka| :: ka[i] == kb[i] && f[ka[i]] == g[kb[i]]
    ensures f == g
  {
    assert ka == kb;
    assert f.Keys == g.Keys;
    forall k | k in f ensures f[k] == g[k] {
      var i :| 0 <= i < |ka| && ka[i] == k;
    }
  }

  /** Canonical printing can be read back in one way: equal texts, up to a
      delimiter, come from equal documents. */
  lemma {:induction false} PrintUnique(a: Json, b: Json, x: string, y: string)
    requires Print(a) + x == Print(b) + y && Delimited(x) && Delimited(y)
    ensures a == b && x == y
    decreases a, 1
  {
    SameKind(a, b, x, y);
    match a
    case Null => CancelPrefix("null", x, y);
    case Bool(t) => CancelPrefix(Print(a), x, y);
    case Num(n) => NumberUnique(a.n, b.n, x, y);
    case Str(s) => QuoteUnique(a.s, b.s, x, y);
    case Arr(items) =>
      OpenedUnique("[", Joined(ItemTexts(a), true, "]"), Joined(ItemTexts(b), true, "]"), x, y);
      ItemsUnique(a, b, x, y);
    case Obj(fields) =>
      OpenedUnique("{", Joined(FieldTexts(a), true, "}"), Joined(FieldTexts(b), true, "}"), x, y);
      FieldsUnique(a, b, x, y);
  }

  lemma OpenedUnique(open: string, s: string, t: string, x: string, y: string)
    requires open + s + x == open + t + y
    ensures s + x == t + y
  {
    Assoc(open, s, x);
    Assoc(open, t, y);
    CancelPrefix(open, s + x, t + y);
  }

  /** Distinct documents never print alike. */
  lemma PrintInjective(a: Json, b: Json)
    ensures Print(a) == Print(b) <==> a == b
  {
    if Print(a) == Print(b) {
      PrintUnique(a, b, "", "");
    }
  }
}
