/** The orders the program sorts by, and a sort that promises no more than
    `slices.SortFunc` does: some permutation that is in order. */
module Ordering {
  /** `a <= b` in Go's string order: the first differing element decides. */
  predicate StringLe(a: string, b: string) {
    a == "" || (b != "" && (a[0] < b[0] || (a[0] == b[0] && StringLe(a[1..], b[1..]))))
  }

  lemma {:induction false} StringLeRefl(a: string)
    ensures StringLe(a, a)
  {
    if a != "" { StringLeRefl(a[1..]); }
  }

  lemma {:induction false} StringLeTotal(a: string, b: string)
    ensures StringLe(a, b) || StringLe(b, a)
  {
    if a != "" && b != "" && a[0] == b[0] { StringLeTotal(a[1..], b[1..]); }
  }

  lemma {:induction false} StringLeAntisym(a: string, b: string)
    requires StringLe(a, b) && StringLe(b, a)
    ensures a == b
  {
    if a != "" && b != "" {
      StringLeAntisym(a[1..], b[1..]);
      assert a == [a[0]] + a[1..] && b == [b[0]] + b[1..];
    }
  }

  lemma {:induction false} StringLeTrans(a: string, b: string, c: string)
    requires StringLe(a, b) && StringLe(b, c)
    ensures StringLe(a, c)
  {
    if a != "" && a[0] == b[0] && b[0] == c[0] { StringLeTrans(a[1..], b[1..], c[1..]); }
  }

  ghost predicate TotalPreorder<T(!new)>(le: (T, T) -> bool) {
    && (forall a, b :: le(a, b) || le(b, a))
    && (forall a, b, c :: le(a, b) && le(b, c) ==> le(a, c))
  }

  ghost predicate Sorted<T(!new)>(le: (T, T) -> bool, xs: seq<T>) {
    forall i, j | 0 <= i < j < |xs| :: le(xs[i], xs[j])
  }

  lemma StringLeIsTotalPreorder()
    ensures TotalPreorder(StringLe)
  {
    forall a, b ensures StringLe(a, b) || StringLe(b, a) { StringLeTotal(a, b); }
    forall a, b, c | StringLe(a, b) && StringLe(b, c) ensures StringLe(a, c) { StringLeTrans(a, b, c); }
  }

  lemma InsertSorted<T(!new)>(le: (T, T) -> bool, ys: seq<T>, k: nat, x: T)
    requires TotalPreorder(le) && Sorted(le, ys) && k <= |ys|
    requires forall j | 0 <= j < k :: le(ys[j], x)
    requires k < |ys| ==> !le(ys[k], x)
    ensures Sorted(le, ys[..k] + [x] + ys[k..])
  {
    forall j | k <= j < |ys| ensures le(x, ys[j]) {
      assert le(x, ys[k]);
      assert j == k || le(ys[k], ys[j]);
    }
    var zs := ys[..k] + [x] + ys[k..];
    forall i, j | 0 <= i < j < |zs| ensures le(zs[i], zs[j]) {
      assert zs[i] == if i < k then ys[i] else if i == k then x else ys[i - 1];
      assert zs[j] == if j < k then ys[j] else if j == k then x else ys[j - 1];
    }
  }

  lemma InsertMultiset<T>(ys: seq<T>, k: nat, x: T)
    requires k <= |ys|
    ensures multiset(ys[..k] + [x] + ys[k..]) == multiset(ys) + multiset{x}
  {
    assert ys == ys[..k] + ys[k..];
  }

  /** Callers may rely on the contract only: the order of elements that
      compare equal is not promised, as for an unstable sort. */
  method SortFunc<T(!new)>(xs: seq<T>, le: (T, T) -> bool) returns (ys: seq<T>)
    requires TotalPreorder(le)
    ensures multiset(ys) == multiset(xs)
    ensures Sorted(le, ys)
  {
    ys := [];
    for i := 0 to |xs|
      invariant multiset(ys) == multiset(xs[..i])
      invariant Sorted(le, ys)
    {
      var k := 0;
      while k < |ys| && le(ys[k], xs[i])
        invariant 0 <= k <= |ys|
        invariant forall j | 0 <= j < k :: le(ys[j], xs[i])
      {
        k := k + 1;
      }
      InsertSorted(le, ys, k, xs[i]);
      InsertMultiset(ys, k, xs[i]);
      assert xs[..i + 1] == xs[..i] + [xs[i]];
      ys := ys[..k] + [xs[i]] + ys[k..];
    }
    assert xs[..|xs|] == xs;
  }

  lemma SortedHeadLeast(xs: seq<string>, x: string)
    requires Sorted(StringLe, xs) && x in xs
    ensures StringLe(xs[0], x)
  {
    StringLeRefl(x);
  }

  lemma SortedHeadsAgree(xs: seq<string>, ys: seq<string>)
    requires xs != [] && ys != [] && multiset(xs) == multiset(ys)
    requires Sorted(StringLe, xs) && Sorted(StringLe, ys)
    ensures xs[0] == ys[0]
  {
    assert xs[0] in multiset(ys) && ys[0] in multiset(xs);
    SortedHeadLeast(xs, ys[0]);
    SortedHeadLeast(ys, xs[0]);
    StringLeAntisym(xs[0], ys[0]);
  }

  lemma TailsAgree<T>(xs: seq<T>, ys: seq<T>)
    requires xs != [] && ys != [] && multiset(xs) == multiset(ys) && xs[0] == ys[0]
    ensures multiset(xs[1..]) == multiset(ys[1..])
  {
    assert xs == [xs[0]] + xs[1..] && ys == [ys[0]] + ys[1..];
    assert multiset(xs[1..]) == multiset(xs) - multiset{xs[0]};
    assert multiset(ys[1..]) == multiset(ys) - multiset{ys[0]};
  }

  /** Two sorted lists with the same elements are equal. */
  lemma {:induction false} SortedUnique(xs: seq<string>, ys: seq<string>)
    requires Sorted(StringLe, xs) && Sorted(StringLe, ys)
    requires multiset(xs) == multiset(ys)
    ensures xs == ys
    decreases |xs|
  {
    assert |multiset(xs)| == |xs| && |multiset(ys)| == |ys|;
    if xs != [] {
      SortedHeadsAgree(xs, ys);
      TailsAgree(xs, ys);
      SortedUnique(xs[1..], ys[1..]);
      assert xs == [xs[0]] + xs[1..] && ys == [ys[0]] + ys[1..];
    }
  }
}
