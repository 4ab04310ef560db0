/** Euclidean division by a variable. */
module Arithmetic {
  lemma NoSmallMultiple(k: int, m: nat)
    requires m > 0
    ensures k >= 1 ==> k * m >= m
    ensures k <= -1 ==> k * m <= -(m as int)
  {
  }

  lemma ModUnique(x: int, q: int, r: int, m: nat)
    requires m > 0 && x == q * m + r && 0 <= r < m
    ensures x % m == r && x / m == q
  {
    var q', r' := x / m, x % m;
    assert x == q' * m + r';
    assert (q - q') * m == r' - r;
    NoSmallMultiple(q - q', m);
  }

  lemma ModShift(x: int, k: int, m: nat)
    requires m > 0
    ensures (x - k * m) % m == x % m
  {
    assert x == x / m * m + x % m;
    assert x - k * m == (x / m - k) * m + x % m;
    ModUnique(x - k * m, x / m - k, x % m, m);
  }
}
