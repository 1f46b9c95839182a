/** Definitions that several modules share. */
module Basics {
  datatype Option<T> = None | Some(value: T)

  ghost function Elems(l: seq<nat>): (r: set<nat>) {
    set x | x in l
  }

  lemma SubsetCard(a: set<nat>, b: set<nat>)
    requires a <= b
    ensures |a| <= |b|
  {
    assert b == a + (b - a);
  }

  // Remainders, as the rings and page tables use them

  lemma Divided(m: nat, q: int, r: nat)
    requires r < m
    ensures (m * q + r) / m == q && (m * q + r) % m == r
  {
    var x := m * q + r;
    var d := q - x / m;
    assert m * d == x % m - r;
    assert d >= 1 ==> m * d >= m;
    assert d <= -1 ==> m * d + m <= 0;
  }

  lemma Shifted(m: nat, x: int, q: int)
    requires m > 0
    ensures (m * q + x) % m == x % m
  {
    assert m * q + x == m * (q + x / m) + x % m;
    Divided(m, q + x / m, x % m);
  }

  lemma SumOf(m: nat, x: int, k: int)
    requires m > 0
    ensures (x + k) % m == (x % m + k) % m
  {
    Shifted(m, x % m + k, x / m);
    assert m * (x / m) + (x % m + k) == x + k;
  }

  lemma RemApart(m: nat, x: nat, k: nat)
    requires 0 < k < m
    ensures (x + k) % m != x % m
  {
    SumOf(m, x, k);
    var r := x % m + k;
    if r < m { Divided(m, 0, r); } else { Divided(m, 1, r - m); }
  }
}
