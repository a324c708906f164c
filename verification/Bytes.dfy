/** Bytes and the wrap-around of the source's unsigned integers. */
module Bytes {

  type byte = b: int | 0 <= b < 0x100

  const U16 := 0x1_0000
  const U32 := 0x1_0000_0000
  const U64 := 0x1_0000_0000_0000_0000

  function Min(a: int, b: int): int {
    if a <= b then a else b
  }

  function Max(a: int, b: int): int {
    if a >= b then a else b
  }

  /** Numbers that differ by a multiple of `m` have the same remainder. */
  lemma SameRemainder(x: int, y: int, k: int, m: int)
    requires 0 < m && x == y + k * m
    ensures x % m == y % m
  {
    var q, r := y / m, y % m;
    assert y == q * m + r;
    assert x == (q + k) * m + r;
    RemainderUnique(x, q + k, r, m);
  }

  lemma RemainderUnique(x: int, q: int, r: int, m: int)
    requires 0 <= r < m && x == q * m + r
    ensures x % m == r && x / m == q
  {
    var d := x / m - q;
    assert x / m * m + x % m == x;
    assert d * m == r - x % m by { Distribute(x / m, q, m); }
    if d >= 1 { Scale(1, d, m); }
    if d <= -1 { Scale(d, -1, m); }
  }

  lemma Distribute(a: int, b: int, m: int)
    ensures (a - b) * m == a * m - b * m
  {
  }

  lemma Scale(a: int, b: int, m: nat)
    requires a <= b
    ensures a * m <= b * m
  {
  }
}
