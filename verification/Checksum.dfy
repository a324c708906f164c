/**
  The weak rolling checksum of the delta scan. `Weak` is the byte-by-byte
  definition; `WeakChecksum` is the loop unrolled by four, in 32-bit arithmetic.
 */
module Checksum {
  import opened Bytes

  /** Bytes count as signed. */
  function Signed(b: byte): int {
    if b < 0x80 then b else b - 0x100
  }

  /** A signed byte converted to an unsigned 32-bit word. */
  function Extend(b: byte): nat {
    Signed(b) % U32
  }

  function PlainSum(w: seq<byte>): int {
    if w == [] then 0 else PlainSum(w[..|w| - 1]) + Signed(w[|w| - 1])
  }

  /** The sum of the plain sums of all non-empty prefixes. */
  function PrefixSum(w: seq<byte>): int {
    if w == [] then 0 else PrefixSum(w[..|w| - 1]) + PlainSum(w)
  }

  function Weak(w: seq<byte>): nat {
    PlainSum(w) % U16 + PrefixSum(w) % U16 * U16
  }

  lemma SumsOfAppend(w: seq<byte>, b: byte)
    ensures PlainSum(w + [b]) == PlainSum(w) + Signed(b)
    ensures PrefixSum(w + [b]) == PrefixSum(w) + PlainSum(w) + Signed(b)
  {
    assert (w + [b])[..|w|] == w;
  }

  /** What dropping the first byte takes from both sums. */
  lemma {:induction false} SumsOfTail(w: seq<byte>)
    requires w != []
    ensures PlainSum(w) == Signed(w[0]) + PlainSum(w[1..])
    ensures PrefixSum(w) == |w| * Signed(w[0]) + PrefixSum(w[1..])
  {
    var front := w[..|w| - 1];
    if front == [] {
      assert w[1..] == [];
      SumsOfAppend([], w[0]);
      assert w == [] + [w[0]];
    } else {
      var last := w[|w| - 1];
      SumsOfTail(front);
      assert w == front + [last] && w[1..] == front[1..] + [last];
      SumsOfAppend(front, last);
      SumsOfAppend(front[1..], last);
      Distribute(|w|, 1, Signed(w[0]));
    }
  }

  /** Four bytes at once, as the unrolled loop takes them. */
  lemma SumsOfFour(w: seq<byte>, i: nat)
    requires i + 4 <= |w|
    ensures PlainSum(w[..i + 4])
         == PlainSum(w[..i]) + Signed(w[i]) + Signed(w[i + 1]) + Signed(w[i + 2]) + Signed(w[i + 3])
    ensures PrefixSum(w[..i + 4])
         == PrefixSum(w[..i]) + 4 * (PlainSum(w[..i]) + Signed(w[i]))
            + 3 * Signed(w[i + 1]) + 2 * Signed(w[i + 2]) + Signed(w[i + 3])
  {
    forall k | i <= k < i + 4
      ensures PlainSum(w[..k + 1]) == PlainSum(w[..k]) + Signed(w[k])
      ensures PrefixSum(w[..k + 1]) == PrefixSum(w[..k]) + PlainSum(w[..k]) + Signed(w[k])
    {
      SumsOfAppend(w[..k], w[k]);
      assert w[..k + 1] == w[..k] + [w[k]];
    }
    assert PlainSum(w[..i + 1 + 1]) == PlainSum(w[..i + 1]) + Signed(w[i + 1]);
    assert PlainSum(w[..i + 2 + 1]) == PlainSum(w[..i + 2]) + Signed(w[i + 2]);
    assert PlainSum(w[..i + 3 + 1]) == PlainSum(w[..i + 3]) + Signed(w[i + 3]);
  }

  lemma ExtendIsSigned(b: byte)
    ensures Extend(b) == Signed(b) + (if b < 0x80 then 0 else U32)
  {
    SameRemainder(Signed(b), Extend(b), if b < 0x80 then 0 else -1, U32);
  }

  method WeakChecksum(block: seq<byte>) returns (sum: nat)
    requires |block| < 0x8000_0000
    ensures sum == Weak(block) < U32
  {
    var s1, s2, i := 0, 0, 0;
    while i < |block| - 4
      invariant 0 <= i <= |block|
      invariant s1 == PlainSum(block[..i]) % U32 && s2 == PrefixSum(block[..i]) % U32
    {
      StepOfFour(block, i, s1, s2);
      s2 := (s2 + 4 * (s1 + Extend(block[i])) + 3 * Extend(block[i + 1]) + 2 * Extend(block[i + 2])
             + Extend(block[i + 3])) % U32;
      s1 := (s1 + Extend(block[i]) + Extend(block[i + 1]) + Extend(block[i + 2]) + Extend(block[i + 3])) % U32;
      i := i + 4;
    }
    while i < |block|
      invariant 0 <= i <= |block|
      invariant s1 == PlainSum(block[..i]) % U32 && s2 == PrefixSum(block[..i]) % U32
    {
      StepOfOne(block, i, s1, s2);
      s1 := (s1 + Extend(block[i])) % U32;
      s2 := (s2 + s1) % U32;
      i := i + 1;
    }
    assert block[..i] == block;
    Halves(PlainSum(block), PrefixSum(block));
    sum := (s1 % U16 + s2 * U16 % U32) % U32;
  }

  lemma StepOfFour(w: seq<byte>, i: nat, s1: nat, s2: nat)
    requires i + 4 <= |w|
    requires s1 == PlainSum(w[..i]) % U32 && s2 == PrefixSum(w[..i]) % U32
    ensures (s1 + Extend(w[i]) + Extend(w[i + 1]) + Extend(w[i + 2]) + Extend(w[i + 3])) % U32
         == PlainSum(w[..i + 4]) % U32
    ensures (s2 + 4 * (s1 + Extend(w[i])) + 3 * Extend(w[i + 1]) + 2 * Extend(w[i + 2]) + Extend(w[i + 3])) % U32
         == PrefixSum(w[..i + 4]) % U32
  {
    SumsOfFour(w, i);
    FourBytes(w[i], w[i + 1], w[i + 2], w[i + 3], PlainSum(w[..i]), PrefixSum(w[..i]));
  }

  /** The same on the two sums alone: signed bytes and their 32-bit forms differ by whole words. */
  lemma FourBytes(a: byte, b: byte, c: byte, d: byte, plain: int, prefix: int)
    ensures var s1, s2 := plain % U32, prefix % U32;
      && (s1 + Extend(a) + Extend(b) + Extend(c) + Extend(d)) % U32
         == (plain + Signed(a) + Signed(b) + Signed(c) + Signed(d)) % U32
      && (s2 + 4 * (s1 + Extend(a)) + 3 * Extend(b) + 2 * Extend(c) + Extend(d)) % U32
         == (prefix + 4 * (plain + Signed(a)) + 3 * Signed(b) + 2 * Signed(c) + Signed(d)) % U32
  {
    ExtendIsSigned(a);
    ExtendIsSigned(b);
    ExtendIsSigned(c);
    ExtendIsSigned(d);
    var s1, s2, k1, k2 := plain % U32, prefix % U32, plain / U32, prefix / U32;
    var ka, kb := if a < 0x80 then 0 else 1, if b < 0x80 then 0 else 1;
    var kc, kd := if c < 0x80 then 0 else 1, if d < 0x80 then 0 else 1;
    SameRemainder(s1 + Extend(a) + Extend(b) + Extend(c) + Extend(d),
                  plain + Signed(a) + Signed(b) + Signed(c) + Signed(d), ka + kb + kc + kd - k1, U32);
    SameRemainder(s2 + 4 * (s1 + Extend(a)) + 3 * Extend(b) + 2 * Extend(c) + Extend(d),
                  prefix + 4 * (plain + Signed(a)) + 3 * Signed(b) + 2 * Signed(c) + Signed(d),
                  4 * ka + 3 * kb + 2 * kc + kd - 4 * k1 - k2, U32);
  }

  lemma StepOfOne(w: seq<byte>, i: nat, s1: nat, s2: nat)
    requires i < |w|
    requires s1 == PlainSum(w[..i]) % U32 && s2 == PrefixSum(w[..i]) % U32
    ensures (s1 + Extend(w[i])) % U32 == PlainSum(w[..i + 1]) % U32
    ensures (s2 + (s1 + Extend(w[i])) % U32) % U32 == PrefixSum(w[..i + 1]) % U32
  {
    SumsOfAppend(w[..i], w[i]);
    assert w[..i + 1] == w[..i] + [w[i]];
    ExtendIsSigned(w[i]);
    var k1, k2 := PlainSum(w[..i]) / U32, PrefixSum(w[..i]) / U32;
    var c := if w[i] < 0x80 then 0 else 1;
    SameRemainder(s1 + Extend(w[i]), PlainSum(w[..i + 1]), c - k1, U32);
    SameRemainder(s2 + PlainSum(w[..i + 1]) % U32, PrefixSum(w[..i + 1]),
                  - k2 - PlainSum(w[..i + 1]) / U32, U32);
  }

  /** Packing two 32-bit sums keeps the low half of each. */
  lemma Halves(a: int, b: int)
    ensures (a % U32 % U16 + b % U32 * U16 % U32) % U32 == a % U16 + b % U16 * U16
    ensures a % U16 + b % U16 * U16 < U32
  {
    LowHalf(a, a, 0);
    HighBits(b);
    var x, y := a % U16, b % U16 * U16;
    assert 0 <= x + y < U32;
    RemainderUnique(x + y, 0, x + y, U32);
  }

  lemma HighBits(b: int)
    ensures b % U32 * U16 % U32 == b % U16 * U16
  {
    LowHalf(b, b, 0);
    var c := b % U32;
    var high, low := c / U16, c % U16;
    assert c * U16 == high * U32 + low * U16;
    RemainderUnique(c * U16, high, low * U16, U32);
  }

  /** Slides a window of `length` bytes: `out` leaves, `into` enters. */
  function RollWeak(sum: nat, out: byte, into: byte, length: nat): (r: nat)
    requires sum < U32
    ensures r < U32
  {
    var s1 := (sum % U16 - Extend(out) + Extend(into)) % U32 % U16;
    var s2 := (sum / U16 - length * Extend(out) + s1) % U32 % U16;
    s1 + s2 * U16
  }

  /** Rolling gives the checksum of the window one byte further on. */
  lemma RollIsNextWindow(w: seq<byte>, into: byte)
    requires w != []
    ensures Weak(w) < U32
    ensures RollWeak(Weak(w), w[0], into, |w|) == Weak(w[1..] + [into])
  {
    SumsOfTail(w);
    SumsOfAppend(w[1..], into);
    RollSums(PlainSum(w), PrefixSum(w), w[0], into, |w|, |w| * Signed(w[0]));
  }

  /** The same on the two sums alone. */
  lemma RollSums(plain: int, prefix: int, out: byte, into: byte, length: nat, leaving: int)
    requires leaving == length * Signed(out)
    ensures var sum := plain % U16 + prefix % U16 * U16;
      var plain' := plain - Signed(out) + Signed(into);
      0 <= sum < U32 && RollWeak(sum, out, into, length) == plain' % U16 + (prefix - leaving + plain') % U16 * U16
  {
    var sum := plain % U16 + prefix % U16 * U16;
    RollPlain(plain, out, into);
    RollPrefix(prefix, leaving, out, length, plain - Signed(out) + Signed(into));
    RemainderUnique(sum, prefix % U16, plain % U16, U16);
  }

  lemma RollPlain(plain: int, out: byte, into: byte)
    ensures (plain % U16 - Extend(out) + Extend(into)) % U32 % U16 == (plain - Signed(out) + Signed(into)) % U16
  {
    ExtendIsSigned(out);
    ExtendIsSigned(into);
    var o, i := if out < 0x80 then 0 else 1, if into < 0x80 then 0 else 1;
    LowHalf(plain % U16 - Extend(out) + Extend(into), plain - Signed(out) + Signed(into),
            (i - o) * U16 - plain / U16);
  }

  lemma RollPrefix(prefix: int, leaving: int, out: byte, length: nat, plain: int)
    requires leaving == length * Signed(out)
    ensures (prefix % U16 - length * Extend(out) + plain % U16) % U32 % U16 == (prefix - leaving + plain) % U16
  {
    ExtendIsSigned(out);
    var o := if out < 0x80 then 0 else 1;
    assert length * Extend(out) == leaving + length * o * U16 * U16;
    LowHalf(prefix % U16 - length * Extend(out) + plain % U16, prefix - leaving + plain,
            - (prefix / U16) - length * o * U16 - plain / U16);
  }

  lemma LowHalf(x: int, y: int, k: int)
    requires x == y + k * U16
    ensures x % U32 % U16 == y % U16
  {
    SameRemainder(x % U32, x, - (x / U32) * U16, U16);
    SameRemainder(x, y, k, U16);
  }

  function WeakHash(weak: nat): (r: nat)
    ensures r < U16
  {
    (weak / U16 + weak % U16) % U16
  }

  /** Sums that differ in one half only fall into different buckets. */
  lemma HashSeparates(a: nat, b: nat)
    requires a < U32 && b < U32 && a != b && (a / U16 == b / U16 || a % U16 == b % U16)
    ensures WeakHash(a) != WeakHash(b)
  {
    var x, y := a / U16 + a % U16, b / U16 + b % U16;
    assert 0 < (if x < y then y - x else x - y) < U16;
    if WeakHash(a) == WeakHash(b) { RemaindersApart(x, y); }
  }

  lemma RemaindersApart(x: nat, y: nat)
    requires x % U16 == y % U16
    ensures x == y || x + U16 <= y || y + U16 <= x
  {
    assert x == x / U16 * U16 + x % U16 && y == y / U16 * U16 + y % U16;
  }
}
