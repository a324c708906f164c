/**
  Per-block sums of the basis file. The strong digest is a parameter: nothing
  here depends on which hash it is.
 */
module Signatures {
  import opened Bytes
  import opened Checksum

  const DEFAULT_BLOCK_SIZE := 700
  const CHANNEL_MAX_BLOCK := 0x40_0000

  type Digest = seq<byte>

  datatype BlockSum = BlockSum(weak: nat, strong: Digest)

  datatype Signature = Signature(blockLength: nat, strongLength: nat, fileLength: nat, sums: seq<BlockSum>)

  // ----- Choosing the block length -----

  predicate IsPowerOfTwo(c: nat) {
    c == 1 || (c >= 2 && c % 2 == 0 && IsPowerOfTwo(c / 2))
  }

  /** The square, one step at a time. */
  function Square(x: nat): nat {
    if x == 0 then 0 else Square(x - 1) + 2 * x - 1
  }

  lemma {:induction false} SquareIsProduct(x: nat)
    ensures Square(x) == x * x
  {
    if x > 0 {
      SquareIsProduct(x - 1);
      assert (x - 1) * (x - 1) == x * x - 2 * x + 1;
    }
  }

  lemma {:induction false} SquareMonotone(a: nat, b: nat)
    requires a <= b
    ensures Square(a) <= Square(b)
    decreases b
  {
    if a < b { SquareMonotone(a, b - 1); }
  }

  lemma SquareOfDouble(x: nat)
    ensures Square(2 * x) == 4 * Square(x)
  {
    SquareIsProduct(x);
    SquareIsProduct(2 * x);
  }

  /** The power of two whose square is at most `n` and more than a quarter of it. */
  function RootBit(n: nat): (c: nat)
    requires n >= 1
    ensures c >= 1
  {
    if n < 4 then 1 else 2 * RootBit(n / 4)
  }

  lemma {:induction false} RootBitBounds(n: nat)
    requires n >= 1
    ensures IsPowerOfTwo(RootBit(n)) && Square(RootBit(n)) <= n < Square(2 * RootBit(n))
  {
    if n >= 4 {
      var half := RootBit(n / 4);
      RootBitBounds(n / 4);
      DoublePower(half);
      SquareOfDouble(half);
      SquareOfDouble(2 * half);
    } else {
      SquareIsProduct(2);
    }
  }

  lemma DoublePower(half: nat)
    requires IsPowerOfTwo(half)
    ensures IsPowerOfTwo(2 * half)
  {
    assert 2 * half / 2 == half;
  }

  /** `b` is the greatest multiple of 8 whose square is at most `n`. */
  predicate IsRootByEights(n: nat, b: nat) {
    b % 8 == 0 && Square(b) <= n < Square(b + 8)
  }

  /** What the choice comes to, for every file length and cap. */
  predicate IsBlockLength(n: nat, cap: nat, r: nat) {
    if n <= DEFAULT_BLOCK_SIZE * DEFAULT_BLOCK_SIZE then r == DEFAULT_BLOCK_SIZE
    else if RootBit(n) >= cap then r == cap
    else if n < 704 * 704 then r == DEFAULT_BLOCK_SIZE
    else r >= 704 && IsRootByEights(n, r)
  }

  /** `x |= c` for a power of two. */
  function SetBit(x: nat, c: nat): nat
    requires c > 0
  {
    if x / c % 2 == 1 then x else x + c
  }

  /** `x &= ~c` for a power of two. */
  function ClearBit(x: nat, c: nat): nat
    requires c > 0
  {
    if x / c % 2 == 1 && x >= c then x - c else x
  }

  method ChooseBlockLength(fileLength: nat, maxBlockSize: nat) returns (r: nat)
    requires fileLength < U64 && maxBlockSize < U32
    ensures IsBlockLength(fileLength, maxBlockSize, r)
  {
    if fileLength <= DEFAULT_BLOCK_SIZE * DEFAULT_BLOCK_SIZE {
      return DEFAULT_BLOCK_SIZE;
    }
    Doublings(fileLength, 1);
    RootBelowWord(fileLength);
    var c := DoubleUp(fileLength);
    if c == 0 || c >= maxBlockSize {
      return maxBlockSize;
    }
    RootBitBounds(fileLength);
    PowerOf512();
    SquareIsProduct(512);
    RootBitAtLeast(fileLength, 512);
    var length := RootFromBits(fileLength, c);
    SquareIsProduct(704);
    if length < DEFAULT_BLOCK_SIZE {
      SquareMonotone(length + 8, 704);
    } else {
      EightsApart(length, 704);
      SquareMonotone(704, length);
    }
    r := Max(length, DEFAULT_BLOCK_SIZE);
  }

  /** One left shift per two bits of the length. */
  method DoubleUp(fileLength: nat) returns (c: nat)
    requires fileLength >= 1 && Doubled(fileLength, 1) < U32
    ensures c == Doubled(fileLength, 1)
  {
    c := 1;
    var l := fileLength;
    while l / 4 != 0
      invariant l >= 1 && c >= 1
      invariant Doubled(l, c) == Doubled(fileLength, 1)
    {
      l := l / 4;
      assert Doubled(l, 2 * c) >= 2 * c;
      c := c * 2 % U32;
    }
  }

  function Doubled(l: nat, c: nat): (r: nat)
    ensures r >= c
  {
    if l < 4 then c else Doubled(l / 4, 2 * c)
  }

  lemma {:induction false} Doublings(l: nat, c: nat)
    requires l >= 1
    ensures Doubled(l, c) == c * RootBit(l)
  {
    if l >= 4 {
      Doublings(l / 4, 2 * c);
      Regroup(c, RootBit(l / 4));
    }
  }

  /** Decides one bit of the root at a time, stopping above the low three. */
  method RootFromBits(fileLength: nat, top: nat) returns (length: nat)
    requires IsPowerOfTwo(top) && top >= 8 && fileLength < Square(2 * top)
    ensures IsRootByEights(fileLength, length)
  {
    var c := top;
    length := 0;
    while c >= 8
      invariant IsPowerOfTwo(c) && c >= 4
      invariant length % (2 * c) == 0
      invariant Square(length) <= fileLength < Square(length + 2 * c)
      decreases c
    {
      BitIsClear(length, c);
      HalfDivides(length, c);
      length := SetBit(length, c);
      SquareIsProduct(length);
      if fileLength < length * length {
        length := ClearBit(length, c);
      }
      c := c / 2;
    }
    assert IsPowerOfTwo(c / 2) && c == 4;
  }

  lemma Regroup(c: nat, root: nat)
    ensures 2 * c * root == c * (2 * root)
  {
  }

  lemma RootBelowWord(n: nat)
    requires 1 <= n < U64
    ensures RootBit(n) < U32
  {
    RootBitBounds(n);
    SquareIsProduct(U32);
    if RootBit(n) >= U32 { SquareMonotone(U32, RootBit(n)); }
  }

  lemma PowerOf512()
    ensures IsPowerOfTwo(512)
  {
    assert IsPowerOfTwo(8);
    assert IsPowerOfTwo(64);
  }

  lemma PowersAreSpaced(a: nat, b: nat)
    requires IsPowerOfTwo(a) && IsPowerOfTwo(b) && a < b
    ensures 2 * a <= b
  {
    if a > 1 { PowersAreSpaced(a / 2, b / 2); }
  }

  lemma RootBitAtLeast(n: nat, c: nat)
    requires IsPowerOfTwo(c) && n >= 1 && Square(c) <= n
    ensures RootBit(n) >= c
  {
    RootBitBounds(n);
    if RootBit(n) < c { RootTooSmall(n, RootBit(n), c); }
  }

  lemma RootTooSmall(n: nat, q: nat, c: nat)
    requires IsPowerOfTwo(q) && IsPowerOfTwo(c) && q < c && n < Square(2 * q)
    ensures n < Square(c)
  {
    PowersAreSpaced(q, c);
    SquareMonotone(2 * q, c);
  }

  lemma BitIsClear(x: nat, c: nat)
    requires c > 0 && x % (2 * c) == 0
    ensures SetBit(x, c) == x + c && ClearBit(x + c, c) == x
  {
    var k := x / (2 * c);
    assert x == k * (2 * c) == 2 * k * c;
    RemainderUnique(x, 2 * k, 0, c);
    assert x + c == (2 * k + 1) * c;
    RemainderUnique(x + c, 2 * k + 1, 0, c);
  }

  lemma HalfDivides(x: nat, c: nat)
    requires c >= 8 && IsPowerOfTwo(c) && x % (2 * c) == 0
    ensures IsPowerOfTwo(c / 2) && 2 * (c / 2) == c && c / 2 >= 4
    ensures x % c == 0 && (x + c) % c == 0
  {
    var k := x / (2 * c);
    assert x == k * (2 * c) == 2 * k * c;
    RemainderUnique(x, 2 * k, 0, c);
    assert x + c == (2 * k + 1) * c;
    RemainderUnique(x + c, 2 * k + 1, 0, c);
  }

  lemma EightsApart(a: nat, b: nat)
    requires a % 8 == 0 && b % 8 == 0
    ensures a + 8 > b ==> a >= b
    ensures a < b ==> a + 8 <= b
  {
  }

  lemma RootByEightsMeans(n: nat, b: nat)
    ensures IsRootByEights(n, b) <==> b % 8 == 0 && b * b <= n < (b + 8) * (b + 8)
  {
    SquareIsProduct(b);
    SquareIsProduct(b + 8);
  }

  lemma RootByEightsUnique(n: nat, a: nat, b: nat)
    requires IsRootByEights(n, a) && IsRootByEights(n, b)
    ensures a == b
  {
    EightsApart(a, b);
    EightsApart(b, a);
    if a < b { SquareMonotone(a + 8, b); }
    if b < a { SquareMonotone(b + 8, a); }
  }

  /** With a power-of-two cap the choice is the root by eights between the default and the cap. */
  lemma BlockLengthIsClampedRoot(n: nat, cap: nat, r: nat, b: nat)
    requires n >= 1 && IsPowerOfTwo(cap) && cap >= 1024
    requires IsBlockLength(n, cap, r) && IsRootByEights(n, b)
    ensures r == Min(cap, Max(DEFAULT_BLOCK_SIZE, b))
  {
    SquareIsProduct(701);
    SquareIsProduct(704);
    RootBitBounds(n);
    if n <= DEFAULT_BLOCK_SIZE * DEFAULT_BLOCK_SIZE {
      if b > DEFAULT_BLOCK_SIZE { SquareMonotone(701, b); }
    } else if RootBit(n) >= cap {
      RootAboveCap(n, RootBit(n), cap, b);
    } else {
      RootTooSmall(n, RootBit(n), cap);
      if b >= cap { SquareMonotone(cap, b); }
      if n >= 704 * 704 {
        RootByEightsUnique(n, r, b);
      } else if b > DEFAULT_BLOCK_SIZE {
        SquareMonotone(704, b);
      }
    }
  }

  lemma RootAboveCap(n: nat, q: nat, cap: nat, b: nat)
    requires IsPowerOfTwo(cap) && cap >= 8 && q >= cap && Square(q) <= n && IsRootByEights(n, b)
    ensures b >= cap
  {
    PowerOfEight(cap);
    EightsApart(b, cap);
    SquareMonotone(cap, q);
    if b < cap { SquareMonotone(b + 8, cap); }
  }

  lemma PowerOfEight(c: nat)
    requires IsPowerOfTwo(c) && c >= 8
    ensures c % 8 == 0
  {
    assert IsPowerOfTwo(c / 2) && IsPowerOfTwo(c / 2 / 2) && IsPowerOfTwo(c / 2 / 2 / 2);
  }

  /** A cap below the default, or not a power of two, is exceeded, and by exactly these lengths. */
  lemma CapExceededExactly(n: nat, cap: nat, r: nat)
    requires IsBlockLength(n, cap, r)
    ensures r > cap <==>
      if n <= DEFAULT_BLOCK_SIZE * DEFAULT_BLOCK_SIZE then cap < DEFAULT_BLOCK_SIZE
      else RootBit(n) < cap && (cap < DEFAULT_BLOCK_SIZE || Square(cap - cap % 8 + 8) <= n)
  {
    if cap >= DEFAULT_BLOCK_SIZE && n >= 1 { ExceededFrom(n, cap, r, cap - cap % 8 + 8); }
  }

  lemma ExceededFrom(n: nat, cap: nat, r: nat, up: nat)
    requires n >= 1 && cap >= DEFAULT_BLOCK_SIZE && IsBlockLength(n, cap, r) && up % 8 == 0 && up - 8 <= cap < up
    ensures r > cap <==> RootBit(n) < cap && Square(up) <= n
  {
    SquareIsProduct(704);
    SquareMonotone(704, up);
    if RootBit(n) < cap && n >= 704 * 704 { RootCrosses(n, cap, r, up); }
  }

  lemma RootCrosses(n: nat, cap: nat, r: nat, up: nat)
    requires IsRootByEights(n, r) && up % 8 == 0 && up - 8 <= cap < up
    ensures r > cap <==> Square(up) <= n
  {
    EightsApart(r, up);
    if r > cap { SquareMonotone(up, r); } else { SquareMonotone(r + 8, up); }
  }

  lemma CapExceededSomewhere()
    ensures forall r :: IsBlockLength(2_250_000, 1100, r) ==> r == 1496
  {
    forall r | IsBlockLength(2_250_000, 1100, r) ensures r == 1496 {
      RootOfExample();
      SquareIsProduct(1496);
      SquareIsProduct(1504);
      RootByEightsUnique(2_250_000, r, 1496);
    }
  }

  lemma RootOfExample()
    ensures RootBit(2_250_000) == 1024
  {
    assert RootBit(2_250_000 / 0x100) == 64;
    assert RootBit(2_250_000 / 0x10) == 256;
  }

  /** Under the channels' cap, the block stays below the 4 MiB scan window just for files below 16 TiB. */
  lemma BlockBelowWindowExactly(n: nat, r: nat)
    requires n >= 1 && IsBlockLength(n, CHANNEL_MAX_BLOCK, r)
    ensures r < CHANNEL_MAX_BLOCK <==> n < 0x1000_0000_0000
  {
    var c := RootBit(n);
    ChannelCapIsPower();
    SquareIsProduct(CHANNEL_MAX_BLOCK);
    RootBitBounds(n);
    if n < 0x1000_0000_0000 {
      if c >= CHANNEL_MAX_BLOCK { SquareMonotone(CHANNEL_MAX_BLOCK, c); }
      if r >= CHANNEL_MAX_BLOCK { SquareMonotone(CHANNEL_MAX_BLOCK, r); }
    } else {
      RootBitAtLeast(n, CHANNEL_MAX_BLOCK);
    }
  }

  lemma ChannelCapIsPower()
    ensures IsPowerOfTwo(CHANNEL_MAX_BLOCK)
  {
    assert IsPowerOfTwo(0x100);
    assert IsPowerOfTwo(0x1000);
    assert IsPowerOfTwo(0x1_0000);
    assert IsPowerOfTwo(0x10_0000);
  }

  // ----- Blocks -----

  function BlockCount(fileLength: nat, blockLength: nat): nat
    requires blockLength > 0
  {
    if fileLength == 0 then 0
    else if fileLength <= blockLength then 1
    else 1 + BlockCount(fileLength - blockLength, blockLength)
  }

  /** Where block `i` starts. */
  function StartOf(blockLength: nat, i: nat): nat {
    if i == 0 then 0 else StartOf(blockLength, i - 1) + blockLength
  }

  lemma {:induction false} StartIsProduct(blockLength: nat, i: nat)
    ensures StartOf(blockLength, i) == i * blockLength
  {
    if i > 0 {
      StartIsProduct(blockLength, i - 1);
      Distribute(i, 1, blockLength);
    }
  }

  /** Block `i` of a file; the last one may be short. */
  function BlockAt(file: seq<byte>, blockLength: nat, i: nat): seq<byte> {
    var start := Min(StartOf(blockLength, i), |file|);
    file[start..Min(start + blockLength, |file|)]
  }

  function SumOf(strong: seq<byte> -> Digest, block: seq<byte>): BlockSum {
    BlockSum(Weak(block), strong(block))
  }

  /** The length the scan and the receiver give block `index`, in 64-bit arithmetic. */
  function BlockLengthAt(sig: Signature, index: nat): nat {
    if sig.blockLength == 0 || index >= |sig.sums| then 0
    else Min((sig.fileLength - StartOf(sig.blockLength, index)) % U64, sig.blockLength)
  }

  /** A signature describes a basis when it sums every block of it in order. */
  ghost predicate Describes(sig: Signature, basis: seq<byte>, strong: seq<byte> -> Digest) {
    && sig.fileLength == |basis| < U64
    && if sig.blockLength == 0 then sig.sums == []
       else
         && |sig.sums| == BlockCount(|basis|, sig.blockLength)
         && forall i :: 0 <= i < |sig.sums| ==> sig.sums[i] == SumOf(strong, BlockAt(basis, sig.blockLength, i))
  }

  lemma {:induction false} CountBounds(length: nat, block: nat, i: nat)
    requires block > 0
    ensures i < BlockCount(length, block) <==> StartOf(block, i) < length
  {
    if i > 0 {
      if length > block {
        CountBounds(length - block, block, i - 1);
      } else {
        StartGrows(block, i - 1);
      }
    }
  }

  lemma {:induction false} StartGrows(block: nat, i: nat)
    ensures StartOf(block, i + 1) >= block
  {
    if i > 0 { StartGrows(block, i - 1); }
  }

  /** The computed length is the length of the block, and positive exactly for the blocks there are. */
  lemma BlockLengthAtIsLength(sig: Signature, basis: seq<byte>, strong: seq<byte> -> Digest, i: nat)
    requires Describes(sig, basis, strong)
    ensures BlockLengthAt(sig, i) == if i < |sig.sums| then |BlockAt(basis, sig.blockLength, i)| else 0
    ensures i < |sig.sums| ==> 0 < BlockLengthAt(sig, i) && StartOf(sig.blockLength, i) < |basis|
  {
    if sig.blockLength > 0 { CountBounds(|basis|, sig.blockLength, i); }
  }

  method BuildSignature(basis: seq<byte>, blockLength: nat, strongLength: nat, strong: seq<byte> -> Digest)
    returns (sig: Signature)
    requires |basis| < U64 && blockLength < 0x8000_0000
    ensures Describes(sig, basis, strong)
    ensures sig.blockLength == blockLength && sig.strongLength == strongLength
  {
    if |basis| == 0 || blockLength == 0 {
      if blockLength > 0 { CountBounds(0, blockLength, 0); }
      return Signature(blockLength, strongLength, |basis|, []);
    }
    var sums := [];
    var offset := 0;
    while offset < |basis|
      invariant offset == Min(StartOf(blockLength, |sums|), |basis|)
      invariant |sums| <= BlockCount(|basis|, blockLength)
      invariant forall i :: 0 <= i < |sums| ==> sums[i] == SumOf(strong, BlockAt(basis, blockLength, i))
      decreases |basis| - offset
    {
      CountBounds(|basis|, blockLength, |sums|);
      var want := Min(blockLength, |basis| - offset);
      var view := basis[offset..offset + want];
      assert view == BlockAt(basis, blockLength, |sums|);
      var weak := WeakChecksum(view);
      sums := sums + [BlockSum(weak, strong(view))];
      offset := offset + want;
    }
    CountBounds(|basis|, blockLength, |sums|);
    sig := Signature(blockLength, strongLength, |basis|, sums);
  }
}
