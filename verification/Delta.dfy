/**
  The delta scan: a hash table over the signature, a bounded window over the
  source, and the instructions that rebuild the source from the basis.
 */
module Delta {
  import opened Bytes
  import opened Checksum
  import opened Signatures
  import opened HashChains

  const MAX_WINDOW := 0x40_0000
  const TABLE_FLOOR := 0x1_0000

  datatype Instruction =
    | Literal(srcOffset: nat, dstOffset: nat, length: nat)
    | Copy(blockIndex: nat, srcOffset: nat, dstOffset: nat, length: nat, bytes: seq<byte>)

  // ----- What instructions mean -----

  /** A positioned write: a gap before it reads as zeros, what it covers is replaced. */
  function WriteAt(file: seq<byte>, at: nat, data: seq<byte>): (r: seq<byte>)
    ensures |r| == Max(|file|, at + |data|)
    ensures forall i :: at <= i < at + |data| ==> r[i] == data[i - at]
    ensures forall i :: 0 <= i < |file| && !(at <= i < at + |data|) ==> r[i] == file[i]
  {
    var gap: seq<byte> := seq(if at > |file| then at - |file| else 0, _ => 0);
    var room := file + gap;
    room[..at] + data + (if at + |data| < |room| then room[at + |data|..] else [])
  }

  function Slice(s: seq<byte>, at: nat, length: nat): seq<byte> {
    s[Min(at, |s|)..Min(at + length, |s|)]
  }

  /** What the receiver puts down for one instruction. */
  function Payload(ins: Instruction, sig: Signature, basis: seq<byte>, source: seq<byte>): seq<byte> {
    match ins
    case Literal(src, _, length) => Slice(source, src, length)
    case Copy(index, _, _, _, _) => Slice(basis, StartOf(sig.blockLength, index), BlockLengthAt(sig, index))
  }

  /** The file the receiver holds after the instructions, each written at its own offset. */
  function Rebuild(ins: seq<Instruction>, sig: Signature, basis: seq<byte>, source: seq<byte>): seq<byte> {
    if ins == [] then []
    else
      var last := ins[|ins| - 1];
      WriteAt(Rebuild(ins[..|ins| - 1], sig, basis, source), last.dstOffset, Payload(last, sig, basis, source))
  }

  /** The instructions cover [0, n) in order, without gap or overlap, each landing where it came from. */
  predicate Tiles(ins: seq<Instruction>, n: nat) {
    if ins == [] then n == 0
    else
      var last := ins[|ins| - 1];
      last.srcOffset == last.dstOffset && last.length > 0 && last.srcOffset + last.length == n
      && Tiles(ins[..|ins| - 1], last.srcOffset)
  }

  function LiteralTotal(ins: seq<Instruction>): nat {
    if ins == [] then 0
    else LiteralTotal(ins[..|ins| - 1]) + if ins[|ins| - 1].Literal? then ins[|ins| - 1].length else 0
  }

  function CopyTotal(ins: seq<Instruction>): nat {
    if ins == [] then 0
    else CopyTotal(ins[..|ins| - 1]) + if ins[|ins| - 1].Copy? then ins[|ins| - 1].length else 0
  }

  function Prefix(d: Digest, n: nat): Digest {
    d[..Min(n, |d|)]
  }

  /** The test the scan applies before it calls a block a match. */
  predicate Matches(sig: Signature, strong: seq<byte> -> Digest, i: nat, win: seq<byte>) {
    && i < |sig.sums|
    && sig.sums[i].weak == Weak(win)
    && BlockLengthAt(sig, i) == |win|
    && Prefix(strong(win), sig.strongLength) == Prefix(sig.sums[i].strong, sig.strongLength)
  }

  /** Every copy passed that test on the source bytes it stands for. */
  predicate Sound(ins: seq<Instruction>, sig: Signature, strong: seq<byte> -> Digest, source: seq<byte>) {
    forall k :: 0 <= k < |ins| && ins[k].Copy? ==>
      && ins[k].srcOffset + ins[k].length <= |source|
      && ins[k].bytes == source[ins[k].srcOffset..ins[k].srcOffset + ins[k].length]
      && Matches(sig, strong, ins[k].blockIndex, ins[k].bytes)
  }

  /** The same bytes at each of the first `n` places, and as many of them where either is shorter. */
  predicate AgreeUpTo(a: Digest, b: Digest, n: nat) {
    && (|a| < n || |b| < n ==> |a| == |b|)
    && forall k :: 0 <= k < n && k < |a| && k < |b| ==> a[k] == b[k]
  }

  /** Two byte strings that no sum the scan compares tells apart. */
  predicate SameSums(strong: seq<byte> -> Digest, strongLength: nat, a: seq<byte>, b: seq<byte>) {
    |a| == |b| && Weak(a) == Weak(b) && AgreeUpTo(strong(a), strong(b), strongLength)
  }

  lemma PrefixExactly(a: Digest, b: Digest, n: nat)
    ensures Prefix(a, n) == Prefix(b, n) <==> AgreeUpTo(a, b, n)
  {
    if Prefix(a, n) == Prefix(b, n) {
      assert |Prefix(a, n)| == |Prefix(b, n)|;
      forall k | 0 <= k < n && k < |a| && k < |b| ensures a[k] == b[k] { assert Prefix(a, n)[k] == Prefix(b, n)[k]; }
    }
  }

  /** A window passes the test against a block exactly when no sum tells it from the block. */
  lemma MatchesExactly(sig: Signature, strong: seq<byte> -> Digest, basis: seq<byte>, i: nat, win: seq<byte>)
    requires Describes(sig, basis, strong) && i < |sig.sums|
    ensures Matches(sig, strong, i, win) <==> SameSums(strong, sig.strongLength, win, BlockAt(basis, sig.blockLength, i))
  {
    BlockLengthAtIsLength(sig, basis, strong, i);
    PrefixExactly(strong(win), strong(BlockAt(basis, sig.blockLength, i)), sig.strongLength);
  }

  /** The assumption on the sums: a source window that no sum tells from a block of the basis is that block. */
  ghost predicate NoCollision(sig: Signature, strong: seq<byte> -> Digest, basis: seq<byte>, source: seq<byte>) {
    forall i: nat, at: nat, n: nat | i < |sig.sums| && at + n <= |source| ::
      SameSums(strong, sig.strongLength, Slice(source, at, n), BlockAt(basis, sig.blockLength, i)) ==>
        Slice(source, at, n) == BlockAt(basis, sig.blockLength, i)
  }

  /** Applying the delta to the basis gives the source. */
  lemma RebuildGivesSource(
    ins: seq<Instruction>, sig: Signature, strong: seq<byte> -> Digest, basis: seq<byte>, source: seq<byte>)
    requires Describes(sig, basis, strong) && NoCollision(sig, strong, basis, source)
    requires Tiles(ins, |source|) && Sound(ins, sig, strong, source)
    ensures Rebuild(ins, sig, basis, source) == source
  {
    TilesStayWithin(ins, |source|);
    forall k | 0 <= k < |ins| ensures Faithful(ins[k], sig, basis, source) {
      assert Sound([ins[k]], sig, strong, source);
      PayloadIsSource(ins[k], sig, strong, basis, source);
    }
    RebuildIsPrefix(ins, |source|, sig, basis, source);
    assert source[..|source|] == source;
  }

  /** What the receiver puts down for this instruction is the source there. */
  predicate Faithful(ins: Instruction, sig: Signature, basis: seq<byte>, source: seq<byte>) {
    && ins.srcOffset + ins.length <= |source|
    && Payload(ins, sig, basis, source) == source[ins.srcOffset..ins.srcOffset + ins.length]
  }

  lemma {:induction false} TilesStayWithin(ins: seq<Instruction>, n: nat)
    requires Tiles(ins, n)
    ensures forall k :: 0 <= k < |ins| ==> ins[k].srcOffset + ins[k].length <= n
  {
    if ins != [] {
      var rest := ins[..|ins| - 1];
      TilesStayWithin(rest, ins[|ins| - 1].srcOffset);
      assert forall k :: 0 <= k < |rest| ==> ins[k] == rest[k];
    }
  }

  lemma {:induction false} RebuildIsPrefix(
    ins: seq<Instruction>, n: nat, sig: Signature, basis: seq<byte>, source: seq<byte>)
    requires Tiles(ins, n) && n <= |source| && forall k :: 0 <= k < |ins| ==> Faithful(ins[k], sig, basis, source)
    ensures Rebuild(ins, sig, basis, source) == source[..n]
  {
    if ins != [] {
      var last := ins[|ins| - 1];
      RebuildIsPrefix(ins[..|ins| - 1], last.srcOffset, sig, basis, source);
      assert Faithful(last, sig, basis, source);
      AppendAt(source, last.srcOffset, n);
    }
  }

  lemma AppendAt(source: seq<byte>, at: nat, n: nat)
    requires at <= n <= |source|
    ensures WriteAt(source[..at], at, source[at..n]) == source[..n]
  {
  }

  lemma PayloadIsSource(ins: Instruction, sig: Signature, strong: seq<byte> -> Digest, basis: seq<byte>, source: seq<byte>)
    requires Describes(sig, basis, strong) && NoCollision(sig, strong, basis, source)
    requires Sound([ins], sig, strong, source) && ins.srcOffset + ins.length <= |source|
    ensures Faithful(ins, sig, basis, source)
  {
    if ins.Copy? {
      assert [ins][0] == ins;
      BlockLengthAtIsLength(sig, basis, strong, ins.blockIndex);
      assert ins.bytes == Slice(source, ins.srcOffset, ins.length);
      MatchesExactly(sig, strong, basis, ins.blockIndex, ins.bytes);
    }
  }

  /** Literal and matched bytes add up to what the instructions cover. */
  lemma {:induction false} TotalsAddUp(ins: seq<Instruction>, n: nat)
    requires Tiles(ins, n)
    ensures LiteralTotal(ins) + CopyTotal(ins) == n
  {
    if ins != [] { TotalsAddUp(ins[..|ins| - 1], ins[|ins| - 1].srcOffset); }
  }

  lemma TilesAppend(ins: seq<Instruction>, n: nat, next: Instruction)
    requires Tiles(ins, n) && next.srcOffset == next.dstOffset == n && next.length > 0
    ensures Tiles(ins + [next], n + next.length)
    ensures LiteralTotal(ins + [next]) == LiteralTotal(ins) + if next.Literal? then next.length else 0
    ensures CopyTotal(ins + [next]) == CopyTotal(ins) + if next.Copy? then next.length else 0
  {
    assert (ins + [next])[..|ins|] == ins;
  }

  lemma ToTheEnd(source: seq<byte>, at: nat)
    requires at <= |source|
    ensures source[at..|source|] == source[at..]
  {
  }

  // ----- The window -----

  /** Where the scan stands and which part of the source the window holds. */
  datatype Scan = Scan(offset: nat, base: nat, len: nat)

  function Filled(at: nat, window: nat, sourceLen: nat): nat {
    if at <= sourceLen then Min(window, sourceLen - at) else 0
  }

  function Ensured(s: Scan, block: nat, window: nat, sourceLen: nat): Scan {
    if s.base <= s.offset && Min(s.offset + block, sourceLen) <= s.base + s.len then s
    else Scan(s.offset, s.offset, Filled(s.offset, window, sourceLen))
  }

  /** The branch of the scan that found no block: roll one byte on, or refill first. */
  function Missed(s: Scan, block: nat, window: nat, sourceLen: nat): Scan {
    if s.offset - s.base + block >= s.len then Scan(s.offset, s.offset, Filled(s.offset, window, sourceLen))
    else s.(offset := s.offset + 1)
  }

  /** The scan after `n` rounds that each find no block. */
  function Misses(s: Scan, n: nat, block: nat, window: nat, sourceLen: nat): Scan {
    if n == 0 then s
    else Missed(Ensured(Misses(s, n - 1, block, window, sourceLen), block, window, sourceLen), block, window, sourceLen)
  }

  /**
    A scan that keeps missing before the end moves on exactly when the block is
    shorter than the window. At equality the refill branch repeats for ever.
   */
  lemma MissesMoveOnExactly(s: Scan, block: nat, window: nat, sourceLen: nat)
    requires s.len <= window && s.base + s.len <= sourceLen && s.offset + block < sourceLen
    ensures (exists n: nat :: Misses(s, n, block, window, sourceLen).offset > s.offset) <==> block < window
  {
    if block < window {
      var once := Misses(s, 1, block, window, sourceLen);
      assert Misses(s, 0, block, window, sourceLen) == s;
      assert Misses(s, 2, block, window, sourceLen)
          == Missed(Ensured(once, block, window, sourceLen), block, window, sourceLen);
      assert once.offset > s.offset || Misses(s, 2, block, window, sourceLen).offset > s.offset;
    } else {
      forall n: nat ensures Misses(s, n, block, window, sourceLen).offset <= s.offset {
        MissesStay(s, n, block, window, sourceLen);
      }
    }
  }

  lemma {:induction false} MissesStay(s: Scan, n: nat, block: nat, window: nat, sourceLen: nat)
    requires s.len <= window <= block && s.base + s.len <= sourceLen && s.offset + block < sourceLen
    ensures Misses(s, n, block, window, sourceLen).offset == s.offset
    ensures Misses(s, n, block, window, sourceLen).len <= window
  {
    if n > 0 { MissesStay(s, n - 1, block, window, sourceLen); }
  }

  predicate Full(s: Scan, window: nat, sourceLen: nat) {
    s.base == s.offset && s.len == Filled(s.offset, window, sourceLen)
  }

  /** One round that finds nothing moves on, or refills a window that was not full. */
  lemma MissProgress(s: Scan, block: nat, sourceLen: nat)
    requires CanRoll(block, sourceLen) && s.offset + block < sourceLen
    requires s.len <= Min(MAX_WINDOW, sourceLen) && s.base + s.len <= sourceLen
    ensures var window := Min(MAX_WINDOW, sourceLen);
      var m := Missed(Ensured(s, block, window, sourceLen), block, window, sourceLen);
      m.offset > s.offset || (m.offset == s.offset && Full(m, window, sourceLen) && !Full(s, window, sourceLen))
  {
  }

  /** A refill that finds the window full already is repeated for ever; it comes to that exactly where the sum cannot roll. */
  lemma RefillRepeatsExactly(s: Scan, block: nat, sourceLen: nat)
    requires WindowServes(block, sourceLen) && s.offset + block < sourceLen
    requires s.len <= Min(MAX_WINDOW, sourceLen) && s.base <= s.offset && s.offset + block <= s.base + s.len
    ensures s.offset - s.base + block >= s.len && Full(s, Min(MAX_WINDOW, sourceLen), sourceLen) <==> !CanRoll(block, sourceLen)
  {
  }

  /** The window holds a block wherever one is looked for. */
  predicate WindowServes(block: nat, sourceLen: nat) {
    block <= MAX_WINDOW || sourceLen < block
  }

  /** Where a block was missed there is room in the window for the byte after it. */
  predicate CanRoll(block: nat, sourceLen: nat) {
    block < MAX_WINDOW || sourceLen <= MAX_WINDOW
  }

  class Differ {
    const sig: Signature
    const maxChainLen: nat
    const strong: seq<byte> -> Digest

    var tableSize: nat
    var hashTable: seq<int>
    var chain: seq<int>
    var wantI: int
    var dstCursor: nat
    var window: seq<byte>
    var windowBase: nat
    var windowLen: nat
    var out: seq<Instruction>
    var literalBytes: nat
    var matchedBytes: nat
    /** Refills the same window for ever. */
    var stalled: bool
    /** Looked past the end of its window. */
    var astray: bool

    constructor (sig: Signature, strong: seq<byte> -> Digest, maxChainLen: nat)
      ensures this.sig == sig && this.strong == strong && this.maxChainLen == maxChainLen
      ensures out == [] && literalBytes == matchedBytes == 0 && !stalled && !astray
    {
      this.sig, this.strong, this.maxChainLen := sig, strong, maxChainLen;
      tableSize, hashTable, chain, wantI, dstCursor := 0, [], [], 0, 0;
      window, windowBase, windowLen := [], 0, 0;
      out, literalBytes, matchedBytes, stalled, astray := [], 0, 0, false, false;
    }

    // ----- The hash table -----

    function TableSizeFor(): (n: nat)
      ensures n > 0
    {
      Max(|sig.sums| / 8 * 10 + 11, TABLE_FLOOR)
    }

    /** The bucket of each block. The table is never smaller than the range of the hash. */
    function Keys(): (k: seq<nat>)
      ensures |k| == |sig.sums| && forall i :: 0 <= i < |k| ==> k[i] < TABLE_FLOOR
    {
      seq(|sig.sums|, i requires 0 <= i < |sig.sums| => WeakHash(sig.sums[i].weak))
    }

    ghost predicate TableValid()
      reads this`tableSize, this`hashTable, this`chain
    {
      tableSize == TableSizeFor() == |hashTable| && Threaded(Keys(), hashTable, chain, |sig.sums|)
    }

    method BuildHashTable()
      requires |sig.sums| < 0x8000_0000
      modifies this`tableSize, this`hashTable, this`chain
      ensures TableValid()
    {
      tableSize := |sig.sums| / 8 * 10 + 11;
      if tableSize < TABLE_FLOOR { tableSize := TABLE_FLOOR; }
      var size := tableSize;
      var keys: seq<nat> := seq(|sig.sums|, i requires 0 <= i < |sig.sums| => WeakHash(sig.sums[i].weak) % size);
      forall i | 0 <= i < |sig.sums| ensures keys[i] == Keys()[i] { HashFitsTable(sig.sums[i].weak, size); }
      assert keys == Keys();
      hashTable, chain := Thread(keys, tableSize);
    }

    /** The bucket is the hash modulo the table size, which leaves it as it is. */
    lemma HashFitsTable(weak: nat, size: nat)
      requires size >= TABLE_FLOOR
      ensures WeakHash(weak) % size == WeakHash(weak)
    {
      RemainderUnique(WeakHash(weak), 0, WeakHash(weak), size);
    }

    /** The blocks a lookup of this weak sum may look at. */
    function Candidates(weak: nat): seq<nat> {
      Within(Keys(), WeakHash(weak), maxChainLen)
    }

    function Hits(win: seq<byte>): nat -> bool {
      (i: nat) => Matches(sig, strong, i, win)
    }

    /** A block that passes the test, if one lies within the chain bound. */
    method Lookup(weak: nat, win: seq<byte>) returns (r: int)
      requires TableValid() && weak == Weak(win)
      ensures Picked(Candidates(weak), Hits(win), wantI, r)
    {
      HashFitsTable(weak, tableSize);
      r := Follow(Keys(), hashTable, chain, WeakHash(weak) % tableSize, maxChainLen, Hits(win), wantI);
    }

    // ----- The window -----

    ghost predicate WindowHolds(source: seq<byte>)
      reads this`window, this`windowBase, this`windowLen
    {
      && windowLen <= |window| && windowBase + windowLen <= |source|
      && window[..windowLen] == source[windowBase..windowBase + windowLen]
    }

    method FillWindow(source: seq<byte>, at: nat)
      requires at <= |source|
      modifies this`window, this`windowBase, this`windowLen
      ensures |window| == old(|window|) && WindowHolds(source)
      ensures windowBase == at && windowLen == Filled(at, |window|, |source|)
    {
      var want := Min(|window|, |source| - at);
      window := source[at..at + want] + window[want..];
      windowBase, windowLen := at, want;
    }

    method EnsureWindow(source: seq<byte>, at: nat)
      requires at <= |source| && WindowHolds(source)
      modifies this`window, this`windowBase, this`windowLen
      ensures |window| == old(|window|) && WindowHolds(source)
      ensures Scan(at, windowBase, windowLen)
           == Ensured(Scan(at, old(windowBase), old(windowLen)), sig.blockLength, |window|, |source|)
    {
      var need := Min(at + sig.blockLength, |source|);
      if !(at >= windowBase && need <= windowBase + windowLen) { FillWindow(source, at); }
    }

    // ----- Emitting -----

    /** No block the table offers for the bytes at `o` is those bytes. */
    ghost predicate NoBlockAt(source: seq<byte>, o: nat) {
      0 < sig.blockLength && o + sig.blockLength <= |source| ==>
        var win := source[o..o + sig.blockLength];
        forall c :: c in Candidates(Weak(win)) ==> !Matches(sig, strong, c, win)
    }

    ghost predicate Bare(source: seq<byte>, from: nat, to: nat) {
      forall o: nat :: from <= o < to ==> NoBlockAt(source, o)
    }

    /** Only bytes where no block starts go out literally. */
    ghost predicate Thrifty(ins: seq<Instruction>, source: seq<byte>) {
      forall k :: 0 <= k < |ins| && ins[k].Literal? ==> Bare(source, ins[k].srcOffset, ins[k].srcOffset + ins[k].length)
    }

    ghost predicate Emitted(source: seq<byte>)
      reads this`out, this`dstCursor, this`literalBytes, this`matchedBytes
    {
      && Thrifty(out, source)
      && Tiles(out, dstCursor) && Sound(out, sig, strong, source) && dstCursor <= |source|
      && literalBytes == LiteralTotal(out) && matchedBytes == CopyTotal(out)
    }

    method EmitLiteral(source: seq<byte>, from: nat, length: nat)
      requires Emitted(source) && from == dstCursor && from + length <= |source| && Bare(source, from, from + length)
      modifies this`out, this`dstCursor, this`literalBytes
      ensures Emitted(source) && dstCursor == from + length
      ensures literalBytes == old(literalBytes) + length
    {
      var offset, left := from, length;
      while left > 0
        invariant left >= 0 && Emitted(source) && dstCursor == offset && offset + left == from + length
        invariant literalBytes == old(literalBytes) + length - left
      {
        var n := Min(left, MAX_WINDOW);
        TilesAppend(out, dstCursor, Literal(offset, dstCursor, n));
        out := out + [Literal(offset, dstCursor, n)];
        literalBytes := literalBytes + n;
        offset, dstCursor, left := offset + n, dstCursor + n, left - n;
      }
    }

    method EmitCopy(source: seq<byte>, index: nat, srcOffset: nat, bytes: seq<byte>)
      requires Emitted(source) && srcOffset == dstCursor && srcOffset + |bytes| <= |source|
      requires bytes != [] && bytes == source[srcOffset..srcOffset + |bytes|] && Matches(sig, strong, index, bytes)
      modifies this`out, this`dstCursor, this`matchedBytes
      ensures Emitted(source) && dstCursor == srcOffset + |bytes|
    {
      TilesAppend(out, dstCursor, Copy(index, srcOffset, dstCursor, |bytes|, bytes));
      out := out + [Copy(index, srcOffset, dstCursor, |bytes|, bytes)];
      matchedBytes := matchedBytes + |bytes|;
      dstCursor := dstCursor + |bytes|;
    }

    /** The basis's short final block, tried at the one place it can match. */
    method MatchFinalBlock(source: seq<byte>, from: nat) returns (matched: bool)
      requires Emitted(source) && from == dstCursor && sig.sums != [] && sig.blockLength < 0x8000_0000
      requires Bare(source, from, |source|)
      modifies this`out, this`dstCursor, this`matchedBytes, this`literalBytes
      ensures Emitted(source) && dstCursor == if matched then |source| else from
      ensures !matched ==> literalBytes == old(literalBytes)
      ensures var n := BlockLengthAt(sig, |sig.sums| - 1);
        && matched == (0 < n < sig.blockLength && from + n <= |source|
                       && Matches(sig, strong, |sig.sums| - 1, source[|source| - n..]))
        && (matched ==> literalBytes == old(literalBytes) + (|source| - n - from))
    {
      var lastIdx := |sig.sums| - 1;
      var lastLen := BlockLengthAt(sig, lastIdx);
      if lastLen == 0 || lastLen >= sig.blockLength || |source| < lastLen { return false; }
      var at := |source| - lastLen;
      if at < from { return false; }
      var view := source[at..at + lastLen];
      ToTheEnd(source, at);
      var weak := WeakChecksum(view);
      if weak != sig.sums[lastIdx].weak { return false; }
      if Prefix(strong(view), sig.strongLength) != Prefix(sig.sums[lastIdx].strong, sig.strongLength) { return false; }
      EmitTail(source, from, at, lastIdx);
      return true;
    }

    method EmitTail(source: seq<byte>, from: nat, at: nat, index: nat)
      requires Emitted(source) && from == dstCursor <= at < |source| && Bare(source, from, at)
      requires Matches(sig, strong, index, source[at..])
      modifies this`out, this`dstCursor, this`matchedBytes, this`literalBytes
      ensures Emitted(source) && dstCursor == |source| && literalBytes == old(literalBytes) + (at - from)
    {
      if at > from { EmitLiteral(source, from, at - from); }
      ToTheEnd(source, at);
      EmitCopy(source, index, at, source[at..]);
    }

    // ----- The scan -----

    predicate IsMultiple(offset: nat) {
      offset == 0 || (offset >= sig.blockLength > 0 && IsMultiple(offset - sig.blockLength))
    }

    lemma {:induction false} Multiple(offset: nat) returns (i: nat)
      requires sig.blockLength > 0 && IsMultiple(offset)
      ensures StartOf(sig.blockLength, i) == offset
    {
      if offset == 0 {
        i := 0;
      } else {
        var before := Multiple(offset - sig.blockLength);
        i := before + 1;
      }
    }

    /** The source is the basis itself, and no chain is cut short. */
    ghost predicate Unchanged(source: seq<byte>) {
      && Describes(sig, source, strong) && 0 < sig.blockLength <= |source|
      && forall t: nat :: |Bucket(Keys(), t, |sig.sums|)| <= maxChainLen
    }

    /** In an unchanged source a block is found wherever one starts. */
    lemma FullBlockIsFound(source: seq<byte>, offset: nat)
      requires Unchanged(source)
      requires IsMultiple(offset) && offset + sig.blockLength <= |source|
      ensures !NoBlockAt(source, offset)
    {
      var win := source[offset..offset + sig.blockLength];
      var i := BlockHere(source, offset);
      CandidateHere(source, i, Weak(win));
    }

    lemma CandidateHere(source: seq<byte>, i: nat, weak: nat)
      requires Unchanged(source) && i < |sig.sums| && sig.sums[i].weak == weak
      ensures i in Candidates(weak)
    {
      var t := WeakHash(weak);
      assert Keys()[i] == t;
      BucketHolds(Keys(), t, |sig.sums|);
      assert Candidates(weak) == Bucket(Keys(), t, |sig.sums|);
    }

    /** The block that starts at a multiple of the block length. */
    lemma BlockHere(source: seq<byte>, offset: nat) returns (i: nat)
      requires Describes(sig, source, strong) && sig.blockLength > 0 && IsMultiple(offset) && offset < |source|
      ensures i < |sig.sums|
      ensures Matches(sig, strong, i, source[offset..Min(offset + sig.blockLength, |source|)])
      ensures offset + sig.blockLength >= |source| ==> i == |sig.sums| - 1
    {
      i := Multiple(offset);
      CountBounds(|source|, sig.blockLength, i);
      CountBounds(|source|, sig.blockLength, i + 1);
      BlockLengthAtIsLength(sig, source, strong, i);
      assert BlockAt(source, sig.blockLength, i) == source[offset..Min(offset + sig.blockLength, |source|)];
    }

    lemma FinalBlockIsFound(source: seq<byte>, from: nat)
      requires Unchanged(source)
      requires IsMultiple(from) && from < |source| < from + sig.blockLength
      ensures sig.sums != [] && BlockLengthAt(sig, |sig.sums| - 1) == |source| - from
      ensures Matches(sig, strong, |sig.sums| - 1, source[from..])
    {
      var i := BlockHere(source, from);
      assert source[from..Min(from + sig.blockLength, |source|)] == source[from..];
    }

    /** Between rounds: the window is true to the source and everything before `lastMatch` is out. */
    ghost predicate Scanning(source: seq<byte>, offset: nat, lastMatch: nat)
      reads this
    {
      && TableValid() && |window| == Min(MAX_WINDOW, |source|) && WindowHolds(source)
      && Emitted(source) && lastMatch == dstCursor <= offset <= |source| && Bare(source, lastMatch, offset)
    }

    predicate Rolled(source: seq<byte>, offset: nat, weak: nat) {
      offset + sig.blockLength <= |source| && weak == Weak(source[offset..offset + sig.blockLength])
    }

    lemma WindowShows(source: seq<byte>, offset: nat)
      requires WindowHolds(source) && windowBase <= offset && offset + sig.blockLength <= windowBase + windowLen
      ensures var w := offset - windowBase; window[w..w + sig.blockLength] == source[offset..offset + sig.blockLength]
    {
      var w := offset - windowBase;
      assert window[..windowLen][w..w + sig.blockLength] == window[w..w + sig.blockLength];
    }

    /** Looks for a block at `offset`, with the sum rolled there or computed afresh. */
    method Examine(source: seq<byte>, offset: nat, lastMatch: nat, given: nat, stale: bool) returns (i: int, weak: nat)
      requires Scanning(source, offset, lastMatch) && 0 < sig.blockLength < 0x8000_0000
      requires offset + sig.blockLength <= |source| && WindowServes(sig.blockLength, |source|)
      requires !stale ==> Rolled(source, offset, given)
      modifies this`window, this`windowBase, this`windowLen
      ensures Scanning(source, offset, lastMatch) && Rolled(source, offset, weak)
      ensures Scan(offset, windowBase, windowLen)
           == Ensured(Scan(offset, old(windowBase), old(windowLen)), sig.blockLength, |window|, |source|)
      ensures windowBase <= offset && offset + sig.blockLength <= windowBase + windowLen
      ensures Picked(Candidates(weak), Hits(source[offset..offset + sig.blockLength]), wantI, i)
    {
      var win := View(source, offset);
      weak := SumOver(win, given, stale);
      i := Lookup(weak, win);
    }

    /** The block at `offset`, out of the window. */
    method View(source: seq<byte>, offset: nat) returns (win: seq<byte>)
      requires WindowHolds(source) && |window| == Min(MAX_WINDOW, |source|)
      requires offset + sig.blockLength <= |source| && WindowServes(sig.blockLength, |source|)
      modifies this`window, this`windowBase, this`windowLen
      ensures |window| == old(|window|) && WindowHolds(source)
      ensures Scan(offset, windowBase, windowLen)
           == Ensured(Scan(offset, old(windowBase), old(windowLen)), sig.blockLength, |window|, |source|)
      ensures windowBase <= offset && offset + sig.blockLength <= windowBase + windowLen
      ensures win == source[offset..offset + sig.blockLength]
    {
      EnsureWindow(source, offset);
      var w := offset - windowBase;
      WindowShows(source, offset);
      win := window[w..w + sig.blockLength];
    }

    method SumOver(win: seq<byte>, given: nat, stale: bool) returns (weak: nat)
      requires |win| < 0x8000_0000 && (!stale ==> given == Weak(win))
      ensures weak == Weak(win)
    {
      weak := given;
      if stale { weak := WeakChecksum(win); }
    }

    /** The search of one round: what it finds passes the test, and in an unchanged source it finds. */
    method Find(source: seq<byte>, offset: nat, lastMatch: nat, given: nat, stale: bool) returns (i: int, weak: nat)
      requires Scanning(source, offset, lastMatch) && 0 < sig.blockLength < 0x8000_0000
      requires offset + sig.blockLength <= |source| && WindowServes(sig.blockLength, |source|)
      requires !stale ==> Rolled(source, offset, given)
      modifies this`window, this`windowBase, this`windowLen
      ensures Scanning(source, offset, lastMatch) && Rolled(source, offset, weak)
      ensures Scan(offset, windowBase, windowLen)
           == Ensured(Scan(offset, old(windowBase), old(windowLen)), sig.blockLength, |window|, |source|)
      ensures windowBase <= offset && offset + sig.blockLength <= windowBase + windowLen
      ensures i >= 0 ==> Matches(sig, strong, i, source[offset..offset + sig.blockLength]) && !NoBlockAt(source, offset)
      ensures i < 0 ==> NoBlockAt(source, offset)
    {
      i, weak := Examine(source, offset, lastMatch, given, stale);
      if i < 0 { NothingPicked(source, offset, weak, i); }
    }

    lemma NothingPicked(source: seq<byte>, offset: nat, weak: nat, i: int)
      requires Rolled(source, offset, weak) && i < 0
      requires Picked(Candidates(weak), Hits(source[offset..offset + sig.blockLength]), wantI, i)
      ensures NoBlockAt(source, offset)
    {
      var win, all := source[offset..offset + sig.blockLength], Candidates(weak);
      forall c | c in all ensures !Matches(sig, strong, c, win) {
        var n :| 0 <= n < |all| && all[n] == c;
        assert !Hits(win)(all[n]);
      }
    }

    /** No block here: refill the window, or roll the sum one byte on. */
    method OnMiss(source: seq<byte>, offset: nat, lastMatch: nat, weak: nat)
      returns (offset': nat, weak': nat, stale: bool)
      requires Scanning(source, offset, lastMatch) && Rolled(source, offset, weak) && sig.blockLength > 0
      requires windowBase <= offset && offset + sig.blockLength <= windowBase + windowLen
      requires offset + sig.blockLength < |source| && NoBlockAt(source, offset)
      modifies this`window, this`windowBase, this`windowLen
      ensures Scanning(source, offset', lastMatch) && (!stale ==> Rolled(source, offset', weak'))
      ensures Scan(offset', windowBase, windowLen)
           == Missed(Scan(offset, old(windowBase), old(windowLen)), sig.blockLength, |window|, |source|)
    {
      var block := sig.blockLength;
      var w := offset - windowBase;
      if w + block >= windowLen {
        FillWindow(source, offset);
        return offset, weak, true;
      }
      RolledOn(source, offset, weak);
      BareOn(source, lastMatch, offset);
      return offset + 1, RollWeak(weak, window[w], window[w + block], block), false;
    }

    /** The byte leaving and the byte entering come out of the window, and the sum moves with them. */
    lemma RolledOn(source: seq<byte>, offset: nat, weak: nat)
      requires WindowHolds(source) && Rolled(source, offset, weak) && sig.blockLength > 0
      requires windowBase <= offset && offset - windowBase + sig.blockLength < windowLen
      ensures var w := offset - windowBase;
        Rolled(source, offset + 1, RollWeak(weak, window[w], window[w + sig.blockLength], sig.blockLength))
    {
      var w, block := offset - windowBase, sig.blockLength;
      var win := source[offset..offset + block];
      assert window[w] == window[..windowLen][w] == win[0];
      assert window[w + block] == window[..windowLen][w + block] == source[offset + block];
      RollIsNextWindow(win, window[w + block]);
      assert win[1..] + [window[w + block]] == source[offset + 1..offset + 1 + block];
    }

    /** A block here: what lies between goes out literally, then the copy. */
    method OnHit(source: seq<byte>, offset: nat, lastMatch: nat, i: nat) returns (offset': nat)
      requires Scanning(source, offset, lastMatch) && sig.blockLength > 0 && offset + sig.blockLength <= |source|
      requires Matches(sig, strong, i, source[offset..offset + sig.blockLength])
      modifies this`wantI, this`out, this`dstCursor, this`literalBytes, this`matchedBytes
      ensures offset' == offset + sig.blockLength && Scanning(source, offset', offset')
      ensures literalBytes == old(literalBytes) + (offset - lastMatch)
    {
      if offset > lastMatch { EmitLiteral(source, lastMatch, offset - lastMatch); }
      EmitCopy(source, i, offset, source[offset..offset + sig.blockLength]);
      wantI := i + 1;
      return offset + BlockLengthAt(sig, i);
    }

    /** Every block's place before `offset` holds a block. */
    ghost predicate AllHit(source: seq<byte>, offset: nat) {
      offset == 0 || (offset >= sig.blockLength > 0 && !NoBlockAt(source, offset - sig.blockLength) && AllHit(source, offset - sig.blockLength))
    }

    /** The block fills the window, and at some block's place before the end there is no block. */
    ghost predicate Stalls(source: seq<byte>) {
      && sig.sums != [] && sig.blockLength == MAX_WINDOW
      && exists o: nat :: IsMultiple(o) && o + MAX_WINDOW < |source| && NoBlockAt(source, o)
    }

    /** A source longer than the window, a block as long, and a first block that is nowhere in the basis. */
    lemma StallsWithoutAMatch(source: seq<byte>)
      requires sig.sums != [] && sig.blockLength == MAX_WINDOW < |source|
      requires forall i :: 0 <= i < |sig.sums| ==> sig.sums[i].weak != Weak(source[..MAX_WINDOW])
      ensures Stalls(source)
    {
      assert source[0..0 + sig.blockLength] == source[..MAX_WINDOW];
      assert IsMultiple(0) && NoBlockAt(source, 0);
    }

    lemma {:induction false} HitMultiple(source: seq<byte>, offset: nat)
      requires AllHit(source, offset)
      ensures IsMultiple(offset)
    {
      if offset > 0 { HitMultiple(source, offset - sig.blockLength); }
    }

    lemma {:induction false} Apart(o: nat, offset: nat)
      requires IsMultiple(o) && IsMultiple(offset) && o < offset
      ensures o + sig.blockLength <= offset
    {
      if o > 0 { Apart(o - sig.blockLength, offset - sig.blockLength); }
    }

    lemma {:induction false} HitBefore(source: seq<byte>, offset: nat, o: nat)
      requires AllHit(source, offset) && IsMultiple(o) && o < offset
      ensures !NoBlockAt(source, o)
    {
      var last := offset - sig.blockLength;
      if o < last {
        HitBefore(source, last, o);
      } else if o > last {
        HitMultiple(source, offset);
        Apart(o, offset);
      }
    }

    /** Straight from block to block to less than a block from the end, and there at the end or at the basis's short final block. */
    ghost predicate AllCopied(source: seq<byte>) {
      if sig.sums == [] || sig.blockLength == 0 || |source| < sig.blockLength then source == []
      else exists e: nat :: BlocksTo(source, e) && (e == |source| || TailMatches(source, e))
    }

    ghost predicate BlocksTo(source: seq<byte>, e: nat) {
      AllHit(source, e) && e <= |source| < e + sig.blockLength
    }

    /** The source from `e` on is the basis's final block. */
    predicate TailMatches(source: seq<byte>, e: nat)
      requires sig.sums != [] && e <= |source|
    {
      BlockLengthAt(sig, |sig.sums| - 1) == |source| - e && Matches(sig, strong, |sig.sums| - 1, source[e..])
    }

    lemma OneEnd(source: seq<byte>, a: nat, b: nat)
      requires BlocksTo(source, a) && BlocksTo(source, b)
      ensures a == b
    {
      HitMultiple(source, a);
      HitMultiple(source, b);
      if a < b { Apart(a, b); }
      if b < a { Apart(b, a); }
    }

    /** A source that is its own basis goes out without a literal, as long as a block fits it and no chain is cut short. */
    lemma UnchangedIsCopied(source: seq<byte>)
      requires Unchanged(source)
      ensures AllCopied(source) && !Stalls(source)
    {
      CountBounds(|source|, sig.blockLength, 0);
      var e := LastPlace(|source|, 0);
      UnchangedHits(source, e);
      if e < |source| { FinalBlockIsFound(source, e); }
      assert BlocksTo(source, e);
      if Stalls(source) {
        var o: nat :| IsMultiple(o) && o + MAX_WINDOW < |source| && NoBlockAt(source, o);
        FullBlockIsFound(source, o);
      }
    }

    lemma {:induction false} LastPlace(n: nat, from: nat) returns (e: nat)
      requires sig.blockLength > 0 && IsMultiple(from) && from <= n
      ensures IsMultiple(e) && e <= n < e + sig.blockLength
      decreases n - from
    {
      e := from;
      if from + sig.blockLength <= n { e := LastPlace(n, from + sig.blockLength); }
    }

    lemma {:induction false} HitsUpTo(source: seq<byte>, e: nat)
      requires IsMultiple(e) && forall o: nat :: IsMultiple(o) && o < e ==> !NoBlockAt(source, o)
      ensures AllHit(source, e)
    {
      if e > 0 {
        var o := e - sig.blockLength;
        assert IsMultiple(o) && !NoBlockAt(source, o);
        HitsUpTo(source, o);
      }
    }

    lemma UnchangedHits(source: seq<byte>, e: nat)
      requires Unchanged(source) && IsMultiple(e) && e <= |source|
      ensures AllHit(source, e)
    {
      forall o: nat | IsMultiple(o) && o < e ensures !NoBlockAt(source, o) {
        Apart(o, e);
        FullBlockIsFound(source, o);
      }
      HitsUpTo(source, e);
    }

    /** One shorter than a block does not, though it be its own basis. */
    lemma ShortIsNotCopied(source: seq<byte>)
      requires 0 < |source| < sig.blockLength
      ensures !AllCopied(source)
    {
    }

    /**
      The scan stays within its window exactly when that holds a block wherever one
      fits; then it ends exactly when it does not stall, with instructions that tile
      the source, and it sends no literal byte exactly when blocks follow one another
      to the end or to the basis's short final block.
     */
    method Diff(source: seq<byte>)
      requires |source| < U64 && |sig.sums| < 0x8000_0000
      requires out == [] && literalBytes == matchedBytes == 0
      modifies this
      ensures astray <==> sig.sums != [] && !WindowServes(sig.blockLength, |source|)
      ensures stalled <==> Stalls(source)
      ensures !stalled && !astray ==> Tiles(out, |source|) && Sound(out, sig, strong, source) && Thrifty(out, source)
      ensures !stalled && !astray ==> literalBytes == LiteralTotal(out) && matchedBytes == CopyTotal(out)
      ensures !stalled && !astray ==> (literalBytes == 0 <==> AllCopied(source))
    {
      dstCursor, wantI, stalled, astray := 0, 0, false, false;
      if sig.sums == [] || sig.blockLength == 0 || |source| < sig.blockLength {
        EmitWhole(source);
        return;
      }
      Prepare(source);
      if sig.blockLength > |window| {
        // The first block looked at reaches past the window.
        astray := true;
        return;
      }
      DiffBlocks(source);
    }

    method Prepare(source: seq<byte>)
      requires |sig.sums| < 0x8000_0000 && out == [] && literalBytes == matchedBytes == 0 && dstCursor == 0
      modifies this`tableSize, this`hashTable, this`chain, this`window, this`windowBase, this`windowLen
      ensures Scanning(source, 0, 0)
    {
      BuildHashTable();
      window := seq(Min(MAX_WINDOW, |source|), _ => 0);
      windowBase, windowLen := 0, 0;
      FillWindow(source, 0);
    }

    method DiffBlocks(source: seq<byte>)
      requires |source| < U64 && sig.sums != [] && 0 < sig.blockLength <= MAX_WINDOW && sig.blockLength <= |source|
      requires Scanning(source, 0, 0) && literalBytes == matchedBytes == 0 && !stalled
      modifies this
      ensures stalled <==> Stalls(source)
      ensures astray == old(astray) && (!stalled ==> Emitted(source) && dstCursor == |source|)
      ensures !stalled ==> (literalBytes == 0 <==> AllCopied(source))
    {
      var lastMatch := ScanSource(source);
      if stalled { return; }
      ghost var literal := literalBytes;
      Finish(source, lastMatch);
      CopiedExactly(source, lastMatch, literal, literalBytes);
    }

    lemma CopiedExactly(source: seq<byte>, lastMatch: nat, scanned: nat, literal: nat)
      requires sig.sums != [] && 0 < sig.blockLength <= |source| && lastMatch <= |source|
      requires scanned == 0 && |source| < lastMatch + sig.blockLength ==> BlocksTo(source, lastMatch)
      requires (exists e: nat :: BlocksTo(source, e)) ==> scanned == 0 && |source| < lastMatch + sig.blockLength
      requires literal == 0 <==>
        scanned == 0 && |source| < lastMatch + sig.blockLength && (lastMatch == |source| || TailMatches(source, lastMatch))
      ensures literal == 0 <==> AllCopied(source)
    {
      if AllCopied(source) {
        var e: nat :| BlocksTo(source, e) && (e == |source| || TailMatches(source, e));
        OneEnd(source, e, lastMatch);
      }
    }

    method EmitWhole(source: seq<byte>)
      requires sig.sums == [] || sig.blockLength == 0 || |source| < sig.blockLength
      requires out == [] && literalBytes == matchedBytes == 0 && dstCursor == 0
      modifies this`out, this`dstCursor, this`literalBytes
      ensures Emitted(source) && dstCursor == |source| && literalBytes == |source|
    {
      if sig.sums == [] { NothingOffered(source); }
      EmitLiteral(source, 0, |source|);
    }

    lemma NothingOffered(source: seq<byte>)
      requires sig.sums == []
      ensures Bare(source, 0, |source|)
    {
      assert forall weak: nat :: Candidates(weak) == [];
    }

    /** What is left after the last block found: the basis's short final block, or a literal. */
    method Finish(source: seq<byte>, from: nat)
      requires Emitted(source) && from == dstCursor && sig.sums != [] && 0 < sig.blockLength < 0x8000_0000
      requires Bare(source, from, |source|)
      modifies this`out, this`dstCursor, this`matchedBytes, this`literalBytes
      ensures Emitted(source) && dstCursor == |source|
      ensures literalBytes == 0 <==>
        old(literalBytes) == 0 && |source| < from + sig.blockLength && (from == |source| || TailMatches(source, from))
    {
      var lastMatch := from;
      if lastMatch < |source| {
        TailExactly(source, from);
        var matched := MatchFinalBlock(source, lastMatch);
        if matched { lastMatch := |source|; }
      }
      if lastMatch < |source| { EmitLiteral(source, lastMatch, |source| - lastMatch); }
    }

    lemma TailExactly(source: seq<byte>, from: nat)
      requires sig.sums != [] && from < |source|
      ensures var n := BlockLengthAt(sig, |sig.sums| - 1);
        0 < n < sig.blockLength && n == |source| - from && Matches(sig, strong, |sig.sums| - 1, source[|source| - n..])
        <==> |source| < from + sig.blockLength && TailMatches(source, from)
    {
    }

    method ScanSource(source: seq<byte>) returns (lastMatch: nat)
      requires Scanning(source, 0, 0) && 0 < sig.blockLength < 0x8000_0000 && sig.sums != []
      requires WindowServes(sig.blockLength, |source|) && literalBytes == 0 && !stalled && sig.blockLength <= |source|
      modifies this`wantI, this`out, this`dstCursor, this`literalBytes, this`matchedBytes
      modifies this`window, this`windowBase, this`windowLen, this`stalled
      ensures stalled <==> Stalls(source)
      ensures !stalled ==> Emitted(source) && lastMatch == dstCursor && Bare(source, lastMatch, |source|)
      ensures !stalled && literalBytes == 0 && |source| < lastMatch + sig.blockLength ==> BlocksTo(source, lastMatch)
      ensures !stalled && (exists e: nat :: BlocksTo(source, e)) ==> literalBytes == 0 && |source| < lastMatch + sig.blockLength
    {
      ghost var offset, gaps;
      lastMatch, offset, gaps := ScanOn(source);
      StallsHere(source, offset);
      if gaps { NoWayThrough(source); }
    }

    /** Some block's place holds none, though all before it do. */
    ghost predicate Gap(source: seq<byte>) {
      exists o: nat :: AllHit(source, o) && o + sig.blockLength <= |source| && NoBlockAt(source, o)
    }

    lemma NoWayThrough(source: seq<byte>)
      requires Gap(source)
      ensures forall e: nat :: !BlocksTo(source, e)
    {
      var o: nat :| AllHit(source, o) && o + sig.blockLength <= |source| && NoBlockAt(source, o);
      HitMultiple(source, o);
      forall e: nat ensures !BlocksTo(source, e) {
        if BlocksTo(source, e) { HitBefore(source, e, o); }
      }
    }

    /** The rounds of the scan, straight from block to block up to the first gap. */
    method ScanOn(source: seq<byte>) returns (lastMatch: nat, ghost offset': nat, ghost gaps: bool)
      requires Scanning(source, 0, 0) && 0 < sig.blockLength < 0x8000_0000
      requires WindowServes(sig.blockLength, |source|) && literalBytes == 0 && !stalled
      modifies this`wantI, this`out, this`dstCursor, this`literalBytes, this`matchedBytes
      modifies this`window, this`windowBase, this`windowLen, this`stalled
      ensures !stalled ==> Emitted(source) && lastMatch == dstCursor && Bare(source, lastMatch, |source|)
      ensures if stalled then gaps && StuckAt(source, offset') else offset' + sig.blockLength >= |source|
      ensures gaps ==> Gap(source) && (stalled || literalBytes > 0 || lastMatch + sig.blockLength <= |source|)
      ensures !gaps ==> AllHit(source, offset') && lastMatch == offset' && literalBytes == 0 && |source| < lastMatch + sig.blockLength
      ensures CanRoll(sig.blockLength, |source|) || AllHit(source, offset')
    {
      var offset: nat, weak: nat, stale: bool, over: bool := 0, 0, true, false;
      lastMatch, gaps := 0, false;
      ghost var gapAt: nat := 0;
      while !over && offset + sig.blockLength <= |source|
        invariant Scanning(source, offset, lastMatch) && (!stale ==> Rolled(source, offset, weak))
        invariant stalled ==> over && StuckAt(source, offset)
        invariant over && !stalled ==> Bare(source, lastMatch, |source|) && offset + sig.blockLength >= |source|
        invariant over ==> gaps
        invariant Track(source, offset, lastMatch, literalBytes, gaps, gapAt, over)
        decreases !over, |source| - offset, Unfilled(source, offset)
      {
        ghost var was, lastWas, literalWas, gapsWas := offset, lastMatch, literalBytes, gaps;
        var hit;
        hit, over, offset, lastMatch, weak, stale := Round(source, offset, lastMatch, weak, stale);
        TrackOn(source, was, lastWas, literalWas, gapsWas, gapAt, hit, over, offset, lastMatch, literalBytes);
        if !gaps && !hit { gaps, gapAt := true, was; }
      }
      offset' := offset;
    }

    /** How far the scan has gone straight. One that cannot roll goes on only from a hit. */
    ghost predicate Track(source: seq<byte>, offset: nat, lastMatch: nat, literal: nat, gaps: bool, gapAt: nat, over: bool) {
      && (gaps && literal == 0 ==> lastMatch <= gapAt <= offset && gapAt + sig.blockLength <= |source| && NoBlockAt(source, gapAt))
      && (!gaps ==> AllHit(source, offset) && lastMatch == offset && literal == 0)
      && (gaps ==> Gap(source))
      && (CanRoll(sig.blockLength, |source|) || (AllHit(source, offset) && gaps == over))
    }

    lemma TrackOn(
      source: seq<byte>, offset: nat, lastMatch: nat, literal: nat, gaps: bool, gapAt: nat,
      hit: bool, over: bool, offset': nat, lastMatch': nat, literal': nat)
      requires Track(source, offset, lastMatch, literal, gaps, gapAt, false) && lastMatch <= offset <= offset'
      requires 0 < sig.blockLength && offset + sig.blockLength <= |source|
      requires hit <==> !NoBlockAt(source, offset)
      requires hit ==> !over && offset' == lastMatch' == offset + sig.blockLength && literal' == literal + (offset - lastMatch)
      requires over ==> offset' == offset
      requires !hit ==> lastMatch' == lastMatch && literal' == literal
      requires !hit && !over ==> CanRoll(sig.blockLength, |source|)
      ensures Track(source, offset', lastMatch', literal', gaps || !hit, if !gaps && !hit then offset else gapAt, over)
    {
    }

    /** Where the scan stops it has seen every place that could stall it. */
    lemma StallsHere(source: seq<byte>, offset: nat)
      requires sig.sums != [] && 0 < sig.blockLength <= |source| && WindowServes(sig.blockLength, |source|)
      requires CanRoll(sig.blockLength, |source|) || AllHit(source, offset)
      requires if stalled then StuckAt(source, offset) else offset + sig.blockLength >= |source|
      ensures stalled <==> Stalls(source)
    {
      if stalled {
        HitMultiple(source, offset);
      } else if Stalls(source) {
        var o: nat :| IsMultiple(o) && o + MAX_WINDOW < |source| && NoBlockAt(source, o);
        HitBefore(source, offset, o);
      }
    }

    /** Whether a refill at `offset` would change the window. */
    function Unfilled(source: seq<byte>, offset: nat): nat
      reads this`window, this`windowBase, this`windowLen
    {
      if Full(Scan(offset, windowBase, windowLen), |window|, |source|) then 0 else 1
    }

    /** No block here, and no way on. */
    ghost predicate StuckAt(source: seq<byte>, offset: nat) {
      !CanRoll(sig.blockLength, |source|) && NoBlockAt(source, offset) && offset + sig.blockLength < |source|
    }

    lemma BareOn(source: seq<byte>, from: nat, offset: nat)
      requires Bare(source, from, offset) && NoBlockAt(source, offset)
      ensures Bare(source, from, offset + 1)
    {
      forall o: nat | from <= o < offset + 1 ensures NoBlockAt(source, o) {}
    }

    lemma BareToTheEnd(source: seq<byte>, from: nat, offset: nat)
      requires Bare(source, from, offset) && NoBlockAt(source, offset) && offset + sig.blockLength >= |source|
      ensures Bare(source, from, |source|)
    {
      forall o: nat | from <= o < |source| ensures NoBlockAt(source, o) {}
    }

    /** One round of the scan: a block found and sent, or one step on, or the end. */
    method Round(source: seq<byte>, offset: nat, lastMatch: nat, weak: nat, stale: bool)
      returns (hit: bool, over: bool, offset': nat, lastMatch': nat, weak': nat, stale': bool)
      requires !stalled && Scanning(source, offset, lastMatch) && 0 < sig.blockLength < 0x8000_0000
      requires offset + sig.blockLength <= |source| && WindowServes(sig.blockLength, |source|)
      requires !stale ==> Rolled(source, offset, weak)
      modifies this`wantI, this`out, this`dstCursor, this`literalBytes, this`matchedBytes
      modifies this`window, this`windowBase, this`windowLen, this`stalled
      ensures Scanning(source, offset', lastMatch') && (!stale' ==> Rolled(source, offset', weak'))
      ensures hit <==> !NoBlockAt(source, offset)
      ensures hit ==> !over && offset' == lastMatch' == offset + sig.blockLength
      ensures literalBytes == old(literalBytes) + if hit then offset - lastMatch else 0
      ensures over ==> offset' == offset
      ensures !hit ==> lastMatch' == lastMatch
      ensures over && !stalled ==> Bare(source, lastMatch, |source|) && offset + sig.blockLength >= |source|
      ensures stalled ==> over && StuckAt(source, offset)
      ensures !hit && !over ==> CanRoll(sig.blockLength, |source|)
      ensures !over ==> offset < offset' || (offset' == offset && Unfilled(source, offset) < old(Unfilled(source, offset)))
    {
      ghost var s := Scan(offset, windowBase, windowLen);
      var i;
      i, weak' := Find(source, offset, lastMatch, weak, stale);
      if i >= 0 {
        offset' := OnHit(source, offset, lastMatch, i);
        return true, false, offset', offset', weak', true;
      }
      hit, lastMatch' := false, lastMatch;
      over, offset', weak', stale' := NoBlock(source, offset, lastMatch, weak', s);
    }

    /** No block at `offset`: the end, one step on, or the same window for ever. */
    method NoBlock(source: seq<byte>, offset: nat, lastMatch: nat, weak: nat, ghost s: Scan)
      returns (over: bool, offset': nat, weak': nat, stale: bool)
      requires !stalled && Scanning(source, offset, lastMatch) && Rolled(source, offset, weak) && sig.blockLength > 0
      requires WindowServes(sig.blockLength, |source|) && NoBlockAt(source, offset)
      requires windowBase <= offset && offset + sig.blockLength <= windowBase + windowLen
      requires s.offset == offset && s.len <= |window| && s.base + s.len <= |source|
      requires Scan(offset, windowBase, windowLen) == Ensured(s, sig.blockLength, |window|, |source|)
      modifies this`window, this`windowBase, this`windowLen, this`stalled
      ensures Scanning(source, offset', lastMatch) && (!stale ==> Rolled(source, offset', weak'))
      ensures over ==> offset' == offset
      ensures over && !stalled ==> Bare(source, lastMatch, |source|) && offset + sig.blockLength >= |source|
      ensures stalled ==> over && StuckAt(source, offset)
      ensures !over ==> CanRoll(sig.blockLength, |source|)
      ensures !over ==> offset < offset' || (offset' == offset && Unfilled(source, offset) == 0 && !Full(s, |window|, |source|))
    {
      if offset + sig.blockLength >= |source| {
        BareToTheEnd(source, lastMatch, offset);
        return true, offset, weak, true;
      }
      RefillRepeatsExactly(Scan(offset, windowBase, windowLen), sig.blockLength, |source|);
      if offset - windowBase + sig.blockLength >= windowLen && Full(Scan(offset, windowBase, windowLen), |window|, |source|) {
        stalled := true;
        return true, offset, weak, true;
      }
      MissProgress(s, sig.blockLength, |source|);
      offset', weak', stale := OnMiss(source, offset, lastMatch, weak);
      return false, offset', weak', stale;
    }
  }
}
