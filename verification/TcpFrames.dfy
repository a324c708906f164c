/** The frames of the tcp data channel: key(8) | length(4) | payload, on one byte stream. */
module TcpFrames {
  import opened Bytes

  const HEADER_SIZE: nat := 12

  type Key = nat

  datatype Frame = Frame(key: Key, payload: seq<byte>)

  predicate FrameOk(f: Frame) {
    f.key < U64 && |f.payload| < U32
  }

  /** Little-endian, `n` bytes. */
  function Le(v: nat, n: nat): (r: seq<byte>)
    ensures |r| == n
  {
    if n == 0 then [] else [v % 0x100] + Le(v / 0x100, n - 1)
  }

  function FromLe(b: seq<byte>): nat {
    if b == [] then 0 else b[0] + 0x100 * FromLe(b[1..])
  }

  function Limit(n: nat): nat {
    if n == 0 then 1 else 0x100 * Limit(n - 1)
  }

  lemma {:induction false} LeRoundTrip(v: nat, n: nat)
    requires v < Limit(n)
    ensures FromLe(Le(v, n)) == v
  {
    if n > 0 { LeRoundTrip(v / 0x100, n - 1); }
  }

  lemma Limits()
    ensures Limit(4) == U32 && Limit(8) == U64
  {
    assert Limit(4) == U32;
    assert Limit(6) == 0x1_0000 * Limit(4);
    assert Limit(8) == 0x1_0000 * Limit(6);
  }

  function Encode(f: Frame): (r: seq<byte>)
    ensures |r| == HEADER_SIZE + |f.payload|
  {
    Le(f.key, 8) + Le(|f.payload|, 4) + f.payload
  }

  function KeyIn(header: seq<byte>): Key
    requires |header| >= HEADER_SIZE
  {
    FromLe(header[..8])
  }

  function LengthIn(header: seq<byte>): nat
    requires |header| >= HEADER_SIZE
  {
    FromLe(header[8..HEADER_SIZE])
  }

  lemma HeaderRoundTrip(f: Frame)
    requires FrameOk(f)
    ensures KeyIn(Encode(f)[..HEADER_SIZE]) == f.key && LengthIn(Encode(f)[..HEADER_SIZE]) == |f.payload|
    ensures Encode(f)[HEADER_SIZE..] == f.payload
  {
    Limits();
    LeRoundTrip(f.key, 8);
    LeRoundTrip(|f.payload|, 4);
    assert Encode(f)[..HEADER_SIZE][..8] == Le(f.key, 8);
    assert Encode(f)[..HEADER_SIZE][8..HEADER_SIZE] == Le(|f.payload|, 4);
  }

  function EncodeAll(fs: seq<Frame>): seq<byte> {
    if fs == [] then [] else EncodeAll(fs[..|fs| - 1]) + Encode(fs[|fs| - 1])
  }

  /** Where frame `i` starts. */
  function Start(fs: seq<Frame>, i: nat): nat
    requires i <= |fs|
  {
    |EncodeAll(fs[..i])|
  }

  lemma EncodeAppend(fs: seq<Frame>, f: Frame)
    ensures EncodeAll(fs + [f]) == EncodeAll(fs) + Encode(f)
    ensures forall i :: 0 <= i <= |fs| ==> Start(fs + [f], i) == Start(fs, i)
  {
    assert (fs + [f])[..|fs|] == fs;
    forall i | 0 <= i <= |fs| ensures (fs + [f])[..i] == fs[..i] {}
  }

  /** From its start, the stream holds frame `i` whole. */
  lemma {:induction false} FrameAt(fs: seq<Frame>, i: nat)
    requires i < |fs|
    ensures Start(fs, i) + |Encode(fs[i])| == Start(fs, i + 1) <= |EncodeAll(fs)|
    ensures EncodeAll(fs)[Start(fs, i)..Start(fs, i + 1)] == Encode(fs[i])
    decreases |fs|
  {
    var front := fs[..|fs| - 1];
    if i == |front| {
      assert fs[..i] == front && fs[..i + 1] == fs;
    } else {
      FrameAt(front, i);
      assert front[..i] == fs[..i] && front[..i + 1] == fs[..i + 1];
    }
  }
}
