/**
  Receiving pages into a file: receives posted ahead, hashed in order as they
  complete, and written while later ones arrive. Receives and disk writes may
  complete in any order, and a receiver that holds every page of the pool
  itself waits for ever.
 */
module Landing {
  import opened Bytes
  import opened Delta
  import opened Signatures

  const ALIGNMENT: nat := 4096

  /** A receive posted for the bytes at `at`; a direct one lands in the sink's own memory. */
  datatype Posted = Posted(at: nat, length: nat, direct: bool)

  /** Bytes and their place in the file. */
  datatype Piece = Piece(at: nat, data: seq<byte>)

  /** A write in flight. `padded` is its length on disk, `landed` whether the disk has it. */
  datatype InFlight = InFlight(piece: Piece, padded: nat, landed: bool)

  /**
    What the world decides: the bytes that arrive under each key, which pages the
    sink takes itself, and which operations fail.
   */
  datatype World = World(
    arrives: nat -> seq<byte>, direct: nat -> bool, backed: bool,
    received: nat -> bool, submitted: nat -> bool, written: nat -> bool, aligned: bool)

  /** A world in which nothing fails. */
  ghost predicate Works(w: World) {
    w.backed && forall at: nat :: w.received(at) && w.submitted(at) && w.written(at)
  }

  function Zeros(n: nat): (r: seq<byte>)
    ensures |r| == n
  {
    seq(n, _ => 0)
  }

  /** A completed receive filled exactly the room it was posted with. */
  function Exactly(s: seq<byte>, n: nat): (r: seq<byte>)
    ensures |r| == n
  {
    if |s| >= n then s[..n] else s + Zeros(n - |s|)
  }

  function RoundUp(n: nat): (r: nat)
    ensures n <= r < n + ALIGNMENT && r % ALIGNMENT == 0
  {
    (n + ALIGNMENT - 1) / ALIGNMENT * ALIGNMENT
  }

  // ----- Pages of the pool -----

  /** How many of the pages at these offsets come from the pool. */
  function Pooled(ats: seq<nat>, own: nat -> bool): (n: nat)
    ensures n <= |ats|
  {
    if ats == [] then 0 else (if own(ats[0]) then 0 else 1) + Pooled(ats[1..], own)
  }

  lemma {:induction false} PooledJoin(a: seq<nat>, b: seq<nat>, own: nat -> bool)
    ensures Pooled(a + b, own) == Pooled(a, own) + Pooled(b, own)
  {
    if a == [] {
      assert a + b == b;
    } else {
      PooledJoin(a[1..], b, own);
      assert (a + b)[1..] == a[1..] + b;
    }
  }

  /** The length of the page at an offset: a whole one, or what is left. */
  function PageAt(at: nat, end: nat, pageSize: nat): nat {
    Min(pageSize, if at < end then end - at else 0)
  }

  /** The offsets at which a range is cut into pages. */
  function Cuts(at: nat, end: nat, pageSize: nat): seq<nat>
    requires pageSize > 0
    decreases end - at
  {
    if at >= end then [] else [at] + Cuts(at + PageAt(at, end, pageSize), end, pageSize)
  }

  /** The cuts are a page apart, from the first byte to the last. */
  lemma {:induction false} CutsArePagesApart(at: nat, end: nat, pageSize: nat)
    requires pageSize > 0
    ensures var cuts := Cuts(at, end, pageSize);
      && (forall k :: 0 <= k < |cuts| ==> cuts[k] == at + StartOf(pageSize, k) < end)
      && end <= at + StartOf(pageSize, |cuts|)
    decreases end - at
  {
    if at + pageSize < end {
      CutsArePagesApart(at + pageSize, end, pageSize);
      var rest := Cuts(at + pageSize, end, pageSize);
      assert Cuts(at, end, pageSize) == [at] + rest;
      forall k | 0 < k <= |rest| ensures ([at] + rest)[k] == at + StartOf(pageSize, k) { assert ([at] + rest)[k] == rest[k - 1]; }
    } else if at < end {
      assert Cuts(at, end, pageSize) == [at] && StartOf(pageSize, 0) == 0 && StartOf(pageSize, 1) == pageSize;
    }
  }

  /** The pages asked for so far, from `start` up to `at`. */
  ghost predicate Asked(asked: seq<nat>, start: nat, at: nat, end: nat, pageSize: nat) {
    if asked == [] then at == start
    else
      var last := asked[|asked| - 1];
      last < end && at == last + PageAt(last, end, pageSize) && Asked(asked[..|asked| - 1], start, last, end, pageSize)
  }

  lemma AskedOn(asked: seq<nat>, start: nat, at: nat, end: nat, pageSize: nat)
    requires Asked(asked, start, at, end, pageSize) && at < end
    ensures Asked(asked + [at], start, at + PageAt(at, end, pageSize), end, pageSize)
  {
    assert (asked + [at])[..|asked|] == asked;
  }

  /** They are the first of the range's pages. */
  lemma {:induction false} AskedIs(asked: seq<nat>, start: nat, at: nat, end: nat, pageSize: nat)
    requires pageSize > 0 && Asked(asked, start, at, end, pageSize)
    ensures asked + Cuts(at, end, pageSize) == Cuts(start, end, pageSize)
  {
    if asked == [] {
      assert [] + Cuts(start, end, pageSize) == Cuts(start, end, pageSize);
    } else {
      var front, last := asked[..|asked| - 1], asked[|asked| - 1];
      AskedIs(front, start, last, end, pageSize);
      assert Cuts(last, end, pageSize) == [last] + Cuts(at, end, pageSize);
      assert front + ([last] + Cuts(at, end, pageSize)) == asked + Cuts(at, end, pageSize);
    }
  }

  /** How many must go for at most `keep` to be left. */
  function Over(n: nat, keep: nat): nat {
    if n > keep then n - keep else 0
  }

  /** The windows leave a page over whenever one is asked for. */
  predicate ReceiverSpare(pages: nat, window: nat, writeDepth: nat) {
    1 <= window && window + writeDepth <= pages
  }

  /** Pages of the pool a receiver holds when it asks for the next one: receives posted, then writes under way. */
  function HeldAsking(ats: seq<nat>, writes: nat, window: nat, writeDepth: nat, own: nat -> bool): nat
    requires 1 <= window
  {
    var gone := Over(|ats|, window - 1);
    Pooled(ats[gone..], own) + Min(writeDepth, writes + Pooled(ats[..gone], own))
  }

  /** Asking for page `j` of a range, the receiver holds them all. */
  predicate ReceiverStarvesAt(ats: seq<nat>, j: nat, pages: nat, window: nat, writeDepth: nat, own: nat -> bool)
    requires 1 <= window
  {
    && j < |ats| && !own(ats[j])
    && Pooled(ats[j - Min(j, window - 1)..j], own) + Min(writeDepth, Pooled(ats[..j - Min(j, window - 1)], own)) >= pages
  }

  ghost predicate ReceiverStarves(ats: seq<nat>, pages: nat, window: nat, writeDepth: nat, own: nat -> bool)
    requires 1 <= window
  {
    exists j: nat :: ReceiverStarvesAt(ats, j, pages, window, writeDepth, own)
  }

  /** With a page to spare no range makes the receiver wait for itself. */
  lemma SpareFeedsReceiver(ats: seq<nat>, pages: nat, window: nat, writeDepth: nat, own: nat -> bool)
    requires ReceiverSpare(pages, window, writeDepth)
    ensures !ReceiverStarves(ats, pages, window, writeDepth, own)
  {
  }

  // ----- What is on disk -----

  /** The pieces' bytes, in the order they were taken. */
  function Glued(ps: seq<Piece>): seq<byte> {
    if ps == [] then [] else Glued(ps[..|ps| - 1]) + ps[|ps| - 1].data
  }

  lemma GluedAppend(ps: seq<Piece>, p: Piece)
    ensures Glued(ps + [p]) == Glued(ps) + p.data
  {
    assert (ps + [p])[..|ps|] == ps;
  }

  /** The pieces follow one another from one offset to another. */
  predicate Abut(ps: seq<Piece>, from: nat, to: nat) {
    if ps == [] then from == to
    else
      var last := ps[|ps| - 1];
      last.at + |last.data| == to && Abut(ps[..|ps| - 1], from, last.at)
  }

  lemma AbutAppend(ps: seq<Piece>, from: nat, to: nat, p: Piece)
    requires Abut(ps, from, to) && p.at == to
    ensures Abut(ps + [p], from, to + |p.data|)
  {
    assert (ps + [p])[..|ps|] == ps;
  }

  predicate Covers(p: Piece, i: nat) {
    p.at <= i < p.at + |p.data|
  }

  ghost predicate Covered(ps: seq<Piece>, i: nat) {
    exists p :: p in ps && Covers(p, i)
  }

  predicate Holds(disk: seq<byte>, p: Piece, i: nat) {
    Covers(p, i) && i < |disk| && disk[i] == p.data[i - p.at]
  }

  /** The byte on disk is one that a piece brought there. */
  ghost predicate Settled(disk: seq<byte>, ps: seq<Piece>, i: nat) {
    exists p :: p in ps && Holds(disk, p, i)
  }

  /** The byte is still to come from a write in flight. */
  ghost predicate Awaited(ws: seq<InFlight>, i: nat) {
    exists k :: 0 <= k < |ws| && !ws[k].landed && Covers(ws[k].piece, i)
  }

  /** Every byte of every piece is settled, or in a write still in flight. */
  ghost predicate OnDisk(disk: seq<byte>, ws: seq<InFlight>, ps: seq<Piece>) {
    forall p, i: nat :: p in ps && Covers(p, i) ==> Settled(disk, ps, i) || Awaited(ws, i)
  }

  /** A write brings a piece, and pads only past everything there is. */
  predicate WriteOk(w: InFlight, ps: seq<Piece>, end: nat, aligned: bool) {
    && w.piece in ps && |w.piece.data| <= w.padded
    && (w.padded > |w.piece.data| ==> aligned && w.piece.at + |w.piece.data| >= end)
  }

  /** The page a write leaves on disk: its bytes, then whatever the page held before. */
  function WriteImage(w: InFlight, stale: seq<byte>): (r: seq<byte>)
    requires |w.piece.data| <= w.padded
    ensures |r| == w.padded
  {
    w.piece.data + Exactly(stale, w.padded - |w.piece.data|)
  }

  /** A write landing, whatever its place in the order, brings its own bytes and spoils nobody's. */
  lemma LandOne(disk: seq<byte>, ws: seq<InFlight>, ps: seq<Piece>, end: nat, aligned: bool, k: nat, stale: seq<byte>)
    requires k < |ws| && WriteOk(ws[k], ps, end, aligned) && OnDisk(disk, ws, ps)
    requires aligned ==> forall p :: p in ps ==> p.at + |p.data| <= end
    ensures OnDisk(WriteAt(disk, ws[k].piece.at, WriteImage(ws[k], stale)), ws[k := ws[k].(landed := true)], ps)
  {
    var w := ws[k];
    var after, ws' := WriteAt(disk, w.piece.at, WriteImage(w, stale)), ws[k := w.(landed := true)];
    forall p, i: nat | p in ps && Covers(p, i) ensures Settled(after, ps, i) || Awaited(ws', i) {
      if Covers(w.piece, i) {
        assert Holds(after, w.piece, i);
      } else if Awaited(ws, i) {
        var j :| 0 <= j < |ws| && !ws[j].landed && Covers(ws[j].piece, i);
        assert ws'[j] == ws[j];
      } else {
        var q :| q in ps && Holds(disk, q, i);
        assert Holds(after, q, i);
      }
    }
  }

  lemma FrontDone(disk: seq<byte>, ws: seq<InFlight>, ps: seq<Piece>)
    requires ws != [] && ws[0].landed && OnDisk(disk, ws, ps)
    ensures OnDisk(disk, ws[1..], ps)
  {
    forall p, i: nat | p in ps && Covers(p, i) && Awaited(ws, i) ensures Awaited(ws[1..], i) {
      var j :| 0 <= j < |ws| && !ws[j].landed && Covers(ws[j].piece, i);
      assert ws[1..][j - 1] == ws[j];
    }
  }

  lemma OneMoreWrite(disk: seq<byte>, ws: seq<InFlight>, ps: seq<Piece>, w: InFlight)
    requires OnDisk(disk, ws, ps) && !w.landed
    ensures OnDisk(disk, ws + [w], ps + [w.piece])
  {
    var more, all := ws + [w], ps + [w.piece];
    forall p, i: nat | p in all && Covers(p, i) ensures Settled(disk, all, i) || Awaited(more, i) {
      if p !in ps {
        assert more[|ws|] == w;
      } else if Awaited(ws, i) {
        var j :| 0 <= j < |ws| && !ws[j].landed && Covers(ws[j].piece, i);
        assert more[j] == ws[j];
      } else {
        var q :| q in ps && Holds(disk, q, i);
        assert q in all;
      }
    }
  }

  /** A piece put down at once settles its bytes and unsettles none. */
  lemma PutDown(disk: seq<byte>, ws: seq<InFlight>, ps: seq<Piece>, new': Piece)
    requires OnDisk(disk, ws, ps)
    ensures OnDisk(WriteAt(disk, new'.at, new'.data), ws, ps + [new'])
  {
    var after, all := WriteAt(disk, new'.at, new'.data), ps + [new'];
    forall p, i: nat | p in all && Covers(p, i) ensures Settled(after, all, i) || Awaited(ws, i) {
      if Covers(new', i) {
        assert new' in all && Holds(after, new', i);
      } else if !Awaited(ws, i) {
        var q :| q in ps && Holds(disk, q, i);
        assert q in all && Holds(after, q, i);
      }
    }
  }

  /** Pieces that follow one another cover their range, each byte by one of them. */
  lemma {:induction false} AbutAt(ps: seq<Piece>, from: nat, to: nat)
    requires Abut(ps, from, to)
    ensures from <= to && |Glued(ps)| == to - from
    ensures forall p, i: nat :: p in ps && Covers(p, i) ==> from <= i < to && Glued(ps)[i - from] == p.data[i - p.at]
    ensures forall i: nat :: from <= i < to ==> Covered(ps, i)
  {
    if ps != [] {
      var front, last := ps[..|ps| - 1], ps[|ps| - 1];
      AbutAt(front, from, last.at);
      assert ps == front + [last];
      forall i: nat | from <= i < to ensures Covered(ps, i) {
        if i >= last.at {
          assert Covers(last, i);
        } else {
          assert Covered(front, i);
          var p :| p in front && Covers(p, i);
          assert p in ps;
        }
      }
    }
  }

  predicate InPlace(disk: seq<byte>, bytes: seq<byte>, from: nat, i: nat) {
    from <= i < |disk| && i - from < |bytes| && disk[i] == bytes[i - from]
  }

  /** Once nothing is in flight, pieces that follow one another are on disk as they were taken. */
  lemma AllInPlace(disk: seq<byte>, ps: seq<Piece>, from: nat, to: nat)
    requires OnDisk(disk, [], ps) && Abut(ps, from, to) && from <= to
    ensures Slice(disk, from, to - from) == Glued(ps) && (from < to ==> to <= |disk|)
  {
    AbutAt(ps, from, to);
    forall i: nat | from <= i < to ensures InPlace(disk, Glued(ps), from, i) {
      assert Covered(ps, i);
      var p :| p in ps && Covers(p, i);
      assert Settled(disk, ps, i);
      var q :| q in ps && Holds(disk, q, i);
    }
    if from < to {
      assert InPlace(disk, Glued(ps), from, to - 1);
      forall j | 0 <= j < to - from ensures disk[from + j] == Glued(ps)[j] { assert InPlace(disk, Glued(ps), from, from + j); }
    }
  }

  lemma AtsFrom(rs: seq<Posted>, n: nat)
    requires n <= |rs|
    ensures Ats(rs[n..]) == Ats(rs)[n..]
  {
  }

  lemma NextOf(asked: seq<nat>, rest: seq<nat>, from: nat)
    requires rest != [] && from <= |asked|
    ensures var all := asked + rest;
      all[|asked|] == rest[0] && all[from..|asked|] == asked[from..] && all[..from] == asked[..from]
  {
  }

  lemma Regrouped(a: seq<byte>, b: seq<byte>, c: seq<byte>)
    ensures a + (b + c) == a + b + c
  {
  }

  function Ats(rs: seq<Posted>): (r: seq<nat>)
    ensures |r| == |rs|
  {
    seq(|rs|, i requires 0 <= i < |rs| => rs[i].at)
  }

  class Receiver {
    const world: World
    const pageSize: nat
    const pageCount: nat
    const window: nat
    const writeDepth: nat
    const start: nat
    const end: nat

    var receiving: seq<Posted>
    var writing: seq<InFlight>
    var whole: seq<byte>
    var disk: seq<byte>
    var literalBytes: nat
    var matchedBytes: nat
    /** Waits for a page that only it could give back. */
    var starved: bool
    ghost var placed: seq<Piece>

    /** A page holds it, and only the last one of a padded stream is short. */
    predicate Fits(at: nat, length: nat) {
      length <= pageSize && (world.aligned ==> at + length <= end && (length == pageSize || at + length == end))
    }

    function PieceFor(at: nat, length: nat): Piece {
      Piece(at, Exactly(world.arrives(at), length))
    }

    /** What the posted receives will bring, in order. */
    function Coming(rs: seq<Posted>): (r: seq<Piece>)
      ensures |r| == |rs|
    {
      seq(|rs|, i requires 0 <= i < |rs| => PieceFor(rs[i].at, rs[i].length))
    }

    /** Direct I/O writes a whole page, or whole blocks of the disk. */
    predicate WholeBlocks(w: InFlight) {
      world.aligned ==> w.padded == pageSize || w.padded % ALIGNMENT == 0
    }

    /** Every piece taken so far: handed to the disk, or still to arrive. */
    ghost function Taken(): seq<Piece>
      reads this`placed, this`receiving
    {
      placed + Coming(receiving)
    }

    ghost predicate Valid()
      reads this
    {
      && !starved && whole == Glued(placed) && OnDisk(disk, writing, placed)
      && (forall k :: 0 <= k < |receiving| ==>
          Fits(receiving[k].at, receiving[k].length) && receiving[k].direct == world.direct(receiving[k].at))
      && (forall k :: 0 <= k < |writing| ==> WriteOk(writing[k], placed, end, world.aligned) && WholeBlocks(writing[k]))
      && (world.aligned ==> forall p :: p in placed ==> p.at + |p.data| <= end)
      && literalBytes + matchedBytes == |whole|
    }

    constructor (world: World, pageSize: nat, pageCount: nat, window: nat, writeDepth: nat, start: nat, end: nat, disk: seq<byte>)
      requires start <= end
      ensures this.world == world && this.pageSize == pageSize && this.pageCount == pageCount
      ensures this.window == window && this.writeDepth == writeDepth && this.start == start && this.end == end
      ensures Idle() && this.disk == disk
    {
      this.world, this.pageSize, this.pageCount := world, pageSize, pageCount;
      this.window, this.writeDepth, this.start, this.end := window, writeDepth, start, end;
      receiving, writing, whole, this.disk, placed := [], [], [], disk, [];
      literalBytes, matchedBytes, starved := 0, 0, false;
    }

    /** Nothing taken yet. */
    ghost predicate Idle()
      reads this
    {
      Valid() && receiving == [] && writing == [] && placed == [] && literalBytes == matchedBytes == 0
    }

    /** Pages of the pool held when the next page is asked for, once room has been made. */
    ghost function HeldNext(): nat
      requires 1 <= window
      reads this`receiving, this`writing
    {
      HeldAsking(Ats(receiving), |writing|, window, writeDepth, world.direct)
    }

    /** Writes under way once room has been made. */
    function WritesNext(ats: seq<nat>, writes: nat): nat
      requires 1 <= window
    {
      Min(writeDepth, writes + Pooled(ats[..Over(|ats|, window - 1)], world.direct))
    }

    predicate Spare() {
      ReceiverSpare(pageCount, window, writeDepth)
    }

    /** The disk and the fabric may do any of their outstanding work here, in any order. */
    method Meanwhile()
      requires Valid()
      modifies this`disk, this`writing
      ensures Valid() && |writing| == old(|writing|)
    {
      var rounds: int := *;
      while rounds > 0
        invariant Valid() && |writing| == old(|writing|)
      {
        var k: int := *;
        if 0 <= k < |writing| { LandWrite(k); }
        rounds := rounds - 1;
      }
    }

    method LandWrite(k: nat)
      requires Valid() && k < |writing|
      modifies this`disk, this`writing
      ensures Valid() && writing == old(writing)[k := old(writing)[k].(landed := true)]
    {
      var stale: seq<byte> := *;
      var w := writing[k];
      LandOne(disk, writing, placed, end, world.aligned, k, stale);
      disk := WriteAt(disk, w.piece.at, WriteImage(w, stale));
      writing := writing[k := w.(landed := true)];
    }

    /** Waits for receives in posting order until at most `keep` are left, hashing each and handing it to the disk. */
    method Store(keep: nat) returns (ok: bool)
      requires Valid()
      modifies this`receiving, this`writing, this`whole, this`disk, this`literalBytes, this`placed
      ensures ok ==> Valid() && Taken() == old(Taken()) && receiving == old(receiving)[Over(old(|receiving|), keep)..]
      ensures ok ==> |writing| == old(|writing|) + Pooled(old(Ats(receiving))[..Over(old(|receiving|), keep)], world.direct)
      ensures !starved && (Works(world) ==> ok)
    {
      ghost var ats, gone := Ats(receiving), 0;
      while |receiving| > keep
        invariant Valid() && Taken() == old(Taken())
        invariant 0 <= gone <= Over(|ats|, keep) && receiving == old(receiving)[gone..]
        invariant |writing| == old(|writing|) + Pooled(ats[..gone], world.direct)
        decreases |receiving|
      {
        Meanwhile();
        ok := StoreOne();
        if !ok { return false; }
        PooledJoin(ats[..gone], [ats[gone]], world.direct);
        assert ats[..gone] + [ats[gone]] == ats[..gone + 1];
        gone := gone + 1;
      }
      return true;
    }

    method StoreOne() returns (ok: bool)
      requires Valid() && receiving != []
      modifies this`receiving, this`writing, this`whole, this`literalBytes, this`placed, this`disk
      ensures ok ==> Valid() && Taken() == old(Taken()) && receiving == old(receiving)[1..]
      ensures ok ==> |writing| == old(|writing|) + if world.direct(old(receiving[0].at)) then 0 else 1
      ensures Works(world) ==> ok
    {
      var p := receiving[0];
      if !world.received(p.at) || (!p.direct && !world.submitted(p.at)) {
        receiving := receiving[1..];
        return false;
      }
      if p.direct {
        KeepDirect();
      } else {
        KeepPooled();
      }
      return true;
    }

    /** A page received straight into the sink's memory is already in place. */
    method KeepDirect()
      requires Valid() && receiving != [] && receiving[0].direct
      modifies this`receiving, this`whole, this`disk, this`literalBytes, this`placed
      ensures Valid() && Taken() == old(Taken()) && receiving == old(receiving)[1..]
    {
      var p := receiving[0];
      var page := Exactly(world.arrives(p.at), p.length);
      FrontTaken(placed, receiving);
      GluedAppend(placed, PieceFor(p.at, p.length));
      PutDown(disk, writing, placed, PieceFor(p.at, p.length));
      disk := WriteAt(disk, p.at, page);
      whole := whole + page;
      literalBytes := literalBytes + p.length;
      receiving := receiving[1..];
      placed := placed + [PieceFor(p.at, p.length)];
    }

    /** Any other page becomes a write, padded when the file is opened for direct I/O. */
    method KeepPooled()
      requires Valid() && receiving != []
      modifies this`receiving, this`writing, this`whole, this`literalBytes, this`placed
      ensures Valid() && Taken() == old(Taken()) && receiving == old(receiving)[1..] && |writing| == old(|writing|) + 1
    {
      var p := receiving[0];
      var page := Exactly(world.arrives(p.at), p.length);
      var w := InFlight(Piece(p.at, page), Padded(p.length), false);
      FrontTaken(placed, receiving);
      GluedAppend(placed, w.piece);
      OneMoreWrite(disk, writing, placed, w);
      writing := writing + [w];
      whole := whole + page;
      literalBytes := literalBytes + p.length;
      receiving := receiving[1..];
      placed := placed + [w.piece];
    }

    function Padded(length: nat): (r: nat)
      requires length <= pageSize
      ensures length <= r <= pageSize && (!world.aligned || length == pageSize ==> r == length)
      ensures world.aligned ==> r == pageSize || (r % ALIGNMENT == 0 && r < length + ALIGNMENT)
    {
      Min(if world.aligned then RoundUp(length) else length, pageSize)
    }

    lemma FrontTaken(ps: seq<Piece>, rs: seq<Posted>)
      requires rs != []
      ensures ps + [PieceFor(rs[0].at, rs[0].length)] + Coming(rs[1..]) == ps + Coming(rs)
    {
      assert Coming(rs) == [PieceFor(rs[0].at, rs[0].length)] + Coming(rs[1..]);
    }

    /** Waits for writes in submission order until at most `keep` are left. */
    method AwaitWrites(keep: nat) returns (ok: bool)
      requires Valid()
      modifies this`writing, this`disk
      ensures ok ==> Valid() && |writing| == Min(old(|writing|), keep)
      ensures Works(world) ==> ok
    {
      while |writing| > keep
        invariant Valid() && (|writing| >= keep || |writing| == old(|writing|)) && |writing| <= old(|writing|)
        decreases |writing|
      {
        Meanwhile();
        if !writing[0].landed { LandWrite(0); }
        var done := world.written(writing[0].piece.at);
        FrontDone(disk, writing, placed);
        writing := writing[1..];
        if !done { return false; }
      }
      return true;
    }

    /**
      Makes room, then posts the receive for the next page. It waits for ever exactly
      when it must take a page from the pool and then holds them all itself.
     */
    method PostPage(at: nat, length: nat) returns (ok: bool)
      requires Valid() && 1 <= window && Fits(at, length)
      modifies this`receiving, this`writing, this`whole, this`disk, this`literalBytes, this`placed, this`starved
      ensures ok ==> Valid() && Taken() == old(Taken()) + [PieceFor(at, length)]
      ensures ok ==> Ats(receiving) == old(Ats(receiving))[Over(old(|receiving|), window - 1)..] + [at]
      ensures ok ==> |writing| == WritesNext(old(Ats(receiving)), old(|writing|))
      ensures ok ==> world.direct(at) || old(HeldNext()) < pageCount
      ensures starved ==> !ok && !world.direct(at) && old(HeldNext()) >= pageCount
      ensures Works(world) ==> ok || starved
    {
      ghost var gone := Over(|receiving|, window - 1);
      ok := Store(window - 1);
      if !ok { return false; }
      ok := AwaitWrites(writeDepth);
      if !ok { return false; }
      AtsFrom(old(receiving), gone);
      if !world.direct(at) {
        if Pooled(Ats(receiving), world.direct) + |writing| >= pageCount {
          starved := true;
          return false;
        }
        if !world.backed { return false; }
      }
      Enqueue(Posted(at, length, world.direct(at)));
      return true;
    }

    method Enqueue(p: Posted)
      requires Valid() && Fits(p.at, p.length) && p.direct == world.direct(p.at)
      modifies this`receiving
      ensures Valid() && Taken() == old(Taken()) + [PieceFor(p.at, p.length)] && Ats(receiving) == old(Ats(receiving)) + [p.at]
    {
      assert Coming(receiving + [p]) == Coming(receiving) + [PieceFor(p.at, p.length)];
      assert placed + Coming(receiving + [p]) == placed + Coming(receiving) + [PieceFor(p.at, p.length)];
      receiving := receiving + [p];
    }

    function Take(at: nat): nat {
      PageAt(at, end, pageSize)
    }

    /** What arrives for the pages from `at` on, in order. */
    function Arriving(at: nat): seq<byte>
      requires pageSize > 0
      decreases end - at
    {
      if at >= end then []
      else
        Exactly(world.arrives(at), Take(at)) + Arriving(at + Take(at))
    }

    /** The pieces are the range up to `at`, page by page. */
    ghost predicate Streamed(ps: seq<Piece>, at: nat)
      requires pageSize > 0
    {
      if ps == [] then at == start
      else
        var last := ps[|ps| - 1];
        last.at < end && at == last.at + Take(last.at) && last == PieceFor(last.at, Take(last.at)) && Streamed(ps[..|ps| - 1], last.at)
    }

    lemma StreamOn(ps: seq<Piece>, at: nat)
      requires pageSize > 0 && at < end && Streamed(ps, at)
      ensures Streamed(ps + [PieceFor(at, Take(at))], at + Take(at))
    {
      assert (ps + [PieceFor(at, Take(at))])[..|ps|] == ps;
    }

    lemma {:induction false} StreamedIs(ps: seq<Piece>, at: nat)
      requires pageSize > 0 && start <= end && Streamed(ps, at)
      ensures at <= end && Abut(ps, start, at) && Glued(ps) + Arriving(at) == Arriving(start)
    {
      if ps == [] {
        assert [] + Arriving(start) == Arriving(start);
      } else {
        var front, last := ps[..|ps| - 1], ps[|ps| - 1];
        StreamedIs(front, last.at);
        var before, page, after := Glued(front), last.data, Arriving(at);
        assert Glued(ps) == before + page && Arriving(last.at) == page + after;
        Regrouped(before, page, after);
      }
    }

    /** The last pages asked for are being received; of those before, the last from the pool are being written. */
    ghost predicate Queued(asked: seq<nat>, rs: seq<nat>, writes: nat) {
      && |rs| == Min(|asked|, window) && rs == asked[|asked| - |rs|..]
      && writes == Min(writeDepth, Pooled(asked[..|asked| - |rs|], world.direct))
    }

    /** Asking for one more page: what is held. */
    lemma QueueHolds(asked: seq<nat>, rs: seq<nat>, writes: nat)
      requires 1 <= window && Queued(asked, rs, writes)
      ensures var from := |asked| - Min(|asked|, window - 1);
        HeldAsking(rs, writes, window, writeDepth, world.direct) ==
          Pooled(asked[from..], world.direct) + Min(writeDepth, Pooled(asked[..from], world.direct))
    {
      var j, gone, kept := |asked|, Over(|rs|, window - 1), Min(|asked|, window - 1);
      assert rs[gone..] == asked[j - kept..];
      assert asked[..j - |rs|] + rs[..gone] == asked[..j - kept];
      PooledJoin(asked[..j - |rs|], rs[..gone], world.direct);
    }

    /** What is queued after it. */
    lemma QueueOn(asked: seq<nat>, rs: seq<nat>, writes: nat, at: nat)
      requires 1 <= window && Queued(asked, rs, writes)
      ensures Queued(asked + [at], rs[Over(|rs|, window - 1)..] + [at], WritesNext(rs, writes))
    {
      var j, gone, kept := |asked|, Over(|rs|, window - 1), Min(|asked|, window - 1);
      assert asked[..j - |rs|] + rs[..gone] == asked[..j - kept];
      PooledJoin(asked[..j - |rs|], rs[..gone], world.direct);
      assert (asked + [at])[j - kept..] == rs[gone..] + [at];
      assert (asked + [at])[..j - kept] == asked[..j - kept];
    }

    /** The pages so far were asked for, none of them in vain. */
    ghost predicate Planned(asked: seq<nat>, rs: seq<nat>, writes: nat, at: nat)
      requires pageSize > 0 && 1 <= window
    {
      Queued(asked, rs, writes) && Asked(asked, start, at, end, pageSize) && FedUpTo(|asked|)
    }

    /** None of the first `n` pages was asked for in vain. */
    ghost predicate FedUpTo(n: nat)
      requires pageSize > 0 && 1 <= window
    {
      n == 0 || (!StarvesAt(n - 1) && FedUpTo(n - 1))
    }

    lemma {:induction false} FedAt(n: nat, j: nat)
      requires pageSize > 0 && 1 <= window && FedUpTo(n) && j < n
      ensures !StarvesAt(j)
    {
      if j < n - 1 { FedAt(n - 1, j); }
    }

    ghost predicate StarvesAt(j: nat)
      requires pageSize > 0 && 1 <= window
    {
      ReceiverStarvesAt(Cuts(start, end, pageSize), j, pageCount, window, writeDepth, world.direct)
    }

    ghost predicate Starves()
      requires pageSize > 0 && 1 <= window
    {
      ReceiverStarves(Cuts(start, end, pageSize), pageCount, window, writeDepth, world.direct)
    }

    /** What is held at the next page is what the plan says. */
    lemma PlanAsks(asked: seq<nat>, rs: seq<nat>, writes: nat, at: nat)
      requires pageSize > 0 && 1 <= window && at < end && Planned(asked, rs, writes, at)
      ensures StarvesAt(|asked|) <==> !world.direct(at) && HeldAsking(rs, writes, window, writeDepth, world.direct) >= pageCount
    {
      var j, kept := |asked|, Min(|asked|, window - 1);
      QueueHolds(asked, rs, writes);
      AskedIs(asked, start, at, end, pageSize);
      NextOf(asked, Cuts(at, end, pageSize), j - kept);
    }

    /** If that is not too much, the plan goes on. */
    lemma PlanOn(asked: seq<nat>, rs: seq<nat>, writes: nat, at: nat)
      requires pageSize > 0 && 1 <= window && at < end && Planned(asked, rs, writes, at) && !StarvesAt(|asked|)
      ensures Planned(asked + [at], rs[Over(|rs|, window - 1)..] + [at], WritesNext(rs, writes), at + Take(at))
    {
      QueueOn(asked, rs, writes, at);
      AskedOn(asked, start, at, end, pageSize);
    }

    lemma PlanEnd(asked: seq<nat>, rs: seq<nat>, writes: nat, ps: seq<Piece>)
      requires pageSize > 0 && 1 <= window && start <= end && Planned(asked, rs, writes, end) && Streamed(ps, end)
      ensures !Starves() && Glued(ps) == Arriving(start) && Abut(ps, start, end)
    {
      AskedIs(asked, start, end, end, pageSize);
      StreamedIs(ps, end);
      assert asked + Cuts(end, end, pageSize) == asked && Glued(ps) + Arriving(end) == Glued(ps);
      forall j: nat ensures !ReceiverStarvesAt(asked, j, pageCount, window, writeDepth, world.direct) {
        if j < |asked| { FedAt(|asked|, j); }
      }
    }

    method PostNext(at: nat, ghost asked: seq<nat>) returns (ok: bool, next: nat)
      requires pageSize > 0 && 1 <= window && at < end
      requires Valid() && Streamed(Taken(), at) && Planned(asked, Ats(receiving), |writing|, at)
      modifies this`receiving, this`writing, this`whole, this`disk, this`literalBytes, this`placed, this`starved
      ensures ok ==> at < next <= end
      ensures ok ==> Valid() && Streamed(Taken(), next) && Planned(asked + [at], Ats(receiving), |writing|, next)
      ensures starved ==> !ok && Starves()
      ensures Works(world) ==> ok || starved
    {
      StreamOn(Taken(), at);
      PlanAsks(asked, Ats(receiving), |writing|, at);
      if !StarvesAt(|asked|) { PlanOn(asked, Ats(receiving), |writing|, at); }
      next := at + Take(at);
      ok := PostPage(at, Take(at));
    }

    /**
      A whole range, page by page: the receiving half of a stream. When nothing
      fails it ends, unless the range makes it hold the whole pool at some page.
     */
    method Run() returns (ok: bool)
      requires Idle() && pageSize > 0 && 1 <= window && start <= end
      modifies this`receiving, this`writing, this`whole, this`disk, this`literalBytes, this`placed, this`starved
      ensures ok ==> Landed() && whole == Arriving(start) && Slice(disk, start, end - start) == whole
      ensures ok ==> Abut(placed, start, end)
      ensures starved ==> !ok && Starves()
      ensures Works(world) ==> ok == !starved && (starved <==> Starves())
    {
      var at := start;
      ghost var asked: seq<nat> := [];
      assert Taken() == [] && Ats(receiving) == [];
      while at < end
        invariant at <= end && Valid() && Streamed(Taken(), at) && Planned(asked, Ats(receiving), |writing|, at)
        decreases end - at
      {
        ghost var was := at;
        ok, at := PostNext(at, asked);
        if !ok { return false; }
        asked := asked + [was];
      }
      PlanEnd(asked, Ats(receiving), |writing|, Taken());
      ok := Settle();
    }

    /** The last page has been asked for: waits for all of them. */
    method Settle() returns (ok: bool)
      requires Valid() && start <= end && Abut(Taken(), start, end)
      modifies this`receiving, this`writing, this`whole, this`disk, this`literalBytes, this`placed
      ensures ok ==> Landed() && placed == old(Taken()) && whole == Glued(placed) && Slice(disk, start, end - start) == whole
      ensures !starved && (Works(world) ==> ok)
    {
      ok := Drain();
      if ok { AllInPlace(disk, placed, start, end); }
    }

    /** Nothing is outstanding: every byte of every piece is on disk, settled by a piece that covers it. */
    ghost predicate Landed()
      reads this
    {
      Valid() && receiving == [] && writing == []
    }

    method Drain() returns (ok: bool)
      requires Valid()
      modifies this`receiving, this`writing, this`whole, this`disk, this`literalBytes, this`placed
      ensures ok ==> Landed() && placed == old(Taken())
      ensures !starved && (Works(world) ==> ok)
    {
      ok := Store(0);
      if !ok { return false; }
      ok := AwaitWrites(0);
    }

    /** A literal named by the sender: any length that fits a page, at any offset. */
    method ApplyLiteral(at: nat, length: nat) returns (ok: bool)
      requires Valid() && 1 <= window && !world.aligned
      modifies this`receiving, this`writing, this`whole, this`disk, this`literalBytes, this`placed, this`starved
      ensures ok ==> Valid() && length <= pageSize && Taken() == old(Taken()) + [PieceFor(at, length)]
      ensures starved ==> !ok && !Spare()
      ensures Works(world) && length <= pageSize ==> ok || starved
    {
      if length > pageSize { return false; }
      ok := PostPage(at, length);
    }

    /** A block of the basis, put down at any offset once everything before it has reached the disk. */
    method ApplyCopy(index: nat, dst: nat, sig: Signature, basis: seq<byte>, open: bool) returns (ok: bool)
      requires Valid() && !world.aligned
      modifies this`receiving, this`writing, this`whole, this`disk, this`literalBytes, this`matchedBytes, this`placed
      ensures ok ==> Valid() && open && 0 < BlockLengthAt(sig, index) == |Block(sig, basis, index)|
      ensures ok ==> Taken() == old(Taken()) + [Piece(dst, Block(sig, basis, index))]
      ensures ok ==> receiving == [] && writing == [] && Slice(disk, dst, BlockLengthAt(sig, index)) == Block(sig, basis, index)
      ensures ok ==> matchedBytes == old(matchedBytes) + BlockLengthAt(sig, index)
      ensures !starved
      ensures (Works(world) && open && 0 < BlockLengthAt(sig, index) == |Block(sig, basis, index)|) ==> ok
    {
      ok := Drain();
      if !ok { return false; }
      if !open { return false; }
      var length := BlockLengthAt(sig, index);
      if length == 0 { return false; }
      var block := Block(sig, basis, index);
      if |block| != length { return false; }
      GluedAppend(placed, Piece(dst, block));
      PutDown(disk, writing, placed, Piece(dst, block));
      whole := whole + block;
      disk := WriteAt(disk, dst, block);
      placed := placed + [Piece(dst, block)];
      matchedBytes := matchedBytes + length;
      assert Coming(receiving) == [];
      return true;
    }

    /** The end of a file: everything down, the digest checked, the file cut to its size. */
    method Complete(expected: Digest, digest: seq<byte> -> Digest) returns (drained: bool, ok: bool, file: seq<byte>)
      requires Valid()
      modifies this`receiving, this`writing, this`whole, this`disk, this`literalBytes, this`placed
      ensures drained ==> Landed() && placed == old(Taken()) && (ok <==> digest(whole) == expected)
      ensures !starved && (Works(world) ==> drained)
      ensures ok ==> drained && |file| == end && AllSettled(file, placed, end)
      ensures ok && Abut(placed, 0, end) ==> file == whole
    {
      drained := Drain();
      if !drained { return false, false, []; }
      if digest(whole) != expected { return true, false, []; }
      file := Resized(disk, end);
      ok := true;
      CutToSize(disk, placed, end);
    }
  }

  function Block(sig: Signature, basis: seq<byte>, index: nat): seq<byte> {
    Slice(basis, StartOf(sig.blockLength, index), BlockLengthAt(sig, index))
  }

  /** A truncate: cut, or extended with zeros. */
  function Resized(disk: seq<byte>, size: nat): (r: seq<byte>)
    ensures |r| == size
  {
    Exactly(disk, size)
  }

  /** Every byte below the size that some piece covers is one that a piece brought. */
  ghost predicate AllSettled(file: seq<byte>, ps: seq<Piece>, size: nat) {
    forall p, i: nat :: p in ps && Covers(p, i) && i < size ==> Settled(file, ps, i)
  }

  lemma CutToSize(disk: seq<byte>, ps: seq<Piece>, size: nat)
    requires OnDisk(disk, [], ps)
    ensures AllSettled(Resized(disk, size), ps, size)
    ensures Abut(ps, 0, size) ==> Resized(disk, size) == Glued(ps)
  {
    var file := Resized(disk, size);
    forall p, i: nat | p in ps && Covers(p, i) && i < size ensures Settled(file, ps, i) {
      assert !Awaited([], i);
      var q :| q in ps && Holds(disk, q, i);
      assert Holds(file, q, i);
    }
    if Abut(ps, 0, size) {
      AllInPlace(disk, ps, 0, size);
      AbutAt(ps, 0, size);
    }
  }
}
