/**
  A byte range as a stream of pages: how the pool is split between reading,
  sending, receiving and writing, and the sender that never skips a page the
  peer is waiting for.
 */
module PageStream {
  import opened Bytes
  import opened Delta
  import opened Landing
  import opened Signatures

  // ----- Splitting the pool -----

  datatype Geometry = Geometry(window: nat, readAhead: nat, writeDepth: nat)

  function LessOne(pages: nat): nat {
    if pages == 0 then U64 - 1 else pages - 1
  }

  function ForChannel(pages: nat, inFlight: nat, depth: nat): Geometry {
    var window := Max(1, Min(Min(pages / 2, LessOne(pages)), inFlight));
    var readAhead := Max(1, Min(if pages > window + 1 then pages - window - 1 else 1, depth));
    Geometry(window, readAhead, Min(2, readAhead))
  }

  /** With every earlier page read ahead or in flight, one is still left to take. */
  predicate SenderSpare(pages: nat, window: nat, readAhead: nat) {
    1 <= window && 1 <= readAhead && readAhead - 1 + window < pages
  }

  /** Asking for page `j`, the sender holds every page of the pool: the last `reach` before it are read ahead or in flight. */
  predicate SenderStarvesAt(ats: seq<nat>, j: nat, pages: nat, reach: nat, own: nat -> bool) {
    j < |ats| && !own(ats[j]) && Pooled(ats[j - Min(j, reach)..j], own) >= pages
  }

  ghost predicate SenderStarves(ats: seq<nat>, pages: nat, reach: nat, own: nat -> bool) {
    exists j: nat :: SenderStarvesAt(ats, j, pages, reach, own)
  }

  lemma StarvesHolding(
    ats: seq<nat>, j: nat, flying: seq<nat>, ahead: seq<nat>, f: nat, r: nat, pages: nat, reach: nat, own: nat -> bool)
    requires j < |ats| && f + r == Min(j, reach) && ats[j - f - r..j] == flying + ahead
    ensures SenderStarvesAt(ats, j, pages, reach, own) <==> !own(ats[j]) && Pooled(flying + ahead, own) >= pages
  {
    assert j - Min(j, reach) == j - f - r;
  }

  /** The geometry takes two pages to leave one over at either end; with fewer, both ends take them one by one. */
  lemma TwoPagesLeaveOne(pages: nat, inFlight: nat, depth: nat)
    ensures var g := ForChannel(pages, inFlight, depth);
      && 1 <= g.window && 1 <= g.readAhead && 1 <= g.writeDepth
      && (pages >= 2 ==> SenderSpare(pages, g.window, g.readAhead) && ReceiverSpare(pages, g.window, g.writeDepth))
      && (pages < 2 ==> g == Geometry(1, 1, 1))
  {
    var g := ForChannel(pages, inFlight, depth);
    assert pages >= 2 ==> 1 <= pages / 2 <= pages - 1;
    assert pages >= 2 ==> g.window <= pages / 2;
    assert pages >= 4 ==> g.window + 2 <= pages;
  }

  /**
    The windows are as wide as that allows: half the pool in flight, all but one
    of the rest ahead, within what the channel and the disk take.
   */
  lemma GeometryUsesThePool(pages: nat, inFlight: nat, depth: nat)
    requires pages >= 2
    ensures var g := ForChannel(pages, inFlight, depth);
      && g.window <= Max(1, inFlight) && 2 * g.window <= pages && (g.window < inFlight ==> 2 * (g.window + 1) > pages)
      && g.readAhead <= Max(1, depth) && (g.readAhead == 1 || g.window + g.readAhead < pages)
      && (g.readAhead < depth ==> g.window + g.readAhead + 1 >= pages)
      && (g.writeDepth == g.readAhead || g.writeDepth == 2 < g.readAhead)
  {
    assert 1 <= pages / 2 <= pages - 1;
  }

  /** No stream makes the sender wait for itself from two pages on; with one, a page from the pool right after another does. */
  lemma SenderStarvesExactly(ats: seq<nat>, pages: nat, inFlight: nat, depth: nat, own: nat -> bool)
    ensures var g := ForChannel(pages, inFlight, depth);
      SenderStarves(ats, pages, g.readAhead - 1 + g.window, own) <==>
        || (pages == 0 && exists j :: 0 <= j < |ats| && !own(ats[j]))
        || (pages == 1 && exists j :: 0 < j < |ats| && !own(ats[j - 1]) && !own(ats[j]))
  {
    var g := ForChannel(pages, inFlight, depth);
    TwoPagesLeaveOne(pages, inFlight, depth);
    if pages == 0 {
      forall j: nat | j < |ats| ensures SenderStarvesAt(ats, j, pages, 1, own) <==> !own(ats[j]) {}
    } else if pages == 1 {
      forall j: nat | j < |ats| ensures SenderStarvesAt(ats, j, pages, 1, own) <==> j > 0 && !own(ats[j - 1]) && !own(ats[j]) {
        if j > 0 { assert ats[j - 1..j] == [ats[j - 1]]; }
      }
    }
  }

  /** The receiver neither; with one page, a second page from the pool anywhere does. */
  lemma ReceiverStarvesExactly(ats: seq<nat>, pages: nat, inFlight: nat, depth: nat, own: nat -> bool)
    ensures var g := ForChannel(pages, inFlight, depth);
      ReceiverStarves(ats, pages, g.window, g.writeDepth, own) <==>
        || (pages == 0 && exists j :: 0 <= j < |ats| && !own(ats[j]))
        || (pages == 1 && exists i, j :: 0 <= i < j < |ats| && !own(ats[i]) && !own(ats[j]))
  {
    var g := ForChannel(pages, inFlight, depth);
    TwoPagesLeaveOne(pages, inFlight, depth);
    if pages >= 2 {
      SpareFeedsReceiver(ats, pages, g.window, g.writeDepth, own);
    } else {
      forall j: nat | j < |ats|
        ensures ReceiverStarvesAt(ats, j, pages, 1, 1, own) <==> !own(ats[j]) && (pages == 0 || exists i :: 0 <= i < j && !own(ats[i]))
      {
        assert ats[j..j] == [];
        PooledSome(ats[..j], own);
        if i :| 0 <= i < j && !own(ats[i]) { assert ats[..j][i] == ats[i]; }
      }
    }
  }

  lemma {:induction false} PooledSome(ats: seq<nat>, own: nat -> bool)
    ensures Pooled(ats, own) >= 1 <==> exists i :: 0 <= i < |ats| && !own(ats[i])
  {
    if ats != [] {
      PooledSome(ats[1..], own);
      if i :| 0 <= i < |ats| && !own(ats[i]) {
        if i > 0 { assert ats[1..][i - 1] == ats[i]; }
      }
    }
  }

  // ----- The sender -----

  /** A page on its way from the source; a direct one belongs to the source itself. */
  datatype Reading = Reading(at: nat, length: nat, direct: bool, failed: bool)

  /**
    What the world decides: which pages the source lends, whether the pool gives
    one, whether a read is accepted, how many bytes it brings (negative for an
    error), and whether a send is taken and completes.
   */
  datatype Supply = Supply(
    lent: nat -> bool, backed: nat -> bool, accepted: nat -> bool, brings: nat -> int,
    taken: nat -> bool, landed: nat -> bool)

  /** The pool, the channel and every send work; reads may still fail. */
  ghost predicate Carries(s: Supply) {
    forall at: nat :: s.backed(at) && s.taken(at) && s.landed(at)
  }

  function Offsets(pages: seq<Piece>): (r: seq<nat>)
    ensures |r| == |pages|
  {
    seq(|pages|, i requires 0 <= i < |pages| => pages[i].at)
  }

  lemma OffsetsJoin(a: seq<Piece>, b: seq<Piece>)
    ensures Offsets(a + b) == Offsets(a) + Offsets(b)
  {
  }

  lemma MoveOver(a: seq<Piece>, b: Piece, c: seq<Piece>)
    ensures a + ([b] + c) == a + [b] + c
  {
  }

  lemma Middle(a: seq<nat>, b: seq<nat>, c: seq<nat>, n: nat)
    requires n <= |a| && c != []
    ensures var all, j := a + b + c, |a| + |b|; all[j] == c[0] && all[j - n - |b|..j] == a[|a| - n..] + b
  {
  }

  class PageSender {
    const supply: Supply
    const source: seq<byte>
    const pageSize: nat
    const pageCount: nat
    const window: nat
    const readAhead: nat
    const start: nat
    const end: nat

    var prefetch: seq<Reading>
    var inFlight: seq<nat>
    var whole: seq<byte>
    var posted: seq<Piece>
    var failed: bool
    var leftUnsent: bool
    /** Waits for a page that only it could give back. */
    var starved: bool
    /** Pages asked for so far. */
    ghost var asked: nat

    constructor (supply: Supply, source: seq<byte>, pageSize: nat, pageCount: nat, window: nat, readAhead: nat, start: nat, end: nat)
      requires start <= end
      ensures this.supply == supply && this.source == source && this.pageSize == pageSize && this.pageCount == pageCount
      ensures this.window == window && this.readAhead == readAhead && this.start == start && this.end == end
      ensures Fresh()
    {
      this.supply, this.source, this.pageSize, this.pageCount := supply, source, pageSize, pageCount;
      this.window, this.readAhead, this.start, this.end := window, readAhead, start, end;
      prefetch, inFlight, whole, posted, failed, leftUnsent, starved := [], [], [], [], false, false, false;
      asked := 0;
    }

    ghost predicate Fresh()
      reads this
    {
      prefetch == [] && inFlight == [] && whole == [] && posted == [] && !failed && !leftUnsent && !starved && asked == 0
    }

    /** Nothing went wrong in reading the page at `at`. */
    predicate Good(at: nat) {
      supply.lent(at) || (supply.accepted(at) && supply.brings(at) >= 0)
    }

    /** What is sent for a page: the source's bytes, or zeros where they could not be read. */
    function Content(at: nat, length: nat): seq<byte> {
      if supply.lent(at) then Slice(source, at, length)
      else if Good(at) then Slice(source, at, Min(supply.brings(at), length))
      else Zeros(length)
    }

    function Take(at: nat): nat {
      PageAt(at, end, pageSize)
    }

    /** Every page from `at` to the end of the range, as the receiver cuts it too. */
    function Pages(at: nat): seq<Piece>
      requires pageSize > 0
      decreases end - at
    {
      if at >= end then [] else [Piece(at, Content(at, Take(at)))] + Pages(at + Take(at))
    }

    function Ready(rs: seq<Reading>): seq<Piece> {
      seq(|rs|, i requires 0 <= i < |rs| => Piece(rs[i].at, Content(rs[i].at, rs[i].length)))
    }

    predicate AllGood(pages: seq<Piece>) {
      forall k :: 0 <= k < |pages| ==> Good(pages[k].at)
    }

    /** A reading knows whether the source lent it, and whether its read could start. */
    predicate ReadingOk(r: Reading) {
      r.direct == supply.lent(r.at) && (r.failed <==> !r.direct && !supply.accepted(r.at))
    }

    /** What has been posted, read ahead and is still to be read is the whole range, in order. */
    ghost predicate Valid(cursor: nat)
      requires pageSize > 0
      reads this
    {
      && !starved && asked == |posted| + |prefetch| && cursor <= end && |prefetch| <= readAhead && |inFlight| <= window
      && Streamed(posted + Ready(prefetch), cursor) && Flying(posted, inFlight)
      && whole == Glued(posted)
      && (forall r :: r in prefetch ==> ReadingOk(r))
      && (failed <==> !AllGood(posted) || AnyFailed(prefetch))
    }

    /** The pages are the range up to `at`, in order. */
    ghost predicate Streamed(ps: seq<Piece>, at: nat)
      requires pageSize > 0
    {
      if ps == [] then at == start
      else
        var last := ps[|ps| - 1];
        && last.at < end && at == last.at + Take(last.at) && last == Piece(last.at, Content(last.at, Take(last.at)))
        && Streamed(ps[..|ps| - 1], last.at)
    }

    lemma {:induction false} StreamedIs(ps: seq<Piece>, at: nat)
      requires pageSize > 0 && Streamed(ps, at)
      ensures ps + Pages(at) == Pages(start)
    {
      if ps == [] {
        assert ps + Pages(at) == Pages(at);
      } else {
        var front, last := ps[..|ps| - 1], ps[|ps| - 1];
        StreamedIs(front, last.at);
        MoveOver(front, last, Pages(at));
        assert front + [last] == ps && Pages(last.at) == [last] + Pages(at);
      }
    }

    /** The sends in flight are the last pages posted. */
    ghost predicate Flying(posted: seq<Piece>, flying: seq<nat>) {
      |flying| <= |posted| && flying == LastOffsets(posted, |flying|)
    }

    ghost function LastOffsets(ps: seq<Piece>, n: nat): (r: seq<nat>)
      requires n <= |ps|
      ensures |r| == n
    {
      if n == 0 then [] else LastOffsets(ps[..|ps| - 1], n - 1) + [ps[|ps| - 1].at]
    }

    lemma {:induction false} LastOffsetsAre(ps: seq<Piece>, n: nat)
      requires n <= |ps|
      ensures LastOffsets(ps, n) == Offsets(ps)[|ps| - n..]
    {
      if n > 0 {
        LastOffsetsAre(ps[..|ps| - 1], n - 1);
        assert Offsets(ps) == Offsets(ps[..|ps| - 1]) + [ps[|ps| - 1].at];
      }
    }

    lemma FlyingOn(posted: seq<Piece>, flying: seq<nat>, page: Piece)
      requires Flying(posted, flying)
      ensures Flying(posted + [page], flying + [page.at])
    {
      assert (posted + [page])[..|posted|] == posted;
    }

    lemma FirstLands(posted: seq<Piece>, flying: seq<nat>)
      requires Flying(posted, flying) && flying != []
      ensures Flying(posted, flying[1..])
    {
      LastOffsetsAre(posted, |flying|);
      LastOffsetsAre(posted, |flying| - 1);
    }

    predicate AnyFailed(rs: seq<Reading>) {
      exists k :: 0 <= k < |rs| && rs[k].failed
    }

    function ReadAts(rs: seq<Reading>): (r: seq<nat>)
      ensures |r| == |rs|
    {
      seq(|rs|, i requires 0 <= i < |rs| => rs[i].at)
    }

    /** Pages of the pool in this sender's hands. */
    function Held(): nat
      reads this`inFlight, this`prefetch
    {
      Pooled(inFlight + ReadAts(prefetch), supply.lent)
    }

    predicate StarvesAt(j: nat)
      requires pageSize > 0 && 1 <= window && 1 <= readAhead
    {
      SenderStarvesAt(Cuts(start, end, pageSize), j, pageCount, readAhead - 1 + window, supply.lent)
    }

    ghost predicate Starves()
      requires pageSize > 0 && 1 <= window && 1 <= readAhead
    {
      SenderStarves(Cuts(start, end, pageSize), pageCount, readAhead - 1 + window, supply.lent)
    }

    /** None of the first `n` pages was asked for in vain. */
    predicate FedUpTo(n: nat)
      requires pageSize > 0 && 1 <= window && 1 <= readAhead
    {
      n == 0 || (!StarvesAt(n - 1) && FedUpTo(n - 1))
    }

    lemma {:induction false} FedAt(n: nat, j: nat)
      requires pageSize > 0 && 1 <= window && 1 <= readAhead && FedUpTo(n) && j < n
      ensures !StarvesAt(j)
    {
      if j < n - 1 { FedAt(n - 1, j); }
    }

    lemma {:induction false} OffsetsOfPages(at: nat)
      requires pageSize > 0
      ensures Offsets(Pages(at)) == Cuts(at, end, pageSize)
      decreases end - at
    {
      if at < end {
        OffsetsOfPages(at + Take(at));
        var rest := Pages(at + Take(at));
        assert Offsets([Piece(at, Content(at, Take(at)))] + rest) == [at] + Offsets(rest);
      }
    }

    /** Sends fill the window, and reads are topped up but for the page just posted. */
    predicate Steady(cursor: nat)
      reads this`posted, this`prefetch, this`inFlight
    {
      && |inFlight| == Min(|posted|, window)
      && (posted == [] || cursor >= end || |prefetch| >= readAhead - 1)
    }

    /** What is held at the next page is what the plan says. */
    lemma Asking(cursor: nat)
      requires pageSize > 0 && 1 <= window && 1 <= readAhead && Valid(cursor) && cursor < end
      requires Steady(cursor) && |prefetch| < readAhead && FedUpTo(asked)
      ensures if supply.lent(cursor) || Held() < pageCount then FedUpTo(asked + 1) else Starves()
    {
      FlyingIs(posted, inFlight);
      AskingFor(posted, prefetch, cursor, |inFlight|);
      AskingOf(Cuts(start, end, pageSize), posted, prefetch, inFlight, cursor);
    }

    lemma FlyingIs(posted: seq<Piece>, flying: seq<nat>)
      requires Flying(posted, flying)
      ensures flying == Offsets(posted)[|posted| - |flying|..]
    {
      LastOffsetsAre(posted, |flying|);
    }

    lemma AskingOf(ats: seq<nat>, posted: seq<Piece>, rs: seq<Reading>, flying: seq<nat>, cursor: nat)
      requires pageSize > 0 && 1 <= window && 1 <= readAhead && cursor < end && |rs| < readAhead
      requires |flying| == Min(|posted|, window) && (posted == [] || |rs| >= readAhead - 1)
      requires |posted| + |rs| < |ats| && ats[|posted| + |rs|] == cursor
      requires ats[|posted| + |rs| - |flying| - |rs|..|posted| + |rs|] == flying + ReadAts(rs)
      ensures SenderStarvesAt(ats, |posted| + |rs|, pageCount, readAhead - 1 + window, supply.lent)
        <==> !supply.lent(cursor) && Pooled(flying + ReadAts(rs), supply.lent) >= pageCount
    {
      StarvesHolding(ats, |posted| + |rs|, flying, ReadAts(rs), |flying|, |rs|, pageCount, readAhead - 1 + window, supply.lent);
    }

    /** The last pages of the plan before `cursor` are those read ahead and the last ones posted. */
    lemma AskingFor(posted: seq<Piece>, rs: seq<Reading>, cursor: nat, flying: nat)
      requires pageSize > 0 && Streamed(posted + Ready(rs), cursor) && cursor < end && flying <= |posted|
      ensures var ats, j := Cuts(start, end, pageSize), |posted| + |rs|;
        j < |ats| && ats[j] == cursor && ats[j - flying - |rs|..j] == Offsets(posted)[|posted| - flying..] + ReadAts(rs)
    {
      var before := posted + Ready(rs);
      OffsetsOfPages(start);
      StreamedIs(before, cursor);
      OffsetsJoin(before, Pages(cursor));
      OffsetsJoin(posted, Ready(rs));
      assert Offsets(Ready(rs)) == ReadAts(rs);
      Middle(Offsets(posted), ReadAts(rs), Offsets(Pages(cursor)), flying);
    }

    /** Tops up the reads in flight. A read that cannot start still takes its place in the stream. */
    method Fill(from: nat) returns (ok: bool, cursor: nat)
      requires pageSize > 0 && 1 <= window && 1 <= readAhead
      requires Valid(from) && Steady(from) && FedUpTo(asked)
      modifies this`prefetch, this`failed, this`starved, this`asked
      ensures ok ==> Valid(cursor) && FedUpTo(asked) && (|prefetch| >= readAhead || cursor >= end)
      ensures ok && (from < end || old(prefetch) != []) ==> prefetch != []
      ensures starved ==> !ok && Starves()
      ensures Carries(supply) ==> ok || starved
    {
      cursor := from;
      while |prefetch| < readAhead && cursor < end
        invariant Valid(cursor) && Steady(cursor) && FedUpTo(asked)
        invariant |prefetch| >= old(|prefetch|) && (cursor == from || prefetch != [])
        decreases end - cursor
      {
        ok := ReadNext(cursor);
        if !ok { return false, cursor; }
        cursor := cursor + Take(cursor);
      }
      return true, cursor;
    }

    /** Starts one more read, into a page the source lends or one from the pool. */
    method ReadNext(cursor: nat) returns (ok: bool)
      requires pageSize > 0 && 1 <= window && 1 <= readAhead && cursor < end && |prefetch| < readAhead
      requires Valid(cursor) && Steady(cursor) && FedUpTo(asked)
      modifies this`prefetch, this`failed, this`starved, this`asked
      ensures ok ==> Valid(cursor + Take(cursor)) && FedUpTo(asked) && |prefetch| == old(|prefetch|) + 1
      ensures starved ==> !ok && Starves()
      ensures Carries(supply) ==> ok || starved
    {
      var direct := supply.lent(cursor);
      Asking(cursor);
      if !direct {
        if Held() >= pageCount {
          starved := true;
          return false;
        }
        if !supply.backed(cursor) { return false; }
      }
      Push(cursor, Reading(cursor, Take(cursor), direct, !direct && !supply.accepted(cursor)));
      return true;
    }

    method Push(cursor: nat, r: Reading)
      requires pageSize > 0 && Valid(cursor) && |prefetch| < readAhead && cursor < end
      requires r == Reading(cursor, Take(cursor), supply.lent(cursor), !supply.lent(cursor) && !supply.accepted(cursor))
      modifies this`prefetch, this`failed, this`asked
      ensures Valid(cursor + Take(cursor)) && prefetch == old(prefetch) + [r] && asked == old(asked) + 1
    {
      asked := asked + 1;
      ReadyAppend(posted, prefetch, r);
      FailedAppend(prefetch, r);
      prefetch := prefetch + [r];
      if r.failed { failed := true; }
    }

    lemma ReadyAppend(posted: seq<Piece>, rs: seq<Reading>, r: Reading)
      requires pageSize > 0 && r.at < end && r.length == Take(r.at) && Streamed(posted + Ready(rs), r.at)
      ensures Streamed(posted + Ready(rs + [r]), r.at + r.length)
    {
      var page := Piece(r.at, Content(r.at, r.length));
      var before, after := posted + Ready(rs), posted + Ready(rs + [r]);
      assert Ready(rs + [r]) == Ready(rs) + [page];
      assert after == before + [page] && after[..|before|] == before;
    }

    lemma FailedAppend(rs: seq<Reading>, r: Reading)
      ensures AnyFailed(rs + [r]) <==> AnyFailed(rs) || r.failed
    {
      assert (rs + [r])[|rs|] == r;
      assert forall k :: 0 <= k < |rs| ==> (rs + [r])[k] == rs[k];
    }

    /** Posts the oldest page read, hashing it first. */
    method ShipReady(ghost cursor: nat) returns (ok: bool)
      requires pageSize > 0 && Valid(cursor) && prefetch != [] && |inFlight| < window
      modifies this`prefetch, this`inFlight, this`whole, this`posted, this`failed
      ensures Valid(cursor)
      ensures ok ==> |posted| == old(|posted|) + 1 && |prefetch| == old(|prefetch|) - 1 && |inFlight| == old(|inFlight|) + 1
      ensures Carries(supply) ==> ok
    {
      var r := prefetch[0];
      if !supply.taken(r.at) { return false; }
      var page := Piece(r.at, Content(r.at, r.length));
      ReadyFront(posted, prefetch);
      FlyingOn(posted, inFlight, page);
      FailedFront(posted, prefetch);
      if !r.direct && !r.failed && supply.brings(r.at) < 0 { failed := true; }
      whole := whole + page.data;
      posted := posted + [page];
      inFlight := inFlight + [r.at];
      prefetch := prefetch[1..];
      return true;
    }

    lemma ReadyFront(posted: seq<Piece>, rs: seq<Reading>)
      requires rs != []
      ensures var page := Piece(rs[0].at, Content(rs[0].at, rs[0].length));
        posted + [page] + Ready(rs[1..]) == posted + Ready(rs) && Glued(posted + [page]) == Glued(posted) + page.data
    {
      var page := Piece(rs[0].at, Content(rs[0].at, rs[0].length));
      assert Ready(rs) == [page] + Ready(rs[1..]);
      GluedAppend(posted, page);
    }

    lemma FailedFront(posted: seq<Piece>, rs: seq<Reading>)
      requires rs != [] && ReadingOk(rs[0])
      ensures var page := Piece(rs[0].at, Content(rs[0].at, rs[0].length));
        !AllGood(posted + [page]) || AnyFailed(rs[1..])
        <==> !AllGood(posted) || AnyFailed(rs) || (!rs[0].direct && !rs[0].failed && supply.brings(rs[0].at) < 0)
    {
      var page := Piece(rs[0].at, Content(rs[0].at, rs[0].length));
      var more := posted + [page];
      assert more[|posted|] == page && forall k :: 0 <= k < |posted| ==> more[k] == posted[k];
      assert forall k :: 0 <= k < |rs| - 1 ==> rs[1..][k] == rs[k + 1];
      assert AnyFailed(rs) <==> rs[0].failed || AnyFailed(rs[1..]) by {
        if AnyFailed(rs) {
          var k :| 0 <= k < |rs| && rs[k].failed;
          if k > 0 { assert rs[1..][k - 1] == rs[k]; }
        }
      }
    }

    lemma PrefixSoFar(posted: seq<Piece>, rs: seq<Reading>, cursor: nat)
      requires pageSize > 0 && Streamed(posted + Ready(rs), cursor)
      ensures posted <= Pages(start)
    {
      StreamedIs(posted + Ready(rs), cursor);
    }

    lemma Finished(posted: seq<Piece>, cursor: nat)
      requires pageSize > 0 && Streamed(posted + Ready([]), cursor) && cursor >= end
      ensures posted == Pages(start)
    {
      StreamedIs(posted + Ready([]), cursor);
    }

    method Drain(keep: nat, ghost cursor: nat) returns (ok: bool)
      requires pageSize > 0 && Valid(cursor)
      modifies this`inFlight
      ensures Valid(cursor) && (ok ==> |inFlight| == Min(old(|inFlight|), keep)) && (Carries(supply) ==> ok)
    {
      while |inFlight| > keep
        invariant Valid(cursor) && |inFlight| <= old(|inFlight|) && (|inFlight| >= keep || |inFlight| == old(|inFlight|))
      {
        var done := supply.landed(inFlight[0]);
        FirstLands(posted, inFlight);
        inFlight := inFlight[1..];
        if !done { return false; }
      }
      return true;
    }

    /**
      Every page of the range was posted, once and in order, or the sender says
      that pages were left unsent, or it waits for itself. It succeeds exactly when
      it left none and every page could be read. While the pool and the channel
      work it leaves none, and it waits exactly when the range makes it hold the
      whole pool at some page.
     */
    method Run() returns (ok: bool)
      requires pageSize > 0 && start <= end && 1 <= window && 1 <= readAhead && Fresh()
      modifies this`prefetch, this`inFlight, this`whole, this`posted, this`failed, this`leftUnsent, this`starved, this`asked
      ensures posted <= Pages(start) && whole == Glued(posted)
      ensures !leftUnsent && !starved ==> posted == Pages(start)
      ensures ok <==> !leftUnsent && !starved && AllGood(posted)
      ensures starved ==> Starves()
      ensures Carries(supply) ==> !leftUnsent && (starved <==> Starves())
    {
      var cursor: nat := start;
      ghost var all := Pages(start);
      while cursor < end || prefetch != []
        invariant Valid(cursor) && Steady(cursor) && FedUpTo(asked) && posted <= all && !leftUnsent
        decreases |all| - |posted|
      {
        ok, cursor := Turn(cursor);
        if !ok {
          leftUnsent := !starved;
          return false;
        }
      }
      Finished(posted, cursor);
      AllFed();
      ok := Drain(0, cursor);
      if !ok { leftUnsent := true; return false; }
      return !failed;
    }

    lemma AllFed()
      requires pageSize > 0 && 1 <= window && 1 <= readAhead && FedUpTo(|Pages(start)|)
      ensures !Starves()
    {
      OffsetsOfPages(start);
      var ats, reach := Cuts(start, end, pageSize), readAhead - 1 + window;
      forall j: nat ensures !SenderStarvesAt(ats, j, pageCount, reach, supply.lent) {
        if j < |ats| { FedAt(|ats|, j); }
      }
    }

    /** Tops up the reads, makes room in the window and posts one page; there always is one. */
    method Turn(from: nat) returns (ok: bool, cursor: nat)
      requires pageSize > 0 && 1 <= window && 1 <= readAhead && (from < end || prefetch != [])
      requires Valid(from) && Steady(from) && FedUpTo(asked)
      modifies this`prefetch, this`inFlight, this`whole, this`posted, this`failed, this`starved, this`asked
      ensures posted <= Pages(start) && whole == Glued(posted)
      ensures ok ==> Valid(cursor) && Steady(cursor) && FedUpTo(asked) && |posted| == old(|posted|) + 1
      ensures starved ==> !ok && Starves()
      ensures Carries(supply) ==> ok || starved
    {
      PrefixSoFar(posted, prefetch, from);
      ok, cursor := Fill(from);
      if !ok { return; }
      ok := Drain(window - 1, cursor);
      if !ok { return; }
      ok := ShipReady(cursor);
      PrefixSoFar(posted, prefetch, cursor);
    }
  }

  /** One page and two to send, with nothing failing: the sender never comes back. */
  method OnePageWaits(source: seq<byte>, pageSize: nat, inFlight: nat, depth: nat) returns (tx: PageSender)
    requires 0 < pageSize && |source| == pageSize + pageSize
    ensures Carries(tx.supply) && tx.pageCount == 1 && tx.starved && !tx.leftUnsent
    ensures ForChannel(1, inFlight, depth) == Geometry(tx.window, tx.readAhead, 1)
  {
    TwoPagesLeaveOne(1, inFlight, depth);
    var supply := Supply(at => false, at => true, at => true, at => pageSize, at => true, at => true);
    tx := new PageSender(supply, source, pageSize, 1, 1, 1, 0, |source|);
    ghost var ats := Cuts(0, |source|, pageSize);
    assert ats == [0] + Cuts(pageSize, |source|, pageSize) == [0, pageSize];
    SenderStarvesExactly(ats, 1, inFlight, depth, supply.lent);
    assert !supply.lent(ats[0]) && !supply.lent(ats[1]);
    var ok := tx.Run();
  }

  // ----- Both ends -----

  /** Reads bring a whole page or an error, and the range lies within the source. */
  ghost predicate FullReads(tx: PageSender) {
    tx.end <= |tx.source|
    && forall at: nat :: at < tx.end ==> FullRead(tx, at)
  }

  predicate FullRead(tx: PageSender, at: nat)
    requires at < tx.end
  {
    tx.supply.brings(at) < 0 || tx.supply.brings(at) >= tx.Take(at)
  }

  lemma FullPage(tx: PageSender, at: nat)
    requires FullReads(tx) && at < tx.end
    ensures var data := tx.Content(at, tx.Take(at));
      |data| == tx.Take(at) && Exactly(data, |data|) == data && (tx.Good(at) ==> data == tx.source[at..at + tx.Take(at)])
  {
    assert FullRead(tx, at);
  }

  /** The pages of a range read without error are the range. */
  lemma {:induction false} PagesAreSource(tx: PageSender, at: nat)
    requires tx.pageSize > 0 && FullReads(tx) && at <= tx.end && tx.AllGood(tx.Pages(at))
    ensures Flat(tx.Pages(at)) == tx.source[at..tx.end]
    decreases tx.end - at
  {
    if at < tx.end {
      var take := tx.Take(at);
      var rest := tx.Pages(at + take);
      var pages := tx.Pages(at);
      assert pages[0].at == at && pages[1..] == rest;
      assert forall k :: 0 <= k < |rest| ==> rest[k] == pages[k + 1];
      FullPage(tx, at);
      PagesAreSource(tx, at + take);
      assert tx.source[at..tx.end] == tx.source[at..at + take] + tx.source[at + take..tx.end];
    }
  }

  /** The pages' bytes, front first. */
  function Flat(pages: seq<Piece>): seq<byte> {
    if pages == [] then [] else pages[0].data + Flat(pages[1..])
  }

  lemma {:induction false} FlatIsGlued(pages: seq<Piece>)
    ensures Flat(pages) == Glued(pages)
  {
    if |pages| > 0 {
      var front, last := pages[..|pages| - 1], pages[|pages| - 1];
      FlatIsGlued(front);
      FlatAppend(front, last);
      assert front + [last] == pages;
    }
  }

  lemma {:induction false} FlatAppend(pages: seq<Piece>, last: Piece)
    ensures Flat(pages + [last]) == Flat(pages) + last.data
  {
    if pages == [] {
      assert ([] + [last])[1..] == [];
    } else {
      FlatAppend(pages[1..], last);
      assert (pages + [last])[1..] == pages[1..] + [last];
    }
  }

  /** The channel brings each key the page posted under it. */
  ghost predicate Carried(tx: PageSender, rx: Receiver)
    requires tx.pageSize > 0
  {
    Brings(rx.world, tx.Pages(tx.start))
  }

  predicate Brings(world: World, pages: seq<Piece>) {
    forall p :: p in pages ==> world.arrives(p.at) == p.data
  }

  /** Whole pages one after another, the last as long as what is left. */
  predicate CutFrom(pages: seq<Piece>, at: nat, end: nat, pageSize: nat)
    decreases |pages|
  {
    if at >= end then pages == []
    else
      && pages != [] && pages[0].at == at && |pages[0].data| == (if end - at < pageSize then end - at else pageSize)
      && CutFrom(pages[1..], at + |pages[0].data|, end, pageSize)
  }

  lemma {:induction false} PagesAreCut(tx: PageSender, at: nat)
    requires tx.pageSize > 0 && FullReads(tx)
    ensures CutFrom(tx.Pages(at), at, tx.end, tx.pageSize)
    decreases tx.end - at
  {
    if at < tx.end {
      FullPage(tx, at);
      PagesAreCut(tx, at + tx.Take(at));
      assert tx.Pages(at)[1..] == tx.Pages(at + tx.Take(at));
    }
  }

  lemma {:induction false} CutArrives(rx: Receiver, pages: seq<Piece>, at: nat)
    requires rx.pageSize > 0 && CutFrom(pages, at, rx.end, rx.pageSize) && Brings(rx.world, pages)
    ensures rx.Arriving(at) == Flat(pages)
    decreases |pages|
  {
    if at < rx.end {
      assert pages[0] in pages && pages == [pages[0]] + pages[1..];
      assert Exactly(pages[0].data, |pages[0].data|) == pages[0].data;
      CutArrives(rx, pages[1..], at + rx.Take(at));
    }
  }

  /** The receiver cuts the range as the sender did: page for page it holds what was posted. */
  lemma ReceiverDerivesThePages(tx: PageSender, rx: Receiver, at: nat)
    requires tx.pageSize == rx.pageSize > 0 && tx.end == rx.end && FullReads(tx)
    requires Brings(rx.world, tx.Pages(at))
    ensures rx.Arriving(at) == Flat(tx.Pages(at))
  {
    PagesAreCut(tx, at);
    CutArrives(rx, tx.Pages(at), at);
  }

  /** Each of the pages was lent by the source, or its read was accepted and came without an error. */
  predicate ReadsWell(tx: PageSender, pages: seq<Piece>) {
    forall p :: p in pages ==> tx.supply.lent(p.at) || (tx.supply.accepted(p.at) && tx.supply.brings(p.at) >= 0)
  }

  lemma GoodIsReadWell(tx: PageSender, pages: seq<Piece>)
    ensures tx.AllGood(pages) <==> ReadsWell(tx, pages)
  {
    if ReadsWell(tx, pages) {
      forall k | 0 <= k < |pages| ensures tx.Good(pages[k].at) { assert pages[k] in pages; }
    }
  }

  lemma GluedIsSource(tx: PageSender)
    requires tx.pageSize > 0 && FullReads(tx) && tx.start <= tx.end && tx.AllGood(tx.Pages(tx.start))
    ensures Glued(tx.Pages(tx.start)) == tx.source[tx.start..tx.end]
  {
    PagesAreSource(tx, tx.start);
    FlatIsGlued(tx.Pages(tx.start));
  }

  lemma GluedArrives(tx: PageSender, rx: Receiver)
    requires tx.pageSize == rx.pageSize > 0 && tx.start == rx.start && tx.end == rx.end && FullReads(tx) && Carried(tx, rx)
    ensures rx.Arriving(rx.start) == Glued(tx.Pages(tx.start))
  {
    ReceiverDerivesThePages(tx, rx, tx.start);
    FlatIsGlued(tx.Pages(tx.start));
  }

  predicate Collide(digest: seq<byte> -> Digest, a: seq<byte>, b: seq<byte>) {
    a != b && digest(a) == digest(b)
  }

  /**
    A stream that ends well at both ends with equal digests leaves the source's
    range in the sink, whatever arrived and in whatever order things completed,
    unless two different streams share a digest.
    Over a channel that carries the pages, the digests of a sender that read
    everything do agree.
   */
  method Transfer(tx: PageSender, rx: Receiver, digest: seq<byte> -> Digest) returns (sent: bool, received: bool, equal: bool)
    requires tx.pageSize == rx.pageSize > 0 && tx.start == rx.start <= tx.end == rx.end && FullReads(tx)
    requires 1 <= tx.window && 1 <= tx.readAhead && 1 <= rx.window && tx.Fresh() && rx.Idle()
    modifies tx, rx
    ensures sent && received && equal ==>
      Slice(rx.disk, tx.start, tx.end - tx.start) == tx.source[tx.start..tx.end] || Collide(digest, tx.whole, rx.whole)
    ensures sent && received && Carried(tx, rx) ==> equal
    ensures !tx.leftUnsent && !tx.starved ==> tx.posted == tx.Pages(tx.start)
    ensures Carries(tx.supply) ==> (sent <==> ReadsWell(tx, tx.Pages(tx.start)) && !tx.Starves())
    ensures Works(rx.world) ==> (received <==> !rx.Starves())
  {
    sent := tx.Run();
    received := rx.Run();
    equal := digest(tx.whole) == digest(rx.whole);
    GoodIsReadWell(tx, tx.Pages(tx.start));
    if sent {
      GluedIsSource(tx);
      if Carried(tx, rx) { GluedArrives(tx, rx); }
    }
  }
}
