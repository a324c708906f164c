/**
  One file over a session: what the sender hashes, announces and posts, what
  the receiver puts down, and what is left when it commits.
 */
module Session {
  import opened Bytes
  import opened Delta
  import opened Landing
  import opened PageStream
  import opened Signatures

  // ----- Splitting the pool -----

  const SMALLEST_PAGE := 0x10_0000
  const LARGEST_PAGE := 0x400_0000
  const PAGE_SIZES: seq<nat> := [0x10_0000, 0x20_0000, 0x40_0000, 0x80_0000, 0x100_0000, 0x200_0000, 0x400_0000]

  /** Page size, window and page count as options, each defaulted when zero. */
  method WithGeometry(pageSize: nat, windowPages: nat, pageCount: nat, bytes: nat) returns (size: nat, window: nat, count: nat)
    ensures count >= 2 && window >= 1
    ensures pageSize > 0 ==> size == pageSize
    ensures pageSize == 0 ==> size in PAGE_SIZES
    ensures pageSize == 0 ==> (size == LARGEST_PAGE || size * 4 >= bytes) && (size == SMALLEST_PAGE || size * 2 < bytes)
  {
    size := pageSize;
    if size == 0 {
      size := SMALLEST_PAGE;
      while size < LARGEST_PAGE && size * 4 < bytes
        invariant size in PAGE_SIZES
        invariant size == SMALLEST_PAGE || size * 2 < bytes
      {
        size := size * 2;
      }
    }
    window := if windowPages == 0 then 2 else windowPages;
    count := Max(2, if pageCount == 0 then window + 4 else pageCount);
  }

  function SendWindow(windowPages: nat, maxInFlight: nat, pageCount: nat): nat {
    Max(1, Min(Min(windowPages, maxInFlight), LessOne(pageCount)))
  }

  function ReadWindow(windowPages: nat, maxInFlight: nat, pageCount: nat, depth: nat): nat {
    var room := (pageCount - SendWindow(windowPages, maxInFlight, pageCount)) % U64;
    if room < 1 then 1 else Min(room, depth)
  }

  function RecvWindow(windowPages: nat, pageCount: nat): nat {
    Max(1, Min(if windowPages == 0 then 1 else windowPages, pageCount / 2))
  }

  function WriteWindow(windowPages: nat, pageCount: nat): nat {
    var recv := RecvWindow(windowPages, pageCount);
    if pageCount > recv + 1 then pageCount - recv - 1 else 0
  }

  /** From two pages on the sender has one to spare, and with one it takes them one by one; the receiver has one to spare from one on. */
  lemma WindowsLeaveOne(windowPages: nat, maxInFlight: nat, pageCount: nat, depth: nat)
    requires pageCount < U64 && 1 <= depth
    ensures var send, read := SendWindow(windowPages, maxInFlight, pageCount), ReadWindow(windowPages, maxInFlight, pageCount, depth);
      && 1 <= send && 1 <= read
      && (pageCount >= 2 ==> SenderSpare(pageCount, send, read))
      && (pageCount == 1 ==> send == 1 && read == 1)
      && (pageCount >= 1 ==> send <= pageCount)
    ensures pageCount >= 1 ==> ReceiverSpare(pageCount, RecvWindow(windowPages, pageCount), WriteWindow(windowPages, pageCount))
  {
    var send := SendWindow(windowPages, maxInFlight, pageCount);
    if send <= pageCount { assert (pageCount - send) % U64 == pageCount - send; }
    assert pageCount >= 2 ==> 1 <= pageCount / 2 < pageCount;
  }

  /** And they are as wide as that allows. */
  lemma WindowsUseThePool(windowPages: nat, maxInFlight: nat, pageCount: nat, depth: nat)
    requires 2 <= pageCount < U64 && 1 <= depth
    ensures var send, read := SendWindow(windowPages, maxInFlight, pageCount), ReadWindow(windowPages, maxInFlight, pageCount, depth);
      && send <= Max(1, windowPages) && send <= Max(1, maxInFlight) && send < pageCount
      && (send < windowPages && send < maxInFlight ==> send + 1 == pageCount)
      && read <= depth && send + read <= pageCount && (read < depth ==> send + read == pageCount)
    ensures var recv, write := RecvWindow(windowPages, pageCount), WriteWindow(windowPages, pageCount);
      && recv <= Max(1, windowPages) && 2 * recv <= pageCount && (recv < windowPages ==> 2 * (recv + 1) > pageCount)
      && recv + write + 1 == pageCount
  {
    var send := SendWindow(windowPages, maxInFlight, pageCount);
    assert (pageCount - send) % U64 == pageCount - send;
    assert 1 <= pageCount / 2 < pageCount;
  }

  /** So a whole file makes the sender wait for itself exactly when the pool has one page and the file two, or none and one. */
  lemma WholeFileStarvesExactly(windowPages: nat, maxInFlight: nat, pageCount: nat, depth: nat, size: nat, pageSize: nat)
    requires pageCount < U64 && 1 <= depth && pageSize > 0
    ensures var send, read := SendWindow(windowPages, maxInFlight, pageCount), ReadWindow(windowPages, maxInFlight, pageCount, depth);
      (|Cuts(0, size, pageSize)| > pageCount && read - 1 + send >= pageCount) <==>
        || (pageCount == 0 && size > 0)
        || (pageCount == 1 && size > pageSize)
  {
    WindowsLeaveOne(windowPages, maxInFlight, pageCount, depth);
    assert size > 0 ==> Cuts(0, size, pageSize) == [0] + Cuts(PageAt(0, size, pageSize), size, pageSize);
  }

  // ----- What the sender announces -----

  /** A control message with the bytes it stands for: a literal's page, or the block matched. */
  datatype Sent =
    | Lit(at: nat, data: seq<byte>)
    | Cpy(index: nat, at: nat, data: seq<byte>)

  /** The messages cover [0, n) in order and stand for the source there. */
  predicate Told(log: seq<Sent>, n: nat, source: seq<byte>, pageSize: nat) {
    if log == [] then n == 0
    else
      var last := log[|log| - 1];
      && last.at + |last.data| == n <= |source| && last.data != [] && last.data == source[last.at..n]
      && (last.Lit? ==> |last.data| <= pageSize)
      && Told(log[..|log| - 1], last.at, source, pageSize)
  }

  function Copies(log: seq<Sent>): nat {
    if log == [] then 0 else Copies(log[..|log| - 1]) + if log[|log| - 1].Cpy? then |log[|log| - 1].data| else 0
  }

  lemma ToldAppend(log: seq<Sent>, n: nat, source: seq<byte>, pageSize: nat, next: Sent)
    requires Told(log, n, source, pageSize) && next.at == n && next.data != [] && n + |next.data| <= |source|
    requires next.data == source[n..n + |next.data|] && (next.Lit? ==> |next.data| <= pageSize)
    ensures Told(log + [next], n + |next.data|, source, pageSize)
    ensures Copies(log + [next]) == Copies(log) + if next.Cpy? then |next.data| else 0
  {
    assert (log + [next])[..|log|] == log;
  }

  /** Each message starts where the one before ended. */
  lemma {:induction false} ToldPrefix(log: seq<Sent>, n: nat, source: seq<byte>, pageSize: nat, k: nat)
    requires Told(log, n, source, pageSize) && k <= |log|
    ensures Told(log[..k], if k < |log| then log[k].at else n, source, pageSize)
  {
    if k < |log| {
      var front := log[..|log| - 1];
      ToldPrefix(front, log[|log| - 1].at, source, pageSize, k);
      assert front[..k] == log[..k];
    } else {
      assert log[..k] == log;
    }
  }

  /** The copies passed the scan's test. */
  predicate Matching(log: seq<Sent>, sig: Signature, strong: seq<byte> -> Digest) {
    forall m :: m in log && m.Cpy? ==> Matches(sig, strong, m.index, m.data)
  }

  function LogAts(log: seq<Sent>): (r: seq<nat>)
    ensures |r| == |log|
  {
    seq(|log|, i requires 0 <= i < |log| => log[i].at)
  }

  /** Up to any of the pages asked for, the ones before it were. */
  lemma {:induction false} AskedPrefix(asked: seq<nat>, start: nat, at: nat, end: nat, pageSize: nat, k: nat)
    requires Asked(asked, start, at, end, pageSize) && k < |asked|
    ensures Asked(asked[..k], start, asked[k], end, pageSize) && asked[k] < end
  {
    var front := asked[..|asked| - 1];
    if k < |front| {
      AskedPrefix(front, start, asked[|asked| - 1], end, pageSize, k);
      assert front[..k] == asked[..k];
    }
  }

  // ----- The sender -----

  class Push {
    const supply: Supply
    const source: seq<byte>
    const pageSize: nat
    const pageCount: nat
    const window: nat
    const readWindow: nat

    var prefetch: seq<Posted>
    var inFlight: seq<nat>
    var whole: seq<byte>
    var log: seq<Sent>
    var literalBytes: nat
    var matchedBytes: nat
    /** Waits for a page that only it could give back. */
    var starved: bool

    constructor (supply: Supply, source: seq<byte>, pageSize: nat, pageCount: nat, window: nat, readWindow: nat)
      ensures this.supply == supply && this.source == source && this.pageSize == pageSize && this.pageCount == pageCount
      ensures this.window == window && this.readWindow == readWindow && Fresh()
    {
      this.supply, this.source, this.pageSize, this.pageCount := supply, source, pageSize, pageCount;
      this.window, this.readWindow := window, readWindow;
      prefetch, inFlight, whole, log, literalBytes, matchedBytes, starved := [], [], [], [], 0, 0, false;
    }

    predicate Fresh()
      reads this
    {
      prefetch == [] && inFlight == [] && whole == [] && log == [] && literalBytes == 0 && matchedBytes == 0 && !starved
    }

    /** What has been hashed is the source so far, and the messages stand for exactly that. */
    ghost predicate Valid()
      reads this
    {
      && !starved && |inFlight| <= window && |whole| <= |source| && whole == source[..|whole|]
      && Told(log, |whole|, source, pageSize)
    }

    /** The pages announced and those being read are the file up to `cursor`, cut as the receiver cuts it. */
    ghost predicate Reading(cursor: nat)
      reads this
    {
      && |prefetch| <= readWindow && Asked(LogAts(log) + Ats(prefetch), 0, cursor, |source|, pageSize)
      && (forall r :: r in prefetch ==> r.length == Take(r.at))
      && literalBytes == |whole| && Cut(log)
    }

    function Take(at: nat): nat {
      PageAt(at, |source|, pageSize)
    }

    /** Every message is a literal for one page of the file, cut as a streaming receiver cuts it. */
    predicate Cut(log: seq<Sent>) {
      forall k :: 0 <= k < |log| ==> log[k].Lit? && |log[k].data| == Take(log[k].at)
    }

    /** Reads, the pool and the channel all work. */
    ghost predicate Feeds() {
      forall at: nat ::
        supply.backed(at) && supply.accepted(at) && supply.landed(at) && (at < |source| ==> supply.brings(at) >= Take(at))
    }

    /** Waits until at most `keep` sends are in flight. */
    method AwaitSends(keep: nat) returns (ok: bool)
      requires Valid()
      modifies this`inFlight
      ensures Valid() && (ok ==> |inFlight| == Min(old(|inFlight|), keep)) && (Feeds() ==> ok)
    {
      while |inFlight| > keep
        invariant Valid() && |inFlight| <= old(|inFlight|) && (|inFlight| >= keep || |inFlight| == old(|inFlight|))
      {
        var done := supply.landed(inFlight[0]);
        inFlight := inFlight[1..];
        if !done { return false; }
      }
      return true;
    }

    // ----- A whole file -----

    /** Sends fill the window, and reads are topped up but for the page just posted. */
    predicate Steady(offset: nat)
      reads this`log, this`prefetch, this`inFlight
    {
      |inFlight| == Min(|log|, window) && (log == [] || offset >= |source| || |prefetch| >= readWindow - 1)
    }

    /** No page so far was asked for in vain. */
    predicate Fed()
      reads this`log, this`prefetch
    {
      |log| + |prefetch| <= pageCount || readWindow - 1 + window < pageCount
    }

    /** The file has more pages than the pool, and the two windows can hold the whole pool. */
    predicate Starves()
      requires pageSize > 0
    {
      |Cuts(0, |source|, pageSize)| > pageCount && readWindow - 1 + window >= pageCount
    }

    /** Reads ahead in order. It waits for ever once reading and sending hold the whole pool. */
    method Fill(from: nat) returns (ok: bool, offset: nat)
      requires pageSize > 0 && 1 <= window && 1 <= readWindow && Valid() && Reading(from) && Steady(from) && Fed()
      modifies this`prefetch, this`starved
      ensures ok ==> Valid() && Reading(offset) && Fed() && (|prefetch| >= readWindow || offset >= |source|)
      ensures ok && (from < |source| || old(prefetch) != []) ==> prefetch != []
      ensures starved ==> !ok && Starves()
      ensures Feeds() ==> ok || starved
    {
      offset := from;
      while |prefetch| < readWindow && offset < |source|
        invariant Valid() && Reading(offset) && Steady(offset) && Fed()
        invariant |prefetch| >= old(|prefetch|) && (offset == from || prefetch != [])
        decreases |source| - offset
      {
        ok := ReadNext(offset);
        if !ok { return false, offset; }
        offset := offset + Take(offset);
      }
      return true, offset;
    }

    /** Starts one more read, into a page from the pool. */
    method ReadNext(offset: nat) returns (ok: bool)
      requires pageSize > 0 && 1 <= window && 1 <= readWindow && offset < |source| && |prefetch| < readWindow
      requires Valid() && Reading(offset) && Steady(offset) && Fed()
      modifies this`prefetch, this`starved
      ensures ok ==> Valid() && Reading(offset + Take(offset)) && Fed() && |prefetch| == old(|prefetch|) + 1
      ensures starved ==> !ok && Starves()
      ensures Feeds() ==> ok || starved
    {
      PagesSoFar(offset);
      if |prefetch| + |inFlight| >= pageCount {
        starved := true;
        return false;
      }
      if !supply.backed(offset) || !supply.accepted(offset) { return false; }
      ReadOn(log, prefetch, offset);
      prefetch := prefetch + [Posted(offset, Take(offset), false)];
      return true;
    }

    lemma PagesSoFar(offset: nat)
      requires pageSize > 0 && Reading(offset)
      ensures var pages := |Cuts(0, |source|, pageSize)|;
        if offset < |source| then |log| + |prefetch| < pages else |log| + |prefetch| == pages
    {
      AskedIs(LogAts(log) + Ats(prefetch), 0, offset, |source|, pageSize);
    }

    lemma ReadOn(log: seq<Sent>, rs: seq<Posted>, offset: nat)
      requires Asked(LogAts(log) + Ats(rs), 0, offset, |source|, pageSize) && offset < |source|
      ensures Asked(LogAts(log) + Ats(rs + [Posted(offset, Take(offset), false)]), 0, offset + Take(offset), |source|, pageSize)
    {
      AskedOn(LogAts(log) + Ats(rs), 0, offset, |source|, pageSize);
      assert LogAts(log) + Ats(rs + [Posted(offset, Take(offset), false)]) == LogAts(log) + Ats(rs) + [offset];
    }

    /** Hashes and announces the oldest page read. */
    method ShipReady(ghost offset: nat) returns (ok: bool)
      requires pageSize > 0 && Valid() && Reading(offset) && prefetch != [] && |inFlight| < window
      modifies this`prefetch, this`inFlight, this`whole, this`log, this`literalBytes
      ensures ok ==> Valid() && Reading(offset) && |whole| > old(|whole|)
      ensures ok ==> |log| == old(|log|) + 1 && |prefetch| == old(|prefetch|) - 1 && |inFlight| == old(|inFlight|) + 1
      ensures Feeds() ==> ok
    {
      var r := prefetch[0];
      NextRead(log, prefetch, offset, |whole|);
      if supply.brings(r.at) < r.length { return false; }
      Announce(r.at, r.length);
      inFlight := inFlight + [r.at];
      prefetch := prefetch[1..];
      literalBytes := literalBytes + r.length;
      return true;
    }

    /** Hashes the next bytes of the source and announces them as one literal. */
    method Announce(at: nat, n: nat)
      requires Valid() && at == |whole| && 0 < n <= pageSize && at + n <= |source|
      modifies this`whole, this`log
      ensures Valid() && |whole| == at + n && log == old(log) + [Lit(at, source[at..at + n])]
    {
      var data := source[at..at + n];
      ToldAppend(log, |whole|, source, pageSize, Lit(at, data));
      whole := whole + data;
      log := log + [Lit(at, data)];
    }

    /** The oldest page read is the next one to announce. */
    lemma NextRead(log: seq<Sent>, rs: seq<Posted>, offset: nat, n: nat)
      requires pageSize > 0 && rs != [] && Asked(LogAts(log) + Ats(rs), 0, offset, |source|, pageSize)
      requires Told(log, n, source, pageSize) && Cut(log)
      ensures rs[0].at == n < |source|
      ensures forall data :: LogAts(log + [Lit(rs[0].at, data)]) + Ats(rs[1..]) == LogAts(log) + Ats(rs)
    {
      var all := LogAts(log) + Ats(rs);
      AskedPrefix(all, 0, offset, |source|, pageSize, |log|);
      assert all[..|log|] == LogAts(log) && all[|log|] == rs[0].at;
      ToldAsked(log, n, rs[0].at);
    }

    lemma ToldAsked(log: seq<Sent>, n: nat, at: nat)
      requires Told(log, n, source, pageSize) && Cut(log) && Asked(LogAts(log), 0, at, |source|, pageSize)
      ensures at == n
    {
      if log != [] { assert LogAts(log)[|log| - 1] == log[|log| - 1].at; }
    }

    /**
      A whole file. While reads, the pool and the channel work it is sent, and the
      sender waits for itself exactly when the file has more pages than the pool
      and the windows leave none over.
     */
    method SendWholeFile() returns (ok: bool)
      requires pageSize > 0 && 1 <= window && 1 <= readWindow && Fresh()
      modifies this`prefetch, this`inFlight, this`whole, this`log, this`literalBytes, this`starved
      ensures ok ==> Valid() && Cut(log) && whole == source && literalBytes == |source|
      ensures starved ==> !ok && Starves()
      ensures Feeds() ==> ok == !starved && (starved <==> Starves())
    {
      var offset: nat := 0;
      while offset < |source| || prefetch != []
        invariant Valid() && Reading(offset) && Steady(offset) && Fed()
        decreases |source| - |whole|
      {
        ok, offset := Turn(offset);
        if !ok { return false; }
      }
      PagesSoFar(offset);
      WholeTold(offset);
      return true;
    }

    lemma WholeTold(offset: nat)
      requires Valid() && Reading(offset) && prefetch == [] && offset >= |source|
      ensures whole == source
    {
      assert LogAts(log) + Ats(prefetch) == LogAts(log);
      ToldAsked(log, |whole|, offset);
    }

    method Turn(from: nat) returns (ok: bool, offset: nat)
      requires pageSize > 0 && 1 <= window && 1 <= readWindow && (from < |source| || prefetch != [])
      requires Valid() && Reading(from) && Steady(from) && Fed()
      modifies this`prefetch, this`inFlight, this`whole, this`log, this`literalBytes, this`starved
      ensures ok ==> Valid() && Reading(offset) && Steady(offset) && Fed() && |whole| > old(|whole|)
      ensures starved ==> !ok && Starves()
      ensures Feeds() ==> ok || starved
    {
      ok, offset := Fill(from);
      if !ok { return; }
      ok := AwaitSends(window - 1);
      if !ok { return; }
      ok := ShipReady(offset);
    }

    // ----- A delta -----

    /** Reads, hashes, announces and posts one page of a literal; a short read makes it shorter. */
    method SendPage(at: nat, left: nat) returns (ok: bool, sent: nat)
      requires pageSize > 0 && Valid() && prefetch == [] && at == |whole| && 0 < left && at + left <= |source|
      requires |inFlight| < window
      modifies this`inFlight, this`whole, this`log, this`starved
      ensures ok ==> Valid() && 0 < sent <= left && |whole| == at + sent
      ensures ok ==> exists next: Sent :: next.Lit? && log == old(log) + [next]
      ensures starved ==> !ok && window > pageCount
      ensures Feeds() ==> ok || starved
    {
      if |inFlight| >= pageCount {
        starved := true;
        return false, 0;
      }
      if !supply.backed(at) { return false, 0; }
      var n := Min(supply.brings(at), Min(pageSize, left));
      if n <= 0 { return false, 0; }
      Announce(at, n);
      inFlight := inFlight + [at];
      return true, n;
    }

    method SendLiteral(at: nat, length: nat, sig: Signature, ghost strong: seq<byte> -> Digest) returns (ok: bool)
      requires pageSize > 0 && Valid() && prefetch == [] && at == |whole| && at + length <= |source|
      requires 1 <= window && Matching(log, sig, strong)
      modifies this`inFlight, this`whole, this`log, this`starved
      ensures ok ==> Valid() && |whole| == at + length && Matching(log, sig, strong) && Copies(log) == old(Copies(log))
      ensures starved ==> !ok && window > pageCount
      ensures Feeds() ==> ok || starved
    {
      var from: nat, left: nat := at, length;
      while left > 0
        invariant Valid() && from == |whole| && from + left == at + length
        invariant Matching(log, sig, strong) && Copies(log) == old(Copies(log))
      {
        ok := AwaitSends(window - 1);
        if !ok { return false; }
        ghost var before := log;
        var sent;
        ok, sent := SendPage(from, left);
        if !ok { return false; }
        assert log[..|before|] == before;
        from, left := from + sent, left - sent;
      }
      return true;
    }

    /** Sends the scan's instructions in order. */
    method SendDelta(ins: seq<Instruction>, sig: Signature, ghost strong: seq<byte> -> Digest) returns (ok: bool)
      requires pageSize > 0 && Fresh() && 1 <= window
      requires Tiles(ins, |source|) && Sound(ins, sig, strong, source)
      modifies this`inFlight, this`whole, this`log, this`starved
      ensures ok ==> Valid() && whole == source && Matching(log, sig, strong) && Copies(log) == CopyTotal(ins)
      ensures starved ==> !ok && window > pageCount
      ensures Feeds() ==> ok || starved
    {
      var k := 0;
      TilesPrefix(ins, |source|, 0);
      while k < |ins|
        invariant 0 <= k <= |ins| && Valid() && Matching(log, sig, strong)
        invariant |whole| == (if k < |ins| then ins[k].srcOffset else |source|) && Copies(log) == CopyTotal(ins[..k])
      {
        ok := SendNext(ins, k, sig, strong);
        if !ok { return false; }
        k := k + 1;
      }
      assert ins[..k] == ins;
      return true;
    }

    method SendNext(ins: seq<Instruction>, k: nat, sig: Signature, ghost strong: seq<byte> -> Digest) returns (ok: bool)
      requires pageSize > 0 && Valid() && prefetch == [] && 1 <= window && Matching(log, sig, strong)
      requires Tiles(ins, |source|) && Sound(ins, sig, strong, source) && k < |ins|
      requires |whole| == ins[k].srcOffset && Copies(log) == CopyTotal(ins[..k])
      modifies this`inFlight, this`whole, this`log, this`starved
      ensures ok ==> Valid() && Matching(log, sig, strong) && Copies(log) == CopyTotal(ins[..k + 1])
      ensures ok ==> |whole| == if k + 1 < |ins| then ins[k + 1].srcOffset else |source|
      ensures starved ==> !ok && window > pageCount
      ensures Feeds() ==> ok || starved
    {
      NextInstruction(ins, k);
      CopiesNext(ins, k);
      ok := SendOne(ins[k], sig, strong);
    }

    /** One instruction: a literal page by page, a copy as a message alone. */
    method SendOne(c: Instruction, sig: Signature, ghost strong: seq<byte> -> Digest) returns (ok: bool)
      requires pageSize > 0 && Valid() && prefetch == [] && 1 <= window && Matching(log, sig, strong)
      requires c.srcOffset == c.dstOffset == |whole| && c.length > 0 && |whole| + c.length <= |source|
      requires c.Copy? ==> c.bytes == source[|whole|..|whole| + c.length] && Matches(sig, strong, c.blockIndex, c.bytes)
      modifies this`inFlight, this`whole, this`log, this`starved
      ensures ok ==> Valid() && |whole| == c.srcOffset + c.length && Matching(log, sig, strong)
      ensures ok ==> Copies(log) == old(Copies(log)) + if c.Copy? then c.length else 0
      ensures starved ==> !ok && window > pageCount
      ensures Feeds() ==> ok || starved
    {
      if c.Literal? {
        ok := SendLiteral(c.srcOffset, c.length, sig, strong);
      } else {
        SendCopy(c, sig, strong);
        ok := true;
      }
    }

    lemma NextInstruction(ins: seq<Instruction>, k: nat)
      requires Tiles(ins, |source|) && k < |ins|
      ensures ins[k].length > 0 && ins[k].srcOffset == ins[k].dstOffset && ins[k].srcOffset + ins[k].length <= |source|
      ensures ins[k].srcOffset + ins[k].length == if k + 1 < |ins| then ins[k + 1].srcOffset else |source|
    {
      TilesPrefix(ins, |source|, k);
      TilesPrefix(ins, |source|, k + 1);
      assert ins[..k + 1][k] == ins[k];
    }

    method SendCopy(c: Instruction, sig: Signature, ghost strong: seq<byte> -> Digest)
      requires Valid() && c.Copy? && c.srcOffset == c.dstOffset == |whole| && |whole| + |c.bytes| <= |source|
      requires c.bytes != [] && c.bytes == source[|whole|..|whole| + |c.bytes|]
      requires Matches(sig, strong, c.blockIndex, c.bytes) && Matching(log, sig, strong)
      modifies this`whole, this`log
      ensures Valid() && |whole| == c.srcOffset + |c.bytes| && Matching(log, sig, strong)
      ensures Copies(log) == old(Copies(log)) + |c.bytes|
    {
      var next := Cpy(c.blockIndex, c.dstOffset, c.bytes);
      ToldAppend(log, |whole|, source, pageSize, next);
      whole := whole + c.bytes;
      log := log + [next];
    }
  }

  lemma CopiesNext(ins: seq<Instruction>, k: nat)
    requires k < |ins|
    ensures CopyTotal(ins[..k + 1]) == CopyTotal(ins[..k]) + if ins[k].Copy? then ins[k].length else 0
  {
    assert ins[..k + 1][..k] == ins[..k];
  }

  lemma {:induction false} TilesPrefix(ins: seq<Instruction>, n: nat, k: nat)
    requires Tiles(ins, n) && k <= |ins|
    ensures Tiles(ins[..k], if k < |ins| then ins[k].srcOffset else n)
    ensures k < |ins| ==> ins[k].length > 0 && ins[k].srcOffset == ins[k].dstOffset && ins[k].srcOffset + ins[k].length <= n
  {
    if k < |ins| {
      var front := ins[..|ins| - 1];
      TilesPrefix(front, ins[|ins| - 1].srcOffset, k);
      assert front[..k] == ins[..k];
    } else {
      assert ins[..k] == ins;
    }
  }

  // ----- The receiver -----

  /** What a message brings: the page that arrives for a literal, or a block of the basis. */
  function PieceOf(m: Sent, world: World, sig: Signature, basis: seq<byte>): Piece {
    match m
    case Lit(at, data) => Piece(at, Exactly(world.arrives(at), |data|))
    case Cpy(index, at, _) => Piece(at, Block(sig, basis, index))
  }

  /** What the messages bring, in order. */
  function Brought(log: seq<Sent>, world: World, sig: Signature, basis: seq<byte>): (r: seq<Piece>)
    ensures |r| == |log|
  {
    if log == [] then []
    else Brought(log[..|log| - 1], world, sig, basis) + [PieceOf(log[|log| - 1], world, sig, basis)]
  }

  /** The bytes the copies name. */
  function Named(log: seq<Sent>, sig: Signature): nat {
    if log == [] then 0
    else Named(log[..|log| - 1], sig) + if log[|log| - 1].Cpy? then BlockLengthAt(sig, log[|log| - 1].index) else 0
  }

  /** Every literal fits a page, and every block a copy names is there to be read. */
  predicate Usable(m: Sent, sig: Signature, basis: seq<byte>, open: bool, pageSize: nat) {
    match m
    case Lit(_, data) => |data| <= pageSize
    case Cpy(index, _, _) => open && 0 < BlockLengthAt(sig, index) == |Block(sig, basis, index)|
  }

  predicate AllUsable(log: seq<Sent>, sig: Signature, basis: seq<byte>, open: bool, pageSize: nat) {
    forall m :: m in log ==> Usable(m, sig, basis, open, pageSize)
  }

  /** Applies the messages in order, wherever they say. It succeeds only on messages it can use, and on those when nothing fails. */
  method Apply(rx: Receiver, log: seq<Sent>, sig: Signature, basis: seq<byte>, open: bool) returns (ok: bool)
    requires rx.Idle() && 1 <= rx.window && !rx.world.aligned
    modifies rx
    ensures ok ==> rx.Valid() && rx.Taken() == Brought(log, rx.world, sig, basis) && rx.matchedBytes == Named(log, sig)
    ensures ok ==> AllUsable(log, sig, basis, open, rx.pageSize)
    ensures rx.starved ==> !ok && !rx.Spare()
    ensures Works(rx.world) && AllUsable(log, sig, basis, open, rx.pageSize) ==> ok || rx.starved
  {
    var k := 0;
    assert rx.Taken() == [];
    while k < |log|
      invariant 0 <= k <= |log| && rx.Valid() && rx.Taken() == Brought(log[..k], rx.world, sig, basis)
      invariant rx.matchedBytes == Named(log[..k], sig) && AllUsable(log[..k], sig, basis, open, rx.pageSize)
    {
      ok := ApplyOne(rx, log[k], sig, basis, open);
      if !ok { return false; }
      OneMoreMessage(log, k, rx.world, sig, basis, open, rx.pageSize);
      k := k + 1;
    }
    assert log[..k] == log;
    return true;
  }

  lemma OneMoreMessage(log: seq<Sent>, k: nat, world: World, sig: Signature, basis: seq<byte>, open: bool, pageSize: nat)
    requires k < |log|
    ensures Brought(log[..k + 1], world, sig, basis) == Brought(log[..k], world, sig, basis) + [PieceOf(log[k], world, sig, basis)]
    ensures Named(log[..k + 1], sig) == Named(log[..k], sig) + if log[k].Cpy? then BlockLengthAt(sig, log[k].index) else 0
    ensures AllUsable(log[..k + 1], sig, basis, open, pageSize)
      <==> AllUsable(log[..k], sig, basis, open, pageSize) && Usable(log[k], sig, basis, open, pageSize)
  {
    assert log[..k + 1][..k] == log[..k] && log[..k + 1] == log[..k] + [log[k]];
  }

  method ApplyOne(rx: Receiver, m: Sent, sig: Signature, basis: seq<byte>, open: bool) returns (ok: bool)
    requires rx.Valid() && 1 <= rx.window && !rx.world.aligned
    modifies rx
    ensures ok ==> rx.Valid() && rx.Taken() == old(rx.Taken()) + [PieceOf(m, rx.world, sig, basis)]
    ensures ok ==> rx.matchedBytes == old(rx.matchedBytes) + if m.Cpy? then BlockLengthAt(sig, m.index) else 0
    ensures ok ==> Usable(m, sig, basis, open, rx.pageSize)
    ensures rx.starved ==> !ok && !rx.Spare()
    ensures Works(rx.world) && Usable(m, sig, basis, open, rx.pageSize) ==> ok || rx.starved
  {
    match m {
      case Lit(at, data) => ok := rx.ApplyLiteral(at, |data|);
      case Cpy(index, at, data) => ok := rx.ApplyCopy(index, at, sig, basis, open);
    }
  }

  // ----- Both ends -----

  /** The channel brings each literal's key the page posted under it. */
  predicate Carried(log: seq<Sent>, world: World) {
    forall m :: m in log && m.Lit? ==> world.arrives(m.at) == m.data
  }

  /** What the messages bring follows on, when each brings as much as it stands for. */
  lemma {:induction false} BroughtAbut(log: seq<Sent>, n: nat, world: World, sig: Signature, basis: seq<byte>, source: seq<byte>, pageSize: nat)
    requires Told(log, n, source, pageSize)
    requires forall m :: m in log ==> |PieceOf(m, world, sig, basis).data| == |m.data|
    ensures Abut(Brought(log, world, sig, basis), 0, n)
  {
    if log != [] {
      var front, last := log[..|log| - 1], log[|log| - 1];
      BroughtAbut(front, last.at, world, sig, basis, source, pageSize);
      AbutAppend(Brought(front, world, sig, basis), 0, last.at, PieceOf(last, world, sig, basis));
    }
  }

  /** A receiver to which each message brings the bytes it stands for holds the source. */
  lemma {:induction false} BroughtIsTold(log: seq<Sent>, n: nat, world: World, sig: Signature, basis: seq<byte>, source: seq<byte>, pageSize: nat)
    requires Told(log, n, source, pageSize) && n <= |source|
    requires forall m :: m in log ==> PieceOf(m, world, sig, basis).data == m.data
    ensures Glued(Brought(log, world, sig, basis)) == source[..n]
  {
    if log != [] {
      var front, last := log[..|log| - 1], log[|log| - 1];
      BroughtIsTold(front, last.at, world, sig, basis, source, pageSize);
      GluedAppend(Brought(front, world, sig, basis), PieceOf(last, world, sig, basis));
      assert source[..last.at] + source[last.at..n] == source[..n];
    }
  }

  /** Over such a channel, and with sums that do not collide, the receiver holds the source. */
  lemma BroughtIsSource(
    log: seq<Sent>, world: World, sig: Signature, strong: seq<byte> -> Digest, basis: seq<byte>, source: seq<byte>, pageSize: nat)
    requires Told(log, |source|, source, pageSize) && Carried(log, world) && Matching(log, sig, strong)
    requires Describes(sig, basis, strong) && NoCollision(sig, strong, basis, source)
    ensures Glued(Brought(log, world, sig, basis)) == source
  {
    forall m | m in log ensures PieceOf(m, world, sig, basis).data == m.data {
      var k :| 0 <= k < |log| && log[k] == m;
      Stands(log, |source|, source, pageSize, k);
      PieceIsData(m, world, sig, strong, basis, source);
    }
    BroughtIsTold(log, |source|, world, sig, basis, source, pageSize);
    assert source[..|source|] == source;
  }

  lemma Stands(log: seq<Sent>, n: nat, source: seq<byte>, pageSize: nat, k: nat)
    requires Told(log, n, source, pageSize) && k < |log|
    ensures var m := log[k]; m.at + |m.data| <= |source| && m.data == source[m.at..m.at + |m.data|]
  {
    ToldPrefix(log, n, source, pageSize, k + 1);
    assert log[..k + 1][k] == log[k];
  }

  lemma PieceIsData(m: Sent, world: World, sig: Signature, strong: seq<byte> -> Digest, basis: seq<byte>, source: seq<byte>)
    requires m.at + |m.data| <= |source| && m.data == source[m.at..m.at + |m.data|]
    requires if m.Lit? then world.arrives(m.at) == m.data else Matches(sig, strong, m.index, m.data)
    requires Describes(sig, basis, strong) && NoCollision(sig, strong, basis, source)
    ensures PieceOf(m, world, sig, basis).data == m.data
  {
    if m.Cpy? {
      PayloadIsSource(Copy(m.index, m.at, m.at, |m.data|, m.data), sig, strong, basis, source);
    }
  }

  /** A copy that passed the test names as many bytes as it stands for. */
  lemma {:induction false} NamedIsCopied(log: seq<Sent>, sig: Signature, strong: seq<byte> -> Digest)
    requires Matching(log, sig, strong)
    ensures Named(log, sig) == Copies(log)
  {
    if log != [] { NamedIsCopied(log[..|log| - 1], sig, strong); }
  }

  /**
    A file sent as a delta. What the receiver commits is the source, unless the
    whole-file digest collides, for every basis, every arrival and every order of
    completions; its tallies are the sender's; and over a channel that carries the
    pages nothing but a failing operation, a pool smaller than the windows, a scan
    that stalls or leaves its window, or sums that collide keeps it from committing.
   */
  method TransferDelta(
    tx: Push, differ: Differ, rx: Receiver, basis: seq<byte>, open: bool, digest: seq<byte> -> Digest)
    returns (sent: bool, arrived: bool, committed: bool, file: seq<byte>)
    requires tx.Fresh() && 1 <= tx.window && tx.pageSize == rx.pageSize > 0
    requires rx.Idle() && 1 <= rx.window && !rx.world.aligned && rx.end == |tx.source| < U64
    requires |differ.sig.sums| < 0x8000_0000
    requires differ.out == [] && differ.literalBytes == differ.matchedBytes == 0
    modifies tx, differ, rx
    ensures committed ==> file == tx.source || Collide(digest, tx.source, rx.whole)
    ensures committed ==> rx.literalBytes == differ.literalBytes && rx.matchedBytes == differ.matchedBytes
    ensures sent ==> tx.whole == tx.source
    ensures (arrived && Carried(tx.log, rx.world) && Describes(differ.sig, basis, differ.strong)
             && NoCollision(differ.sig, differ.strong, basis, tx.source)) ==> committed && file == tx.source
    ensures tx.starved ==> tx.window > tx.pageCount
    ensures rx.starved ==> !rx.Spare()
    ensures differ.stalled <==> differ.Stalls(tx.source)
    ensures differ.astray <==> differ.sig.sums != [] && !WindowServes(differ.sig.blockLength, |tx.source|)
    ensures tx.Feeds() ==> sent || tx.starved || differ.stalled || differ.astray
    ensures sent && Works(rx.world) && open && Describes(differ.sig, basis, differ.strong) ==> arrived || rx.starved
  {
    sent, arrived, committed, file := false, false, false, [];
    differ.Diff(tx.source);
    if differ.stalled || differ.astray { return; }
    sent := tx.SendDelta(differ.out, differ.sig, differ.strong);
    if !sent { return; }
    sent := tx.AwaitSends(0);
    if !sent { return; }
    arrived, committed, file := ReceiveDelta(rx, tx.log, differ.sig, differ.strong, basis, open, tx.source, digest(tx.whole), digest);
    TotalsAddUp(differ.out, |tx.source|);
  }

  /** What passed the scan's test can be used by a receiver that has the basis. */
  lemma BlocksAreReadable(
    log: seq<Sent>, sig: Signature, strong: seq<byte> -> Digest, basis: seq<byte>, source: seq<byte>, pageSize: nat)
    requires Describes(sig, basis, strong) && Matching(log, sig, strong) && Told(log, |source|, source, pageSize)
    ensures AllUsable(log, sig, basis, true, pageSize)
  {
    forall m | m in log ensures Usable(m, sig, basis, true, pageSize) {
      var k :| 0 <= k < |log| && log[k] == m;
      Next(log, |source|, source, pageSize, k);
      if m.Cpy? { BlockIsReadable(m, sig, strong, basis, pageSize); }
    }
  }

  lemma BlockIsReadable(m: Sent, sig: Signature, strong: seq<byte> -> Digest, basis: seq<byte>, pageSize: nat)
    requires Describes(sig, basis, strong) && m.Cpy? && m.data != [] && Matches(sig, strong, m.index, m.data)
    ensures Usable(m, sig, basis, true, pageSize)
  {
    BlockLengthAtIsLength(sig, basis, strong, m.index);
  }

  /** Each message starts where the one before ended, and a literal fits a page. */
  lemma Next(log: seq<Sent>, n: nat, source: seq<byte>, pageSize: nat, k: nat)
    requires Told(log, n, source, pageSize) && k < |log|
    ensures log[k].at + |log[k].data| == (if k + 1 < |log| then log[k + 1].at else n) <= n && log[k].data != []
    ensures log[k].Lit? ==> |log[k].data| <= pageSize
  {
    ToldPrefix(log, n, source, pageSize, k + 1);
    ToldWithin(log, n, source, pageSize, k + 1);
  }

  lemma {:induction false} ToldWithin(log: seq<Sent>, n: nat, source: seq<byte>, pageSize: nat, k: nat)
    requires Told(log, n, source, pageSize) && k <= |log|
    ensures (if k < |log| then log[k].at else n) <= n
  {
    if k < |log| { ToldWithin(log[..|log| - 1], log[|log| - 1].at, source, pageSize, k); }
  }

  lemma BroughtFits(
    log: seq<Sent>, world: World, sig: Signature, strong: seq<byte> -> Digest, basis: seq<byte>, open: bool, source: seq<byte>, pageSize: nat)
    requires Told(log, |source|, source, pageSize) && Matching(log, sig, strong) && AllUsable(log, sig, basis, open, pageSize)
    ensures Abut(Brought(log, world, sig, basis), 0, |source|) && |Glued(Brought(log, world, sig, basis))| == |source|
    ensures Named(log, sig) == Copies(log)
  {
    NamedIsCopied(log, sig, strong);
    forall m | m in log ensures |PieceOf(m, world, sig, basis).data| == |m.data| { assert Usable(m, sig, basis, open, pageSize); }
    BroughtAbut(log, |source|, world, sig, basis, source, pageSize);
    AbutAt(Brought(log, world, sig, basis), 0, |source|);
  }

  /** The receiving half: apply every message, then check the digest and commit. */
  method ReceiveDelta(
    rx: Receiver, log: seq<Sent>, sig: Signature, ghost strong: seq<byte> -> Digest,
    basis: seq<byte>, open: bool, ghost source: seq<byte>, expected: Digest, digest: seq<byte> -> Digest)
    returns (arrived: bool, committed: bool, file: seq<byte>)
    requires rx.Idle() && 1 <= rx.window && !rx.world.aligned
    requires rx.end == |source| && Told(log, |source|, source, rx.pageSize) && expected == digest(source)
    requires Matching(log, sig, strong)
    modifies rx
    ensures committed ==> file == source || Collide(digest, source, rx.whole)
    ensures committed ==> rx.matchedBytes == Copies(log) && rx.literalBytes + rx.matchedBytes == |source|
    ensures (arrived && Carried(log, rx.world) && Describes(sig, basis, strong)
             && NoCollision(sig, strong, basis, source)) ==> committed && file == source
    ensures rx.starved ==> !arrived && !rx.Spare()
    ensures Works(rx.world) && open && Describes(sig, basis, strong) ==> arrived || rx.starved
  {
    committed, file := false, [];
    if open && Describes(sig, basis, strong) { BlocksAreReadable(log, sig, strong, basis, source, rx.pageSize); }
    arrived := Apply(rx, log, sig, basis, open);
    if !arrived { return; }
    BroughtFits(log, rx.world, sig, strong, basis, open, source, rx.pageSize);
    arrived, committed, file := rx.Complete(expected, digest);
    if Describes(sig, basis, strong) && NoCollision(sig, strong, basis, source) && Carried(log, rx.world) {
      BroughtIsSource(log, rx.world, sig, strong, basis, source, rx.pageSize);
    }
  }

  /** A streaming receiver derives, page for page, what the sender posted. */
  lemma {:induction false} StreamArrives(tx: Push, rx: Receiver, k: nat)
    requires tx.pageSize == rx.pageSize > 0 && rx.end == |tx.source| && k <= |tx.log|
    requires Told(tx.log, rx.end, tx.source, tx.pageSize) && tx.Cut(tx.log) && Carried(tx.log, rx.world)
    ensures var at := FromMessage(tx.log, k, rx.end); at <= rx.end && rx.Arriving(at) == tx.source[at..]
    decreases |tx.log| - k
  {
    if k < |tx.log| {
      StreamArrives(tx, rx, k + 1);
      OnePageArrives(tx, rx, k);
    }
  }

  function FromMessage(log: seq<Sent>, k: nat, end: nat): nat {
    if k < |log| then log[k].at else end
  }

  lemma OnePageArrives(tx: Push, rx: Receiver, k: nat)
    requires tx.pageSize == rx.pageSize > 0 && rx.end == |tx.source| && k < |tx.log|
    requires Told(tx.log, rx.end, tx.source, tx.pageSize) && tx.Cut(tx.log) && Carried(tx.log, rx.world)
    requires var next := FromMessage(tx.log, k + 1, rx.end); next <= rx.end && rx.Arriving(next) == tx.source[next..]
    ensures tx.log[k].at <= rx.end && rx.Arriving(tx.log[k].at) == tx.source[tx.log[k].at..]
  {
    Next(tx.log, rx.end, tx.source, tx.pageSize, k);
    Stands(tx.log, rx.end, tx.source, tx.pageSize, k);
    PageArrives(rx, tx.log[k], tx.source);
  }

  lemma PageArrives(rx: Receiver, m: Sent, source: seq<byte>)
    requires rx.pageSize > 0 && m.at < rx.end == |source| && |m.data| == Min(rx.pageSize, rx.end - m.at)
    requires m.data == source[m.at..m.at + |m.data|] && rx.world.arrives(m.at) == m.data
    requires rx.Arriving(m.at + |m.data|) == source[m.at + |m.data|..]
    ensures rx.Arriving(m.at) == source[m.at..]
  {
    assert source[m.at..] == m.data + source[m.at + |m.data|..];
  }

  /** A file sent whole, announced page by page or streamed without a word. */
  method TransferWhole(tx: Push, rx: Receiver, streamed: bool, digest: seq<byte> -> Digest)
    returns (sent: bool, arrived: bool, committed: bool, file: seq<byte>)
    requires tx.Fresh() && 1 <= tx.window && 1 <= tx.readWindow && tx.pageSize == rx.pageSize > 0
    requires rx.Idle() && 1 <= rx.window && (rx.world.aligned ==> streamed)
    requires rx.start == 0 && rx.end == |tx.source|
    modifies tx, rx
    ensures committed ==> file == tx.source || Collide(digest, tx.source, rx.whole)
    ensures committed ==> rx.literalBytes == tx.literalBytes && rx.matchedBytes == tx.matchedBytes
    ensures sent ==> tx.whole == tx.source
    ensures arrived && Carried(tx.log, rx.world) ==> committed && file == tx.source
    ensures tx.Feeds() ==> (sent <==> !tx.Starves())
    ensures rx.starved ==> !rx.Spare()
    ensures sent && Works(rx.world) ==> arrived || rx.starved
  {
    arrived, committed, file := false, false, [];
    sent := tx.SendWholeFile();
    if !sent { return; }
    sent := tx.AwaitSends(0);
    if !sent { return; }
    arrived := ReceiveWhole(tx, rx, streamed);
    if !arrived { return; }
    AbutAt(rx.Taken(), 0, rx.end);
    arrived, committed, file := rx.Complete(digest(tx.whole), digest);
  }

  method ReceiveWhole(tx: Push, rx: Receiver, streamed: bool) returns (ok: bool)
    requires tx.pageSize == rx.pageSize > 0 && tx.Valid() && tx.Cut(tx.log) && tx.whole == tx.source
    requires rx.Idle() && 1 <= rx.window && (rx.world.aligned ==> streamed)
    requires rx.start == 0 && rx.end == |tx.source|
    modifies rx
    ensures ok ==> rx.Valid() && rx.matchedBytes == 0 && Abut(rx.Taken(), 0, rx.end)
    ensures ok && Carried(tx.log, rx.world) ==> Glued(rx.Taken()) == tx.source
    ensures rx.starved ==> !ok && !rx.Spare()
    ensures Works(rx.world) ==> ok || rx.starved
  {
    if streamed {
      ok := ReceiveStream(tx, rx);
    } else {
      ok := ReceiveAnnounced(tx, rx);
    }
  }

  method ReceiveStream(tx: Push, rx: Receiver) returns (ok: bool)
    requires tx.pageSize == rx.pageSize > 0 && tx.Valid() && tx.Cut(tx.log) && tx.whole == tx.source
    requires rx.Idle() && 1 <= rx.window && rx.start == 0 && rx.end == |tx.source|
    modifies rx
    ensures ok ==> rx.Valid() && rx.matchedBytes == 0 && Abut(rx.Taken(), 0, rx.end)
    ensures ok && Carried(tx.log, rx.world) ==> Glued(rx.Taken()) == tx.source
    ensures rx.starved ==> !ok && !rx.Spare()
    ensures Works(rx.world) ==> ok || rx.starved
  {
    ok := rx.Run();
    assert rx.receiving == [] ==> rx.Taken() == rx.placed;
    if rx.Spare() { SpareFeedsReceiver(Cuts(rx.start, rx.end, rx.pageSize), rx.pageCount, rx.window, rx.writeDepth, rx.world.direct); }
    if Carried(tx.log, rx.world) {
      StreamArrives(tx, rx, 0);
      FirstAtZero(tx.log, rx.end, tx.source, tx.pageSize);
      assert tx.source[0..] == tx.source;
    }
  }

  method ReceiveAnnounced(tx: Push, rx: Receiver) returns (ok: bool)
    requires tx.pageSize == rx.pageSize > 0 && tx.Valid() && tx.Cut(tx.log) && tx.whole == tx.source
    requires rx.Idle() && 1 <= rx.window && !rx.world.aligned && rx.end == |tx.source|
    modifies rx
    ensures ok ==> rx.Valid() && rx.matchedBytes == 0 && Abut(rx.Taken(), 0, rx.end)
    ensures ok && Carried(tx.log, rx.world) ==> Glued(rx.Taken()) == tx.source
    ensures rx.starved ==> !ok && !rx.Spare()
    ensures Works(rx.world) ==> ok || rx.starved
  {
    var none := Signature(0, 0, 0, []);
    LiteralsFit(tx.log, rx.end, tx.source, tx.pageSize);
    ok := Apply(rx, tx.log, none, [], false);
    NoCopies(tx.log, none);
    BroughtAbut(tx.log, rx.end, rx.world, none, [], tx.source, tx.pageSize);
    if Carried(tx.log, rx.world) {
      BroughtIsTold(tx.log, rx.end, rx.world, none, [], tx.source, tx.pageSize);
      assert tx.source[..rx.end] == tx.source;
    }
  }

  lemma LiteralsFit(log: seq<Sent>, n: nat, source: seq<byte>, pageSize: nat)
    requires Told(log, n, source, pageSize) && forall m :: m in log ==> m.Lit?
    ensures forall m :: m in log ==> |m.data| <= pageSize
  {
    forall m | m in log ensures |m.data| <= pageSize {
      var k :| 0 <= k < |log| && log[k] == m;
      Next(log, n, source, pageSize, k);
    }
  }

  lemma FirstAtZero(log: seq<Sent>, n: nat, source: seq<byte>, pageSize: nat)
    requires Told(log, n, source, pageSize)
    ensures (if 0 < |log| then log[0].at else n) == 0
  {
    ToldPrefix(log, n, source, pageSize, 0);
  }

  lemma {:induction false} NoCopies(log: seq<Sent>, sig: Signature)
    requires forall m :: m in log ==> m.Lit?
    ensures Named(log, sig) == 0
  {
    if log != [] {
      assert log[|log| - 1] in log;
      NoCopies(log[..|log| - 1], sig);
    }
  }
}
