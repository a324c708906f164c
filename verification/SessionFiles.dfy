/**
  A session of many files: the receiver answers each file's end with a receipt,
  and its header with a signature where one is wanted; the sender lets receipts
  run up and reads them late. Every file's pages travel under tags of their own.
 */
module SessionFiles {
  import opened Bytes

  const RECEIPT_WINDOW: nat := 64

  /** What was sent for a file, as each end counts it. */
  datatype Tally = Tally(literal: nat, matched: nat)

  /** A directory or a link is one message without an answer. */
  datatype Item = Plain | File(size: nat, sent: Tally, seen: Tally)

  datatype Reply = SignatureFor(item: nat) | ReceiptFor(item: nat, seen: Tally)

  datatype Awaited = Awaited(item: nat, sent: Tally)

  /** What the first `n` items come to. */
  function Total(items: seq<Item>, n: nat): Tally
    requires n <= |items|
  {
    if n == 0 then Tally(0, 0)
    else if items[n - 1].Plain? then Total(items, n - 1)
    else
      var before, last := Total(items, n - 1), items[n - 1].sent;
      Tally(before.literal + last.literal, before.matched + last.matched)
  }

  predicate Agrees(item: Item) {
    item.File? ==> item.sent == item.seen
  }

  /** The item is a file, and the first on which the two ends disagree. */
  predicate FirstDispute(items: seq<Item>, k: nat) {
    k < |items| && !Agrees(items[k]) && forall i :: 0 <= i < k ==> Agrees(items[i])
  }

  /** The receipts that are due for what is awaited, oldest first. */
  function Due(items: seq<Item>, awaiting: seq<Awaited>): (r: seq<Reply>)
    requires forall a :: a in awaiting ==> a.item < |items| && items[a.item].File?
    ensures |r| == |awaiting|
  {
    seq(|awaiting|, i requires 0 <= i < |awaiting| => ReceiptFor(awaiting[i].item, items[awaiting[i].item].seen))
  }

  class Push {
    const items: seq<Item>
    const wants: bool

    /** Items sent whole. */
    var told: nat
    var awaiting: seq<Awaited>
    /** Replies on their way, in the order the receiver wrote them. */
    var pipe: seq<Reply>
    var report: Tally
    /** Waits for a reply nobody will send. */
    var hung: bool
    /** Got a reply of another kind than the one due. */
    var confused: bool

    constructor (items: seq<Item>, wants: bool)
      ensures this.items == items && this.wants == wants && told == 0 && Settled() && report == Tally(0, 0)
    {
      this.items, this.wants, told, awaiting, pipe := items, wants, 0, [], [];
      report, hung, confused := Tally(0, 0), false, false;
    }

    ghost predicate Awaits(awaiting: seq<Awaited>, k: nat) {
      exists i :: 0 <= i < |awaiting| && awaiting[i].item == k
    }

    /** What is awaited are files already told, in order, each with its own tally; every receipt read so far agreed. */
    ghost predicate InOrder(awaiting: seq<Awaited>, told: nat) {
      && told <= |items|
      && (forall i :: 0 <= i < |awaiting| ==>
          awaiting[i].item < told && items[awaiting[i].item].File? && awaiting[i].sent == items[awaiting[i].item].sent)
      && (forall i, j :: 0 <= i < j < |awaiting| ==> awaiting[i].item < awaiting[j].item)
      && (forall k :: 0 <= k < told && !Agrees(items[k]) ==> Awaits(awaiting, k))
    }

    /** Between items the pipe holds exactly the receipts that are awaited. */
    ghost predicate Settled()
      reads this
    {
      && !hung && !confused && InOrder(awaiting, told) && pipe == Due(items, awaiting)
      && |awaiting| <= RECEIPT_WINDOW
    }

    method ExpectReceipt() returns (ok: bool, seen: Tally)
      modifies this`pipe, this`hung, this`confused
      ensures old(pipe) != [] && old(pipe)[0].ReceiptFor? ==>
        ok && seen == old(pipe)[0].seen && pipe == old(pipe)[1..] && hung == old(hung) && confused == old(confused)
      ensures old(pipe) == [] ==> !ok && hung
      ensures old(pipe) != [] && !old(pipe)[0].ReceiptFor? ==> !ok && confused
    {
      if pipe == [] {
        hung := true;
        return false, Tally(0, 0);
      }
      if !pipe[0].ReceiptFor? {
        confused := true;
        return false, Tally(0, 0);
      }
      seen := pipe[0].seen;
      pipe := pipe[1..];
      return true, seen;
    }

    method ExpectSignature() returns (ok: bool, item: nat)
      modifies this`pipe, this`hung, this`confused
      ensures old(pipe) != [] && old(pipe)[0].SignatureFor? ==>
        ok && item == old(pipe)[0].item && pipe == old(pipe)[1..] && hung == old(hung) && confused == old(confused)
      ensures old(pipe) == [] ==> !ok && hung
      ensures old(pipe) != [] && !old(pipe)[0].SignatureFor? ==> !ok && confused
    {
      if pipe == [] {
        hung := true;
        return false, 0;
      }
      if !pipe[0].SignatureFor? {
        confused := true;
        return false, 0;
      }
      item := pipe[0].item;
      pipe := pipe[1..];
      return true, item;
    }

    lemma FirstDue(awaiting: seq<Awaited>, rest: seq<Reply>)
      requires InOrder(awaiting, told) && awaiting != []
      ensures var pipe := Due(items, awaiting) + rest;
        && pipe[0] == ReceiptFor(awaiting[0].item, items[awaiting[0].item].seen)
        && pipe[1..] == Due(items, awaiting[1..]) + rest
    {
      assert Due(items, awaiting) == [ReceiptFor(awaiting[0].item, items[awaiting[0].item].seen)] + Due(items, awaiting[1..]);
    }

    lemma OneReaped(awaiting: seq<Awaited>, told: nat)
      requires InOrder(awaiting, told) && awaiting != []
      ensures Agrees(items[awaiting[0].item]) ==> InOrder(awaiting[1..], told)
      ensures !Agrees(items[awaiting[0].item]) ==> FirstDispute(items, awaiting[0].item)
    {
      forall k | 0 <= k < told && !Agrees(items[k]) && k != awaiting[0].item
        ensures Awaits(awaiting[1..], k)
      {
        assert Awaits(awaiting, k);
        var i :| 0 <= i < |awaiting| && awaiting[i].item == k;
        assert awaiting[1..][i - 1].item == k;
      }
    }

    /** Reads receipts until at most `keep` are awaited. It fails exactly on one that disagrees, and names the first file that does. */
    method ReapReceipts(keep: nat, ghost rest: seq<Reply>) returns (ok: bool, disputed: nat)
      requires !hung && !confused && InOrder(awaiting, told) && pipe == Due(items, awaiting) + rest
      modifies this`awaiting, this`pipe, this`hung, this`confused
      ensures !hung && !confused
      ensures ok ==> InOrder(awaiting, told) && pipe == Due(items, awaiting) + rest && |awaiting| == Min(old(|awaiting|), keep)
      ensures !ok ==> FirstDispute(items, disputed) && disputed < told
    {
      disputed := 0;
      while |awaiting| > keep
        invariant !hung && !confused && InOrder(awaiting, told) && pipe == Due(items, awaiting) + rest
        invariant |awaiting| <= old(|awaiting|) && (|awaiting| >= keep || |awaiting| == old(|awaiting|))
      {
        FirstDue(awaiting, rest);
        OneReaped(awaiting, told);
        var got, seen := ExpectReceipt();
        if !got { return false, disputed; }
        var expected := awaiting[0];
        awaiting := awaiting[1..];
        if seen != expected.sent { return false, expected.item; }
      }
      return true, disputed;
    }

    /** The header, and the signature that answers it: everything awaited is read first, as it was written first. */
    method ExchangeHeader() returns (ok: bool, disputed: nat)
      requires Settled() && told < |items| && items[told].File?
      modifies this`awaiting, this`pipe, this`hung, this`confused
      ensures !hung && !confused
      ensures ok ==> Settled() && (wants ==> awaiting == [])
      ensures !ok ==> FirstDispute(items, disputed) && disputed < told
    {
      disputed := 0;
      ghost var rest := if wants then [SignatureFor(told)] else [];
      if wants { pipe := pipe + [SignatureFor(told)]; }
      if !wants { return true, disputed; }
      ok, disputed := ReapReceipts(0, rest);
      if !ok { return; }
      var item;
      ok, item := ExpectSignature();
      assert pipe == Due(items, awaiting);
    }

    /** The end of a file: its receipt joins the others, and the oldest are read once too many run up. */
    method Confirm() returns (ok: bool, disputed: nat)
      requires Settled() && told < |items| && items[told].File?
      modifies this`awaiting, this`pipe, this`hung, this`confused, this`told
      ensures !hung && !confused
      ensures ok ==> Settled() && told == old(told) + 1
      ensures !ok ==> FirstDispute(items, disputed)
    {
      OneMoreAwaited(awaiting, told);
      pipe := pipe + [ReceiptFor(told, items[told].seen)];
      awaiting := awaiting + [Awaited(told, items[told].sent)];
      told := told + 1;
      assert pipe == Due(items, awaiting) + [];
      ok, disputed := ReapReceipts(RECEIPT_WINDOW, []);
    }

    lemma OneMoreAwaited(awaiting: seq<Awaited>, told: nat)
      requires InOrder(awaiting, told) && told < |items| && items[told].File?
      ensures var more := awaiting + [Awaited(told, items[told].sent)];
        InOrder(more, told + 1) && Due(items, more) == Due(items, awaiting) + [ReceiptFor(told, items[told].seen)]
    {
      var more := awaiting + [Awaited(told, items[told].sent)];
      forall k | 0 <= k < told + 1 && !Agrees(items[k]) ensures Awaits(more, k) {
        if k == told {
          assert more[|awaiting|].item == k;
        } else {
          assert Awaits(awaiting, k);
          var i :| 0 <= i < |awaiting| && awaiting[i].item == k;
          assert more[i].item == k;
        }
      }
    }

    lemma PlainTold(awaiting: seq<Awaited>, told: nat)
      requires InOrder(awaiting, told) && told < |items| && items[told].Plain?
      ensures InOrder(awaiting, told + 1)
    {
      forall k | 0 <= k < told + 1 && !Agrees(items[k]) ensures Awaits(awaiting, k) {}
    }

    /** One file: its header, its payload and its end. */
    method PushFile() returns (ok: bool, disputed: nat)
      requires Settled() && told < |items| && items[told].File?
      modifies this`awaiting, this`pipe, this`hung, this`confused, this`told, this`report
      ensures !hung && !confused
      ensures ok ==> Settled() && told == old(told) + 1
      ensures ok ==> var sent := items[old(told)].sent;
        report.literal == old(report).literal + sent.literal && report.matched == old(report).matched + sent.matched
      ensures !ok ==> FirstDispute(items, disputed)
    {
      var sent := items[told].sent;
      ok, disputed := ExchangeHeader();
      if !ok { return; }
      ok, disputed := Confirm();
      if !ok { return; }
      report := Tally(report.literal + sent.literal, report.matched + sent.matched);
    }

    method PushOne() returns (ok: bool, disputed: nat)
      requires Settled() && told < |items| && report == Total(items, told)
      modifies this
      ensures !hung && !confused
      ensures ok ==> Settled() && told == old(told) + 1 && report == Total(items, told)
      ensures !ok ==> FirstDispute(items, disputed)
    {
      disputed := 0;
      if items[told].Plain? {
        PlainTold(awaiting, told);
        told := told + 1;
        return true, disputed;
      }
      ok, disputed := PushFile();
    }

    /**
      The whole session. Every reply the sender waits for comes, and is the one it
      waits for; each receipt is held against its own file; and the session fails
      exactly when some file's tallies differ, naming the first one.
     */
    method Carry() returns (ok: bool, disputed: nat)
      requires told == 0 && Settled() && report == Tally(0, 0)
      modifies this
      ensures !hung && !confused
      ensures ok <==> forall k :: 0 <= k < |items| && items[k].File? ==> items[k].sent == items[k].seen
      ensures ok ==> awaiting == [] && pipe == [] && report == Total(items, |items|)
      ensures !ok ==>
        && disputed < |items| && items[disputed].File? && items[disputed].sent != items[disputed].seen
        && forall k :: 0 <= k < disputed && items[k].File? ==> items[k].sent == items[k].seen
    {
      while told < |items|
        invariant Settled() && report == Total(items, told)
        decreases |items| - told
      {
        ok, disputed := PushOne();
        if !ok { return; }
      }
      assert pipe == Due(items, awaiting) + [];
      ok, disputed := ReapReceipts(0, []);
      if ok { AllAgree(told); }
    }

    lemma AllAgree(told: nat)
      requires InOrder([], told)
      ensures forall k :: 0 <= k < told ==> Agrees(items[k])
    {
      forall k: nat | k < told ensures Agrees(items[k]) { assert !Awaits([], k); }
    }
  }

  // ----- Tags -----

  function TagSpan(size: nat, pageSize: nat): (n: nat)
    requires pageSize > 0
    ensures size + pageSize <= n < size + 2 * pageSize
  {
    ((size + pageSize - 1) / pageSize + 1) * pageSize
  }

  function SpanOf(item: Item, pageSize: nat): nat
    requires pageSize > 0
  {
    if item.File? then TagSpan(item.size, pageSize) else 0
  }

  /** Where the tags of the next item start: past those of every file before it. */
  function TagBase(items: seq<Item>, pageSize: nat): nat
    requires pageSize > 0
  {
    if items == [] then 0 else TagBase(items[..|items| - 1], pageSize) + SpanOf(items[|items| - 1], pageSize)
  }

  /** The tags of a file all come before those of any later one. */
  lemma {:induction false} TagsGoUp(items: seq<Item>, pageSize: nat, i: nat, a: nat, j: nat)
    requires pageSize > 0 && i < j <= |items| && items[i].File? && a < items[i].size
    ensures TagBase(items[..i], pageSize) + a < TagBase(items[..j], pageSize)
  {
    assert items[..j][..j - 1] == items[..j - 1];
    if i < j - 1 { TagsGoUp(items, pageSize, i, a, j - 1); }
  }

  lemma LowTag(x: nat)
    requires x < U64
    ensures x % U64 == x
  {
  }

  /** No two pages of a session share a tag, as long as the tags do not run past the 64 bits they have. */
  lemma TagsAreApart(items: seq<Item>, pageSize: nat, i: nat, a: nat, j: nat, b: nat)
    requires pageSize > 0 && TagBase(items, pageSize) <= U64
    requires i < |items| && items[i].File? && a < items[i].size
    requires j < |items| && items[j].File? && b < items[j].size
    ensures (TagBase(items[..i], pageSize) + a) % U64 == (TagBase(items[..j], pageSize) + b) % U64 ==> i == j && a == b
  {
    TagsGoUp(items, pageSize, i, a, |items|);
    TagsGoUp(items, pageSize, j, b, |items|);
    assert items[..|items|] == items;
    LowTag(TagBase(items[..i], pageSize) + a);
    LowTag(TagBase(items[..j], pageSize) + b);
    if i < j { TagsGoUp(items, pageSize, i, a, j); }
    if j < i { TagsGoUp(items, pageSize, j, b, i); }
  }
}
