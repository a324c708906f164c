/**
  What an end polls is what the interleavings step by. An end sends in one
  direction and receives in the other, and one queue reports on both.
 */
module RdmaPolling {
  import opened RdmaChannel
  import opened RdmaTransfer

  /** A queue entry: of the direction this end sends in, of the one it receives in, or an error. */
  datatype Entry = Outgoing(w: nat) | Incoming(w: nat) | Broken

  /** What reports a write that has landed: the immediate it was posted with, or the id of a finished send. */
  function Report(w: Wire): Completion
    requires !w.OfferPosted? && !w.PagePosted?
  {
    match w
    case OfferLanded(slot) => Arrived(IS_CTS + slot)
    case PageLanded(slot) => Arrived(slot)
    case SendDone(id) => Finished(id)
  }

  function Poll(wire: Wire, w: nat): Step
    requires !wire.OfferPosted? && !wire.PagePosted?
  {
    match wire
    case OfferLanded(_) => PollOffer(w)
    case PageLanded(_) => PollPage(w)
    case SendDone(_) => PollSent(w)
  }

  /** The sending end polls offers and its own finished sends, the receiving end polls pages. */
  predicate Polls(out: System, back: System, entry: Entry, c: Completion) {
    match entry
    case Outgoing(w) =>
      w in out.wire && (out.wire[w].OfferLanded? || out.wire[w].SendDone?) && c == Report(out.wire[w])
    case Incoming(w) => w in back.wire && back.wire[w].PageLanded? && c == Report(back.wire[w])
    case Broken => c == Failed
  }

  ghost predicate PollsAll(out: System, back: System, entries: seq<Entry>, batch: seq<Completion>) {
    && |entries| == |batch|
    && (forall i :: 0 <= i < |batch| ==> Polls(out, back, entries[i], batch[i]))
    && (forall i, j :: 0 <= i < j < |batch| && !entries[i].Broken? ==> entries[i] != entries[j])
  }

  // ----- Every slot named anywhere is one of the ring's -----

  ghost predicate RecordsFit(tx: Sender, rx: Receiver) {
    && (forall r :: r in rx.staged ==> r.slot < SLOTS) && (forall r :: r in tx.ring ==> r.slot < SLOTS)
    && (forall k, r :: k in tx.held && r in tx.held[k] ==> r.slot < SLOTS)
  }

  predicate WireFits(wire: map<nat, Wire>) {
    forall a :: a in wire && !wire[a].SendDone? ==> wire[a].slot < SLOTS
  }

  /** Whatever has failed before. */
  ghost predicate SlotsFit(s: System) {
    Shaped(s) && RecordsFit(s.tx, s.rx) && WireFits(s.wire)
  }

  lemma InitFits(memory: map<Address, Page>)
    ensures SlotsFit(Init(memory))
  {
    FreshIsShaped();
  }

  lemma StepShaped(s: System, step: Step)
    requires Shaped(s) && Enabled(s, step)
    ensures Shaped(Next(s, step))
  {
    match step
    case Recv(addr, key, length) => TakeIsShaped(s.rx, addr, key, length);
    case RecvReturns(slot) => ReleaseIsShaped(s.rx, slot);
    case RecvFails(slot) => ReleaseIsShaped(s.rx, slot);
    case _ =>
  }

  lemma RecordsStayFit(s: System, step: Step)
    requires SlotsFit(s) && Enabled(s, step)
    ensures RecordsFit(Next(s, step).tx, Next(s, step).rx)
  {
    match step
    case RailCarriesOffer(w) => assert s.rx.staged[s.wire[w].slot] in s.rx.staged;
    case PollOffer(w) => OfferFits(s.tx, s.rx, s.wire[w].slot);
    case Claim(key) => HarvestFits(s.tx, s.rx, key);
    case _ =>
  }

  lemma OfferFits(tx: Sender, rx: Receiver, slot: nat)
    requires |tx.ring| == SLOTS && RecordsFit(tx, rx)
    ensures RecordsFit(OfferCame(tx, slot), rx)
  {
    if slot < SLOTS { assert tx.ring[slot] in tx.ring; }
  }

  lemma HarvestFits(tx: Sender, rx: Receiver, key: Key)
    requires key in tx.held && tx.held[key] != [] && RecordsFit(tx, rx)
    ensures RecordsFit(Harvested(tx, key), rx)
  {
  }

  lemma WireStaysFit(s: System, step: Step)
    requires SlotsFit(s) && Enabled(s, step)
    ensures WireFits(Next(s, step).wire)
  {
    if step.Claim? { assert s.tx.held[step.key][0] in s.tx.held[step.key]; }
  }

  lemma StepFits(s: System, step: Step)
    requires SlotsFit(s) && Enabled(s, step)
    ensures SlotsFit(Next(s, step))
  {
    StepShaped(s, step);
    RecordsStayFit(s, step);
    WireStaysFit(s, step);
  }

  lemma {:induction false} RunFits(s: System, steps: seq<Step>, t: System)
    requires SlotsFit(s) && Runs(s, steps, t)
    ensures SlotsFit(t)
    decreases steps
  {
    if steps != [] {
      StepFits(s, steps[0]);
      RunFits(Next(s, steps[0]), steps[1..], t);
    }
  }

  // ----- One completion, one step -----

  /** Absorbing a report steps the direction it comes from and leaves the other alone. */
  lemma AbsorbIsPoll(out: System, back: System, e: Endpoint, entry: Entry, c: Completion)
    requires SlotsFit(out) && SlotsFit(back) && e.tx == out.tx && e.rx == back.rx && Polls(out, back, entry, c)
    ensures match entry
      case Outgoing(w) =>
        var step := Poll(out.wire[w], w);
        Enabled(out, step) && Absorb(e, c) == e.(tx := Next(out, step).tx) && Next(out, step).rx == out.rx
        && Next(out, step).wire == out.wire - {w}
      case Incoming(w) =>
        var step := Poll(back.wire[w], w);
        Enabled(back, step) && Absorb(e, c) == e.(rx := Next(back, step).rx) && Next(back, step).tx == back.tx
        && Next(back, step).wire == back.wire - {w}
      case Broken => Absorb(e, c) == e.(failed := true)
  {
  }

  // ----- A batch is a run of polls in each direction -----

  predicate IsPoll(step: Step) {
    step.PollOffer? || step.PollPage? || step.PollSent?
  }

  predicate OnlyPolls(steps: seq<Step>) {
    forall i :: 0 <= i < |steps| ==> IsPoll(steps[i])
  }

  ghost predicate PolledTo(s: System, t: System) {
    exists steps :: Runs(s, steps, t) && OnlyPolls(steps)
  }

  lemma NonePolled(s: System)
    ensures PolledTo(s, s)
  {
    assert Runs(s, [], s) && OnlyPolls([]);
  }

  lemma OnePolled(s: System, step: Step)
    requires Shaped(s) && Enabled(s, step) && IsPoll(step)
    ensures PolledTo(s, Next(s, step))
  {
    StepFirst(s, step, [], Next(s, step));
    assert OnlyPolls([step] + []);
  }

  lemma PolledOn(s: System, t: System, u: System)
    requires PolledTo(s, t) && PolledTo(t, u)
    ensures PolledTo(s, u)
  {
    var first :| Runs(s, first, t) && OnlyPolls(first);
    var rest :| Runs(t, rest, u) && OnlyPolls(rest);
    RunOn(s, first, t, rest, u);
    assert OnlyPolls(first + rest);
  }

  /** Entries are of distinct writes, so polling one leaves the rest to be polled. */
  lemma RestPolls(out: System, back: System, next: System, last: System, entries: seq<Entry>, batch: seq<Completion>)
    requires PollsAll(out, back, entries, batch) && batch != []
    requires match entries[0]
      case Outgoing(w) => next.wire == out.wire - {w} && last == back
      case Incoming(w) => next == out && last.wire == back.wire - {w}
      case Broken => next == out && last == back
    ensures PollsAll(next, last, entries[1..], batch[1..])
  {
    forall i | 0 <= i < |batch| - 1 ensures Polls(next, last, entries[1..][i], batch[1..][i]) {
      assert Polls(out, back, entries[i + 1], batch[i + 1]);
    }
  }

  lemma FirstPolled(out: System, back: System, e: Endpoint, entries: seq<Entry>, batch: seq<Completion>)
    returns (out': System, back': System)
    requires SlotsFit(out) && SlotsFit(back) && e.tx == out.tx && e.rx == back.rx
    requires PollsAll(out, back, entries, batch) && batch != []
    ensures SlotsFit(out') && SlotsFit(back') && PollsAll(out', back', entries[1..], batch[1..])
    ensures PolledTo(out, out') && PolledTo(back, back')
    ensures Absorb(e, batch[0]) == Endpoint(back'.rx, out'.tx, e.failed || batch[0].Failed?)
  {
    out', back' := out, back;
    NonePolled(out);
    NonePolled(back);
    assert Polls(out, back, entries[0], batch[0]);
    AbsorbIsPoll(out, back, e, entries[0], batch[0]);
    match entries[0] {
      case Outgoing(w) =>
        var step := Poll(out.wire[w], w);
        StepFits(out, step);
        OnePolled(out, step);
        out' := Next(out, step);
      case Incoming(w) =>
        var step := Poll(back.wire[w], w);
        StepFits(back, step);
        OnePolled(back, step);
        back' := Next(back, step);
      case Broken =>
    }
    RestPolls(out, back, out', back', entries, batch);
  }

  lemma {:induction false} RunOn(s: System, first: seq<Step>, t: System, rest: seq<Step>, u: System)
    requires Runs(s, first, t) && Runs(t, rest, u)
    ensures Runs(s, first + rest, u)
    decreases first
  {
    if first == [] {
      assert first + rest == rest;
    } else {
      RunOn(Next(s, first[0]), first[1..], t, rest, u);
      assert (first + rest)[1..] == first[1..] + rest;
    }
  }

  /**
    Draining a queue that reports on both directions polls each as the
    interleavings do, and raises the failure exactly on an error.
   */
  lemma {:induction false} DrainIsPolling(out: System, back: System, e: Endpoint, entries: seq<Entry>, batch: seq<Completion>)
    returns (out': System, back': System)
    requires SlotsFit(out) && SlotsFit(back) && e.tx == out.tx && e.rx == back.rx && PollsAll(out, back, entries, batch)
    ensures PolledTo(out, out') && PolledTo(back, back')
    ensures AbsorbAll(e, batch) == Endpoint(back'.rx, out'.tx, e.failed || Failed in batch)
    decreases batch
  {
    if batch == [] {
      NonePolled(out);
      NonePolled(back);
      return out, back;
    }
    var o, b := FirstPolled(out, back, e, entries, batch);
    out', back' := DrainIsPolling(o, b, Absorb(e, batch[0]), entries[1..], batch[1..]);
    PolledOn(out, o, out');
    PolledOn(back, b, back');
    assert batch == [batch[0]] + batch[1..];
  }

  lemma {:induction false} PollsSpareMemory(s: System, steps: seq<Step>, t: System)
    requires Runs(s, steps, t) && OnlyPolls(steps)
    ensures t.memory == s.memory
    decreases steps
  {
    if steps != [] {
      assert IsPoll(steps[0]);
      PollsSpareMemory(Next(s, steps[0]), steps[1..], t);
    }
  }

  lemma PolledKeeps(s: System, t: System)
    requires Inv(s) && PolledTo(s, t)
    ensures Inv(t) && t.memory == s.memory
  {
    var steps: seq<Step> :| Runs(s, steps, t) && OnlyPolls(steps);
    PollsSpareMemory(s, steps, t);
    forall i: nat | i < |steps| ensures !steps[i].RecvFails? { assert IsPoll(steps[i]); }
    RunKeeps(s, steps, t);
  }

  ghost predicate Reached(s: System) {
    exists memory, steps :: Runs(Init(memory), steps, s)
  }

  ghost predicate ReachedSafely(s: System) {
    exists memory, steps :: Runs(Init(memory), steps, s) && NoFailure(steps)
  }

  lemma ReachedFits(s: System)
    requires Reached(s)
    ensures SlotsFit(s)
  {
    var memory, steps :| Runs(Init(memory), steps, s);
    InitFits(memory);
    RunFits(Init(memory), steps, s);
  }

  lemma ReachedHolds(s: System)
    requires ReachedSafely(s)
    ensures Inv(s) && SlotsFit(s)
  {
    var memory, steps :| Runs(Init(memory), steps, s) && NoFailure(steps);
    InitHolds(memory);
    RunKeeps(Init(memory), steps, s);
    assert Reached(s);
    ReachedFits(s);
  }

  /**
    So what is promised of receives holds of an end that drains its queue: after
    any batch, a receive marked done has the page of its key and turn.
   */
  lemma DrainedReceivesHoldTheirPages(
      out: System, back: System, e: Endpoint, entries: seq<Entry>, batch: seq<Completion>, slot: nat)
    returns (back': System)
    requires Reached(out) && ReachedSafely(back) && Shaped(out) && Shaped(back)
    requires e.tx == out.tx && e.rx == back.rx && PollsAll(out, back, entries, batch)
    requires slot < SLOTS && var w := AbsorbAll(e, batch).rx.landing[slot]; w.Waiting? && w.done
    ensures PolledTo(back, back') && back'.rx == AbsorbAll(e, batch).rx && back'.memory == back.memory
    ensures Delivered(back', slot)
  {
    ReachedFits(out);
    ReachedHolds(back);
    var out', last := DrainIsPolling(out, back, e, entries, batch);
    back' := last;
    PolledKeeps(back, back');
    assert Busy(back', slot) && SlotOk(back', slot);
  }
}
