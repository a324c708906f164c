/** A send waits until the adapter has finished with its page, and no longer. */
module RdmaSends {
  import opened RdmaChannel
  import opened RdmaTransfer
  import opened RdmaPolling

  /** A page being written for a send, or the completion that tells it so. */
  predicate Numbered(w: Wire) {
    w.PagePosted? || w.SendDone?
  }

  ghost predicate OnItsWay(wire: map<nat, Wire>, id: nat) {
    exists a :: a in wire && Numbered(wire[a]) && wire[a].id == id
  }

  /** Whatever has an id is awaited under it, under no other, and until it comes. */
  ghost predicate Awaited(wire: map<nat, Wire>, sent: map<nat, bool>) {
    && (forall a :: a in wire && Numbered(wire[a]) ==> wire[a].id in sent && !sent[wire[a].id])
    && (forall a, b :: a in wire && b in wire && a != b && Numbered(wire[a]) && Numbered(wire[b]) ==> wire[a].id != wire[b].id)
    && (forall id :: id in sent && !sent[id] ==> OnItsWay(wire, id))
  }

  ghost predicate Books(wire: map<nat, Wire>, next: nat, sent: map<nat, bool>, posted: nat) {
    (forall a :: a in wire ==> a < next) && (forall id :: id in sent ==> id <= posted) && Awaited(wire, sent)
  }

  ghost predicate SendsOk(s: System) {
    Shaped(s) && Books(s.wire, s.next, s.tx.sent, s.tx.posted)
  }

  /** What has no id does not matter, and neither does a send that was told. */
  lemma SameBooks(
    wire: map<nat, Wire>, next: nat, sent: map<nat, bool>, posted: nat,
    wire': map<nat, Wire>, next': nat, sent': map<nat, bool>)
    requires Books(wire, next, sent, posted) && (forall a :: a in wire' ==> a < next')
    requires forall id :: id in sent' ==> id in sent && sent'[id] == sent[id]
    requires forall id :: id in sent && !sent[id] ==> id in sent'
    requires forall a :: a in wire' && Numbered(wire'[a]) ==> a in wire && wire'[a] == wire[a]
    requires forall a :: a in wire && Numbered(wire[a]) ==> a in wire' && wire'[a] == wire[a]
    ensures Books(wire', next', sent', posted)
  {
    forall id | id in sent' && !sent'[id] ensures OnItsWay(wire', id) {
      var a :| a in wire && Numbered(wire[a]) && wire[a].id == id;
      assert wire'[a] == wire[a];
    }
  }

  /** A page posted under an id of its own. */
  lemma PostBooks(wire: map<nat, Wire>, next: nat, sent: map<nat, bool>, posted: nat, w: Wire)
    requires Books(wire, next, sent, posted) && w.PagePosted? && w.id == posted + 1
    ensures Books(wire[next := w], next + 1, sent[posted + 1 := false], posted + 1)
  {
    var wire', sent' := wire[next := w], sent[posted + 1 := false];
    forall id | id in sent' && !sent'[id] ensures OnItsWay(wire', id) {
      if id == posted + 1 {
        assert wire'[next].id == id;
      } else {
        var a :| a in wire && Numbered(wire[a]) && wire[a].id == id;
        assert wire'[a] == wire[a];
      }
    }
  }

  /** What a claim changes of the books: nothing, or one page posted. */
  lemma Claims(s: System, key: Key)
    requires Shaped(s) && Enabled(s, Claim(key))
    ensures var t, page := Next(s, Claim(key)), s.waiting[key];
      var id, record := s.tx.posted + 1, s.tx.held[key][0];
      if |page| > record.length then
        t.wire == s.wire && t.next == s.next && t.tx.sent == s.tx.sent && t.tx.posted == s.tx.posted
      else
        && t.wire == s.wire[s.next := PagePosted(record.slot, record.addr, page, id)] && t.next == s.next + 1
        && t.tx.sent == s.tx.sent[id := false] && t.tx.posted == id
  {
  }

  lemma ClaimSends(s: System, key: Key)
    requires SendsOk(s) && Enabled(s, Claim(key))
    ensures var t := Next(s, Claim(key)); Books(t.wire, t.next, t.tx.sent, t.tx.posted)
  {
    Claims(s, key);
    var record, page := s.tx.held[key][0], s.waiting[key];
    PostBooks(s.wire, s.next, s.tx.sent, s.tx.posted, PagePosted(record.slot, record.addr, page, s.tx.posted + 1));
  }

  lemma CarrySends(s: System, w: nat)
    requires SendsOk(s) && Enabled(s, RailCarriesPage(w))
    ensures SendsOk(Next(s, RailCarriesPage(w)))
  {
    var t := Next(s, RailCarriesPage(w));
    forall id | id in t.tx.sent && !t.tx.sent[id] ensures OnItsWay(t.wire, id) {
      var a :| a in s.wire && Numbered(s.wire[a]) && s.wire[a].id == id;
      assert if a == w then t.wire[s.next] == SendDone(id) else t.wire[a] == s.wire[a];
    }
  }

  lemma PollSends(s: System, w: nat)
    requires SendsOk(s) && Enabled(s, PollSent(w))
    ensures SendsOk(Next(s, PollSent(w)))
  {
    var t := Next(s, PollSent(w));
    forall id | id in t.tx.sent && !t.tx.sent[id] ensures OnItsWay(t.wire, id) {
      var a :| a in s.wire && Numbered(s.wire[a]) && s.wire[a].id == id;
      assert a != w && t.wire[a] == s.wire[a];
    }
  }

  /** A step that neither posts a page nor hears of one leaves the sends as they were. */
  lemma OtherSends(s: System, step: Step)
    requires SendsOk(s) && Enabled(s, step) && !step.Claim? && !step.RailCarriesPage? && !step.PollSent?
    ensures var t := Next(s, step); Books(t.wire, t.next, t.tx.sent, t.tx.posted)
  {
    var t := Next(s, step);
    SameBooks(s.wire, s.next, s.tx.sent, s.tx.posted, t.wire, t.next, t.tx.sent);
  }

  lemma StepSends(s: System, step: Step)
    requires SendsOk(s) && Enabled(s, step)
    ensures SendsOk(Next(s, step))
  {
    StepShaped(s, step);
    match step
    case Claim(key) => ClaimSends(s, key);
    case RailCarriesPage(w) => CarrySends(s, w);
    case PollSent(w) => PollSends(s, w);
    case _ => OtherSends(s, step);
  }

  lemma {:induction false} RunSends(s: System, steps: seq<Step>, t: System)
    requires SendsOk(s) && Runs(s, steps, t)
    ensures SendsOk(t)
    decreases steps
  {
    if steps != [] {
      StepSends(s, steps[0]);
      RunSends(Next(s, steps[0]), steps[1..], t);
    }
  }

  lemma ReachedSends(s: System)
    requires Reached(s)
    ensures SendsOk(s)
  {
    var memory, steps :| Runs(Init(memory), steps, s);
    FreshIsShaped();
    RunSends(Init(memory), steps, s);
  }

  /**
    In every run, failed receives or not, a send may return exactly when its page
    has been written and the completion has been heard: never while the adapter
    may still read the page.
   */
  lemma SendReturnsExactly(s: System, id: nat)
    requires Reached(s) && id in s.tx.sent
    ensures Shaped(s) && (Enabled(s, SendReturns(id)) <==> !OnItsWay(s.wire, id))
  {
    ReachedSends(s);
  }

  ghost predicate CanReturn(s: System, id: nat) {
    exists steps, t :: Runs(s, steps, t) && Shaped(t) && Enabled(t, SendReturns(id))
  }

  lemma ReturnsAfter(s: System, step: Step, id: nat)
    requires Shaped(s) && Enabled(s, step) && CanReturn(Next(s, step), id)
    ensures CanReturn(s, id)
  {
    var rest, t :| Runs(Next(s, step), rest, t) && Shaped(t) && Enabled(t, SendReturns(id));
    StepFirst(s, step, rest, t);
  }

  lemma HeardReturns(s: System, a: nat)
    requires SendsOk(s) && a in s.wire && s.wire[a].SendDone?
    ensures CanReturn(s, s.wire[a].id)
  {
    var t := Next(s, PollSent(a));
    StepShaped(s, PollSent(a));
    assert Runs(t, [], t) && Enabled(t, SendReturns(s.wire[a].id));
    ReturnsAfter(s, PollSent(a), s.wire[a].id);
  }

  /** And no send waits in vain: without a failed receive each one's page can still be written, and the send return. */
  lemma SendsCanReturn(s: System, id: nat)
    requires ReachedSafely(s) && id in s.tx.sent
    ensures CanReturn(s, id)
  {
    ReachedHolds(s);
    assert Reached(s);
    ReachedSends(s);
    if s.tx.sent[id] {
      assert Runs(s, [], s) && Enabled(s, SendReturns(id));
    } else {
      var a :| a in s.wire && Numbered(s.wire[a]) && s.wire[a].id == id;
      if s.wire[a].SendDone? {
        HeardReturns(s, a);
      } else {
        assert WireOk(s, s.wire[a]) && SlotOk(s, s.wire[a].slot);
        var t := Next(s, RailCarriesPage(a));
        CarrySends(s, a);
        assert t.wire[s.next] == SendDone(id);
        HeardReturns(t, s.next);
        ReturnsAfter(s, RailCarriesPage(a), id);
      }
    }
  }
}
