/** No record and no page is lost: an unanswered receive can always be completed. */
module RdmaProgress {
  import opened RdmaChannel
  import opened RdmaTransfer

  /** Something is on its way for this slot: a record in flight, in the ring or held, or its page. */
  ghost predicate TokenOut(s: System, slot: nat) {
    OnWire(s, slot) || InHand(s, slot)
  }

  ghost predicate OnWire(s: System, slot: nat) {
    exists a :: a in s.wire && Names(s.wire[a], slot)
  }

  ghost predicate InHand(s: System, slot: nat) {
    exists k :: k in s.tx.held && HandNames(s, k, slot)
  }

  predicate HandNames(s: System, k: Key, slot: nat)
    requires k in s.tx.held
  {
    s.tx.held[k] != [] && s.tx.held[k][0].slot == slot
  }

  /** The send that took this slot's record had a page too long for it, and gave up. */
  predicate Refused(s: System, slot: nat) {
    Taken(s, slot) && |PageFor(s, slot)| > s.rx.landing[slot].room
  }

  /** Every receive that is not done has its token out, unless its send was refused. */
  ghost predicate Served(s: System) {
    forall slot: nat :: Busy(s, slot) && !s.rx.landing[slot].done && !Refused(s, slot) ==> TokenOut(s, slot)
  }

  /** A slot whose history did not change keeps its token while the tokens stay. */
  lemma StillOut(s: System, t: System, slot: nat, gone: nat)
    requires TokenOut(s, slot)
    requires forall a :: a in s.wire && a != gone && Names(s.wire[a], slot) ==> a in t.wire && Names(t.wire[a], slot)
    requires forall k :: k in s.tx.held && HandNames(s, k, slot) ==> k in t.tx.held && HandNames(t, k, slot)
    requires gone in s.wire && Names(s.wire[gone], slot) ==> TokenOut(t, slot)
    ensures TokenOut(t, slot)
  {
    if OnWire(s, slot) {
      var a :| a in s.wire && Names(s.wire[a], slot);
      if a != gone { assert Names(t.wire[a], slot); }
    } else {
      var k :| k in s.tx.held && HandNames(s, k, slot);
      assert HandNames(t, k, slot);
    }
  }

  lemma RefusedCarries(s: System, t: System, slot: nat)
    requires Busy(s, slot) && t.rx.landing == s.rx.landing && t.turn == s.turn
    requires var k := s.rx.landing[slot].key; Count(t.claims, k) == Count(s.claims, k) && Given(s, k) <= Given(t, k)
    ensures Refused(s, slot) ==> Refused(t, slot)
  {
  }

  lemma ClaimServes(s: System, key: Key)
    requires Inv(s) && Served(s) && Enabled(s, Claim(key))
    ensures Served(Next(s, Claim(key)))
  {
    var t := Next(s, Claim(key));
    assert HeldOk(s, key) && KeyOk(s, key);
    var slot := s.tx.held[key][0].slot;
    ClaimFrame(s, key);
    ClaimTakes(s, key, slot);
    forall b: nat | Busy(t, b) && !t.rx.landing[b].done && !Refused(t, b) ensures TokenOut(t, b) {
      if b == slot {
        assert s.next in t.wire && Names(t.wire[s.next], slot);
      } else {
        RefusedCarries(s, t, b);
        assert TokenOut(s, b);
        assert !HandNames(s, key, b);
        StillOut(s, t, b, s.next);
      }
    }
  }

  lemma RecvServes(s: System, addr: Address, key: Key, length: nat)
    requires Inv(s) && Served(s) && Enabled(s, Recv(addr, key, length))
    ensures Served(Next(s, Recv(addr, key, length)))
  {
    var t := Next(s, Recv(addr, key, length));
    var slot := s.rx.free[|s.rx.free| - 1];
    forall b: nat | Busy(t, b) && !t.rx.landing[b].done && !Refused(t, b) ensures TokenOut(t, b) {
      if b == slot {
        assert s.next in t.wire && Names(t.wire[s.next], slot);
      } else {
        assert Busy(s, b) && TokenOut(s, b);
        StillOut(s, t, b, s.next);
      }
    }
  }

  lemma PollOfferServes(s: System, w: nat)
    requires Inv(s) && Served(s) && Enabled(s, PollOffer(w))
    ensures Served(Next(s, PollOffer(w)))
  {
    var t := Next(s, PollOffer(w));
    var slot := s.wire[w].slot;
    assert WireOk(s, s.wire[w]);
    var key := s.tx.ring[slot].key;
    NotYetHeld(s, w);
    assert t.tx.held[key] == [s.tx.ring[slot]];
    forall b: nat | Busy(t, b) && !t.rx.landing[b].done && !Refused(t, b) ensures TokenOut(t, b) {
      RefusedCarries(s, t, b);
      assert TokenOut(s, b);
      if b == slot { assert HandNames(t, key, slot); }
      StillOut(s, t, b, w);
    }
  }

  /** A rail's step leaves another token for the same slot in the old one's place. */
  lemma RailServes(s: System, step: Step)
    requires Inv(s) && Served(s) && Enabled(s, step) && (step.RailCarriesOffer? || step.RailCarriesPage?)
    ensures Served(Next(s, step))
  {
    assert WireOk(s, s.wire[step.w]);
    RailMoves(s, Next(s, step), step.w);
  }

  /** A token that moves along a rail is still out. */
  lemma RailMoves(s: System, t: System, w: nat)
    requires Served(s) && t.rx == s.rx && t.tx.held == s.tx.held && w in s.wire && w in t.wire && !s.wire[w].SendDone? && !t.wire[w].SendDone?
    requires t.wire[w].slot == s.wire[w].slot && forall a :: a in s.wire && a != w ==> a in t.wire && t.wire[a] == s.wire[a]
    requires forall b: nat :: Busy(t, b) && Refused(s, b) ==> Refused(t, b)
    ensures Served(t)
  {
    forall b: nat | Busy(t, b) && !t.rx.landing[b].done && !Refused(t, b) ensures TokenOut(t, b) {
      assert TokenOut(s, b);
      if s.wire[w].slot == b { assert Names(t.wire[w], b); }
      StillOut(s, t, b, w);
    }
  }

  /** A completion polled marks its receive done, or was nobody's token. */
  lemma PollServes(s: System, step: Step)
    requires Inv(s) && Served(s) && Enabled(s, step) && (step.PollPage? || step.PollSent?)
    ensures Served(Next(s, step))
  {
    var t, w := Next(s, step), step.w;
    assert WireOk(s, s.wire[w]);
    forall b: nat | Busy(t, b) && !t.rx.landing[b].done && !Refused(t, b) ensures TokenOut(t, b) {
      assert Busy(s, b) && t.rx.landing[b] == s.rx.landing[b];
      assert TokenOut(s, b);
      StillOut(s, t, b, w);
    }
  }

  lemma ReturnServes(s: System, slot: nat)
    requires Inv(s) && Served(s) && Enabled(s, RecvReturns(slot))
    ensures Served(Next(s, RecvReturns(slot)))
  {
    var t := Next(s, RecvReturns(slot));
    forall b: nat | Busy(t, b) && !t.rx.landing[b].done && !Refused(t, b) ensures TokenOut(t, b) {
      assert Busy(s, b) && TokenOut(s, b);
      StillOut(s, t, b, s.next);
    }
  }

  lemma StepServes(s: System, step: Step)
    requires Inv(s) && Served(s) && Enabled(s, step) && !step.RecvFails?
    ensures Served(Next(s, step))
  {
    match step
    case Recv(addr, key, length) => RecvServes(s, addr, key, length);
    case PollOffer(w) => PollOfferServes(s, w);
    case Claim(key) => ClaimServes(s, key);
    case RecvReturns(slot) => ReturnServes(s, slot);
    case Send(_, _) =>
      var t := Next(s, step);
      forall b: nat | Busy(t, b) && !t.rx.landing[b].done && !Refused(t, b) ensures TokenOut(t, b) {
        RefusedCarries(s, t, b);
        assert TokenOut(s, b);
        StillOut(s, t, b, s.next);
      }
    case SendReturns(_) =>
      var t := Next(s, step);
      forall b: nat | Busy(t, b) && !t.rx.landing[b].done && !Refused(t, b) ensures TokenOut(t, b) {
        assert TokenOut(s, b);
        StillOut(s, t, b, s.next);
      }
    case RailCarriesOffer(_) => RailServes(s, step);
    case RailCarriesPage(_) => RailServes(s, step);
    case PollPage(_) => PollServes(s, step);
    case PollSent(_) => PollServes(s, step);
  }

  /** In every run without a failed receive each receive that is not done has exactly one token out. */
  lemma {:induction false} RunServes(s: System, steps: seq<Step>, t: System)
    requires Inv(s) && Served(s) && Runs(s, steps, t) && NoFailure(steps)
    ensures Inv(t) && Served(t)
    decreases steps
  {
    if steps != [] {
      StepKeeps(s, steps[0]);
      StepServes(s, steps[0]);
      RunServes(Next(s, steps[0]), steps[1..], t);
    }
  }

  lemma InitServes(memory: map<Address, Page>)
    ensures Inv(Init(memory)) && Served(Init(memory))
  {
    InitHolds(memory);
  }

  // ----- A receive whose send was given can be completed -----

  /** A receive still waiting although the page for it has been given to a send. */
  predicate Due(s: System, slot: nat) {
    && Busy(s, slot) && !s.rx.landing[slot].done && slot < |s.turn|
    && s.turn[slot] < |Given(s, s.rx.landing[slot].key)|
  }

  function DuePage(s: System, slot: nat): Page
    requires Due(s, slot)
  {
    Given(s, s.rx.landing[slot].key)[s.turn[slot]]
  }

  /** Some run without a failure completes this very receive. */
  ghost predicate CanComplete(s: System, slot: nat)
    requires Busy(s, slot)
  {
    exists steps, t :: Runs(s, steps, t) && NoFailure(steps) && Completed(s, t, slot)
  }

  predicate Completed(s: System, t: System, slot: nat)
    requires Busy(s, slot)
  {
    && Busy(t, slot) && t.rx.landing[slot] == s.rx.landing[slot].(done := true)
    && slot < |s.turn| && slot < |t.turn| && t.turn[slot] == s.turn[slot]
  }

  lemma CompletesAfter(s: System, step: Step, slot: nat)
    requires Shaped(s) && Enabled(s, step) && !step.RecvFails? && Busy(s, slot)
    requires var t := Next(s, step);
      Busy(t, slot) && CanComplete(t, slot) && t.rx.landing[slot].(done := true) == s.rx.landing[slot].(done := true)
      && slot < |s.turn| == |t.turn| && t.turn[slot] == s.turn[slot]
    ensures CanComplete(s, slot)
  {
    var t := Next(s, step);
    var steps, u :| Runs(t, steps, u) && NoFailure(steps) && Completed(t, u, slot);
    StepFirst(s, step, steps, u);
    assert Completed(s, u, slot) && NoFailure([step] + steps);
  }

  lemma FromLanded(s: System, w: nat, slot: nat)
    requires Inv(s) && Due(s, slot) && w in s.wire && s.wire[w] == PageLanded(slot)
    ensures CanComplete(s, slot)
  {
    var t := Next(s, PollPage(w));
    assert Runs(t, [], t) && NoFailure([]) && Completed(t, t, slot);
    CompletesAfter(s, PollPage(w), slot);
  }

  lemma FromPosted(s: System, w: nat, slot: nat)
    requires Inv(s) && Due(s, slot) && w in s.wire && s.wire[w].PagePosted? && s.wire[w].slot == slot
    ensures CanComplete(s, slot)
  {
    assert WireOk(s, s.wire[w]) && SlotOk(s, slot);
    StepKeeps(s, RailCarriesPage(w));
    FromLanded(Next(s, RailCarriesPage(w)), w, slot);
    CompletesAfter(s, RailCarriesPage(w), slot);
  }

  lemma FromHeld(s: System, k: Key, slot: nat)
    requires Inv(s) && Due(s, slot) && |DuePage(s, slot)| <= s.rx.landing[slot].room
    requires k in s.tx.held && HandNames(s, k, slot)
    ensures CanComplete(s, slot)
  {
    assert HeldOk(s, k) && KeyOk(s, k);
    StepKeeps(s, Claim(k));
    var t := Next(s, Claim(k));
    ClaimFrame(s, k);
    assert t.wire[s.next].PagePosted? && t.wire[s.next].slot == slot;
    FromPosted(t, s.next, slot);
    CompletesAfter(s, Claim(k), slot);
  }

  lemma FromRing(s: System, w: nat, slot: nat)
    requires Inv(s) && Due(s, slot) && |DuePage(s, slot)| <= s.rx.landing[slot].room
    requires w in s.wire && s.wire[w] == OfferLanded(slot)
    ensures CanComplete(s, slot)
  {
    assert WireOk(s, s.wire[w]);
    NotYetHeld(s, w);
    StepKeeps(s, PollOffer(w));
    var t, key := Next(s, PollOffer(w)), s.tx.ring[slot].key;
    assert t.tx.held[key] == [s.tx.ring[slot]];
    FromHeld(t, key, slot);
    CompletesAfter(s, PollOffer(w), slot);
  }

  lemma FromOffer(s: System, w: nat, slot: nat)
    requires Inv(s) && Due(s, slot) && |DuePage(s, slot)| <= s.rx.landing[slot].room
    requires w in s.wire && s.wire[w] == OfferPosted(slot)
    ensures CanComplete(s, slot)
  {
    assert WireOk(s, s.wire[w]);
    StepKeeps(s, RailCarriesOffer(w));
    FromRing(Next(s, RailCarriesOffer(w)), w, slot);
    CompletesAfter(s, RailCarriesOffer(w), slot);
  }

  lemma {:induction false} GivenGrows(s: System, steps: seq<Step>, t: System, k: Key)
    requires Runs(s, steps, t)
    ensures Given(s, k) <= Given(t, k)
    decreases steps
  {
    if steps != [] {
      GivenStep(s, steps[0], k);
      GivenGrows(Next(s, steps[0]), steps[1..], t, k);
    }
  }

  lemma GivenStep(s: System, step: Step, k: Key)
    requires Shaped(s) && Enabled(s, step)
    ensures Given(s, k) <= Given(Next(s, step), k)
  {
  }

  /** A receive whose send was given can be completed exactly when the page fits it. */
  lemma CompletesExactly(memory: map<Address, Page>, steps: seq<Step>, s: System, slot: nat)
    requires Runs(Init(memory), steps, s) && NoFailure(steps) && Due(s, slot)
    ensures CanComplete(s, slot) <==> |DuePage(s, slot)| <= s.rx.landing[slot].room
  {
    InitServes(memory);
    RunServes(Init(memory), steps, s);
    if |DuePage(s, slot)| <= s.rx.landing[slot].room {
      FitsCompletes(s, slot);
    }
    if CanComplete(s, slot) {
      var more, t :| Runs(s, more, t) && NoFailure(more) && Completed(s, t, slot);
      CompletedFits(s, more, t, slot);
    }
  }

  lemma CompletedFits(s: System, steps: seq<Step>, t: System, slot: nat)
    requires Inv(s) && Due(s, slot) && Runs(s, steps, t) && NoFailure(steps) && Completed(s, t, slot)
    ensures |DuePage(s, slot)| <= s.rx.landing[slot].room
  {
    RunKeeps(s, steps, t);
    GivenGrows(s, steps, t, s.rx.landing[slot].key);
    assert SlotOk(t, slot);
    assert DuePage(s, slot) == PageFor(t, slot);
  }

  lemma FitsCompletes(s: System, slot: nat)
    requires Inv(s) && Served(s) && Due(s, slot) && |DuePage(s, slot)| <= s.rx.landing[slot].room
    ensures CanComplete(s, slot)
  {
    assert TokenOut(s, slot);
    if OnWire(s, slot) {
      var a :| a in s.wire && Names(s.wire[a], slot);
      assert WireOk(s, s.wire[a]);
      match s.wire[a]
      case OfferPosted(_) => FromOffer(s, a, slot);
      case OfferLanded(_) => FromRing(s, a, slot);
      case PagePosted(_, _, _, _) => FromPosted(s, a, slot);
      case PageLanded(_) => FromLanded(s, a, slot);
    } else {
      var k :| k in s.tx.held && HandNames(s, k, slot);
      FromHeld(s, k, slot);
    }
  }
}
