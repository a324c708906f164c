/** What a failed receive does to the receives after it. */
module RdmaFailure {
  import opened RdmaChannel
  import opened RdmaTransfer
  import opened RdmaProgress

  /** A receive that is done although its memory holds no page ever given to a send of its key. */
  predicate MisledAt(s: System, slot: nat) {
    && Busy(s, slot) && s.rx.landing[slot].done
    && var w := s.rx.landing[slot];
       forall n :: 0 <= n < |Given(s, w.key)| ==> w.addr in s.memory ==> !(Given(s, w.key)[n] <= s.memory[w.addr])
  }

  ghost predicate Misled(s: System) {
    exists slot: nat :: MisledAt(s, slot)
  }

  /** Some run without another failure ends with a receive misled. */
  ghost predicate CanMislead(s: System) {
    exists steps, t :: Runs(s, steps, t) && NoFailure(steps) && Misled(t)
  }

  /** The slot's record is held beside a send whose page is too long for it: the next claim uses it up. */
  predicate Wasted(s: System, slot: nat, k: Key) {
    && k in s.tx.held && HandNames(s, k, slot) && k in s.waiting
    && |s.waiting[k]| > s.tx.held[k][0].length
  }

  lemma InvMisleadsNobody(s: System)
    requires Inv(s)
    ensures !Misled(s)
  {
    forall slot: nat ensures !MisledAt(s, slot) {
      if Busy(s, slot) && s.rx.landing[slot].done {
        assert SlotOk(s, slot) && Delivered(s, slot);
        assert PageFor(s, slot) == Given(s, s.rx.landing[slot].key)[s.turn[slot]];
      }
    }
  }

  lemma InvNeverMisleads(s: System)
    requires Inv(s)
    ensures !CanMislead(s)
  {
    forall steps, t | Runs(s, steps, t) && NoFailure(steps) ensures !Misled(t) {
      RunKeeps(s, steps, t);
      InvMisleadsNobody(t);
    }
  }

  // ----- When it does no harm -----

  /** A receive that is done, or whose send was refused, has nothing out and may fail. */
  lemma QuietFailureKeeps(s: System, slot: nat)
    requires Inv(s) && Served(s) && Busy(s, slot) && !TokenOut(s, slot)
    ensures Inv(Next(s, RecvFails(slot)))
  {
    assert SlotOk(s, slot);
    assert Quiet(s, slot) by {
      forall a | a in s.wire ensures !Names(s.wire[a], slot) { assert !OnWire(s, slot); }
      forall k | k in s.tx.held && s.tx.held[k] != [] ensures s.tx.held[k][0].slot != slot { assert !InHand(s, slot); assert !HandNames(s, k, slot); }
    }
    assert Answered(s, slot);
    ReleaseKeeps(s, slot);
  }

  /** A claim that posts nothing: its send was refused. */
  predicate Idles(s: System, k: Key) {
    k in s.tx.held && s.tx.held[k] != [] && k in s.waiting && |s.waiting[k]| > s.tx.held[k][0].length
  }

  /** The first record held for `k` and its send gone, and nothing else changed. */
  function Gone(s: System, k: Key): System
    requires k in s.tx.held && s.tx.held[k] != []
  {
    s.(tx := Harvested(s.tx, k), waiting := s.waiting - {k}, claims := s.claims[k := Count(s.claims, k) + 1])
  }

  lemma IdleClaim(s: System, k: Key)
    requires Shaped(s) && Idles(s, k)
    ensures Claimed(s, k) == Gone(s, k) && Shaped(Gone(s, k))
  {
  }

  /** Until it happens, that claim may as well have happened already: every other step commutes with it. */
  ghost predicate Commutes(s: System, k: Key, step: Step)
    requires Shaped(s) && Idles(s, k) && Enabled(s, step)
  {
    var v := Claimed(s, k);
    && Shaped(v) && Enabled(v, step) && Shaped(Next(s, step)) && Idles(Next(s, step), k)
    && Next(v, step) == Claimed(Next(s, step), k)
  }

  lemma GoneBoth(s: System, k: Key, key: Key)
    requires k in s.tx.held && s.tx.held[k] != [] && key in s.tx.held && s.tx.held[key] != [] && key != k
    ensures key in Gone(s, k).tx.held && Gone(s, k).tx.held[key] == s.tx.held[key]
    ensures k in Gone(s, key).tx.held && Gone(s, key).tx.held[k] == s.tx.held[k]
    ensures Gone(Gone(s, k), key) == Gone(Gone(s, key), k)
  {
    CountedBoth(s.claims, k, key);
    HarvestedBoth(s.tx, k, key);
    assert s.waiting - {k} - {key} == s.waiting - {key} - {k};
  }

  lemma CountedBoth(claims: map<Key, nat>, k: Key, key: Key)
    requires key != k
    ensures var a, b := claims[k := Count(claims, k) + 1], claims[key := Count(claims, key) + 1];
      a[key := Count(a, key) + 1] == b[k := Count(b, k) + 1]
  {
    var a, b := claims[k := Count(claims, k) + 1], claims[key := Count(claims, key) + 1];
    assert Count(a, key) == Count(claims, key) && Count(b, k) == Count(claims, k);
  }

  lemma HarvestedBoth(tx: Sender, k: Key, key: Key)
    requires k in tx.held && tx.held[k] != [] && key in tx.held && tx.held[key] != [] && key != k
    ensures key in Harvested(tx, k).held && Harvested(tx, k).held[key] == tx.held[key]
    ensures k in Harvested(tx, key).held && Harvested(tx, key).held[k] == tx.held[k]
    ensures Harvested(Harvested(tx, k), key) == Harvested(Harvested(tx, key), k)
  {
    assert Harvested(Harvested(tx, k), key).held == Harvested(Harvested(tx, key), k).held;
  }

  /** A page put on the wire by the send of `key`. */
  function Wrote(s: System, record: Cts, page: Page): System {
    var posted := s.(tx := Posted(s.tx));
    Put(posted, PagePosted(record.slot, record.addr, page, posted.tx.posted))
  }

  lemma WroteGone(s: System, k: Key, record: Cts, page: Page)
    requires k in s.tx.held && s.tx.held[k] != []
    ensures Gone(Wrote(s, record, page), k) == Wrote(Gone(s, k), record, page)
  {
  }

  lemma ClaimedIs(s: System, key: Key)
    requires Shaped(s) && key in s.waiting && key in s.tx.held
    ensures var record, page := s.tx.held[key][0], s.waiting[key];
      Claimed(s, key) == if |page| > record.length then Gone(s, key) else Wrote(Gone(s, key), record, page)
    ensures Shaped(Claimed(s, key))
  {
  }

  lemma ClaimsCommute(s: System, k: Key, key: Key)
    requires Shaped(s) && Idles(s, k) && Enabled(s, Claim(key)) && key != k
    ensures Commutes(s, k, Claim(key))
  {
    IdleClaim(s, k);
    GoneBoth(s, k, key);
    ClaimedIs(s, key);
    ClaimedIs(Gone(s, k), key);
    var record, page, t := s.tx.held[key][0], s.waiting[key], Claimed(s, key);
    WroteGone(Gone(s, key), k, record, page);
    assert Idles(t, k);
    IdleClaim(t, k);
  }

  lemma OfferGone(tx: Sender, k: Key, slot: nat)
    requires |tx.ring| == SLOTS && k in tx.held && tx.held[k] != []
    ensures var more := OfferCame(tx, slot);
      k in more.held && more.held[k] != [] && more.held[k][0] == tx.held[k][0]
      && OfferCame(Harvested(tx, k), slot) == Harvested(more, k)
  {
    if slot < SLOTS {
      var r := tx.ring[slot];
      if r.key == k {
        assert (tx.held[k] + [r])[1..] == tx.held[k][1..] + [r];
        assert [] + [r] == [r];
      }
      assert OfferCame(Harvested(tx, k), slot).held == Harvested(OfferCame(tx, slot), k).held;
    }
  }

  lemma PollCommutes(s: System, k: Key, w: nat)
    requires Shaped(s) && Idles(s, k) && Enabled(s, PollOffer(w))
    ensures Commutes(s, k, PollOffer(w))
  {
    IdleClaim(s, k);
    OfferGone(s.tx, k, s.wire[w].slot);
    IdleClaim(Next(s, PollOffer(w)), k);
  }

  lemma SendCommutes(s: System, k: Key, key: Key, page: Page)
    requires Shaped(s) && Idles(s, k) && Enabled(s, Send(key, page))
    ensures Commutes(s, k, Send(key, page))
  {
    IdleClaim(s, k);
    IdleClaim(Next(s, Send(key, page)), k);
    assert (s.waiting - {k})[key := page] == s.waiting[key := page] - {k};
  }

  lemma RecvCommutes(s: System, k: Key, addr: Address, key: Key, length: nat)
    requires Shaped(s) && Idles(s, k) && Enabled(s, Recv(addr, key, length))
    ensures Commutes(s, k, Recv(addr, key, length))
  {
    IdleClaim(s, k);
    assert forall b: nat :: Busy(Gone(s, k), b) ==> Busy(s, b);
    TakeIsShaped(s.rx, addr, key, length);
    IdleClaim(Next(s, Recv(addr, key, length)), k);
  }

  lemma ReleaseCommutes(s: System, k: Key, step: Step)
    requires Shaped(s) && Idles(s, k) && Enabled(s, step) && (step.RecvReturns? || step.RecvFails?)
    ensures Commutes(s, k, step)
  {
    IdleClaim(s, k);
    ReleaseIsShaped(s.rx, step.slot);
    IdleClaim(Next(s, step), k);
  }

  lemma PollPageCommutes(s: System, k: Key, w: nat)
    requires Shaped(s) && Idles(s, k) && Enabled(s, PollPage(w))
    ensures Commutes(s, k, PollPage(w))
  {
    IdleClaim(s, k);
    PageCameIsShaped(s.rx, s.wire[w].slot);
    IdleClaim(Next(s, PollPage(w)), k);
  }

  lemma PageCameIsShaped(rx: Receiver, slot: nat)
    requires ReceiverShaped(rx)
    ensures ReceiverShaped(PageCame(rx, slot))
  {
  }

  lemma RailCommutes(s: System, k: Key, step: Step)
    requires Shaped(s) && Idles(s, k) && Enabled(s, step)
    requires step.RailCarriesOffer? || step.RailCarriesPage?
    ensures Commutes(s, k, step)
  {
    IdleClaim(s, k);
    IdleClaim(Next(s, step), k);
  }

  lemma SentCommutes(s: System, k: Key, step: Step)
    requires Shaped(s) && Idles(s, k) && Enabled(s, step) && (step.PollSent? || step.SendReturns?)
    ensures Commutes(s, k, step)
  {
    IdleClaim(s, k);
    IdleClaim(Next(s, step), k);
  }

  lemma IdleCommutes(s: System, k: Key, step: Step)
    requires Shaped(s) && Idles(s, k) && Enabled(s, step) && step != Claim(k)
    ensures Commutes(s, k, step)
  {
    match step
    case Claim(key) => ClaimsCommute(s, k, key);
    case PollOffer(w) => PollCommutes(s, k, w);
    case Send(key, page) => SendCommutes(s, k, key, page);
    case Recv(addr, key, length) => RecvCommutes(s, k, addr, key, length);
    case RecvReturns(_) => ReleaseCommutes(s, k, step);
    case RecvFails(_) => ReleaseCommutes(s, k, step);
    case PollPage(w) => PollPageCommutes(s, k, w);
    case PollSent(_) => SentCommutes(s, k, step);
    case SendReturns(_) => SentCommutes(s, k, step);
    case _ => RailCommutes(s, k, step);
  }

  lemma GoneMisleadsNobody(s: System, k: Key)
    requires Shaped(s) && Idles(s, k) && InOrder(Claimed(s, k))
    ensures !Misled(s)
  {
    IdleClaim(s, k);
    InvMisleadsNobody(Gone(s, k));
    forall slot: nat | Busy(s, slot) ensures !MisledAt(s, slot) {
      assert Given(Gone(s, k), s.rx.landing[slot].key) == Given(s, s.rx.landing[slot].key);
      assert !MisledAt(Gone(s, k), slot);
    }
  }

  lemma {:induction false} IdleRun(s: System, k: Key, steps: seq<Step>, t: System)
    requires Shaped(s) && Idles(s, k) && InOrder(Claimed(s, k)) && Runs(s, steps, t) && NoFailure(steps)
    ensures !Misled(t)
    decreases steps
  {
    if steps == [] {
      GoneMisleadsNobody(s, k);
    } else if steps[0] == Claim(k) {
      InvRunMisleadsNobody(Claimed(s, k), steps[1..], t);
    } else {
      IdleStep(s, k, steps[0]);
      IdleRun(Next(s, steps[0]), k, steps[1..], t);
    }
  }

  /** The transfer's invariant, as one fact. */
  ghost predicate InOrder(s: System) {
    Inv(s)
  }

  lemma InvRunMisleadsNobody(s: System, steps: seq<Step>, t: System)
    requires InOrder(s) && Runs(s, steps, t) && NoFailure(steps)
    ensures !Misled(t)
  {
    RunKeeps(s, steps, t);
    InvMisleadsNobody(t);
  }

  lemma IdleStep(s: System, k: Key, step: Step)
    requires Shaped(s) && Idles(s, k) && InOrder(Claimed(s, k)) && Enabled(s, step) && step != Claim(k) && !step.RecvFails?
    ensures var u := Next(s, step); Shaped(u) && Idles(u, k) && InOrder(Claimed(u, k))
  {
    IdleCommutes(s, k, step);
    StepKeeps(Claimed(s, k), step);
  }

  /** A record that a refused send will use up may lose its receive. */
  lemma WastedFailureIsHarmless(s: System, slot: nat, k: Key)
    requires Inv(s) && Busy(s, slot) && Wasted(s, slot, k)
    ensures !CanMislead(Next(s, RecvFails(slot)))
  {
    var v, t := Claimed(s, k), Next(s, RecvFails(slot));
    assert HeldOk(s, k) && KeyOk(s, k);
    IdleClaim(s, k);
    StepKeeps(s, Claim(k));
    ClaimSpares(s, k, slot);
    assert Quiet(v, slot);
    assert Answered(v, slot) by { ClaimTakes(s, k, slot); }
    ReleaseKeeps(v, slot);
    IdleCommutes(s, k, RecvFails(slot));
    forall steps, u | Runs(t, steps, u) && NoFailure(steps) ensures !Misled(u) { IdleRun(t, k, steps, u); }
  }

  // ----- When it misleads -----

  lemma MisleadAfter(s: System, step: Step)
    requires Shaped(s) && Enabled(s, step) && !step.RecvFails? && CanMislead(Next(s, step))
    ensures CanMislead(s)
  {
    var steps, t :| Runs(Next(s, step), steps, t) && NoFailure(steps) && Misled(t);
    StepFirst(s, step, steps, t);
    assert NoFailure([step] + steps);
  }

  ghost predicate Fresh(s: System, k: Key) {
    k !in s.given && k !in s.waiting && k !in s.tx.held && forall b: nat :: Busy(s, b) ==> s.rx.landing[b].key != k
  }

  lemma FreshKey(s: System) returns (k: Key)
    ensures Fresh(s, k)
  {
    var busy := set b: nat | b < |s.rx.landing| && Busy(s, b) :: s.rx.landing[b].key;
    k := Beyond(s.given.Keys + s.waiting.Keys + s.tx.held.Keys + busy);
    assert forall b: nat :: Busy(s, b) ==> s.rx.landing[b].key in busy;
  }

  lemma {:induction false} Beyond(keys: set<nat>) returns (k: nat)
    ensures forall x :: x in keys ==> x < k
  {
    if keys == {} {
      k := 0;
    } else {
      var x :| x in keys;
      var rest := Beyond(keys - {x});
      k := if x < rest then rest else x + 1;
      assert forall y :: y in keys ==> y == x || y in keys - {x};
    }
  }

  ghost predicate Sane(s: System) {
    Shaped(s) && forall a :: a in s.wire ==> a < s.next
  }

  /** The slot waits under a key for which no page was ever given. */
  predicate Waits(s: System, slot: nat) {
    Busy(s, slot) && Given(s, s.rx.landing[slot].key) == []
  }

  lemma LandedMisleads(s: System, w: nat, slot: nat)
    requires Sane(s) && Waits(s, slot) && w in s.wire && s.wire[w] == PageLanded(slot)
    ensures CanMislead(s)
  {
    var t := Next(s, PollPage(w));
    assert MisledAt(t, slot);
    assert Runs(t, [], t) && NoFailure([]) && Misled(t);
    MisleadAfter(s, PollPage(w));
  }

  lemma PostedMisleads(s: System, w: nat, slot: nat)
    requires Sane(s) && Waits(s, slot) && Enabled(s, RailCarriesPage(w)) && s.wire[w].slot == slot
    ensures CanMislead(s)
  {
    LandedMisleads(Next(s, RailCarriesPage(w)), w, slot);
    MisleadAfter(s, RailCarriesPage(w));
  }

  /** A record in hand that names the slot and memory a page can be written to. */
  predicate Loaded(s: System, slot: nat, k: Key) {
    && k in s.tx.held && HandNames(s, k, slot)
    && s.tx.held[k][0].addr in s.memory && s.tx.held[k][0].length <= |s.memory[s.tx.held[k][0].addr]|
  }

  lemma ClaimMisleads(s: System, slot: nat, k: Key)
    requires Sane(s) && Waits(s, slot) && Loaded(s, slot, k) && k in s.waiting && |s.waiting[k]| <= s.tx.held[k][0].length
    ensures CanMislead(s)
  {
    var t := Next(s, Claim(k));
    ClaimedIs(s, k);
    assert t.wire == s.wire[s.next := t.wire[s.next]] && t.wire[s.next].PagePosted?;
    PostedMisleads(t, s.next, slot);
    MisleadAfter(s, Claim(k));
  }

  lemma HeldMisleads(s: System, slot: nat, k: Key)
    requires Sane(s) && Waits(s, slot) && Loaded(s, slot, k) && s.rx.landing[slot].key != k
    requires k in s.waiting ==> |s.waiting[k]| <= s.tx.held[k][0].length
    ensures CanMislead(s)
  {
    if k in s.waiting {
      ClaimMisleads(s, slot, k);
    } else {
      ClaimMisleads(Next(s, Send(k, [])), slot, k);
      MisleadAfter(s, Send(k, []));
    }
  }

  /** The slot is the next to be taken, and memory is there to lend. */
  ghost predicate Vacant(s: System, slot: nat, addr: Address) {
    && Sane(s) && s.rx.free != [] && s.rx.free[|s.rx.free| - 1] == slot && addr in s.memory
    && forall b: nat :: Busy(s, b) ==> s.rx.landing[b].addr != addr
  }

  /** The slot and its memory lent to a receive of `key`. */
  ghost predicate Lent(s: System, slot: nat, addr: Address, key: Key) {
    && Sane(s) && Busy(s, slot) && s.rx.landing[slot] == Waiting(addr, 0, key, false)
    && s.rx.staged[slot] == Cts(key, addr, 0, slot) && addr in s.memory
    && forall b: nat :: Busy(s, b) && b != slot ==> s.rx.landing[b].addr != addr
  }

  lemma HandOn(s: System, slot: nat, addr: Address, key: Key) returns (t: System)
    requires Vacant(s, slot, addr) && Fresh(s, key)
    ensures Enabled(s, Recv(addr, key, 0)) && t == Next(s, Recv(addr, key, 0)) && Lent(t, slot, addr, key)
    ensures t.tx == s.tx && t.memory == s.memory && t.given == s.given && t.waiting == s.waiting
    ensures t.wire == s.wire[s.next := OfferPosted(slot)] && t.next == s.next + 1
  {
    TakeIsShaped(s.rx, addr, key, 0);
    t := Next(s, Recv(addr, key, 0));
    assert forall b: nat :: Busy(t, b) && b != slot ==> Busy(s, b) && t.rx.landing[b] == s.rx.landing[b];
  }

  lemma StaleMisleads(s: System, slot: nat, addr: Address, k: Key)
    requires Vacant(s, slot, addr) && Loaded(s, slot, k) && (k in s.waiting ==> |s.waiting[k]| <= s.tx.held[k][0].length)
    ensures CanMislead(s)
  {
    var key := FreshKey(s);
    var t := HandOn(s, slot, addr, key);
    HeldMisleads(t, slot, k);
    MisleadAfter(s, Recv(addr, key, 0));
  }

  lemma LatePageMisleads(s: System, slot: nat, addr: Address, w: nat)
    requires Vacant(s, slot, addr) && w in s.wire && Names(s.wire[w], slot) && (s.wire[w].PageLanded? || Enabled(s, RailCarriesPage(w)))
    ensures CanMislead(s)
  {
    var key := FreshKey(s);
    var t := HandOn(s, slot, addr, key);
    if s.wire[w].PageLanded? { LandedMisleads(t, w, slot); } else { PostedMisleads(t, w, slot); }
    MisleadAfter(s, Recv(addr, key, 0));
  }

  // An offer left over from the failed receive delivers the next receive's record a second time.

  lemma TwiceHeldMisleads(s: System, slot: nat, addr: Address, key: Key)
    requires Lent(s, slot, addr, key) && key !in s.waiting
    requires key in s.tx.held && s.tx.held[key] == [Cts(key, addr, 0, slot), Cts(key, addr, 0, slot)]
    ensures CanMislead(s)
  {
    var s1 := Next(s, Send(key, []));
    ClaimedIs(s1, key);
    var s2 := Next(s1, Claim(key));
    assert s2.tx.held[key] == [Cts(key, addr, 0, slot)];
    SecondTimeMisleads(s2, slot, addr, key, s.next);
    MisleadAfter(s1, Claim(key));
    MisleadAfter(s, Send(key, []));
  }

  lemma SecondTimeMisleads(s: System, slot: nat, addr: Address, key: Key, w: nat)
    requires Lent(s, slot, addr, key) && key !in s.waiting
    requires key in s.tx.held && s.tx.held[key] == [Cts(key, addr, 0, slot)]
    requires w in s.wire && s.wire[w].PagePosted? && s.wire[w].slot == slot && s.wire[w].addr == addr && s.wire[w].page == []
    ensures CanMislead(s)
  {
    var s1 := Next(s, RailCarriesPage(w));
    var s2 := Next(s1, PollPage(w));
    PageCameIsShaped(s1.rx, slot);
    DoneMisleads(s2, slot, addr, key);
    MisleadAfter(s1, PollPage(w));
    MisleadAfter(s, RailCarriesPage(w));
  }

  lemma DoneMisleads(s: System, slot: nat, addr: Address, key: Key)
    requires Sane(s) && Busy(s, slot) && s.rx.landing[slot] == Waiting(addr, 0, key, true) && addr in s.memory
    requires forall b: nat :: Busy(s, b) && b != slot ==> s.rx.landing[b].addr != addr
    requires key !in s.waiting && key in s.tx.held && s.tx.held[key] == [Cts(key, addr, 0, slot)]
    ensures CanMislead(s)
  {
    ReleaseIsShaped(s.rx, slot);
    var t := Next(s, RecvReturns(slot));
    assert forall b: nat :: Busy(t, b) ==> Busy(s, b) && b != slot && t.rx.landing[b] == s.rx.landing[b];
    StaleMisleads(t, slot, addr, key);
    MisleadAfter(s, RecvReturns(slot));
  }

  lemma TwoOffersMislead(s: System, slot: nat, addr: Address, key: Key, w: nat, v: nat)
    requires Lent(s, slot, addr, key) && key !in s.waiting && key !in s.tx.held && v != w
    requires w in s.wire && s.wire[w] == OfferLanded(slot) && v in s.wire && s.wire[v] == OfferLanded(slot)
    requires s.tx.ring[slot] == Cts(key, addr, 0, slot)
    ensures CanMislead(s)
  {
    var r := Cts(key, addr, 0, slot);
    var s1 := Next(s, PollOffer(w));
    assert s1.tx.held[key] == [] + [r] == [r];
    var s2 := Next(s1, PollOffer(v));
    assert s2.tx.held[key] == [r] + [r] == [r, r];
    TwiceHeldMisleads(s2, slot, addr, key);
    MisleadAfter(s1, PollOffer(v));
    MisleadAfter(s, PollOffer(w));
  }

  lemma OldOfferMisleads(s: System, slot: nat, addr: Address, w: nat)
    requires Vacant(s, slot, addr) && w in s.wire && (s.wire[w] == OfferPosted(slot) || s.wire[w] == OfferLanded(slot))
    ensures CanMislead(s)
  {
    var key := FreshKey(s);
    var t := HandOn(s, slot, addr, key);
    if s.wire[w].OfferPosted? {
      CarriedMisleads(Next(t, RailCarriesOffer(w)), slot, addr, key, w, s.next);
      MisleadAfter(t, RailCarriesOffer(w));
    } else {
      CarriedMisleads(t, slot, addr, key, w, s.next);
    }
    MisleadAfter(s, Recv(addr, key, 0));
  }

  lemma CarriedMisleads(s: System, slot: nat, addr: Address, key: Key, w: nat, v: nat)
    requires Lent(s, slot, addr, key) && key !in s.waiting && key !in s.tx.held && v != w
    requires w in s.wire && s.wire[w] == OfferLanded(slot) && v in s.wire && s.wire[v] == OfferPosted(slot)
    ensures CanMislead(s)
  {
    TwoOffersMislead(Next(s, RailCarriesOffer(v)), slot, addr, key, w, v);
    MisleadAfter(s, RailCarriesOffer(v));
  }

  lemma SlotIsFreed(s: System, slot: nat)
    requires Inv(s) && Busy(s, slot)
    ensures var t := Next(s, RecvFails(slot));
      Vacant(t, slot, s.rx.landing[slot].addr) && t.wire == s.wire && t.tx == s.tx && t.memory == s.memory && t.waiting == s.waiting
  {
    ReleaseIsShaped(s.rx, slot);
    assert SlotOk(s, slot);
    var t := Next(s, RecvFails(slot));
    forall b: nat | Busy(t, b) ensures t.rx.landing[b].addr != s.rx.landing[slot].addr { assert Busy(s, b); }
  }

  /** A token left behind misleads some later receive, whatever kind it is. */
  lemma TokenMisleads(s: System, slot: nat)
    requires Inv(s) && Busy(s, slot) && TokenOut(s, slot) && forall k :: k in s.tx.held ==> !Wasted(s, slot, k)
    ensures CanMislead(Next(s, RecvFails(slot)))
  {
    var t, addr := Next(s, RecvFails(slot)), s.rx.landing[slot].addr;
    SlotIsFreed(s, slot);
    assert SlotOk(s, slot);
    if OnWire(s, slot) {
      var a :| a in s.wire && Names(s.wire[a], slot);
      assert WireOk(s, s.wire[a]);
      if s.wire[a].OfferPosted? || s.wire[a].OfferLanded? {
        OldOfferMisleads(t, slot, addr, a);
      } else {
        LatePageMisleads(t, slot, addr, a);
      }
    } else {
      var k :| k in s.tx.held && HandNames(s, k, slot);
      assert HeldOk(s, k);
      StaleMisleads(t, slot, addr, k);
    }
  }

  /**
    In every run, failing a receive can mislead a later one exactly when a record
    or page for its slot is still out, unless that is a record in hand beside a
    send too long for it.
   */
  lemma FailureIsHarmlessExactly(memory: map<Address, Page>, steps: seq<Step>, s: System, slot: nat)
    requires Runs(Init(memory), steps, s) && NoFailure(steps) && Busy(s, slot)
    ensures Shaped(s)
    ensures !CanMislead(Next(s, RecvFails(slot)))
      <==> !TokenOut(s, slot) || exists k :: k in s.tx.held && Wasted(s, slot, k)
  {
    InitServes(memory);
    RunServes(Init(memory), steps, s);
    if !TokenOut(s, slot) {
      QuietFailureKeeps(s, slot);
      InvNeverMisleads(Next(s, RecvFails(slot)));
    } else if k :| k in s.tx.held && Wasted(s, slot, k) {
      WastedFailureIsHarmless(s, slot, k);
    } else {
      TokenMisleads(s, slot);
    }
  }

  // ----- Both halves are reached -----

  const TWO_PAGES: map<Address, Page> := map[0 := [0], 1 := [0]]

  /** One receive and one send reach a state in which failing the receive misleads another. */
  lemma FailureMisleadsSomewhere() returns (steps: seq<Step>, s: System)
    ensures Runs(Init(TWO_PAGES), steps, s) && NoFailure(steps) && Busy(s, 0) && Shaped(s)
    ensures CanMislead(Next(s, RecvFails(0)))
  {
    steps, s := FiveSteps();
    FailureIsHarmlessExactly(TWO_PAGES, steps, s, 0);
    assert OnWire(s, 0);
  }

  lemma FiveSteps() returns (steps: seq<Step>, s: System)
    ensures Runs(Init(TWO_PAGES), steps, s) && NoFailure(steps) && Shaped(s)
    ensures Busy(s, 0) && s.tx.held == map[] && 1 in s.wire && Names(s.wire[1], 0)
  {
    var s1 := PageIsOffered();
    var s2 := Next(s1, Send(1, [7]));
    var tail;
    tail, s := OfferIsClaimed(s2);
    StepFirst(s1, Send(1, [7]), tail, s);
    StepFirst(Init(TWO_PAGES), Recv(0, 1, 1), [Send(1, [7])] + tail, s);
    steps := [Recv(0, 1, 1)] + ([Send(1, [7])] + tail);
  }

  /** And one receive and a send too long for it reach a state in which it misleads nobody although its record is out. */
  lemma RecordIsWastedSomewhere() returns (steps: seq<Step>, s: System)
    ensures Runs(Init(TWO_PAGES), steps, s) && NoFailure(steps) && Busy(s, 0) && Shaped(s)
    ensures TokenOut(s, 0) && !CanMislead(Next(s, RecvFails(0)))
  {
    var s1 := PageIsOffered();
    var s2 := Next(s1, RailCarriesOffer(0));
    var s3 := Next(s2, PollOffer(0));
    assert s3.tx.held[1] == [] + [Cts(1, 0, 1, 0)] == [Cts(1, 0, 1, 0)];
    s := Next(s3, Send(1, [7, 7]));
    StepFirst(s3, Send(1, [7, 7]), [], s);
    StepFirst(s2, PollOffer(0), [Send(1, [7, 7])] + [], s);
    StepFirst(s1, RailCarriesOffer(0), [PollOffer(0)] + ([Send(1, [7, 7])] + []), s);
    StepFirst(Init(TWO_PAGES), Recv(0, 1, 1), [RailCarriesOffer(0)] + ([PollOffer(0)] + ([Send(1, [7, 7])] + [])), s);
    steps := [Recv(0, 1, 1)] + ([RailCarriesOffer(0)] + ([PollOffer(0)] + ([Send(1, [7, 7])] + [])));
    assert HandNames(s, 1, 0) && Wasted(s, 0, 1);
    FailureIsHarmlessExactly(TWO_PAGES, steps, s, 0);
  }

  lemma PageIsOffered() returns (t: System)
    ensures var s := Init(TWO_PAGES); Shaped(s) && Enabled(s, Recv(0, 1, 1)) && t == Next(s, Recv(0, 1, 1)) && Shaped(t)
    ensures t.wire == map[0 := OfferPosted(0)] && t.next == 1 && t.waiting == map[] && t.tx.held == map[]
    ensures t.rx.staged[0] == Cts(1, 0, 1, 0)
    ensures Busy(t, 0)
  {
    var s := Init(TWO_PAGES);
    FreshIsShaped();
    assert s.rx.free[SLOTS - 1] == 0;
    TakeIsShaped(s.rx, 0, 1, 1);
    t := Next(s, Recv(0, 1, 1));
  }

  lemma OfferIsClaimed(s: System) returns (steps: seq<Step>, t: System)
    requires Shaped(s) && s.wire == map[0 := OfferPosted(0)] && s.next == 1 && s.waiting == map[1 := [7]] && s.tx.held == map[]
    requires s.rx.staged[0] == Cts(1, 0, 1, 0)
    ensures steps == [RailCarriesOffer(0), PollOffer(0), Claim(1)] && Runs(s, steps, t)
    ensures t.rx == s.rx && t.tx.held == map[] && 1 in t.wire && Names(t.wire[1], 0) && Shaped(t)
  {
    var s1 := OfferIsCarried(s);
    var s2 := OfferIsPolled(s1);
    t := RecordIsClaimed(s2);
    StepFirst(s2, Claim(1), [], t);
    StepFirst(s1, PollOffer(0), [Claim(1)] + [], t);
    StepFirst(s, RailCarriesOffer(0), [PollOffer(0)] + ([Claim(1)] + []), t);
    steps := [RailCarriesOffer(0)] + ([PollOffer(0)] + ([Claim(1)] + []));
  }

  lemma OfferIsCarried(s: System) returns (t: System)
    requires Shaped(s) && s.wire == map[0 := OfferPosted(0)] && s.rx.staged[0] == Cts(1, 0, 1, 0)
    ensures Enabled(s, RailCarriesOffer(0)) && t == Next(s, RailCarriesOffer(0)) && Shaped(t)
    ensures t == s.(wire := map[0 := OfferLanded(0)], tx := t.tx) && t.tx.held == s.tx.held && t.tx.ring[0] == Cts(1, 0, 1, 0)
  {
    t := Next(s, RailCarriesOffer(0));
  }

  lemma OfferIsPolled(s: System) returns (t: System)
    requires Shaped(s) && s.wire == map[0 := OfferLanded(0)] && s.tx.held == map[] && s.tx.ring[0] == Cts(1, 0, 1, 0)
    ensures Enabled(s, PollOffer(0)) && t == Next(s, PollOffer(0)) && Shaped(t)
    ensures t.tx.held == map[1 := [Cts(1, 0, 1, 0)]] && t.rx == s.rx && t.waiting == s.waiting && t.next == s.next
  {
    t := Next(s, PollOffer(0));
    assert t.tx.held[1] == [] + [Cts(1, 0, 1, 0)] == [Cts(1, 0, 1, 0)];
  }

  lemma RecordIsClaimed(s: System) returns (t: System)
    requires Shaped(s) && s.next == 1 && s.waiting == map[1 := [7]] && s.tx.held == map[1 := [Cts(1, 0, 1, 0)]]
    ensures Enabled(s, Claim(1)) && t == Next(s, Claim(1)) && Shaped(t)
    ensures t.rx == s.rx && t.tx.held == map[] && 1 in t.wire && Names(t.wire[1], 0)
  {
    t := Next(s, Claim(1));
  }
}
