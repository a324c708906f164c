/**
  Every interleaving of two ends and the rails between them. Rails keep no
  order: any write or completion in flight may be the next to happen.
 */
module RdmaTransfer {
  import opened Bytes
  import opened RdmaChannel

  type Page = seq<byte>

  /** Work in flight: a posted write, or a completion waiting to be polled. */
  datatype Wire =
    | OfferPosted(slot: nat)
    | OfferLanded(slot: nat)
    | PagePosted(slot: nat, addr: Address, page: Page, id: nat)
    | PageLanded(slot: nat)
    | SendDone(id: nat)

  /**
    Both ends, the receiver's memory and the wire; `waiting` holds the sends
    that have not found a record yet. The rest is history: pages given to each
    key's sends, how many sends of a key found a record, how many receives of a
    key began, and which of them a slot is.
   */
  datatype System = System(
    rx: Receiver, tx: Sender, memory: map<Address, Page>, wire: map<nat, Wire>, next: nat,
    waiting: map<Key, Page>,
    given: map<Key, seq<Page>>, claims: map<Key, nat>, begun: map<Key, nat>, turn: seq<nat>)

  function Count(m: map<Key, nat>, k: Key): nat {
    if k in m then m[k] else 0
  }

  function Given(s: System, k: Key): seq<Page> {
    if k in s.given then s.given[k] else []
  }

  function Put(s: System, w: Wire): System {
    s.(wire := s.wire[s.next := w], next := s.next + 1)
  }

  function Init(memory: map<Address, Page>): System {
    System(FRESH_RECEIVER, FRESH_SENDER, memory, map[], 0, map[], map[], map[], map[], seq(SLOTS, _ => 0))
  }

  datatype Step =
    | Recv(addr: Address, key: Key, length: nat)
    | RailCarriesOffer(w: nat)
    | PollOffer(w: nat)
    | Send(key: Key, page: Page)
    | Claim(key: Key)
    | RailCarriesPage(w: nat)
    | PollPage(w: nat)
    | PollSent(w: nat)
    | SendReturns(id: nat)
    | RecvReturns(slot: nat)
    | RecvFails(slot: nat)

  ghost predicate Shaped(s: System) {
    ReceiverShaped(s.rx) && SenderShaped(s.tx) && |s.turn| == SLOTS
  }

  predicate Busy(s: System, slot: nat) {
    slot < |s.rx.landing| && s.rx.landing[slot].Waiting?
  }

  /** When a step may happen. Keys outstanding at one time are distinct, and so are the pages lent to receives. */
  ghost predicate Enabled(s: System, step: Step)
    requires Shaped(s)
  {
    match step
    case Recv(addr, key, length) =>
      && s.rx.free != [] && addr in s.memory && length <= |s.memory[addr]|
      && forall b: nat :: Busy(s, b) ==> s.rx.landing[b].key != key && s.rx.landing[b].addr != addr
    case RailCarriesOffer(w) => w in s.wire && s.wire[w].OfferPosted? && s.wire[w].slot < SLOTS
    case PollOffer(w) => w in s.wire && s.wire[w].OfferLanded?
    case Send(key, _) => key !in s.waiting
    case Claim(key) => key in s.waiting && key in s.tx.held
    case RailCarriesPage(w) =>
      w in s.wire && s.wire[w].PagePosted?
      && s.wire[w].addr in s.memory && |s.wire[w].page| <= |s.memory[s.wire[w].addr]|
    case PollPage(w) => w in s.wire && s.wire[w].PageLanded?
    case PollSent(w) => w in s.wire && s.wire[w].SendDone?
    case SendReturns(id) => id in s.tx.sent && s.tx.sent[id]
    case RecvReturns(slot) => Busy(s, slot) && s.rx.landing[slot].done
    case RecvFails(slot) => Busy(s, slot)
  }

  function Overwrite(before: Page, page: Page): Page
    requires |page| <= |before|
  {
    page + before[|page|..]
  }

  /** The send of `key` takes its record and, when the page fits, writes it there. */
  function Claimed(s: System, key: Key): System
    requires Shaped(s) && key in s.waiting && key in s.tx.held
  {
    var record, page := s.tx.held[key][0], s.waiting[key];
    var taken := s.(tx := Harvested(s.tx, key), waiting := s.waiting - {key},
                    claims := s.claims[key := Count(s.claims, key) + 1]);
    if |page| > record.length then taken
    else
      var posted := taken.(tx := Posted(taken.tx));
      Put(posted, PagePosted(record.slot, record.addr, page, posted.tx.posted))
  }

  ghost function Next(s: System, step: Step): System
    requires Shaped(s) && Enabled(s, step)
  {
    match step
    case Recv(addr, key, length) =>
      var slot := s.rx.free[|s.rx.free| - 1];
      Put(s.(rx := TakeFor(s.rx, addr, key, length),
             turn := s.turn[slot := Count(s.begun, key)],
             begun := s.begun[key := Count(s.begun, key) + 1]), OfferPosted(slot))
    case RailCarriesOffer(w) =>
      var slot := s.wire[w].slot;
      s.(tx := s.tx.(ring := s.tx.ring[slot := s.rx.staged[slot]]), wire := s.wire[w := OfferLanded(slot)])
    case PollOffer(w) =>
      s.(tx := OfferCame(s.tx, s.wire[w].slot), wire := s.wire - {w})
    case Send(key, page) =>
      s.(waiting := s.waiting[key := page], given := s.given[key := Given(s, key) + [page]])
    case Claim(key) => Claimed(s, key)
    case RailCarriesPage(w) =>
      var p := s.wire[w];
      Put(s.(memory := s.memory[p.addr := Overwrite(s.memory[p.addr], p.page)],
             wire := s.wire[w := PageLanded(p.slot)]), SendDone(p.id))
    case PollPage(w) => s.(rx := PageCame(s.rx, s.wire[w].slot), wire := s.wire - {w})
    case PollSent(w) => s.(tx := Marked(s.tx, s.wire[w].id), wire := s.wire - {w})
    case SendReturns(id) => s.(tx := Retired(s.tx, id))
    case RecvReturns(slot) => s.(rx := Release(s.rx, slot))
    case RecvFails(slot) => s.(rx := Release(s.rx, slot))
  }

  // ----- The invariant -----

  predicate Names(w: Wire, slot: nat) {
    !w.SendDone? && w.slot == slot
  }

  function RecordOf(s: System, slot: nat): Cts
    requires Busy(s, slot)
  {
    Cts(s.rx.landing[slot].key, s.rx.landing[slot].addr, s.rx.landing[slot].room, slot)
  }

  /** The record of this slot is out but no send has taken it. */
  predicate Unclaimed(s: System, slot: nat) {
    && Busy(s, slot) && slot < |s.turn| && !s.rx.landing[slot].done
    && s.turn[slot] == Count(s.claims, s.rx.landing[slot].key)
  }

  /** A send has taken the record of this slot: it is the send of the same turn. */
  predicate Taken(s: System, slot: nat) {
    && Busy(s, slot) && slot < |s.turn|
    && var k := s.rx.landing[slot].key;
       s.turn[slot] + 1 == Count(s.claims, k) && s.turn[slot] < |Given(s, k)|
  }

  function PageFor(s: System, slot: nat): Page
    requires Taken(s, slot)
  {
    Given(s, s.rx.landing[slot].key)[s.turn[slot]]
  }

  /** The receive's page starts with the page given to its send. */
  predicate Delivered(s: System, slot: nat) {
    && Taken(s, slot)
    && var w := s.rx.landing[slot];
       w.addr in s.memory && |PageFor(s, slot)| <= w.room && PageFor(s, slot) <= s.memory[w.addr]
  }

  predicate WireOk(s: System, w: Wire) {
    match w
    case OfferPosted(slot) => Unclaimed(s, slot) && slot < |s.rx.staged| && s.rx.staged[slot] == RecordOf(s, slot)
    case OfferLanded(slot) => Unclaimed(s, slot) && slot < |s.tx.ring| && s.tx.ring[slot] == RecordOf(s, slot)
    case PagePosted(slot, addr, page, _) =>
      && Taken(s, slot) && !s.rx.landing[slot].done && addr == s.rx.landing[slot].addr
      && page == PageFor(s, slot) && |page| <= s.rx.landing[slot].room
    case PageLanded(slot) => Delivered(s, slot) && !s.rx.landing[slot].done
    case SendDone(_) => true
  }

  predicate HeldOk(s: System, k: Key) {
    && k in s.tx.held && |s.tx.held[k]| == 1
    && var r := s.tx.held[k][0];
       Unclaimed(s, r.slot) && r == RecordOf(s, r.slot) && r.key == k
  }

  predicate SlotOk(s: System, slot: nat)
    requires Busy(s, slot)
  {
    var w := s.rx.landing[slot];
    && slot < |s.turn| && Count(s.begun, w.key) == s.turn[slot] + 1
    && w.addr in s.memory && w.room <= |s.memory[w.addr]|
    && (Count(s.claims, w.key) == s.turn[slot] || Count(s.claims, w.key) == s.turn[slot] + 1)
    && (w.done ==> Delivered(s, slot))
  }

  ghost predicate OneTokenEach(s: System) {
    && (forall a, b :: a in s.wire && b in s.wire && a != b && !s.wire[a].SendDone? ==> !Names(s.wire[b], s.wire[a].slot))
    && (forall a, k :: a in s.wire && k in s.tx.held && s.tx.held[k] != [] ==> !Names(s.wire[a], s.tx.held[k][0].slot))
  }

  ghost predicate KeysApart(s: System) {
    forall a: nat, b: nat :: Busy(s, a) && Busy(s, b) && a != b ==>
      s.rx.landing[a].key != s.rx.landing[b].key && s.rx.landing[a].addr != s.rx.landing[b].addr
  }

  predicate KeyOk(s: System, k: Key) {
    && |Given(s, k)| == Count(s.claims, k) + (if k in s.waiting then 1 else 0)
    && (k in s.waiting ==> s.waiting[k] == Given(s, k)[Count(s.claims, k)])
    && Count(s.claims, k) <= Count(s.begun, k)
  }

  predicate BusyWith(s: System, slot: nat, k: Key) {
    Busy(s, slot) && s.rx.landing[slot].key == k
  }

  /** A receive of `k` that no send has answered is still outstanding. */
  ghost predicate Settled(s: System, k: Key) {
    Count(s.claims, k) == Count(s.begun, k) || exists slot :: BusyWith(s, slot, k)
  }

  /** Each outstanding receive has at most one token: in flight, in the ring, held, or its page on the way. */
  ghost predicate Inv(s: System) {
    && Shaped(s)
    && (forall a :: a in s.wire ==> a < s.next && WireOk(s, s.wire[a]))
    && (forall k :: k in s.tx.held ==> HeldOk(s, k))
    && (forall slot: nat :: Busy(s, slot) ==> SlotOk(s, slot))
    && OneTokenEach(s) && KeysApart(s)
    && (forall k: Key :: KeyOk(s, k) && Settled(s, k))
  }

  lemma InitHolds(memory: map<Address, Page>)
    ensures Inv(Init(memory))
  {
    FreshIsShaped();
  }

  // ----- Every step keeps it -----

  /** A slot, its turn and the history of its key read the same in both states. */
  ghost predicate SlotSame(s: System, t: System, slot: nat) {
    && Busy(s, slot) && Busy(t, slot) && t.rx.landing[slot] == s.rx.landing[slot]
    && slot < |s.turn| == |t.turn| && t.turn[slot] == s.turn[slot]
    && slot < |s.rx.staged| == |t.rx.staged| && t.rx.staged[slot] == s.rx.staged[slot]
    && slot < |s.tx.ring| == |t.tx.ring| && t.tx.ring[slot] == s.tx.ring[slot]
    && var w := s.rx.landing[slot];
       && Count(t.claims, w.key) == Count(s.claims, w.key) && Count(t.begun, w.key) == Count(s.begun, w.key)
       && Given(s, w.key) <= Given(t, w.key)
       && w.addr in s.memory && w.addr in t.memory && t.memory[w.addr] == s.memory[w.addr]
  }

  lemma SlotCarries(s: System, t: System, slot: nat)
    requires SlotSame(s, t, slot) && SlotOk(s, slot)
    ensures SlotOk(t, slot)
    ensures Unclaimed(s, slot) ==> Unclaimed(t, slot) && RecordOf(t, slot) == RecordOf(s, slot)
    ensures forall w :: WireOk(s, w) && Names(w, slot) ==> WireOk(t, w)
  {
  }

  /** Every slot that reads the same keeps what is known of it and of its token. */
  lemma TokensCarry(s: System, t: System, except: nat)
    requires Inv(s) && forall b: nat :: Busy(s, b) && b != except ==> SlotSame(s, t, b)
    ensures forall b: nat :: Busy(s, b) && b != except ==> Busy(t, b) && SlotOk(t, b)
    ensures forall a :: a in s.wire && !Names(s.wire[a], except) ==> WireOk(t, s.wire[a])
    ensures forall k :: k in s.tx.held && s.tx.held[k][0].slot != except ==>
      Unclaimed(t, s.tx.held[k][0].slot) && s.tx.held[k][0] == RecordOf(t, s.tx.held[k][0].slot)
  {
    forall b: nat | Busy(s, b) && b != except ensures Busy(t, b) && SlotOk(t, b) { SlotCarries(s, t, b); }
    forall a | a in s.wire && !Names(s.wire[a], except) ensures WireOk(t, s.wire[a]) {
      var w := s.wire[a];
      assert WireOk(s, w);
      if !w.SendDone? {
        SlotCarries(s, t, w.slot);
        assert Names(w, w.slot);
      }
    }
    forall k | k in s.tx.held && s.tx.held[k][0].slot != except
      ensures Unclaimed(t, s.tx.held[k][0].slot) && s.tx.held[k][0] == RecordOf(t, s.tx.held[k][0].slot)
    {
      assert HeldOk(s, k);
      SlotCarries(s, t, s.tx.held[k][0].slot);
    }
  }

  lemma ApartCarries(s: System, t: System)
    requires KeysApart(s) && |t.rx.landing| == |s.rx.landing|
    requires forall b: nat :: Busy(t, b) ==>
      Busy(s, b) && t.rx.landing[b].key == s.rx.landing[b].key && t.rx.landing[b].addr == s.rx.landing[b].addr
    ensures KeysApart(t)
  {
    forall a: nat, b: nat | Busy(t, a) && Busy(t, b) && a != b
      ensures t.rx.landing[a].key != t.rx.landing[b].key && t.rx.landing[a].addr != t.rx.landing[b].addr
    {
      assert Busy(s, a) && Busy(s, b);
    }
  }

  /** The history of a key carries over while every slot waiting on it stays. */
  lemma KeyCarries(s: System, t: System, k: Key)
    requires KeyOk(s, k) && Settled(s, k)
    requires Given(t, k) == Given(s, k) && Count(t.claims, k) == Count(s.claims, k)
    requires Count(t.begun, k) == Count(s.begun, k)
    requires (k in t.waiting <==> k in s.waiting) && (k in t.waiting ==> t.waiting[k] == s.waiting[k])
    requires forall b: nat :: BusyWith(s, b, k) ==> BusyWith(t, b, k)
    ensures KeyOk(t, k) && Settled(t, k)
  {
    if b :| BusyWith(s, b, k) { assert BusyWith(t, b, k); }
  }

  lemma RailCarriesOfferKeeps(s: System, w: nat)
    requires Inv(s) && Enabled(s, RailCarriesOffer(w))
    ensures Inv(Next(s, RailCarriesOffer(w)))
  {
    var t := Next(s, RailCarriesOffer(w));
    var slot := s.wire[w].slot;
    assert WireOk(s, s.wire[w]) && Names(s.wire[w], slot);
    CarriedSpares(s, w);
    TokensCarry(s, t, slot);
    assert SlotOk(t, slot) by { assert SlotOk(s, slot); }
    forall k | k in t.tx.held ensures HeldOk(t, k) { assert HeldOk(s, k); }
    KeysCarry(s, t);
  }

  lemma PollOfferKeeps(s: System, w: nat)
    requires Inv(s) && Enabled(s, PollOffer(w))
    ensures Inv(Next(s, PollOffer(w)))
  {
    var t := Next(s, PollOffer(w));
    var slot := s.wire[w].slot;
    assert WireOk(s, s.wire[w]) && Names(s.wire[w], slot);
    var key := s.tx.ring[slot].key;
    NotYetHeld(s, w);
    assert [] + [s.tx.ring[slot]] == [s.tx.ring[slot]];
    assert t.tx.held == s.tx.held[key := [s.tx.ring[slot]]];
    OfferHeldKeeps(s, t, w, slot, key);
  }

  /** A record polled off the wire is held under its key instead. */
  lemma OfferHeldKeeps(s: System, t: System, w: nat, slot: nat, key: Key)
    requires Inv(s) && Shaped(t) && w in s.wire && s.wire[w] == OfferLanded(slot) && WireOk(s, s.wire[w])
    requires t.rx == s.rx && t.memory == s.memory && t.turn == s.turn && t.waiting == s.waiting && t.next == s.next
    requires t.given == s.given && t.claims == s.claims && t.begun == s.begun && t.tx.ring == s.tx.ring
    requires t.wire == s.wire - {w} && key == s.tx.ring[slot].key && key !in s.tx.held
    requires t.tx.held == s.tx.held[key := [s.tx.ring[slot]]]
    ensures Inv(t)
  {
    forall b: nat | Busy(s, b) ensures SlotSame(s, t, b) { assert SlotOk(s, b); }
    TokensCarry(s, t, SLOTS);
    forall a | a in t.wire ensures WireOk(t, t.wire[a]) { assert WireOk(s, s.wire[a]); }
    forall k | k in t.tx.held ensures HeldOk(t, k) {
      if k != key { assert HeldOk(s, k); } else { SlotCarries(s, t, slot); }
    }
    ApartCarries(s, t);
    HistoryCarries(s, t);
    OneHeld(s, t, w, slot, key);
  }

  lemma OneHeld(s: System, t: System, w: nat, slot: nat, key: Key)
    requires OneTokenEach(s) && w in s.wire && s.wire[w] == OfferLanded(slot) && slot < |s.tx.ring|
    requires t.wire == s.wire - {w} && t.tx.held == s.tx.held[key := [s.tx.ring[slot]]] && s.tx.ring[slot].slot == slot
    ensures OneTokenEach(t)
  {
    assert forall a :: a in t.wire ==> !Names(s.wire[a], s.wire[w].slot);
  }

  lemma NotYetHeld(s: System, w: nat)
    requires Inv(s) && w in s.wire && s.wire[w].OfferLanded?
    ensures forall k :: k in s.tx.held ==> k != s.tx.ring[s.wire[w].slot].key && s.tx.held[k][0].slot != s.wire[w].slot
  {
    assert WireOk(s, s.wire[w]) && Names(s.wire[w], s.wire[w].slot);
    forall k | k in s.tx.held
      ensures k != s.tx.ring[s.wire[w].slot].key && s.tx.held[k][0].slot != s.wire[w].slot
    {
      assert HeldOk(s, k) && !Names(s.wire[w], s.tx.held[k][0].slot);
      assert Busy(s, s.wire[w].slot) && Busy(s, s.tx.held[k][0].slot);
    }
  }

  /** Steps that leave slots, wire names, held records and history alone. */
  lemma CarriedSpares(s: System, w: nat)
    requires Inv(s) && Enabled(s, RailCarriesOffer(w))
    ensures forall b: nat :: Busy(s, b) && b != s.wire[w].slot ==> SlotSame(s, Next(s, RailCarriesOffer(w)), b)
  {
    var t := Next(s, RailCarriesOffer(w));
    forall b: nat | Busy(s, b) && b != s.wire[w].slot ensures SlotSame(s, t, b) { assert SlotOk(s, b); }
  }

  /** What holds of keys holds on while nothing they depend on changes. */
  lemma KeysCarry(s: System, t: System)
    requires KeysApart(s) && (forall k: Key :: KeyOk(s, k) && Settled(s, k)) && t.rx == s.rx
    requires t.given == s.given && t.claims == s.claims && t.begun == s.begun && t.waiting == s.waiting
    ensures KeysApart(t) && forall k: Key :: KeyOk(t, k) && Settled(t, k)
  {
    ApartCarries(s, t);
    forall k: Key ensures KeyOk(t, k) && Settled(t, k) { KeyCarries(s, t, k); }
  }

  lemma BookkeepingKeeps(s: System, t: System)
    requires Inv(s) && t == s.(tx := t.tx, wire := t.wire) && t.tx == s.tx.(sent := t.tx.sent)
    requires forall a :: a in t.wire ==> a in s.wire && t.wire[a] == s.wire[a]
    ensures Inv(t)
  {
    forall b: nat | Busy(s, b) ensures SlotSame(s, t, b) { assert SlotOk(s, b); }
    TokensCarry(s, t, SLOTS);
    forall a | a in t.wire ensures WireOk(t, t.wire[a]) { assert WireOk(s, s.wire[a]); }
    forall k | k in t.tx.held ensures HeldOk(t, k) { assert HeldOk(s, k); }
    KeysCarry(s, t);
  }

  lemma SendKeeps(s: System, key: Key, page: Page)
    requires Inv(s) && Enabled(s, Send(key, page))
    ensures Inv(Next(s, Send(key, page)))
  {
    var t := Next(s, Send(key, page));
    forall b: nat | Busy(s, b) ensures SlotSame(s, t, b) { assert SlotOk(s, b); }
    TokensCarry(s, t, SLOTS);
    forall a | a in t.wire ensures WireOk(t, t.wire[a]) { assert WireOk(s, s.wire[a]); }
    forall k | k in t.tx.held ensures HeldOk(t, k) { assert HeldOk(s, k); }
    ApartCarries(s, t);
    SendKeepsKeys(s, key, page);
  }

  lemma SendKeepsKeys(s: System, key: Key, page: Page)
    requires Shaped(s) && Enabled(s, Send(key, page)) && forall k: Key :: KeyOk(s, k) && Settled(s, k)
    ensures forall k: Key :: KeyOk(Next(s, Send(key, page)), k) && Settled(Next(s, Send(key, page)), k)
  {
    var t := Next(s, Send(key, page));
    forall k: Key ensures KeyOk(t, k) && Settled(t, k) {
      assert KeyOk(s, k) && Settled(s, k);
      if k != key { KeyCarries(s, t, k); }
      if b :| BusyWith(s, b, k) { assert BusyWith(t, b, k); }
    }
  }

  /** Nothing in flight and nothing held names this slot. */
  ghost predicate Quiet(s: System, slot: nat) {
    && (forall a :: a in s.wire ==> !Names(s.wire[a], slot))
    && (forall k :: k in s.tx.held && s.tx.held[k] != [] ==> s.tx.held[k][0].slot != slot)
  }

  lemma FreeOrDoneIsQuiet(s: System, slot: nat)
    requires Inv(s) && (!Busy(s, slot) || s.rx.landing[slot].done)
    ensures Quiet(s, slot)
  {
    forall a | a in s.wire ensures !Names(s.wire[a], slot) { assert WireOk(s, s.wire[a]); }
    forall k | k in s.tx.held && s.tx.held[k] != [] ensures s.tx.held[k][0].slot != slot { assert HeldOk(s, k); }
  }

  lemma RecvKeeps(s: System, addr: Address, key: Key, length: nat)
    requires Inv(s) && Enabled(s, Recv(addr, key, length))
    ensures Inv(Next(s, Recv(addr, key, length)))
  {
    var t := Next(s, Recv(addr, key, length));
    var slot := s.rx.free[|s.rx.free| - 1];
    TakeIsShaped(s.rx, addr, key, length);
    FreeOrDoneIsQuiet(s, slot);
    RecvSpares(s, addr, key, length);
    RecvStarts(s, addr, key, length);
    TokensCarry(s, t, slot);
    forall k | k in t.tx.held ensures HeldOk(t, k) { assert HeldOk(s, k); }
    RecvKeepsApart(s, t, slot);
    forall k: Key ensures KeyOk(t, k) && Settled(t, k) {
      if k != key { KeyCarries(s, t, k); } else { assert BusyWith(t, slot, k); }
    }
  }

  lemma RecvSpares(s: System, addr: Address, key: Key, length: nat)
    requires Inv(s) && Enabled(s, Recv(addr, key, length))
    ensures var t := Next(s, Recv(addr, key, length));
      && (forall b: nat :: Busy(s, b) ==> SlotSame(s, t, b))
      && (forall b: nat :: Busy(t, b) && b != s.rx.free[|s.rx.free| - 1] ==> Busy(s, b))
  {
    var t := Next(s, Recv(addr, key, length));
    forall b: nat | Busy(s, b) ensures SlotSame(s, t, b) { assert SlotOk(s, b); }
  }

  lemma RecvStarts(s: System, addr: Address, key: Key, length: nat)
    requires Inv(s) && Enabled(s, Recv(addr, key, length))
    ensures var t := Next(s, Recv(addr, key, length));
      var slot := s.rx.free[|s.rx.free| - 1];
      Unclaimed(t, slot) && SlotOk(t, slot) && t.rx.staged[slot] == RecordOf(t, slot) && KeyOk(t, key)
  {
    assert KeyOk(s, key) && Settled(s, key);
    assert forall b: nat :: BusyWith(s, b, key) ==> Busy(s, b);
  }

  lemma RecvKeepsApart(s: System, t: System, slot: nat)
    requires Inv(s) && slot < SLOTS && |t.rx.landing| == SLOTS && Busy(t, slot)
    requires forall b: nat :: b < SLOTS && b != slot ==> t.rx.landing[b] == s.rx.landing[b]
    requires forall b: nat :: Busy(s, b) ==>
      s.rx.landing[b].key != t.rx.landing[slot].key && s.rx.landing[b].addr != t.rx.landing[slot].addr
    ensures KeysApart(t)
  {
    forall a: nat, b: nat | Busy(t, a) && Busy(t, b) && a != b
      ensures t.rx.landing[a].key != t.rx.landing[b].key && t.rx.landing[a].addr != t.rx.landing[b].addr
    {
      assert (a == slot || Busy(s, a)) && (b == slot || Busy(s, b));
    }
  }

  lemma ClaimKeeps(s: System, key: Key)
    requires Inv(s) && Enabled(s, Claim(key))
    ensures Inv(Next(s, Claim(key)))
  {
    var t := Claimed(s, key);
    assert HeldOk(s, key) && KeyOk(s, key);
    var slot := s.tx.held[key][0].slot;
    ClaimTakes(s, key, slot);
    ClaimFrame(s, key);
    ClaimSpares(s, key, slot);
    ClaimHistory(s, key, slot);
    TokenMoves(s, t, key, slot);
  }

  /** The record of `slot` leaves the held ones and at most one new token for it enters the wire. */
  lemma TokenMoves(s: System, t: System, key: Key, slot: nat)
    requires Inv(s) && Shaped(t) && t.rx == s.rx && t.tx.held == s.tx.held - {key} && s.next <= t.next
    requires HeldOk(s, key) && slot == s.tx.held[key][0].slot && SlotOk(t, slot)
    requires forall a :: a in s.wire ==> a in t.wire && t.wire[a] == s.wire[a]
    requires forall a :: a in t.wire && a !in s.wire ==>
      a == s.next < t.next && WireOk(t, t.wire[a]) && Names(t.wire[a], slot)
    requires forall b: nat :: Busy(s, b) && b != slot ==> SlotSame(s, t, b)
    requires forall k :: k in s.tx.held && k != key ==> s.tx.held[k][0].slot != slot
    requires forall k: Key :: KeyOk(t, k) && Settled(t, k)
    ensures Inv(t)
  {
    TokensCarry(s, t, slot);
    forall k | k in t.tx.held ensures HeldOk(t, k) { assert HeldOk(s, k); }
    ApartCarries(s, t);
    OneMoved(s, t, key, slot);
  }

  lemma OneMoved(s: System, t: System, key: Key, slot: nat)
    requires OneTokenEach(s) && key in s.tx.held && s.tx.held[key] != [] && slot == s.tx.held[key][0].slot
    requires t.tx.held == s.tx.held - {key}
    requires forall a :: a in s.wire ==> a in t.wire && t.wire[a] == s.wire[a]
    requires forall a :: a in t.wire && a !in s.wire ==> a == s.next && Names(t.wire[a], slot)
    requires forall k :: k in s.tx.held && k != key && s.tx.held[k] != [] ==> s.tx.held[k][0].slot != slot
    ensures OneTokenEach(t)
  {
    forall a, b | a in t.wire && b in t.wire && a != b && !t.wire[a].SendDone? ensures !Names(t.wire[b], t.wire[a].slot) {
      assert a in s.wire ==> !Names(s.wire[a], slot);
      assert b in s.wire ==> !Names(s.wire[b], slot);
    }
  }

  lemma ClaimHistory(s: System, key: Key, slot: nat)
    requires Inv(s) && Enabled(s, Claim(key)) && HeldOk(s, key) && slot == s.tx.held[key][0].slot && KeyOk(s, key)
    ensures forall k: Key :: KeyOk(Claimed(s, key), k) && Settled(Claimed(s, key), k)
  {
    var t := Claimed(s, key);
    ClaimFrame(s, key);
    assert SlotOk(s, slot) && BusyWith(t, slot, key);
    forall k: Key ensures KeyOk(t, k) && Settled(t, k) {
      if k != key { KeyCarries(s, t, k); }
    }
  }

  lemma ClaimTakes(s: System, key: Key, slot: nat)
    requires Inv(s) && Enabled(s, Claim(key)) && HeldOk(s, key) && slot == s.tx.held[key][0].slot && KeyOk(s, key)
    ensures var t := Claimed(s, key);
      && Taken(t, slot) && PageFor(t, slot) == s.waiting[key] && SlotOk(t, slot) && t.next <= s.next + 1
      && forall a :: a in t.wire && a !in s.wire ==>
           a == s.next < t.next && WireOk(t, t.wire[a]) && Names(t.wire[a], slot)
  {
    assert SlotOk(s, slot);
    ClaimPosts(s, key, slot);
  }

  /** What a claim puts on the wire, if anything, is the waiting page for the slot of its record. */
  lemma ClaimPosts(s: System, key: Key, slot: nat)
    requires Shaped(s) && Enabled(s, Claim(key)) && HeldOk(s, key) && KeyOk(s, key)
    requires slot == s.tx.held[key][0].slot && Busy(s, slot) && SlotOk(s, slot)
    ensures var t := Claimed(s, key);
      && t.next <= s.next + 1
      && forall a :: a in t.wire && a !in s.wire ==>
           a == s.next < t.next && WireOk(t, t.wire[a]) && Names(t.wire[a], slot)
  {
  }

  lemma ClaimFrame(s: System, key: Key)
    requires Shaped(s) && Enabled(s, Claim(key)) && HeldOk(s, key) && forall a :: a in s.wire ==> a < s.next
    ensures var t := Claimed(s, key);
      && t.rx == s.rx && t.memory == s.memory && t.turn == s.turn && t.given == s.given && t.begun == s.begun
      && t.tx.held == s.tx.held - {key} && t.tx.ring == s.tx.ring && t.waiting == s.waiting - {key}
      && (forall k :: k != key ==> Count(t.claims, k) == Count(s.claims, k))
      && (forall a :: a in s.wire ==> a in t.wire && t.wire[a] == s.wire[a])
  {
    ClaimRest(s, key);
    ClaimTx(s, key);
    ClaimWire(s, key);
  }

  lemma ClaimRest(s: System, key: Key)
    requires Shaped(s) && key in s.waiting && key in s.tx.held
    ensures var t := Claimed(s, key);
      && t.rx == s.rx && t.memory == s.memory && t.turn == s.turn && t.given == s.given && t.begun == s.begun
      && t.waiting == s.waiting - {key} && t.claims == s.claims[key := Count(s.claims, key) + 1]
  {
  }

  lemma ClaimTx(s: System, key: Key)
    requires Shaped(s) && Enabled(s, Claim(key)) && HeldOk(s, key)
    ensures var t := Claimed(s, key); t.tx.held == s.tx.held - {key} && t.tx.ring == s.tx.ring
  {
  }

  lemma ClaimWire(s: System, key: Key)
    requires Shaped(s) && Enabled(s, Claim(key)) && forall a :: a in s.wire ==> a < s.next
    ensures var t := Claimed(s, key); forall a :: a in s.wire ==> a in t.wire && t.wire[a] == s.wire[a]
  {
  }

  lemma ClaimSpares(s: System, key: Key, slot: nat)
    requires Inv(s) && Enabled(s, Claim(key)) && HeldOk(s, key) && slot == s.tx.held[key][0].slot
    ensures var t := Claimed(s, key);
      && (forall b: nat :: Busy(s, b) && b != slot ==> SlotSame(s, t, b))
      && (forall k :: k in s.tx.held && k != key ==> s.tx.held[k][0].slot != slot)
  {
    var t := Claimed(s, key);
    ClaimFrame(s, key);
    forall b: nat | Busy(s, b) && b != slot ensures SlotSame(s, t, b) { assert SlotOk(s, b); }
    forall k | k in s.tx.held && k != key ensures s.tx.held[k][0].slot != slot { assert HeldOk(s, k); }
  }

  lemma RailCarriesPageKeeps(s: System, w: nat)
    requires Inv(s) && Enabled(s, RailCarriesPage(w))
    ensures Inv(Next(s, RailCarriesPage(w)))
  {
    assert WireOk(s, s.wire[w]) && Names(s.wire[w], s.wire[w].slot);
    var slot := s.wire[w].slot;
    RailCarriesPageSpares(s, w, slot);
    PageLandsKeeps(s, Next(s, RailCarriesPage(w)), w, slot);
  }

  /** A page that reached memory leaves a completion for its slot in its place. */
  lemma PageLandsKeeps(s: System, t: System, w: nat, slot: nat)
    requires Inv(s) && w in s.wire && s.wire[w].PagePosted? && slot == s.wire[w].slot && WireOk(s, s.wire[w])
    requires t.rx == s.rx && t.tx == s.tx && t.turn == s.turn && t.waiting == s.waiting
    requires t.given == s.given && t.claims == s.claims && t.begun == s.begun && t.next == s.next + 1
    requires t.wire == s.wire[w := PageLanded(slot)][s.next := SendDone(s.wire[w].id)]
    requires SlotOk(t, slot) && Delivered(t, slot) && forall b: nat :: Busy(s, b) && b != slot ==> SlotSame(s, t, b)
    ensures Inv(t)
  {
    TokensCarry(s, t, slot);
    forall k | k in t.tx.held ensures HeldOk(t, k) { assert HeldOk(s, k); }
    ApartCarries(s, t);
    HistoryCarries(s, t);
    OneLanded(s, t, w);
  }

  lemma OneLanded(s: System, t: System, w: nat)
    requires OneTokenEach(s) && w in s.wire && s.wire[w].PagePosted? && t.tx == s.tx
    requires t.wire == s.wire[w := PageLanded(s.wire[w].slot)][s.next := SendDone(s.wire[w].id)]
    requires s.next !in s.wire
    ensures OneTokenEach(t)
  {
  }

  lemma HistoryCarries(s: System, t: System)
    requires forall k: Key :: KeyOk(s, k) && Settled(s, k)
    requires t.rx == s.rx && t.waiting == s.waiting && t.given == s.given && t.claims == s.claims && t.begun == s.begun
    ensures forall k: Key :: KeyOk(t, k) && Settled(t, k)
  {
    forall k: Key ensures KeyOk(t, k) && Settled(t, k) { KeyCarries(s, t, k); }
  }

  lemma RailCarriesPageSpares(s: System, w: nat, slot: nat)
    requires Inv(s) && Enabled(s, RailCarriesPage(w)) && WireOk(s, s.wire[w]) && slot == s.wire[w].slot
    ensures var t := Next(s, RailCarriesPage(w));
      && SlotOk(t, slot) && Delivered(t, slot)
      && forall b: nat :: Busy(s, b) && b != slot ==> SlotSame(s, t, b)
  {
    var t := Next(s, RailCarriesPage(w));
    var addr := s.wire[w].addr;
    assert s.wire[w].page <= t.memory[addr] && |t.memory[addr]| == |s.memory[addr]|;
    assert SlotOk(s, slot);
    forall b: nat | Busy(s, b) && b != slot ensures SlotSame(s, t, b) {
      assert SlotOk(s, b) && s.rx.landing[b].addr != addr;
    }
  }

  lemma PollPageKeeps(s: System, w: nat)
    requires Inv(s) && Enabled(s, PollPage(w))
    ensures Inv(Next(s, PollPage(w)))
  {
    var t := Next(s, PollPage(w));
    assert WireOk(s, s.wire[w]) && Names(s.wire[w], s.wire[w].slot);
    var slot := s.wire[w].slot;
    assert Delivered(t, slot) && SlotOk(t, slot) by { assert SlotOk(s, slot); }
    forall b: nat | Busy(s, b) && b != slot ensures SlotSame(s, t, b) { assert SlotOk(s, b); }
    TokensCarry(s, t, slot);
    forall k | k in t.tx.held ensures HeldOk(t, k) { assert HeldOk(s, k); }
    ApartCarries(s, t);
    forall k: Key ensures KeyOk(t, k) && Settled(t, k) { KeyCarries(s, t, k); }
  }

  /** A send has taken this receive's record. */
  predicate Answered(s: System, slot: nat) {
    Busy(s, slot) && slot < |s.turn| && Count(s.claims, s.rx.landing[slot].key) == s.turn[slot] + 1
  }

  /** A slot given back with nothing outstanding for it leaves the invariant standing. */
  lemma ReleaseKeeps(s: System, slot: nat)
    requires Inv(s) && Answered(s, slot) && Quiet(s, slot)
    ensures Inv(s.(rx := Release(s.rx, slot)))
  {
    var t := s.(rx := Release(s.rx, slot));
    ReleaseIsShaped(s.rx, slot);
    forall b: nat | Busy(s, b) && b != slot ensures SlotSame(s, t, b) { assert SlotOk(s, b); }
    TokensCarry(s, t, slot);
    forall k | k in t.tx.held ensures HeldOk(t, k) { assert HeldOk(s, k); }
    ApartCarries(s, t);
    forall k: Key ensures KeyOk(t, k) && Settled(t, k) {
      assert KeyOk(s, k);
      if k != s.rx.landing[slot].key { KeyCarries(s, t, k); } else { assert SlotOk(s, slot); }
    }
  }

  lemma StepKeeps(s: System, step: Step)
    requires Inv(s) && Enabled(s, step) && !step.RecvFails?
    ensures Inv(Next(s, step))
  {
    match step
    case Recv(addr, key, length) => RecvKeeps(s, addr, key, length);
    case RailCarriesOffer(w) => RailCarriesOfferKeeps(s, w);
    case PollOffer(w) => PollOfferKeeps(s, w);
    case Send(key, page) => SendKeeps(s, key, page);
    case Claim(key) => ClaimKeeps(s, key);
    case RailCarriesPage(w) => RailCarriesPageKeeps(s, w);
    case PollPage(w) => PollPageKeeps(s, w);
    case PollSent(_) => BookkeepingKeeps(s, Next(s, step));
    case SendReturns(_) => BookkeepingKeeps(s, Next(s, step));
    case RecvReturns(slot) =>
      assert SlotOk(s, slot);
      FreeOrDoneIsQuiet(s, slot);
      ReleaseKeeps(s, slot);
  }

  // ----- Whole runs -----

  ghost predicate Runs(s: System, steps: seq<Step>, t: System)
    decreases steps
  {
    if steps == [] then t == s
    else Shaped(s) && Enabled(s, steps[0]) && Runs(Next(s, steps[0]), steps[1..], t)
  }

  predicate NoFailure(steps: seq<Step>) {
    forall i :: 0 <= i < |steps| ==> !steps[i].RecvFails?
  }

  lemma {:induction false} RunKeeps(s: System, steps: seq<Step>, t: System)
    requires Inv(s) && Runs(s, steps, t) && NoFailure(steps)
    ensures Inv(t)
    decreases steps
  {
    if steps != [] {
      StepKeeps(s, steps[0]);
      RunKeeps(Next(s, steps[0]), steps[1..], t);
    }
  }

  /** In every run without a failed receive, the n-th receive of a key that completes holds the n-th page sent under it. */
  lemma ReceivesHoldTheirPages(memory: map<Address, Page>, steps: seq<Step>, s: System, slot: nat)
    requires Runs(Init(memory), steps, s) && NoFailure(steps)
    requires Busy(s, slot) && s.rx.landing[slot].done
    ensures slot < |s.turn|
    ensures var w := s.rx.landing[slot];
      && s.turn[slot] < |Given(s, w.key)| && w.addr in s.memory
      && Given(s, w.key)[s.turn[slot]] <= s.memory[w.addr]
      && |Given(s, w.key)[s.turn[slot]]| <= w.room
  {
    InitHolds(memory);
    RunKeeps(Init(memory), steps, s);
    assert SlotOk(s, slot);
  }

  /** And no record is overwritten early, neither the staged copy nor the one in the peer's ring. */
  lemma RecordsAreNotOverwritten(memory: map<Address, Page>, steps: seq<Step>, s: System, step: Step)
    requires Runs(Init(memory), steps, s) && NoFailure(steps)
    requires Shaped(s) && Enabled(s, step)
    ensures step.Recv? ==> Quiet(s, s.rx.free[|s.rx.free| - 1])
    ensures step.RailCarriesOffer? ==>
      forall a :: a in s.wire && a != step.w ==> !Names(s.wire[a], s.wire[step.w].slot)
  {
    InitHolds(memory);
    RunKeeps(Init(memory), steps, s);
    if step.Recv? { FreeOrDoneIsQuiet(s, s.rx.free[|s.rx.free| - 1]); }
    if step.RailCarriesOffer? { assert Names(s.wire[step.w], s.wire[step.w].slot); }
  }

  lemma StepFirst(s: System, step: Step, rest: seq<Step>, t: System)
    requires Shaped(s) && Enabled(s, step) && Runs(Next(s, step), rest, t)
    ensures Runs(s, [step] + rest, t)
  {
    assert ([step] + rest)[1..] == rest;
  }
}
