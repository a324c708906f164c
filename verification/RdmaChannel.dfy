/**
  The one-sided transfer between two rdma channels. The receiver writes a
  clear-to-send record into the sender's ring; the sender writes the page into
  the place the record names, with the slot as immediate data.
 */
module RdmaChannel {
  import opened Bytes

  const SLOTS: nat := 512
  const IS_CTS: nat := 0x8000_0000

  type Key = nat
  type Address = nat

  datatype Cts = Cts(key: Key, addr: Address, length: nat, slot: nat)

  const BLANK := Cts(0, 0, 0, 0)

  datatype Waiting = Idle | Waiting(addr: Address, room: nat, key: Key, done: bool)

  // ----- One end of the channel -----

  /** What one end keeps for its receives: free slots, what each slot waits for, records staged for sending. */
  datatype Receiver = Receiver(free: seq<nat>, landing: seq<Waiting>, staged: seq<Cts>)

  /** What one end keeps for its sends: the ring the peer writes, records read out of it, posted pages. */
  datatype Sender = Sender(ring: seq<Cts>, held: map<Key, seq<Cts>>, sent: map<nat, bool>, posted: nat)

  predicate ReceiverShaped(rx: Receiver) {
    && |rx.landing| == |rx.staged| == SLOTS
    && (forall i :: 0 <= i < |rx.free| ==> rx.free[i] < SLOTS && rx.landing[rx.free[i]].Idle?)
    && (forall i, j :: 0 <= i < j < |rx.free| ==> rx.free[i] != rx.free[j])
    && (forall s :: 0 <= s < SLOTS && rx.landing[s].Idle? ==> s in rx.free)
  }

  predicate SenderShaped(tx: Sender) {
    && |tx.ring| == SLOTS
    && forall k :: k in tx.held ==> tx.held[k] != []
  }

  function TakeFor(rx: Receiver, addr: Address, key: Key, length: nat): Receiver
    requires ReceiverShaped(rx) && rx.free != []
  {
    var slot := rx.free[|rx.free| - 1];
    Receiver(rx.free[..|rx.free| - 1],
             rx.landing[slot := Waiting(addr, length, key, false)],
             rx.staged[slot := Cts(key, addr, length, slot)])
  }

  function Release(rx: Receiver, slot: nat): Receiver
    requires ReceiverShaped(rx) && slot < SLOTS
  {
    rx.(landing := rx.landing[slot := Idle], free := rx.free + [slot])
  }

  /** A page completion marks whatever the slot now holds; an idle slot has nothing to mark. */
  function PageCame(rx: Receiver, slot: nat): Receiver
    requires |rx.landing| == SLOTS
  {
    if slot >= SLOTS || rx.landing[slot].Idle? then rx
    else rx.(landing := rx.landing[slot := rx.landing[slot].(done := true)])
  }

  function HeldAt(tx: Sender, key: Key): seq<Cts> {
    if key in tx.held then tx.held[key] else []
  }

  /** An offer completion copies the ring's record out, under its key. */
  function OfferCame(tx: Sender, slot: nat): Sender
    requires |tx.ring| == SLOTS
  {
    if slot >= SLOTS then tx
    else
      var r := tx.ring[slot];
      tx.(held := tx.held[r.key := HeldAt(tx, r.key) + [r]])
  }

  function Harvested(tx: Sender, key: Key): Sender
    requires key in tx.held && tx.held[key] != []
  {
    if |tx.held[key]| == 1 then tx.(held := tx.held - {key})
    else tx.(held := tx.held[key := tx.held[key][1..]])
  }

  function Posted(tx: Sender): Sender {
    tx.(posted := tx.posted + 1, sent := tx.sent[tx.posted + 1 := false])
  }

  function Marked(tx: Sender, id: nat): Sender {
    if id in tx.sent then tx.(sent := tx.sent[id := true]) else tx
  }

  function Retired(tx: Sender, id: nat): Sender {
    tx.(sent := tx.sent - {id})
  }

  datatype Completion = Failed | Arrived(immediate: nat) | Finished(id: nat)

  datatype Endpoint = Endpoint(rx: Receiver, tx: Sender, failed: bool)

  function Absorb(e: Endpoint, c: Completion): Endpoint
    requires |e.rx.landing| == |e.tx.ring| == SLOTS
  {
    match c
    case Failed => e.(failed := true)
    case Arrived(immediate) =>
      if immediate >= IS_CTS then e.(tx := OfferCame(e.tx, immediate - IS_CTS))
      else e.(rx := PageCame(e.rx, immediate))
    case Finished(id) => e.(tx := Marked(e.tx, id))
  }

  function AbsorbAll(e: Endpoint, cs: seq<Completion>): (r: Endpoint)
    requires |e.rx.landing| == |e.tx.ring| == SLOTS
    ensures |r.rx.landing| == |r.tx.ring| == SLOTS
    decreases cs
  {
    if cs == [] then e else AbsorbAll(Absorb(e, cs[0]), cs[1..])
  }

  class RdmaDataChannel {
    var free: seq<nat>
    var landing: seq<Waiting>
    var ring: seq<Cts>
    var held: map<Key, seq<Cts>>
    var sent: map<nat, bool>
    var posted: nat
    var failure: bool

    ghost function View(): Endpoint
      requires |ring| == 2 * SLOTS
      reads this
    {
      Endpoint(Receiver(free, landing, ring[SLOTS..]), Sender(ring[..SLOTS], held, sent, posted), failure)
    }

    ghost predicate Valid()
      reads this
    {
      |ring| == 2 * SLOTS && ReceiverShaped(View().rx) && SenderShaped(View().tx)
    }

    constructor ()
      ensures Valid() && View() == Endpoint(FRESH_RECEIVER, FRESH_SENDER, false)
    {
      free := seq(SLOTS, i requires 0 <= i < SLOTS => SLOTS - 1 - i);
      landing := seq(SLOTS, _ => Idle);
      ring := seq(2 * SLOTS, _ => BLANK);
      held, sent, posted, failure := map[], map[], 0, false;
      new;
      assert ring[..SLOTS] == FRESH_SENDER.ring && ring[SLOTS..] == FRESH_RECEIVER.staged;
      FreshIsShaped();
    }

    /** The part of recv before it waits: a slot, what lands in it, and the record posted for the peer. */
    method RecvBegin(addr: Address, key: Key, length: nat) returns (slot: int)
      requires Valid()
      modifies this`free, this`landing, this`ring
      ensures Valid()
      ensures slot < 0 <==> old(free) == []
      ensures slot < 0 ==> View() == old(View())
      ensures slot >= 0 ==> View() == old(View()).(rx := TakeFor(old(View().rx), addr, key, length))
      ensures slot >= 0 ==> slot == old(free)[|old(free)| - 1]
    {
      if free == [] { return -1; }
      slot := free[|free| - 1];
      TakeIsShaped(View().rx, addr, key, length);
      free := free[..|free| - 1];
      landing := landing[slot := Waiting(addr, length, key, false)];
      ring := ring[SLOTS + slot := Cts(key, addr, length, slot)];
      assert ring[SLOTS..] == TakeFor(old(View().rx), addr, key, length).staged;
      assert ring[..SLOTS] == old(ring)[..SLOTS];
    }

    method FreeSlot(slot: nat)
      requires Valid() && slot < SLOTS && !landing[slot].Idle?
      modifies this`free, this`landing
      ensures Valid() && View() == old(View()).(rx := Release(old(View().rx), slot))
    {
      ReleaseIsShaped(View().rx, slot);
      landing := landing[slot := Idle];
      free := free + [slot];
    }

    method Offered(slot: nat)
      requires Valid()
      modifies this`held
      ensures Valid() && View() == old(View()).(tx := OfferCame(old(View().tx), slot))
    {
      if slot >= SLOTS { return; }
      var record := ring[slot];
      held := held[record.key := (if record.key in held then held[record.key] else []) + [record]];
    }

    method Harvest(key: Key) returns (found: bool, record: Cts)
      requires Valid()
      modifies this`held
      ensures Valid() && (found <==> key in old(held))
      ensures found ==> record == old(held)[key][0] && View() == old(View()).(tx := Harvested(old(View().tx), key))
      ensures !found ==> View() == old(View())
    {
      if key !in held { return false, BLANK; }
      record := held[key][0];
      if |held[key]| == 1 { held := held - {key}; } else { held := held[key := held[key][1..]]; }
      return true, record;
    }

    /** A page handed to the adapter; the id comes back with its completion. */
    method Post() returns (id: nat)
      requires Valid()
      modifies this`posted, this`sent
      ensures Valid() && id == old(posted) + 1 && View() == old(View()).(tx := Posted(old(View().tx)))
    {
      id := posted + 1;
      posted := id;
      sent := sent[id := false];
    }

    /** One batch from a completion queue. */
    method DriveOne(batch: seq<Completion>)
      requires Valid()
      modifies this`failure, this`held, this`landing, this`sent
      ensures Valid() && View() == AbsorbAll(old(View()), batch)
    {
      ghost var before := View();
      for i := 0 to |batch|
        invariant Valid() && AbsorbAll(View(), batch[i..]) == AbsorbAll(before, batch)
      {
        assert batch[i..][1..] == batch[i + 1..];
        AbsorbIsShaped(View(), batch[i]);
        match batch[i] {
          case Failed => failure := true;
          case Arrived(immediate) =>
            if immediate >= IS_CTS {
              Offered(immediate - IS_CTS);
            } else if immediate < SLOTS && !landing[immediate].Idle? {
              landing := landing[immediate := landing[immediate].(done := true)];
            }
          case Finished(id) =>
            if id in sent { sent := sent[id := true]; }
        }
      }
    }
  }

  const FRESH_RECEIVER := Receiver(seq(SLOTS, i requires 0 <= i < SLOTS => SLOTS - 1 - i),
                                   seq(SLOTS, _ => Idle), seq(SLOTS, _ => BLANK))
  const FRESH_SENDER := Sender(seq(SLOTS, _ => BLANK), map[], map[], 0)

  lemma FreshIsShaped()
    ensures ReceiverShaped(FRESH_RECEIVER) && SenderShaped(FRESH_SENDER)
  {
    forall s | 0 <= s < SLOTS ensures s in FRESH_RECEIVER.free {
      assert FRESH_RECEIVER.free[SLOTS - 1 - s] == s;
    }
  }

  lemma TakeIsShaped(rx: Receiver, addr: Address, key: Key, length: nat)
    requires ReceiverShaped(rx) && rx.free != []
    ensures ReceiverShaped(TakeFor(rx, addr, key, length))
  {
    var slot, rest := rx.free[|rx.free| - 1], rx.free[..|rx.free| - 1];
    assert rx.free == rest + [slot];
    forall s | 0 <= s < SLOTS && rx.landing[s].Idle? && s != slot ensures s in rest {
      assert s in rx.free;
    }
  }

  lemma ReleaseIsShaped(rx: Receiver, slot: nat)
    requires ReceiverShaped(rx) && slot < SLOTS && !rx.landing[slot].Idle?
    ensures ReceiverShaped(Release(rx, slot))
  {
  }

  lemma AbsorbIsShaped(e: Endpoint, c: Completion)
    requires ReceiverShaped(e.rx) && SenderShaped(e.tx)
    ensures ReceiverShaped(Absorb(e, c).rx) && SenderShaped(Absorb(e, c).tx)
  {
  }
}
