/**
  Receives that share one tcp connection. Each registers its buffer under a key;
  whichever finds nobody reading drives the socket until its own frame lands.
 */
module TcpChannel {
  import opened Bytes
  import opened TcpFrames

  /** Where the coroutine that drives the socket stands. */
  datatype Drive = NeedHeader | Seeking(key: Key, length: nat) | Filling(target: nat)

  datatype Phase = Looping | Driving(drive: Drive) | Returned(ok: bool)

  datatype Recv = Recv(key: Key, room: nat, done: bool, data: seq<byte>, phase: Phase)

  /** The channel's own fields. A coroutine in `idlers` is parked; any other unfinished one is scheduled or reading. */
  datatype Channel = Channel(recvs: map<nat, Recv>, waiting: map<Key, nat>, idlers: seq<nat>, reading: bool, failure: bool)

  function Woken(c: Channel): Channel {
    c.(idlers := [])
  }

  function Moved(c: Channel, r: nat, phase: Phase): Channel
    requires r in c.recvs
  {
    c.(recvs := c.recvs[r := c.recvs[r].(phase := phase)])
  }

  /** However a receive ends, its key is taken out of the table. */
  function Ended(c: Channel, r: nat, ok: bool): Channel
    requires r in c.recvs
  {
    Moved(c, r, Returned(ok)).(waiting := c.waiting - {c.recvs[r].key})
  }

  /** One turn of a receive's loop, up to where it suspends. */
  function Turned(c: Channel, r: nat): Channel
    requires r in c.recvs
  {
    if c.recvs[r].done then Ended(c, r, true)
    else if c.failure then Ended(c, r, false)
    else if !c.reading then Moved(c, r, Driving(NeedHeader)).(reading := true)
    else c.(idlers := c.idlers + [r])
  }

  /** A receive begins: refused when its key is taken, otherwise registered, with everyone parked woken. */
  function Posted(c: Channel, r: nat, key: Key, room: nat): Channel
    requires r !in c.recvs
  {
    if key in c.waiting then c.(recvs := c.recvs[r := Recv(key, room, false, [], Returned(false))])
    else Turned(Woken(c.(recvs := c.recvs[r := Recv(key, room, false, [], Looping)],
                         waiting := c.waiting[key := r])), r)
  }

  /** A failure belongs to everyone waiting; the one driving stops with it. */
  function Failed(c: Channel, r: nat): Channel
    requires r in c.recvs
  {
    Ended(Woken(c.(failure := true, reading := false)), r, false)
  }

  /** A header in hand: fill the buffer posted under its key, refuse a wrong length, or wait for the key. */
  function Sought(c: Channel, r: nat, key: Key, length: nat): Channel
    requires r in c.recvs && forall k :: k in c.waiting ==> c.waiting[k] in c.recvs
  {
    if key !in c.waiting then Moved(c, r, Driving(Seeking(key, length))).(idlers := c.idlers + [r])
    else if length != c.recvs[c.waiting[key]].room then Failed(c, r)
    else Moved(c, r, Driving(Filling(c.waiting[key])))
  }

  /** A payload has landed in `target`; the driver stops if it was its own. */
  function Landed(c: Channel, r: nat, target: nat, data: seq<byte>): Channel
    requires r in c.recvs && target in c.recvs
  {
    var filled := c.(recvs := c.recvs[target := c.recvs[target].(done := true, data := data)]);
    if target == r then Turned(Woken(Moved(filled, r, Looping).(reading := false)), r)
    else Moved(Woken(filled), r, Driving(NeedHeader))
  }

  function Closed(c: Channel): Channel {
    Woken(c.(failure := true))
  }

  // ----- What the channel's own fields keep -----

  predicate IsDriver(c: Channel, r: nat) {
    r in c.recvs && c.recvs[r].phase.Driving?
  }

  /** Registered, and not ended. */
  predicate Open(c: Channel, r: nat) {
    r in c.recvs && !c.recvs[r].phase.Returned? && c.recvs[r].key in c.waiting && c.waiting[c.recvs[r].key] == r
  }

  /** A parked coroutine waits for its frame while another reads, or for the key of a header in its hand. */
  predicate ParkedOk(c: Channel, r: nat) {
    && r in c.recvs
    && match c.recvs[r].phase
       case Looping => c.reading && !c.failure && !c.recvs[r].done
       case Driving(drive) => drive.Seeking?
       case Returned(_) => false
  }

  /** The table holds exactly the receives that have not ended, and the socket has exactly one reader or none. */
  ghost predicate ChannelOk(c: Channel) {
    && (forall k :: k in c.waiting ==> Open(c, c.waiting[k]) && c.recvs[c.waiting[k]].key == k)
    && (forall r :: r in c.recvs && !c.recvs[r].phase.Returned? ==> Open(c, r))
    && (forall a, b :: IsDriver(c, a) && IsDriver(c, b) ==> a == b)
    && (c.reading <==> exists r :: IsDriver(c, r))
    && (forall r :: IsDriver(c, r) && c.recvs[r].phase.drive.Filling? ==> c.recvs[r].phase.drive.target in c.recvs)
    && (forall i :: 0 <= i < |c.idlers| ==> ParkedOk(c, c.idlers[i]))
  }

  lemma WokenOk(c: Channel)
    requires ChannelOk(c)
    ensures ChannelOk(Woken(c)) && ChannelOk(Closed(c))
  {
    var w, d := Woken(c), Closed(c);
    assert forall r :: IsDriver(w, r) <==> IsDriver(c, r);
    assert forall r :: IsDriver(d, r) <==> IsDriver(c, r);
    if c.reading {
      var r :| IsDriver(c, r);
      assert IsDriver(w, r) && IsDriver(d, r);
    }
  }

  lemma EndedOk(c: Channel, r: nat, ok: bool)
    requires ChannelOk(c) && r in c.recvs && c.recvs[r].phase == Looping && r !in c.idlers
    ensures ChannelOk(Ended(c, r, ok))
  {
    var d := Ended(c, r, ok);
    assert Open(c, r);
    forall k | k in d.waiting ensures Open(d, d.waiting[k]) && d.recvs[d.waiting[k]].key == k { assert Open(c, c.waiting[k]); }
    forall q | q in d.recvs && !d.recvs[q].phase.Returned? ensures Open(d, q) { assert Open(c, q); }
    assert forall q :: IsDriver(d, q) <==> IsDriver(c, q);
    if c.reading {
      var q :| IsDriver(c, q);
      assert IsDriver(d, q);
    }
    forall i | 0 <= i < |d.idlers| ensures ParkedOk(d, d.idlers[i]) { assert ParkedOk(c, c.idlers[i]) && c.idlers[i] in c.idlers; }
  }

  /** A move of `r` between phases in which it has not ended, with the flag to match. */
  lemma MovedOk(c: Channel, d: Channel, r: nat, phase: Phase)
    requires ChannelOk(c) && r in c.recvs && !c.recvs[r].phase.Returned? && !phase.Returned?
    requires d.recvs == c.recvs[r := c.recvs[r].(phase := phase)] && d.waiting == c.waiting && d.failure == c.failure
    requires d.reading == (if phase.Driving? then true else if c.recvs[r].phase.Driving? then false else c.reading)
    requires phase.Driving? ==> !c.reading || IsDriver(c, r)
    requires phase.Driving? && phase.drive.Filling? ==> phase.drive.target in c.recvs
    requires forall i :: 0 <= i < |d.idlers| ==> ParkedOk(d, d.idlers[i])
    ensures ChannelOk(d)
  {
    forall k | k in d.waiting ensures Open(d, d.waiting[k]) && d.recvs[d.waiting[k]].key == k { assert Open(c, c.waiting[k]); }
    forall q | q in d.recvs && !d.recvs[q].phase.Returned? ensures Open(d, q) { assert Open(c, q); }
    forall q | q != r ensures IsDriver(d, q) <==> IsDriver(c, q) {}
    if d.reading {
      if phase.Driving? {
        assert IsDriver(d, r);
      } else {
        var q :| IsDriver(c, q);
        assert IsDriver(d, q);
      }
    } else {
      assert IsDriver(c, r) || !c.reading;
      forall q | q != r ensures !IsDriver(c, q) {}
    }
  }

  /** A turn ends the receive, gives it the socket, or parks it behind whoever has it. */
  lemma TurnedOk(c: Channel, r: nat)
    requires ChannelOk(c) && r in c.recvs && c.recvs[r].phase == Looping && r !in c.idlers
    ensures ChannelOk(Turned(c, r))
    ensures var d := Turned(c, r); d.recvs[r].phase.Returned? || IsDriver(d, r) || (r in d.idlers && d.reading && !IsDriver(d, r))
  {
    var d := Turned(c, r);
    if c.recvs[r].done || c.failure {
      EndedOk(c, r, c.recvs[r].done);
    } else if !c.reading {
      forall i | 0 <= i < |d.idlers| ensures ParkedOk(d, d.idlers[i]) { assert ParkedOk(c, c.idlers[i]) && c.idlers[i] in c.idlers; }
      MovedOk(c, d, r, Driving(NeedHeader));
    } else {
      assert c.recvs[r := c.recvs[r].(phase := Looping)] == c.recvs;
      forall i | 0 <= i < |d.idlers| ensures ParkedOk(d, d.idlers[i]) {
        if i < |c.idlers| { assert ParkedOk(c, c.idlers[i]); }
      }
      MovedOk(c, d, r, Looping);
      assert d.idlers[|c.idlers|] == r;
    }
  }

  lemma RegisteredOk(c: Channel, r: nat, key: Key, room: nat)
    requires ChannelOk(c) && r !in c.recvs && key !in c.waiting
    ensures ChannelOk(Woken(c.(recvs := c.recvs[r := Recv(key, room, false, [], Looping)], waiting := c.waiting[key := r])))
  {
    var d := Woken(c.(recvs := c.recvs[r := Recv(key, room, false, [], Looping)], waiting := c.waiting[key := r]));
    forall k | k in d.waiting ensures Open(d, d.waiting[k]) && d.recvs[d.waiting[k]].key == k {
      if k in c.waiting { assert Open(c, c.waiting[k]); }
    }
    forall q | q in d.recvs && !d.recvs[q].phase.Returned? ensures Open(d, q) { if q != r { assert Open(c, q); } }
    assert forall q :: IsDriver(d, q) <==> IsDriver(c, q);
    if c.reading {
      var q :| IsDriver(c, q);
      assert IsDriver(d, q);
    }
  }

  lemma PostedOk(c: Channel, r: nat, key: Key, room: nat)
    requires ChannelOk(c) && r !in c.recvs
    ensures ChannelOk(Posted(c, r, key, room))
  {
    var d := Posted(c, r, key, room);
    if key !in c.waiting {
      RegisteredOk(c, r, key, room);
      TurnedOk(Woken(c.(recvs := c.recvs[r := Recv(key, room, false, [], Looping)], waiting := c.waiting[key := r])), r);
    } else {
      forall k | k in d.waiting ensures Open(d, d.waiting[k]) && d.recvs[d.waiting[k]].key == k { assert Open(c, c.waiting[k]); }
      forall q | q in d.recvs && !d.recvs[q].phase.Returned? ensures Open(d, q) { assert Open(c, q); }
      assert forall q :: IsDriver(d, q) <==> IsDriver(c, q);
      if c.reading {
        var q :| IsDriver(c, q);
        assert IsDriver(d, q);
      }
      forall i | 0 <= i < |d.idlers| ensures ParkedOk(d, d.idlers[i]) { assert ParkedOk(c, c.idlers[i]); }
    }
  }

  /** After a failure nobody reads and nobody is parked: everyone will see it. */
  lemma FailedOk(c: Channel, r: nat)
    requires ChannelOk(c) && IsDriver(c, r)
    ensures ChannelOk(Failed(c, r)) && !Failed(c, r).reading && Failed(c, r).idlers == []
  {
    WokenOk(c);
    var e := Moved(Closed(c), r, Looping).(reading := false);
    MovedOk(Closed(c), e, r, Looping);
    EndedOk(e, r, false);
    assert Ended(e, r, false).recvs == Failed(c, r).recvs;
    assert Ended(e, r, false) == Failed(c, r);
  }

  lemma SoughtOk(c: Channel, r: nat, key: Key, length: nat)
    requires ChannelOk(c) && IsDriver(c, r) && r !in c.idlers
    ensures ChannelOk(Sought(c, r, key, length))
  {
    var d := Sought(c, r, key, length);
    if key in c.waiting && length != c.recvs[c.waiting[key]].room {
      FailedOk(c, r);
    } else {
      forall i | 0 <= i < |d.idlers| ensures ParkedOk(d, d.idlers[i]) {
        if i < |c.idlers| { assert ParkedOk(c, c.idlers[i]) && c.idlers[i] in c.idlers; }
      }
      MovedOk(c, d, r, d.recvs[r].phase);
    }
  }

  lemma FilledOk(c: Channel, d: Channel, target: nat, data: seq<byte>)
    requires ChannelOk(c) && target in c.recvs
    requires d == c.(recvs := c.recvs[target := c.recvs[target].(done := true, data := data)], idlers := [])
    ensures ChannelOk(d)
  {
    forall k | k in d.waiting ensures Open(d, d.waiting[k]) && d.recvs[d.waiting[k]].key == k { assert Open(c, c.waiting[k]); }
    forall q | q in d.recvs && !d.recvs[q].phase.Returned? ensures Open(d, q) { assert Open(c, q); }
    assert forall q :: IsDriver(d, q) <==> IsDriver(c, q);
    if c.reading {
      var q :| IsDriver(c, q);
      assert IsDriver(d, q);
    }
  }

  lemma LandedOk(c: Channel, r: nat, target: nat, data: seq<byte>)
    requires ChannelOk(c) && IsDriver(c, r) && target in c.recvs
    ensures ChannelOk(Landed(c, r, target, data))
    ensures target == r ==> !Landed(c, r, target, data).reading && Landed(c, r, target, data).idlers == []
  {
    var filled := c.(recvs := c.recvs[target := c.recvs[target].(done := true, data := data)], idlers := []);
    FilledOk(c, filled, target, data);
    if target == r {
      var e := Moved(filled, r, Looping).(reading := false);
      MovedOk(filled, e, r, Looping);
      TurnedOk(e, r);
    } else {
      MovedOk(filled, Landed(c, r, target, data), r, Driving(NeedHeader));
    }
  }

  class TcpDataChannel {
    var recvs: map<nat, Recv>
    var waiting: map<Key, nat>
    var idlers: seq<nat>
    var reading: bool
    var failure: bool
    var ready: seq<nat>

    ghost function View(): Channel
      reads this
    {
      Channel(recvs, waiting, idlers, reading, failure)
    }

    ghost predicate Valid()
      reads this
    {
      ChannelOk(View())
    }

    constructor ()
      ensures Valid() && View() == FRESH
    {
      recvs, waiting, idlers, reading, failure, ready := map[], map[], [], false, false, [];
    }

    /** Hands every parked coroutine to the loop, once each and in order. */
    method WakeReaders()
      modifies this`idlers, this`ready
      ensures View() == Woken(old(View())) && ready == old(ready) + old(idlers) && (old(Valid()) ==> Valid())
    {
      if Valid() { WokenOk(View()); }
      var woken := idlers;
      idlers := [];
      for i := 0 to |woken|
        invariant idlers == [] && ready == old(ready) + woken[..i]
      {
        ready := ready + [woken[i]];
      }
    }

    method Unpost(r: nat, ok: bool)
      requires r in recvs
      modifies this`recvs, this`waiting
      ensures View() == Ended(old(View()), r, ok)
    {
      waiting := waiting - {recvs[r].key};
      recvs := recvs[r := recvs[r].(phase := Returned(ok))];
    }

    /** One turn of a receive that is not parked: it has ended, reads the socket, or is parked while another reads. */
    method Turn(r: nat)
      requires Valid() && r in recvs && recvs[r].phase == Looping && r !in idlers
      modifies this`recvs, this`waiting, this`idlers, this`reading
      ensures Valid() && View() == Turned(old(View()), r)
      ensures recvs[r].phase.Returned? || IsDriver(View(), r) || (r in idlers && reading && !IsDriver(View(), r))
    {
      TurnedOk(View(), r);
      if recvs[r].done {
        Unpost(r, true);
      } else if failure {
        Unpost(r, false);
      } else if !reading {
        reading := true;
        recvs := recvs[r := recvs[r].(phase := Driving(NeedHeader))];
      } else {
        idlers := idlers + [r];
      }
    }

    /** A receive is registered alone under its key, or refused because the key is taken. */
    method Post(r: nat, key: Key, room: nat)
      requires Valid() && r !in recvs
      modifies this`recvs, this`waiting, this`idlers, this`reading, this`ready
      ensures Valid() && View() == Posted(old(View()), r, key, room)
      ensures key in old(waiting) ==> recvs[r].phase == Returned(false) && waiting == old(waiting)
      ensures key !in old(waiting) && !failure ==> Open(View(), r)
    {
      PostedOk(View(), r, key, room);
      if key in waiting {
        recvs := recvs[r := Recv(key, room, false, [], Returned(false))];
        return;
      }
      Register(r, key, room);
      Turn(r);
    }

    method Register(r: nat, key: Key, room: nat)
      requires Valid() && r !in recvs && key !in waiting
      modifies this`recvs, this`waiting, this`idlers, this`ready
      ensures Valid() && idlers == []
      ensures View() == Woken(old(View()).(recvs := old(recvs)[r := Recv(key, room, false, [], Looping)],
                                          waiting := old(waiting)[key := r]))
    {
      RegisteredOk(View(), r, key, room);
      recvs := recvs[r := Recv(key, room, false, [], Looping)];
      waiting := waiting[key := r];
      WakeReaders();
    }

    /** The reader's failure is everybody's: nobody reads on and nobody stays parked. */
    method Fail(r: nat)
      requires Valid() && IsDriver(View(), r)
      modifies this`recvs, this`waiting, this`idlers, this`reading, this`failure, this`ready
      ensures Valid() && View() == Failed(old(View()), r)
      ensures failure && !reading && idlers == [] && recvs[r].phase == Returned(false)
    {
      FailedOk(View(), r);
      failure := true;
      WakeReaders();
      reading := false;
      WakeReaders();
      Unpost(r, false);
    }

    /** What the driver does with a header, and again each time it is woken without its key. */
    method Seek(r: nat, key: Key, length: nat)
      requires Valid() && IsDriver(View(), r) && r !in idlers
      modifies this`recvs, this`waiting, this`idlers, this`reading, this`failure, this`ready
      ensures Valid() && View() == Sought(old(View()), r, key, length)
      ensures IsDriver(View(), r) || (failure && recvs[r].phase == Returned(false))
      ensures key in old(waiting) && length == old(recvs[waiting[key]].room) ==>
        recvs[r].phase == Driving(Filling(old(waiting[key]))) && failure == old(failure)
      ensures key in old(waiting) && length != old(recvs[waiting[key]].room) ==> failure
      ensures key !in old(waiting) ==> r in idlers && failure == old(failure)
    {
      SoughtOk(View(), r, key, length);
      if key !in waiting {
        recvs := recvs[r := recvs[r].(phase := Driving(Seeking(key, length)))];
        idlers := idlers + [r];
      } else if length != recvs[waiting[key]].room {
        Fail(r);
      } else {
        recvs := recvs[r := recvs[r].(phase := Driving(Filling(waiting[key])))];
      }
    }

    /** The payload goes to `target` alone; a driver whose own it was leaves the socket to whoever is woken. */
    method Land(r: nat, target: nat, data: seq<byte>)
      requires Valid() && IsDriver(View(), r) && target in recvs
      modifies this`recvs, this`waiting, this`idlers, this`reading, this`ready
      ensures Valid() && View() == Landed(old(View()), r, target, data)
      ensures recvs[target].done && recvs[target].data == data && idlers == []
      ensures target == r ==> recvs[r].phase == Returned(true) && !reading
      ensures target != r ==> IsDriver(View(), r)
    {
      LandedOk(View(), r, target, data);
      recvs := recvs[target := recvs[target].(done := true, data := data)];
      if target != r {
        WakeReaders();
        recvs := recvs[r := recvs[r].(phase := Driving(NeedHeader))];
        return;
      }
      recvs := recvs[r := recvs[r].(phase := Looping)];
      reading := false;
      WakeReaders();
      Unpost(r, true);
    }

    /** Everybody parked is woken to the failure. */
    method Close()
      requires Valid()
      modifies this`idlers, this`failure, this`ready
      ensures Valid() && View() == Closed(old(View()))
      ensures failure && idlers == [] && ready == old(ready) + old(idlers)
    {
      WokenOk(View());
      failure := true;
      WakeReaders();
    }
  }

  const FRESH := Channel(map[], map[], [], false, false)

  // ----- Every interleaving of receives, frames and failures -----

  /** The channel on its socket. `frames` is what the peer has sent, `taken` how many of them have been read whole. */
  datatype System = System(
    c: Channel, closed: bool, wire: seq<byte>, pos: nat, frames: seq<Frame>, taken: nat, given: map<nat, nat>)

  datatype Step =
    | PeerSends(frame: Frame)
    | Post(r: nat, key: Key, room: nat)
    | Resume(r: nat)
    | HeaderArrives(r: nat)
    | SeekResumes(r: nat)
    | PayloadArrives(r: nat)
    | ReadFails(r: nat)
    | Close

  const INIT := System(FRESH, false, [], 0, [], 0, map[])

  predicate InPhase(s: System, r: nat, phase: Phase) {
    r in s.c.recvs && s.c.recvs[r].phase == phase
  }

  predicate Drives(s: System, r: nat) {
    r in s.c.recvs && s.c.recvs[r].phase.Driving?
  }

  predicate Fills(s: System, r: nat) {
    Drives(s, r) && s.c.recvs[r].phase.drive.Filling?
  }

  predicate Seeks(s: System, r: nat) {
    Drives(s, r) && s.c.recvs[r].phase.drive.Seeking?
  }

  /** No frame of this key is still to be read. */
  predicate NoneAhead(frames: seq<Frame>, taken: nat, key: Key) {
    forall i :: taken <= i < |frames| ==> frames[i].key != key
  }

  /** One frame per outstanding key: none on its way, and none delivered to a receive that has not returned. */
  ghost predicate Free(s: System, key: Key) {
    && NoneAhead(s.frames, s.taken, key)
    && (forall r :: r in s.c.recvs && s.c.recvs[r].done && !s.c.recvs[r].phase.Returned? ==> s.c.recvs[r].key != key)
  }

  ghost predicate Enabled(s: System, step: Step) {
    match step
    case PeerSends(f) => FrameOk(f) && Free(s, f.key)
    case Post(r, key, room) => r !in s.c.recvs && key < U64 && room < U32
    case Resume(r) => InPhase(s, r, Looping) && r !in s.c.idlers
    case HeaderArrives(r) =>
      !s.closed && InPhase(s, r, Driving(NeedHeader)) && s.pos + HEADER_SIZE <= |s.wire|
      && forall k :: k in s.c.waiting ==> s.c.waiting[k] in s.c.recvs
    case SeekResumes(r) =>
      Seeks(s, r) && r !in s.c.idlers && forall k :: k in s.c.waiting ==> s.c.waiting[k] in s.c.recvs
    case PayloadArrives(r) =>
      !s.closed && Fills(s, r)
      && var target := s.c.recvs[r].phase.drive.target;
         target in s.c.recvs && s.pos + s.c.recvs[target].room <= |s.wire|
    case ReadFails(r) => InPhase(s, r, Driving(NeedHeader)) || Fills(s, r)
    case Close => true
  }

  ghost function Next(s: System, step: Step): System
    requires Enabled(s, step)
  {
    match step
    case PeerSends(f) => s.(wire := s.wire + Encode(f), frames := s.frames + [f])
    case Post(r, key, room) => s.(c := Posted(s.c, r, key, room))
    case Resume(r) => s.(c := Turned(s.c, r))
    case HeaderArrives(r) =>
      var header := s.wire[s.pos..s.pos + HEADER_SIZE];
      s.(c := Sought(s.c, r, KeyIn(header), LengthIn(header)), pos := s.pos + HEADER_SIZE)
    case SeekResumes(r) =>
      var d := s.c.recvs[r].phase.drive;
      s.(c := Sought(s.c, r, d.key, d.length))
    case PayloadArrives(r) =>
      var target := s.c.recvs[r].phase.drive.target;
      var end := s.pos + s.c.recvs[target].room;
      s.(c := Landed(s.c, r, target, s.wire[s.pos..end]), pos := end,
         given := s.given[target := s.taken], taken := s.taken + 1)
    case ReadFails(r) => s.(c := Failed(s.c, r))
    case Close => s.(c := Closed(s.c), closed := true)
  }

  // ----- The invariant -----

  /** The driver is at a frame boundary, or inside the frame whose header it holds. */
  predicate DriverOk(s: System, r: nat)
    requires Drives(s, r)
  {
    && s.taken <= |s.frames| && s.c.reading && !s.c.recvs[r].done
    && match s.c.recvs[r].phase.drive
       case NeedHeader => s.pos == Start(s.frames, s.taken) && r !in s.c.idlers
       case Seeking(key, length) =>
         && s.taken < |s.frames| && s.pos == Start(s.frames, s.taken) + HEADER_SIZE
         && key == s.frames[s.taken].key && length == |s.frames[s.taken].payload|
         && (r in s.c.idlers ==> key !in s.c.waiting)
       case Filling(target) =>
         && s.taken < |s.frames| && s.pos == Start(s.frames, s.taken) + HEADER_SIZE
         && target in s.c.recvs && !s.c.recvs[target].done
         && s.c.recvs[target].key == s.frames[s.taken].key
         && s.c.recvs[target].room == |s.frames[s.taken].payload|
         && (!s.closed ==> Open(s.c, target)) && r !in s.c.idlers
  }

  /** The payload a finished receive holds is that of the frame it was given, under its own key. */
  predicate HoldsFrame(s: System, r: nat)
    requires r in s.c.recvs
  {
    && r in s.given && s.given[r] < s.taken <= |s.frames|
    && s.frames[s.given[r]] == Frame(s.c.recvs[r].key, s.c.recvs[r].data)
  }

  predicate RecvOk(s: System, r: nat)
    requires r in s.c.recvs
  {
    var v := s.c.recvs[r];
    && (!v.phase.Returned? ==> Open(s.c, r))
    && (v.phase == Returned(true) ==> v.done)
    && (v.phase == Looping && r in s.c.idlers ==> s.c.reading && !s.c.failure && !v.done)
    && (v.done ==> HoldsFrame(s, r))
    && (v.done && !v.phase.Returned? ==> NoneAhead(s.frames, s.taken, v.key))
  }

  ghost predicate DrivingOk(s: System) {
    && s.taken <= |s.frames| && (forall r :: Drives(s, r) ==> DriverOk(s, r))
    && (forall a, b :: Drives(s, a) && Drives(s, b) ==> a == b)
    && (s.c.reading ==> exists r :: Drives(s, r))
    && (s.closed ==> s.c.failure) && (s.c.failure && s.c.reading ==> s.closed)
    && (!s.c.reading && !s.c.failure ==> s.pos == Start(s.frames, s.taken))
  }

  ghost predicate WireOk(s: System) {
    && s.wire == EncodeAll(s.frames) && s.taken <= |s.frames|
    && (forall i :: 0 <= i < |s.frames| ==> FrameOk(s.frames[i]))
    && (forall i, j :: s.taken <= i < j < |s.frames| ==> s.frames[i].key != s.frames[j].key)
  }

  ghost predicate GivenOk(s: System) {
    && (forall r :: r in s.given ==> s.given[r] < s.taken && r in s.c.recvs && s.c.recvs[r].done)
    && (forall a, b :: a in s.given && b in s.given && a != b ==> s.given[a] != s.given[b])
  }

  ghost predicate TableOk(s: System) {
    forall k :: k in s.c.waiting ==> Open(s.c, s.c.waiting[k]) && s.c.recvs[s.c.waiting[k]].key == k
  }

  ghost predicate Inv(s: System) {
    WireOk(s) && GivenOk(s) && TableOk(s) && DrivingOk(s) && forall r :: r in s.c.recvs ==> RecvOk(s, r)
  }

  lemma InitHolds()
    ensures Inv(INIT)
  {
  }

  lemma PeerSendsKeeps(s: System, f: Frame)
    requires Inv(s) && Enabled(s, PeerSends(f))
    ensures Inv(Next(s, PeerSends(f)))
  {
    var t := Next(s, PeerSends(f));
    EncodeAppend(s.frames, f);
    forall r | r in t.c.recvs ensures RecvOk(t, r) { assert RecvOk(s, r); }
    forall r | Drives(t, r) ensures DriverOk(t, r) { assert Drives(s, r) && DriverOk(s, r); }
    DriversCarry(s, t);
  }

  /** Nothing about who drives changes when the same coroutines do. */
  lemma DriversCarry(s: System, t: System)
    requires DrivingOk(s) && t.c.reading == s.c.reading && forall r :: Drives(t, r) <==> Drives(s, r)
    ensures forall a, b :: Drives(t, a) && Drives(t, b) ==> a == b
    ensures t.c.reading ==> exists r :: Drives(t, r)
  {
    if r :| Drives(s, r) { assert Drives(t, r); }
  }

  lemma EndedKeeps(s: System, r: nat, ok: bool)
    requires Inv(s) && InPhase(s, r, Looping) && r !in s.c.idlers && (ok ==> s.c.recvs[r].done)
    requires s.c.failure || ok
    ensures Inv(s.(c := Ended(s.c, r, ok)))
  {
    var t := s.(c := Ended(s.c, r, ok));
    assert RecvOk(s, r);
    forall q | q in t.c.recvs ensures RecvOk(t, q) { assert RecvOk(s, q); }
    EndedSparesDriver(s, r, ok);
  }

  lemma EndedSparesDriver(s: System, r: nat, ok: bool)
    requires Inv(s) && InPhase(s, r, Looping) && (ok ==> s.c.recvs[r].done) && (s.c.failure || ok)
    ensures DrivingOk(s.(c := Ended(s.c, r, ok)))
  {
    var t := s.(c := Ended(s.c, r, ok));
    forall q ensures Drives(t, q) <==> Drives(s, q) {}
    forall q | Drives(t, q) ensures DriverOk(t, q) { assert DriverOk(s, q); }
    DriversCarry(s, t);
  }

  lemma TurnKeeps(s: System, r: nat)
    requires Inv(s) && InPhase(s, r, Looping) && r !in s.c.idlers
    ensures Inv(s.(c := Turned(s.c, r)))
  {
    var t := s.(c := Turned(s.c, r));
    assert RecvOk(s, r);
    if s.c.recvs[r].done {
      EndedKeeps(s, r, true);
    } else if s.c.failure {
      EndedKeeps(s, r, false);
    } else {
      forall q | q in t.c.recvs ensures RecvOk(t, q) { assert RecvOk(s, q); }
      if s.c.reading {
        forall q | Drives(t, q) ensures DriverOk(t, q) { assert DriverOk(s, q); }
        DriversCarry(s, t);
      } else {
        forall q | Drives(t, q) ensures q == r { assert q != r ==> Drives(s, q) && DriverOk(s, q); }
        assert Drives(t, r) && DriverOk(t, r);
      }
    }
  }

  lemma PostKeeps(s: System, r: nat, key: Key, room: nat)
    requires Inv(s) && Enabled(s, Post(r, key, room))
    ensures Inv(Next(s, Post(r, key, room)))
  {
    if key in s.c.waiting {
      RefusedKeeps(s, r, key, room);
    } else {
      var t := s.(c := Registered(s.c, r, key, room));
      RegisteredKeeps(s, r, key, room);
      TurnKeeps(t, r);
    }
  }

  function Registered(c: Channel, r: nat, key: Key, room: nat): Channel {
    Woken(c.(recvs := c.recvs[r := Recv(key, room, false, [], Looping)], waiting := c.waiting[key := r]))
  }

  lemma RegisteredKeeps(s: System, r: nat, key: Key, room: nat)
    requires Inv(s) && Enabled(s, Post(r, key, room)) && key !in s.c.waiting
    ensures Inv(s.(c := Registered(s.c, r, key, room)))
  {
    var t := s.(c := Registered(s.c, r, key, room));
    NewcomerSparesDriver(s, t, r);
    NewcomerSparesRecvs(s, t, r, key);
  }

  /** A receive registered under a key of its own leaves the others as they were. */
  lemma NewcomerSparesRecvs(s: System, t: System, r: nat, key: Key)
    requires Inv(s) && t == s.(c := t.c) && r !in s.c.recvs && key !in s.c.waiting && r in t.c.recvs
    requires t.c.recvs == s.c.recvs[r := t.c.recvs[r]] && t.c.waiting == s.c.waiting[key := r] && t.c.idlers == []
    requires t.c.recvs[r].key == key && !t.c.recvs[r].done && t.c.recvs[r].phase == Looping
    ensures forall q :: q in t.c.recvs ==> RecvOk(t, q)
    ensures TableOk(t)
  {
    forall q | q in t.c.recvs && q != r ensures RecvOk(t, q) { assert RecvOk(s, q); }
  }

  /** One receive more, and everyone awake or as before, changes nothing for whoever drives. */
  lemma NewcomerSparesDriver(s: System, t: System, r: nat)
    requires DrivingOk(s) && t == s.(c := t.c) && r !in s.c.recvs && r in t.c.recvs && !t.c.recvs[r].phase.Driving?
    requires t.c.recvs == s.c.recvs[r := t.c.recvs[r]] && t.c.reading == s.c.reading && t.c.failure == s.c.failure
    requires t.c.idlers == [] || (t.c.idlers == s.c.idlers && t.c.waiting == s.c.waiting)
    requires forall k :: k in s.c.waiting ==> k in t.c.waiting && t.c.waiting[k] == s.c.waiting[k]
    ensures DrivingOk(t)
  {
    forall q ensures Drives(t, q) <==> Drives(s, q) {}
    forall q | Drives(t, q) ensures DriverOk(t, q) { assert DriverOk(s, q); }
    DriversCarry(s, t);
  }

  lemma RefusedKeeps(s: System, r: nat, key: Key, room: nat)
    requires Inv(s) && Enabled(s, Post(r, key, room)) && key in s.c.waiting
    ensures Inv(Next(s, Post(r, key, room)))
  {
    var t := Next(s, Post(r, key, room));
    NewcomerSparesDriver(s, t, r);
    RefusalSparesRecvs(s, t, r);
  }

  lemma RefusalSparesRecvs(s: System, t: System, r: nat)
    requires Inv(s) && t == s.(c := t.c) && r !in s.c.recvs && r in t.c.recvs && t.c.recvs[r].phase == Returned(false)
    requires t.c == s.c.(recvs := s.c.recvs[r := t.c.recvs[r]]) && !t.c.recvs[r].done
    ensures forall q :: q in t.c.recvs ==> RecvOk(t, q)
    ensures TableOk(t)
  {
    forall q | q in t.c.recvs && q != r ensures RecvOk(t, q) { assert RecvOk(s, q); }
  }

  lemma CloseKeeps(s: System)
    requires Inv(s)
    ensures Inv(Next(s, Close))
  {
    var t := Next(s, Close);
    forall q | q in t.c.recvs ensures RecvOk(t, q) { assert RecvOk(s, q); }
    forall q | Drives(t, q) ensures DriverOk(t, q) { assert Drives(s, q) && DriverOk(s, q); }
    DriversCarry(s, t);
  }

  /** The driver gives up: nobody drives, everyone is awake to see why. */
  lemma FailedKeeps(s: System, t: System, r: nat)
    requires Inv(s) && Drives(s, r) && t == s.(c := Failed(s.c, r), pos := t.pos)
    ensures Inv(t)
  {
    assert RecvOk(s, r) && DriverOk(s, r);
    forall q | q in t.c.recvs ensures RecvOk(t, q) { assert RecvOk(s, q); }
    forall q ensures !Drives(t, q) { assert q != r ==> !Drives(s, q); }
  }

  /** With the header of frame `taken` in hand, whatever comes of it keeps the invariant. */
  lemma SoughtKeeps(s: System, t: System, r: nat)
    requires Inv(s) && Drives(s, r) && s.taken < |s.frames| && r !in s.c.idlers
    requires t == s.(c := Sought(s.c, r, s.frames[s.taken].key, |s.frames[s.taken].payload|),
                     pos := Start(s.frames, s.taken) + HEADER_SIZE)
    ensures Inv(t)
  {
    var key, length := s.frames[s.taken].key, |s.frames[s.taken].payload|;
    assert RecvOk(s, r) && DriverOk(s, r);
    if key in s.c.waiting && length != s.c.recvs[s.c.waiting[key]].room {
      FailedKeeps(s, t, r);
    } else {
      if key in s.c.waiting { assert RecvOk(s, s.c.waiting[key]); }
      DriverMoves(s, t, r);
    }
  }

  lemma DriverMoves(s: System, t: System, r: nat)
    requires Inv(s) && Drives(s, r) && Drives(t, r) && DriverOk(t, r)
    requires t == s.(c := t.c, pos := t.pos) && t.c == s.c.(recvs := t.c.recvs, idlers := t.c.idlers)
    requires t.c.recvs == s.c.recvs[r := s.c.recvs[r].(phase := t.c.recvs[r].phase)]
    requires t.c.idlers == s.c.idlers || t.c.idlers == s.c.idlers + [r]
    ensures Inv(t)
  {
    assert RecvOk(s, r) && DriverOk(s, r);
    forall q | q in t.c.recvs ensures RecvOk(t, q) { assert RecvOk(s, q); }
    forall q ensures Drives(t, q) <==> q == r { assert q != r ==> !Drives(s, q); }
  }

  lemma HeaderArrivesKeeps(s: System, r: nat)
    requires Inv(s) && Enabled(s, HeaderArrives(r))
    ensures Inv(Next(s, HeaderArrives(r)))
  {
    assert Drives(s, r) && DriverOk(s, r);
    HeaderHere(s);
    SoughtKeeps(s, Next(s, HeaderArrives(r)), r);
  }

  /** At a boundary the next bytes are the header of the next frame. */
  lemma HeaderHere(s: System)
    requires WireOk(s) && s.pos == Start(s.frames, s.taken) && s.pos + HEADER_SIZE <= |s.wire|
    ensures s.taken < |s.frames|
    ensures var header := s.wire[s.pos..s.pos + HEADER_SIZE];
      KeyIn(header) == s.frames[s.taken].key && LengthIn(header) == |s.frames[s.taken].payload|
  {
    assert s.frames[..|s.frames|] == s.frames;
    FrameAt(s.frames, s.taken);
    HeaderRoundTrip(s.frames[s.taken]);
    var whole := s.wire[Start(s.frames, s.taken)..Start(s.frames, s.taken + 1)];
    assert whole[..HEADER_SIZE] == s.wire[s.pos..s.pos + HEADER_SIZE];
  }

  lemma PayloadHere(s: System)
    requires WireOk(s) && s.taken < |s.frames| && s.pos == Start(s.frames, s.taken) + HEADER_SIZE
    ensures var end := s.pos + |s.frames[s.taken].payload|;
      end == Start(s.frames, s.taken + 1) <= |s.wire| && s.wire[s.pos..end] == s.frames[s.taken].payload
  {
    FrameAt(s.frames, s.taken);
    HeaderRoundTrip(s.frames[s.taken]);
    var whole := s.wire[Start(s.frames, s.taken)..Start(s.frames, s.taken + 1)];
    assert whole[HEADER_SIZE..] == s.wire[s.pos..Start(s.frames, s.taken + 1)];
  }

  /** The frame's payload is in its receive's buffer, and the driver is between frames. */
  lemma PayloadLands(s: System, t: System, r: nat, target: nat)
    requires Inv(s) && !s.closed && Fills(s, r) && target == s.c.recvs[r].phase.drive.target && target in s.c.recvs
    requires var v := s.c.recvs[target].(done := true, data := s.frames[s.taken].payload,
                                         phase := if target == r then Looping else s.c.recvs[target].phase);
      t.c.recvs == if target == r then s.c.recvs[r := v]
                   else s.c.recvs[target := v][r := s.c.recvs[r].(phase := Driving(NeedHeader))]
    requires t.c.waiting == s.c.waiting && t.c.idlers == [] && t.c.reading == (target != r) && t.c.failure == s.c.failure
    requires t.closed == s.closed && t.wire == s.wire && t.frames == s.frames
    requires t.taken == s.taken + 1 <= |s.frames| && t.pos == Start(s.frames, t.taken) && t.given == s.given[target := s.taken]
    ensures Inv(t)
  {
    assert DriverOk(s, r);
    PayloadLandsFor(s, t, r, target);
    forall q | Drives(t, q) ensures q == r { assert Drives(s, q); }
    if target != r { assert Drives(t, r); }
  }

  /** What landing a payload for `target` changes, the reader being `r`. */
  ghost predicate LandsFor(s: System, t: System, r: nat, target: nat) {
    && r in s.c.recvs && target in s.c.recvs && t.c.recvs.Keys == s.c.recvs.Keys && s.taken < |s.frames|
    && (forall q :: q in s.c.recvs && q != r && q != target ==> t.c.recvs[q] == s.c.recvs[q])
    && t.c.recvs[target].(phase := Looping) == s.c.recvs[target].(phase := Looping, done := true, data := s.frames[s.taken].payload)
    && (target != r ==> t.c.recvs[target].phase == s.c.recvs[target].phase)
    && (target != r ==> t.c.recvs[r].(phase := Looping) == s.c.recvs[r].(phase := Looping))
    && !t.c.recvs[r].phase.Returned?
    && t.c.waiting == s.c.waiting && t.c.idlers == [] && t.frames == s.frames && t.taken == s.taken + 1
    && t.given == s.given[target := s.taken] && s.c.recvs[target].key == s.frames[s.taken].key
  }

  lemma PayloadLandsFor(s: System, t: System, r: nat, target: nat)
    requires Inv(s) && Fills(s, r) && DriverOk(s, r) && Open(s.c, target) && LandsFor(s, t, r, target)
    ensures forall q :: q in t.c.recvs ==> RecvOk(t, q)
    ensures TableOk(t) && GivenOk(t)
  {
    assert RecvOk(s, r) && RecvOk(s, target);
    forall q | q in t.c.recvs ensures RecvOk(t, q) {
      assert RecvOk(s, q);
      if q == target {
        FilledByLanding(s, t, r, target);
      } else if q == r {
        ReaderAfterLanding(s, t, r, target);
      } else {
        SparedByLanding(s, t, r, q, target);
      }
    }
    TableAfterLanding(s, t, r, target);
    GivenAfterLanding(s, t, r, target);
  }

  lemma FilledByLanding(s: System, t: System, r: nat, target: nat)
    requires WireOk(s) && Open(s.c, target) && Drives(s, r) && LandsFor(s, t, r, target)
    ensures target in t.c.recvs && RecvOk(t, target)
  {
  }

  lemma ReaderAfterLanding(s: System, t: System, r: nat, target: nat)
    requires Open(s.c, target) && Drives(s, r) && DriverOk(s, r) && LandsFor(s, t, r, target) && r != target
    requires RecvOk(s, r)
    ensures r in t.c.recvs && RecvOk(t, r)
  {
  }

  lemma TableAfterLanding(s: System, t: System, r: nat, target: nat)
    requires TableOk(s) && Open(s.c, target) && LandsFor(s, t, r, target)
    ensures TableOk(t)
  {
    forall k | k in t.c.waiting ensures Open(t.c, t.c.waiting[k]) && t.c.recvs[t.c.waiting[k]].key == k {
      assert Open(s.c, s.c.waiting[k]) && s.c.recvs[s.c.waiting[k]].key == k;
    }
  }

  lemma GivenAfterLanding(s: System, t: System, r: nat, target: nat)
    requires GivenOk(s) && LandsFor(s, t, r, target)
    ensures GivenOk(t)
  {
  }

  lemma SparedByLanding(s: System, t: System, r: nat, q: nat, target: nat)
    requires q in s.c.recvs && RecvOk(s, q) && q != target && q != r && Open(s.c, target) && LandsFor(s, t, r, target)
    ensures q in t.c.recvs && RecvOk(t, q)
  {
  }

  lemma PayloadArrivesKeeps(s: System, r: nat)
    requires Inv(s) && Enabled(s, PayloadArrives(r))
    ensures Inv(Next(s, PayloadArrives(r)))
  {
    assert DriverOk(s, r);
    PayloadHere(s);
    var target := s.c.recvs[r].phase.drive.target;
    var t := Next(s, PayloadArrives(r));
    if target != r {
      PayloadLands(s, t, r, target);
    } else {
      var payload := s.frames[s.taken].payload;
      var c := Woken(Moved(s.c.(recvs := s.c.recvs[r := s.c.recvs[r].(done := true, data := payload)]), r, Looping)
                     .(reading := false));
      PayloadLands(s, t.(c := c), r, r);
      TurnKeeps(t.(c := c), r);
    }
  }

  lemma StepKeeps(s: System, step: Step)
    requires Inv(s) && Enabled(s, step)
    ensures Inv(Next(s, step))
  {
    match step
    case PeerSends(f) => PeerSendsKeeps(s, f);
    case Post(r, key, room) => PostKeeps(s, r, key, room);
    case Resume(r) => TurnKeeps(s, r);
    case HeaderArrives(r) => HeaderArrivesKeeps(s, r);
    case SeekResumes(r) =>
      assert DriverOk(s, r);
      SoughtKeeps(s, Next(s, step), r);
    case PayloadArrives(r) => PayloadArrivesKeeps(s, r);
    case ReadFails(r) => FailedKeeps(s, Next(s, step), r);
    case Close => CloseKeeps(s);
  }

  // ----- Whole runs -----

  ghost predicate Runs(s: System, steps: seq<Step>, t: System)
    decreases steps
  {
    if steps == [] then t == s
    else Enabled(s, steps[0]) && Runs(Next(s, steps[0]), steps[1..], t)
  }

  lemma {:induction false} RunKeeps(s: System, steps: seq<Step>, t: System)
    requires Inv(s) && Runs(s, steps, t)
    ensures Inv(t)
    decreases steps
  {
    if steps != [] {
      StepKeeps(s, steps[0]);
      RunKeeps(Next(s, steps[0]), steps[1..], t);
    }
  }

  /** Every successful receive holds the payload of one frame sent under its own key, and no frame serves two. */
  lemma ReceivesHoldTheirFrames(steps: seq<Step>, s: System, r: nat, q: nat)
    requires Runs(INIT, steps, s) && InPhase(s, r, Returned(true)) && InPhase(s, q, Returned(true))
    ensures HoldsFrame(s, r) && HoldsFrame(s, q)
    ensures r != q ==> s.given[r] != s.given[q]
  {
    InitHolds();
    RunKeeps(INIT, steps, s);
    assert RecvOk(s, r) && RecvOk(s, q);
  }

  /** At most one coroutine reads the socket, and it stands at a frame boundary or inside the frame it has the header of. */
  lemma OneReaderInStep(steps: seq<Step>, s: System, r: nat, q: nat)
    requires Runs(INIT, steps, s) && Drives(s, r) && Drives(s, q)
    ensures r == q && s.c.reading && DriverOk(s, r) && s.wire == EncodeAll(s.frames)
  {
    InitHolds();
    RunKeeps(INIT, steps, s);
  }

  /**
    No wakeup is lost: while nobody reads, or once the channel has failed, no
    receive is parked, and a reader parked for a key is woken by its posting.
   */
  lemma NobodySleepsBesideTheSocket(steps: seq<Step>, s: System, r: nat)
    requires Runs(INIT, steps, s) && r in s.c.recvs && r in s.c.idlers
    ensures s.c.recvs[r].phase == Looping ==> s.c.reading && !s.c.failure && !s.c.recvs[r].done
    ensures Seeks(s, r) ==> s.c.recvs[r].phase.drive.key !in s.c.waiting
  {
    InitHolds();
    RunKeeps(INIT, steps, s);
    assert RecvOk(s, r);
  }

  // ----- A reader that a close does not release -----

  /** The channel has failed while its reader holds the header of a key nobody has posted. */
  predicate Stuck(s: System, r: nat) {
    s.c.failure && s.c.reading && Seeks(s, r) && s.c.recvs[r].phase.drive.key !in s.c.waiting
  }

  lemma StuckStays(s: System, step: Step, r: nat)
    requires Inv(s) && Stuck(s, r) && Enabled(s, step)
    ensures Stuck(Next(s, step), r)
  {
    assert DriverOk(s, r);
    if step.HeaderArrives? || step.SeekResumes? || step.PayloadArrives? || step.ReadFails? {
      assert Drives(s, step.r) && step.r == r;
    }
  }

  lemma {:induction false} StuckForEver(s: System, steps: seq<Step>, t: System, r: nat)
    requires Inv(s) && Stuck(s, r) && Runs(s, steps, t)
    ensures Stuck(t, r)
    decreases steps
  {
    if steps != [] {
      StuckStays(s, steps[0], r);
      StepKeeps(s, steps[0]);
      StuckForEver(Next(s, steps[0]), steps[1..], t, r);
    }
  }

  predicate HasEnded(s: System, r: nat) {
    r in s.c.recvs && s.c.recvs[r].phase.Returned?
  }

  ghost predicate CanEnd(s: System, r: nat) {
    exists steps, t :: Runs(s, steps, t) && HasEnded(t, r)
  }

  lemma StepFirst(s: System, step: Step, rest: seq<Step>, t: System)
    requires Enabled(s, step) && Runs(Next(s, step), rest, t)
    ensures Runs(s, [step] + rest, t)
  {
    assert ([step] + rest)[1..] == rest;
  }

  lemma EndsInOne(s: System, step: Step, r: nat)
    requires Enabled(s, step) && HasEnded(Next(s, step), r)
    ensures CanEnd(s, r)
  {
    StepFirst(s, step, [], Next(s, step));
  }

  /**
    A close releases a waiting receive exactly when it is not the reader holding
    a header for a key nobody has posted: that one never looks at the failure.
   */
  lemma CloseReleasesExactly(s: System, r: nat)
    requires Inv(s) && s.closed && Open(s.c, r)
    ensures CanEnd(s, r) <==> !Stuck(s, r)
  {
    assert RecvOk(s, r);
    if Stuck(s, r) {
      forall steps, t | Runs(s, steps, t) ensures !HasEnded(t, r) { StuckForEver(s, steps, t, r); }
    } else if s.c.recvs[r].phase == Looping {
      EndsInOne(s, Resume(r), r);
    } else {
      assert DriverOk(s, r);
      if !Seeks(s, r) {
        EndsInOne(s, ReadFails(r), r);
      } else if HasEnded(Next(s, SeekResumes(r)), r) {
        EndsInOne(s, SeekResumes(r), r);
      } else {
        var t := Next(s, SeekResumes(r));
        StepFirst(t, ReadFails(r), [], Next(t, ReadFails(r)));
        StepFirst(s, SeekResumes(r), [ReadFails(r)] + [], Next(t, ReadFails(r)));
      }
    }
  }

  /** Such a reader is reachable: a frame comes before its receive, and the channel closes. */
  lemma StuckIsReachable() returns (steps: seq<Step>, s: System)
    ensures Runs(INIT, steps, s) && s.closed && Stuck(s, 0)
  {
    var f := Frame(5, []);
    var s1 := Next(INIT, PeerSends(f));
    var s2 := Next(s1, Post(0, 1, 0));
    assert EncodeAll([f]) == Encode(f) by { EncodeAppend([], f); }
    assert WireOk(s2) && [f][..0] == [];
    HeaderHere(s2);
    var s3 := Next(s2, HeaderArrives(0));
    s := Next(s3, Close);
    StepFirst(s3, Close, [], s);
    StepFirst(s2, HeaderArrives(0), [Close] + [], s);
    StepFirst(s1, Post(0, 1, 0), [HeaderArrives(0)] + ([Close] + []), s);
    StepFirst(INIT, PeerSends(f), [Post(0, 1, 0)] + ([HeaderArrives(0)] + ([Close] + [])), s);
    steps := [PeerSends(f)] + ([Post(0, 1, 0)] + ([HeaderArrives(0)] + ([Close] + [])));
  }
}
