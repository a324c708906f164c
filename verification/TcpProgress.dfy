/**
  Which receives on a shared tcp connection can still succeed. Frames are taken
  in the order they were sent, so one whose length is not what was posted for it
  ends every receive whose own frame comes after.
 */
module TcpProgress {
  import opened Bytes
  import opened TcpFrames
  import opened TcpChannel

  predicate NoSends(steps: seq<Step>) {
    forall i :: 0 <= i < |steps| ==> !steps[i].PeerSends?
  }

  ghost predicate CanSucceed(s: System, r: nat) {
    exists steps, t :: Runs(s, steps, t) && InPhase(t, r, Returned(true))
  }

  /** With nothing more from the peer than it has sent. */
  ghost predicate CanSucceedUnfed(s: System, r: nat) {
    exists steps, t :: Runs(s, steps, t) && NoSends(steps) && InPhase(t, r, Returned(true))
  }

  /** The frame is as long as what is posted for it, if anything is. */
  predicate Agrees(c: Channel, f: Frame) {
    f.key in c.waiting && c.waiting[f.key] in c.recvs ==> c.recvs[c.waiting[f.key]].room == |f.payload|
  }

  predicate NoneBetween(frames: seq<Frame>, from: nat, to: nat, key: Key)
    requires to <= |frames|
  {
    forall j :: from <= j < to ==> frames[j].key != key
  }

  /** So are all frames still to be read, up to and with the one of this key. */
  ghost predicate Clear(s: System, key: Key) {
    forall i: nat :: s.taken <= i < |s.frames| && NoneBetween(s.frames, s.taken, i, key) ==> Agrees(s.c, s.frames[i])
  }

  /** Keys and lengths fit a frame's header. */
  predicate Framed(c: Channel) {
    forall r :: r in c.recvs ==> c.recvs[r].key < U64 && c.recvs[r].room < U32
  }

  lemma TurnFramed(c: Channel, r: nat)
    requires Framed(c) && r in c.recvs
    ensures Framed(Turned(c, r)) && Framed(Failed(c, r))
  {
  }

  lemma PostFramed(c: Channel, r: nat, key: Key, room: nat)
    requires Framed(c) && r !in c.recvs && key < U64 && room < U32
    ensures Framed(Posted(c, r, key, room))
  {
    if key !in c.waiting { TurnFramed(Registered(c, r, key, room), r); }
  }

  lemma SoughtFramed(c: Channel, r: nat, key: Key, length: nat)
    requires Framed(c) && r in c.recvs && forall k :: k in c.waiting ==> c.waiting[k] in c.recvs
    ensures Framed(Sought(c, r, key, length))
  {
    TurnFramed(c, r);
  }

  lemma LandedFramed(c: Channel, r: nat, target: nat, data: seq<byte>)
    requires Framed(c) && r in c.recvs && target in c.recvs
    ensures Framed(Landed(c, r, target, data))
  {
    var filled := c.(recvs := c.recvs[target := c.recvs[target].(done := true, data := data)]);
    if target == r { TurnFramed(Woken(Moved(filled, r, Looping).(reading := false)), r); }
  }

  lemma StepFramed(s: System, step: Step)
    requires Framed(s.c) && Enabled(s, step)
    ensures Framed(Next(s, step).c)
  {
    match step
    case Post(r, key, room) => PostFramed(s.c, r, key, room);
    case Resume(r) => TurnFramed(s.c, r);
    case HeaderArrives(r) =>
      var header := s.wire[s.pos..s.pos + HEADER_SIZE];
      SoughtFramed(s.c, r, KeyIn(header), LengthIn(header));
    case SeekResumes(r) => SoughtFramed(s.c, r, s.c.recvs[r].phase.drive.key, s.c.recvs[r].phase.drive.length);
    case PayloadArrives(r) =>
      var target := s.c.recvs[r].phase.drive.target;
      LandedFramed(s.c, r, target, s.wire[s.pos..s.pos + s.c.recvs[target].room]);
    case ReadFails(r) => TurnFramed(s.c, r);
    case _ =>
  }

  lemma {:induction false} RunFramed(s: System, steps: seq<Step>, t: System)
    requires Framed(s.c) && Runs(s, steps, t)
    ensures Framed(t.c)
    decreases steps
  {
    if steps != [] {
      StepFramed(s, steps[0]);
      RunFramed(Next(s, steps[0]), steps[1..], t);
    }
  }

  // ----- Frames are taken one after the other -----

  /** Open, not served yet, its own frame ahead, and nothing in the way. */
  ghost predicate Due(s: System, r: nat) {
    && Inv(s) && Framed(s.c) && !s.c.failure && Open(s.c, r) && !s.c.recvs[r].done
    && Clear(s, s.c.recvs[r].key) && !NoneAhead(s.frames, s.taken, s.c.recvs[r].key)
  }

  lemma SucceedsAfter(s: System, step: Step, r: nat)
    requires Enabled(s, step) && !step.PeerSends? && CanSucceedUnfed(Next(s, step), r)
    ensures CanSucceedUnfed(s, r)
  {
    var steps, t :| Runs(Next(s, step), steps, t) && NoSends(steps) && InPhase(t, r, Returned(true));
    StepFirst(s, step, steps, t);
    assert NoSends([step] + steps);
  }

  lemma SucceedsNow(s: System, r: nat)
    requires InPhase(s, r, Returned(true))
    ensures CanSucceedUnfed(s, r)
  {
    assert Runs(s, [], s) && NoSends([]);
  }

  lemma ServedSucceeds(s: System, r: nat)
    requires Inv(s) && Open(s.c, r) && s.c.recvs[r].done
    ensures CanSucceedUnfed(s, r)
  {
    assert RecvOk(s, r);
    assert !Drives(s, r);
    SucceedsNow(Next(s, Resume(r)), r);
    SucceedsAfter(s, Resume(r), r);
  }

  /** What is posted for a frame still ahead is not served yet. */
  lemma UnservedAhead(s: System, i: nat)
    requires Inv(s) && s.taken <= i < |s.frames| && s.frames[i].key in s.c.waiting
    ensures Open(s.c, s.c.waiting[s.frames[i].key]) && !s.c.recvs[s.c.waiting[s.frames[i].key]].done
  {
    assert RecvOk(s, s.c.waiting[s.frames[i].key]);
  }

  lemma ClearCarries(s: System, t: System, key: Key)
    requires Clear(s, key) && t.frames == s.frames && s.taken <= t.taken <= |s.frames|
    requires NoneBetween(s.frames, s.taken, t.taken, key)
    requires forall i: nat :: t.taken <= i < |s.frames| && Agrees(s.c, s.frames[i]) ==> Agrees(t.c, s.frames[i])
    ensures Clear(t, key)
  {
    forall i: nat | t.taken <= i < |s.frames| && NoneBetween(s.frames, t.taken, i, key) ensures Agrees(t.c, t.frames[i]) {
      assert NoneBetween(s.frames, s.taken, i, key);
      assert Agrees(s.c, s.frames[i]);
    }
  }

  /** The same table over the same keys and lengths agrees with the same frames. */
  lemma SameTable(c: Channel, d: Channel)
    requires d.waiting == c.waiting && forall k :: k in c.waiting ==>
      c.waiting[k] in c.recvs && c.waiting[k] in d.recvs && d.recvs[c.waiting[k]].room == c.recvs[c.waiting[k]].room
    ensures forall f :: Agrees(c, f) <==> Agrees(d, f)
  {
  }

  /** The receive as it was, in a later state that agrees where the earlier one did. */
  ghost predicate Onward(s: System, t: System, r: nat)
    requires r in s.c.recvs
  {
    && t.frames == s.frames && s.taken <= t.taken <= |s.frames| && !t.c.failure
    && r in t.c.recvs && !t.c.recvs[r].done && !t.c.recvs[r].phase.Returned? && t.c.recvs[r].key == s.c.recvs[r].key
    && NoneBetween(s.frames, s.taken, t.taken, s.c.recvs[r].key)
    && forall i: nat :: t.taken <= i < |s.frames| && Agrees(s.c, s.frames[i]) ==> Agrees(t.c, s.frames[i])
  }

  lemma StaysDue(s: System, step: Step, r: nat)
    requires Due(s, r) && Enabled(s, step) && Onward(s, Next(s, step), r)
    ensures Due(Next(s, step), r)
  {
    var t := Next(s, step);
    StepKeeps(s, step);
    StepFramed(s, step);
    assert RecvOk(t, r);
    ClearCarries(s, t, s.c.recvs[r].key);
    var i :| s.taken <= i < |s.frames| && s.frames[i].key == s.c.recvs[r].key;
    assert t.taken <= i && t.frames[i].key == t.c.recvs[r].key;
  }

  /** The frame next to be read agrees with what is posted for it. */
  lemma NextAgrees(s: System, r: nat)
    requires Due(s, r)
    ensures s.taken < |s.frames| && Agrees(s.c, s.frames[s.taken])
  {
    assert NoneBetween(s.frames, s.taken, s.taken, s.c.recvs[r].key);
  }

  /** Nobody reads: the receive takes the socket itself. */
  lemma FromIdle(s: System, r: nat)
    requires Due(s, r) && !s.c.reading
    ensures CanSucceedUnfed(s, r)
    decreases |s.frames| - s.taken, 4
  {
    assert RecvOk(s, r) && !Drives(s, r);
    SameTable(s.c, Next(s, Resume(r)).c);
    StaysDue(s, Resume(r), r);
    FromHeader(Next(s, Resume(r)), r, r);
    SucceedsAfter(s, Resume(r), r);
  }

  lemma HeaderReady(s: System, d: nat)
    requires Inv(s) && !s.closed && s.taken < |s.frames| && InPhase(s, d, Driving(NeedHeader))
    ensures Enabled(s, HeaderArrives(d)) && Drives(s, d) && d !in s.c.idlers
    ensures Next(s, HeaderArrives(d))
         == s.(c := Sought(s.c, d, s.frames[s.taken].key, |s.frames[s.taken].payload|), pos := s.pos + HEADER_SIZE)
  {
    assert Drives(s, d) && DriverOk(s, d);
    FrameAt(s.frames, s.taken);
    HeaderHere(s);
  }

  lemma HeaderComes(s: System, r: nat, d: nat)
    requires Due(s, r) && InPhase(s, d, Driving(NeedHeader))
    ensures Enabled(s, HeaderArrives(d))
    ensures var t := Next(s, HeaderArrives(d));
      && Due(t, r) && t.frames == s.frames && t.taken == s.taken
      && (Fills(t, d) || (Seeks(t, d) && t.c.recvs[d].phase.drive.key !in t.c.waiting))
  {
    NextAgrees(s, r);
    HeaderReady(s, d);
    SameTable(s.c, Next(s, HeaderArrives(d)).c);
    StaysDue(s, HeaderArrives(d), r);
  }

  /** The reader is between frames: the next header is there. */
  lemma FromHeader(s: System, r: nat, d: nat)
    requires Due(s, r) && InPhase(s, d, Driving(NeedHeader))
    ensures CanSucceedUnfed(s, r)
    decreases |s.frames| - s.taken, 3
  {
    HeaderComes(s, r, d);
    var t := Next(s, HeaderArrives(d));
    if Fills(t, d) { FromFilling(t, r, d); } else { FromSeeking(t, r, d); }
    SucceedsAfter(s, HeaderArrives(d), r);
  }

  lemma {:induction false} Unused(ids: set<nat>) returns (q: nat)
    ensures forall x :: x in ids ==> x < q
  {
    if ids == {} { return 0; }
    var x :| x in ids;
    var rest := Unused(ids - {x});
    q := if x < rest then rest else x + 1;
    forall y | y in ids ensures y < q { assert y == x || y in ids - {x}; }
  }

  lemma PostedForReader(s: System, r: nat, d: nat, q: nat)
    requires Due(s, r) && Seeks(s, d) && s.c.recvs[d].phase.drive.key !in s.c.waiting && q !in s.c.recvs
    ensures var drive := s.c.recvs[d].phase.drive; var step := Post(q, drive.key, drive.length);
      && Enabled(s, step)
      && var t := Next(s, step);
         && Due(t, r) && t.frames == s.frames && t.taken == s.taken
         && Seeks(t, d) && t.c.recvs[d].phase.drive.key in t.c.waiting && d !in t.c.idlers
  {
    assert DriverOk(s, d) && FrameOk(s.frames[s.taken]);
    var drive := s.c.recvs[d].phase.drive;
    StaysDue(s, Post(q, drive.key, drive.length), r);
  }

  /** The reader holds the header of a key nobody has posted: a receive is posted for it. */
  lemma FromSeeking(s: System, r: nat, d: nat)
    requires Due(s, r) && Seeks(s, d) && s.c.recvs[d].phase.drive.key !in s.c.waiting
    ensures CanSucceedUnfed(s, r)
    decreases |s.frames| - s.taken, 2
  {
    var q := Unused(s.c.recvs.Keys);
    PostedForReader(s, r, d, q);
    var drive := s.c.recvs[d].phase.drive;
    FromPosted(Next(s, Post(q, drive.key, drive.length)), r, d);
    SucceedsAfter(s, Post(q, drive.key, drive.length), r);
  }

  /** The reader finds a receive of the frame's length under its key. */
  lemma FromPosted(s: System, r: nat, d: nat)
    requires Due(s, r) && Seeks(s, d) && s.c.recvs[d].phase.drive.key in s.c.waiting && d !in s.c.idlers
    ensures CanSucceedUnfed(s, r)
    decreases |s.frames| - s.taken, 1
  {
    NextAgrees(s, r);
    assert DriverOk(s, d);
    SameTable(s.c, Next(s, SeekResumes(d)).c);
    StaysDue(s, SeekResumes(d), r);
    FromFilling(Next(s, SeekResumes(d)), r, d);
    SucceedsAfter(s, SeekResumes(d), r);
  }

  /** A landing changes no length, and takes no key but the reader's own out of the table. */
  lemma LandedTable(c: Channel, d: nat, target: nat, data: seq<byte>)
    requires d in c.recvs && target in c.recvs
    ensures var e := Landed(c, d, target, data); forall f :: Agrees(c, f) ==> Agrees(e, f)
  {
  }

  lemma LandedSpares(c: Channel, d: nat, target: nat, data: seq<byte>, r: nat)
    requires d in c.recvs && target in c.recvs && !c.failure
    requires r in c.recvs && r != target && !c.recvs[r].done && !c.recvs[r].phase.Returned?
    ensures var e := Landed(c, d, target, data);
      !e.failure && r in e.recvs && !e.recvs[r].done && !e.recvs[r].phase.Returned? && e.recvs[r].key == c.recvs[r].key
  {
  }

  lemma PayloadReady(s: System, d: nat)
    requires Inv(s) && !s.c.failure && Fills(s, d)
    ensures var target := s.c.recvs[d].phase.drive.target;
      && s.taken < |s.frames| && Open(s.c, target) && s.c.recvs[target].key == s.frames[s.taken].key
      && Enabled(s, PayloadArrives(d))
      && Next(s, PayloadArrives(d)).c == Landed(s.c, d, target, s.frames[s.taken].payload)
  {
    assert DriverOk(s, d);
    PayloadHere(s);
  }

  lemma PayloadServes(s: System, r: nat, d: nat)
    requires Inv(s) && !s.c.failure && Fills(s, d) && s.c.recvs[d].phase.drive.target == r
    requires Enabled(s, PayloadArrives(d))
    ensures CanSucceedUnfed(s, r)
  {
    PayloadReady(s, d);
    var t := Next(s, PayloadArrives(d));
    if r == d {
      SucceedsNow(t, r);
    } else {
      StepKeeps(s, PayloadArrives(d));
      assert RecvOk(t, r);
      ServedSucceeds(t, r);
    }
    SucceedsAfter(s, PayloadArrives(d), r);
  }

  lemma PayloadOnward(s: System, r: nat, d: nat)
    requires Due(s, r) && Fills(s, d) && s.c.recvs[d].phase.drive.target != r && Enabled(s, PayloadArrives(d))
    ensures Onward(s, Next(s, PayloadArrives(d)), r)
  {
    PayloadReady(s, d);
    var target, data, t := s.c.recvs[d].phase.drive.target, s.frames[s.taken].payload, Next(s, PayloadArrives(d));
    forall i: nat | t.taken <= i < |s.frames| && Agrees(s.c, s.frames[i]) ensures Agrees(t.c, s.frames[i]) {
      LandedTable(s.c, d, target, data);
    }
    LandedSpares(s.c, d, target, data, r);
    assert s.frames[s.taken].key != s.c.recvs[r].key;
  }

  /** The payload is read: the receive is served, or the next frame's turn comes. */
  lemma FromFilling(s: System, r: nat, d: nat)
    requires Due(s, r) && Fills(s, d)
    ensures CanSucceedUnfed(s, r)
    decreases |s.frames| - s.taken, 0
  {
    PayloadReady(s, d);
    if s.c.recvs[d].phase.drive.target == r {
      PayloadServes(s, r, d);
    } else {
      PayloadOnward(s, r, d);
      StaysDue(s, PayloadArrives(d), r);
      Completes(Next(s, PayloadArrives(d)), r);
      SucceedsAfter(s, PayloadArrives(d), r);
    }
  }

  lemma Completes(s: System, r: nat)
    requires Due(s, r)
    ensures CanSucceedUnfed(s, r)
    decreases |s.frames| - s.taken, 5
  {
    if !s.c.reading {
      FromIdle(s, r);
    } else {
      var d :| Drives(s, d);
      assert DriverOk(s, d);
      match s.c.recvs[d].phase.drive
      case NeedHeader => FromHeader(s, r, d);
      case Seeking(key, _) => if key in s.c.waiting { FromPosted(s, r, d); } else { FromSeeking(s, r, d); }
      case Filling(_) => FromFilling(s, r, d);
    }
  }

  // ----- A frame of another length stays in the way -----

  /** Frame `i` comes no later than the receive's own and is not as long as what is posted for it. */
  predicate Blocks(s: System, r: nat, i: nat) {
    && r in s.c.recvs && s.taken <= i < |s.frames| && NoneBetween(s.frames, s.taken, i, s.c.recvs[r].key)
    && s.frames[i].key in s.c.waiting && !Agrees(s.c, s.frames[i])
  }

  /** Not served, and the channel has failed, the receive has returned, or a frame is in its way. */
  ghost predicate Doomed(s: System, r: nat) {
    && r in s.c.recvs && !s.c.recvs[r].done
    && (s.c.failure || s.c.recvs[r].phase.Returned? || exists i :: Blocks(s, r, i))
  }

  /** Nobody is lost, nobody's key or length changes, nobody but `target` is served, and who has returned has. */
  predicate Grows(c: Channel, d: Channel, target: int) {
    forall q :: q in c.recvs ==> q in d.recvs && Grown(c.recvs[q], d.recvs[q], q == target)
  }

  predicate Grown(a: Recv, b: Recv, served: bool) {
    b.key == a.key && b.room == a.room && (served || b.done == a.done) && (a.phase.Returned? ==> b.phase.Returned?)
  }

  lemma TurnGrows(c: Channel, r: nat)
    requires r in c.recvs && !c.recvs[r].phase.Returned?
    ensures Grows(c, Turned(c, r), -1) && Grows(c, Failed(c, r), -1)
  {
  }

  lemma PostGrows(c: Channel, r: nat, key: Key, room: nat)
    requires r !in c.recvs
    ensures Grows(c, Posted(c, r, key, room), -1)
  {
    if key !in c.waiting { TurnGrows(Registered(c, r, key, room), r); }
  }

  lemma SoughtGrows(c: Channel, r: nat, key: Key, length: nat)
    requires r in c.recvs && !c.recvs[r].phase.Returned? && forall k :: k in c.waiting ==> c.waiting[k] in c.recvs
    ensures Grows(c, Sought(c, r, key, length), -1)
  {
    TurnGrows(c, r);
  }

  lemma LandGrows(c: Channel, r: nat, target: nat, data: seq<byte>)
    requires r in c.recvs && target in c.recvs && !c.recvs[r].phase.Returned?
    ensures Grows(c, Landed(c, r, target, data), target)
  {
    var filled := c.(recvs := c.recvs[target := c.recvs[target].(done := true, data := data)]);
    if target == r { TurnGrows(Woken(Moved(filled, r, Looping).(reading := false)), r); }
  }

  /** Whom a step serves, if anyone. */
  function Served(s: System, step: Step): int {
    if step.PayloadArrives? && Fills(s, step.r) then s.c.recvs[step.r].phase.drive.target else -1
  }

  lemma SearchGrows(s: System, step: Step)
    requires Enabled(s, step) && (step.HeaderArrives? || step.SeekResumes?)
    ensures Grows(s.c, Next(s, step).c, -1)
  {
    if step.HeaderArrives? {
      var header := s.wire[s.pos..s.pos + HEADER_SIZE];
      SoughtGrows(s.c, step.r, KeyIn(header), LengthIn(header));
    } else {
      SoughtGrows(s.c, step.r, s.c.recvs[step.r].phase.drive.key, s.c.recvs[step.r].phase.drive.length);
    }
  }

  lemma PayloadGrows(s: System, r: nat)
    requires Enabled(s, PayloadArrives(r))
    ensures Grows(s.c, Next(s, PayloadArrives(r)).c, Served(s, PayloadArrives(r)))
  {
    var target := s.c.recvs[r].phase.drive.target;
    var data := s.wire[s.pos..s.pos + s.c.recvs[target].room];
    var t := Next(s, PayloadArrives(r));
    assert t.c == Landed(s.c, r, target, data);
    forall q | q in s.c.recvs ensures q in t.c.recvs && Grown(s.c.recvs[q], t.c.recvs[q], q == target) {
      LandGrows(s.c, r, target, data);
    }
  }

  lemma StepGrows(s: System, step: Step)
    requires Enabled(s, step)
    ensures Grows(s.c, Next(s, step).c, Served(s, step))
  {
    match step
    case Post(r, key, room) => PostGrows(s.c, r, key, room);
    case Resume(r) => TurnGrows(s.c, r);
    case ReadFails(r) => TurnGrows(s.c, r);
    case HeaderArrives(_) => SearchGrows(s, step);
    case SeekResumes(_) => SearchGrows(s, step);
    case PayloadArrives(r) => PayloadGrows(s, r);
    case PeerSends(_) =>
    case Close =>
  }

  lemma FailedStays(s: System, step: Step)
    requires Enabled(s, step) && s.c.failure
    ensures Next(s, step).c.failure
  {
  }

  /** What a payload serves is open, unserved, posted for the frame next to be read and of its length. */
  lemma ServesNext(s: System, d: nat)
    requires Inv(s) && Enabled(s, PayloadArrives(d))
    ensures var target := Served(s, PayloadArrives(d));
      && target >= 0 && Open(s.c, target) && s.taken < |s.frames| && !s.c.failure
      && s.c.recvs[target as nat].key == s.frames[s.taken].key && Agrees(s.c, s.frames[s.taken])
  {
    assert DriverOk(s, d);
  }

  /** A landing takes no key out of the table but the reader's own, served key. */
  lemma LandedLeaves(c: Channel, d: nat, target: nat, data: seq<byte>, k: Key)
    requires d in c.recvs && target in c.recvs && k in c.waiting && c.recvs[target].key != k
    ensures k in Landed(c, d, target, data).waiting && Landed(c, d, target, data).waiting[k] == c.waiting[k]
  {
  }

  lemma TurnedLeaves(c: Channel, r: nat, k: Key)
    requires r in c.recvs && k in c.waiting && !c.failure && (c.recvs[r].done ==> c.recvs[r].key != k)
    ensures k in Turned(c, r).waiting && Turned(c, r).waiting[k] == c.waiting[k]
  {
  }

  /** What is posted for the blocking frame stays so, unless the channel fails. */
  lemma TableStays(s: System, step: Step, i: nat)
    requires Inv(s) && Enabled(s, step) && !Next(s, step).c.failure
    requires s.taken <= i < |s.frames| && s.frames[i].key in s.c.waiting && (step.PayloadArrives? ==> s.taken < i)
    ensures var k := s.frames[i].key; k in Next(s, step).c.waiting && Next(s, step).c.waiting[k] == s.c.waiting[k]
  {
    var k := s.frames[i].key;
    match step
    case PayloadArrives(r) => PayloadLeaves(s, r, i);
    case Resume(r) =>
      UnservedAhead(s, i);
      assert RecvOk(s, r);
      TurnedLeaves(s.c, r, k);
    case Post(r, key, room) => if key !in s.c.waiting { TurnedLeaves(Registered(s.c, r, key, room), r, k); }
    case _ =>
  }

  lemma PayloadLeaves(s: System, d: nat, i: nat)
    requires Inv(s) && Enabled(s, PayloadArrives(d)) && s.taken < i < |s.frames| && s.frames[i].key in s.c.waiting
    ensures var t, k := Next(s, PayloadArrives(d)), s.frames[i].key; k in t.c.waiting && t.c.waiting[k] == s.c.waiting[k]
  {
    ServesNext(s, d);
    var target := s.c.recvs[d].phase.drive.target;
    LandedLeaves(s.c, d, target, s.wire[s.pos..s.pos + s.c.recvs[target].room], s.frames[i].key);
  }

  lemma FramesStay(s: System, step: Step)
    requires Enabled(s, step)
    ensures s.frames <= Next(s, step).frames && Next(s, step).taken == s.taken + if step.PayloadArrives? then 1 else 0
  {
  }

  lemma BlockedStays(s: System, step: Step, r: nat, i: nat)
    requires Inv(s) && Enabled(s, step) && Blocks(s, r, i) && !Next(s, step).c.failure
    ensures Blocks(Next(s, step), r, i)
  {
    if step.PayloadArrives? { ServesNext(s, step.r); }
    StepGrows(s, step);
    TableStays(s, step, i);
    FramesStay(s, step);
    BlocksOn(s, Next(s, step), r, i, Served(s, step));
  }

  lemma BlocksOn(s: System, t: System, r: nat, i: nat, target: int)
    requires Blocks(s, r, i) && Grows(s.c, t.c, target) && s.frames <= t.frames && s.taken <= t.taken <= i
    requires var k := s.frames[i].key; k in t.c.waiting && t.c.waiting[k] == s.c.waiting[k]
    ensures Blocks(t, r, i)
  {
    assert forall j :: 0 <= j < |s.frames| ==> t.frames[j] == s.frames[j];
  }

  lemma DoomedStays(s: System, step: Step, r: nat)
    requires Inv(s) && Enabled(s, step) && Doomed(s, r)
    ensures Doomed(Next(s, step), r)
  {
    var t := Next(s, step);
    StepGrows(s, step);
    if step.PayloadArrives? { ServesNext(s, step.r); }
    if s.c.failure {
      FailedStays(s, step);
    } else if !s.c.recvs[r].phase.Returned? && !t.c.failure {
      var i :| Blocks(s, r, i);
      BlockedStays(s, step, r, i);
    }
  }

  lemma {:induction false} DoomedForEver(s: System, steps: seq<Step>, t: System, r: nat)
    requires Inv(s) && Doomed(s, r) && Runs(s, steps, t)
    ensures !InPhase(t, r, Returned(true))
    decreases steps
  {
    if steps == [] {
      assert RecvOk(s, r);
    } else {
      DoomedStays(s, steps[0], r);
      StepKeeps(s, steps[0]);
      DoomedForEver(Next(s, steps[0]), steps[1..], t, r);
    }
  }

  // ----- Exactly when a receive can succeed -----

  ghost predicate Reached(s: System) {
    exists steps :: Runs(INIT, steps, s)
  }

  lemma ReachedHolds(s: System)
    requires Reached(s)
    ensures Inv(s) && Framed(s.c)
  {
    var steps :| Runs(INIT, steps, s);
    InitHolds();
    RunKeeps(INIT, steps, s);
    RunFramed(INIT, steps, s);
  }

  /** The peer sends what the receive waits for. */
  lemma FedIsDue(s: System, r: nat, f: Frame)
    requires Inv(s) && Framed(s.c) && !s.c.failure && Open(s.c, r) && !s.c.recvs[r].done
    requires Clear(s, s.c.recvs[r].key) && NoneAhead(s.frames, s.taken, s.c.recvs[r].key)
    requires f.key == s.c.recvs[r].key && |f.payload| == s.c.recvs[r].room
    ensures Enabled(s, PeerSends(f)) && Due(Next(s, PeerSends(f)), r)
  {
    forall q | q in s.c.recvs && s.c.recvs[q].done && !s.c.recvs[q].phase.Returned? ensures s.c.recvs[q].key != f.key {
      assert RecvOk(s, q);
    }
    var t := Next(s, PeerSends(f));
    PeerSendsKeeps(s, f);
    forall i: nat | t.taken <= i < |t.frames| && NoneBetween(t.frames, t.taken, i, f.key) ensures Agrees(t.c, t.frames[i]) {
      if i < |s.frames| { assert NoneBetween(s.frames, s.taken, i, f.key) && t.frames[i] == s.frames[i]; }
    }
    assert t.frames[|s.frames|] == f;
  }

  lemma UnclearIsDoomed(s: System, r: nat)
    requires Inv(s) && Open(s.c, r) && !s.c.recvs[r].done && !Clear(s, s.c.recvs[r].key)
    ensures Doomed(s, r)
  {
    var i: nat :| s.taken <= i < |s.frames| && NoneBetween(s.frames, s.taken, i, s.c.recvs[r].key) && !Agrees(s.c, s.frames[i]);
    assert Blocks(s, r, i);
  }

  /**
    While the channel has not failed, a receive can still succeed exactly when it
    has been served, or no frame up to its own differs in length from what is
    posted for it.
   */
  lemma SucceedsExactly(s: System, r: nat)
    requires Reached(s) && !s.c.failure && Open(s.c, r)
    ensures CanSucceed(s, r) <==> s.c.recvs[r].done || Clear(s, s.c.recvs[r].key)
  {
    ReachedHolds(s);
    if s.c.recvs[r].done {
      ServedSucceeds(s, r);
    } else if !Clear(s, s.c.recvs[r].key) {
      UnclearIsDoomed(s, r);
      forall steps, t | Runs(s, steps, t) ensures !InPhase(t, r, Returned(true)) { DoomedForEver(s, steps, t, r); }
    } else if NoneAhead(s.frames, s.taken, s.c.recvs[r].key) {
      var f := Frame(s.c.recvs[r].key, seq(s.c.recvs[r].room, _ => 0));
      FedIsDue(s, r, f);
      Completes(Next(s, PeerSends(f)), r);
      SucceedsFed(s, f, r);
    } else {
      Completes(s, r);
    }
  }

  lemma SucceedsFed(s: System, f: Frame, r: nat)
    requires Enabled(s, PeerSends(f)) && CanSucceedUnfed(Next(s, PeerSends(f)), r)
    ensures CanSucceed(s, r)
  {
    var steps, t :| Runs(Next(s, PeerSends(f)), steps, t) && NoSends(steps) && InPhase(t, r, Returned(true));
    StepFirst(s, PeerSends(f), steps, t);
  }

  /** With no frame of its key ahead and none sent, a receive is never served. */
  lemma {:induction false} NeverFed(s: System, steps: seq<Step>, t: System, r: nat)
    requires Inv(s) && Runs(s, steps, t) && NoSends(steps)
    requires r in s.c.recvs && !s.c.recvs[r].done && NoneAhead(s.frames, s.taken, s.c.recvs[r].key)
    ensures !InPhase(t, r, Returned(true))
    decreases steps
  {
    if steps == [] {
      assert RecvOk(s, r);
    } else {
      StepGrows(s, steps[0]);
      if steps[0].PayloadArrives? { ServesNext(s, steps[0].r); }
      StepKeeps(s, steps[0]);
      NeverFed(Next(s, steps[0]), steps[1..], t, r);
    }
  }

  /** And with what the peer has sent alone, exactly when moreover its own frame is among it. */
  lemma SucceedsUnfedExactly(s: System, r: nat)
    requires Reached(s) && !s.c.failure && Open(s.c, r)
    ensures CanSucceedUnfed(s, r) <==>
      s.c.recvs[r].done || (!NoneAhead(s.frames, s.taken, s.c.recvs[r].key) && Clear(s, s.c.recvs[r].key))
  {
    ReachedHolds(s);
    if s.c.recvs[r].done {
      ServedSucceeds(s, r);
    } else if NoneAhead(s.frames, s.taken, s.c.recvs[r].key) {
      forall steps, t | Runs(s, steps, t) && NoSends(steps) ensures !InPhase(t, r, Returned(true)) { NeverFed(s, steps, t, r); }
    } else if Clear(s, s.c.recvs[r].key) {
      Completes(s, r);
    } else {
      UnclearIsDoomed(s, r);
      forall steps, t | Runs(s, steps, t) ensures !InPhase(t, r, Returned(true)) { DoomedForEver(s, steps, t, r); }
    }
  }

  /** A frame of the wrong length for one receive keeps another from ever succeeding. */
  lemma WrongLengthEndsOthers() returns (steps: seq<Step>, s: System)
    ensures Runs(INIT, steps, s) && !s.c.failure && Open(s.c, 1) && s.c.recvs[1].key == 2
    ensures s.frames == [Frame(1, [7])] && !CanSucceed(s, 1)
  {
    steps, s := WrongLengthSent();
    assert NoneBetween(s.frames, 0, 0, 2) && !Agrees(s.c, s.frames[0]);
    assert Reached(s) && !Clear(s, 2);
    SucceedsExactly(s, 1);
  }

  lemma WrongLengthSent() returns (steps: seq<Step>, s: System)
    ensures Runs(INIT, steps, s) && !s.c.failure && Open(s.c, 0) && Open(s.c, 1) && s.taken == 0
    ensures s.c.recvs[0].key == 1 && s.c.recvs[0].room == 0 && s.c.recvs[1].key == 2 && !s.c.recvs[1].done
    ensures s.frames == [Frame(1, [7])]
  {
    var f := Frame(1, [7]);
    var s1 := Next(INIT, Post(0, 1, 0));
    var s2 := Next(s1, Post(1, 2, 0));
    s := Next(s2, PeerSends(f));
    StepFirst(s2, PeerSends(f), [], s);
    StepFirst(s1, Post(1, 2, 0), [PeerSends(f)] + [], s);
    StepFirst(INIT, Post(0, 1, 0), [Post(1, 2, 0)] + ([PeerSends(f)] + []), s);
    steps := [Post(0, 1, 0)] + ([Post(1, 2, 0)] + ([PeerSends(f)] + []));
  }
}
