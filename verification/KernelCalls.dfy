/**
  Requests multiplexed on one kernel connection: a list of calls, a reader for
  replies, a reader for tcp data frames, and a kill that fails what is left.
 */
module KernelCalls {

  datatype Outcome = Pending | Answer(what: nat) | Failure(why: int)

  /** How far the owner has got in leaving: off the list, then gone with its buffer. */
  datatype Ending = Active | Unlinked(sawBusy: bool) | Gone

  datatype Call = Call(
    want: nat, room: nat, wantsData: bool,
    answered: bool, reply: Outcome,
    delivered: bool, data: Outcome, busy: bool, released: nat,
    ending: Ending)

  const PAGE_SIZE: nat := 0x10_0000

  datatype Reader = Idle | Filling(id: nat)

  /** What the data reader does with a frame's header: fill a buffer, read past the frame, or give the connection up. */
  datatype Verdict = Accept | Drain | Refuse

  datatype Conn = Conn(calls: map<nat, Call>, dead: bool, reader: Reader)

  predicate Listed(s: Conn, id: nat) {
    id in s.calls && s.calls[id].ending.Active?
  }

  function Begun(s: Conn, id: nat, want: nat, room: nat, wantsData: bool): Conn {
    if s.dead then s
    else s.(calls := s.calls[id := Call(want, room, wantsData, false, Pending, false, Pending, false, 0, Active)])
  }

  /** A reply is taken by a listed call that wants its type and has no answer yet. */
  predicate Accepts(s: Conn, id: nat, kind: nat) {
    Listed(s, id) && s.calls[id].want == kind && !s.calls[id].answered
  }

  /** A reply the reader must treat as a broken peer: of the wrong type, or a second one. */
  predicate Refuses(s: Conn, id: nat, kind: nat) {
    Listed(s, id) && !Accepts(s, id, kind)
  }

  function Replied(s: Conn, id: nat, kind: nat, what: nat): Conn {
    if Accepts(s, id, kind)
    then s.(calls := s.calls[id := s.calls[id].(answered := true, reply := Answer(what))])
    else s
  }

  predicate TakesFrame(s: Conn, id: nat, length: nat) {
    Listed(s, id) && s.calls[id].wantsData && length <= s.calls[id].room && length <= PAGE_SIZE
  }

  function FrameStarted(s: Conn, id: nat): Conn
    requires id in s.calls
  {
    s.(calls := s.calls[id := s.calls[id].(busy := true)], reader := Filling(id))
  }

  function FrameFinished(s: Conn, id: nat, ok: bool, what: nat, why: int): Conn
    requires id in s.calls
  {
    var c := s.calls[id];
    s.(calls := s.calls[id := c.(busy := false, data := if ok then Answer(what) else Failure(why),
                                 delivered := ok, released := c.released + 1)],
       reader := Idle)
  }

  function FailedCall(c: Call, why: int): Call {
    c.(reply := if c.answered then c.reply else Failure(why), data := if c.delivered then c.data else Failure(why))
  }

  function Killed(s: Conn, why: int): Conn {
    if s.dead then s
    else s.(dead := true,
            calls := map id | id in s.calls :: if Listed(s, id) then FailedCall(s.calls[id], why) else s.calls[id])
  }

  function Unlisted(s: Conn, id: nat): Conn
    requires id in s.calls
  {
    s.(calls := s.calls[id := s.calls[id].(ending := Unlinked(s.calls[id].busy))])
  }

  /** The owner may go at once, or once a release it waited for has been signalled. */
  predicate MayGo(c: Call) {
    c.ending.Unlinked? && (c.ending.sawBusy ==> c.released > 0)
  }

  function Left(s: Conn, id: nat): Conn
    requires id in s.calls && MayGo(s.calls[id])
  {
    var c := s.calls[id];
    s.(calls := s.calls[id := c.(ending := Gone, released := if c.ending.sawBusy then c.released - 1 else c.released)])
  }

  class Connection {
    var calls: map<nat, Call>
    var list: seq<nat>
    var dead: bool
    var reader: Reader

    ghost function View(): Conn
      reads this
    {
      Conn(calls, dead, reader)
    }

    /** The list holds each active call once. */
    ghost predicate Valid()
      reads this
    {
      && (forall i, j :: 0 <= i < j < |list| ==> list[i] != list[j])
      && (forall id: nat :: id in list <==> Listed(View(), id))
    }

    constructor ()
      ensures Valid() && View() == INIT
    {
      calls, list, dead, reader := map[], [], false, Idle;
    }

    method CallBegin(id: nat, want: nat, room: nat, wantsData: bool) returns (ok: bool)
      requires Valid() && id !in calls
      modifies this`calls, this`list
      ensures Valid() && ok == !dead && View() == Begun(old(View()), id, want, room, wantsData)
    {
      if dead { return false; }
      assert id !in list by { assert !Listed(View(), id); }
      calls := calls[id := Call(want, room, wantsData, false, Pending, false, Pending, false, 0, Active)];
      list := list + [id];
      return true;
    }

    /** The listed call with this id, if there is one. */
    method CallFor(id: nat) returns (at: nat)
      requires Valid()
      ensures at <= |list| && (at < |list| <==> Listed(View(), id)) && (at < |list| ==> list[at] == id)
    {
      at := 0;
      while at < |list| && list[at] != id
        invariant at <= |list| && id !in list[..at]
      {
        at := at + 1;
      }
      assert at == |list| ==> list[..at] == list;
      assert at < |list| ==> id in list;
    }

    /** One control frame. False tells the reader to give the connection up. */
    method Deliver(id: nat, kind: nat, what: nat) returns (ok: bool)
      requires Valid()
      modifies this`calls
      ensures Valid() && View() == Replied(old(View()), id, kind, what)
      ensures ok <==> (Listed(old(View()), id) ==> old(calls)[id].want == kind && !old(calls)[id].answered)
      ensures !ok || !Listed(old(View()), id) ==> View() == old(View())
    {
      var at := CallFor(id);
      if at == |list| { return true; }
      if calls[id].want != kind { return false; }
      if calls[id].answered { return false; }
      calls := calls[id := calls[id].(answered := true, reply := Answer(what))];
      return true;
    }

    /** Every listed call without an answer fails; a second kill finds it done. */
    method Kill(why: int)
      requires Valid()
      modifies this`calls, this`dead
      ensures Valid() && View() == Killed(old(View()), why)
    {
      if dead { return; }
      dead := true;
      ghost var before := old(View());
      for i := 0 to |list|
        invariant dead && reader == old(reader) && calls.Keys == before.calls.Keys
        invariant forall id :: id in calls ==>
          calls[id] == if id in list[..i] then FailedCall(before.calls[id], why) else before.calls[id]
      {
        assert list[..i + 1] == list[..i] + [list[i]];
        assert list[i] in list && list[i] !in list[..i];
        calls := calls[list[i] := FailedCall(calls[list[i]], why)];
      }
      assert list[..|list|] == list;
    }

    /** A data frame's header. Only a buffer that wants the frame and holds it is ever filled. */
    method BeginFrame(id: nat, length: nat) returns (verdict: Verdict)
      requires Valid() && reader.Idle?
      modifies this`calls, this`reader
      ensures Valid()
      ensures verdict == Accept <==>
        Listed(old(View()), id) && old(calls)[id].wantsData && length <= old(calls)[id].room && length <= PAGE_SIZE
      ensures verdict == Drain <==> !(Listed(old(View()), id) && old(calls)[id].wantsData) && length <= PAGE_SIZE
      ensures verdict == Accept ==> TakesFrame(old(View()), id, length) && View() == FrameStarted(old(View()), id)
      ensures verdict != Accept ==> View() == old(View())
    {
      if length > PAGE_SIZE { return Refuse; }
      var at := CallFor(id);
      if at == |list| { return Drain; }
      if !calls[id].wantsData { return Drain; }
      if length > calls[id].room { return Refuse; }
      calls := calls[id := calls[id].(busy := true)];
      reader := Filling(id);
      return Accept;
    }

    /** The frame's payload is in the buffer, or could not be read; either way its owner may go. */
    method EndFrame(ok: bool, what: nat, why: int)
      requires Valid() && reader.Filling? && reader.id in calls
      modifies this`calls, this`reader
      ensures Valid() && View() == FrameFinished(old(View()), old(reader).id, ok, what, why)
      ensures var c := calls[old(reader).id]; !c.busy && c.released == old(calls)[old(reader).id].released + 1
      ensures var c := calls[old(reader).id]; c.delivered == ok && c.data == if ok then Answer(what) else Failure(why)
    {
      var c := calls[reader.id];
      calls := calls[reader.id := c.(busy := false, data := if ok then Answer(what) else Failure(why),
                                     delivered := ok, released := c.released + 1)];
      reader := Idle;
    }

    method Unlink(id: nat) returns (busy: bool)
      requires Valid() && Listed(View(), id)
      modifies this`calls, this`list
      ensures Valid() && busy == old(calls)[id].busy && View() == Unlisted(old(View()), id)
    {
      var at := CallFor(id);
      busy := calls[id].busy;
      calls := calls[id := calls[id].(ending := Unlinked(busy))];
      RemovedOnce(list, at);
      list := list[..at] + list[at + 1..];
    }
  }

  lemma RemovedOnce(list: seq<nat>, at: nat)
    requires at < |list| && forall i, j :: 0 <= i < j < |list| ==> list[i] != list[j]
    ensures var rest := list[..at] + list[at + 1..];
      && (forall i, j :: 0 <= i < j < |rest| ==> rest[i] != rest[j])
      && (forall id :: id in rest <==> id in list && id != list[at])
  {
    var rest := list[..at] + list[at + 1..];
    forall id | id in list && id != list[at] ensures id in rest {
      var i :| 0 <= i < |list| && list[i] == id;
      assert rest[if i < at then i else i - 1] == id;
    }
  }

  const INIT := Conn(map[], false, Idle)

  // ----- Every interleaving -----

  datatype Step =
    | Begin(id: nat, want: nat, room: nat, wantsData: bool)
    | Reply(id: nat, kind: nat, what: nat)
    | FrameStart(id: nat, length: nat)
    | Fill
    | FrameFinish(ok: bool, what: nat, why: int)
    | Kill(why: int)
    | Unlink(id: nat)
    | Leave(id: nat)

  predicate Enabled(s: Conn, step: Step) {
    match step
    case Begin(id, _, _, _) => id !in s.calls
    case Reply(_, _, _) => true
    case FrameStart(id, length) => s.reader.Idle? && TakesFrame(s, id, length)
    case Fill => s.reader.Filling?
    case FrameFinish(_, _, _) => s.reader.Filling? && s.reader.id in s.calls
    case Kill(_) => true
    case Unlink(id) => Listed(s, id)
    case Leave(id) => id in s.calls && MayGo(s.calls[id])
  }

  function Next(s: Conn, step: Step): Conn
    requires Enabled(s, step)
  {
    match step
    case Begin(id, want, room, wantsData) => Begun(s, id, want, room, wantsData)
    case Reply(id, kind, what) => Replied(s, id, kind, what)
    case FrameStart(id, _) => FrameStarted(s, id)
    case Fill => s
    case FrameFinish(ok, what, why) => FrameFinished(s, s.reader.id, ok, what, why)
    case Kill(why) => Killed(s, why)
    case Unlink(id) => Unlisted(s, id)
    case Leave(id) => Left(s, id)
  }

  ghost predicate Runs(s: Conn, steps: seq<Step>, t: Conn)
    decreases steps
  {
    if steps == [] then t == s
    else Enabled(s, steps[0]) && Runs(Next(s, steps[0]), steps[1..], t)
  }

  /** The replies that were taken for one call. */
  ghost function Taken(s: Conn, steps: seq<Step>, id: nat): seq<nat>
    decreases steps
  {
    if steps == [] || !Enabled(s, steps[0]) then []
    else
      (if steps[0].Reply? && steps[0].id == id && Accepts(s, id, steps[0].kind) then [steps[0].what] else [])
      + Taken(Next(s, steps[0]), steps[1..], id)
  }

  /** In every run a call takes at most one reply, and what it holds at the end is that reply, kills or not. */
  lemma {:induction false} AtMostOneReply(s: Conn, steps: seq<Step>, t: Conn, id: nat)
    requires Runs(s, steps, t)
    requires id in s.calls ==> s.calls[id].answered == s.calls[id].reply.Answer?
    ensures id in s.calls ==> id in t.calls
    ensures id in t.calls ==> t.calls[id].answered == t.calls[id].reply.Answer?
    ensures id in s.calls && s.calls[id].answered ==> Taken(s, steps, id) == [] && t.calls[id].reply == s.calls[id].reply
    ensures !(id in s.calls && s.calls[id].answered) ==>
      && |Taken(s, steps, id)| <= 1
      && (Taken(s, steps, id) != [] ==> id in t.calls && t.calls[id].reply == Answer(Taken(s, steps, id)[0]))
      && (id in t.calls && Taken(s, steps, id) == [] ==> !t.calls[id].answered)
    decreases steps
  {
    if steps != [] { AtMostOneReply(Next(s, steps[0]), steps[1..], t, id); }
  }

  // ----- What comes of a call -----

  /** No reply of this type came for the call. */
  predicate NoReply(steps: seq<Step>, id: nat, kind: nat) {
    forall i :: 0 <= i < |steps| ==> !(steps[i].Reply? && steps[i].id == id && steps[i].kind == kind)
  }

  predicate Unanswered(s: Conn, id: nat, kind: nat) {
    id in s.calls && s.calls[id].want == kind ==> !s.calls[id].answered
  }

  lemma {:induction false} OnlyRepliesAnswer(s: Conn, steps: seq<Step>, t: Conn, id: nat, kind: nat)
    requires Runs(s, steps, t) && NoReply(steps, id, kind) && Unanswered(s, id, kind)
    ensures Unanswered(t, id, kind)
    decreases steps
  {
    if steps != [] { OnlyRepliesAnswer(Next(s, steps[0]), steps[1..], t, id, kind); }
  }

  /** The first reply of the wanted type is the call's answer for good, and the reader goes on. */
  lemma FirstReplyAnswers(before: seq<Step>, s: Conn, id: nat, kind: nat, what: nat, later: seq<Step>, t: Conn)
    requires Runs(INIT, before, s) && NoReply(before, id, kind) && Listed(s, id) && s.calls[id].want == kind
    requires Runs(Next(s, Reply(id, kind, what)), later, t)
    ensures id in t.calls && t.calls[id].reply == Answer(what) && !Refuses(s, id, kind)
  {
    OnlyRepliesAnswer(INIT, before, s, id, kind);
    AtMostOneReply(Next(s, Reply(id, kind, what)), later, t, id);
  }

  predicate FailedWith(s: Conn, id: nat, why: int) {
    s.dead && id in s.calls && !s.calls[id].answered && s.calls[id].reply == Failure(why)
  }

  lemma {:induction false} StaysFailed(s: Conn, steps: seq<Step>, t: Conn, id: nat, why: int)
    requires FailedWith(s, id, why) && Runs(s, steps, t) && NoReply(steps, id, s.calls[id].want)
    ensures FailedWith(t, id, why)
    decreases steps
  {
    if steps != [] { StaysFailed(Next(s, steps[0]), steps[1..], t, id, why); }
  }

  /** The first kill fails every listed call without an answer, for good unless its reply was still on the way. */
  lemma KillFailsTheUnanswered(before: seq<Step>, s: Conn, why: int, later: seq<Step>, t: Conn, id: nat)
    requires Runs(INIT, before, s) && !s.dead && Listed(s, id) && NoReply(before, id, s.calls[id].want)
    requires Runs(Next(s, Kill(why)), later, t) && NoReply(later, id, s.calls[id].want)
    ensures id in t.calls && t.calls[id].reply == Failure(why)
  {
    OnlyRepliesAnswer(INIT, before, s, id, s.calls[id].want);
    StaysFailed(Next(s, Kill(why)), later, t, id, why);
  }

  /** A call holds what it was given, and on a dead connection no listed one is left without an outcome. */
  predicate HasOutcome(s: Conn, id: nat) {
    id in s.calls ==>
      var c := s.calls[id];
      && c.answered == c.reply.Answer? && (c.delivered ==> c.data.Answer?)
      && (s.dead && c.ending.Active? ==> !c.reply.Pending? && !c.data.Pending?)
  }

  lemma {:induction false} RunSettles(s: Conn, steps: seq<Step>, t: Conn, id: nat)
    requires Runs(s, steps, t) && HasOutcome(s, id)
    ensures HasOutcome(t, id)
    decreases steps
  {
    if steps != [] { RunSettles(Next(s, steps[0]), steps[1..], t, id); }
  }

  /** After a kill nobody waits: whatever was begun before it, and nothing is begun after. */
  lemma NobodyWaitsOnADeadConnection(steps: seq<Step>, s: Conn, id: nat)
    requires Runs(INIT, steps, s) && s.dead && Listed(s, id)
    ensures !s.calls[id].reply.Pending? && !s.calls[id].data.Pending?
  {
    RunSettles(INIT, steps, s, id);
  }

  // ----- The data reader and a leaving owner -----

  /** The data frames begun for one call. */
  function Frames(steps: seq<Step>, id: nat): nat {
    if steps == [] then 0 else (if steps[0].FrameStart? && steps[0].id == id then 1 else 0) + Frames(steps[1..], id)
  }

  /** What holds of a call when `begun` frames have been started for it, at most one. */
  predicate CallOk(s: Conn, id: nat, begun: nat) {
    && (s.reader == Filling(id) ==> id in s.calls)
    && (id in s.calls ==>
          var c := s.calls[id];
          && c.busy == (s.reader == Filling(id))
          && (begun == 0 ==> !c.busy && c.released == 0 && !c.delivered)
          && (c.busy ==> c.released == 0 && !c.delivered)
          && (c.ending.Unlinked? && !c.ending.sawBusy ==> !c.busy)
          && (c.ending.Gone? ==> !c.busy))
    && (id !in s.calls ==> begun == 0)
  }

  lemma StepKeeps(s: Conn, step: Step, id: nat, begun: nat)
    requires Enabled(s, step) && CallOk(s, id, begun) && begun + Frames([step], id) <= 1
    ensures CallOk(Next(s, step), id, begun + Frames([step], id))
    ensures id in s.calls && s.calls[id].delivered ==>
      Next(s, step).calls[id].delivered && Next(s, step).calls[id].data == s.calls[id].data
  {
  }

  lemma {:induction false} RunKeeps(s: Conn, steps: seq<Step>, t: Conn, id: nat, begun: nat)
    requires Runs(s, steps, t) && CallOk(s, id, begun) && begun + Frames(steps, id) <= 1
    ensures CallOk(t, id, begun + Frames(steps, id))
    ensures id in s.calls && s.calls[id].delivered ==> id in t.calls && t.calls[id].delivered && t.calls[id].data == s.calls[id].data
    decreases steps
  {
    if steps != [] {
      assert Frames(steps, id) == Frames([steps[0]], id) + Frames(steps[1..], id);
      StepKeeps(s, steps[0], id, begun);
      RunKeeps(Next(s, steps[0]), steps[1..], t, id, begun + Frames([steps[0]], id));
    }
  }

  /** With at most one frame per key, the reader never fills a buffer whose owner has gone. */
  lemma ReaderNeverTouchesGoneBuffers(steps: seq<Step>, s: Conn)
    requires Runs(INIT, steps, s) && s.reader.Filling? && Frames(steps, s.reader.id) <= 1
    ensures s.reader.id in s.calls && !s.calls[s.reader.id].ending.Gone?
  {
    RunKeeps(INIT, steps, s, s.reader.id, 0);
  }

  lemma StepFirst(s: Conn, step: Step, rest: seq<Step>, t: Conn)
    requires Enabled(s, step) && Runs(Next(s, step), rest, t)
    ensures Runs(s, [step] + rest, t)
  {
    assert ([step] + rest)[1..] == rest;
  }

  /** A listed call has been released once for every frame begun for it and no longer being filled. */
  predicate Counted(s: Conn, id: nat, begun: nat) {
    && (id !in s.calls ==> begun == 0 && s.reader != Filling(id))
    && (Listed(s, id) ==> begun == s.calls[id].released + if s.reader == Filling(id) then 1 else 0)
  }

  lemma {:induction false} RunCounts(s: Conn, steps: seq<Step>, t: Conn, id: nat, begun: nat)
    requires Runs(s, steps, t) && Counted(s, id, begun)
    ensures Counted(t, id, begun + Frames(steps, id))
    decreases steps
  {
    if steps != [] {
      assert Frames(steps, id) == Frames([steps[0]], id) + Frames(steps[1..], id);
      RunCounts(Next(s, steps[0]), steps[1..], t, id, begun + Frames([steps[0]], id));
    }
  }

  /**
    One frame per key is needed: wherever a run has begun one for a call that is
    still listed, and the reader is idle again, a second one lets the owner go while
    the reader fills its buffer.
   */
  lemma SecondFrameOutlivesTheOwner(before: seq<Step>, s: Conn, id: nat, length: nat) returns (steps: seq<Step>, t: Conn)
    requires Runs(INIT, before, s) && Frames(before, id) >= 1 && s.reader.Idle? && TakesFrame(s, id, length)
    ensures Runs(s, steps, t) && Frames(steps, id) == 1
    ensures t.reader == Filling(id) && id in t.calls && t.calls[id].ending.Gone?
  {
    RunCounts(INIT, before, s, id, 0);
    var s1 := Next(s, FrameStart(id, length));
    var s2 := Next(s1, Unlink(id));
    t := Next(s2, Leave(id));
    StepFirst(s2, Leave(id), [], t);
    StepFirst(s1, Unlink(id), [Leave(id)] + [], t);
    StepFirst(s, FrameStart(id, length), [Unlink(id)] + ([Leave(id)] + []), t);
    steps := [FrameStart(id, length)] + ([Unlink(id)] + ([Leave(id)] + []));
    assert [Unlink(id), Leave(id)][1..] == [Leave(id)] && Frames([Leave(id)], id) == 0;
    assert steps[1..] == [Unlink(id), Leave(id)] && Frames([Unlink(id), Leave(id)], id) == 0;
  }

  /** Such a state is one delivered frame away. */
  lemma FirstFrameReleases() returns (steps: seq<Step>, s: Conn)
    ensures Runs(INIT, steps, s) && s.reader.Idle? && TakesFrame(s, 1, 4) && Frames(steps, 1) == 1
  {
    var s1 := Next(INIT, Begin(1, 0, 4, true));
    var s2 := Next(s1, FrameStart(1, 4));
    s := Next(s2, FrameFinish(true, 0, 0));
    StepFirst(s2, FrameFinish(true, 0, 0), [], s);
    StepFirst(s1, FrameStart(1, 4), [FrameFinish(true, 0, 0)] + [], s);
    StepFirst(INIT, Begin(1, 0, 4, true), [FrameStart(1, 4)] + ([FrameFinish(true, 0, 0)] + []), s);
    steps := [Begin(1, 0, 4, true)] + ([FrameStart(1, 4)] + ([FrameFinish(true, 0, 0)] + []));
    assert steps[1..] == [FrameStart(1, 4), FrameFinish(true, 0, 0)];
    assert [FrameStart(1, 4), FrameFinish(true, 0, 0)][1..] == [FrameFinish(true, 0, 0)];
  }
}
