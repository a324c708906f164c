/**
  The two ends of a page stream side by side. The sender waits for its oldest send
  once its window is full, the receiver for its oldest receive once its own is, and a
  page moves only where both have posted it. An end that fails or runs out of pages
  stops posting and waits for what it has posted.
 */
module StreamProgress {
  /** How many pages each end posts before it stops, and the windows they keep to. */
  datatype Shape = Shape(given: nat, wanted: nat, sendWindow: nat, recvWindow: nat, writeDepth: nat)

  predicate Sound(c: Shape) {
    1 <= c.sendWindow && 1 <= c.recvWindow
  }

  /** Sends posted and joined, receives posted and stored, pages that have moved, and writes under way. */
  datatype Stream = Stream(posted: nat, retired: nat, asked: nat, stored: nat, moved: set<nat>, writes: nat)

  const START := Stream(0, 0, 0, 0, {}, 0)

  datatype Step = Post | Retire | Ask | Store | AwaitWrite | Move(page: nat)

  /** What an end does next, or nothing once it has come back. */
  datatype Wish = Nothing | Wants(step: Step)

  /** Makes room in the window, then posts; at the end joins every send. */
  function SenderNext(c: Shape, s: Stream): Wish {
    if s.posted < c.given && s.posted < s.retired + c.sendWindow then Wants(Post)
    else if s.retired < s.posted then Wants(Retire)
    else Nothing
  }

  /** Stores until a receive fits, awaits writes until few are left, then posts; at the end stores and awaits everything. */
  function ReceiverNext(c: Shape, s: Stream): Wish {
    if s.asked < c.wanted then
      if s.asked >= s.stored + c.recvWindow then Wants(Store)
      else if s.writes > c.writeDepth then Wants(AwaitWrite)
      else Wants(Ask)
    else if s.stored < s.asked then Wants(Store)
    else if s.writes > 0 then Wants(AwaitWrite)
    else Nothing
  }

  predicate Enabled(c: Shape, s: Stream, step: Step) {
    match step
    case Post => SenderNext(c, s) == Wants(Post)
    case Retire => SenderNext(c, s) == Wants(Retire) && s.retired in s.moved
    case Ask => ReceiverNext(c, s) == Wants(Ask)
    case Store => ReceiverNext(c, s) == Wants(Store) && s.stored in s.moved
    case AwaitWrite => ReceiverNext(c, s) == Wants(AwaitWrite)
    case Move(page) => page < s.posted && page < s.asked && page !in s.moved
  }

  function Next(s: Stream, step: Step): Stream {
    match step
    case Post => s.(posted := s.posted + 1)
    case Retire => s.(retired := s.retired + 1)
    case Ask => s.(asked := s.asked + 1)
    case Store => s.(stored := s.stored + 1, writes := s.writes + 1)
    case AwaitWrite => s.(writes := if s.writes > 0 then s.writes - 1 else 0)
    case Move(page) => s.(moved := s.moved + {page})
  }

  ghost predicate Runs(c: Shape, s: Stream, steps: seq<Step>, t: Stream)
    decreases steps
  {
    if steps == [] then t == s
    else Enabled(c, s, steps[0]) && Runs(c, Next(s, steps[0]), steps[1..], t)
  }

  /** What was joined or stored has moved, and only what both ends posted moves. */
  ghost predicate Inv(c: Shape, s: Stream) {
    && s.retired <= s.posted <= c.given && s.stored <= s.asked <= c.wanted
    && s.posted <= s.retired + c.sendWindow && s.asked <= s.stored + c.recvWindow
    && (forall k: nat :: k < s.retired || k < s.stored ==> k in s.moved)
    && (forall k :: k in s.moved ==> k < s.posted && k < s.asked)
  }

  lemma StepKeeps(c: Shape, s: Stream, step: Step)
    requires Inv(c, s) && Enabled(c, s, step)
    ensures Inv(c, Next(s, step))
  {
  }

  /** What is left to do at most. */
  ghost function Left(c: Shape, s: Stream): int {
    (c.given - s.posted) + (c.given - s.retired) + (c.wanted - s.asked) + 2 * (c.wanted - s.stored) + s.writes + (c.given - |s.moved|)
  }

  lemma {:induction false} SmallSet(moved: set<nat>, n: nat)
    requires forall k :: k in moved ==> k < n
    ensures |moved| <= n
  {
    if n == 0 {
      assert moved == {};
    } else {
      SmallSet(moved - {n - 1}, n - 1);
    }
  }

  /** Every step leaves less to do, so every run ends. */
  lemma {:induction false} RunsAreBounded(c: Shape, s: Stream, steps: seq<Step>, t: Stream)
    requires Inv(c, s) && Runs(c, s, steps, t)
    ensures Inv(c, t) && 0 <= Left(c, t) && |steps| + Left(c, t) <= Left(c, s)
    decreases steps
  {
    SmallSet(s.moved, c.given);
    if steps != [] {
      StepKeeps(c, s, steps[0]);
      RunsAreBounded(c, Next(s, steps[0]), steps[1..], t);
    }
  }

  ghost predicate Ended(c: Shape, s: Stream) {
    forall step :: !Enabled(c, s, step)
  }

  /** Everything it posted was joined. */
  predicate SenderBack(c: Shape, s: Stream) {
    s.posted == s.retired == c.given
  }

  predicate ReceiverBack(c: Shape, s: Stream) {
    s.asked == s.stored == c.wanted && s.writes == 0
  }

  /** The sender waits for a send that cannot move: the receiver has come back without posting a receive for it. */
  lemma SenderWaits(c: Shape, s: Stream)
    requires Sound(c) && Inv(c, s) && Ended(c, s) && !SenderBack(c, s)
    ensures s.retired == s.asked == c.wanted < c.given && ReceiverBack(c, s)
  {
    if s.retired > 0 { assert s.retired - 1 in s.moved; }
    assert !Enabled(c, s, Post) && !Enabled(c, s, Retire) && !Enabled(c, s, Move(s.retired));
    assert !Enabled(c, s, Ask) && !Enabled(c, s, Store) && !Enabled(c, s, AwaitWrite);
  }

  lemma ReceiverWaits(c: Shape, s: Stream)
    requires Sound(c) && Inv(c, s) && Ended(c, s) && !ReceiverBack(c, s)
    ensures s.stored == s.posted == c.given < c.wanted && SenderBack(c, s)
  {
    if s.stored > 0 { assert s.stored - 1 in s.moved; }
    assert !Enabled(c, s, Ask) && !Enabled(c, s, Store) && !Enabled(c, s, AwaitWrite) && !Enabled(c, s, Move(s.stored));
    assert !Enabled(c, s, Post) && !Enabled(c, s, Retire);
  }

  /**
    However the two ends and the channel take turns, and however their windows are
    split, a run that can go no further leaves each end back exactly when the other
    posted at least as many pages: both come back exactly when they posted the same.
   */
  lemma ComeBackExactly(c: Shape, steps: seq<Step>, s: Stream)
    requires Sound(c) && Runs(c, START, steps, s) && Ended(c, s)
    ensures SenderBack(c, s) <==> c.given <= c.wanted
    ensures ReceiverBack(c, s) <==> c.wanted <= c.given
    ensures forall k: nat :: k in s.moved <==> k < c.given && k < c.wanted
    ensures |steps| <= 3 * c.given + 3 * c.wanted
  {
    RunsAreBounded(c, START, steps, s);
    if !SenderBack(c, s) { SenderWaits(c, s); }
    if !ReceiverBack(c, s) { ReceiverWaits(c, s); }
    if SenderBack(c, s) && ReceiverBack(c, s) { BothBack(c, s); }
  }

  lemma BothBack(c: Shape, s: Stream)
    requires Inv(c, s) && SenderBack(c, s) && ReceiverBack(c, s)
    ensures c.given == c.wanted
  {
    if c.given > 0 { assert c.given - 1 in s.moved; }
    if c.wanted > 0 { assert c.wanted - 1 in s.moved; }
  }

  /** A run that is not over goes on: to the end, from wherever it has got to. */
  lemma {:induction false} GoesOn(c: Shape, s: Stream) returns (steps: seq<Step>, t: Stream)
    requires Sound(c) && Inv(c, s)
    ensures Runs(c, s, steps, t) && Ended(c, t) && Inv(c, t)
    decreases Left(c, s)
  {
    SmallSet(s.moved, c.given);
    if Ended(c, s) {
      return [], s;
    }
    var step :| Enabled(c, s, step);
    StepKeeps(c, s, step);
    var one := Next(s, step);
    SmallSet(one.moved, c.given);
    var rest;
    rest, t := GoesOn(c, one);
    steps := [step] + rest;
    assert steps[1..] == rest;
  }
}
