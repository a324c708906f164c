/**
  Registered memory: regions of frames, runs of frames taken first fit, and
  regions added up to a ceiling, by many threads at once. Everything that happens
  under the allocation lock is an event, and the table is what the events so far
  make it.
 */
module Memory {
  datatype Region = Region(taken: seq<bool>, used: nat)
  datatype Run = Run(home: nat, first: nat, frames: nat)
  datatype Option<T> = None | Some(value: T)

  function Count(taken: seq<bool>): nat {
    if taken == [] then 0 else Count(taken[..|taken| - 1]) + if taken[|taken| - 1] then 1 else 0
  }

  /** `frames` frames from `first` on are there and free. */
  predicate Fits(taken: seq<bool>, first: nat, frames: nat) {
    first + frames <= |taken| && forall i :: first <= i < first + frames ==> !taken[i]
  }

  predicate FitsSomewhere(taken: seq<bool>, frames: nat) {
    exists first: nat :: first <= |taken| && Fits(taken, first, frames)
  }

  function Painted(taken: seq<bool>, first: nat, frames: nat, value: bool): (r: seq<bool>)
    ensures |r| == |taken|
    ensures forall i :: 0 <= i < |r| ==> r[i] == if first <= i < first + frames then value else taken[i]
  {
    seq(|taken|, i requires 0 <= i < |taken| => if first <= i < first + frames then value else taken[i])
  }

  /** A run of free frames leaves at least that many frames uncounted. */
  lemma {:induction false} RunLeavesRoom(taken: seq<bool>, first: nat, frames: nat)
    requires Fits(taken, first, frames)
    ensures Count(taken) + frames <= |taken|
  {
    if taken != [] {
      var front := taken[..|taken| - 1];
      if first + frames == |taken| && frames > 0 {
        RunLeavesRoom(front, first, frames - 1);
      } else if first + frames < |taken| {
        RunLeavesRoom(front, first, frames);
      } else {
        RunLeavesRoom(front, 0, 0);
      }
    }
  }

  lemma {:induction false} CountPainted(taken: seq<bool>, first: nat, frames: nat, value: bool)
    requires first + frames <= |taken| && forall i :: first <= i < first + frames ==> taken[i] == !value
    ensures value ==> Count(Painted(taken, first, frames, value)) == Count(taken) + frames
    ensures !value ==> Count(Painted(taken, first, frames, value)) + frames == Count(taken)
  {
    if frames == 0 {
      assert Painted(taken, first, frames, value) == taken;
    } else {
      var front := taken[..|taken| - 1];
      var whole := Painted(taken, first, frames, value);
      if first + frames == |taken| {
        CountPainted(front, first, frames - 1, value);
        assert whole[..|taken| - 1] == Painted(front, first, frames - 1, value);
      } else {
        CountPainted(front, first, frames, value);
        assert whole[..|taken| - 1] == Painted(front, first, frames, value);
      }
    }
  }

  predicate Covers(r: Run, home: nat, i: nat) {
    r.home == home && r.first <= i < r.first + r.frames
  }

  predicate Disjoint(a: Run, b: Run) {
    a.home != b.home || a.first + a.frames <= b.first || b.first + b.frames <= a.first
  }

  function FramesFor(bytes: nat, frameSize: nat): (n: nat)
    requires frameSize > 0
    ensures bytes <= n * frameSize < bytes + frameSize
  {
    (bytes + frameSize - 1) / frameSize
  }

  lemma {:induction false} Empty(n: nat)
    ensures Count(seq(n, _ => false)) == 0
  {
    if n > 0 {
      Empty(n - 1);
      assert seq(n, _ => false)[..n - 1] == seq(n - 1, _ => false);
    }
  }

  lemma TooFull(taken: seq<bool>, frames: nat)
    requires Count(taken) + frames > |taken|
    ensures !FitsSomewhere(taken, frames)
  {
    forall f: nat | f <= |taken| ensures !Fits(taken, f, frames) {
      if Fits(taken, f, frames) { RunLeavesRoom(taken, f, frames); }
    }
  }

  // ----- The table and its events -----

  /** The regions, the runs handed out and not given back, who holds the right to grow, and whether it may still add one. */
  datatype Table = Table(regions: seq<Region>, live: set<Run>, grower: Option<nat>, cleared: bool)

  datatype Event =
    | Looked(who: nat, frames: nat, found: Option<Run>)
    | Gave(run: Run)
    | Locked(who: nat)
    | Checked(who: nat, room: bool)
    | Added(who: nat)
    | Unlocked(who: nat)

  predicate NoRoom(regions: seq<Region>, frames: nat) {
    forall h :: 0 <= h < |regions| ==> !FitsSomewhere(regions[h].taken, frames)
  }

  /** The first place in the first region that has one, or nothing where no region has. */
  predicate IsFirst(regions: seq<Region>, frames: nat, found: Option<Run>) {
    match found
    case None => NoRoom(regions, frames)
    case Some(run) =>
      && run.frames == frames && run.home < |regions| && Fits(regions[run.home].taken, run.first, frames)
      && NoRoom(regions[..run.home], frames)
      && forall f: nat :: f < run.first ==> !Fits(regions[run.home].taken, f, frames)
  }

  function FreeRegion(perRegion: nat): Region {
    Region(seq(perRegion, _ => false), 0)
  }

  function Recounted(taken: seq<bool>): Region {
    Region(taken, Count(taken))
  }

  function Marked(regions: seq<Region>, run: Run, value: bool): (r: seq<Region>)
    ensures |r| == |regions|
  {
    if run.home < |regions|
    then regions[run.home := Recounted(Painted(regions[run.home].taken, run.first, run.frames, value))]
    else regions
  }

  predicate Enabled(t: Table, e: Event, ceiling: nat) {
    match e
    case Looked(_, frames, found) => 0 < frames && IsFirst(t.regions, frames, found)
    case Gave(run) => run in t.live
    case Locked(_) => t.grower == None
    case Checked(who, room) => t.grower == Some(who) && room == (|t.regions| < ceiling)
    case Added(who) => t.grower == Some(who) && t.cleared
    case Unlocked(who) => t.grower == Some(who)
  }

  function Next(t: Table, e: Event, perRegion: nat): Table {
    match e
    case Looked(_, _, found) =>
      if found.None? then t else t.(regions := Marked(t.regions, found.value, true), live := t.live + {found.value})
    case Gave(run) => t.(regions := Marked(t.regions, run, false), live := t.live - {run})
    case Locked(who) => t.(grower := Some(who), cleared := false)
    case Checked(_, room) => t.(cleared := room)
    case Added(_) => t.(regions := t.regions + [FreeRegion(perRegion)], cleared := false)
    case Unlocked(_) => t.(grower := None, cleared := false)
  }

  function Fresh(perRegion: nat): Table {
    Table([FreeRegion(perRegion)], {}, None, false)
  }

  /** The table after the events so far. */
  function After(es: seq<Event>, perRegion: nat): Table {
    if es == [] then Fresh(perRegion) else Next(After(es[..|es| - 1], perRegion), es[|es| - 1], perRegion)
  }

  /** Each event could happen where it did. */
  predicate Legal(es: seq<Event>, perRegion: nat, ceiling: nat) {
    es == []
    || (Legal(es[..|es| - 1], perRegion, ceiling) && Enabled(After(es[..|es| - 1], perRegion), es[|es| - 1], ceiling))
  }

  predicate By(e: Event, who: nat) {
    !e.Gave? && e.who == who
  }

  /** What one thread did. */
  function Own(es: seq<Event>, who: nat): seq<Event> {
    if es == [] then []
    else Own(es[..|es| - 1], who) + if By(es[|es| - 1], who) then [es[|es| - 1]] else []
  }

  lemma OneMore(es: seq<Event>, e: Event, perRegion: nat, ceiling: nat, who: nat)
    ensures After(es + [e], perRegion) == Next(After(es, perRegion), e, perRegion)
    ensures Legal(es + [e], perRegion, ceiling) <==> Legal(es, perRegion, ceiling) && Enabled(After(es, perRegion), e, ceiling)
    ensures Own(es + [e], who) == Own(es, who) + if By(e, who) then [e] else []
  {
    assert (es + [e])[..|es|] == es;
  }

  // ----- What every history keeps -----

  ghost predicate Held(live: set<Run>, home: nat, i: nat) {
    exists r :: r in live && Covers(r, home, i)
  }

  predicate Sized(regions: seq<Region>, perRegion: nat) {
    forall h :: 0 <= h < |regions| ==> |regions[h].taken| == perRegion && regions[h].used == Count(regions[h].taken)
  }

  ghost predicate Apart(live: set<Run>) {
    forall a, b :: a in live && b in live && a != b ==> Disjoint(a, b)
  }

  predicate Bounded(live: set<Run>, regions: nat, perRegion: nat) {
    forall r :: r in live ==> r.home < regions && 0 < r.frames && r.first + r.frames <= perRegion
  }

  /** A frame is taken exactly when a run that was handed out covers it. */
  ghost predicate Exact(regions: seq<Region>, live: set<Run>, perRegion: nat)
    requires Sized(regions, perRegion)
  {
    forall h: nat, i: nat :: h < |regions| && i < perRegion ==> (regions[h].taken[i] <==> Held(live, h, i))
  }

  /** The runs out there are apart and in bounds, the frames taken are exactly theirs, and a region may be added only below the ceiling. */
  ghost predicate Inv(t: Table, perRegion: nat, ceiling: nat) {
    && |t.regions| <= ceiling && (t.cleared ==> |t.regions| < ceiling)
    && Sized(t.regions, perRegion) && Bounded(t.live, |t.regions|, perRegion) && Apart(t.live)
    && Exact(t.regions, t.live, perRegion)
  }

  lemma HeldMore(live: set<Run>, run: Run, h: nat, i: nat)
    ensures Held(live + {run}, h, i) <==> Held(live, h, i) || Covers(run, h, i)
  {
    if Held(live, h, i) {
      var r :| r in live && Covers(r, h, i);
      assert r in live + {run};
    }
    if Covers(run, h, i) { assert run in live + {run}; }
  }

  lemma HeldLess(live: set<Run>, run: Run, h: nat, i: nat)
    requires Apart(live) && run in live
    ensures Held(live - {run}, h, i) <==> Held(live, h, i) && !Covers(run, h, i)
  {
    if Held(live, h, i) && !Covers(run, h, i) {
      var r :| r in live && Covers(r, h, i);
      assert r in live - {run};
    }
    if Held(live - {run}, h, i) {
      var r :| r in live - {run} && Covers(r, h, i);
      assert Disjoint(r, run);
    }
  }

  /** A run that fits is apart from every run handed out. */
  lemma FitsApart(t: Table, run: Run, perRegion: nat, ceiling: nat)
    requires Inv(t, perRegion, ceiling) && 0 < run.frames && run.home < |t.regions|
    requires Fits(t.regions[run.home].taken, run.first, run.frames)
    ensures run !in t.live && Apart(t.live + {run})
  {
    forall r | r in t.live ensures Disjoint(r, run) && r != run {
      var i: nat := if r.first < run.first then run.first else r.first;
      if Covers(r, run.home, i) { assert Held(t.live, run.home, i); }
    }
  }

  lemma TakeKeeps(t: Table, run: Run, perRegion: nat, ceiling: nat)
    requires Inv(t, perRegion, ceiling) && 0 < run.frames && run.home < |t.regions|
    requires Fits(t.regions[run.home].taken, run.first, run.frames)
    ensures Inv(t.(regions := Marked(t.regions, run, true), live := t.live + {run}), perRegion, ceiling)
    ensures run !in t.live
  {
    FitsApart(t, run, perRegion, ceiling);
    var after := Marked(t.regions, run, true);
    forall h: nat, i: nat | h < |after| && i < perRegion ensures after[h].taken[i] <==> Held(t.live + {run}, h, i) {
      HeldMore(t.live, run, h, i);
    }
  }

  lemma GiveKeeps(t: Table, run: Run, perRegion: nat, ceiling: nat)
    requires Inv(t, perRegion, ceiling) && run in t.live
    ensures Inv(t.(regions := Marked(t.regions, run, false), live := t.live - {run}), perRegion, ceiling)
  {
    var after := Marked(t.regions, run, false);
    forall h: nat, i: nat | h < |after| && i < perRegion ensures after[h].taken[i] <==> Held(t.live - {run}, h, i) {
      HeldLess(t.live, run, h, i);
    }
  }

  lemma AddKeeps(t: Table, perRegion: nat, ceiling: nat)
    requires Inv(t, perRegion, ceiling) && t.cleared
    ensures Inv(t.(regions := t.regions + [FreeRegion(perRegion)], cleared := false), perRegion, ceiling)
  {
    Empty(perRegion);
    var after := t.regions + [FreeRegion(perRegion)];
    forall h: nat, i: nat | h < |after| && i < perRegion ensures after[h].taken[i] <==> Held(t.live, h, i) {
      if h < |t.regions| { assert after[h] == t.regions[h]; }
    }
  }

  lemma StepKeeps(t: Table, e: Event, perRegion: nat, ceiling: nat)
    requires Inv(t, perRegion, ceiling) && Enabled(t, e, ceiling)
    ensures Inv(Next(t, e, perRegion), perRegion, ceiling)
  {
    match e {
      case Looked(_, _, found) => if found.Some? { TakeKeeps(t, found.value, perRegion, ceiling); }
      case Gave(run) => GiveKeeps(t, run, perRegion, ceiling);
      case Added(_) => AddKeeps(t, perRegion, ceiling);
      case Locked(_) =>
      case Checked(_, _) =>
      case Unlocked(_) =>
    }
  }

  /** Whatever the threads do, runs stay apart and in bounds and the ceiling holds, though it is checked before the region is built. */
  lemma {:induction false} HistoryKeeps(es: seq<Event>, perRegion: nat, ceiling: nat)
    requires Legal(es, perRegion, ceiling) && 0 < ceiling
    ensures Inv(After(es, perRegion), perRegion, ceiling)
  {
    if es == [] {
      Empty(perRegion);
    } else {
      HistoryKeeps(es[..|es| - 1], perRegion, ceiling);
      StepKeeps(After(es[..|es| - 1], perRegion), es[|es| - 1], perRegion, ceiling);
    }
  }

  lemma {:induction false} LegalUpTo(es: seq<Event>, k: nat, perRegion: nat, ceiling: nat)
    requires Legal(es, perRegion, ceiling) && k < |es|
    ensures Legal(es[..k], perRegion, ceiling) && Enabled(After(es[..k], perRegion), es[k], ceiling)
  {
    var front := es[..|es| - 1];
    if k < |front| {
      LegalUpTo(front, k, perRegion, ceiling);
      assert front[..k] == es[..k];
    }
  }

  /** From when a thread has the right to grow until it gives it up, nobody else adds a region. */
  lemma {:induction false} OneGrower(es: seq<Event>, i: nat, k: nat, who: nat, perRegion: nat, ceiling: nat)
    requires Legal(es, perRegion, ceiling) && i < k <= |es| && es[i] == Locked(who)
    requires forall m :: i < m < k ==> es[m] != Unlocked(who)
    ensures After(es[..k], perRegion).grower == Some(who)
    ensures forall m :: i < m < k && es[m].Added? ==> es[m] == Added(who)
  {
    assert es[..k][..k - 1] == es[..k - 1];
    if k == i + 1 {
      LegalUpTo(es, i, perRegion, ceiling);
    } else {
      OneGrower(es, i, k - 1, who, perRegion, ceiling);
      LegalUpTo(es, k - 1, perRegion, ceiling);
    }
  }

  lemma {:induction false} RegionsStay(es: seq<Event>, j: nat, k: nat, perRegion: nat)
    requires j <= k <= |es| && forall m :: j <= m < k ==> !es[m].Added?
    ensures |After(es[..k], perRegion).regions| == |After(es[..j], perRegion).regions|
  {
    if j < k {
      assert es[..k][..k - 1] == es[..k - 1];
      RegionsStay(es, j, k - 1, perRegion);
    }
  }

  /**
    A region that a thread adds after looking in vain is the first since before that
    look: there was no room then, and no region has been added in between.
   */
  lemma GrowsOnlyWithoutRoom(es: seq<Event>, i: nat, j: nat, k: nat, who: nat, frames: nat, perRegion: nat, ceiling: nat)
    requires Legal(es, perRegion, ceiling) && i < j < k < |es|
    requires es[i] == Locked(who) && es[j] == Looked(who, frames, None) && es[k] == Added(who)
    requires forall m :: i < m < k ==> es[m] != Unlocked(who) && es[m] != Added(who)
    ensures NoRoom(After(es[..j], perRegion).regions, frames)
    ensures |After(es[..k], perRegion).regions| == |After(es[..j], perRegion).regions|
    ensures After(es[..k + 1], perRegion).regions == After(es[..k], perRegion).regions + [FreeRegion(perRegion)]
  {
    LegalUpTo(es, j, perRegion, ceiling);
    OneGrower(es, i, k, who, perRegion, ceiling);
    RegionsStay(es, j, k, perRegion);
    assert es[..k + 1][..k] == es[..k];
  }

  /** What one call of the allocator did, in order, and how it ended. */
  predicate Story(own: seq<Event>, me: nat, frames: nat, built: bool, ok: bool, run: Run) {
    var missed, got := Looked(me, frames, None), Looked(me, frames, Some(run));
    || (ok && own == [got])
    || (ok && own == [missed, Locked(me), got, Unlocked(me)])
    || (!ok && own == [missed, Locked(me), missed, Checked(me, false), Unlocked(me)])
    || (!ok && !built && own == [missed, Locked(me), missed, Checked(me, true), Unlocked(me)])
    || (built && own == [missed, Locked(me), missed, Checked(me, true), Added(me), if ok then got else missed, Unlocked(me)])
  }

  /** How many events of its own a thread has behind it. */
  function Rank(es: seq<Event>, k: nat, who: nat): nat
    requires k <= |es|
  {
    |Own(es[..k], who)|
  }

  lemma {:induction false} RankGrows(es: seq<Event>, j: nat, k: nat, who: nat)
    requires j <= k <= |es|
    ensures Own(es[..j], who) <= Own(es[..k], who)
    ensures j < k && By(es[j], who) ==> Rank(es, j, who) < Rank(es, k, who) && Own(es[..k], who)[Rank(es, j, who)] == es[j]
  {
    if j < k {
      assert es[..k][..k - 1] == es[..k - 1];
      RankGrows(es, j, k - 1, who);
    }
  }

  /** Every event of a thread's own has its place in the history. */
  lemma {:induction false} Placed(es: seq<Event>, who: nat, q: nat) returns (k: nat)
    requires q < |Own(es, who)|
    ensures k < |es| && es[k] == Own(es, who)[q] && By(es[k], who) && Rank(es, k, who) == q
  {
    k := |es| - 1;
    if q < |Own(es[..k], who)| {
      var front := es[..k];
      k := Placed(front, who, q);
      assert front[..k] == es[..k];
    }
  }

  /** A call that failed looked, found no room at that moment, and did not look again. */
  lemma FailureFoundNoRoom(
    before: seq<Event>, es: seq<Event>, me: nat, own: seq<Event>, frames: nat, built: bool, run: Run, perRegion: nat, ceiling: nat)
    returns (k: nat)
    requires Legal(es, perRegion, ceiling) && before <= es && Own(es, me) == Own(before, me) + own
    requires Story(own, me, frames, built, false, run)
    ensures |before| <= k < |es| && es[k] == Looked(me, frames, None) && NoRoom(After(es[..k], perRegion).regions, frames)
    ensures forall m :: k < m < |es| && By(es[m], me) ==> !es[m].Looked?
  {
    var q := |own| - if own[|own| - 2] == Looked(me, frames, None) then 2 else 3;
    k := Placed(es, me, |Own(before, me)| + q);
    LegalUpTo(es, k, perRegion, ceiling);
    Since(before, es, me, k);
    forall m | k < m < |es| && By(es[m], me) ensures !es[m].Looked? {
      RankGrows(es, k, m, me);
      RankGrows(es, m, |es|, me);
      assert es[..|es|] == es;
      assert es[m] == own[Rank(es, m, me) - |Own(before, me)|];
    }
  }

  lemma Since(before: seq<Event>, es: seq<Event>, who: nat, k: nat)
    requires before <= es && k < |es| && By(es[k], who) && Rank(es, k, who) >= |Own(before, who)|
    ensures |before| <= k
  {
    assert es[..|before|] == before;
    if k < |before| { RankGrows(es, k, |before|, who); }
  }

  /** A call that added a region had the right to grow, had found no room, and its region is the first since. */
  lemma GrowthFoundNoRoom(
    before: seq<Event>, es: seq<Event>, me: nat, own: seq<Event>, frames: nat, built: bool, ok: bool, run: Run, perRegion: nat, ceiling: nat)
    returns (j: nat, k: nat)
    requires Legal(es, perRegion, ceiling) && before <= es && Own(es, me) == Own(before, me) + own
    requires Story(own, me, frames, built, ok, run) && Added(me) in own
    ensures |before| <= j < k < |es| && es[j] == Looked(me, frames, None) && es[k] == Added(me)
    ensures NoRoom(After(es[..j], perRegion).regions, frames)
    ensures |After(es[..k], perRegion).regions| == |After(es[..j], perRegion).regions| < ceiling
    ensures After(es[..k + 1], perRegion).regions == After(es[..k], perRegion).regions + [FreeRegion(perRegion)]
  {
    var n := |Own(before, me)|;
    var i := Placed(es, me, n + 1);
    j := Placed(es, me, n + 2);
    k := Placed(es, me, n + 4);
    Ordered(es, me, i, j);
    Ordered(es, me, j, k);
    Since(before, es, me, j);
    forall m | i < m < k ensures es[m] != Unlocked(me) && es[m] != Added(me) {
      if By(es[m], me) {
        RankGrows(es, i, m, me);
        RankGrows(es, m, k, me);
        RankGrows(es, m, |es|, me);
        assert es[..|es|] == es;
        assert es[m] == own[Rank(es, m, me) - n];
      }
    }
    GrowsOnlyWithoutRoom(es, i, j, k, me, frames, perRegion, ceiling);
    HistoryBelow(es, k, perRegion, ceiling, me);
  }

  lemma Ordered(es: seq<Event>, who: nat, j: nat, k: nat)
    requires j < |es| && k < |es| && Rank(es, j, who) < Rank(es, k, who)
    ensures j < k
  {
    if k <= j { RankGrows(es, k, j, who); }
  }

  /** Where a region is about to be added there is room for it below the ceiling. */
  lemma HistoryBelow(es: seq<Event>, k: nat, perRegion: nat, ceiling: nat, me: nat)
    requires Legal(es, perRegion, ceiling) && k < |es| && es[k] == Added(me)
    ensures |After(es[..k], perRegion).regions| < ceiling
  {
    LegalUpTo(es, k, perRegion, ceiling);
    ClearedBelow(es[..k], perRegion, ceiling);
  }

  lemma {:induction false} ClearedBelow(es: seq<Event>, perRegion: nat, ceiling: nat)
    requires Legal(es, perRegion, ceiling)
    ensures After(es, perRegion).cleared ==> |After(es, perRegion).regions| < ceiling
  {
    if es != [] { ClearedBelow(es[..|es| - 1], perRegion, ceiling); }
  }

  lemma FoundHasRoom(regions: seq<Region>, frames: nat, run: Run)
    requires IsFirst(regions, frames, Some(run))
    ensures !NoRoom(regions, frames)
  {
    assert FitsSomewhere(regions[run.home].taken, frames);
  }

  lemma Joined(before: seq<Event>, first: Event, middle: seq<Event>, last: Event)
    ensures before + [first] + middle + [last] == before + ([first] + middle + [last])
  {
  }

  class Memory {
    const perRegion: nat
    const frameSize: nat
    const ceiling: nat
    var regions: seq<Region>
    var live: set<Run>
    var grower: Option<nat>
    var cleared: bool
    /** Everything that has happened. */
    ghost var history: seq<Event>

    ghost function View(): Table
      reads this
    {
      Table(regions, live, grower, cleared)
    }

    /** The table is what its history makes it. */
    ghost predicate Valid()
      reads this
    {
      && frameSize > 0 && ceiling > 0 && Legal(history, perRegion, ceiling)
      && After(history, perRegion) == View() && Inv(View(), perRegion, ceiling)
    }

    /** The first region is built at once; without it there is no allocator. */
    constructor (ceiling: nat, perRegion: nat, frameSize: nat)
      requires frameSize > 0 && ceiling > 0
      ensures this.ceiling == ceiling && this.perRegion == perRegion && this.frameSize == frameSize
      ensures Valid() && history == [] && |regions| == 1 && live == {}
    {
      this.ceiling, this.perRegion, this.frameSize := ceiling, perRegion, frameSize;
      regions, live, grower, cleared, history := [FreeRegion(perRegion)], {}, None, false, [];
      HistoryKeeps([], perRegion, ceiling);
    }

    /** The first place in a region where the frames fit. */
    method FirstFit(taken: seq<bool>, frames: nat) returns (found: bool, first: nat)
      requires frames > 0
      ensures found ==> Fits(taken, first, frames) && forall f: nat :: f < first ==> !Fits(taken, f, frames)
      ensures !found ==> forall f: nat :: f <= |taken| ==> !Fits(taken, f, frames)
    {
      var consecutive, i := 0, 0;
      while i < |taken|
        invariant 0 <= consecutive <= i <= |taken| && consecutive < frames
        invariant Fits(taken, i - consecutive, consecutive) && (i > consecutive ==> taken[i - consecutive - 1])
        invariant forall f: nat :: f + frames <= i ==> !Fits(taken, f, frames)
      {
        consecutive := if taken[i] then 0 else consecutive + 1;
        if consecutive >= frames {
          return true, i + 1 - frames;
        }
        forall f: nat | f + frames == i + 1 ensures !Fits(taken, f, frames) {
          assert f <= i - consecutive;
          assert taken[i - consecutive];
        }
        i := i + 1;
      }
      return false, 0;
    }

    /** Looks region by region, skipping those too full by their count. */
    method Search(frames: nat) returns (found: Option<Run>)
      requires Sized(regions, perRegion) && frames > 0
      ensures IsFirst(regions, frames, found)
    {
      var h := 0;
      while h < |regions|
        invariant 0 <= h <= |regions| && NoRoom(regions[..h], frames)
      {
        if frames > |regions[h].taken| - regions[h].used {
          TooFull(regions[h].taken, frames);
        } else {
          var fits, first := FirstFit(regions[h].taken, frames);
          if fits { return Some(Run(h, first, frames)); }
        }
        assert regions[..h + 1] == regions[..h] + [regions[h]];
        h := h + 1;
      }
      assert regions[..h] == regions;
      return None;
    }

    /** Takes the first run that fits, region by region; fails exactly when none does. */
    method TakeLocked(me: nat, frames: nat) returns (found: Option<Run>)
      requires Valid() && frames > 0
      modifies this`regions, this`live, this`history
      ensures Valid() && history == old(history) + [Looked(me, frames, found)] && IsFirst(old(regions), frames, found)
    {
      found := Search(frames);
      ghost var e := Looked(me, frames, found);
      StepKeeps(View(), e, perRegion, ceiling);
      OneMore(history, e, perRegion, ceiling, me);
      if found.Some? {
        Mark(found.value, true);
        live := live + {found.value};
      }
      history := history + [e];
    }

    /** Marks the frames of a run and keeps the count. */
    method Mark(run: Run, value: bool)
      requires Sized(regions, perRegion) && run.home < |regions| && run.first + run.frames <= perRegion
      requires forall i :: run.first <= i < run.first + run.frames ==> regions[run.home].taken[i] == !value
      modifies this`regions
      ensures regions == Marked(old(regions), run, value)
    {
      var one := regions[run.home];
      CountPainted(one.taken, run.first, run.frames, value);
      var taken := Paint(one.taken, run.first, run.frames, value);
      regions := regions[run.home := Region(taken, if value then one.used + run.frames else one.used - run.frames)];
    }

    method Paint(taken: seq<bool>, first: nat, frames: nat, value: bool) returns (r: seq<bool>)
      requires first + frames <= |taken|
      ensures r == Painted(taken, first, frames, value)
    {
      r := taken;
      var j := first;
      while j < first + frames
        invariant first <= j <= first + frames && r == Painted(taken, first, j - first, value)
      {
        r := r[j := value];
        j := j + 1;
      }
    }

    lemma RunIsTaken(run: Run)
      requires Valid() && run in live
      ensures run.home < |regions| && run.first + run.frames <= |regions[run.home].taken|
      ensures forall i :: run.first <= i < run.first + run.frames ==> regions[run.home].taken[i]
    {
      forall i: nat | run.first <= i < run.first + run.frames ensures regions[run.home].taken[i] {
        assert Covers(run, run.home, i);
        assert Held(live, run.home, i);
      }
    }

    /** Gives a run back. */
    method Release(run: Run)
      requires Valid() && run in live
      modifies this`regions, this`live, this`history
      ensures Valid() && history == old(history) + [Gave(run)] && live == old(live) - {run}
      ensures |regions| == |old(regions)| && Fits(regions[run.home].taken, run.first, run.frames)
    {
      RunIsTaken(run);
      StepKeeps(View(), Gave(run), perRegion, ceiling);
      OneMore(history, Gave(run), perRegion, ceiling, 0);
      Mark(run, false);
      live := live - {run};
      history := history + [Gave(run)];
    }

    /** Takes or gives up the right to grow, or looks whether a region may be added. */
    method Turn(e: Event)
      requires Valid() && (e.Locked? || e.Checked? || e.Unlocked?) && Enabled(View(), e, ceiling)
      modifies this`grower, this`cleared, this`history
      ensures Valid() && history == old(history) + [e] && View() == Next(old(View()), e, perRegion)
    {
      StepKeeps(View(), e, perRegion, ceiling);
      OneMore(history, e, perRegion, ceiling, 0);
      match e {
        case Locked(who) => grower, cleared := Some(who), false;
        case Checked(_, room) => cleared := room;
        case Unlocked(_) => grower, cleared := None, false;
      }
      history := history + [e];
    }

    method Add(who: nat)
      requires Valid() && Enabled(View(), Added(who), ceiling)
      modifies this`regions, this`cleared, this`history
      ensures Valid() && history == old(history) + [Added(who)] && View() == Next(old(View()), Added(who), perRegion)
    {
      StepKeeps(View(), Added(who), perRegion, ceiling);
      OneMore(history, Added(who), perRegion, ceiling, 0);
      regions := regions + [FreeRegion(perRegion)];
      cleared := false;
      history := history + [Added(who)];
    }

    /** One thing another thread may do while the allocation lock is free. */
    method Other(me: nat, mine: set<Run>)
      requires Valid() && mine <= live
      modifies this`regions, this`live, this`grower, this`cleared, this`history
      ensures Valid() && mine <= live && old(history) <= history && Own(history, me) == Own(old(history), me)
      ensures old(grower) == Some(me) <==> grower == Some(me)
      ensures grower == Some(me) ==> cleared == old(cleared) && |regions| == |old(regions)|
    {
      var who: nat, frames: nat, run: Run, what: int := *, *, *, *;
      if who == me { return; }
      ghost var before := history;
      if what == 0 && frames > 0 {
        var found := TakeLocked(who, frames);
        OneMore(before, Looked(who, frames, found), perRegion, ceiling, me);
      } else if what == 1 && run in live && run !in mine {
        Release(run);
        OneMore(before, Gave(run), perRegion, ceiling, me);
      } else if what == 2 && grower == None {
        Turn(Locked(who));
        OneMore(before, Locked(who), perRegion, ceiling, me);
      } else if what == 3 && grower == Some(who) {
        var room := |regions| < ceiling;
        Turn(Checked(who, room));
        OneMore(before, Checked(who, room), perRegion, ceiling, me);
      } else if what == 4 && grower == Some(who) && cleared {
        Add(who);
        OneMore(before, Added(who), perRegion, ceiling, me);
      } else if what == 5 && grower == Some(who) {
        Turn(Unlocked(who));
        OneMore(before, Unlocked(who), perRegion, ceiling, me);
      }
    }

    /** Any number of such things. */
    method Others(me: nat, mine: set<Run>)
      requires Valid() && mine <= live
      modifies this`regions, this`live, this`grower, this`cleared, this`history
      ensures Valid() && mine <= live && old(history) <= history && Own(history, me) == Own(old(history), me)
      ensures old(grower) == Some(me) <==> grower == Some(me)
      ensures grower == Some(me) ==> cleared == old(cleared) && |regions| == |old(regions)|
    {
      var rounds: int := *;
      while rounds > 0
        invariant Valid() && mine <= live && old(history) <= history && Own(history, me) == Own(old(history), me)
        invariant old(grower) == Some(me) <==> grower == Some(me)
        invariant grower == Some(me) ==> cleared == old(cleared) && |regions| == |old(regions)|
      {
        Other(me, mine);
        rounds := rounds - 1;
      }
    }

    /** Waits for the right to grow: whoever has it gives it up. */
    method Lock(me: nat, alone: bool, mine: set<Run>)
      requires Valid() && mine <= live && grower != Some(me) && (alone ==> grower == None)
      modifies this`regions, this`live, this`grower, this`cleared, this`history
      ensures Valid() && mine <= live && old(history) <= history && grower == Some(me)
      ensures Own(history, me) == Own(old(history), me) + [Locked(me)]
      ensures alone ==> regions == old(regions) && live == old(live)
    {
      if !alone { Others(me, mine); }
      if grower.Some? {
        OneMore(history, Unlocked(grower.value), perRegion, ceiling, me);
        Turn(Unlocked(grower.value));
      }
      OneMore(history, Locked(me), perRegion, ceiling, me);
      Turn(Locked(me));
    }

    /** Adds a region, unless there may be no more or it cannot be built. Building runs beside other threads. */
    method Grow(me: nat, built: bool, alone: bool, mine: set<Run>) returns (ok: bool)
      requires Valid() && mine <= live && grower == Some(me)
      modifies this`regions, this`live, this`grower, this`cleared, this`history
      ensures Valid() && mine <= live && old(history) <= history && grower == Some(me)
      ensures ok == (|old(regions)| < ceiling && built) && |regions| == |old(regions)| + if ok then 1 else 0
      ensures Own(history, me) == Own(old(history), me) + [Checked(me, |old(regions)| < ceiling)] + if ok then [Added(me)] else []
      ensures alone ==> live == old(live) && regions == old(regions) + if ok then [FreeRegion(perRegion)] else []
    {
      var room := |regions| < ceiling;
      OneMore(history, Checked(me, room), perRegion, ceiling, me);
      Turn(Checked(me, room));
      if !room { return false; }
      if !alone { Others(me, mine); }
      if !built { return false; }
      OneMore(history, Added(me), perRegion, ceiling, me);
      Add(me);
      return true;
    }

    /** One look, which is one event of this thread's. */
    method Look(me: nat, frames: nat) returns (found: Option<Run>)
      requires Valid() && frames > 0
      modifies this`regions, this`live, this`history
      ensures Valid() && old(history) <= history && Own(history, me) == Own(old(history), me) + [Looked(me, frames, found)]
      ensures IsFirst(old(regions), frames, found) && grower == old(grower)
      ensures found.None? ==> regions == old(regions) && live == old(live)
      ensures found.Some? ==> found.value !in old(live) && live == old(live) + {found.value}
    {
      ghost var before, t := history, View();
      found := TakeLocked(me, frames);
      OneMore(before, Looked(me, frames, found), perRegion, ceiling, me);
      if found.Some? { FitsApart(t, found.value, perRegion, ceiling); }
    }

    method Unlock(me: nat)
      requires Valid() && grower == Some(me)
      modifies this`grower, this`cleared, this`history
      ensures Valid() && old(history) <= history && Own(history, me) == Own(old(history), me) + [Unlocked(me)] && grower == None
    {
      OneMore(history, Unlocked(me), perRegion, ceiling, me);
      Turn(Unlocked(me));
    }

    /**
      A run for `bytes`, beside whatever other threads do between the looks at the
      table, or alone. What the call did is told by its own events in the history,
      which is legal throughout: a run is one that a look of its own found, a failure
      follows a look that found no room, and a region is added only by the one grower
      after a look that found none. Alone it fails exactly for nothing, for more than
      a region holds, and when no region has the room and none can be added.
     */
    method Alloc(me: nat, bytes: nat, built: bool, alone: bool, mine: set<Run>)
      returns (ok: bool, run: Run, ghost own: seq<Event>)
      requires Valid() && mine <= live && grower != Some(me) && (alone ==> grower == None)
      modifies this`regions, this`live, this`grower, this`cleared, this`history
      ensures Valid() && mine <= live && old(history) <= history && grower != Some(me)
      ensures Own(history, me) == Own(old(history), me) + own
      ensures var frames := FramesFor(bytes, frameSize);
        if bytes == 0 || frames > perRegion then !ok && own == [] else Story(own, me, frames, built, ok, run)
      ensures ok ==> run in live && run !in mine && run.frames == FramesFor(bytes, frameSize)
      ensures alone ==> (ok <==> (0 < bytes && FramesFor(bytes, frameSize) <= perRegion
                       && (!NoRoom(old(regions), FramesFor(bytes, frameSize)) || (|old(regions)| < ceiling && built))))
      ensures alone ==> live == if ok then old(live) + {run} else old(live)
      ensures alone && ok ==> run !in old(live)
    {
      run, own := Run(0, 0, 0), [];
      if bytes == 0 { return false, run, own; }
      var frames := FramesFor(bytes, frameSize);
      if frames > perRegion { return false, run, own; }
      ok, run, own := AllocFrames(me, frames, built, alone, mine);
    }

    method AllocFrames(me: nat, frames: nat, built: bool, alone: bool, mine: set<Run>)
      returns (ok: bool, run: Run, ghost own: seq<Event>)
      requires Valid() && mine <= live && grower != Some(me) && (alone ==> grower == None) && 0 < frames <= perRegion
      modifies this`regions, this`live, this`grower, this`cleared, this`history
      ensures Valid() && mine <= live && old(history) <= history && grower != Some(me)
      ensures Own(history, me) == Own(old(history), me) + own && Story(own, me, frames, built, ok, run)
      ensures ok ==> run in live && run !in mine && run.frames == frames
      ensures alone ==> (ok <==> !NoRoom(old(regions), frames) || (|old(regions)| < ceiling && built))
      ensures alone ==> live == if ok then old(live) + {run} else old(live)
      ensures alone && ok ==> run !in old(live)
    {
      var found := Look(me, frames);
      own := [Looked(me, frames, found)];
      if found.Some? {
        FoundHasRoom(old(regions), frames, found.value);
        return true, found.value, own;
      }
      ok, run, own := AllocAsGrower(me, frames, built, alone, mine);
      assert Own(old(history), me) + [Looked(me, frames, None)] + own == Own(old(history), me) + ([Looked(me, frames, None)] + own);
      own := [Looked(me, frames, None)] + own;
    }

    /** The second look, as the one grower, and what follows it. */
    method AllocAsGrower(me: nat, frames: nat, built: bool, alone: bool, mine: set<Run>)
      returns (ok: bool, run: Run, ghost own: seq<Event>)
      requires Valid() && mine <= live && grower != Some(me) && (alone ==> grower == None) && 0 < frames <= perRegion
      modifies this`regions, this`live, this`grower, this`cleared, this`history
      ensures Valid() && mine <= live && old(history) <= history && grower == None
      ensures Own(history, me) == Own(old(history), me) + own
      ensures Story([Looked(me, frames, None)] + own, me, frames, built, ok, run)
      ensures ok ==> run in live && run !in mine && run.frames == frames
      ensures alone ==> (ok <==> !NoRoom(old(regions), frames) || (|old(regions)| < ceiling && built))
      ensures alone ==> live == if ok then old(live) + {run} else old(live)
      ensures alone && ok ==> run !in old(live)
    {
      ghost var second, more;
      var found;
      found, second, more := UnderLock(me, frames, built, alone, mine);
      own := [Locked(me), Looked(me, frames, second)] + more + [Unlocked(me)];
      ok, run := found.Some?, if found.Some? then found.value else Run(0, 0, 0);
      Told(me, frames, built, second, |more| > 0 && more[0].room, more, found);
      if alone && second.Some? { FoundHasRoom(old(regions), frames, second.value); }
    }

    method UnderLock(me: nat, frames: nat, built: bool, alone: bool, mine: set<Run>)
      returns (found: Option<Run>, ghost second: Option<Run>, ghost more: seq<Event>)
      requires Valid() && mine <= live && grower != Some(me) && (alone ==> grower == None) && 0 < frames <= perRegion
      modifies this`regions, this`live, this`grower, this`cleared, this`history
      ensures Valid() && mine <= live && old(history) <= history && grower == None
      ensures Own(history, me) == Own(old(history), me) + ([Locked(me), Looked(me, frames, second)] + more + [Unlocked(me)])
      ensures Continued(me, frames, built, second, |more| > 0 && more[0].Checked? && more[0].room, more, found)
      ensures found.Some? ==> found.value in live && found.value !in mine && found.value.frames == frames
      ensures alone ==> IsFirst(old(regions), frames, second)
      ensures alone ==> (found.Some? <==> second.Some? || (|old(regions)| < ceiling && built))
      ensures alone ==> live == if found.Some? then old(live) + {found.value} else old(live)
      ensures alone && found.Some? ==> found.value !in old(live)
    {
      Lock(me, alone, mine);
      found, second, more := LookAndGrow(me, frames, built, alone, mine);
      Unlock(me);
      Joined(Own(old(history), me), Locked(me), [Looked(me, frames, second)] + more, Unlocked(me));
      assert [Locked(me)] + ([Looked(me, frames, second)] + more) == [Locked(me), Looked(me, frames, second)] + more;
    }

    /** What follows the second look: nothing, a check in vain, or a region and a third look. */
    predicate Continued(me: nat, frames: nat, built: bool, second: Option<Run>, room: bool, more: seq<Event>, found: Option<Run>) {
      if second.Some? then more == [] && found == second
      else if room && built then more == [Checked(me, true), Added(me), Looked(me, frames, found)]
      else more == [Checked(me, room)] && found == None
    }

    lemma Told(me: nat, frames: nat, built: bool, second: Option<Run>, room: bool, more: seq<Event>, found: Option<Run>)
      requires Continued(me, frames, built, second, room, more, found)
      requires found.Some? ==> found.value.frames == frames
      ensures var run := if found.Some? then found.value else Run(0, 0, 0);
        Story([Looked(me, frames, None)] + ([Locked(me), Looked(me, frames, second)] + more + [Unlocked(me)]),
              me, frames, built, found.Some?, run)
    {
    }

    /** The second look and, where it finds nothing, one more region and a third. */
    method LookAndGrow(me: nat, frames: nat, built: bool, alone: bool, mine: set<Run>)
      returns (found: Option<Run>, ghost second: Option<Run>, ghost more: seq<Event>)
      requires Valid() && mine <= live && grower == Some(me) && 0 < frames <= perRegion
      modifies this`regions, this`live, this`grower, this`cleared, this`history
      ensures Valid() && mine <= live && old(history) <= history && grower == Some(me)
      ensures Own(history, me) == Own(old(history), me) + ([Looked(me, frames, second)] + more)
      ensures IsFirst(old(regions), frames, second)
      ensures Continued(me, frames, built, second, |old(regions)| < ceiling, more, found)
      ensures found.Some? ==> found.value in live && found.value !in mine && found.value.frames == frames
      ensures alone ==> (found.Some? <==> second.Some? || (|old(regions)| < ceiling && built))
      ensures alone ==> live == if found.Some? then old(live) + {found.value} else old(live)
      ensures alone && found.Some? ==> found.value !in old(live)
    {
      found := Look(me, frames);
      second, more := found, [];
      if found.None? { found, more := GrowAndLook(me, frames, built, alone, mine); }
      assert Own(old(history), me) + [Looked(me, frames, second)] + more
          == Own(old(history), me) + ([Looked(me, frames, second)] + more);
    }

    method GrowAndLook(me: nat, frames: nat, built: bool, alone: bool, mine: set<Run>) returns (found: Option<Run>, ghost own: seq<Event>)
      requires Valid() && mine <= live && grower == Some(me) && 0 < frames <= perRegion && NoRoom(regions, frames)
      modifies this`regions, this`live, this`grower, this`cleared, this`history
      ensures Valid() && mine <= live && old(history) <= history && grower == Some(me)
      ensures Own(history, me) == Own(old(history), me) + own
      ensures own == if |old(regions)| < ceiling && built then [Checked(me, true), Added(me), Looked(me, frames, found)]
                     else [Checked(me, |old(regions)| < ceiling)]
      ensures found.Some? ==> |old(regions)| < ceiling && built
      ensures found.Some? ==> found.value in live && found.value !in mine && found.value.frames == frames
      ensures alone ==> (found.Some? <==> |old(regions)| < ceiling && built)
      ensures alone ==> live == if found.Some? then old(live) + {found.value} else old(live)
      ensures alone && found.Some? ==> found.value !in old(live)
    {
      var grown := Grow(me, built, alone, mine);
      own := [Checked(me, |old(regions)| < ceiling)];
      if !grown { return None, own; }
      if alone {
        FitsEmpty(perRegion, frames);
        assert regions[|regions| - 1] == FreeRegion(perRegion);
      } else {
        Others(me, mine);
      }
      found := Look(me, frames);
      own := own + [Added(me), Looked(me, frames, found)];
    }
  }

  lemma FitsEmpty(n: nat, frames: nat)
    requires frames <= n
    ensures FitsSomewhere(seq(n, _ => false), frames)
  {
    assert Fits(seq(n, _ => false), 0, frames);
  }
}
