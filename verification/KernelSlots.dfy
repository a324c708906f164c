/**
  The landing slots of a kernel mount's rail: taken by a caller, offered to the
  peer, and given back by whichever of the caller and the landing comes last.
 */
module KernelSlots {
  const SLOTS: nat := 16

  datatype SlotState = Live | Orphan | Landed

  datatype Rail = Rail(free: set<nat>, state: seq<SlotState>, done: seq<bool>, broken: bool)

  predicate RailShaped(r: Rail) {
    |r.state| == |r.done| == SLOTS && forall s :: s in r.free ==> s < SLOTS
  }

  function TakenAt(r: Rail, slot: nat): Rail
    requires RailShaped(r) && slot < SLOTS
  {
    r.(free := r.free - {slot}, state := r.state[slot := Live])
  }

  function Released(r: Rail, slot: nat): Rail {
    if slot < SLOTS then r.(free := r.free + {slot}) else r
  }

  function Armed(r: Rail, slot: nat): Rail
    requires RailShaped(r) && slot < SLOTS
  {
    r.(done := r.done[slot := false], state := r.state[slot := Live])
  }

  /** The exchange a landing makes: claim the slot unless its caller has gone. */
  function Exchanged(r: Rail, slot: nat, from: SlotState, to: SlotState): Rail
    requires RailShaped(r) && slot < SLOTS
  {
    if r.state[slot] == from then r.(state := r.state[slot := to]) else r
  }

  function Completed(r: Rail, slot: nat): Rail
    requires RailShaped(r) && slot < SLOTS
  {
    r.(done := r.done[slot := true])
  }

  function Stranded(r: Rail): Rail {
    r.(broken := true, done := seq(SLOTS, _ => true))
  }

  /** The lowest free slot. */
  predicate IsFirst(free: set<nat>, slot: nat) {
    slot in free && forall s :: s in free ==> slot <= s
  }

  class RailSlots {
    var free: seq<bool>
    var state: seq<SlotState>
    var done: seq<bool>
    var broken: bool

    ghost function View(): Rail
      reads this
    {
      Rail((set i: nat | i < |free| && free[i]), state, done, broken)
    }

    ghost predicate Valid()
      reads this
    {
      |free| == |state| == |done| == SLOTS
    }

    constructor ()
      ensures Valid() && View() == FRESH_RAIL
    {
      free := seq(SLOTS, _ => true);
      state := seq(SLOTS, _ => Live);
      done := seq(SLOTS, _ => false);
      broken := false;
    }

    /** Returns a slot, or -1 on a broken rail, or -2 when the caller would have to wait. */
    method SlotTake() returns (slot: int)
      requires Valid()
      modifies this`free, this`state
      ensures Valid()
      ensures slot == -1 <==> old(broken)
      ensures slot == -2 <==> !old(broken) && old(View().free) == {}
      ensures slot < 0 ==> slot in {-1, -2} && View() == old(View())
      ensures slot >= 0 ==> IsFirst(old(View().free), slot) && View() == TakenAt(old(View()), slot)
    {
      if broken { return -1; }
      var at := 0;
      while at < SLOTS && !free[at]
        invariant 0 <= at <= SLOTS && forall i :: 0 <= i < at ==> !free[i]
      {
        at := at + 1;
      }
      if at == SLOTS {
        assert View().free == {};
        return -2;
      }
      assert at in View().free;
      free := free[at := false];
      state := state[at := Live];
      return at;
    }

    method SlotRelease(slot: nat)
      requires Valid()
      modifies this`free
      ensures Valid() && View() == Released(old(View()), slot)
    {
      if slot < SLOTS { free := free[slot := true]; }
    }

    /** What an offer does to the slot before the clear-to-send goes out. */
    method Arm(slot: nat)
      requires Valid() && slot < SLOTS
      modifies this`state, this`done
      ensures Valid() && View() == Armed(old(View()), slot)
    {
      done := done[slot := false];
      state := state[slot := Live];
    }

    /** A page arrived. The completion that follows a successful claim is a separate step. */
    method OnLanded(slot: nat) returns (orphan: bool)
      requires Valid() && slot < SLOTS
      modifies this`state, this`free
      ensures Valid() && orphan == (old(state)[slot] == Orphan)
      ensures View() == if orphan then Released(old(View()), slot) else Exchanged(old(View()), slot, Live, Landed)
    {
      orphan := state[slot] == Orphan;
      if state[slot] == Live { state := state[slot := Landed]; }
      if orphan { SlotRelease(slot); }
    }

    /** The caller leaves its page to the landing, or gives the slot back when the landing won. */
    method SlotOrphan(slot: nat)
      requires Valid() && slot < SLOTS
      modifies this`state, this`free
      ensures Valid()
      ensures View() == if old(broken) || old(state)[slot] != Live then Released(old(View()), slot)
                        else Exchanged(old(View()), slot, Live, Orphan)
    {
      if broken {
        SlotRelease(slot);
        return;
      }
      if state[slot] == Live { state := state[slot := Orphan]; } else { SlotRelease(slot); }
    }

    method StrandAll()
      requires Valid()
      modifies this`broken, this`done
      ensures Valid() && View() == Stranded(old(View()))
    {
      broken := true;
      for slot := 0 to SLOTS
        invariant Valid() && broken && free == old(free) && state == old(state)
        invariant forall i :: 0 <= i < slot ==> done[i]
      {
        done := done[slot := true];
      }
      assert done == seq(SLOTS, _ => true);
    }
  }

  const FRESH_RAIL := Rail((set i: nat | i < SLOTS), seq(SLOTS, _ => Live), seq(SLOTS, _ => false), false)

  // ----- Callers, the peer and the completion handler, interleaved -----

  datatype Phase =
    | Out
    | Holding(slot: nat)
    | Waiting(slot: nat)
    | Leaving(slot: nat)
    | Ended(slot: nat)

  /**
    `coming` holds the slots the peer may still write into. `waking` holds the
    slots a landing has claimed but not completed yet, `dropping` those it found
    orphaned and has not released yet.
   */
  datatype System = System(rail: Rail, callers: map<nat, Phase>, coming: set<nat>, waking: set<nat>, dropping: set<nat>)

  datatype Step =
    | Take(c: nat, slot: nat)
    | Offer(c: nat)
    | OfferFails(c: nat)
    | Land(slot: nat)
    | Wake(slot: nat)
    | Drop(slot: nat)
    | End(c: nat)
    | TimeOut(c: nat)
    | Release(c: nat)
    | Leave(c: nat)
    | Exchange(c: nat)
    | Break

  function PhaseOf(s: System, c: nat): Phase {
    if c in s.callers then s.callers[c] else Out
  }

  predicate Holds(s: System, c: nat, slot: nat) {
    PhaseOf(s, c) != Out && PhaseOf(s, c).slot == slot
  }

  predicate Enabled(s: System, step: Step) {
    && RailShaped(s.rail)
    && match step
       case Take(c, slot) => PhaseOf(s, c).Out? && !s.rail.broken && IsFirst(s.rail.free, slot)
       case Offer(c) => PhaseOf(s, c).Holding? && !s.rail.broken && PhaseOf(s, c).slot < SLOTS
       case OfferFails(c) => PhaseOf(s, c).Holding? && PhaseOf(s, c).slot < SLOTS
       case Land(slot) => slot in s.coming && slot < SLOTS
       case Wake(slot) => slot in s.waking && slot < SLOTS
       case Drop(slot) => slot in s.dropping && slot < SLOTS
       case End(c) => PhaseOf(s, c).Waiting? && PhaseOf(s, c).slot < SLOTS && s.rail.done[PhaseOf(s, c).slot]
       case TimeOut(c) => PhaseOf(s, c).Waiting?
       case Release(c) => PhaseOf(s, c).Ended? || PhaseOf(s, c).Holding?
       case Leave(c) => PhaseOf(s, c).Waiting?
       case Exchange(c) => PhaseOf(s, c).Leaving? && PhaseOf(s, c).slot < SLOTS
       case Break => true
  }

  function GivenBack(s: System, c: nat): System
    requires !PhaseOf(s, c).Out?
  {
    s.(rail := Released(s.rail, PhaseOf(s, c).slot), callers := s.callers[c := Out])
  }

  function Next(s: System, step: Step): System
    requires Enabled(s, step)
  {
    match step
    case Take(c, slot) => s.(rail := TakenAt(s.rail, slot), callers := s.callers[c := Holding(slot)])
    case Offer(c) =>
      var slot := PhaseOf(s, c).slot;
      s.(rail := Armed(s.rail, slot), callers := s.callers[c := Waiting(slot)], coming := s.coming + {slot})
    case OfferFails(c) => GivenBack(s.(rail := Armed(s.rail, PhaseOf(s, c).slot)), c)
    case Land(slot) =>
      var t := s.(coming := s.coming - {slot});
      if s.rail.state[slot] == Orphan then t.(dropping := s.dropping + {slot})
      else t.(rail := Exchanged(s.rail, slot, Live, Landed), waking := s.waking + {slot})
    case Wake(slot) => s.(rail := Completed(s.rail, slot), waking := s.waking - {slot})
    case Drop(slot) => s.(rail := Released(s.rail, slot), dropping := s.dropping - {slot})
    case End(c) => s.(callers := s.callers[c := Ended(PhaseOf(s, c).slot)])
    case TimeOut(c) => s.(rail := s.rail.(broken := true), callers := s.callers[c := Ended(PhaseOf(s, c).slot)])
    case Release(c) => GivenBack(s, c)
    case Leave(c) =>
      if s.rail.broken then GivenBack(s, c) else s.(callers := s.callers[c := Leaving(PhaseOf(s, c).slot)])
    case Exchange(c) =>
      var slot := PhaseOf(s, c).slot;
      if s.rail.state[slot] == Live
      then s.(rail := Exchanged(s.rail, slot, Live, Orphan), callers := s.callers[c := Out])
      else GivenBack(s, c)
    case Break => s.(rail := Stranded(s.rail))
  }

  const INIT := System(FRESH_RAIL, map[], {}, {}, {})

  // ----- The invariant -----

  /** What a caller knows of the slot it holds. */
  predicate CallerOk(s: System, c: nat)
    requires RailShaped(s.rail)
  {
    var p := PhaseOf(s, c);
    p.Out? || (
      && p.slot < SLOTS && p.slot !in s.rail.free && p.slot !in s.dropping
      && (p.Holding? || p.Ended? ==> p.slot !in s.coming)
      && (p.Waiting? || p.Leaving? ==> s.rail.state[p.slot] == if p.slot in s.coming then Live else Landed)
      && (p.Waiting? && s.rail.done[p.slot] ==> p.slot !in s.coming))
  }

  ghost predicate Held(s: System, slot: nat) {
    exists c :: Holds(s, c, slot)
  }

  /** Left by its caller with the page still coming. */
  predicate Orphaned(s: System, slot: nat)
    requires RailShaped(s.rail)
  {
    slot < SLOTS && slot in s.coming && s.rail.state[slot] == Orphan && slot !in s.rail.free && slot !in s.dropping
  }

  ghost predicate SlotOk(s: System, slot: nat)
    requires RailShaped(s.rail)
  {
    && (slot in s.coming ==> slot !in s.rail.free && slot !in s.dropping && slot !in s.waking)
    && (slot in s.dropping ==> slot !in s.rail.free)
    && (slot in s.coming && slot < SLOTS && s.rail.state[slot] == Orphan ==> !Held(s, slot))
    && (slot in s.rail.free || Held(s, slot) || Orphaned(s, slot) || slot in s.dropping)
  }

  ghost predicate Inv(s: System) {
    && RailShaped(s.rail)
    && (forall c: nat :: CallerOk(s, c))
    && (forall c: nat, d: nat :: c != d && !PhaseOf(s, c).Out? ==> !Holds(s, d, PhaseOf(s, c).slot))
    && (forall slot: nat :: slot < SLOTS ==> SlotOk(s, slot))
  }

  /** An offer that waits for a completion still due on its slot from an earlier page. */
  predicate Overtakes(s: System, step: Step) {
    step.Offer? && PhaseOf(s, step.c).Holding? && PhaseOf(s, step.c).slot in s.waking
  }

  lemma InitHolds()
    ensures Inv(INIT)
  {
  }

  /** The two states differ at most in `slot` and in the phases that name it. */
  ghost predicate OnlyAt(s: System, t: System, slot: nat) {
    && RailShaped(s.rail) && RailShaped(t.rail) && slot < SLOTS
    && (forall d: nat :: PhaseOf(t, d) == PhaseOf(s, d)
         || ((PhaseOf(s, d).Out? || PhaseOf(s, d).slot == slot) && (PhaseOf(t, d).Out? || PhaseOf(t, d).slot == slot)))
    && (forall x: nat :: x != slot ==> (x in t.rail.free) == (x in s.rail.free))
    && (forall x: nat :: x != slot ==> (x in t.coming) == (x in s.coming))
    && (forall x: nat :: x != slot ==> (x in t.dropping) == (x in s.dropping))
    && (forall x: nat :: x != slot ==> (x in t.waking) == (x in s.waking))
    && (forall x: nat :: x < SLOTS && x != slot ==> t.rail.state[x] == s.rail.state[x] && t.rail.done[x] == s.rail.done[x])
  }

  /** Only that slot and whoever names it have to be looked at. */
  lemma StepAtSlot(s: System, t: System, slot: nat)
    requires Inv(s) && OnlyAt(s, t, slot) && SlotOk(t, slot)
    requires forall d: nat :: Holds(t, d, slot) ==> CallerOk(t, d)
    requires forall d: nat, e: nat :: Holds(t, d, slot) && Holds(t, e, slot) ==> d == e
    ensures Inv(t)
  {
    forall d: nat ensures CallerOk(t, d) {
      if !Holds(t, d, slot) { assert CallerOk(s, d); }
    }
    forall x: nat | x < SLOTS && x != slot ensures SlotOk(t, x) {
      assert SlotOk(s, x);
      if d: nat :| Holds(s, d, x) { assert Holds(t, d, x); }
      if d: nat :| Holds(t, d, x) { assert Holds(s, d, x); }
    }
    forall a: nat, b: nat | a != b && !PhaseOf(t, a).Out? ensures !Holds(t, b, PhaseOf(t, a).slot) {
      var x := PhaseOf(t, a).slot;
      assert Holds(t, a, x);
      if x != slot && Holds(t, b, x) { assert Holds(s, a, x) && Holds(s, b, x); }
    }
  }

  /** A step of caller `c` alone on its slot. */
  lemma CallerStep(s: System, t: System, c: nat, slot: nat)
    requires Inv(s) && OnlyAt(s, t, slot) && SlotOk(t, slot) && CallerOk(t, c)
    requires forall d: nat :: d != c ==> PhaseOf(t, d) == PhaseOf(s, d) && !Holds(s, d, slot)
    ensures Inv(t)
  {
    forall d: nat | Holds(t, d, slot) ensures d == c && CallerOk(t, d) {
      assert d != c ==> !Holds(s, d, slot);
    }
    StepAtSlot(s, t, slot);
  }

  lemma TakeKeeps(s: System, c: nat, slot: nat)
    requires Inv(s) && Enabled(s, Take(c, slot))
    ensures Inv(Next(s, Take(c, slot)))
  {
    var t := Next(s, Take(c, slot));
    forall d: nat ensures !Holds(s, d, slot) { assert CallerOk(s, d); }
    assert SlotOk(s, slot) && Holds(t, c, slot);
    CallerStep(s, t, c, slot);
  }

  /** An offer keeps the invariant exactly when no completion for an earlier page is still due on its slot. */
  lemma OfferKeepsExactly(s: System, c: nat)
    requires Inv(s) && Enabled(s, Offer(c))
    ensures Inv(Next(s, Offer(c))) <==> !Overtakes(s, Offer(c))
  {
    var t := Next(s, Offer(c));
    var slot := PhaseOf(s, c).slot;
    assert CallerOk(s, c) && SlotOk(s, slot);
    if Overtakes(s, Offer(c)) {
      assert !SlotOk(t, slot);
    } else {
      assert Holds(t, c, slot);
      CallerStep(s, t, c, slot);
    }
  }

  /** Giving back a slot the peer is done with. */
  lemma GiveBackKeeps(s: System, t: System, c: nat)
    requires Inv(s) && !PhaseOf(s, c).Out? && PhaseOf(s, c).slot !in s.coming
    requires OnlyAt(s, t, PhaseOf(s, c).slot) && PhaseOf(t, c).Out?
    requires PhaseOf(s, c).slot in t.rail.free && t.coming == s.coming && t.dropping == s.dropping && t.waking == s.waking
    requires forall d: nat :: d != c ==> PhaseOf(t, d) == PhaseOf(s, d)
    ensures Inv(t)
  {
    var slot := PhaseOf(s, c).slot;
    assert CallerOk(s, c);
    CallerStep(s, t, c, slot);
  }

  lemma EndKeeps(s: System, c: nat)
    requires Inv(s) && Enabled(s, End(c))
    ensures Inv(Next(s, End(c)))
  {
    var t := Next(s, End(c));
    var slot := PhaseOf(s, c).slot;
    assert CallerOk(s, c) && SlotOk(s, slot) && Holds(t, c, slot) && Holds(s, c, slot);
    CallerStep(s, t, c, slot);
  }

  lemma LeaveKeeps(s: System, c: nat)
    requires Inv(s) && Enabled(s, Leave(c)) && !s.rail.broken
    ensures Inv(Next(s, Leave(c)))
  {
    var t := Next(s, Leave(c));
    var slot := PhaseOf(s, c).slot;
    assert CallerOk(s, c) && SlotOk(s, slot) && Holds(t, c, slot) && Holds(s, c, slot);
    CallerStep(s, t, c, slot);
  }

  lemma ExchangeKeeps(s: System, c: nat)
    requires Inv(s) && Enabled(s, Exchange(c))
    ensures Inv(Next(s, Exchange(c)))
  {
    var t := Next(s, Exchange(c));
    var slot := PhaseOf(s, c).slot;
    assert CallerOk(s, c) && SlotOk(s, slot) && Holds(s, c, slot);
    if s.rail.state[slot] == Live {
      forall d: nat ensures !Holds(t, d, slot) { assert d != c ==> !Holds(s, d, slot); }
      CallerStep(s, t, c, slot);
    } else {
      GiveBackKeeps(s, t, c);
    }
  }

  lemma LandKeeps(s: System, slot: nat)
    requires Inv(s) && Enabled(s, Land(slot))
    ensures Inv(Next(s, Land(slot)))
  {
    var t := Next(s, Land(slot));
    assert SlotOk(s, slot);
    forall d: nat ensures Holds(t, d, slot) == Holds(s, d, slot) {}
    forall d: nat | Holds(s, d, slot) ensures CallerOk(t, d) { assert CallerOk(s, d); }
    if d: nat :| Holds(s, d, slot) { assert Holds(t, d, slot); }
    StepAtSlot(s, t, slot);
  }

  lemma WakeKeeps(s: System, slot: nat)
    requires Inv(s) && Enabled(s, Wake(slot))
    ensures Inv(Next(s, Wake(slot)))
  {
    var t := Next(s, Wake(slot));
    assert SlotOk(s, slot);
    forall d: nat ensures Holds(t, d, slot) == Holds(s, d, slot) {}
    forall d: nat | Holds(s, d, slot) ensures CallerOk(t, d) { assert CallerOk(s, d); }
    if d: nat :| Holds(s, d, slot) { assert Holds(t, d, slot); }
    StepAtSlot(s, t, slot);
  }

  lemma DropKeeps(s: System, slot: nat)
    requires Inv(s) && Enabled(s, Drop(slot))
    ensures Inv(Next(s, Drop(slot)))
  {
    var t := Next(s, Drop(slot));
    assert SlotOk(s, slot);
    forall d: nat ensures !Holds(t, d, slot) { assert CallerOk(s, d); }
    StepAtSlot(s, t, slot);
  }

  /** Up to the break, every step keeps the invariant, provided no offer overtakes a completion. */
  lemma StepKeeps(s: System, step: Step)
    requires Inv(s) && Enabled(s, step) && !Overtakes(s, step) && !s.rail.broken && !Next(s, step).rail.broken
    ensures Inv(Next(s, step))
  {
    match step
    case Take(c, slot) => TakeKeeps(s, c, slot);
    case Offer(c) => OfferKeepsExactly(s, c);
    case OfferFails(c) =>
      assert CallerOk(s, c);
      GiveBackKeeps(s, Next(s, step), c);
    case Land(slot) => LandKeeps(s, slot);
    case Wake(slot) => WakeKeeps(s, slot);
    case Drop(slot) => DropKeeps(s, slot);
    case End(c) => EndKeeps(s, c);
    case Release(c) =>
      assert CallerOk(s, c);
      GiveBackKeeps(s, Next(s, step), c);
    case Leave(c) => LeaveKeeps(s, c);
    case Exchange(c) => ExchangeKeeps(s, c);
    case TimeOut(_) =>
    case Break =>
  }

  // ----- Whole runs -----

  ghost predicate Runs(s: System, steps: seq<Step>, t: System)
    decreases steps
  {
    if steps == [] then t == s
    else Enabled(s, steps[0]) && Runs(Next(s, steps[0]), steps[1..], t)
  }

  /** No offer of the run overtakes a completion. */
  ghost predicate Orderly(s: System, steps: seq<Step>)
    decreases steps
  {
    steps == [] || (Enabled(s, steps[0]) && !Overtakes(s, steps[0]) && Orderly(Next(s, steps[0]), steps[1..]))
  }

  lemma {:induction false} BreakIsFinal(s: System, steps: seq<Step>, t: System)
    requires Runs(s, steps, t) && s.rail.broken
    ensures t.rail.broken && t.coming <= s.coming
    decreases steps
  {
    if steps != [] { BreakIsFinal(Next(s, steps[0]), steps[1..], t); }
  }

  lemma {:induction false} RunKeeps(s: System, steps: seq<Step>, t: System)
    requires Inv(s) && Runs(s, steps, t) && Orderly(s, steps) && !t.rail.broken
    ensures Inv(t)
    decreases steps
  {
    if steps != [] {
      if s.rail.broken { BreakIsFinal(s, steps, t); }
      var next := Next(s, steps[0]);
      if next.rail.broken { BreakIsFinal(next, steps[1..], t); }
      StepKeeps(s, steps[0]);
      RunKeeps(next, steps[1..], t);
    }
  }

  predicate One(a: bool, b: bool, c: bool, d: bool) {
    (a && !b && !c && !d) || (!a && b && !c && !d) || (!a && !b && c && !d) || (!a && !b && !c && d)
  }

  /**
    Until the rail breaks, every slot is exactly one of free, held by one caller,
    orphaned with its page still coming, or orphaned and about to be released.
   */
  lemma SlotsAreAccountedFor(steps: seq<Step>, s: System, slot: nat)
    requires Runs(INIT, steps, s) && Orderly(INIT, steps) && !s.rail.broken && slot < SLOTS
    ensures RailShaped(s.rail)
    ensures One(slot in s.rail.free, Held(s, slot), Orphaned(s, slot), slot in s.dropping)
    ensures forall c: nat, d: nat :: Holds(s, c, slot) && Holds(s, d, slot) ==> c == d
  {
    InitHolds();
    RunKeeps(INIT, steps, s);
    assert SlotOk(s, slot);
    forall c: nat | Holds(s, c, slot) ensures slot !in s.rail.free && slot !in s.dropping && !Orphaned(s, slot) {
      assert CallerOk(s, c);
    }
  }

  /** The slot a step gives back, if it gives one back. */
  predicate GivesBack(s: System, step: Step, slot: nat)
    requires Enabled(s, step)
  {
    slot < SLOTS && match step
    case OfferFails(c) => PhaseOf(s, c).slot == slot
    case Drop(d) => d == slot
    case Release(c) => PhaseOf(s, c).slot == slot
    case Exchange(c) => PhaseOf(s, c).slot == slot && s.rail.state[slot] != Live
    case Leave(c) => PhaseOf(s, c).slot == slot && s.rail.broken
    case _ => false
  }

  /**
    In every such run a slot is given back once: never while it is free, and
    never while the peer may still write into it. Nor is it offered again, or its
    page read, before the peer's write has landed.
   */
  lemma SlotsAreReleasedOnce(steps: seq<Step>, s: System, step: Step, slot: nat)
    requires Runs(INIT, steps, s) && Orderly(INIT, steps) && !s.rail.broken && Enabled(s, step)
    ensures GivesBack(s, step, slot) ==> slot !in s.rail.free && slot !in s.coming && slot in Next(s, step).rail.free
    ensures step.Offer? || step.End? ==> PhaseOf(s, step.c).slot !in s.coming
    ensures step.Take? ==> step.slot !in s.coming
  {
    InitHolds();
    RunKeeps(INIT, steps, s);
    if GivesBack(s, step, slot) { assert SlotOk(s, slot); }
    if step.Offer? || step.End? || step.OfferFails? || step.Release? || step.Exchange? { assert CallerOk(s, step.c); }
    if step.Take? { assert SlotOk(s, step.slot); }
  }

  lemma StepFirst(s: System, step: Step, rest: seq<Step>, t: System)
    requires Enabled(s, step) && Runs(Next(s, step), rest, t)
    ensures Runs(s, [step] + rest, t)
  {
    assert ([step] + rest)[1..] == rest;
  }

  /**
    The order is needed. The landing's exchange and its completion are two
    separate moments, and a slot may be left, taken and offered anew between
    them: the late completion then ends the new caller's wait, and the slot goes
    back to the free ones with the peer still to write into it.
   */
  lemma LateCompletionFreesALiveSlot(s: System, c: nat) returns (steps: seq<Step>, t: System)
    requires Inv(s) && Enabled(s, Offer(c)) && Overtakes(s, Offer(c))
    ensures Runs(s, steps, t) && !t.rail.broken
    ensures PhaseOf(s, c).slot in t.rail.free && PhaseOf(s, c).slot in t.coming
  {
    var slot := PhaseOf(s, c).slot;
    var s1 := Next(s, Offer(c));
    var s2 := Next(s1, Wake(slot));
    var s3 := Next(s2, End(c));
    t := Next(s3, Release(c));
    StepFirst(s3, Release(c), [], t);
    StepFirst(s2, End(c), [Release(c)] + [], t);
    StepFirst(s1, Wake(slot), [End(c)] + ([Release(c)] + []), t);
    StepFirst(s, Offer(c), [Wake(slot)] + ([End(c)] + ([Release(c)] + [])), t);
    steps := [Offer(c)] + ([Wake(slot)] + ([End(c)] + ([Release(c)] + [])));
  }

  /** And such an offer is reachable: one caller leaves as its page lands, the next takes the slot. */
  lemma OvertakingIsReachable() returns (steps: seq<Step>, s: System)
    ensures Runs(INIT, steps, s) && Orderly(INIT, steps) && !s.rail.broken
    ensures Enabled(s, Offer(1)) && Overtakes(s, Offer(1))
  {
    var s1 := Next(INIT, Take(0, 0));
    var s2 := Next(s1, Offer(0));
    var s3 := Next(s2, Land(0));
    steps, s := OvertakesOnceLanded(s3, 0, 1);
    steps := InOrder(s2, Land(0), steps, s);
    steps := InOrder(s1, Offer(0), steps, s);
    steps := InOrder(INIT, Take(0, 0), steps, s);
  }

  /** A caller leaves the lowest slot after its page has landed there, and another takes it before the completion. */
  lemma OvertakesOnceLanded(s: System, c: nat, d: nat) returns (steps: seq<Step>, t: System)
    requires RailShaped(s.rail) && !s.rail.broken && c != d && PhaseOf(s, c) == Waiting(0) && PhaseOf(s, d).Out?
    requires s.rail.state[0] == Landed && 0 in s.waking
    ensures Runs(s, steps, t) && Orderly(s, steps) && !t.rail.broken && Enabled(t, Offer(d)) && Overtakes(t, Offer(d))
  {
    var s1 := Next(s, Leave(c));
    var s2 := Next(s1, Exchange(c));
    t := Next(s2, Take(d, 0));
    steps := InOrder(s2, Take(d, 0), [], t);
    steps := InOrder(s1, Exchange(c), steps, t);
    steps := InOrder(s, Leave(c), steps, t);
  }

  lemma InOrder(s: System, step: Step, rest: seq<Step>, t: System) returns (steps: seq<Step>)
    requires Enabled(s, step) && !Overtakes(s, step) && Orderly(Next(s, step), rest) && Runs(Next(s, step), rest, t)
    ensures steps == [step] + rest && Orderly(s, steps) && Runs(s, steps, t)
  {
    steps := [step] + rest;
    assert steps[1..] == rest;
  }

  // ----- Every wait ends -----

  /** A caller waits for a page that is coming, that has landed, or that is there. */
  predicate Promised(s: System, c: nat)
    requires RailShaped(s.rail)
  {
    PhaseOf(s, c).Waiting? ==>
      var slot := PhaseOf(s, c).slot;
      slot < SLOTS && (slot in s.coming || slot in s.waking || s.rail.done[slot])
  }

  lemma StepPromises(s: System, step: Step, c: nat)
    requires Inv(s) && Enabled(s, step) && Promised(s, c)
    ensures RailShaped(Next(s, step).rail) && Promised(Next(s, step), c)
  {
    assert CallerOk(s, c);
    if step.OfferFails? && step.c != c { assert !Holds(s, c, PhaseOf(s, step.c).slot); }
  }

  lemma {:induction false} RunPromises(s: System, steps: seq<Step>, t: System, c: nat)
    requires Inv(s) && Promised(s, c) && Runs(s, steps, t) && Orderly(s, steps) && !t.rail.broken
    ensures Inv(t) && Promised(t, c)
    decreases steps
  {
    if steps != [] {
      var next := Next(s, steps[0]);
      if s.rail.broken { BreakIsFinal(s, steps, t); }
      if next.rail.broken { BreakIsFinal(next, steps[1..], t); }
      StepKeeps(s, steps[0]);
      StepPromises(s, steps[0], c);
      RunPromises(next, steps[1..], t, c);
    }
  }

  /** What the peer and the completion handler do, and the end of a wait. */
  predicate Serves(step: Step) {
    step.Land? || step.Wake? || step.End?
  }

  ghost predicate CanBeServed(s: System, c: nat) {
    exists steps, t :: Runs(s, steps, t) && (forall i :: 0 <= i < |steps| ==> Serves(steps[i])) && PhaseOf(t, c).Ended?
  }

  lemma ServedAfter(s: System, step: Step, c: nat)
    requires Enabled(s, step) && Serves(step) && CanBeServed(Next(s, step), c)
    ensures CanBeServed(s, c)
  {
    var rest, t :| Runs(Next(s, step), rest, t) && (forall i :: 0 <= i < |rest| ==> Serves(rest[i])) && PhaseOf(t, c).Ended?;
    StepFirst(s, step, rest, t);
    assert forall i :: 0 <= i < |[step] + rest| ==> Serves(([step] + rest)[i]);
  }

  lemma ServedWhenDone(s: System, c: nat)
    requires Enabled(s, End(c))
    ensures CanBeServed(s, c)
  {
    assert Runs(Next(s, End(c)), [], Next(s, End(c))) && PhaseOf(Next(s, End(c)), c).Ended?;
    ServedAfter(s, End(c), c);
  }

  lemma ServedWhenLanded(s: System, c: nat)
    requires RailShaped(s.rail) && PhaseOf(s, c).Waiting? && PhaseOf(s, c).slot < SLOTS && PhaseOf(s, c).slot in s.waking
    ensures CanBeServed(s, c)
  {
    ServedWhenDone(Next(s, Wake(PhaseOf(s, c).slot)), c);
    ServedAfter(s, Wake(PhaseOf(s, c).slot), c);
  }

  /** Until the rail breaks, every waiting caller's page can still come, be completed and end the wait. */
  lemma WaitersCanBeServed(steps: seq<Step>, s: System, c: nat)
    requires Runs(INIT, steps, s) && Orderly(INIT, steps) && !s.rail.broken && PhaseOf(s, c).Waiting?
    ensures CanBeServed(s, c)
  {
    InitHolds();
    RunPromises(INIT, steps, s, c);
    assert CallerOk(s, c);
    var slot := PhaseOf(s, c).slot;
    if s.rail.done[slot] {
      ServedWhenDone(s, c);
    } else if slot in s.waking {
      ServedWhenLanded(s, c);
    } else {
      ServedWhenLanded(Next(s, Land(slot)), c);
      ServedAfter(s, Land(slot), c);
    }
  }

  /** Callers hold different slots, broken rail or not. */
  ghost predicate HeldApart(s: System) {
    && RailShaped(s.rail) && (!s.rail.broken ==> Inv(s))
    && (forall c: nat :: !PhaseOf(s, c).Out? ==> PhaseOf(s, c).slot < SLOTS)
    && (forall c: nat, d: nat :: c != d && !PhaseOf(s, c).Out? ==> !Holds(s, d, PhaseOf(s, c).slot))
  }

  lemma StepApart(s: System, step: Step)
    requires HeldApart(s) && Enabled(s, step) && !Overtakes(s, step)
    ensures HeldApart(Next(s, step))
  {
    var t := Next(s, step);
    if !t.rail.broken {
      StepKeeps(s, step);
      forall c: nat | !PhaseOf(t, c).Out? ensures PhaseOf(t, c).slot < SLOTS { assert CallerOk(t, c); }
    } else {
      forall c: nat | !PhaseOf(t, c).Out? ensures !PhaseOf(s, c).Out? && PhaseOf(t, c).slot == PhaseOf(s, c).slot {}
      forall c: nat, d: nat | c != d && !PhaseOf(t, c).Out? ensures !Holds(t, d, PhaseOf(t, c).slot) {
        assert !Holds(s, d, PhaseOf(s, c).slot);
      }
    }
  }

  lemma {:induction false} RunApart(s: System, steps: seq<Step>, t: System)
    requires HeldApart(s) && Runs(s, steps, t) && Orderly(s, steps)
    ensures HeldApart(t)
    decreases steps
  {
    if steps != [] {
      StepApart(s, steps[0]);
      RunApart(Next(s, steps[0]), steps[1..], t);
    }
  }

  ghost predicate AllDone(s: System) {
    && HeldApart(s) && s.rail.broken
    && forall c: nat :: PhaseOf(s, c).Waiting? ==> s.rail.done[PhaseOf(s, c).slot]
  }

  lemma StepDone(s: System, step: Step)
    requires AllDone(s) && Enabled(s, step)
    ensures AllDone(Next(s, step))
  {
    StepApart(s, step);
    var t := Next(s, step);
    forall c: nat | PhaseOf(t, c).Waiting? ensures t.rail.done[PhaseOf(t, c).slot] {
      assert PhaseOf(s, c) == PhaseOf(t, c);
      if step.OfferFails? { assert !Holds(s, c, PhaseOf(s, step.c).slot); }
    }
  }

  lemma {:induction false} RunDone(s: System, steps: seq<Step>, t: System)
    requires AllDone(s) && Runs(s, steps, t)
    ensures AllDone(t)
    decreases steps
  {
    if steps != [] {
      StepDone(s, steps[0]);
      RunDone(Next(s, steps[0]), steps[1..], t);
    }
  }

  /** From a break on nobody has to wait: whoever was waiting, or failed to offer since, may end at once. */
  lemma BreakEndsEveryWait(steps: seq<Step>, s: System, later: seq<Step>, t: System, c: nat)
    requires Runs(INIT, steps, s) && Orderly(INIT, steps) && Enabled(s, Break)
    requires Runs(Next(s, Break), later, t) && PhaseOf(t, c).Waiting?
    ensures Enabled(t, End(c))
  {
    InitHolds();
    assert forall c: nat :: CallerOk(INIT, c);
    RunApart(INIT, steps, s);
    StepApart(s, Break);
    RunDone(Next(s, Break), later, t);
  }
}
