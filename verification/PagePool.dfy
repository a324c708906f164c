/**
  A fixed pool of pages lent out one at a time. An acquire that finds none parks;
  each release wakes one of the parked.
 */
module PagePools {

  /** `lent` is out with someone; `ready` are woken coroutines that have not run yet. */
  datatype Pool = Pool(count: nat, free: seq<nat>, lent: set<nat>, waiters: seq<nat>, ready: set<nat>)

  predicate Distinct(s: seq<nat>) {
    forall i, j :: 0 <= i < j < |s| ==> s[i] != s[j]
  }

  /** A page if there is one, else a place in the queue. */
  function Tried(p: Pool, h: nat): Pool {
    if p.free == [] then p.(waiters := p.waiters + [h])
    else p.(free := p.free[..|p.free| - 1], lent := p.lent + {p.free[|p.free| - 1]})
  }

  function Released(p: Pool, index: nat): Pool {
    var q := p.(free := p.free + [index], lent := p.lent - {index});
    if p.waiters == [] then q else q.(waiters := p.waiters[1..], ready := p.ready + {p.waiters[0]})
  }

  function Without(s: seq<nat>, h: nat): (r: seq<nat>)
    ensures forall x :: x in r <==> x in s && x != h
    ensures |r| <= |s|
  {
    if s == [] then [] else if s[0] == h then Without(s[1..], h) else [s[0]] + Without(s[1..], h)
  }

  lemma {:induction false} WithoutKeepsDistinct(s: seq<nat>, h: nat)
    requires Distinct(s)
    ensures Distinct(Without(s, h))
  {
    if s != [] {
      WithoutKeepsDistinct(s[1..], h);
      var rest := Without(s[1..], h);
      if s[0] != h {
        forall j | 0 <= j < |rest| ensures rest[j] != s[0] {
          assert rest[j] in rest && rest[j] in s[1..];
        }
      }
    }
  }

  class PagePool {
    const pageCount: nat
    var freeList: seq<nat>
    var waiters: seq<nat>
    ghost var lent: set<nat>
    ghost var ready: set<nat>

    ghost function View(): Pool
      reads this
    {
      Pool(pageCount, freeList, lent, waiters, ready)
    }

    /** Every page is free or lent, never both, and no parked caller is forgotten beside a free page. */
    ghost predicate Valid()
      reads this
    {
      Inv(View())
    }

    constructor (count: nat)
      ensures Valid() && View() == Fresh(count)
    {
      pageCount := count;
      waiters, lent, ready := [], {}, {};
      var list: seq<nat> := [];
      var i := count;
      while i > 0
        invariant 0 <= i <= count && |list| == count - i && forall j :: 0 <= j < |list| ==> list[j] == count - 1 - j
      {
        list := list + [i - 1];
        i := i - 1;
      }
      freeList := list;
      new;
      assert freeList == Fresh(count).free;
      FreshHolds(count);
    }

    /** A page index that nobody else holds, or -1 when the caller has parked behind all others. */
    method Acquire(h: nat) returns (index: int)
      requires Valid() && h !in waiters && h !in ready
      modifies this`freeList, this`waiters, this`lent
      ensures Valid() && View() == Tried(old(View()), h)
      ensures index >= 0 ==> index < pageCount && index !in old(lent) && lent == old(lent) + {index as nat} && waiters == old(waiters)
      ensures index < 0 <==> old(freeList) == []
      ensures index < 0 ==> waiters == old(waiters) + [h] && lent == old(lent)
    {
      TryKeepsPartition(View(), h);
      index := Try(h);
    }

    method Try(h: nat) returns (index: int)
      modifies this`freeList, this`waiters, this`lent
      ensures View() == Tried(old(View()), h)
      ensures index == if old(freeList) == [] then -1 else old(freeList)[|old(freeList)| - 1]
    {
      if freeList == [] {
        waiters := waiters + [h];
        return -1;
      }
      index := freeList[|freeList| - 1];
      freeList := freeList[..|freeList| - 1];
      lent := lent + {index};
    }

    /** A woken caller tries again; a newcomer may have been quicker. */
    method Resume(h: nat) returns (index: int)
      requires Valid() && h in ready
      modifies this`freeList, this`waiters, this`lent, this`ready
      ensures Valid() && View() == Next(old(View()), Step.Resume(h))
      ensures index >= 0 ==> index < pageCount && index !in old(lent) && lent == old(lent) + {index as nat}
      ensures index < 0 <==> old(freeList) == []
    {
      StepKeeps(View(), Step.Resume(h));
      ready := ready - {h};
      index := Try(h);
    }

    /** The page is free again, and the longest waiting caller, if any, is on its way to it. */
    method ReleaseIndex(index: nat)
      requires Valid() && index in lent
      modifies this`freeList, this`waiters, this`lent, this`ready
      ensures Valid() && View() == Released(old(View()), index)
      ensures index in freeList && lent == old(lent) - {index}
      ensures old(waiters) != [] ==> old(waiters)[0] in ready && waiters == old(waiters)[1..]
    {
      StepKeeps(View(), Release(index));
      freeList := freeList + [index];
      lent := lent - {index};
      if waiters != [] {
        ready := ready + {waiters[0]};
        waiters := waiters[1..];
      }
    }
  }

  function Fresh(count: nat): Pool {
    Pool(count, seq(count, j requires 0 <= j < count => count - 1 - j), {}, [], {})
  }

  // ----- Every interleaving -----

  datatype Step =
    | Acquire(h: nat)
    | Release(index: nat)
    | Resume(h: nat)
    | AbandonParked(h: nat)
    | AbandonWoken(h: nat)

  predicate Enabled(p: Pool, step: Step) {
    match step
    case Acquire(h) => h !in p.waiters && h !in p.ready
    case Release(index) => index in p.lent
    case Resume(h) => h in p.ready
    case AbandonParked(h) => h in p.waiters
    case AbandonWoken(h) => h in p.ready
  }

  function Next(p: Pool, step: Step): Pool
    requires Enabled(p, step)
  {
    match step
    case Acquire(h) => Tried(p, h)
    case Release(index) => Released(p, index)
    case Resume(h) => Tried(p.(ready := p.ready - {h}), h)
    case AbandonParked(h) => p.(waiters := Without(p.waiters, h))
    case AbandonWoken(h) => p.(ready := p.ready - {h})
  }

  /** Free and lent pages are the whole pool, each page in one place; no coroutine queues twice. */
  ghost predicate Partitioned(p: Pool) {
    && Distinct(p.free) && Distinct(p.waiters)
    && (forall i: nat :: i < p.count <==> (i in p.free) != (i in p.lent))
    && (forall i :: i in p.free ==> i !in p.lent)
    && (forall h :: h in p.ready ==> h !in p.waiters)
  }

  /** Whenever someone is parked, as many are on their way as there are pages to take. */
  predicate NoLostWakeup(p: Pool) {
    p.waiters != [] ==> |p.free| <= |p.ready|
  }

  ghost predicate Inv(p: Pool) {
    Partitioned(p) && NoLostWakeup(p)
  }

  lemma FreshHolds(count: nat)
    ensures Inv(Fresh(count))
  {
    forall i: nat ensures i < count <==> i in Fresh(count).free {
      if i < count { assert Fresh(count).free[count - 1 - i] == i; }
    }
  }

  lemma TryKeepsPartition(p: Pool, h: nat)
    requires Partitioned(p) && h !in p.waiters && h !in p.ready
    ensures Partitioned(Tried(p, h))
  {
    if p.free != [] {
      var rest, last := p.free[..|p.free| - 1], p.free[|p.free| - 1];
      assert p.free == rest + [last];
      assert last !in rest;
    }
  }

  lemma ReleaseKeepsPartition(p: Pool, index: nat)
    requires Partitioned(p) && index in p.lent
    ensures Partitioned(Released(p, index))
  {
    assert index !in p.free;
    if p.waiters != [] { assert p.waiters == [p.waiters[0]] + p.waiters[1..]; }
  }

  lemma StepKeeps(p: Pool, step: Step)
    requires Inv(p) && Enabled(p, step) && !step.AbandonWoken?
    ensures Inv(Next(p, step))
  {
    match step
    case Acquire(h) => TryKeepsPartition(p, h);
    case Release(index) => ReleaseKeepsPartition(p, index);
    case Resume(h) => TryKeepsPartition(p.(ready := p.ready - {h}), h);
    case AbandonParked(h) => WithoutKeepsDistinct(p.waiters, h);
  }

  ghost predicate Runs(p: Pool, steps: seq<Step>, q: Pool)
    decreases steps
  {
    if steps == [] then q == p
    else Enabled(p, steps[0]) && Runs(Next(p, steps[0]), steps[1..], q)
  }

  /** In every run that abandons no woken coroutine, pages are conserved and no wakeup is lost. */
  lemma {:induction false} RunKeeps(p: Pool, steps: seq<Step>, q: Pool)
    requires Inv(p) && Runs(p, steps, q) && forall i :: 0 <= i < |steps| ==> !steps[i].AbandonWoken?
    ensures Inv(q) && q.count == p.count
    decreases steps
  {
    if steps != [] {
      StepKeeps(p, steps[0]);
      RunKeeps(Next(p, steps[0]), steps[1..], q);
    }
  }

  /** So with a page free and someone parked, some coroutine is about to run and take one. */
  lemma FreePageIsTaken(count: nat, steps: seq<Step>, q: Pool)
    requires Runs(Fresh(count), steps, q) && forall i :: 0 <= i < |steps| ==> !steps[i].AbandonWoken?
    requires q.free != [] && q.waiters != []
    ensures exists h :: h in q.ready && Enabled(q, Resume(h)) && |Next(q, Resume(h)).free| < |q.free|
  {
    FreshHolds(count);
    RunKeeps(Fresh(count), steps, q);
    assert q.ready != {};
    var h :| h in q.ready;
    assert |Next(q, Resume(h)).free| < |q.free|;
  }

  // ----- Abandoning a coroutine that was woken -----

  /** Steps that bring no page back and no newcomer, and leave `w` where it is. */
  predicate Quietly(steps: seq<Step>, w: nat) {
    forall i :: 0 <= i < |steps| ==> !steps[i].Release? && !steps[i].Acquire? && steps[i] != AbandonParked(w)
  }

  /** Whatever is still going to happen by itself, `w` stays parked beside a free page. */
  ghost predicate Stranded(p: Pool, w: nat) {
    forall steps, q | Runs(p, steps, q) && Quietly(steps, w) :: w in q.waiters && q.free != []
  }

  lemma {:induction false} FewerWokenStrand(p: Pool, w: nat, steps: seq<Step>, q: Pool)
    requires |p.free| > |p.ready| && w in p.waiters && Runs(p, steps, q) && Quietly(steps, w)
    ensures w in q.waiters && q.free != []
    decreases steps
  {
    if steps != [] {
      var next := Next(p, steps[0]);
      assert |next.free| > |next.ready| && w in next.waiters;
      FewerWokenStrand(next, w, steps[1..], q);
    }
  }

  /** The woken ones, run one after another, take every free page. */
  lemma {:induction false} EnoughWokenEmpty(p: Pool, w: nat) returns (steps: seq<Step>, q: Pool)
    requires |p.free| <= |p.ready|
    ensures Runs(p, steps, q) && Quietly(steps, w) && q.free == []
    decreases |p.free|
  {
    if p.free == [] {
      steps, q := [], p;
    } else {
      assert p.ready != {};
      var h :| h in p.ready;
      var next := Next(p, Resume(h));
      var rest;
      rest, q := EnoughWokenEmpty(next, w);
      steps := [Resume(h)] + rest;
      assert steps[1..] == rest;
    }
  }

  /**
    Dropping a coroutine that was woken but has not run strands every parked one
    exactly when there were no more wakeups on the way than free pages.
   */
  lemma AbandonStrandsExactly(p: Pool, h: nat, w: nat)
    requires Inv(p) && Enabled(p, AbandonWoken(h)) && w in p.waiters
    ensures Stranded(Next(p, AbandonWoken(h)), w) <==> |p.free| >= |p.ready|
  {
    var q := Next(p, AbandonWoken(h));
    if |p.free| >= |p.ready| {
      forall steps, t | Runs(q, steps, t) && Quietly(steps, w) ensures w in t.waiters && t.free != [] {
        FewerWokenStrand(q, w, steps, t);
      }
    } else {
      var steps, t := EnoughWokenEmpty(q, w);
      assert Runs(q, steps, t) && Quietly(steps, w);
    }
  }

  /** It happens with one page and three callers. */
  lemma StrandingIsReachable() returns (steps: seq<Step>, p: Pool)
    ensures Runs(Fresh(1), steps, p) && Stranded(p, 2) && p.ready == {}
    ensures steps == [Acquire(0), Acquire(1), Acquire(2), Release(0), AbandonWoken(1)]
  {
    var p1 := Next(Fresh(1), Acquire(0));
    var p2 := Next(p1, Acquire(1));
    var p3 := Next(p2, Acquire(2));
    var p4 := Next(p3, Release(0));
    p := Next(p4, AbandonWoken(1));
    assert Runs(p4, [AbandonWoken(1)], p);
    assert Runs(p3, [Release(0), AbandonWoken(1)], p) by { assert [Release(0), AbandonWoken(1)][1..] == [AbandonWoken(1)]; }
    assert Runs(p2, [Acquire(2), Release(0), AbandonWoken(1)], p) by {
      assert [Acquire(2), Release(0), AbandonWoken(1)][1..] == [Release(0), AbandonWoken(1)];
    }
    assert Runs(p1, [Acquire(1), Acquire(2), Release(0), AbandonWoken(1)], p) by {
      assert [Acquire(1), Acquire(2), Release(0), AbandonWoken(1)][1..] == [Acquire(2), Release(0), AbandonWoken(1)];
    }
    steps := [Acquire(0), Acquire(1), Acquire(2), Release(0), AbandonWoken(1)];
    assert steps[1..] == [Acquire(1), Acquire(2), Release(0), AbandonWoken(1)];
    forall more, q | Runs(p, more, q) && Quietly(more, 2) ensures 2 in q.waiters && q.free != [] {
      FewerWokenStrand(p, 2, more, q);
    }
  }
}
