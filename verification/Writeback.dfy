/**
  Handing dirty folios back to the server: runs of neighbouring folios gathered
  into one write, sent from where they lie while they are few and from a staging
  buffer beyond that. Work queued is done later, in any order.
 */
module Writeback {
  import opened Bytes

  const PAGE_SIZE: nat := 0x10_0000
  const MAX_SEND_FOLIOS: nat := 8
  const ROOM: nat := 256

  datatype Folio = Folio(pos: nat, data: seq<byte>)

  /** A write the server took. */
  datatype Write = Write(offset: nat, data: seq<byte>)

  /** How a folio's writeback ended. */
  datatype Fate = Whole | PastEnd | Failed | Deferred

  datatype Flush = Flush(offset: nat, len: nat, folios: seq<nat>, staged: bool, buf: seq<byte>)

  /** What comes of one piece of a large folio. */
  datatype Reply = Taken | Interrupted | Refused

  /**
    What the world decides: whether there is memory for a flush begun by a folio, for
    the staging buffer a folio makes necessary and for a large folio's pieces; whether
    the process is left alive while it waits to queue a flush; and whether the write of a
    flush, or of a piece of a large folio, is taken.
   */
  datatype World = World(
    begun: nat -> bool, staged: nat -> bool, buffered: nat -> bool, spared: nat -> bool,
    taken: nat -> bool, piece: (nat, nat) -> Reply)

  /** Memory is always there, and the process is neither killed nor interrupted. */
  ghost predicate Grants(w: World) {
    && (forall i: nat :: w.begun(i) && w.staged(i) && w.buffered(i) && w.spared(i))
    && forall i: nat, at: nat :: !w.piece(i, at).Interrupted?
  }

  /** Every write is taken. */
  ghost predicate Takes(w: World) {
    (forall id: nat :: w.taken(id)) && forall i: nat, at: nat :: !w.piece(i, at).Refused?
  }

  predicate Holds(w: Write, x: nat, b: byte) {
    w.offset <= x < w.offset + |w.data| && w.data[x - w.offset] == b
  }

  predicate ByteSent(sends: seq<Write>, x: nat, b: byte) {
    exists k :: 0 <= k < |sends| && Holds(sends[k], x, b)
  }

  // ----- Gathering -----

  /** The folios of a file, and the file's size when each came up for writing. */
  datatype Cache = Cache(folios: seq<Folio>, isize: nat -> nat) {
    /** No two folios overlap, and none is empty. */
    predicate Disjoint() {
      && (forall i :: 0 <= i < |folios| ==> folios[i].data != [])
      && (forall i, j :: 0 <= i < |folios| && 0 <= j < |folios| && i != j ==> Apart(folios[i], folios[j]))
    }

    predicate Has(i: nat) {
      i < |folios|
    }

    /** Byte `j` of the folio lay within the file when the folio came up. */
    predicate Inside(i: nat, j: nat)
      requires Has(i)
    {
      j < |folios[i].data| && folios[i].pos + j < isize(i)
    }

    /** The part of a folio that lies within the file. */
    function Bytes(i: nat): (n: nat)
      requires Has(i)
      ensures n <= |folios[i].data|
    {
      if folios[i].pos >= isize(i) then 0
      else Min(|folios[i].data|, isize(i) - folios[i].pos)
    }

    function Part(i: nat): seq<byte>
      requires Has(i)
    {
      folios[i].data[..Bytes(i)]
    }

    /** The folios follow one another from `offset` on, each but the last whole. */
    predicate Gathered(fs: seq<nat>, offset: nat, len: nat) {
      if fs == [] then len == 0
      else
        var front, last := fs[..|fs| - 1], fs[|fs| - 1];
        && Has(last) && 0 < Bytes(last) && offset <= folios[last].pos && folios[last].pos + Bytes(last) == offset + len
        && Gathered(front, offset, folios[last].pos - offset)
        && (front != [] ==> Bytes(front[|front| - 1]) == |folios[front[|front| - 1]].data|)
    }

    /** Their bytes in order. */
    function Payload(fs: seq<nat>): seq<byte>
      requires forall i :: i in fs ==> Has(i)
    {
      if fs == [] then [] else Payload(fs[..|fs| - 1]) + Part(fs[|fs| - 1])
    }

    lemma {:induction false} GatheredHas(fs: seq<nat>, offset: nat, len: nat)
      requires Gathered(fs, offset, len)
      ensures forall i :: i in fs ==> Has(i)
      ensures |Payload(fs)| == len
    {
      if fs != [] {
        var front, last := fs[..|fs| - 1], fs[|fs| - 1];
        GatheredHas(front, offset, folios[last].pos - offset);
        assert fs == front + [last];
      }
    }

    /** A folio that starts where a run ends extends it, and shows that the run's last folio was whole. */
    lemma GatheredAppend(fs: seq<nat>, offset: nat, len: nat, i: nat)
      requires Disjoint() && Gathered(fs, offset, len) && Has(i) && i !in fs && 0 < Bytes(i) && folios[i].pos == offset + len
      ensures Gathered(fs + [i], offset, len + Bytes(i))
    {
      var more := fs + [i];
      assert more[..|fs|] == fs;
      if fs != [] {
        var last := fs[|fs| - 1];
        assert last in fs;
        assert Apart(folios[last], folios[i]);
      }
    }

    /** Where the k-th folio of a run lies in it. */
    lemma {:induction false} GatheredAt(fs: seq<nat>, offset: nat, len: nat, k: nat)
      requires Gathered(fs, offset, len) && k < |fs|
      ensures Has(fs[k]) && offset <= folios[fs[k]].pos && folios[fs[k]].pos + Bytes(fs[k]) <= offset + len
      ensures k < |fs| - 1 ==> Bytes(fs[k]) == |folios[fs[k]].data|
      ensures k == |fs| - 1 ==> folios[fs[k]].pos + Bytes(fs[k]) == offset + len
      ensures Gathered(fs[..k], offset, folios[fs[k]].pos - offset)
    {
      var front, last := fs[..|fs| - 1], fs[|fs| - 1];
      if k < |fs| - 1 {
        GatheredAt(front, offset, folios[last].pos - offset, k);
        assert front[..k] == fs[..k];
      }
    }

    /** Each folio's bytes stand at its own offset in the payload. */
    lemma {:induction false} PayloadAt(fs: seq<nat>, offset: nat, len: nat, i: nat, j: nat)
      requires Gathered(fs, offset, len) && (forall x :: x in fs ==> Has(x)) && i in fs && j < Bytes(i)
      ensures Holds(Write(offset, Payload(fs)), folios[i].pos + j, folios[i].data[j])
    {
      var front, last := fs[..|fs| - 1], fs[|fs| - 1];
      GatheredHas(fs, offset, len);
      GatheredHas(front, offset, folios[last].pos - offset);
      if i != last {
        assert fs == front + [last];
        PayloadAt(front, offset, folios[last].pos - offset, i, j);
      }
    }

    /** Every byte of the payload belongs to a folio at that offset. */
    ghost predicate Belongs(w: Write) {
      forall k: nat :: k < |w.data| ==> Owned(w, k)
    }

    ghost predicate Owned(w: Write, k: nat)
      requires k < |w.data|
    {
      SomeoneOwns(w.offset + k, w.data[k])
    }

    ghost predicate SomeoneOwns(x: nat, b: byte) {
      exists i: nat :: OwnsByte(i, x, b)
    }

    predicate OwnsByte(i: nat, x: nat, b: byte) {
      Has(i) && folios[i].pos <= x && Inside(i, x - folios[i].pos) && folios[i].data[x - folios[i].pos] == b
    }

    lemma {:induction false} PayloadBelongs(fs: seq<nat>, offset: nat, len: nat)
      requires Gathered(fs, offset, len) && forall x :: x in fs ==> Has(x)
      ensures Belongs(Write(offset, Payload(fs)))
    {
      if fs != [] {
        var front, last := fs[..|fs| - 1], fs[|fs| - 1];
        GatheredHas(fs, offset, len);
        GatheredHas(front, offset, folios[last].pos - offset);
        PayloadBelongs(front, offset, folios[last].pos - offset);
        var w, v := Write(offset, Payload(fs)), Write(offset, Payload(front));
        forall k: nat | k < |w.data| ensures Owned(w, k) {
          if k < |v.data| {
            assert w.data[k] == v.data[k];
            assert Owned(v, k);
          } else {
            assert OwnsByte(last, offset + k, w.data[k]);
          }
        }
      }
    }

    /** Copies folios out in order, each as far as the run's length reaches: what staging and sending both do. */
    method Scatter(fs: seq<nat>, len: nat, ghost offset: nat) returns (out: seq<byte>)
      requires Gathered(fs, offset, len) && forall i :: i in fs ==> Has(i)
      ensures out == Payload(fs)
    {
      out := [];
      var seen := 0;
      if fs != [] { GatheredAt(fs, offset, len, 0); }
      while seen < |fs|
        invariant 0 <= seen <= |fs| && out == Payload(fs[..seen])
        invariant seen < |fs| ==> Has(fs[seen]) && offset + |out| == folios[fs[seen]].pos
      {
        GatheredAt(fs, offset, len, seen);
        GatheredHas(fs[..seen], offset, folios[fs[seen]].pos - offset);
        var part := Min(len - |out|, |folios[fs[seen]].data|);
        assert part == Bytes(fs[seen]);
        assert fs[..seen + 1][..seen] == fs[..seen];
        out := out + folios[fs[seen]].data[..part];
        seen := seen + 1;
        if seen < |fs| {
          GatheredAt(fs, offset, len, seen);
          GatheredHas(fs[..seen], offset, folios[fs[seen]].pos - offset);
        }
      }
      assert fs[..seen] == fs;
    }
  }

  predicate Apart(a: Folio, b: Folio) {
    a.pos + |a.data| <= b.pos || b.pos + |b.data| <= a.pos
  }

  predicate Distinct(fs: seq<nat>) {
    forall a, b :: 0 <= a < b < |fs| ==> fs[a] != fs[b]
  }

  function Members(fs: seq<nat>): set<nat> {
    set i | i in fs
  }

  // ----- What holds throughout -----

  /** Every byte of the folio within the file reached the server, at its own offset. */
  ghost predicate Covered(c: Cache, sends: seq<Write>, i: nat) {
    c.Has(i) && forall j: nat :: c.Inside(i, j) ==> Reached(c, sends, i, j)
  }

  ghost predicate SentUpTo(c: Cache, sends: seq<Write>, i: nat, n: nat)
    requires c.Has(i) && n <= |c.folios[i].data|
  {
    forall j: nat :: j < n ==> Reached(c, sends, i, j)
  }

  predicate Reached(c: Cache, sends: seq<Write>, i: nat, j: nat)
    requires c.Has(i) && j < |c.folios[i].data|
  {
    ByteSent(sends, c.folios[i].pos + j, c.folios[i].data[j])
  }

  /** A fate is true: nothing dirty was dropped in silence. */
  ghost predicate FateOk(c: Cache, sends: seq<Write>, error: bool, dirty: set<nat>, i: nat, f: Fate) {
    c.Has(i) && match f
      case Whole => Covered(c, sends, i)
      case PastEnd => c.folios[i].pos >= c.isize(i)
      case Failed => error
      case Deferred => i in dirty
  }

  ghost predicate FatesOk(c: Cache, fate: map<nat, Fate>, n: nat, sends: seq<Write>, error: bool, dirty: set<nat>) {
    forall i :: i in fate ==> i < n && FateOk(c, sends, error, dirty, i, fate[i])
  }

  /** A fate the world leaves room for: nothing is deferred while it grants, and nothing lost while it takes. */
  ghost predicate Allowed(w: World, f: Fate) {
    (Grants(w) ==> !f.Deferred?) && (Takes(w) ==> !f.Failed?)
  }

  ghost predicate AllAllowed(w: World, fate: map<nat, Fate>) {
    forall i :: i in fate ==> Allowed(w, fate[i])
  }

  /** No write outgrows a page, and nothing was written that is not some folio's byte at its own offset within the file. */
  ghost predicate SendsOk(c: Cache, sends: seq<Write>) {
    forall k :: 0 <= k < |sends| ==> c.Belongs(sends[k]) && |sends[k].data| <= PAGE_SIZE
  }

  ghost predicate FlushOk(c: Cache, writing: set<nat>, owner: map<nat, nat>, id: nat, f: Flush, open: set<nat>) {
    Shaped(c, f) && Owns(writing, owner, id, f.folios, open)
  }

  /** A run that fits a page, staged in order once it has outgrown one send. */
  ghost predicate Shaped(c: Cache, f: Flush) {
    && c.Gathered(f.folios, f.offset, f.len) && f.len <= PAGE_SIZE && |f.folios| <= ROOM
    && (forall i :: i in f.folios ==> c.Has(i))
    && (|f.folios| > MAX_SEND_FOLIOS ==> f.staged && f.buf == c.Payload(f.folios))
  }

  ghost predicate Owns(writing: set<nat>, owner: map<nat, nat>, id: nat, fs: seq<nat>, open: set<nat>) {
    Distinct(fs) && forall i :: i in fs ==> i in writing && i !in open && i in owner && owner[i] == id
  }

  ghost predicate FlushesOk(c: Cache, flushes: map<nat, Flush>, nextId: nat, writing: set<nat>, owner: map<nat, nat>, open: set<nat>) {
    forall id :: id in flushes ==> id < nextId && FlushOk(c, writing, owner, id, flushes[id], open)
  }

  ghost predicate InFlush(owner: map<nat, nat>, flushes: map<nat, Flush>, i: nat) {
    i in owner && owner[i] in flushes && i in flushes[owner[i]].folios
  }

  ghost predicate WritingOk(writing: set<nat>, fate: map<nat, Fate>, n: nat, open: set<nat>, owner: map<nat, nat>, flushes: map<nat, Flush>) {
    && (forall i :: i in writing ==> i < n && i !in fate && (i in open || InFlush(owner, flushes, i)))
    && (forall i: nat :: i < n ==> i in writing || i in fate)
  }

  lemma EndFlushes(c: Cache, flushes: map<nat, Flush>, nextId: nat, writing: set<nat>, owner: map<nat, nat>, open: set<nat>, i: nat)
    requires FlushesOk(c, flushes, nextId, writing, owner, open) && i in open
    ensures FlushesOk(c, flushes, nextId, writing - {i}, owner, open - {i})
  {
    forall id | id in flushes ensures FlushOk(c, writing - {i}, owner, id, flushes[id], open - {i}) {
      assert FlushOk(c, writing, owner, id, flushes[id], open);
    }
  }

  lemma EndWriting(
    writing: set<nat>, fate: map<nat, Fate>, n: nat, open: set<nat>, owner: map<nat, nat>, flushes: map<nat, Flush>, i: nat, f: Fate)
    requires WritingOk(writing, fate, n, open, owner, flushes) && i in open
    ensures WritingOk(writing - {i}, fate[i := f], n, open - {i}, owner, flushes)
  {
  }

  lemma MoreSent(c: Cache, fate: map<nat, Fate>, n: nat, sends: seq<Write>, error: bool, dirty: set<nat>, w: Write)
    requires FatesOk(c, fate, n, sends, error, dirty)
    ensures FatesOk(c, fate, n, sends + [w], error, dirty)
  {
    forall i | i in fate && fate[i].Whole? ensures Covered(c, sends + [w], i) {
      assert FateOk(c, sends, error, dirty, i, fate[i]);
      forall j: nat | c.Inside(i, j) ensures Reached(c, sends + [w], i, j) {
        assert Reached(c, sends, i, j);
        StillSent(sends, w, c.folios[i].pos + j, c.folios[i].data[j]);
      }
    }
  }

  lemma RetireFlushes(c: Cache, flushes: map<nat, Flush>, nextId: nat, writing: set<nat>, owner: map<nat, nat>, open: set<nat>, id: nat)
    requires FlushesOk(c, flushes, nextId, writing, owner, open) && id in flushes
    ensures FlushesOk(c, flushes - {id}, nextId, writing, owner, open + Members(flushes[id].folios))
    ensures Members(flushes[id].folios) <= writing
  {
    assert FlushOk(c, writing, owner, id, flushes[id], open);
    forall other | other in flushes && other != id
      ensures FlushOk(c, writing, owner, other, flushes[other], open + Members(flushes[id].folios))
    {
      assert FlushOk(c, writing, owner, other, flushes[other], open);
    }
  }

  lemma RetireWriting(
    writing: set<nat>, fate: map<nat, Fate>, n: nat, open: set<nat>, owner: map<nat, nat>, flushes: map<nat, Flush>, id: nat)
    requires WritingOk(writing, fate, n, open, owner, flushes) && id in flushes
    ensures WritingOk(writing, fate, n, open + Members(flushes[id].folios), owner, flushes - {id})
  {
    forall i | i in writing && i !in open && i !in Members(flushes[id].folios) ensures InFlush(owner, flushes - {id}, i) {
      assert InFlush(owner, flushes, i);
    }
  }

  lemma PutFlushes(
    c: Cache, flushes: map<nat, Flush>, nextId: nat, writing: set<nat>, owner: map<nat, nat>, id: nat, more: Flush, i: nat)
    requires FlushesOk(c, flushes, nextId, writing, owner, {i}) && id in flushes && i in writing
    requires more.folios == flushes[id].folios + [i] && Shaped(c, more)
    ensures FlushesOk(c, flushes[id := more], nextId, writing, owner[i := id], {})
  {
    forall other | other in flushes && other != id ensures FlushOk(c, writing, owner[i := id], other, flushes[other], {}) {
      assert FlushOk(c, writing, owner, other, flushes[other], {i});
    }
    assert FlushOk(c, writing, owner, id, flushes[id], {i});
    PutOne(writing, owner, id, flushes[id].folios, i);
  }

  lemma PutOne(writing: set<nat>, owner: map<nat, nat>, id: nat, fs: seq<nat>, i: nat)
    requires Owns(writing, owner, id, fs, {i}) && i in writing
    ensures Owns(writing, owner[i := id], id, fs + [i], {})
  {
  }

  lemma PutWriting(
    writing: set<nat>, fate: map<nat, Fate>, n: nat, owner: map<nat, nat>, flushes: map<nat, Flush>, id: nat, more: Flush, i: nat)
    requires WritingOk(writing, fate, n, {i}, owner, flushes) && id in flushes && more.folios == flushes[id].folios + [i]
    ensures WritingOk(writing, fate, n, {}, owner[i := id], flushes[id := more])
  {
    assert i in more.folios;
    forall x | x in writing ensures InFlush(owner[i := id], flushes[id := more], x) {
      if x != i { assert InFlush(owner, flushes, x); }
    }
  }

  lemma NewWriting(
    writing: set<nat>, fate: map<nat, Fate>, n: nat, open: set<nat>, owner: map<nat, nat>, flushes: map<nat, Flush>, id: nat, f: Flush)
    requires WritingOk(writing, fate, n, open, owner, flushes) && id !in flushes
    ensures WritingOk(writing, fate, n, open, owner, flushes[id := f])
  {
    forall i | i in writing && i !in open ensures InFlush(owner, flushes[id := f], i) {
      assert InFlush(owner, flushes, i);
    }
  }

  // ----- Writeback -----

  class Writeback {
    const cache: Cache
    const world: World
    var writing: set<nat>
    var dirty: set<nat>
    var mappingError: bool
    var refusal: bool
    var flushes: map<nat, Flush>
    var gathering: int
    var nextId: nat
    var sends: seq<Write>
    ghost var owner: map<nat, nat>
    ghost var fate: map<nat, Fate>

    constructor (cache: Cache, world: World, dirty: set<nat>)
      requires cache.Disjoint()
      ensures this.cache == cache && this.world == world && this.dirty == dirty && !mappingError
      ensures Valid(0, {}) && flushes == map[] && gathering == -1
    {
      this.cache, this.world, this.dirty, writing, mappingError, refusal := cache, world, dirty, {}, false, false;
      flushes, gathering, nextId, sends, owner, fate := map[], -1, 0, [], map[], map[];
    }

    /** A folio under writeback belongs to one flush or is open, and no ended one does. */
    ghost predicate Books(n: nat, open: set<nat>)
      reads this`writing, this`gathering, this`flushes, this`nextId, this`owner, this`fate
    {
      && open <= writing && (gathering == -1 || (gathering >= 0 && gathering as nat in flushes))
      && FlushesOk(cache, flushes, nextId, writing, owner, open)
      && WritingOk(writing, fate, n, open, owner, flushes)
    }

    /** Every fate so far is true and allowed, and nothing foreign was sent. */
    ghost predicate Fates(n: nat)
      reads this`fate, this`sends, this`mappingError, this`dirty, this`refusal
    {
      && FatesOk(cache, fate, n, sends, mappingError, dirty) && SendsOk(cache, sends)
      && (Grants(world) ==> !refusal) && AllAllowed(world, fate)
    }

    ghost predicate Valid(n: nat, open: set<nat>)
      reads this
    {
      cache.Disjoint() && Books(n, open) && Fates(n)
    }

    method End(i: nat, ghost f: Fate, ghost n: nat, ghost open: set<nat>)
      requires Valid(n, open) && i in open && FateOk(cache, sends, mappingError, dirty, i, f) && Allowed(world, f)
      modifies this`writing, this`fate
      ensures Valid(n, open - {i}) && writing == old(writing) - {i} && fate == old(fate)[i := f]
    {
      EndFlushes(cache, flushes, nextId, writing, owner, open, i);
      EndWriting(writing, fate, n, open, owner, flushes, i, f);
      writing := writing - {i};
      fate := fate[i := f];
    }

    /** Dirty again before its writeback ends. */
    method Defer(i: nat, ghost n: nat, ghost open: set<nat>)
      requires Valid(n, open) && i in open && cache.Has(i) && !Grants(world)
      modifies this`writing, this`fate, this`dirty
      ensures Valid(n, open - {i}) && writing == old(writing) - {i} && fate == old(fate)[i := Deferred]
    {
      dirty := dirty + {i};
      End(i, Deferred, n, open);
    }

    method Send(w: Write, ghost n: nat, ghost open: set<nat>)
      requires Valid(n, open) && cache.Belongs(w) && |w.data| <= PAGE_SIZE
      modifies this`sends
      ensures Valid(n, open) && sends == old(sends) + [w]
    {
      MoreSent(cache, fate, n, sends, mappingError, dirty, w);
      sends := sends + [w];
    }

    method SetError(ghost n: nat, ghost open: set<nat>)
      requires Valid(n, open)
      modifies this`mappingError
      ensures Valid(n, open) && mappingError
    {
      mappingError := true;
    }

    /** Takes a flush off the books; its folios are then open until each is ended. */
    method Retire(id: nat, ghost n: nat, ghost open: set<nat>) returns (f: Flush)
      requires Valid(n, open) && id in flushes
      modifies this`flushes, this`gathering
      ensures f == old(flushes)[id] && FlushOk(cache, writing, owner, id, f, open) && flushes == old(flushes) - {id}
      ensures Valid(n, open + Members(f.folios)) && gathering == if old(gathering) == id then -1 else old(gathering)
    {
      f := flushes[id];
      RetireFlushes(cache, flushes, nextId, writing, owner, open, id);
      RetireWriting(writing, fate, n, open, owner, flushes, id);
      flushes := flushes - {id};
      if gathering == id { gathering := -1; }
    }

    method EndEach(fs: seq<nat>, ghost f: Fate, ghost n: nat, ghost open: set<nat>)
      requires Valid(n, open + Members(fs)) && Distinct(fs) && Allowed(world, f)
      requires forall i :: i in fs ==> i !in open && FateOk(cache, sends, mappingError, dirty, i, f)
      modifies this`writing, this`fate
      ensures Valid(n, open)
    {
      var k := 0;
      while k < |fs|
        invariant 0 <= k <= |fs| && Valid(n, open + Members(fs[k..]))
      {
        Rest(fs, k);
        assert open + Members(fs[k..]) - {fs[k]} == open + Members(fs[k + 1..]);
        End(fs[k], f, n, open + Members(fs[k..]));
        k := k + 1;
      }
      assert open + Members(fs[k..]) == open;
    }

    method DeferEach(fs: seq<nat>, ghost n: nat, ghost open: set<nat>)
      requires Valid(n, open + Members(fs)) && Distinct(fs) && !Grants(world)
      requires forall i :: i in fs ==> i !in open && cache.Has(i)
      modifies this`writing, this`fate, this`dirty
      ensures Valid(n, open)
    {
      var k := 0;
      while k < |fs|
        invariant 0 <= k <= |fs| && Valid(n, open + Members(fs[k..]))
      {
        Rest(fs, k);
        assert open + Members(fs[k..]) - {fs[k]} == open + Members(fs[k + 1..]);
        Defer(fs[k], n, open + Members(fs[k..]));
        k := k + 1;
      }
      assert open + Members(fs[k..]) == open;
    }

    method Abandon(id: nat, ghost n: nat, ghost open: set<nat>)
      requires Valid(n, open) && id in flushes && !Grants(world)
      modifies this`flushes, this`gathering, this`writing, this`fate, this`dirty
      ensures Valid(n, open) && flushes == old(flushes) - {id}
      ensures gathering == if old(gathering) == id then -1 else old(gathering)
    {
      var f := Retire(id, n, open);
      DeferEach(f.folios, n, open);
    }

    /** Waits for room among the flushes in flight; a task killed while it waits gives its folios back. */
    method Queue(ghost n: nat, ghost open: set<nat>) returns (ok: bool)
      requires Valid(n, open) && gathering >= 0
      modifies this`flushes, this`gathering, this`writing, this`fate, this`dirty
      ensures Valid(n, open) && gathering == -1 && ok == world.spared(old(gathering))
      ensures ok ==> flushes == old(flushes)
      ensures !ok ==> flushes == old(flushes) - {old(gathering) as nat}
    {
      if !world.spared(gathering) {
        Abandon(gathering, n, open);
        return false;
      }
      gathering := -1;
      return true;
    }

    /** What a queued flush carries: the folios themselves while they fit one send, the buffer beyond. */
    method Carries(f: Flush) returns (data: seq<byte>)
      requires cache.Gathered(f.folios, f.offset, f.len) && forall i :: i in f.folios ==> cache.Has(i)
      requires |f.folios| > MAX_SEND_FOLIOS ==> f.buf == cache.Payload(f.folios)
      ensures data == cache.Payload(f.folios)
    {
      if |f.folios| <= MAX_SEND_FOLIOS {
        data := cache.Scatter(f.folios, f.len, f.offset);
      } else {
        data := f.buf;
      }
    }

    /** Sends a flush that was queued and ends the writeback of all its folios. */
    method FlushOne(id: nat, ghost n: nat)
      requires Valid(n, {}) && id in flushes && id != gathering
      modifies this`flushes, this`gathering, this`writing, this`fate, this`sends, this`mappingError
      ensures Valid(n, {}) && flushes == old(flushes) - {id} && gathering == old(gathering)
      ensures mappingError == (old(mappingError) || !world.taken(id))
    {
      var f := Retire(id, n, {});
      assert {} + Members(f.folios) == Members(f.folios);
      if world.taken(id) {
        SendFlush(f, n);
      } else {
        LoseFlush(f, n);
      }
    }

    /** A flush taken off the books, its folios open. */
    ghost predicate Retired(f: Flush, n: nat)
      reads this
    {
      Valid(n, Members(f.folios)) && Shaped(cache, f) && Distinct(f.folios)
    }

    method SendFlush(f: Flush, ghost n: nat)
      requires Retired(f, n)
      modifies this`writing, this`fate, this`sends
      ensures Valid(n, {})
    {
      var data := Carries(f);
      cache.PayloadBelongs(f.folios, f.offset, f.len);
      cache.GatheredHas(f.folios, f.offset, f.len);
      Send(Write(f.offset, data), n, Members(f.folios));
      AllCovered(f);
      assert {} + Members(f.folios) == Members(f.folios);
      EndEach(f.folios, Whole, n, {});
    }

    method LoseFlush(f: Flush, ghost n: nat)
      requires Retired(f, n) && !Takes(world)
      modifies this`writing, this`fate, this`mappingError
      ensures Valid(n, {}) && mappingError
    {
      SetError(n, Members(f.folios));
      assert {} + Members(f.folios) == Members(f.folios);
      EndEach(f.folios, Failed, n, {});
    }

    lemma AllCovered(f: Flush)
      requires cache.Gathered(f.folios, f.offset, f.len) && forall i :: i in f.folios ==> cache.Has(i)
      requires sends != [] && sends[|sends| - 1] == Write(f.offset, cache.Payload(f.folios))
      ensures forall i :: i in f.folios ==> Covered(cache, sends, i)
    {
      forall i, j: nat | i in f.folios && cache.Inside(i, j) ensures Reached(cache, sends, i, j) {
        cache.PayloadAt(f.folios, f.offset, f.len, i, j);
      }
    }

    /** A folio too large for one page is sent piece by piece by the caller itself. */
    method FlushBig(i: nat, ghost n: nat) returns (ok: bool)
      requires Valid(n, {i}) && cache.Has(i)
      modifies this`writing, this`fate, this`dirty, this`sends, this`mappingError
      ensures Valid(n, {}) && (Takes(world) ==> mappingError == old(mappingError))
    {
      var bytes := cache.Bytes(i);
      if !world.buffered(i) { GiveBack(i, n); return false; }
      var at := 0;
      while at < bytes
        invariant 0 <= at <= bytes && Valid(n, {i}) && SentUpTo(cache, sends, i, at) && mappingError == old(mappingError)
      {
        var piece := Min(bytes - at, PAGE_SIZE);
        match world.piece(i, at) {
          case Interrupted => { GiveBack(i, n); return false; }
          case Refused => { Lose(i, n); return false; }
          case Taken => SendPiece(i, at, piece, n);
        }
        at := at + piece;
      }
      End(i, Whole, n, {i});
      return true;
    }

    method GiveBack(i: nat, ghost n: nat)
      requires Valid(n, {i}) && cache.Has(i) && !Grants(world)
      modifies this`writing, this`fate, this`dirty
      ensures Valid(n, {})
    {
      Defer(i, n, {i});
    }

    method Lose(i: nat, ghost n: nat)
      requires Valid(n, {i}) && cache.Has(i) && !Takes(world)
      modifies this`writing, this`fate, this`mappingError
      ensures Valid(n, {})
    {
      SetError(n, {i});
      End(i, Failed, n, {i});
    }

    method SendPiece(i: nat, at: nat, piece: nat, ghost n: nat)
      requires Valid(n, {i}) && cache.Has(i) && at + piece <= cache.Bytes(i) && piece <= PAGE_SIZE && SentUpTo(cache, sends, i, at)
      modifies this`sends
      ensures Valid(n, {i}) && SentUpTo(cache, sends, i, at + piece)
    {
      var w := Write(cache.folios[i].pos + at, cache.folios[i].data[at..at + piece]);
      PieceBelongs(cache, i, at, piece);
      PieceSent(cache, sends, i, at, piece);
      Send(w, n, {i});
    }

    predicate Fits(f: Flush, pos: nat, bytes: nat) {
      pos == f.offset + f.len && f.len + bytes <= PAGE_SIZE && |f.folios| < ROOM
    }

    /** Takes one more folio into the flush being gathered, staging it all once it outgrows one send. */
    method Add(i: nat, ghost n: nat) returns (ok: bool)
      requires Valid(n, {i}) && cache.Has(i) && 0 < cache.Bytes(i) <= PAGE_SIZE && gathering >= 0
      requires var f := flushes[gathering as nat]; f.folios == [] || Fits(f, cache.folios[i].pos, cache.Bytes(i))
      modifies this`flushes, this`owner
      ensures Valid(n, if ok then {} else {i})
      ensures ok ==> var id := gathering as nat;
        flushes.Keys == old(flushes.Keys) && flushes[id].folios == old(flushes[id].folios) + [i]
      ensures !ok ==> !world.staged(i) && |old(flushes)[old(gathering) as nat].folios| == MAX_SEND_FOLIOS && flushes == old(flushes)
    {
      var id: nat := gathering;
      var f := flushes[id];
      assert FlushOk(cache, writing, owner, id, f, {i});
      if f.folios == [] { f := f.(offset := cache.folios[i].pos); }
      if |f.folios| >= MAX_SEND_FOLIOS && !f.staged {
        if !world.staged(i) { return false; }
      }
      var more := Extend(f, i);
      Put(id, more, i, n);
      return true;
    }

    /** The flush with one more folio at its end. */
    method Extend(f: Flush, i: nat) returns (more: Flush)
      requires cache.Disjoint() && Shaped(cache, f) && cache.Has(i) && i !in f.folios && 0 < cache.Bytes(i)
      requires Fits(f, cache.folios[i].pos, cache.Bytes(i))
      ensures Shaped(cache, more) && more.folios == f.folios + [i] && more.offset == f.offset && more.len == f.len + cache.Bytes(i)
    {
      cache.GatheredAppend(f.folios, f.offset, f.len, i);
      var buf := Stage(f, i);
      more := Flush(f.offset, f.len + cache.Bytes(i), f.folios + [i], |f.folios| >= MAX_SEND_FOLIOS, buf);
    }

    /** The staging buffer with one more folio: filled from the start at the switch, extended after it. */
    method Stage(f: Flush, i: nat) returns (buf: seq<byte>)
      requires Shaped(cache, f) && cache.Has(i)
      ensures |f.folios| >= MAX_SEND_FOLIOS ==> buf == cache.Payload(f.folios + [i])
    {
      buf := f.buf;
      if |f.folios| == MAX_SEND_FOLIOS { buf := cache.Scatter(f.folios, f.len, f.offset); }
      if |f.folios| >= MAX_SEND_FOLIOS { buf := buf + cache.folios[i].data[..cache.Bytes(i)]; }
      assert (f.folios + [i])[..|f.folios|] == f.folios;
    }

    method Put(id: nat, more: Flush, i: nat, ghost n: nat)
      requires Valid(n, {i}) && id == gathering && id in flushes
      requires more.folios == flushes[id].folios + [i] && Shaped(cache, more)
      modifies this`flushes, this`owner
      ensures Valid(n, {}) && flushes == old(flushes)[id := more]
    {
      PutFlushes(cache, flushes, nextId, writing, owner, id, more, i);
      PutWriting(writing, fate, n, owner, flushes, id, more, i);
      owner := owner[i := id];
      flushes := flushes[id := more];
    }

    method NewFlush(i: nat, ghost n: nat)
      requires Valid(n, {i}) && gathering == -1
      modifies this`flushes, this`gathering, this`nextId
      ensures Valid(n, {i}) && gathering >= 0 && flushes[gathering as nat].folios == []
    {
      assert nextId !in flushes;
      NewWriting(writing, fate, n, {i}, owner, flushes, nextId, Flush(0, 0, [], false, []));
      flushes := flushes[nextId := Flush(0, 0, [], false, [])];
      gathering := nextId;
      nextId := nextId + 1;
    }

    /** The folio starts where the run being gathered ends, and the run has room for it. */
    ghost predicate Joins(i: nat)
      reads this`gathering, this`flushes
      requires cache.Has(i)
    {
      gathering >= 0 && gathering as nat in flushes
      && var f, pos := flushes[gathering as nat], cache.folios[i].pos;
         && pos == f.offset + f.len && |f.folios| < ROOM
         && Min(pos + |cache.folios[i].data|, cache.isize(i)) <= f.offset + PAGE_SIZE
    }

    /** Queues the run being gathered unless the folio fits it. */
    method MakeRoom(i: nat, ghost n: nat) returns (ok: bool)
      requires Valid(n, {i}) && cache.Has(i) && 0 < cache.Bytes(i)
      modifies this`flushes, this`gathering, this`writing, this`fate, this`dirty, this`refusal
      ensures Valid(n, {i}) && (!ok ==> !Grants(world))
      ensures ok ==> flushes == old(flushes) && gathering == if old(Joins(i)) then old(gathering) else -1
      ensures ok && gathering >= 0 ==> Fits(flushes[gathering as nat], cache.folios[i].pos, cache.Bytes(i))
    {
      ok := true;
      if gathering >= 0 {
        if !Fits(flushes[gathering as nat], cache.folios[i].pos, cache.Bytes(i)) {
          ok := Queue(n, {i});
          if !ok { refusal := true; }
        }
      }
    }

    /** Adds the folio to the run being gathered, or queues that run and starts another. */
    method Gather(i: nat, ghost n: nat) returns (ok: bool)
      requires Valid(n, {i}) && cache.Has(i) && 0 < cache.Bytes(i) <= PAGE_SIZE && i < n
      modifies this
      ensures Valid(n, if ok then {} else {i}) && (!ok ==> !Grants(world)) && mappingError == old(mappingError)
      ensures ok ==> gathering >= 0 && gathering as nat in flushes
      ensures ok && old(Joins(i)) ==>
        gathering == old(gathering) && flushes[gathering as nat].folios == old(flushes[gathering as nat].folios) + [i]
      ensures ok && !old(Joins(i)) ==> flushes[gathering as nat].folios == [i]
    {
      if refusal { return false; }
      ok := MakeRoom(i, n);
      if !ok { return false; }
      if gathering < 0 {
        if !world.begun(i) { return false; }
        NewFlush(i, n);
      }
      ok := Add(i, n);
    }

    method Start(i: nat)
      requires Valid(i, {}) && cache.Has(i)
      modifies this`dirty, this`writing
      ensures Valid(i + 1, {i})
    {
      dirty := dirty - {i};
      writing := writing + {i};
    }

    /** One dirty folio: whatever happens, its writeback is ended or in the hands of a flush. */
    method WritebackFolio(i: nat)
      requires Valid(i, {}) && cache.Has(i)
      modifies this
      ensures Valid(i + 1, {}) && (Takes(world) ==> mappingError == old(mappingError))
      ensures cache.folios[i].pos >= cache.isize(i) ==> fate == old(fate)[i := PastEnd] && sends == old(sends)
    {
      Start(i);
      if cache.Bytes(i) == 0 {
        End(i, PastEnd, i + 1, {i});
        return;
      }
      if cache.Bytes(i) > PAGE_SIZE {
        var sent := FlushBig(i, i + 1);
        return;
      }
      var ok := Gather(i, i + 1);
      if !ok { Defer(i, i + 1, {i}); }
    }

    /** Queued flushes may run at any moment, in any order. */
    method Meanwhile(ghost n: nat)
      requires Valid(n, {})
      modifies this`flushes, this`gathering, this`writing, this`fate, this`sends, this`mappingError
      ensures Valid(n, {}) && gathering == old(gathering) && (Takes(world) ==> mappingError == old(mappingError))
    {
      var rounds: int := *;
      while rounds > 0
        invariant Valid(n, {}) && gathering == old(gathering) && (Takes(world) ==> mappingError == old(mappingError))
      {
        var id: int := *;
        if id >= 0 && id != gathering {
          if id as nat in flushes { FlushOne(id, n); }
        }
        rounds := rounds - 1;
      }
    }

    /**
      Every folio of the file: by the time the queued work is done no writeback
      is left open, and each folio was sent whole at its own offset, lay past the
      end of the file, set the mapping's error, or is dirty again. None is dirty
      again unless memory ran out or the process was killed, and none set the error
      unless a write was refused.
     */
    method WritePages()
      requires Valid(0, {}) && flushes == map[]
      modifies this
      ensures Valid(|cache.folios|, {}) && writing == {} && flushes == map[]
      ensures forall i: nat :: i < |cache.folios| ==> i in fate && FateOk(cache, sends, mappingError, dirty, i, fate[i])
      ensures forall i: nat :: i < |cache.folios| ==> i in fate && Allowed(world, fate[i])
      ensures Takes(world) ==> mappingError == old(mappingError)
      ensures Grants(world) && Takes(world) ==>
        forall i: nat :: i < |cache.folios| ==> Covered(cache, sends, i) || cache.folios[i].pos >= cache.isize(i)
      ensures SendsOk(cache, sends)
    {
      EachFolio();
      Finish();
      AllWritten();
    }

    method EachFolio()
      requires Valid(0, {})
      modifies this
      ensures Valid(|cache.folios|, {}) && (Takes(world) ==> mappingError == old(mappingError))
    {
      var i := 0;
      while i < |cache.folios|
        invariant 0 <= i <= |cache.folios| && Valid(i, {}) && (Takes(world) ==> mappingError == old(mappingError))
      {
        Meanwhile(i);
        WritebackFolio(i);
        i := i + 1;
      }
    }

    /** Queues the last run and waits for all that is queued. */
    method Finish()
      requires Valid(|cache.folios|, {})
      modifies this
      ensures Valid(|cache.folios|, {}) && flushes == map[] && (Takes(world) ==> mappingError == old(mappingError))
    {
      if gathering >= 0 {
        var queued := Queue(|cache.folios|, {});
      }
      while flushes != map[]
        invariant Valid(|cache.folios|, {}) && gathering == -1 && (Takes(world) ==> mappingError == old(mappingError))
        decreases |flushes|
      {
        var id :| id in flushes;
        FlushOne(id, |cache.folios|);
      }
    }

    lemma AllWritten()
      requires Valid(|cache.folios|, {}) && flushes == map[]
      ensures writing == {}
      ensures forall i: nat :: i < |cache.folios| ==>
        i in fate && FateOk(cache, sends, mappingError, dirty, i, fate[i]) && Allowed(world, fate[i])
      ensures Grants(world) && Takes(world) ==>
        forall i: nat :: i < |cache.folios| ==> Covered(cache, sends, i) || cache.folios[i].pos >= cache.isize(i)
    {
      assert forall i :: i !in writing;
      forall i: nat | i < |cache.folios|
        ensures i in fate && FateOk(cache, sends, mappingError, dirty, i, fate[i]) && Allowed(world, fate[i])
      {
        assert i in writing || i in fate;
      }
      if Grants(world) && Takes(world) {
        forall i: nat | i < |cache.folios| ensures Covered(cache, sends, i) || cache.folios[i].pos >= cache.isize(i) {
          assert i in fate && FateOk(cache, sends, mappingError, dirty, i, fate[i]);
        }
      }
    }
  }

  lemma PieceBelongs(c: Cache, i: nat, at: nat, piece: nat)
    requires c.Has(i) && at + piece <= c.Bytes(i)
    ensures c.Belongs(Write(c.folios[i].pos + at, c.folios[i].data[at..at + piece]))
  {
    var w := Write(c.folios[i].pos + at, c.folios[i].data[at..at + piece]);
    forall k: nat | k < |w.data| ensures c.Owned(w, k) {
      assert c.OwnsByte(i, w.offset + k, w.data[k]);
    }
  }

  lemma PieceSent(c: Cache, sends: seq<Write>, i: nat, at: nat, piece: nat)
    requires c.Has(i) && at + piece <= c.Bytes(i) && SentUpTo(c, sends, i, at)
    ensures SentUpTo(c, sends + [Write(c.folios[i].pos + at, c.folios[i].data[at..at + piece])], i, at + piece)
  {
    var w := Write(c.folios[i].pos + at, c.folios[i].data[at..at + piece]);
    var more := sends + [w];
    forall j: nat | j < at + piece ensures Reached(c, more, i, j) {
      if j < at {
        assert Reached(c, sends, i, j);
        StillSent(sends, w, c.folios[i].pos + j, c.folios[i].data[j]);
      } else {
        assert Holds(more[|sends|], c.folios[i].pos + j, c.folios[i].data[j]);
      }
    }
  }

  lemma StillSent(sends: seq<Write>, w: Write, x: nat, b: byte)
    requires ByteSent(sends, x, b)
    ensures ByteSent(sends + [w], x, b)
  {
    var k :| 0 <= k < |sends| && Holds(sends[k], x, b);
    assert (sends + [w])[k] == sends[k];
  }

  lemma Rest(fs: seq<nat>, k: nat)
    requires Distinct(fs) && k < |fs|
    ensures fs[k] in fs && fs[k] in Members(fs[k..]) && Members(fs[k..]) - {fs[k]} == Members(fs[k + 1..])
  {
    assert fs[k..][0] == fs[k];
    assert fs[k..] == [fs[k]] + fs[k + 1..];
    var rest := fs[k + 1..];
    assert forall j :: 0 <= j < |rest| ==> rest[j] != fs[k];
  }
}
