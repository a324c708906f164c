/**
  NFS file handles: the path itself when it fits, else the digest of its
  directory and its name, else the digest of the whole path, with a table that
  leads from digests back to paths.
 */
module Handles {
  import opened Bytes

  type Path = seq<byte>
  datatype Option<T> = None | Some(value: T)

  const SLASH: byte := 47
  const HANDLE_SIZE: nat := 64
  const INLINE_LIMIT: nat := 56
  const INLINE_AT: nat := 8
  const DIGEST_SIZE: nat := 16
  const DIGEST_AT: nat := 2
  const NAME_AT: nat := 18
  const NAME_ROOM: nat := 46

  // ----- Order of paths -----

  /** Strict lexicographic order of byte strings. */
  predicate Less(a: Path, b: Path) {
    if b == [] then false
    else if a == [] then true
    else a[0] < b[0] || (a[0] == b[0] && Less(a[1..], b[1..]))
  }

  lemma {:induction false} LessTransitive(a: Path, b: Path, c: Path)
    requires Less(a, b) && Less(b, c)
    ensures Less(a, c)
  {
    if a != [] && a[0] == b[0] == c[0] { LessTransitive(a[1..], b[1..], c[1..]); }
  }

  lemma {:induction false} LessTotal(a: Path, b: Path)
    ensures (Less(a, b) || Less(b, a)) <==> a != b
    ensures !(Less(a, b) && Less(b, a))
  {
    if a != [] && b != [] && a[0] == b[0] {
      LessTotal(a[1..], b[1..]);
      assert a == [a[0]] + a[1..] && b == [b[0]] + b[1..];
    }
  }

  /** What starts with `p` is not before it. */
  lemma {:induction false} PrefixNotBefore(p: Path, x: Path)
    requires p <= x
    ensures !Less(x, p)
  {
    if p != [] {
      assert p[1..] <= x[1..];
      PrefixNotBefore(p[1..], x[1..]);
    }
  }

  /** Once past the strings that start with `p`, none is left. */
  lemma {:induction false} PrefixesEnd(p: Path, x: Path, y: Path)
    requires !Less(x, p) && !(p <= x) && Less(x, y)
    ensures !(p <= y)
  {
    if p != [] && x != [] && x[0] == p[0] == y[0] {
      PrefixByHead(p, x);
      PrefixByHead(p, y);
      PrefixesEnd(p[1..], x[1..], y[1..]);
    }
  }

  lemma PrefixByHead(p: Path, x: Path)
    requires p != [] && x != []
    ensures p <= x <==> p[0] == x[0] && p[1..] <= x[1..]
  {
    assert p == [p[0]] + p[1..] && x == [x[0]] + x[1..];
    if p <= x { assert p[1..] == x[1..|p|]; }
  }

  /** At `p` or beneath it. */
  predicate Covers(p: Path, x: Path) {
    x == p || p + [SLASH] <= x
  }

  // ----- The sorted table -----

  datatype Entry = Entry(path: Path, key: seq<byte>)

  predicate Sorted(es: seq<Entry>) {
    forall i, j :: 0 <= i < j < |es| ==> Less(es[i].path, es[j].path)
  }

  predicate Holds(es: seq<Entry>, p: Path) {
    exists i :: 0 <= i < |es| && es[i].path == p
  }

  /** The first entry not before `p`. */
  method LowerBound(es: seq<Entry>, p: Path) returns (at: nat)
    requires Sorted(es)
    ensures at <= |es|
    ensures forall i :: 0 <= i < at ==> Less(es[i].path, p)
    ensures forall i :: at <= i < |es| ==> !Less(es[i].path, p)
  {
    at := 0;
    while at < |es| && Less(es[at].path, p)
      invariant at <= |es| && forall i :: 0 <= i < at ==> Less(es[i].path, p)
    {
      at := at + 1;
    }
    forall i | at < i < |es| ensures !Less(es[i].path, p) {
      if Less(es[i].path, p) { LessTransitive(es[at].path, es[i].path, p); }
    }
  }

  /** Puts an entry in its place, over one with the same path. */
  method InsertOrAssign(es: seq<Entry>, e: Entry) returns (r: seq<Entry>)
    requires Sorted(es)
    ensures Sorted(r)
    ensures forall x :: x in r <==> x == e || (x in es && x.path != e.path)
  {
    var at := LowerBound(es, e.path);
    if at < |es| && es[at].path == e.path {
      r := es[at := e];
      Replaced(es, at, e);
      return;
    }
    r := es[..at] + [e] + es[at..];
    Inserted(es, at, e);
  }

  lemma Replaced(es: seq<Entry>, at: nat, e: Entry)
    requires Sorted(es) && at < |es| && es[at].path == e.path
    ensures Sorted(es[at := e])
    ensures forall x :: x in es[at := e] <==> x == e || (x in es && x.path != e.path)
  {
    var r := es[at := e];
    assert r[at] == e;
    forall i | 0 <= i < |es| && i != at ensures es[i].path != e.path && es[i] in r {
      LessTotal(es[i].path, es[at].path);
      assert r[i] == es[i];
    }
  }

  /** Everything from the place on comes after the entry, and nothing has its path. */
  lemma PlaceFor(es: seq<Entry>, at: nat, e: Entry, i: nat)
    requires Sorted(es) && at <= |es| && i < |es|
    requires forall i :: 0 <= i < at ==> Less(es[i].path, e.path)
    requires forall i :: at <= i < |es| ==> !Less(es[i].path, e.path)
    requires at < |es| ==> es[at].path != e.path
    ensures es[i].path != e.path && (i >= at ==> Less(e.path, es[i].path))
  {
    LessTotal(es[i].path, e.path);
    if i > at {
      LessTotal(es[at].path, e.path);
      LessTransitive(e.path, es[at].path, es[i].path);
      LessTotal(es[i].path, e.path);
    }
  }

  lemma Inserted(es: seq<Entry>, at: nat, e: Entry)
    requires Sorted(es) && at <= |es|
    requires forall i :: 0 <= i < at ==> Less(es[i].path, e.path)
    requires forall i :: at <= i < |es| ==> !Less(es[i].path, e.path)
    requires at < |es| ==> es[at].path != e.path
    ensures var r := es[..at] + [e] + es[at..];
      Sorted(r) && forall x :: x in r <==> x == e || (x in es && x.path != e.path)
  {
    var r := es[..at] + [e] + es[at..];
    forall i: nat | i < |es| ensures es[i].path != e.path && (i >= at ==> Less(e.path, es[i].path)) { PlaceFor(es, at, e, i); }
    assert es == es[..at] + es[at..];
    assert forall i :: 0 <= i < at ==> r[i] == es[i];
    assert forall i :: at <= i < |es| ==> r[i + 1] == es[i];
  }

  // ----- Handles -----

  function LastSlash(p: Path): (cut: int)
    ensures -1 <= cut < |p|
    ensures cut >= 0 ==> p[cut] == SLASH
    ensures forall i :: cut < i < |p| ==> p[i] != SLASH
  {
    if p == [] then -1 else if p[|p| - 1] == SLASH then |p| - 1 else LastSlash(p[..|p| - 1])
  }

  /** `p` is `x`, or the directory of what it is above. */
  predicate Above(p: Path, x: Path)
    decreases |x|
  {
    x == p || (LastSlash(x) >= 0 && Above(p, x[..LastSlash(x)]))
  }

  /** A path covers exactly itself and what lies under it, name by name. */
  lemma {:induction false} CoversExactly(p: Path, x: Path)
    ensures Covers(p, x) <==> Above(p, x)
    decreases |x|
  {
    var below, cut := p + [SLASH], LastSlash(x);
    assert below <= x <==> |p| < |x| && p == x[..|p|] && x[|p|] == SLASH;
    if x != p && cut >= 0 {
      CoversExactly(p, x[..cut]);
      assert below <= x[..cut] <==> |p| < cut && p == x[..cut][..|p|] && x[..cut][|p|] == SLASH;
      if |p| < cut { assert x[..cut][..|p|] == x[..|p|]; }
    }
  }

  datatype Kind = Anchored | Inline | Child | Digested

  function NameLength(p: Path): nat {
    if LastSlash(p) < 0 then 0 else |p| - LastSlash(p) - 1
  }

  function KindOf(anchor: Path, p: Path): Kind {
    if anchor != [] && p == anchor then Anchored
    else if |p| <= INLINE_LIMIT then Inline
    else if 0 < NameLength(p) <= NAME_ROOM then Child
    else Digested
  }

  /** The path the table must hold for the handle of `p` to mean anything. */
  function EntryFor(anchor: Path, p: Path): Option<Path> {
    match KindOf(anchor, p)
    case Anchored => None
    case Inline => None
    case Child => Some(p[..LastSlash(p)])
    case Digested => Some(p)
  }

  /** A long path leans on its directory's entry exactly when its name fits the handle, else on its own. */
  lemma LongPathLeansOn(anchor: Path, dir: Path, name: Path)
    requires SLASH !in name && dir + [SLASH] + name != anchor && |dir| + 1 + |name| > INLINE_LIMIT
    ensures EntryFor(anchor, dir + [SLASH] + name) ==
      if 0 < |name| <= NAME_ROOM then Some(dir) else Some(dir + [SLASH] + name)
  {
    var p := dir + [SLASH] + name;
    assert p[|dir|] == SLASH && forall i :: |dir| < i < |p| ==> p[i] == name[i - |dir| - 1];
    assert LastSlash(p) == |dir| && p[..|dir|] == dir;
  }

  function Put(h: seq<byte>, at: nat, data: seq<byte>): (r: seq<byte>)
    requires at + |data| <= |h|
    ensures |r| == |h| && r[at..at + |data|] == data
    ensures forall i :: 0 <= i < |h| && !(at <= i < at + |data|) ==> r[i] == h[i]
  {
    h[..at] + data + h[at + |data|..]
  }

  function Decode(anchor: Path, long: map<seq<byte>, Path>, h: seq<byte>): Option<Path> {
    if |h| != HANDLE_SIZE then None
    else if h[0] == 4 then (if anchor == [] then None else Some(anchor))
    else if h[0] == 1 then (if h[1] > INLINE_LIMIT then None else Some(h[INLINE_AT..INLINE_AT + h[1]]))
    else if h[0] != 2 && h[0] != 3 then None
    else
      var keyAt := if h[0] == 3 then DIGEST_AT else INLINE_AT;
      var key := h[keyAt..keyAt + DIGEST_SIZE];
      if key !in long then None
      else if h[0] == 2 then Some(long[key])
      else if h[1] == 0 || h[1] > NAME_ROOM then None
      else Some(long[key] + [SLASH] + h[NAME_AT..NAME_AT + h[1]])
  }

  ghost predicate Hashes(digest: Path -> seq<byte>) {
    forall p :: |digest(p)| == DIGEST_SIZE
  }

  /** No two of the paths share a digest. */
  ghost predicate Distinguishes(digest: Path -> seq<byte>, known: set<Path>) {
    Hashes(digest) && forall p, q :: p in known && q in known && digest(p) == digest(q) ==> p == q
  }

  class Handles {
    const digest: Path -> seq<byte>
    var anchor: Path
    var long: map<seq<byte>, Path>
    var byPath: seq<Entry>

    /** The two tables say the same: each path under its digest. */
    ghost predicate Valid(known: set<Path>)
      reads this
    {
      && Distinguishes(digest, known) && Sorted(byPath)
      && (forall e :: e in byPath ==> e.path in known && e.key == digest(e.path) && e.key in long && long[e.key] == e.path)
      && (forall k :: k in long ==> Entry(long[k], k) in byPath)
    }

    ghost function Remembered(): set<Path>
      reads this
    {
      set e | e in byPath :: e.path
    }

    constructor (digest: Path -> seq<byte>, ghost known: set<Path>)
      requires Distinguishes(digest, known)
      ensures this.digest == digest && Valid(known) && byPath == [] && long == map[]
    {
      this.digest, anchor, long, byPath := digest, [], map[], [];
    }

    /** Names the path that has a handle of its own kind: the root of the export. */
    method Pin(path: Path, ghost known: set<Path>)
      requires Valid(known)
      modifies this`anchor
      ensures Valid(known) && anchor == path
    {
      anchor := path;
    }

    method Remember(path: Path, ghost known: set<Path>)
      requires Valid(known) && path in known
      modifies this`long, this`byPath
      ensures Valid(known) && Remembered() == old(Remembered()) + {path}
    {
      var key := digest(path);
      long := long[key := path];
      byPath := InsertOrAssign(byPath, Entry(path, key));
    }

    function Handle(p: Path): (h: seq<byte>)
      requires |digest(p)| == DIGEST_SIZE
      requires LastSlash(p) >= 0 ==> |digest(p[..LastSlash(p)])| == DIGEST_SIZE
      reads this`anchor
      ensures |h| == HANDLE_SIZE
    {
      var zeros := seq(HANDLE_SIZE, _ => 0);
      match KindOf(anchor, p)
      case Anchored => zeros[0 := 4]
      case Inline => Put(zeros[0 := 1][1 := |p|], INLINE_AT, p)
      case Child =>
        var cut := LastSlash(p);
        Named(digest(p[..cut]), p[cut + 1..])
      case Digested => Put(zeros[0 := 2], INLINE_AT, digest(p))
    }

    ghost predicate Known(p: Path, known: set<Path>)
      reads this`anchor
    {
      p in known && (EntryFor(anchor, p).Some? ==> EntryFor(anchor, p).value in known)
    }

    /** A handle means its path exactly while the entry it leans on is held, and nothing otherwise. */
    lemma DecodeExactly(p: Path, known: set<Path>)
      requires Valid(known) && Known(p, known)
      ensures Decode(anchor, long, Handle(p)) ==
        if EntryFor(anchor, p).None? || EntryFor(anchor, p).value in Remembered() then Some(p) else None
    {
      match KindOf(anchor, p)
      case Anchored =>
      case Inline =>
      case Child =>
        FoundExactly(p[..LastSlash(p)], known);
        DecodeChild(p, known);
        ParentAndName(p);
      case Digested =>
        FoundExactly(p, known);
    }

    lemma DecodeChild(p: Path, known: set<Path>)
      requires Valid(known) && Known(p, known) && KindOf(anchor, p) == Child
      ensures var key, name := digest(p[..LastSlash(p)]), p[LastSlash(p) + 1..];
        Decode(anchor, long, Handle(p)) == if key in long then Some(long[key] + [SLASH] + name) else None
    {
      DecodeNamed(anchor, long, digest(p[..LastSlash(p)]), p[LastSlash(p) + 1..]);
    }

    lemma FoundExactly(x: Path, known: set<Path>)
      requires Valid(known) && x in known
      ensures digest(x) in long <==> x in Remembered()
      ensures digest(x) in long ==> long[digest(x)] == x
    {
      if digest(x) in long {
        assert Entry(long[digest(x)], digest(x)) in byPath;
      }
      if x in Remembered() {
        var e :| e in byPath && e.path == x;
      }
    }

    /** A handle for a path, which decodes to that path at once. */
    method Encode(p: Path, ghost known: set<Path>) returns (h: seq<byte>)
      requires Valid(known) && Known(p, known)
      modifies this`long, this`byPath
      ensures Valid(known) && h == Handle(p) && Decode(anchor, long, h) == Some(p)
      ensures Remembered() == After(anchor, old(Remembered()), Encoding(p))
    {
      h := seq(HANDLE_SIZE, _ => 0);
      match KindOf(anchor, p) {
        case Anchored =>
          h := h[0 := 4];
        case Inline =>
          h := Put(h[0 := 1][1 := |p|], INLINE_AT, p);
        case Child =>
          var cut := LastSlash(p);
          h := Put(h[0 := 3][1 := NameLength(p)], DIGEST_AT, digest(p[..cut]));
          h := Put(h, NAME_AT, p[cut + 1..]);
          Remember(p[..cut], known);
        case Digested =>
          h := Put(h[0 := 2], INLINE_AT, digest(p));
          Remember(p, known);
      }
      DecodeExactly(p, known);
    }

    /** Takes one entry out of both tables. */
    method Drop(at: nat, ghost known: set<Path>)
      requires Valid(known) && at < |byPath|
      modifies this`long, this`byPath
      ensures Valid(known) && byPath == old(byPath)[..at] + old(byPath)[at + 1..]
    {
      var e := byPath[at];
      Removed(byPath, at);
      assert e in byPath;
      long := long - {e.key};
      byPath := byPath[..at] + byPath[at + 1..];
    }

    /** Drops the path and everything beneath it: one entry, then one run of the order. */
    method Forget(p: Path, ghost known: set<Path>)
      requires Valid(known)
      modifies this`long, this`byPath
      ensures Valid(known)
      ensures forall e :: e in byPath <==> e in old(byPath) && !Covers(p, e.path)
      ensures Remembered() == After(anchor, old(Remembered()), Forgetting(p))
    {
      var at := LowerBound(byPath, p);
      if at < |byPath| && byPath[at].path == p {
        Removed(byPath, at);
        Drop(at, known);
      } else {
        NotThere(byPath, p, at);
      }
      assert forall e :: e in byPath <==> e in old(byPath) && e.path != p;
      DropBelow(p + [SLASH], known);
    }

    method DropBelow(below: Path, ghost known: set<Path>)
      requires Valid(known)
      modifies this`long, this`byPath
      ensures Valid(known)
      ensures forall e :: e in byPath <==> e in old(byPath) && !(below <= e.path)
    {
      var at := LowerBound(byPath, below);
      while at < |byPath| && below <= byPath[at].path
        invariant at <= |byPath| && Valid(known)
        invariant forall i :: 0 <= i < at ==> Less(byPath[i].path, below)
        invariant forall i :: at <= i < |byPath| ==> !Less(byPath[i].path, below)
        invariant forall e :: e in byPath ==> e in old(byPath)
        invariant forall e :: e in old(byPath) && !(below <= e.path) ==> e in byPath
        decreases |byPath|
      {
        Removed(byPath, at);
        Drop(at, known);
      }
      RangeOver(byPath, below, at);
    }

    method Perform(op: Op, ghost known: set<Path>)
      requires Valid(known) && (op.Encoding? ==> Known(op.path, known))
      modifies this`long, this`byPath
      ensures Valid(known) && Remembered() == After(anchor, old(Remembered()), op)
    {
      match op
      case Encoding(path) => { var _ := Encode(path, known); }
      case Forgetting(path) => { Forget(path, known); }
    }

    /**
      Hands out a handle at the mount, serves any run of encodes and forgets, and decodes it again:
      its path, exactly unless a forget covered the entry it leans on after the last encoding of that entry.
     */
    method HandOut(root: Path, p: Path, ops: seq<Op>, ghost known: set<Path>) returns (h: seq<byte>, back: Option<Path>)
      requires Valid(known)
      requires forall q :: q in [p] + Encoded(ops) ==> q in known
      requires forall q :: q in [p] + Encoded(ops) && EntryFor(root, q).Some? ==> EntryFor(root, q).value in known
      modifies this
      ensures Valid(known) && anchor == root && h == Handle(p)
      ensures back == match EntryFor(root, p)
        case None => Some(p)
        case Some(x) => if Renewed(root, [Encoding(p)] + ops, x) then Some(p) else None
      ensures p == root || |p| <= INLINE_LIMIT ==> back == Some(p)
    {
      Pin(root, known);
      assert p in [p] + Encoded(ops);
      h := Encode(p, known);
      ghost var held := Remembered();
      for n := 0 to |ops|
        invariant Valid(known) && anchor == root && Remembered() == AfterAll(root, held, ops[..n])
      {
        EncodedHolds(ops, n);
        assert ops[n].Encoding? ==> ops[n].path in [p] + Encoded(ops);
        assert ops[..n + 1][..n] == ops[..n];
        Perform(ops[n], known);
      }
      assert ops[..|ops|] == ops;
      DecodeExactly(p, known);
      if EntryFor(root, p).Some? {
        EntryHeldExactly(root, held, ops, EntryFor(root, p).value);
        FirstRenews(root, p, ops);
      }
      back := Decode(anchor, long, h);
    }
  }

  function Encoded(ops: seq<Op>): seq<Path> {
    if ops == [] then [] else (if ops[0].Encoding? then [ops[0].path] else []) + Encoded(ops[1..])
  }

  lemma {:induction false} EncodedHolds(ops: seq<Op>, n: nat)
    requires n < |ops|
    ensures ops[n].Encoding? ==> ops[n].path in Encoded(ops)
  {
    if n > 0 { EncodedHolds(ops[1..], n - 1); }
  }

  lemma FirstRenews(anchor: Path, p: Path, ops: seq<Op>)
    requires EntryFor(anchor, p).Some?
    ensures var x := EntryFor(anchor, p).value;
      Renewed(anchor, [Encoding(p)] + ops, x) <==> Spared(ops, x) || Renewed(anchor, ops, x)
  {
    var x, all := EntryFor(anchor, p).value, [Encoding(p)] + ops;
    assert all[1..] == ops;
    assert RenewedAt(anchor, all, x, 0) <==> Spared(ops, x);
    forall k: nat ensures RenewedAt(anchor, all, x, k + 1) <==> RenewedAt(anchor, ops, x, k) {
      if k < |ops| { assert all[k + 2..] == ops[k + 1..]; }
    }
    if Renewed(anchor, all, x) && !Spared(ops, x) {
      var k: nat :| RenewedAt(anchor, all, x, k);
      assert RenewedAt(anchor, ops, x, k - 1);
    }
    if Renewed(anchor, ops, x) {
      var k: nat :| RenewedAt(anchor, ops, x, k);
      assert RenewedAt(anchor, all, x, k + 1);
    }
  }

  /** The handle of a name under a digest. */
  function Named(key: seq<byte>, name: seq<byte>): seq<byte>
    requires |key| == DIGEST_SIZE && 0 < |name| <= NAME_ROOM
  {
    Put(Put(seq(HANDLE_SIZE, _ => 0)[0 := 3][1 := |name|], DIGEST_AT, key), NAME_AT, name)
  }

  lemma DecodeNamed(anchor: Path, long: map<seq<byte>, Path>, key: seq<byte>, name: seq<byte>)
    requires |key| == DIGEST_SIZE && 0 < |name| <= NAME_ROOM
    ensures Decode(anchor, long, Named(key, name)) == if key in long then Some(long[key] + [SLASH] + name) else None
  {
    PutTwice(seq(HANDLE_SIZE, _ => 0)[0 := 3][1 := |name|], key, name);
  }

  lemma ParentAndName(p: Path)
    requires LastSlash(p) >= 0
    ensures p[..LastSlash(p)] + [SLASH] + p[LastSlash(p) + 1..] == p
  {
  }

  lemma PutTwice(h: seq<byte>, key: seq<byte>, name: seq<byte>)
    requires |h| == HANDLE_SIZE && |key| == DIGEST_SIZE && |name| <= NAME_ROOM
    ensures var r := Put(Put(h, DIGEST_AT, key), NAME_AT, name);
      r[0] == h[0] && r[1] == h[1] && r[DIGEST_AT..DIGEST_AT + DIGEST_SIZE] == key && r[NAME_AT..NAME_AT + |name|] == name
  {
  }

  /** Past the run, no entry starts with what was walked. */
  lemma RangeOver(es: seq<Entry>, below: Path, at: nat)
    requires Sorted(es) && at <= |es| && (at < |es| ==> !(below <= es[at].path))
    requires forall i :: 0 <= i < at ==> Less(es[i].path, below)
    requires forall i :: at <= i < |es| ==> !Less(es[i].path, below)
    ensures forall e :: e in es ==> !(below <= e.path)
  {
    forall i | 0 <= i < |es| ensures !(below <= es[i].path) {
      if i < at {
        if below <= es[i].path { PrefixNotBefore(below, es[i].path); }
      } else if i > at {
        PrefixesEnd(below, es[at].path, es[i].path);
      }
    }
  }

  lemma NotThere(es: seq<Entry>, p: Path, at: nat)
    requires Sorted(es) && at <= |es| && (at < |es| ==> es[at].path != p)
    requires forall i :: 0 <= i < at ==> Less(es[i].path, p)
    requires forall i :: at <= i < |es| ==> !Less(es[i].path, p)
    ensures forall e :: e in es ==> e.path != p
  {
    forall i | 0 <= i < |es| ensures es[i].path != p {
      LessTotal(es[i].path, p);
      if i > at { LessTotal(es[at].path, p); LessTotal(es[at].path, es[i].path); }
    }
  }

  lemma Removed(es: seq<Entry>, at: nat)
    requires Sorted(es) && at < |es|
    ensures var r := es[..at] + es[at + 1..];
      Sorted(r) && forall x :: x in r <==> x in es && x.path != es[at].path
  {
    var r := es[..at] + es[at + 1..];
    forall i | 0 <= i < |es| && i != at ensures es[i].path != es[at].path && es[i] in r {
      LessTotal(es[i].path, es[at].path);
      assert es[i] == r[if i < at then i else i - 1];
    }
    assert forall i :: 0 <= i < |r| ==> r[i] == es[if i < at then i else i + 1];
  }

  // ----- Over whole runs -----

  datatype Op = Encoding(path: Path) | Forgetting(path: Path)

  /** What the table holds after an operation. */
  function After(anchor: Path, held: set<Path>, op: Op): set<Path> {
    match op
    case Encoding(p) => (match EntryFor(anchor, p) case None => held case Some(x) => held + {x})
    case Forgetting(p) => set x | x in held && !Covers(p, x)
  }

  function AfterAll(anchor: Path, held: set<Path>, ops: seq<Op>): set<Path> {
    if ops == [] then held else After(anchor, AfterAll(anchor, held, ops[..|ops| - 1]), ops[|ops| - 1])
  }

  /** No forget in the run covers the entry. */
  predicate Spared(ops: seq<Op>, x: Path) {
    forall k :: 0 <= k < |ops| && ops[k].Forgetting? ==> !Covers(ops[k].path, x)
  }

  /** Encodes a path that leans on the entry, and forgets nothing that covers it from then on. */
  predicate RenewedAt(anchor: Path, ops: seq<Op>, x: Path, k: nat) {
    k < |ops| && ops[k].Encoding? && EntryFor(anchor, ops[k].path) == Some(x) && Spared(ops[k + 1..], x)
  }

  ghost predicate Renewed(anchor: Path, ops: seq<Op>, x: Path) {
    exists k: nat :: RenewedAt(anchor, ops, x, k)
  }

  /** What a run leaves of an entry depends on its last encoding and the forgets after it, and on nothing else. */
  lemma {:induction false} EntryHeldExactly(anchor: Path, held: set<Path>, ops: seq<Op>, x: Path)
    ensures x in AfterAll(anchor, held, ops) <==> (x in held && Spared(ops, x)) || Renewed(anchor, ops, x)
  {
    if ops != [] {
      EntryHeldExactly(anchor, held, ops[..|ops| - 1], x);
      SparedAndLast(ops, x);
      RenewedAndLast(anchor, ops, x);
    }
  }

  lemma RenewedAndLast(anchor: Path, ops: seq<Op>, x: Path)
    requires ops != []
    ensures var last := ops[|ops| - 1];
      Renewed(anchor, ops, x) <==>
        || (last.Encoding? && EntryFor(anchor, last.path) == Some(x))
        || (Renewed(anchor, ops[..|ops| - 1], x) && (last.Forgetting? ==> !Covers(last.path, x)))
  {
    var n := |ops| - 1;
    forall k: nat | k < n
      ensures RenewedAt(anchor, ops, x, k) <==>
        RenewedAt(anchor, ops[..n], x, k) && (ops[n].Forgetting? ==> !Covers(ops[n].path, x))
    {
      SparedAndLast(ops[k + 1..], x);
      assert ops[k + 1..][..n - k - 1] == ops[..n][k + 1..];
    }
    assert Spared(ops[n + 1..], x);
    assert RenewedAt(anchor, ops, x, n) <==> ops[n].Encoding? && EntryFor(anchor, ops[n].path) == Some(x);
  }

  lemma SparedAndLast(ops: seq<Op>, x: Path)
    requires ops != []
    ensures var last := ops[|ops| - 1];
      Spared(ops, x) <==> Spared(ops[..|ops| - 1], x) && (last.Forgetting? ==> !Covers(last.path, x))
  {
    if Spared(ops[..|ops| - 1], x) {
      forall k | 0 <= k < |ops| - 1 && ops[k].Forgetting? ensures !Covers(ops[k].path, x) {
        assert ops[..|ops| - 1][k] == ops[k];
      }
    }
  }

  /** Forgetting a path ends its own handle exactly when the handle carries the digest of the whole path. */
  lemma ForgetEndsOwnHandleExactly(anchor: Path, held: set<Path>, p: Path)
    requires EntryFor(anchor, p).Some? && EntryFor(anchor, p).value in held
    ensures EntryFor(anchor, p).value !in After(anchor, held, Forgetting(p)) <==> KindOf(anchor, p) == Digested
  {
    if KindOf(anchor, p) == Child {
      var parent := p[..LastSlash(p)];
      assert |parent| < |p|;
    }
  }
}
