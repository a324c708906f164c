/**
  Listing a directory over NFS: the server fills each reply up to a size, the
  client comes back with the last cookie until it is told that was the end.
 */
module ReadDir {
  import opened Bytes

  const DIRENT_SLACK: nat := 128
  const NAME_LIMIT: nat := 255

  datatype Item = Item(name: string, cookie: nat)

  /** A fixed listing in name order, the size of a reply before its first entry, and of each entry in it. */
  datatype Listing = Listing(names: seq<string>, header: nat, size: nat -> nat) {
    function All(): seq<string> {
      [".", ".."] + names
    }

    function Total(): nat {
      |names| + 2
    }
  }

  /** The size of a reply that carries the entries from `start` on, `count` of them. */
  function SizeOf(l: Listing, start: nat, count: nat): nat {
    if count == 0 then l.header else SizeOf(l, start, count - 1) + l.size(start + count - 1)
  }

  function Ceiling(limit: nat): nat {
    if limit > DIRENT_SLACK then limit - DIRENT_SLACK else limit
  }

  /** The entries from `from` to `to`, each with the cookie that asks for what follows it. */
  function Items(l: Listing, from: nat, to: nat): (items: seq<Item>)
    requires from <= to <= l.Total()
    ensures |items| == to - from
  {
    seq(to - from, k requires 0 <= k < to - from => Item(l.All()[from + k], from + k + 1))
  }

  lemma ItemsAppend(l: Listing, from: nat, to: nat)
    requires from <= to < l.Total()
    ensures Items(l, from, to + 1) == Items(l, from, to) + [Item(l.All()[to], to + 1)]
  {
  }

  lemma ItemAt(l: Listing, from: nat, to: nat, k: nat)
    requires from <= to <= l.Total() && k < to - from
    ensures Items(l, from, to)[k] == Item(l.All()[from + k], from + k + 1)
  {
  }

  /** One reply: as many entries as fit, but always one while any is left. */
  method Page(l: Listing, cookie: nat, limit: nat) returns (items: seq<Item>, eof: bool, ghost end: nat)
    ensures Min(cookie, l.Total()) <= end <= l.Total() && items == Items(l, Min(cookie, l.Total()), end)
    ensures (eof <==> end == l.Total()) && (cookie < l.Total() ==> |items| >= 1)
    ensures |items| > 1 ==> SizeOf(l, cookie, |items|) <= if limit > DIRENT_SLACK then limit - DIRENT_SLACK else limit
    ensures !eof ==> SizeOf(l, cookie, |items| + 1) > if limit > DIRENT_SLACK then limit - DIRENT_SLACK else limit
  {
    var start := Min(cookie, l.Total());
    var index: nat, full: bool, written: nat := start, false, l.header;
    items := [];
    while index < l.Total() && !full
      invariant start <= index <= l.Total() && items == Items(l, start, index) && written == SizeOf(l, start, index - start)
      invariant index > start + 1 ==> written <= Ceiling(limit)
      invariant full ==> start < index < l.Total() && SizeOf(l, start, index - start + 1) > Ceiling(limit)
      decreases l.Total() - index + (if full then 0 else 1)
    {
      var name := if index == 0 then "." else if index == 1 then ".." else l.names[index - 2];
      var mark := written;
      written := written + l.size(index);
      if written > Ceiling(limit) && index > start {
        written, full := mark, true;
      } else {
        ItemsAppend(l, start, index);
        items := items + [Item(name, index + 1)];
        index := index + 1;
      }
    }
    eof := index >= l.Total();
    end := index;
  }

  /** What the client keeps of the names it is given. */
  function Kept(names: seq<string>): seq<string> {
    if names == [] then [] else Kept(names[..|names| - 1]) + KeptOne(names[|names| - 1])
  }

  function KeptOne(name: string): seq<string> {
    if name != "." && name != ".." then [name] else []
  }

  /** `at` are, in order, exactly the places of names other than the two dots, and `kept` what stands there. */
  predicate PicksAt(names: seq<string>, kept: seq<string>, at: seq<nat>) {
    && |at| == |kept| && (forall i, j :: 0 <= i < j < |at| ==> at[i] < at[j])
    && (forall i :: 0 <= i < |at| ==> at[i] < |names| && kept[i] == names[at[i]])
    && (forall n: nat :: n < |names| ==> (n in at <==> names[n] != "." && names[n] != ".."))
  }

  ghost predicate Picks(names: seq<string>, kept: seq<string>) {
    exists at: seq<nat> :: PicksAt(names, kept, at)
  }

  lemma FrontAndLast(names: seq<string>)
    requires names != []
    ensures names[..|names| - 1] + [names[|names| - 1]] == names
    ensures multiset(names) == multiset(names[..|names| - 1]) + multiset([names[|names| - 1]])
  {
    assert names[..|names| - 1] + [names[|names| - 1]] == names;
  }

  /** Everything but the dots is kept, in order. */
  lemma {:induction false} KeptPicks(names: seq<string>)
    ensures Picks(names, Kept(names))
  {
    if names == [] {
      assert PicksAt(names, Kept(names), []);
    } else {
      var front := names[..|names| - 1];
      KeptPicks(front);
      var at: seq<nat> :| PicksAt(front, Kept(front), at);
      PicksOneMore(front, Kept(front), at, names[|names| - 1]);
      FrontAndLast(names);
    }
  }

  /** Each name but the dots occurs as often as it was given. */
  lemma {:induction false} KeptAsOften(names: seq<string>, name: string)
    ensures multiset(Kept(names))[name] == if name == "." || name == ".." then 0 else multiset(names)[name]
  {
    if names != [] {
      var front, last := names[..|names| - 1], names[|names| - 1];
      KeptAsOften(front, name);
      FrontAndLast(names);
      assert multiset(Kept(names)) == multiset(Kept(front)) + multiset(KeptOne(last));
    }
  }

  lemma {:induction false} WithoutDotsAllIsKept(names: seq<string>)
    requires "." !in names && ".." !in names
    ensures Kept(names) == names
  {
    if names != [] { WithoutDotsAllIsKept(names[..|names| - 1]); }
  }

  lemma PicksOneMore(names: seq<string>, kept: seq<string>, at: seq<nat>, last: string)
    requires PicksAt(names, kept, at)
    ensures Picks(names + [last], kept + KeptOne(last))
  {
    var more := names + [last];
    if last == "." || last == ".." {
      assert kept + KeptOne(last) == kept;
      forall n: nat | n < |more| ensures n in at <==> more[n] != "." && more[n] != ".." {
        if n < |names| { assert more[n] == names[n]; }
      }
      assert PicksAt(more, kept, at);
    } else {
      var places := at + [|names|];
      forall n: nat | n < |more| ensures n in places <==> more[n] != "." && more[n] != ".." {
        if n < |names| { assert more[n] == names[n] && (n in places <==> n in at); } else { assert places[|at|] == n; }
      }
      assert PicksAt(more, kept + [last], places);
    }
  }

  predicate Readable(names: seq<string>) {
    forall k :: 0 <= k < |names| ==> |names[k]| <= NAME_LIMIT
  }

  lemma OneMore(all: seq<string>, start: nat, k: nat)
    requires start <= k < |all|
    ensures Kept(all[..k + 1]) == Kept(all[..k]) + KeptOne(all[k])
    ensures Readable(all[start..k + 1]) <==> Readable(all[start..k]) && |all[k]| <= NAME_LIMIT
  {
    assert all[..k + 1][..k] == all[..k];
    assert all[start..k + 1] == all[start..k] + [all[k]];
  }

  /** Takes one reply's entries, moving the cookie along; a name too long spoils the reply. */
  method Take(l: Listing, items: seq<Item>, entries: seq<string>, start: nat, ghost end: nat)
    returns (ok: bool, more: seq<string>, cookie: nat)
    requires start <= end <= l.Total() && items == Items(l, start, end) && entries == Kept(l.All()[..start])
    ensures ok <==> Readable(l.All()[start..end])
    ensures ok ==> more == Kept(l.All()[..end]) && cookie == end
  {
    ghost var all := l.All();
    more, cookie := entries, start;
    var k := 0;
    while k < |items|
      invariant 0 <= k <= |items| && cookie == start + k && more == Kept(all[..cookie]) && Readable(all[start..cookie])
    {
      var item := items[k];
      ItemAt(l, start, end, k);
      if |item.name| > NAME_LIMIT {
        assert all[start..end][k] == item.name;
        return false, more, cookie;
      }
      OneMore(all, start, cookie);
      cookie := item.cookie;
      more := more + KeptOne(item.name);
      k := k + 1;
    }
    ok := true;
  }

  /**
    The client's loop: whatever the size limits of the replies, it gets every
    entry once, in order, and asks no more often than there are entries.
   */
  method ListDirectory(l: Listing, limits: nat -> nat) returns (ok: bool, entries: seq<string>, calls: nat)
    ensures ok <==> Readable(l.names)
    ensures ok ==> Picks(l.names, entries)
    ensures ok && "." !in l.names && ".." !in l.names ==> entries == l.names
    ensures ok ==> entries == Kept(l.names)
    ensures 1 <= calls <= l.Total()
  {
    var cookie, eof := 0, false;
    entries, calls := [], 0;
    while !eof
      invariant cookie <= l.Total() && calls <= cookie && (eof <==> cookie == l.Total())
      invariant entries == Kept(l.All()[..cookie]) && Readable(l.All()[..cookie])
      invariant cookie > 0 ==> calls > 0
      decreases l.Total() - cookie
    {
      ghost var end;
      var items;
      items, eof, end := Page(l, cookie, limits(calls));
      calls := calls + 1;
      ghost var from := cookie;
      ok, entries, cookie := Take(l, items, entries, cookie, end);
      if !ok {
        NotReadable(l, from, end);
        return false, [], calls;
      }
      ReadableOn(l.All(), from, end);
    }
    ok := true;
    assert l.All()[..l.Total()] == l.All();
    AllKept(l);
    KeptPicks(l.names);
    if "." !in l.names && ".." !in l.names { WithoutDotsAllIsKept(l.names); }
    AllReadable(l);
  }

  lemma ReadableOn(all: seq<string>, from: nat, end: nat)
    requires from <= end <= |all| && Readable(all[..from]) && Readable(all[from..end])
    ensures Readable(all[..end])
  {
    forall k | 0 <= k < end ensures |all[k]| <= NAME_LIMIT {
      if k < from { assert all[..from][k] == all[k]; } else { assert all[from..end][k - from] == all[k]; }
    }
  }

  lemma NotReadable(l: Listing, from: nat, end: nat)
    requires from <= end <= l.Total() && !Readable(l.All()[from..end])
    ensures !Readable(l.names)
  {
    var part := l.All()[from..end];
    var k :| 0 <= k < |part| && |part[k]| > NAME_LIMIT;
    assert part[k] == l.All()[from + k];
    assert l.All()[from + k] == l.names[from + k - 2];
  }

  lemma AllKept(l: Listing)
    ensures Kept(l.All()) == Kept(l.names)
  {
    KeptAppend([".", ".."], l.names);
    DotsGo();
  }

  lemma DotsGo()
    ensures Kept([".", ".."]) == []
  {
    assert KeptOne(".") == [] && KeptOne("..") == [];
    assert ["."][..0] == [] && Kept(["."]) == [];
    assert [".", ".."][..1] == ["."];
  }

  lemma AllReadable(l: Listing)
    ensures Readable(l.All()) <==> Readable(l.names)
  {
    assert forall k :: 0 <= k < |l.names| ==> l.All()[k + 2] == l.names[k];
  }

  lemma {:induction false} KeptAppend(a: seq<string>, b: seq<string>)
    ensures Kept(a + b) == Kept(a) + Kept(b)
  {
    if b == [] {
      assert a + b == a;
    } else {
      var front, last := b[..|b| - 1], b[|b| - 1];
      KeptAppend(a, front);
      assert (a + b)[..|a + b| - 1] == a + front && (a + b)[|a + b| - 1] == last;
      Regroup(Kept(a), Kept(front), KeptOne(last));
    }
  }

  lemma Regroup(a: seq<string>, b: seq<string>, c: seq<string>)
    ensures a + b + c == a + (b + c)
  {
  }
}
