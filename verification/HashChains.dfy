/** Buckets threaded through one array of heads and one of links, latest entry first. */
module HashChains {
  import opened Bytes

  /** The entries below `k` whose key is `t`, latest first. */
  function Bucket(keys: seq<nat>, t: nat, k: nat): seq<nat>
    requires k <= |keys|
  {
    if k == 0 then []
    else if keys[k - 1] == t then [k - 1] + Bucket(keys, t, k - 1)
    else Bucket(keys, t, k - 1)
  }

  /** The latest entry below `k` whose key is `t`, or -1. */
  function Head(keys: seq<nat>, t: nat, k: nat): (h: int)
    requires k <= |keys|
    ensures -1 <= h < k
  {
    if k == 0 then -1 else if keys[k - 1] == t then k - 1 else Head(keys, t, k - 1)
  }

  /** The two arrays after the first `k` entries have been threaded in. */
  ghost predicate Threaded(keys: seq<nat>, heads: seq<int>, links: seq<int>, k: nat) {
    && k <= |keys| == |links|
    && (forall t :: 0 <= t < |heads| ==> heads[t] == Head(keys, t, k))
    && (forall i :: 0 <= i < k ==> links[i] == Head(keys, keys[i], i))
  }

  lemma ThreadOne(keys: seq<nat>, heads: seq<int>, links: seq<int>, k: nat)
    requires Threaded(keys, heads, links, k) && k < |keys| && keys[k] < |heads|
    ensures Threaded(keys, heads[keys[k] := k], links[k := heads[keys[k]]], k + 1)
  {
  }

  /** Threads every entry in, in order. */
  method Thread(keys: seq<nat>, size: nat) returns (heads: seq<int>, links: seq<int>)
    requires forall i :: 0 <= i < |keys| ==> keys[i] < size
    ensures |heads| == size && Threaded(keys, heads, links, |keys|)
  {
    heads := seq(size, _ => -1);
    links := seq(|keys|, _ => -1);
    for i := 0 to |keys|
      invariant |heads| == size && Threaded(keys, heads, links, i)
    {
      ThreadOne(keys, heads, links, i);
      links := links[i := heads[keys[i]]];
      heads := heads[keys[i] := i];
    }
  }

  lemma {:induction false} BucketHolds(keys: seq<nat>, t: nat, k: nat)
    requires k <= |keys|
    ensures forall i: nat :: i in Bucket(keys, t, k) <==> i < k && keys[i] == t
  {
    if k > 0 { BucketHolds(keys, t, k - 1); }
  }

  /** Latest first: the entries of a bucket decrease. */
  lemma {:induction false} BucketDescends(keys: seq<nat>, t: nat, k: nat)
    requires k <= |keys|
    ensures Descends(Bucket(keys, t, k))
  {
    if k > 0 {
      BucketDescends(keys, t, k - 1);
      BucketHolds(keys, t, k - 1);
      var rest := Bucket(keys, t, k - 1);
      forall b | 0 <= b < |rest| ensures k - 1 > rest[b] {
        assert rest[b] in rest;
      }
    }
  }

  predicate Descends(s: seq<nat>) {
    forall a, b :: 0 <= a < b < |s| ==> s[a] > s[b]
  }

  /** After the head of a bucket comes the bucket below it. */
  lemma {:induction false} BucketUnchains(keys: seq<nat>, t: nat, k: nat)
    requires k <= |keys|
    ensures var i := Head(keys, t, k);
      Bucket(keys, t, k) == if i < 0 then [] else [i] + Bucket(keys, t, i)
    ensures Head(keys, t, k) >= 0 ==> keys[Head(keys, t, k)] == t
  {
    if k > 0 && keys[k - 1] != t { BucketUnchains(keys, t, k - 1); }
  }

  /**
    The choice among candidates: nothing only if none passes; the wanted one
    whenever it passes; otherwise the first that does.
   */
  ghost predicate Picked(candidates: seq<nat>, hit: nat -> bool, want: int, r: int) {
    && (r < 0 ==> r == -1 && forall c :: 0 <= c < |candidates| ==> !hit(candidates[c]))
    && (r >= 0 ==> r in candidates && hit(r))
    && (forall c :: 0 <= c < |candidates| && candidates[c] == want && hit(candidates[c]) ==> r == want)
    && (r >= 0 && r != want ==> forall c :: 0 <= c < |candidates| && hit(candidates[c]) ==> candidates[c] <= r)
  }

  lemma PickedMore(candidates: seq<nat>, hit: nat -> bool, want: int, best: int, next: nat)
    requires Descends(candidates + [next]) && Picked(candidates, hit, want, best) && (best >= 0 ==> best != want)
    ensures hit(next) && next == want ==> Picked(candidates + [next], hit, want, next)
    ensures !(hit(next) && next == want) ==>
      Picked(candidates + [next], hit, want, if hit(next) && best < 0 then next else best)
  {
    var more := candidates + [next];
    assert more[|candidates|] == next;
    forall c | 0 <= c < |candidates| ensures more[c] == candidates[c] > next {
      assert more[c] > more[|candidates|];
    }
  }

  /** An early return of the wanted candidate is the choice over all of them. */
  lemma PickedWanted(candidates: seq<nat>, hit: nat -> bool, want: nat)
    requires want in candidates && hit(want)
    ensures Picked(candidates, hit, want, want)
  {
  }

  /** The part of a bucket that a search bounded to `bound` entries looks at. */
  function Within(keys: seq<nat>, t: nat, bound: nat): seq<nat> {
    var all := Bucket(keys, t, |keys|);
    all[..Min(bound, |all|)]
  }

  function At(s: seq<nat>, n: nat): int {
    if n < |s| then s[n] else -1
  }

  /** The links lead through the bucket in order. */
  lemma {:induction false} LinksFollow(keys: seq<nat>, t: nat, k: nat, n: nat)
    requires k <= |keys| && n < |Bucket(keys, t, k)|
    ensures var all := Bucket(keys, t, k);
      all[n] < k && keys[all[n]] == t && Head(keys, t, all[n]) == At(all, n + 1) && Head(keys, t, k) == all[0]
    decreases n
  {
    var i := Head(keys, t, k);
    BucketUnchains(keys, t, k);
    BucketUnchains(keys, t, i);
    if n > 0 { LinksFollow(keys, t, i, n - 1); }
  }

  /** Follows the links of one bucket, testing at most `bound` entries. */
  method Follow(ghost keys: seq<nat>, heads: seq<int>, links: seq<int>, t: nat, bound: nat, hit: nat -> bool, want: int)
    returns (r: int)
    requires Threaded(keys, heads, links, |keys|) && t < |heads|
    ensures Picked(Within(keys, t, bound), hit, want, r)
  {
    var i, best, chainLen := heads[t], -1, 0;
    ghost var all := Bucket(keys, t, |keys|);
    BucketDescends(keys, t, |keys|);
    BucketUnchains(keys, t, |keys|);
    while i >= 0
      invariant 0 <= chainLen <= Min(bound, |all|) && i == At(all, chainLen)
      invariant Picked(all[..chainLen], hit, want, best) && (best >= 0 ==> best != want)
      decreases |all| - chainLen
    {
      if chainLen + 1 > bound { return best; }
      LinksFollow(keys, t, |keys|, chainLen);
      if hit(i) && i == want {
        Reached(all, chainLen, bound);
        PickedWanted(Within(keys, t, bound), hit, i);
        return i;
      }
      Looked(all, chainLen, hit, want, best);
      if hit(i) && best < 0 { best := i; }
      chainLen := chainLen + 1;
      i := links[i];
    }
    return best;
  }

  lemma Reached(all: seq<nat>, n: nat, bound: nat)
    requires n < |all| && n < bound
    ensures all[n] in all[..Min(bound, |all|)]
  {
    assert all[..Min(bound, |all|)][n] == all[n];
  }

  lemma Looked(all: seq<nat>, n: nat, hit: nat -> bool, want: int, best: int)
    requires Descends(all) && n < |all| && Picked(all[..n], hit, want, best) && (best >= 0 ==> best != want)
    requires !(hit(all[n]) && all[n] == want)
    ensures Picked(all[..n + 1], hit, want, if hit(all[n]) && best < 0 then all[n] else best)
  {
    assert all[..n + 1] == all[..n] + [all[n]];
    PickedMore(all[..n], hit, want, best, all[n]);
  }
}
