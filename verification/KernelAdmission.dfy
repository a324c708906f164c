/**
  Transfers a kernel connection admits at once, and the landing buffers of its
  tcp reads: one per admitted transfer, so an admitted read always finds one.
 */
module KernelAdmission {
  const CONN_DEPTH: nat := 16

  class Admission {
    var transfers: nat
    var landingFree: seq<bool>
    var dead: bool
    ghost var admitted: set<nat>
    ghost var landing: map<nat, nat>

    /** Every admitted caller is counted; a caller with a buffer is admitted, and no two share one. */
    ghost predicate Valid()
      reads this
    {
      && transfers == |admitted| <= CONN_DEPTH && |landingFree| == CONN_DEPTH
      && landing.Keys <= admitted
      && (forall c :: c in landing ==> landing[c] < CONN_DEPTH && !landingFree[landing[c]])
      && (forall c, d :: c in landing && d in landing && c != d ==> landing[c] != landing[d])
      && (forall i :: 0 <= i < CONN_DEPTH && !landingFree[i] ==> i in landing.Values)
    }

    constructor ()
      ensures Valid() && admitted == {} && landing == map[]
    {
      transfers, landingFree, dead := 0, seq(CONN_DEPTH, _ => true), false;
      admitted, landing := {}, map[];
    }

    /** False when the connection is dead, or full and the caller would wait. */
    method Admit(c: nat) returns (ok: bool)
      requires Valid() && c !in admitted
      modifies this`transfers, this`admitted
      ensures Valid() && ok == (!dead && old(transfers) < CONN_DEPTH)
      ensures admitted == old(admitted) + if ok then {c} else {}
    {
      if dead || transfers >= CONN_DEPTH { return false; }
      transfers := transfers + 1;
      admitted := admitted + {c};
      return true;
    }

    method Leave(c: nat)
      requires Valid() && c in admitted && c !in landing
      modifies this`transfers, this`admitted
      ensures Valid() && admitted == old(admitted) - {c}
    {
      transfers := transfers - 1;
      admitted := admitted - {c};
    }

    /**
      The first free buffer, or -1 when the memory for one cannot be had. The
      source's third exit, no buffer free, does not exist for an admitted caller.
     */
    method LandingTake(c: nat, allocates: bool) returns (at: int)
      requires Valid() && c in admitted && c !in landing
      modifies this`landingFree, this`landing
      ensures Valid() && (at >= 0 <==> allocates)
      ensures at >= 0 ==> at < CONN_DEPTH && old(landingFree)[at] && forall i :: 0 <= i < at ==> !old(landingFree)[i]
      ensures at >= 0 ==> landing == old(landing)[c := at] && landingFree == old(landingFree)[at := false]
      ensures at < 0 ==> landing == old(landing) && landingFree == old(landingFree)
    {
      SomeBufferIsFree(c);
      var i := 0;
      while i < CONN_DEPTH && !landingFree[i]
        invariant 0 <= i <= CONN_DEPTH && forall j :: 0 <= j < i ==> !landingFree[j]
      {
        i := i + 1;
      }
      if !allocates { return -1; }
      landingFree := landingFree[i := false];
      landing := landing[c := i];
      forall j | 0 <= j < CONN_DEPTH && !landingFree[j] ensures j in landing.Values {
        if j == i {
          assert landing[c] == i;
        } else {
          var d :| d in old(landing) && old(landing)[d] == j;
          assert landing[d] == j;
        }
      }
      return i;
    }

    method LandingGive(ghost c: nat, at: nat)
      requires Valid() && c in landing && landing[c] == at
      modifies this`landingFree, this`landing
      ensures Valid() && landing == old(landing) - {c}
      ensures landingFree == old(landingFree)[at := true]
    {
      landingFree := landingFree[at := true];
      landing := landing - {c};
      forall j | 0 <= j < CONN_DEPTH && !landingFree[j] ensures j in landing.Values {
        var d :| d in old(landing) && old(landing)[d] == j;
        assert landing[d] == j;
      }
    }

    lemma SomeBufferIsFree(c: nat)
      requires Valid() && c in admitted && c !in landing
      ensures exists i :: 0 <= i < CONN_DEPTH && landingFree[i]
    {
      assert landing.Keys <= admitted - {c};
      SubsetSize(landing.Keys, admitted - {c});
      if forall i :: 0 <= i < CONN_DEPTH ==> i in landing.Values { Pigeonhole(CONN_DEPTH, landing); }
    }
  }

  lemma SubsetSize(a: set<nat>, b: set<nat>)
    requires a <= b
    ensures |a| <= |b|
  {
    assert b == a + (b - a);
  }

  /** A map that reaches every number below `n` has at least `n` keys. */
  lemma {:induction false} Pigeonhole(n: nat, m: map<nat, nat>)
    requires forall i :: 0 <= i < n ==> i in m.Values
    ensures n <= |m.Keys|
  {
    if n > 0 {
      assert n - 1 in m.Values;
      var k :| k in m && m[k] == n - 1;
      var rest := m - {k};
      forall i | 0 <= i < n - 1 ensures i in rest.Values {
        assert i in m.Values;
        var d :| d in m && m[d] == i;
        assert d in rest && rest[d] == i;
      }
      Pigeonhole(n - 1, rest);
      assert rest.Keys == m.Keys - {k};
    }
  }
}
