/**
  The inode table of the FUSE mount: nodes by number, numbers by parent and
  name, and the paths they stand for.
 */
module Inodes {
  const ROOT_INO: nat := 1
  const LISTED_LIMIT: nat := 65536

  // ----- Keys -----

  function Decimal(n: nat): (s: string)
    ensures |s| >= 1 && (|s| == 1 <==> n < 10) && forall c :: c in s ==> '0' <= c <= '9'
  {
    var digit := '0' + (n % 10) as char;
    if n < 10 then [digit] else Decimal(n / 10) + [digit]
  }

  function KeyOf(parent: nat, name: string): string {
    Decimal(parent) + "/" + name
  }

  lemma {:induction false} DecimalInjective(a: nat, b: nat)
    requires Decimal(a) == Decimal(b)
    ensures a == b
  {
    var s, t := Decimal(a), Decimal(b);
    assert s[|s| - 1] == t[|t| - 1];
    if a >= 10 {
      assert s[..|s| - 1] == Decimal(a / 10) && t[..|t| - 1] == Decimal(b / 10);
      DecimalInjective(a / 10, b / 10);
    }
  }

  /** The first slash of a key ends the number, whatever the name holds. */
  lemma KeyInjective(p: nat, m: string, q: nat, n: string)
    requires KeyOf(p, m) == KeyOf(q, n)
    ensures p == q && m == n
  {
    var s, t, key := Decimal(p), Decimal(q), KeyOf(p, m);
    assert key[|s|] == '/' && key[|t|] == '/';
    assert forall k :: 0 <= k < |s| ==> key[k] == s[k] && s[k] in s;
    assert forall k :: 0 <= k < |t| ==> key[k] == t[k] && t[k] in t;
    assert |s| == |t|;
    assert s == key[..|s|] && t == key[..|t|];
    assert m == key[|s| + 1..] && n == key[|t| + 1..];
    DecimalInjective(p, q);
  }

  // ----- The table -----

  datatype Node = Node(parent: nat, name: string, refs: nat, kids: int)
  datatype Table = Table(nodes: map<nat, Node>, byName: map<string, nat>, next: nat)

  function Counted(nodes: map<nat, Node>, p: nat, change: int): map<nat, Node> {
    if p in nodes then nodes[p := nodes[p].(kids := nodes[p].kids + change)] else nodes
  }

  function Created(t: Table, parent: nat, name: string, refs: nat): Table {
    var nodes := t.nodes[t.next := Node(parent, name, refs, 0)];
    var key := KeyOf(parent, name);
    Table(Counted(nodes, parent, 1), if key in t.byName then t.byName else t.byName[key := t.next], t.next + 1)
  }

  function Erased(t: Table, i: nat): Table
    requires i in t.nodes
  {
    var n := t.nodes[i];
    Table(Counted(t.nodes, n.parent, -1) - {i}, t.byName - {KeyOf(n.parent, n.name)}, t.next)
  }

  function Moved(nodes: map<nat, Node>, m: nat, parent: nat, name: string): map<nat, Node>
    requires m in nodes
  {
    var away := Counted(nodes, nodes[m].parent, -1);
    Counted(away[m := away[m].(parent := parent, name := name)], parent, 1)
  }

  function Reparented(t: Table, parent: nat, name: string, newParent: nat, newName: string): Table
    requires Inverse(t)
  {
    var key, to := KeyOf(parent, name), KeyOf(newParent, newName);
    if key !in t.byName then t
    else
      var moving := t.byName[key];
      var names := t.byName - {key};
      var rest := if to in names && names[to] in t.nodes
                  then Counted(t.nodes, t.nodes[names[to]].parent, -1) - {names[to]} else t.nodes;
      assert to in names ==> names[to] != moving;
      Table(Moved(rest, moving, newParent, newName), names[to := moving], t.next)
  }

  /** Names lead to the nodes that carry them, and every node is found under its name. */
  predicate Inverse(t: Table) {
    && (forall k :: k in t.byName ==> t.byName[k] in t.nodes && KeyOf(t.nodes[t.byName[k]].parent, t.nodes[t.byName[k]].name) == k)
    && (forall i :: i in t.nodes ==> Named(t, i))
  }

  predicate Named(t: Table, i: nat)
    requires i in t.nodes
  {
    var key := KeyOf(t.nodes[i].parent, t.nodes[i].name);
    key in t.byName && t.byName[key] == i
  }

  function Children(nodes: map<nat, Node>, p: nat): set<nat> {
    set c | c in nodes && nodes[c].parent == p
  }

  predicate KidsOk(nodes: map<nat, Node>) {
    forall p :: p in nodes ==> nodes[p].kids == |Children(nodes, p)|
  }

  predicate Numbered(t: Table) {
    ROOT_INO < t.next && forall i :: i in t.nodes ==> ROOT_INO < i < t.next && t.nodes[i].parent < t.next
  }

  /** Every parent that is present ranks below its children, so no walk up goes round. */
  ghost predicate Ranks(nodes: map<nat, Node>, rank: nat -> nat) {
    forall i :: i in nodes && nodes[i].parent in nodes ==> rank(nodes[i].parent) < rank(i)
  }

  ghost predicate Inv(t: Table, rank: nat -> nat) {
    Inverse(t) && KidsOk(t.nodes) && Numbered(t) && Ranks(t.nodes, rank)
  }

  // ----- Creating and erasing -----

  lemma CreatedKids(t: Table, parent: nat, name: string, refs: nat)
    requires KidsOk(t.nodes) && Numbered(t) && parent < t.next
    ensures KidsOk(Created(t, parent, name, refs).nodes)
  {
    var after := Created(t, parent, name, refs).nodes;
    forall p | p in after ensures after[p].kids == |Children(after, p)| {
      CreatedChildren(t, parent, name, refs, p);
      assert p == t.next ==> Children(t.nodes, p) == {};
    }
  }

  lemma CreatedChildren(t: Table, parent: nat, name: string, refs: nat, p: nat)
    requires Numbered(t)
    ensures Children(Created(t, parent, name, refs).nodes, p) == Children(t.nodes, p) + if p == parent then {t.next} else {}
    ensures t.next !in Children(t.nodes, p)
  {
  }

  lemma CreatedInverse(t: Table, parent: nat, name: string, refs: nat)
    requires Inverse(t) && Numbered(t) && parent < t.next && KeyOf(parent, name) !in t.byName
    ensures Inverse(Created(t, parent, name, refs))
  {
    var u := Created(t, parent, name, refs);
    forall i | i in u.nodes ensures Named(u, i) {
      if i != t.next { assert Named(t, i); }
    }
  }

  lemma CreatedRanks(t: Table, rank: nat -> nat, parent: nat, name: string, refs: nat)
    requires Ranks(t.nodes, rank) && Numbered(t) && parent < t.next
    ensures Ranks(Created(t, parent, name, refs).nodes, Above(rank, t.next, parent))
  {
    var after := Created(t, parent, name, refs).nodes;
    forall i | i in after && after[i].parent in after ensures Above(rank, t.next, parent)(after[i].parent) < Above(rank, t.next, parent)(i) {
      assert i != t.next ==> after[i].parent == t.nodes[i].parent;
    }
  }

  /** The ranking with `n` put just above `below`. */
  ghost function Above(rank: nat -> nat, n: nat, below: nat): nat -> nat {
    x => if x == n then rank(below) + 1 else rank(x)
  }

  /** A new name gets a number never used before, and the table stays whole. */
  lemma CreateKeeps(t: Table, rank: nat -> nat, parent: nat, name: string, refs: nat)
    requires Inv(t, rank) && parent < t.next && KeyOf(parent, name) !in t.byName
    ensures Inv(Created(t, parent, name, refs), Above(rank, t.next, parent))
  {
    CreatedKids(t, parent, name, refs);
    CreatedInverse(t, parent, name, refs);
    CreatedRanks(t, rank, parent, name, refs);
    CreatedNumbered(t, parent, name, refs);
  }

  lemma CreatedNumbered(t: Table, parent: nat, name: string, refs: nat)
    requires Numbered(t) && parent < t.next
    ensures Numbered(Created(t, parent, name, refs))
  {
  }

  lemma ErasedKids(nodes: map<nat, Node>, i: nat)
    requires KidsOk(nodes) && i in nodes
    ensures KidsOk(Counted(nodes, nodes[i].parent, -1) - {i})
  {
    var after := Counted(nodes, nodes[i].parent, -1) - {i};
    forall p | p in after ensures after[p].kids == |Children(after, p)| {
      if p == nodes[i].parent {
        assert i in Children(nodes, p);
        assert Children(after, p) == Children(nodes, p) - {i};
      } else {
        assert Children(after, p) == Children(nodes, p);
      }
    }
  }

  lemma ErasedInverse(t: Table, i: nat)
    requires Inverse(t) && i in t.nodes
    ensures Inverse(Erased(t, i))
  {
    var u := Erased(t, i);
    assert Named(t, i);
    forall j | j in u.nodes ensures Named(u, j) {
      assert Named(t, j);
    }
    forall k | k in u.byName ensures u.byName[k] in u.nodes && KeyOf(u.nodes[u.byName[k]].parent, u.nodes[u.byName[k]].name) == k {
      assert t.byName[k] in t.nodes;
    }
  }

  lemma EraseKeeps(t: Table, rank: nat -> nat, i: nat)
    requires Inv(t, rank) && i in t.nodes
    ensures Inv(Erased(t, i), rank)
  {
    ErasedKids(t.nodes, i);
    ErasedInverse(t, i);
  }

  // ----- Walking up -----

  /** Going up from `i` by these names, the last one first, arrives at `top`. */
  predicate Climb(nodes: map<nat, Node>, i: nat, names: seq<string>, top: nat)
    decreases |names|
  {
    if names == [] then i == top
    else i in nodes && nodes[i].name == names[|names| - 1] && Climb(nodes, nodes[i].parent, names[..|names| - 1], top)
  }

  ghost predicate Under(nodes: map<nat, Node>, i: nat, top: nat) {
    exists names :: Climb(nodes, i, names, top)
  }

  lemma {:induction false} ClimbOn(nodes: map<nat, Node>, i: nat, low: seq<string>, mid: nat, high: seq<string>, top: nat)
    requires Climb(nodes, i, low, mid) && Climb(nodes, mid, high, top)
    ensures Climb(nodes, i, high + low, top)
    decreases |low|
  {
    if low == [] {
      assert high + low == high;
    } else {
      ClimbOn(nodes, nodes[i].parent, low[..|low| - 1], mid, high, top);
      assert (high + low)[..|high + low| - 1] == high + low[..|low| - 1];
    }
  }

  lemma OneUp(nodes: map<nat, Node>, i: nat)
    requires i in nodes
    ensures Climb(nodes, i, [nodes[i].name], nodes[i].parent)
  {
    assert Climb(nodes, nodes[i].parent, [], nodes[i].parent);
    assert [nodes[i].name][..0] == [];
  }

  /** A node other than the top is under it exactly when its parent is. */
  lemma UnderByParent(nodes: map<nat, Node>, i: nat, top: nat)
    requires i in nodes && i != top
    ensures Under(nodes, i, top) <==> Under(nodes, nodes[i].parent, top)
  {
    if Under(nodes, i, top) {
      var names :| Climb(nodes, i, names, top);
      assert Climb(nodes, nodes[i].parent, names[..|names| - 1], top);
    }
    if Under(nodes, nodes[i].parent, top) {
      var names :| Climb(nodes, nodes[i].parent, names, top);
      OneUp(nodes, i);
      ClimbOn(nodes, i, [nodes[i].name], nodes[i].parent, names, top);
    }
  }

  lemma UnderItself(nodes: map<nat, Node>, i: nat)
    ensures Under(nodes, i, i)
  {
    assert Climb(nodes, i, [], i);
  }

  lemma {:induction false} ClimbRanks(nodes: map<nat, Node>, rank: nat -> nat, i: nat, names: seq<string>, top: nat)
    requires Ranks(nodes, rank) && Climb(nodes, i, names, top) && names != [] && top in nodes
    ensures rank(top) < rank(i)
    decreases |names|
  {
    if |names| > 1 {
      ClimbRanks(nodes, rank, nodes[i].parent, names[..|names| - 1], top);
    }
  }

  /** A number has one path to the root. */
  lemma {:induction false} OnePath(nodes: map<nat, Node>, i: nat, a: seq<string>, b: seq<string>)
    requires ROOT_INO !in nodes && Climb(nodes, i, a, ROOT_INO) && Climb(nodes, i, b, ROOT_INO)
    ensures a == b
    decreases |a|
  {
    if a != [] {
      OnePath(nodes, nodes[i].parent, a[..|a| - 1], b[..|b| - 1]);
      assert a == a[..|a| - 1] + [a[|a| - 1]] && b == b[..|b| - 1] + [b[|b| - 1]];
    }
  }

  /** The walk takes no step from a node of `bad`. */
  predicate Avoids(nodes: map<nat, Node>, i: nat, names: seq<string>, bad: set<nat>)
    decreases |names|
  {
    if names == [] then true
    else i in nodes && i !in bad && Avoids(nodes, nodes[i].parent, names[..|names| - 1], bad)
  }

  predicate SameElse(nodes: map<nat, Node>, after: map<nat, Node>, bad: set<nat>) {
    forall x :: x in nodes && x !in bad ==> x in after && after[x].parent == nodes[x].parent && after[x].name == nodes[x].name
  }

  lemma {:induction false} ClimbKept(nodes: map<nat, Node>, after: map<nat, Node>, bad: set<nat>, i: nat, names: seq<string>, top: nat)
    requires SameElse(nodes, after, bad) && Climb(nodes, i, names, top) && Avoids(nodes, i, names, bad)
    ensures Climb(after, i, names, top)
    decreases |names|
  {
    if names != [] { ClimbKept(nodes, after, bad, nodes[i].parent, names[..|names| - 1], top); }
  }

  /** A walk that passes nothing it is not under. */
  lemma {:induction false} AvoidsStrangers(
    nodes: map<nat, Node>, rank: nat -> nat, i: nat, names: seq<string>, top: nat, bad: set<nat>)
    requires Ranks(nodes, rank) && Climb(nodes, i, names, top) && (top in bad ==> top in nodes)
    requires forall m :: m in bad && m != top ==> !Under(nodes, i, m)
    ensures Avoids(nodes, i, names, bad)
    decreases |names|
  {
    if names != [] {
      UnderItself(nodes, i);
      if top in bad {
        ClimbRanks(nodes, rank, i, names, top);
      }
      forall m | m in bad && m != top ensures !Under(nodes, nodes[i].parent, m) {
        UnderByParent(nodes, i, m);
      }
      AvoidsStrangers(nodes, rank, nodes[i].parent, names[..|names| - 1], top, bad);
    }
  }

  /** A walk up to a node passes nothing outside that node's subtree. */
  lemma {:induction false} AvoidsOutsiders(
    nodes: map<nat, Node>, rank: nat -> nat, i: nat, names: seq<string>, top: nat, bad: set<nat>)
    requires Ranks(nodes, rank) && Climb(nodes, i, names, top) && top in nodes
    requires forall m :: m in bad && m != top ==> !Under(nodes, m, top)
    ensures Avoids(nodes, i, names, bad)
    decreases |names|
  {
    if names != [] {
      ClimbRanks(nodes, rank, i, names, top);
      AvoidsOutsiders(nodes, rank, nodes[i].parent, names[..|names| - 1], top, bad);
    }
  }

  // ----- Renaming -----

  /** The ranking after `m` has moved under `p`: the moved subtree is lifted over its new parent. */
  ghost function Lifted(nodes: map<nat, Node>, rank: nat -> nat, m: nat, p: nat): nat -> nat {
    x => if Under(nodes, x, m) then rank(x) + rank(p) + 1 else rank(x)
  }

  lemma MovedRanks(nodes: map<nat, Node>, rank: nat -> nat, m: nat, parent: nat, name: string)
    requires Ranks(nodes, rank) && m in nodes && !Under(nodes, parent, m)
    ensures Ranks(Moved(nodes, m, parent, name), Lifted(nodes, rank, m, parent))
  {
    var after, lifted := Moved(nodes, m, parent, name), Lifted(nodes, rank, m, parent);
    UnderItself(nodes, m);
    forall x | x in after && after[x].parent in after ensures lifted(after[x].parent) < lifted(x) {
      if x != m {
        UnderByParent(nodes, x, m);
        assert after[x].parent == nodes[x].parent;
      }
    }
  }

  lemma MovedKids(nodes: map<nat, Node>, m: nat, parent: nat, name: string)
    requires KidsOk(nodes) && m in nodes && nodes[m].parent != m && parent != m
    ensures KidsOk(Moved(nodes, m, parent, name))
  {
    var after, from := Moved(nodes, m, parent, name), nodes[m].parent;
    forall p | p in after ensures after[p].kids == |Children(after, p)| {
      MovedCount(nodes, m, parent, name, p);
      MovedChildren(nodes, m, parent, name, p);
      assert p == from ==> m in Children(nodes, p);
      assert p != from ==> m !in Children(nodes, p);
    }
  }

  lemma MovedCount(nodes: map<nat, Node>, m: nat, parent: nat, name: string, p: nat)
    requires m in nodes && nodes[m].parent != m && parent != m && p in nodes
    ensures var after := Moved(nodes, m, parent, name);
      p in after && after[p].kids == nodes[p].kids + (if p == parent then 1 else 0) - (if p == nodes[m].parent then 1 else 0)
  {
  }

  lemma MovedChildren(nodes: map<nat, Node>, m: nat, parent: nat, name: string, p: nat)
    requires m in nodes
    ensures Children(Moved(nodes, m, parent, name), p) == Children(nodes, p) - {m} + if p == parent then {m} else {}
  {
    MovedShape(nodes, m, parent, name);
  }

  lemma MovedShape(nodes: map<nat, Node>, m: nat, parent: nat, name: string)
    requires m in nodes
    ensures var after := Moved(nodes, m, parent, name);
      && after.Keys == nodes.Keys && SameElse(nodes, after, {m}) && after[m].parent == parent && after[m].name == name
  {
  }

  function MovedTable(t: Table, m: nat, parent: nat, name: string): Table
    requires m in t.nodes
  {
    var key := KeyOf(t.nodes[m].parent, t.nodes[m].name);
    Table(Moved(t.nodes, m, parent, name), (t.byName - {key})[KeyOf(parent, name) := m], t.next)
  }

  lemma MovedInverse(t: Table, m: nat, parent: nat, name: string)
    requires Inverse(t) && m in t.nodes && (KeyOf(parent, name) in t.byName ==> t.byName[KeyOf(parent, name)] == m)
    ensures Inverse(MovedTable(t, m, parent, name))
  {
    var u, key, to := MovedTable(t, m, parent, name), KeyOf(t.nodes[m].parent, t.nodes[m].name), KeyOf(parent, name);
    assert Named(t, m);
    forall i | i in u.nodes ensures Named(u, i) {
      assert Named(t, i);
    }
    forall k | k in u.byName ensures u.byName[k] in u.nodes && KeyOf(u.nodes[u.byName[k]].parent, u.nodes[u.byName[k]].name) == k {
      assert k != to ==> t.byName[k] in t.nodes;
    }
  }

  lemma MovedNumbered(t: Table, m: nat, parent: nat, name: string)
    requires Numbered(t) && m in t.nodes && parent < t.next
    ensures Numbered(MovedTable(t, m, parent, name))
  {
  }

  lemma MoveKeeps(t: Table, rank: nat -> nat, m: nat, parent: nat, name: string)
    requires Inv(t, rank) && m in t.nodes && (KeyOf(parent, name) in t.byName ==> t.byName[KeyOf(parent, name)] == m)
    requires parent < t.next && !Under(t.nodes, parent, m)
    ensures Inv(MovedTable(t, m, parent, name), Lifted(t.nodes, rank, m, parent))
  {
    UnderItself(t.nodes, m);
    assert t.nodes[m].parent != m && parent != m;
    MovedInverse(t, m, parent, name);
    MovedNumbered(t, m, parent, name);
    MovedKids(t.nodes, m, parent, name);
    MovedRanks(t.nodes, rank, m, parent, name);
  }

  /** The table once the node in the way of a rename is gone. */
  function Cleared(t: Table, parent: nat, name: string, newParent: nat, newName: string): Table
    requires Inverse(t)
  {
    var key, to := KeyOf(parent, name), KeyOf(newParent, newName);
    if to in t.byName && to != key then Erased(t, t.byName[to]) else t
  }

  /** What a rename may disturb: the node it moves and the one it replaces. */
  function Touched(t: Table, parent: nat, name: string, newParent: nat, newName: string): set<nat> {
    var key, to := KeyOf(parent, name), KeyOf(newParent, newName);
    (if key in t.byName then {t.byName[key]} else {}) + (if to in t.byName then {t.byName[to]} else {})
  }

  lemma ReparentedIsMoved(t: Table, parent: nat, name: string, newParent: nat, newName: string)
    requires Inverse(t) && KeyOf(parent, name) in t.byName
    ensures var m := t.byName[KeyOf(parent, name)];
      var c := Cleared(t, parent, name, newParent, newName);
      && m in c.nodes && KeyOf(c.nodes[m].parent, c.nodes[m].name) == KeyOf(parent, name)
      && Reparented(t, parent, name, newParent, newName) == MovedTable(c, m, newParent, newName)
      && (KeyOf(newParent, newName) in c.byName ==> c.byName[KeyOf(newParent, newName)] == m)
  {
    var key, to := KeyOf(parent, name), KeyOf(newParent, newName);
    var m, c := t.byName[key], Cleared(t, parent, name, newParent, newName);
    if to in t.byName && to != key {
      var target := t.byName[to];
      assert target != m;
      assert (t.byName - {to} - {key})[to := m] == (t.byName - {key})[to := m];
    }
  }

  lemma ReparentTouches(t: Table, parent: nat, name: string, newParent: nat, newName: string)
    requires Inverse(t) && KeyOf(parent, name) in t.byName
    ensures SameElse(t.nodes, Reparented(t, parent, name, newParent, newName).nodes, Touched(t, parent, name, newParent, newName))
    ensures var m := t.byName[KeyOf(parent, name)];
      var after := Reparented(t, parent, name, newParent, newName).nodes;
      m in after && after[m].parent == newParent && after[m].name == newName
  {
    var m, c := t.byName[KeyOf(parent, name)], Cleared(t, parent, name, newParent, newName);
    ReparentedIsMoved(t, parent, name, newParent, newName);
    MovedShape(c.nodes, m, newParent, newName);
  }

  lemma {:induction false} ClimbMore(nodes: map<nat, Node>, after: map<nat, Node>, i: nat, names: seq<string>, top: nat)
    requires SameElse(nodes, after, {}) && Climb(nodes, i, names, top)
    ensures Climb(after, i, names, top)
    decreases |names|
  {
    if names != [] { ClimbMore(nodes, after, nodes[i].parent, names[..|names| - 1], top); }
  }

  lemma StillNotUnder(nodes: map<nat, Node>, after: map<nat, Node>, i: nat, top: nat)
    requires SameElse(nodes, after, {}) && !Under(after, i, top)
    ensures !Under(nodes, i, top)
  {
    forall names ensures !Climb(nodes, i, names, top) {
      if Climb(nodes, i, names, top) { ClimbMore(nodes, after, i, names, top); }
    }
  }

  lemma ClearedKeeps(t: Table, rank: nat -> nat, parent: nat, name: string, newParent: nat, newName: string)
    requires Inv(t, rank)
    ensures var c := Cleared(t, parent, name, newParent, newName); Inv(c, rank) && c.next == t.next && SameElse(c.nodes, t.nodes, {})
  {
    var to := KeyOf(newParent, newName);
    if to in t.byName && to != KeyOf(parent, name) { EraseKeeps(t, rank, t.byName[to]); }
  }

  /** A rename out of the moved subtree keeps the table whole. */
  lemma LegalRenameKeeps(t: Table, rank: nat -> nat, parent: nat, name: string, newParent: nat, newName: string) returns (rank': nat -> nat)
    requires Inv(t, rank) && KeyOf(parent, name) in t.byName && newParent < t.next
    requires !Under(t.nodes, newParent, t.byName[KeyOf(parent, name)])
    ensures Inv(Reparented(t, parent, name, newParent, newName), rank')
  {
    var m := t.byName[KeyOf(parent, name)];
    var c := Cleared(t, parent, name, newParent, newName);
    ReparentedIsMoved(t, parent, name, newParent, newName);
    ClearedKeeps(t, rank, parent, name, newParent, newName);
    StillNotUnder(c.nodes, t.nodes, newParent, m);
    MoveKeeps(c, rank, m, newParent, newName);
    rank' := Lifted(c.nodes, rank, m, newParent);
  }

  /** The node a rename replaces is not above the directory it lies in. */
  lemma TargetNotAbove(t: Table, rank: nat -> nat, newParent: nat, newName: string)
    requires Inv(t, rank) && KeyOf(newParent, newName) in t.byName
    ensures var target := t.byName[KeyOf(newParent, newName)];
      target in t.nodes && t.nodes[target].parent == newParent && !Under(t.nodes, newParent, target)
  {
    var target := t.byName[KeyOf(newParent, newName)];
    KeyInjective(t.nodes[target].parent, t.nodes[target].name, newParent, newName);
    forall names ensures !Climb(t.nodes, newParent, names, target) {
      if Climb(t.nodes, newParent, names, target) {
        OneUp(t.nodes, target);
        ClimbOn(t.nodes, target, [t.nodes[target].name], newParent, names, target);
        ClimbRanks(t.nodes, rank, target, names + [t.nodes[target].name], target);
      }
    }
  }

  /** Two walks up from one node: the longer goes on from where the shorter ends. */
  lemma {:induction false} OneWayUp(nodes: map<nat, Node>, i: nat, a: seq<string>, x: nat, b: seq<string>, y: nat)
    requires Climb(nodes, i, a, x) && Climb(nodes, i, b, y) && |a| <= |b|
    ensures Climb(nodes, x, b[..|b| - |a|], y)
    decreases |a|
  {
    if a == [] {
      assert b[..|b|] == b;
    } else {
      OneWayUp(nodes, nodes[i].parent, a[..|a| - 1], x, b[..|b| - 1], y);
      assert b[..|b| - 1][..|b| - |a|] == b[..|b| - |a|];
    }
  }

  /** From a node that is its own ancestor, no number of steps up arrives at the root. */
  lemma {:induction false} LoopMissesRoot(nodes: map<nat, Node>, m: nat, round: seq<string>, up: seq<string>)
    requires ROOT_INO !in nodes && m in nodes && round != [] && Climb(nodes, m, round, m)
    ensures !Climb(nodes, m, up, ROOT_INO)
    decreases |up|
  {
    if Climb(nodes, m, up, ROOT_INO) {
      if |up| <= |round| {
        OneWayUp(nodes, m, up, ROOT_INO, round, m);
      } else {
        OneWayUp(nodes, m, round, m, up, ROOT_INO);
        LoopMissesRoot(nodes, m, round, up[..|up| - |round|]);
      }
    }
  }

  lemma LoopCutsOff(nodes: map<nat, Node>, m: nat, round: seq<string>, i: nat)
    requires ROOT_INO !in nodes && m in nodes && round != [] && Climb(nodes, m, round, m) && Under(nodes, i, m)
    ensures !Under(nodes, i, ROOT_INO)
  {
    var low :| Climb(nodes, i, low, m);
    forall up ensures !Climb(nodes, i, up, ROOT_INO) {
      if Climb(nodes, i, up, ROOT_INO) {
        if |low| <= |up| {
          OneWayUp(nodes, i, low, m, up, ROOT_INO);
          LoopMissesRoot(nodes, m, round, up[..|up| - |low|]);
        } else {
          OneWayUp(nodes, i, up, ROOT_INO, low, m);
        }
      }
    }
  }

  /** The node is its own ancestor. */
  ghost predicate Looped(nodes: map<nat, Node>, m: nat) {
    exists round :: round != [] && Climb(nodes, m, round, m)
  }

  /** A rename into the moved subtree closes a loop: a walk up from anywhere in it goes round for ever. */
  lemma IllegalRenameLoops(t: Table, rank: nat -> nat, parent: nat, name: string, newParent: nat, newName: string)
    requires Inv(t, rank) && KeyOf(parent, name) in t.byName
    requires Under(t.nodes, newParent, t.byName[KeyOf(parent, name)])
    ensures var m, after := t.byName[KeyOf(parent, name)], Reparented(t, parent, name, newParent, newName).nodes;
      && Looped(after, m) && (forall any :: !Ranks(after, any))
      && forall i :: Under(after, i, m) ==> !Under(after, i, ROOT_INO)
  {
    var m, bad := t.byName[KeyOf(parent, name)], Touched(t, parent, name, newParent, newName);
    var names :| Climb(t.nodes, newParent, names, m);
    if KeyOf(newParent, newName) in t.byName { TargetNotAbove(t, rank, newParent, newName); }
    ReparentTouches(t, parent, name, newParent, newName);
    RootStaysOut(t, parent, name, newParent, newName);
    Closes(t.nodes, Reparented(t, parent, name, newParent, newName).nodes, rank, bad, m, newParent, names);
  }

  lemma RootStaysOut(t: Table, parent: nat, name: string, newParent: nat, newName: string)
    requires Inverse(t) && Numbered(t) && KeyOf(parent, name) in t.byName
    ensures ROOT_INO !in Reparented(t, parent, name, newParent, newName).nodes
  {
    var m, c := t.byName[KeyOf(parent, name)], Cleared(t, parent, name, newParent, newName);
    ReparentedIsMoved(t, parent, name, newParent, newName);
    MovedShape(c.nodes, m, newParent, newName);
  }

  lemma Closes(
    nodes: map<nat, Node>, after: map<nat, Node>, rank: nat -> nat, bad: set<nat>, m: nat, parent: nat, names: seq<string>)
    requires Ranks(nodes, rank) && SameElse(nodes, after, bad) && m in nodes && m in after && after[m].parent == parent
    requires Climb(nodes, parent, names, m) && forall x :: x in bad && x != m ==> !Under(nodes, parent, x)
    requires ROOT_INO !in after
    ensures Looped(after, m) && (forall any :: !Ranks(after, any))
    ensures forall i :: Under(after, i, m) ==> !Under(after, i, ROOT_INO)
  {
    AvoidsStrangers(nodes, rank, parent, names, m, bad);
    ClimbKept(nodes, after, bad, parent, names, m);
    var round := names + [after[m].name];
    OneUp(after, m);
    ClimbOn(after, m, [after[m].name], parent, names, m);
    assert round != [] && Climb(after, m, round, m);
    forall any ensures !Ranks(after, any) { if Ranks(after, any) { ClimbRanks(after, any, m, round, m); } }
    forall i | Under(after, i, m) ensures !Under(after, i, ROOT_INO) { LoopCutsOff(after, m, round, i); }
  }

  /** Two inserts make a table in which such a rename can be asked for. */
  lemma LoopIsReachable() returns (t: Table, rank: nat -> nat)
    ensures t == Created(Created(Table(map[], map[], ROOT_INO + 1), ROOT_INO, "a", 1), 2, "b", 1) && Inv(t, rank)
    ensures KeyOf(ROOT_INO, "a") in t.byName && Under(t.nodes, 3, t.byName[KeyOf(ROOT_INO, "a")])
    ensures Looped(Reparented(t, ROOT_INO, "a", 3, "c").nodes, 2)
  {
    var t0, r0 := Table(map[], map[], ROOT_INO + 1), (x: nat) => 0;
    CreateKeeps(t0, r0, ROOT_INO, "a", 1);
    var t1, r1 := Created(t0, ROOT_INO, "a", 1), Above(r0, 2, ROOT_INO);
    if KeyOf(2, "b") in t1.byName { KeyInjective(2, "b", ROOT_INO, "a"); }
    CreateKeeps(t1, r1, 2, "b", 1);
    t, rank := Created(t1, 2, "b", 1), Above(r1, 3, 2);
    OneUp(t.nodes, 3);
    IllegalRenameLoops(t, rank, ROOT_INO, "a", 3, "c");
  }

  /** The rule for renames, exactly: the target must not lie inside the moved subtree. */
  lemma RenameKeepsExactly(t: Table, rank: nat -> nat, parent: nat, name: string, newParent: nat, newName: string)
    requires Inv(t, rank) && KeyOf(parent, name) in t.byName && newParent < t.next
    ensures (exists rank' :: Inv(Reparented(t, parent, name, newParent, newName), rank'))
      <==> !Under(t.nodes, newParent, t.byName[KeyOf(parent, name)])
  {
    if Under(t.nodes, newParent, t.byName[KeyOf(parent, name)]) {
      IllegalRenameLoops(t, rank, parent, name, newParent, newName);
    } else {
      var rank' := LegalRenameKeeps(t, rank, parent, name, newParent, newName);
    }
  }

  /** Neither the moved node nor the replaced one lies above the target, and the replaced one is not in the moved subtree. */
  lemma TouchedApart(t: Table, rank: nat -> nat, parent: nat, name: string, newParent: nat, newName: string)
    requires Inv(t, rank) && KeyOf(parent, name) in t.byName
    requires !Under(t.nodes, newParent, t.byName[KeyOf(parent, name)])
    ensures var m := t.byName[KeyOf(parent, name)];
      forall x :: x in Touched(t, parent, name, newParent, newName) ==>
        x in t.nodes && !Under(t.nodes, newParent, x) && (x != m ==> !Under(t.nodes, x, m))
  {
    var m := t.byName[KeyOf(parent, name)];
    forall x | x in Touched(t, parent, name, newParent, newName) && x != m
      ensures x in t.nodes && !Under(t.nodes, newParent, x) && !Under(t.nodes, x, m)
    {
      TargetApart(t, rank, newParent, newName, m);
    }
  }

  lemma TargetApart(t: Table, rank: nat -> nat, newParent: nat, newName: string, m: nat)
    requires Inv(t, rank) && KeyOf(newParent, newName) in t.byName && t.byName[KeyOf(newParent, newName)] != m
    requires !Under(t.nodes, newParent, m)
    ensures var target := t.byName[KeyOf(newParent, newName)];
      target in t.nodes && !Under(t.nodes, newParent, target) && !Under(t.nodes, target, m)
  {
    TargetNotAbove(t, rank, newParent, newName);
    UnderByParent(t.nodes, t.byName[KeyOf(newParent, newName)], m);
  }

  /** The moved subtree's paths get a new prefix. */
  lemma RenameReplacesPrefix(
    t: Table, rank: nat -> nat, parent: nat, name: string, newParent: nat, newName: string,
    i: nat, suffix: seq<string>, base: seq<string>)
    requires Inv(t, rank) && KeyOf(parent, name) in t.byName
    requires !Under(t.nodes, newParent, t.byName[KeyOf(parent, name)])
    requires Climb(t.nodes, i, suffix, t.byName[KeyOf(parent, name)]) && Climb(t.nodes, newParent, base, ROOT_INO)
    ensures Climb(Reparented(t, parent, name, newParent, newName).nodes, i, base + [newName] + suffix, ROOT_INO)
  {
    var m, bad := t.byName[KeyOf(parent, name)], Touched(t, parent, name, newParent, newName);
    TouchedApart(t, rank, parent, name, newParent, newName);
    ReparentTouches(t, parent, name, newParent, newName);
    PrefixReplaced(t.nodes, Reparented(t, parent, name, newParent, newName).nodes, rank, bad, m, newParent, i, suffix, base);
  }

  lemma PrefixReplaced(
    nodes: map<nat, Node>, after: map<nat, Node>, rank: nat -> nat, bad: set<nat>, m: nat, parent: nat,
    i: nat, suffix: seq<string>, base: seq<string>)
    requires Ranks(nodes, rank) && SameElse(nodes, after, bad) && m in nodes && m in after && after[m].parent == parent
    requires Climb(nodes, i, suffix, m) && Climb(nodes, parent, base, ROOT_INO) && ROOT_INO !in bad
    requires forall x :: x in bad ==> !Under(nodes, parent, x) && (x != m ==> !Under(nodes, x, m))
    ensures Climb(after, i, base + [after[m].name] + suffix, ROOT_INO)
  {
    AvoidsOutsiders(nodes, rank, i, suffix, m, bad);
    ClimbKept(nodes, after, bad, i, suffix, m);
    AvoidsStrangers(nodes, rank, parent, base, ROOT_INO, bad);
    ClimbKept(nodes, after, bad, parent, base, ROOT_INO);
    OneUp(after, m);
    ClimbOn(after, m, [after[m].name], parent, base, ROOT_INO);
    ClimbOn(after, i, suffix, m, base + [after[m].name], ROOT_INO);
  }

  /** Every path that passes neither the moved node nor the replaced one stays. */
  lemma RenameKeepsOtherPaths(
    t: Table, rank: nat -> nat, parent: nat, name: string, newParent: nat, newName: string, i: nat, names: seq<string>)
    requires Inv(t, rank) && KeyOf(parent, name) in t.byName && Climb(t.nodes, i, names, ROOT_INO)
    requires forall m :: m in Touched(t, parent, name, newParent, newName) ==> !Under(t.nodes, i, m)
    ensures Climb(Reparented(t, parent, name, newParent, newName).nodes, i, names, ROOT_INO)
  {
    var bad := Touched(t, parent, name, newParent, newName);
    ReparentTouches(t, parent, name, newParent, newName);
    AvoidsStrangers(t.nodes, rank, i, names, ROOT_INO, bad);
    ClimbKept(t.nodes, Reparented(t, parent, name, newParent, newName).nodes, bad, i, names, ROOT_INO);
  }

  // ----- The class -----

  function Join(dir: string, name: string): string {
    if dir == "" || dir == "." then name else dir + "/" + name
  }

  /** The names joined on to the root, top first. */
  function Joined(root: string, names: seq<string>): string {
    if names == [] then root else Join(Joined(root, names[..|names| - 1]), names[|names| - 1])
  }

  /** Nothing that is referred to went away, and what is left of it is the same. */
  predicate KeepsHeld(before: map<nat, Node>, after: map<nat, Node>) {
    forall i :: i in before && before[i].refs > 0 ==>
      i in after && after[i].parent == before[i].parent && after[i].name == before[i].name && after[i].refs == before[i].refs
  }

  /** The table without the node of this name, if there is one that may go. */
  function Without(t: Table, parent: nat, name: string, mayGo: Node -> bool): Table
    requires Inverse(t)
  {
    var key := KeyOf(parent, name);
    if key in t.byName && mayGo(t.nodes[t.byName[key]]) then Erased(t, t.byName[key]) else t
  }

  /** The oldest listed number gone, unless it is referred to or still has children. */
  function Trimmed(t: Table, oldest: nat): Table {
    if oldest in t.nodes && t.nodes[oldest].refs == 0 && t.nodes[oldest].kids <= 0 then Erased(t, oldest) else t
  }

  function TrimmedTo(t: Table, cold: seq<nat>): Table
    decreases |cold|
  {
    if |cold| <= LISTED_LIMIT then t else TrimmedTo(Trimmed(t, cold[0]), cold[1..])
  }

  class Inodes {
    const root: string
    var t: Table
    var cold: seq<nat>
    ghost var rank: nat -> nat

    ghost predicate Whole()
      reads this
    {
      Inv(t, rank) && forall c :: c in cold ==> c < t.next
    }

    /** The table is whole, and no more numbers are listed than may be. */
    ghost predicate Valid()
      reads this
    {
      Whole() && |cold| <= LISTED_LIMIT
    }

    constructor (root: string)
      ensures this.root == root && t == Table(map[], map[], ROOT_INO + 1) && cold == [] && Valid()
    {
      this.root, t, cold, rank := root, Table(map[], map[], ROOT_INO + 1), [], _ => 0;
    }

    method Create(parent: nat, name: string, refs: nat) returns (i: nat)
      requires Whole() && parent < t.next && KeyOf(parent, name) !in t.byName
      modifies this`t, this`rank
      ensures Whole() && t == Created(old(t), parent, name, refs) && i == old(t).next
    {
      CreateKeeps(t, rank, parent, name, refs);
      i := t.next;
      rank := Above(rank, t.next, parent);
      t := Created(t, parent, name, refs);
    }

    method Erase(i: nat)
      requires Whole() && i in t.nodes
      modifies this`t
      ensures Whole() && t == Erased(old(t), i)
    {
      EraseKeeps(t, rank, i);
      t := Erased(t, i);
    }

    /** A looked-up name gets one more reference, and a number if it had none. */
    method Insert(parent: nat, name: string) returns (i: nat)
      requires Valid() && parent < t.next
      modifies this`t, this`rank
      ensures Valid() && i in t.nodes && t.nodes[i].parent == parent && t.nodes[i].name == name
      ensures if i in old(t).nodes then t.nodes[i].refs == old(t).nodes[i].refs + 1 && t.next == old(t).next
              else i == old(t).next && t.nodes[i].refs == 1
      ensures forall j :: j in old(t).nodes ==> j in t.nodes && (j != i ==> t.nodes[j].refs == old(t).nodes[j].refs)
    {
      var key := KeyOf(parent, name);
      if key in t.byName {
        i := t.byName[key];
        KeyInjective(t.nodes[i].parent, t.nodes[i].name, parent, name);
        Refer(i, t.nodes[i].refs + 1);
        return;
      }
      CreatedGives(t, parent, name, 1);
      i := Create(parent, name, 1);
    }

    method Refer(i: nat, refs: nat)
      requires Valid() && i in t.nodes
      modifies this`t
      ensures Valid() && t == Table(old(t).nodes[i := old(t).nodes[i].(refs := refs)], old(t).byName, old(t).next)
    {
      ReferKeeps(t, rank, i, refs);
      t := Table(t.nodes[i := t.nodes[i].(refs := refs)], t.byName, t.next);
    }

    /** A listed name gets a number without a reference; the oldest such numbers make room. */
    method Reserve(parent: nat, name: string) returns (i: nat)
      requires Valid() && parent < t.next
      modifies this
      ensures Valid() && KeepsHeld(old(t).nodes, t.nodes)
      ensures i in t.nodes && t.nodes[i].parent == parent && t.nodes[i].name == name
    {
      var key := KeyOf(parent, name);
      if key in t.byName {
        i := t.byName[key];
        KeyInjective(t.nodes[i].parent, t.nodes[i].name, parent, name);
        return;
      }
      assert cold != [] ==> cold[0] in cold;
      i := Create(parent, name, 0);
      CreatedHolds(old(t), parent, name, 0);
      cold := cold + [i];
      LastStays(t, cold);
      Trim();
    }

    method Trim()
      requires Whole()
      modifies this`t, this`cold
      ensures Valid() && KeepsHeld(old(t).nodes, t.nodes) && t == TrimmedTo(old(t), old(cold))
    {
      while |cold| > LISTED_LIMIT
        invariant Whole() && KeepsHeld(old(t).nodes, t.nodes) && TrimmedTo(t, cold) == TrimmedTo(old(t), old(cold))
        decreases |cold|
      {
        TrimOldest();
      }
    }

    /** One listed number too many: the oldest goes, unless it is referred to or still has children. */
    method TrimOldest()
      requires Whole() && cold != []
      modifies this`t, this`cold
      ensures Whole() && cold == old(cold)[1..] && KeepsHeld(old(t).nodes, t.nodes) && t == Trimmed(old(t), old(cold)[0])
    {
      var oldest := cold[0];
      assert forall c :: c in cold[1..] ==> c in cold;
      cold := cold[1..];
      if oldest !in t.nodes { return; }
      if t.nodes[oldest].refs > 0 || t.nodes[oldest].kids > 0 { return; }
      ErasedHolds(t, oldest);
      Erase(oldest);
    }

    method Release(parent: nat, name: string)
      requires Valid()
      modifies this`t
      ensures Valid() && KeepsHeld(old(t).nodes, t.nodes)
      ensures t == Without(old(t), parent, name, (n: Node) => n.refs == 0)
    {
      var key := KeyOf(parent, name);
      if key !in t.byName { return; }
      var i := t.byName[key];
      if i !in t.nodes || t.nodes[i].refs > 0 { return; }
      ErasedHolds(t, i);
      Erase(i);
    }

    method Forget(i: nat, count: nat)
      requires Valid()
      modifies this`t
      ensures Valid() && (i in t.nodes <==> i in old(t).nodes && old(t).nodes[i].refs > count)
      ensures i in t.nodes ==> t.nodes[i].refs == old(t).nodes[i].refs - count
      ensures i in old(t).nodes && i !in t.nodes ==> t == Erased(old(t), i)
      ensures i !in old(t).nodes ==> t == old(t)
      ensures forall j :: j in old(t).nodes && j != i ==> j in t.nodes && t.nodes[j].refs == old(t).nodes[j].refs
    {
      if i !in t.nodes { return; }
      if t.nodes[i].refs > count {
        Refer(i, t.nodes[i].refs - count);
        return;
      }
      Erase(i);
    }

    /** A rename whose target does not lie inside the subtree it moves. */
    method Reparent(parent: nat, name: string, newParent: nat, newName: string)
      requires Valid() && newParent < t.next
      requires KeyOf(parent, name) in t.byName ==> !Under(t.nodes, newParent, t.byName[KeyOf(parent, name)])
      modifies this`t, this`rank
      ensures Valid() && t == Reparented(old(t), parent, name, newParent, newName)
      ensures forall i :: i in t.nodes ==> i in old(t).nodes && t.nodes[i].refs == old(t).nodes[i].refs
    {
      if KeyOf(parent, name) !in t.byName { return; }
      RenameKeepsRefs(t, parent, name, newParent, newName);
      rank := LegalRenameKeeps(t, rank, parent, name, newParent, newName);
      t := Reparented(t, parent, name, newParent, newName);
    }

    method Drop(parent: nat, name: string)
      requires Valid()
      modifies this`t
      ensures Valid() && KeyOf(parent, name) !in t.byName && t == Without(old(t), parent, name, (n: Node) => true)
    {
      var key := KeyOf(parent, name);
      if key !in t.byName { return; }
      var i := t.byName[key];
      KeyInjective(t.nodes[i].parent, t.nodes[i].name, parent, name);
      Erase(i);
    }

    /** Walks up to the root; a number cut off from it has no path. */
    method Path(i: nat) returns (path: string)
      requires Valid()
      ensures forall names :: Climb(t.nodes, i, names, ROOT_INO) ==> path == Joined(root, names)
      ensures !Under(t.nodes, i, ROOT_INO) ==> path == ""
    {
      var parts: seq<string>, at: nat := [], i;
      ghost var names: seq<string> := [];
      while at != ROOT_INO
        invariant Climb(t.nodes, i, names, at) && |parts| == |names|
        invariant forall k :: 0 <= k < |parts| ==> parts[k] == names[|names| - 1 - k]
        decreases if at in t.nodes then rank(at) + 1 else 0
      {
        if at !in t.nodes {
          CutOff(t.nodes, i, names, at);
          return "";
        }
        OneUp(t.nodes, at);
        ClimbOn(t.nodes, i, names, at, [t.nodes[at].name], t.nodes[at].parent);
        parts := parts + [t.nodes[at].name];
        names := [t.nodes[at].name] + names;
        at := t.nodes[at].parent;
      }
      path := JoinParts(parts, names);
      forall other | Climb(t.nodes, i, other, ROOT_INO) ensures other == names {
        OnePath(t.nodes, i, other, names);
      }
    }

    method JoinParts(parts: seq<string>, ghost names: seq<string>) returns (path: string)
      requires |parts| == |names| && forall k :: 0 <= k < |parts| ==> parts[k] == names[|names| - 1 - k]
      ensures path == Joined(root, names)
    {
      path := root;
      var n := |parts|;
      while n > 0
        invariant 0 <= n <= |parts| && path == Joined(root, names[..|names| - n])
      {
        n := n - 1;
        assert names[..|names| - n][..|names| - n - 1] == names[..|names| - n - 1];
        path := Join(path, parts[n]);
      }
      assert names[..|names|] == names;
    }
  }

  /** One listed number too many costs at most the oldest. */
  lemma LastStays(t: Table, cold: seq<nat>)
    requires 0 < |cold| <= LISTED_LIMIT + 1
    ensures var i := cold[|cold| - 1];
      i in t.nodes && i != cold[0] ==>
        var u := TrimmedTo(t, cold); i in u.nodes && u.nodes[i].parent == t.nodes[i].parent && u.nodes[i].name == t.nodes[i].name
    ensures |cold| <= LISTED_LIMIT ==> TrimmedTo(t, cold) == t
  {
    if |cold| > LISTED_LIMIT {
      var u := Trimmed(t, cold[0]);
      assert TrimmedTo(u, cold[1..]) == u;
    }
  }

  // ----- Paths as strings -----

  /** A name as directories hold them. */
  predicate Plain(name: string) {
    name != "" && name != "." && '/' !in name
  }

  predicate AllPlain(names: seq<string>) {
    forall k :: 0 <= k < |names| ==> Plain(names[k])
  }

  /** The root names no directory of its own. */
  predicate Here(root: string) {
    root == "" || root == "."
  }

  /** One name more is that name behind a slash, except straight under a root that names nothing. */
  lemma PathGrowsBySlash(root: string, names: seq<string>, name: string)
    requires AllPlain(names)
    ensures Joined(root, names + [name]) == if names == [] && Here(root) then name else Joined(root, names) + "/" + name
  {
    assert (names + [name])[..|names|] == names;
    if names != [] { NamedIsNotHere(root, names); }
  }

  lemma NamedIsNotHere(root: string, names: seq<string>)
    requires names != [] && AllPlain(names)
    ensures !Here(Joined(root, names))
  {
    var dir, name := Joined(root, names[..|names| - 1]), names[|names| - 1];
    assert Plain(name);
    if !Here(dir) { assert (dir + "/" + name)[|dir|] == '/'; }
  }

  /** The last slash ends the directory. */
  lemma LastSlash(a: string, m: string, b: string, n: string)
    requires a + "/" + m == b + "/" + n && '/' !in m && '/' !in n
    ensures a == b && m == n
  {
    var path := a + "/" + m;
    assert path[|a|] == '/' && path[|b|] == '/';
    assert forall k :: |a| < k < |path| ==> path[k] == m[k - |a| - 1];
    assert forall k :: |b| < k < |path| ==> path[k] == n[k - |b| - 1];
    assert |a| == |b|;
    assert a == path[..|a|] && b == path[..|b|] && m == path[|a| + 1..] && n == path[|b| + 1..];
  }

  /** Different names down from one root are different paths. */
  lemma {:induction false} PathsAreDistinct(root: string, a: seq<string>, b: seq<string>)
    requires AllPlain(a) && AllPlain(b) && Joined(root, a) == Joined(root, b)
    ensures a == b
  {
    if a == [] || b == [] {
      if a != [] { NamedIsNotRoot(root, a); }
      if b != [] { NamedIsNotRoot(root, b); }
    } else {
      var c, d := a[..|a| - 1], b[..|b| - 1];
      LastNamesAgree(root, c, a[|a| - 1], d, b[|b| - 1]);
      PathsAreDistinct(root, c, d);
      assert a == c + [a[|a| - 1]] && b == d + [b[|b| - 1]];
    }
  }

  lemma {:induction false} NamedIsNotRoot(root: string, names: seq<string>)
    requires names != [] && AllPlain(names)
    ensures Joined(root, names) != root
    ensures !Here(root) ==> |Joined(root, names)| > |root|
  {
    if Here(root) {
      NamedIsNotHere(root, names);
    } else if |names| > 1 {
      NamedIsNotRoot(root, names[..|names| - 1]);
    }
  }

  lemma LastNamesAgree(root: string, c: seq<string>, m: string, d: seq<string>, n: string)
    requires AllPlain(c) && AllPlain(d) && Plain(m) && Plain(n)
    requires Join(Joined(root, c), m) == Join(Joined(root, d), n)
    ensures m == n && Joined(root, c) == Joined(root, d)
  {
    var x, y := Joined(root, c), Joined(root, d);
    if c != [] { NamedIsNotHere(root, c); }
    if d != [] { NamedIsNotHere(root, d); }
    if !Here(x) { assert (x + "/" + m)[|x|] == '/'; }
    if !Here(y) { assert (y + "/" + n)[|y|] == '/'; }
    if !Here(x) && !Here(y) { LastSlash(x, m, y, n); }
  }

  // ----- What trimming and renaming leave -----

  /** The oldest number goes exactly when nobody refers to it and no node lies in it. */
  lemma TrimmedExactly(t: Table, oldest: nat)
    requires KidsOk(t.nodes)
    ensures forall i :: i in Trimmed(t, oldest).nodes <==>
      i in t.nodes && (i == oldest ==> t.nodes[i].refs > 0 || Children(t.nodes, i) != {})
  {
    if oldest in t.nodes { assert t.nodes[oldest].kids == 0 <==> Children(t.nodes, oldest) == {}; }
  }

  /** Trimming takes no path from anything it leaves. */
  lemma {:induction false} TrimKeepsPaths(t: Table, rank: nat -> nat, cold: seq<nat>, j: nat, names: seq<string>)
    requires Inv(t, rank) && Climb(t.nodes, j, names, ROOT_INO) && j in TrimmedTo(t, cold).nodes
    ensures Climb(TrimmedTo(t, cold).nodes, j, names, ROOT_INO)
    decreases |cold|
  {
    if |cold| > LISTED_LIMIT {
      var u := Trimmed(t, cold[0]);
      TrimmedKeeps(t, rank, cold[0]);
      TrimmedOnlyTakes(u, cold[1..]);
      assert j in u.nodes;
      if u != t {
        LeafCutsNobodyOff(t, rank, cold[0], j);
        EraseKeepsPathsExactly(t, rank, cold[0], j, names);
      }
      TrimKeepsPaths(u, rank, cold[1..], j, names);
    }
  }

  lemma TrimmedKeeps(t: Table, rank: nat -> nat, oldest: nat)
    requires Inv(t, rank)
    ensures Inv(Trimmed(t, oldest), rank)
  {
    if oldest in t.nodes { EraseKeeps(t, rank, oldest); }
  }

  lemma {:induction false} TrimmedOnlyTakes(t: Table, cold: seq<nat>)
    ensures forall i :: i in TrimmedTo(t, cold).nodes ==> i in t.nodes
    decreases |cold|
  {
    if |cold| > LISTED_LIMIT { TrimmedOnlyTakes(Trimmed(t, cold[0]), cold[1..]); }
  }

  /** A rename loses the node it replaces and no other, and every node left keeps its references. */
  lemma RenameKeepsRefs(t: Table, parent: nat, name: string, newParent: nat, newName: string)
    requires Inverse(t) && KeyOf(parent, name) in t.byName
    ensures var after := Reparented(t, parent, name, newParent, newName).nodes;
      var to := KeyOf(newParent, newName);
      && (forall i :: i in after ==> i in t.nodes && after[i].refs == t.nodes[i].refs)
      && (forall i :: i in t.nodes ==> (i !in after <==> to != KeyOf(parent, name) && to in t.byName && t.byName[to] == i))
  {
    ReparentedIsMoved(t, parent, name, newParent, newName);
    MovedRefs(Cleared(t, parent, name, newParent, newName).nodes, t.byName[KeyOf(parent, name)], newParent, newName);
    ClearedRefs(t, parent, name, newParent, newName);
  }

  lemma MovedRefs(nodes: map<nat, Node>, m: nat, parent: nat, name: string)
    requires m in nodes
    ensures var after := Moved(nodes, m, parent, name);
      after.Keys == nodes.Keys && forall i :: i in nodes ==> after[i].refs == nodes[i].refs
  {
  }

  lemma ClearedRefs(t: Table, parent: nat, name: string, newParent: nat, newName: string)
    requires Inverse(t)
    ensures var c := Cleared(t, parent, name, newParent, newName).nodes;
      var to := KeyOf(newParent, newName);
      && (forall i :: i in c ==> i in t.nodes && c[i].refs == t.nodes[i].refs)
      && (forall i :: i in t.nodes ==> (i !in c <==> to != KeyOf(parent, name) && to in t.byName && t.byName[to] == i))
  {
  }

  // ----- What erasing does to paths -----

  /** Erasing a node cuts off exactly what lies under it. */
  lemma EraseKeepsPathsExactly(t: Table, rank: nat -> nat, i: nat, j: nat, names: seq<string>)
    requires Inv(t, rank) && i in t.nodes && Climb(t.nodes, j, names, ROOT_INO)
    ensures Climb(Erased(t, i).nodes, j, names, ROOT_INO) <==> !Under(t.nodes, j, i)
  {
    var after := Erased(t, i).nodes;
    assert SameElse(t.nodes, after, {i});
    if !Under(t.nodes, j, i) {
      AvoidsStrangers(t.nodes, rank, j, names, ROOT_INO, {i});
      ClimbKept(t.nodes, after, {i}, j, names, ROOT_INO);
    } else {
      var up :| Climb(t.nodes, j, up, i);
      MissingStep(t.nodes, after, rank, j, names, up, i);
    }
  }

  lemma {:induction false} MissingStep(
    nodes: map<nat, Node>, after: map<nat, Node>, rank: nat -> nat, j: nat, names: seq<string>, up: seq<string>, i: nat)
    requires SameElse(nodes, after, {i}) && i in nodes && i !in after && Ranks(nodes, rank) && ROOT_INO !in nodes
    requires Climb(nodes, j, names, ROOT_INO) && Climb(nodes, j, up, i)
    ensures !Climb(after, j, names, ROOT_INO)
    decreases |up|
  {
    if up != [] {
      ClimbRanks(nodes, rank, j, up, i);
      MissingStep(nodes, after, rank, nodes[j].parent, names[..|names| - 1], up[..|up| - 1], i);
    }
  }

  /** A node without children cuts nobody else off, so trimming loses no path. */
  lemma LeafCutsNobodyOff(t: Table, rank: nat -> nat, i: nat, j: nat)
    requires Inv(t, rank) && i in t.nodes && t.nodes[i].kids == 0 && j != i
    ensures !Under(t.nodes, j, i)
  {
    forall names ensures !Climb(t.nodes, j, names, i) { NoChildNoClimb(t.nodes, i, j, names); }
  }

  lemma {:induction false} NoChildNoClimb(nodes: map<nat, Node>, i: nat, j: nat, names: seq<string>)
    requires KidsOk(nodes) && i in nodes && nodes[i].kids == 0 && j != i
    ensures !Climb(nodes, j, names, i)
    decreases |names|
  {
    if names != [] && j in nodes {
      assert Children(nodes, i) == {};
      assert j !in Children(nodes, i);
      NoChildNoClimb(nodes, i, nodes[j].parent, names[..|names| - 1]);
    }
  }

  lemma CreatedGives(t: Table, parent: nat, name: string, refs: nat)
    requires Numbered(t) && parent < t.next
    ensures var u := Created(t, parent, name, refs).nodes;
      && t.next in u && t.next !in t.nodes && u[t.next].parent == parent && u[t.next].name == name && u[t.next].refs == refs
      && forall j :: j in t.nodes ==> j in u && u[j].refs == t.nodes[j].refs
  {
  }

  lemma CreatedHolds(t: Table, parent: nat, name: string, refs: nat)
    requires Numbered(t) && parent < t.next
    ensures var u := Created(t, parent, name, refs);
      KeepsHeld(t.nodes, u.nodes) && t.next in u.nodes && u.nodes[t.next].parent == parent && u.nodes[t.next].name == name
  {
  }

  lemma ErasedHolds(t: Table, i: nat)
    requires i in t.nodes && t.nodes[i].refs == 0
    ensures KeepsHeld(t.nodes, Erased(t, i).nodes) && SameElse(t.nodes, Erased(t, i).nodes, {i}) && Erased(t, i).next == t.next
  {
  }

  lemma ReferKeeps(t: Table, rank: nat -> nat, i: nat, refs: nat)
    requires Inv(t, rank) && i in t.nodes
    ensures Inv(Table(t.nodes[i := t.nodes[i].(refs := refs)], t.byName, t.next), rank)
  {
    ReferInverse(t, i, refs);
    ReferKids(t.nodes, i, refs);
    ReferPlace(t, rank, i, refs);
  }

  lemma ReferPlace(t: Table, rank: nat -> nat, i: nat, refs: nat)
    requires Numbered(t) && Ranks(t.nodes, rank) && i in t.nodes
    ensures var u := Table(t.nodes[i := t.nodes[i].(refs := refs)], t.byName, t.next); Numbered(u) && Ranks(u.nodes, rank)
  {
  }

  lemma ReferKids(nodes: map<nat, Node>, i: nat, refs: nat)
    requires KidsOk(nodes) && i in nodes
    ensures KidsOk(nodes[i := nodes[i].(refs := refs)])
  {
    var after := nodes[i := nodes[i].(refs := refs)];
    forall p | p in after ensures after[p].kids == |Children(after, p)| {
      assert Children(after, p) == Children(nodes, p);
    }
  }

  lemma ReferInverse(t: Table, i: nat, refs: nat)
    requires Inverse(t) && i in t.nodes
    ensures Inverse(Table(t.nodes[i := t.nodes[i].(refs := refs)], t.byName, t.next))
  {
    var u := Table(t.nodes[i := t.nodes[i].(refs := refs)], t.byName, t.next);
    forall j | j in u.nodes ensures Named(u, j) { assert Named(t, j); }
  }

  /** A walk that ends at a missing number never gets to the root. */
  lemma {:induction false} CutOff(nodes: map<nat, Node>, i: nat, names: seq<string>, at: nat)
    requires Climb(nodes, i, names, at) && at !in nodes && at != ROOT_INO && ROOT_INO !in nodes
    ensures !Under(nodes, i, ROOT_INO)
    decreases |names|
  {
    if names == [] {
      forall others ensures !Climb(nodes, i, others, ROOT_INO) {}
    } else {
      CutOff(nodes, nodes[i].parent, names[..|names| - 1], at);
      UnderByParent(nodes, i, ROOT_INO);
    }
  }
}
