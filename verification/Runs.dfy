/** Whole runs: a tree driven by any sequence of puts and removals stays in step with a plain map, and
    what the invariant it keeps says about reachability, retirement and the leaf chain. */
module Runs {
  import opened Keys
  import opened Contents
  import opened Store
  import opened Routing
  import opened Track
  import opened TreeFacts
  import opened Effects
  import opened Trees

  datatype Op = DoPut(key: Key, data: Data, inline: bool, unique: bool) | DoRemove(key: Key)

  // ---- the map ----

  type Table = map<Key, Data>

  /** The map a user sees: the bytes of each value. */
  function TableOf(m: Content): Table {
    map k | k in m :: m[k].data
  }

  function Step(a: Table, op: Op): Table {
    match op
    case DoPut(k, data, _, unique) => if unique && k in a then a else a[k := data]
    case DoRemove(k) => a - {k}
  }

  function Outcome(a: Table, rootless: bool, op: Op): Status {
    match op
    case DoPut(k, _, _, unique) => if unique && k in a then WARN_UNIQUE_RESTRICTION else OK
    case DoRemove(k) => if rootless then OK_ROOT_IS_NULL else if k in a then OK else OK_NOT_FOUND
  }

  function Fold(a: Table, ops: seq<Op>): Table {
    if ops == [] then a else Step(Fold(a, ops[..|ops| - 1]), ops[|ops| - 1])
  }

  /** One operation takes the table one step and reports what the table says. */
  method Perform(t: Tree, op: Op) returns (st: Status)
    requires t.Valid()
    modifies t
    ensures t.Valid() && TableOf(t.content) == Step(old(TableOf(t.content)), op)
    ensures st == Outcome(old(TableOf(t.content)), old(t.root) == NULL, op)
    ensures old(t.retired) <= t.retired && old(t.releasedVals) <= t.releasedVals
    ensures t.freedAtOnce == old(t.freedAtOnce) + FreedBy(old(t.content), op)
  {
    hide Shape, Agrees, Counted, ValuesCounted, GravesFit, GravesKept, Swells, Shrinks, Bumped, Route, Admits, Updates, Leaves;
    match op {
      case DoPut(k, data, inline, unique) =>
        var v;
        st, v := t.Put(k, data, inline, unique);
      case DoRemove(k) =>
        st := t.Remove(k);
    }
  }

  /** The values an operation frees without waiting for readers: those an in-slot value displaces. */
  function FreedBy(m: Content, op: Op): set<nat> {
    if op.DoPut? && op.inline && !(op.unique && op.key in m) then set i <- Displaced(m, op.key) else {}
  }

  /** Every run: the tree and the table agree after every sequence of operations. */
  method Run(t: Tree, ops: seq<Op>)
    requires t.Valid()
    modifies t
    ensures t.Valid() && TableOf(t.content) == Fold(old(TableOf(t.content)), ops)
    ensures old(t.retired) <= t.retired && old(t.releasedVals) <= t.releasedVals
    ensures (forall op <- ops :: op.DoPut? ==> !op.inline) ==> t.freedAtOnce == old(t.freedAtOnce)
  {
    hide Shape, Agrees, Counted, ValuesCounted, GravesFit, Step;
    for i := 0 to |ops|
      invariant t.Valid() && TableOf(t.content) == Fold(old(TableOf(t.content)), ops[..i])
      invariant old(t.retired) <= t.retired && old(t.releasedVals) <= t.releasedVals
      invariant (forall op <- ops :: op.DoPut? ==> !op.inline) ==> t.freedAtOnce == old(t.freedAtOnce)
    {
      assert ops[..i + 1][..i] == ops[..i] && ops[i] in ops;
      var st := Perform(t, ops[i]);
    }
    assert ops[..|ops|] == ops;
  }

  // ---- reachable or retired ----

  /** `n` is at most `k` steps below the root, each step from a node to one it points at. */
  ghost predicate Reached(s: Snap, n: NodeId, k: nat)
    decreases k
  {
    n in s.h
    && (n == s.root
        || (k > 0 && s.h[n].parent in s.h && IsChild(s.h[s.h[n].parent], n) && Reached(s, s.h[n].parent, k - 1)))
  }

  lemma {:induction false} ReachedFromRoot(s: Snap, bound: nat, n: NodeId) returns (k: nat)
    requires Treelike(s) && Below(s, bound) && n in s.h
    ensures Reached(s, n, k)
    decreases |Of(s, n).pfx|, bound - Of(s, n).ht
  {
    if n == s.root {
      k := 0;
    } else {
      ParentSmaller(s, n);
      k := ReachedFromRoot(s, bound, s.h[n].parent);
      k := k + 1;
    }
  }

  lemma ParentSmaller(s: Snap, n: NodeId)
    requires Treelike(s) && n in s.h && n != s.root
    ensures var p := s.h[n].parent;
            && p in s.h && IsChild(s.h[p], n)
            && (|Of(s, p).pfx| < |Of(s, n).pfx| || (|Of(s, p).pfx| == |Of(s, n).pfx| && Of(s, n).ht < Of(s, p).ht))
  {
    assert ParentAt(s, n);
    var p := s.h[n].parent;
    if s.h[p].Interior? {
      assert InteriorAt(s, NULL, p);
      var i :| 0 <= i < |s.h[p].children| && s.h[p].children[i] == n;
      assert KidAt(s, p, i, n);
    } else {
      assert BorderAt(s, NULL, p);
      var i :| 0 <= i < |s.h[p].entries| && s.h[p].entries[i].payload == Link(n);
      assert EntryAt(s, NULL, p, s.h[p].entries[i]);
    }
  }

  /** Every node ever allocated is reachable or retired exactly once, and never both. */
  lemma NodesConserved(s: Snap, retired: seq<NodeId>, next: NodeId, n: NodeId)
    requires Treelike(s) && Counted(s.h, retired, {}, next) && 0 < n < next
    ensures (exists k: nat :: Reached(s, n, k)) <==> n !in retired
    ensures forall i, j :: 0 <= i < j < |retired| ==> retired[i] != retired[j]
  {
    hide Treelike;
    if n in s.h {
      var bound := Bound(s);
      var k := ReachedFromRoot(s, bound, n);
      assert Reached(s, n, k);
      assert n !in retired;
    } else {
      assert n in retired;
      forall k: nat
        ensures !Reached(s, n, k)
      {
      }
    }
  }

  // ---- the leaf chain ----

  ghost function Walk(s: Snap, a: NodeId, j: nat): NodeId
    decreases j
  {
    if j == 0 then a
    else if a in s.h && s.h[a].Border? then Walk(s, s.h[a].next, j - 1)
    else NULL
  }

  /** Following `next` from a border reaches every border of its layer further right. */
  lemma {:induction false} ChainReaches(s: Snap, a: NodeId, c: NodeId) returns (j: nat)
    requires Chains(s) && a in s.h && s.h[a].Border? && c in s.h && s.h[c].Border?
    requires Of(s, a).pfx == Of(s, c).pfx && Of(s, a).lo < Of(s, c).lo
    requires forall n <- s.h :: Of(s, n).lo <= Of(s, n).hi
    ensures j > 0 && Walk(s, a, j) == c
    decreases Of(s, c).lo - Of(s, a).lo
  {
    assert NextAt(s, a, c) && ChainAt(s, a);
    var q := s.h[a].next;
    j := 0;
    if q != c {
      j := ChainReaches(s, q, c);
    }
    j := j + 1;
  }

  /** And nothing but those, in ascending order of their keys; `prev` is the way back. */
  lemma {:induction false} ChainAscends(s: Snap, a: NodeId, j: nat)
    requires Domain(s) && Chains(s) && a in s.h && s.h[a].Border? && j > 0 && Walk(s, a, j) != NULL
    ensures var c := Walk(s, a, j);
            && c in s.h && s.h[c].Border? && Of(s, c).pfx == Of(s, a).pfx && Of(s, a).hi < Of(s, c).lo
            && s.h[c].prev == Walk(s, a, j - 1)
    decreases j
  {
    assert ChainAt(s, a);
    NullWalk(s, j - 1);
    if j > 1 {
      ChainAscends(s, s.h[a].next, j - 1);
    }
  }

  lemma NullWalk(s: Snap, j: nat)
    requires NULL !in s.h
    ensures Walk(s, NULL, j) == NULL
  {
  }

  /** Entries of different borders are ordered as the borders are. */
  lemma ChainEntries(s: Snap, a: NodeId, c: NodeId, i: nat, j: nat)
    requires Borders(s, NULL) && Chains(s) && a in s.h && s.h[a].Border? && c in s.h && s.h[c].Border?
    requires Of(s, a).pfx == Of(s, c).pfx && Of(s, a).lo < Of(s, c).lo
    requires i < |s.h[a].entries| && j < |s.h[c].entries|
    ensures Ord(s.h[a].entries[i].key) < Ord(s.h[c].entries[j].key)
  {
    Before(s, a, c);
    assert BorderAt(s, NULL, a) && BorderAt(s, NULL, c);
    assert EntryAt(s, NULL, a, s.h[a].entries[i]) && EntryAt(s, NULL, c, s.h[c].entries[j]);
  }

  // ---- separators and ranges ----

  /** `b` is below `c` in the same layer, at most `k` steps down. */
  ghost predicate Under(s: Snap, c: NodeId, b: NodeId, k: nat)
    decreases k
  {
    b in s.h
    && (b == c
        || (k > 0 && s.h[b].parent in s.h && s.h[s.h[b].parent].Interior? && b in s.h[s.h[b].parent].children
            && Under(s, c, s.h[b].parent, k - 1)))
  }

  lemma {:induction false} UnderInRange(s: Snap, c: NodeId, b: NodeId, k: nat, o: int)
    requires Interiors(s, NULL) && Under(s, c, b, k) && InRange(s, b, o)
    ensures InRange(s, c, o)
    decreases k
  {
    if b != c {
      RouteToChild(s, s.h[b].parent, b, o);
      UnderInRange(s, c, s.h[b].parent, k - 1, o);
    }
  }

  /** Every key below child `i` of an interior node lies between the separators beside it. */
  lemma SeparatorsBound(s: Snap, n: NodeId, i: nat, b: NodeId, k: nat, j: nat)
    requires Treelike(s) && n in s.h && s.h[n].Interior? && i < |s.h[n].children|
    requires Under(s, s.h[n].children[i], b, k) && s.h[b].Border? && j < |s.h[b].entries|
    ensures i > 0 ==> i <= |s.h[n].keys| && Ord(s.h[n].keys[i - 1]) <= Ord(s.h[b].entries[j].key)
    ensures i < |s.h[n].keys| ==> Ord(s.h[b].entries[j].key) < Ord(s.h[n].keys[i])
  {
    EntryFacts(s, NULL, b, j);
    UnderInRange(s, s.h[n].children[i], b, k, Ord(s.h[b].entries[j].key));
    assert InteriorAt(s, NULL, n);
    assert KidAt(s, n, i, s.h[n].children[i]);
  }
}
