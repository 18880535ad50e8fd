/** Routing: every key inside a node's range is routed through that node, so the place of a key is
    determined by the key alone. */
module Routing {
  import opened Keys
  import opened Contents
  import opened Store

  /** The border the descent from `n` reaches for a key of order `o`. */
  ghost function Route(s: Snap, n: NodeId, o: int): NodeId
    decreases Of(s, n).ht
  {
    if n !in s.h || s.h[n].Border? then n
    else
      var i := ChildIndex(s.h[n].keys, o);
      if i < |s.h[n].children| && Of(s, s.h[n].children[i]).ht < Of(s, n).ht
      then Route(s, s.h[n].children[i], o)
      else NULL
  }

  ghost predicate InRange(s: Snap, n: NodeId, o: int) {
    Of(s, n).lo <= o <= Of(s, n).hi
  }

  /** A root of some layer: the top root, or the target of a link. */
  ghost predicate LayerRoot(s: Snap, r: NodeId) {
    r in s.h && (r == s.root || (s.h[r].parent in s.h && s.h[s.h[r].parent].Border?))
  }

  ghost predicate Below(s: Snap, bound: nat) {
    forall n <- s.h :: Of(s, n).ht < bound
  }

  lemma RouteStep(s: Snap, n: NodeId, o: int)
    requires Interiors(s, NULL) && n in s.h && s.h[n].Interior?
    ensures
      var i := ChildIndex(s.h[n].keys, o);
      && i < |s.h[n].children|
      && KidAt(s, n, i, s.h[n].children[i])
      && Route(s, n, o) == Route(s, s.h[n].children[i], o)
  {
    assert InteriorAt(s, NULL, n);
  }

  lemma {:induction false} RouteBorder(s: Snap, n: NodeId, o: int)
    requires Interiors(s, NULL) && n in s.h
    ensures Route(s, n, o) in s.h && s.h[Route(s, n, o)].Border?
    ensures Of(s, Route(s, n, o)).pfx == Of(s, n).pfx
    decreases Of(s, n).ht
  {
    if s.h[n].Interior? {
      RouteStep(s, n, o);
      RouteBorder(s, s.h[n].children[ChildIndex(s.h[n].keys, o)], o);
    }
  }

  /** An interior node routes a key in the range of one of its children to that child. */
  lemma RouteToChild(s: Snap, p: NodeId, n: NodeId, o: int)
    requires Interiors(s, NULL) && p in s.h && s.h[p].Interior?
    requires n in s.h[p].children && InRange(s, n, o)
    ensures KidAt(s, p, ChildIndex(s.h[p].keys, o), n)
    ensures Route(s, p, o) == Route(s, n, o) && InRange(s, p, o)
  {
    assert InteriorAt(s, NULL, p);
    var i :| 0 <= i < |s.h[p].children| && s.h[p].children[i] == n;
    assert KidAt(s, p, i, n);
    ChildIndexUnique(s.h[p].keys, o, i);
  }

  /** Climbing from a node to the root of its layer, and seeing that the descent comes back. */
  lemma {:induction false} RootOf(s: Snap, bound: nat, n: NodeId, o: int) returns (r: NodeId)
    requires Treelike(s) && n in s.h && InRange(s, n, o) && Below(s, bound)
    ensures LayerRoot(s, r) && Of(s, r).pfx == Of(s, n).pfx
    ensures Route(s, r, o) == Route(s, n, o)
    decreases bound - Of(s, n).ht
  {
    assert ParentAt(s, n);
    if LayerRoot(s, n) {
      r := n;
    } else {
      var p := s.h[n].parent;
      RouteToChild(s, p, n, o);
      r := RootOf(s, bound, p, o);
    }
  }

  /** The border entry a layer root hangs from. */
  lemma LinkOf(s: Snap, r: NodeId) returns (i: nat)
    requires Treelike(s) && LayerRoot(s, r) && r != s.root
    ensures
      var b := s.h[r].parent;
      && i < |s.h[b].entries|
      && s.h[b].entries[i].payload == Link(r)
      && Canonical(s.h[b].entries[i].key) && s.h[b].entries[i].key.len == LINK_LEN
      && InRange(s, b, Ord(s.h[b].entries[i].key))
      && Of(s, r).pfx == Of(s, b).pfx + s.h[b].entries[i].key.slice
  {
    var b := s.h[r].parent;
    assert ParentAt(s, r);
    assert BorderAt(s, NULL, b);
    i :| 0 <= i < |s.h[b].entries| && s.h[b].entries[i].payload == Link(r);
    assert EntryAt(s, NULL, b, s.h[b].entries[i]);
  }

  lemma SameEntry(es: seq<Entry>, i: nat, j: nat)
    requires Sorted(es) && i < |es| && j < |es| && es[i].key == es[j].key
    ensures i == j
  {
  }

  /** One layer has one root. */
  lemma {:induction false} RootUnique(s: Snap, bound: nat, r1: NodeId, r2: NodeId)
    requires Treelike(s) && Below(s, bound)
    requires LayerRoot(s, r1) && LayerRoot(s, r2) && Of(s, r1).pfx == Of(s, r2).pfx
    ensures r1 == r2
    decreases |Of(s, r1).pfx|
  {
    if r1 == s.root || r2 == s.root {
      assert ParentAt(s, s.root);
      if r1 != s.root {
        var i := LinkOf(s, r1);
      } else if r2 != s.root {
        var i := LinkOf(s, r2);
      }
    } else {
      var i1 := LinkOf(s, r1);
      var i2 := LinkOf(s, r2);
      var b1, b2 := s.h[r1].parent, s.h[r2].parent;
      var e1, e2 := s.h[b1].entries[i1], s.h[b2].entries[i2];
      SplitPrefix(Of(s, b1).pfx, e1.key.slice, Of(s, b2).pfx, e2.key.slice);
      var o := Ord(e1.key);
      var t1 := RootOf(s, bound, b1, o);
      var t2 := RootOf(s, bound, b2, o);
      RootUnique(s, bound, t1, t2);
      SameEntry(s.h[b1].entries, i1, i2);
    }
  }

  lemma SplitPrefix(p: Key, a: Key, q: Key, b: Key)
    requires p + a == q + b && |a| == |b|
    ensures p == q && a == b
  {
    assert p == (p + a)[..|p|] == (q + b)[..|q|] == q;
    assert a == (p + a)[|p|..] == (q + b)[|q|..] == b;
  }

  /** Everything in a layer is reached from its root. */
  lemma OnRoute(s: Snap, bound: nat, r: NodeId, n: NodeId, o: int)
    requires Treelike(s) && Below(s, bound)
    requires LayerRoot(s, r) && n in s.h && Of(s, n).pfx == Of(s, r).pfx && InRange(s, n, o)
    ensures Route(s, r, o) == Route(s, n, o)
  {
    var r' := RootOf(s, bound, n, o);
    RootUnique(s, bound, r, r');
  }

  /** The ranges of two borders of one layer are disjoint. */
  lemma BorderUnique(s: Snap, bound: nat, a: NodeId, c: NodeId, o: int)
    requires Treelike(s) && Below(s, bound)
    requires a in s.h && s.h[a].Border? && c in s.h && s.h[c].Border?
    requires Of(s, a).pfx == Of(s, c).pfx && InRange(s, a, o) && InRange(s, c, o)
    ensures a == c
  {
    var r := RootOf(s, bound, a, o);
    OnRoute(s, bound, r, c, o);
  }

  ghost function Heights(ns: set<NodeId>, s: Snap): (b: nat)
    ensures forall n <- ns :: Of(s, n).ht < b
  {
    if ns == {} then 0
    else
      var n :| n in ns;
      var b := Heights(ns - {n}, s);
      if Of(s, n).ht < b then b else Of(s, n).ht + 1
  }

  /** Heights are bounded because the heap is finite. */
  lemma Bound(s: Snap) returns (b: nat)
    ensures Below(s, b)
  {
    b := Heights(s.h.Keys, s);
  }

  // ---- the place of a key ----

  lemma PrefixUp(p: Key, q: Key, slice: Key, full: Key)
    requires full == q + slice && |slice| == SLICE && p < full
    requires |p| % SLICE == 0 && |full| % SLICE == 0
    ensures if |q| == |p| then q == p else p < q
  {
    assert |p| <= |q|;
    assert p == full[..|p|] == q[..|p|];
  }

  /** Climbing from a border to the border of a given shorter prefix on the way down to it. */
  lemma {:induction false} AncestorLink(s: Snap, bound: nat, c: NodeId, p: Key) returns (a: NodeId, i: nat)
    requires Treelike(s) && Below(s, bound)
    requires c in s.h && s.h[c].Border?
    requires p < Of(s, c).pfx && |p| % SLICE == 0
    ensures a in s.h && s.h[a].Border? && Of(s, a).pfx == p
    ensures i < |s.h[a].entries|
    ensures var e := s.h[a].entries[i];
            && Canonical(e.key) && e.key.len == LINK_LEN && e.payload.Link?
            && InRange(s, a, Ord(e.key)) && p + e.key.slice <= Of(s, c).pfx
    decreases |Of(s, c).pfx|
  {
    var r := RootOf(s, bound, c, Of(s, c).lo);
    assert ParentAt(s, r);
    i := LinkOf(s, r);
    a := s.h[r].parent;
    PrefixUp(p, Of(s, a).pfx, s.h[a].entries[i].key.slice, Of(s, c).pfx);
    if Of(s, a).pfx != p {
      a, i := AncestorLink(s, bound, a, p);
    }
  }

  /** What `PlaceOfKey` says of the border `b` a remainder is routed to. */
  ghost predicate Found(s: Snap, b: NodeId, rest: Key) {
    && b in s.h && s.h[b].Border?
    && Lookup(s.h[b].entries, TupleOf(rest)) < |s.h[b].entries|
  }

  lemma PlaceInLayer(s: Snap, bound: nat, n: NodeId, rest: Key, c: NodeId, e: Entry)
    requires Treelike(s) && Below(s, bound) && LayerRoot(s, n)
    requires c in s.h && s.h[c].Border? && e in s.h[c].entries && Of(s, c).pfx == Of(s, n).pfx
    requires e.key == TupleOf(rest)
    ensures c == Route(s, n, Ord(TupleOf(rest))) && Found(s, c, rest)
  {
    assert BorderAt(s, NULL, c) && EntryAt(s, NULL, c, e);
    OnRoute(s, bound, n, c, Ord(TupleOf(rest)));
  }

  lemma PlaceBelowLink(s: Snap, bound: nat, n: NodeId, rest: Key, c: NodeId, e: Entry, v: Val)
    requires Treelike(s) && Below(s, bound) && LayerRoot(s, n)
    requires c in s.h && s.h[c].Border? && e in s.h[c].entries
    requires EntryHolds(Of(s, c).pfx, e, Of(s, n).pfx + rest, v) && |Of(s, n).pfx| < |Of(s, c).pfx|
    ensures |rest| > SLICE && Found(s, Route(s, n, Ord(TupleOf(rest))), rest)
  {
    var p := Of(s, n).pfx;
    assert TupleBytes(e.key) != [] by { assert BorderAt(s, NULL, c) && EntryAt(s, NULL, c, e); }
    PrefixOrder(p, rest, Of(s, c).pfx, TupleBytes(e.key));
    var a, i := AncestorLink(s, bound, c, p);
    var l := s.h[a].entries[i].key;
    LongRest(p, rest, l.slice, Of(s, c).pfx, TupleBytes(e.key));
    assert l == KeyTuple(l.slice, LINK_LEN);
    PlaceInLayer(s, bound, n, rest, a, s.h[a].entries[i]);
  }

  lemma PlaceNotAbove(s: Snap, n: NodeId, rest: Key, c: NodeId, e: Entry, v: Val)
    requires Treelike(s) && n in s.h && (Of(s, n).pfx != [] ==> rest != [])
    requires c in s.h && s.h[c].Border? && e in s.h[c].entries
    requires EntryHolds(Of(s, c).pfx, e, Of(s, n).pfx + rest, v)
    ensures |Of(s, c).pfx| >= |Of(s, n).pfx|
  {
    var p, q := Of(s, n).pfx, Of(s, c).pfx;
    assert |TupleBytes(e.key)| <= SLICE by { assert BorderAt(s, NULL, c) && EntryAt(s, NULL, c, e); }
    assert |p + rest| == |q + TupleBytes(e.key)|;
    if |q| < |p| {
      LayersApart(|q|, |p|);
    }
  }

  lemma LayersApart(q: nat, p: nat)
    requires q % SLICE == 0 && p % SLICE == 0 && q < p
    ensures q + SLICE <= p
  {
  }

  /** A key with remainder `rest` at layer root `n` is stored in the border its tuple is routed to,
      or below a link of that border with its tuple. */
  lemma PlaceOfKey(s: Snap, bound: nat, n: NodeId, rest: Key, c: NodeId, e: Entry, v: Val)
    requires Treelike(s) && Below(s, bound) && LayerRoot(s, n)
    requires Of(s, n).pfx != [] ==> rest != []
    requires c in s.h && s.h[c].Border? && e in s.h[c].entries
    requires EntryHolds(Of(s, c).pfx, e, Of(s, n).pfx + rest, v)
    ensures Found(s, Route(s, n, Ord(TupleOf(rest))), rest)
    ensures |rest| <= SLICE ==> c == Route(s, n, Ord(TupleOf(rest))) && e.key == TupleOf(rest)
  {
    PlaceNotAbove(s, n, rest, c, e, v);
    if |Of(s, c).pfx| == |Of(s, n).pfx| {
      SplitAtLength(Of(s, n).pfx, rest, Of(s, c).pfx, TupleBytes(e.key));
      assert e.key.len <= SLICE && Canonical(e.key) by {
        assert BorderAt(s, NULL, c) && EntryAt(s, NULL, c, e);
      }
      TupleOfBytes(e.key);
      PlaceInLayer(s, bound, n, rest, c, e);
    } else {
      PlaceBelowLink(s, bound, n, rest, c, e, v);
    }
  }

  /** A key that is stored is found on the way: a failed lookup means the key is absent. */
  lemma Miss(s: Snap, n: NodeId, rest: Key)
    requires Treelike(s) && LayerRoot(s, n) && (Of(s, n).pfx != [] ==> rest != [])
    requires !Found(s, Route(s, n, Ord(TupleOf(rest))), rest)
    ensures forall v :: !Stored(s, Of(s, n).pfx + rest, v)
  {
    var bound := Bound(s);
    forall v
      ensures !Stored(s, Of(s, n).pfx + rest, v)
    {
      if Stored(s, Of(s, n).pfx + rest, v) {
        var c :| NodeHolds(s, c, Of(s, n).pfx + rest, v);
        var e :| e in s.h[c].entries && EntryHolds(Of(s, c).pfx, e, Of(s, n).pfx + rest, v);
        PlaceOfKey(s, bound, n, rest, c, e, v);
      }
    }
  }

  /** A short remainder is stored at the border it is routed to, under its own tuple. */
  lemma Hit(s: Snap, n: NodeId, rest: Key, v: Val)
    requires Treelike(s) && LayerRoot(s, n) && (Of(s, n).pfx != [] ==> rest != []) && |rest| <= SLICE
    requires Stored(s, Of(s, n).pfx + rest, v)
    ensures
      var b := Route(s, n, Ord(TupleOf(rest)));
      Found(s, b, rest) && s.h[b].entries[Lookup(s.h[b].entries, TupleOf(rest))].payload == Value(v)
    ensures forall c :: NodeHolds(s, c, Of(s, n).pfx + rest, v) ==> c == Route(s, n, Ord(TupleOf(rest)))
  {
    var bound := Bound(s);
    var k, t := Of(s, n).pfx + rest, TupleOf(rest);
    forall c | NodeHolds(s, c, k, v)
      ensures c == Route(s, n, Ord(t)) && Found(s, c, rest)
      ensures s.h[c].entries[Lookup(s.h[c].entries, t)].payload == Value(v)
    {
      var e :| e in s.h[c].entries && EntryHolds(Of(s, c).pfx, e, k, v);
      PlaceOfKey(s, bound, n, rest, c, e, v);
      var j :| 0 <= j < |s.h[c].entries| && s.h[c].entries[j] == e;
      assert BorderAt(s, NULL, c);
      SameEntry(s.h[c].entries, j, Lookup(s.h[c].entries, t));
    }
    var c :| NodeHolds(s, c, k, v);
  }

  /** No node is in a layer below a link that is not there. */
  lemma LayerFound(s: Snap, bound: nat, n: NodeId, rest: Key, m: NodeId)
    requires Treelike(s) && Below(s, bound) && LayerRoot(s, n) && |rest| > SLICE
    requires m in s.h && Of(s, n).pfx + TupleOf(rest).slice <= Of(s, m).pfx
    ensures Found(s, Route(s, n, Ord(TupleOf(rest))), rest)
  {
    var p, t := Of(s, n).pfx, TupleOf(rest);
    var r := RootOf(s, bound, m, Of(s, m).lo);
    assert Of(s, r).pfx != [];
    assert ParentAt(s, r);
    var i := LinkOf(s, r);
    var a := s.h[r].parent;
    assert p + t.slice <= Of(s, r).pfx;
    if |Of(s, a).pfx| != |p| {
      LinkPrefix(p, t.slice, Of(s, a).pfx, s.h[a].entries[i].key.slice);
      a, i := AncestorLink(s, bound, a, p);
      assert p + s.h[a].entries[i].key.slice <= Of(s, r).pfx;
    }
    SamePrefix(p, t.slice, Of(s, a).pfx, s.h[a].entries[i].key.slice, Of(s, r).pfx);
    assert s.h[a].entries[i].key == t;
    PlaceInLayer(s, bound, n, rest, a, s.h[a].entries[i]);
  }

  lemma LinkPrefix(p: Key, slice: Key, q: Key, last: Key)
    requires |slice| == SLICE == |last| && p + slice <= q + last && |q| != |p|
    ensures p < q
  {
    assert |p| < |q|;
    assert p == (p + slice)[..|p|] == (q + last)[..|p|] == q[..|p|];
  }

  lemma SamePrefix(p: Key, slice: Key, q: Key, last: Key, full: Key)
    requires |slice| == |last| && p + slice <= full && q + last <= full && |q| == |p|
    ensures p == q && slice == last
  {
    assert p + slice == full[..|p| + |slice|] == q + last;
    SplitPrefix(p, slice, q, last);
  }

  lemma SplitAtLength(p: Key, a: Key, q: Key, b: Key)
    requires p + a == q + b && |p| == |q|
    ensures p == q && a == b
  {
    assert |a| == |b|;
    SplitPrefix(p, a, q, b);
  }

  lemma PrefixOrder(p: Key, a: Key, q: Key, b: Key)
    requires p + a == q + b && |p| < |q|
    ensures p < q
  {
    assert p == (p + a)[..|p|] == (q + b)[..|p|] == q[..|p|];
  }

  lemma LongRest(p: Key, rest: Key, slice: Key, q: Key, b: Key)
    requires p + rest == q + b && |slice| == SLICE && p + slice <= q && b != []
    ensures |rest| > SLICE && TupleOf(rest) == KeyTuple(slice, LINK_LEN)
  {
    var tail := rest[SLICE..];
    assert rest == (q + b)[|p|..];
    assert (p + slice)[|p|..] == slice;
    assert q[|p|..][..SLICE] == q[|p|..|p| + SLICE] == (p + slice)[|p|..];
    assert rest[..SLICE] == slice;
    assert rest == slice + tail;
    TupleOfLonger(slice, tail);
  }
}
