/** Before a key is inserted, the ranges of the nodes on its route are widened to hold it.  Only the
    ghost annotation changes; the leaf chain stays ordered because the ranges stay disjoint. */
module Widen {
  import opened Keys
  import opened Contents
  import opened Store
  import opened Routing

  ghost function Stretch(i: Info, o: int): Info {
    i.(lo := if o < i.lo then o else i.lo, hi := if i.hi < o then o else i.hi)
  }

  ghost predicate Widened(s: Snap, s': Snap) {
    && s'.h == s.h && s'.root == s.root && s'.sh.Keys == s.sh.Keys
    && forall n :: Of(s', n).pfx == Of(s, n).pfx && Of(s', n).ht == Of(s, n).ht
                   && Of(s', n).lo <= Of(s, n).lo && Of(s, n).hi <= Of(s', n).hi
  }

  /** `o` may enter the range of `c`: nothing above `c` forbids it. */
  ghost predicate Open(s: Snap, c: NodeId, o: int) {
    c in s.h
    && (LayerRoot(s, c)
        || var p := s.h[c].parent;
           && p in s.h && s.h[p].Interior? && InRange(s, p, o)
           && ChildIndex(s.h[p].keys, o) < |s.h[p].children|
           && s.h[p].children[ChildIndex(s.h[p].keys, o)] == c)
  }

  lemma StretchOne(s: Snap, c: NodeId, o: int, s': Snap)
    requires Treelike(s) && Open(s, c, o)
    requires s' == s.(sh := s.sh[c := Stretch(Of(s, c), o)])
    ensures Treelike(s') && Widened(s, s') && InRange(s', c, o)
  {
    forall n | n in s'.h && s'.h[n].Interior?
      ensures InteriorAt(s', NULL, n)
    {
      StretchInterior(s, c, o, s', n);
    }
    StretchBorders(s, s');
  }

  lemma StretchBorders(s: Snap, s': Snap)
    requires Domain(s) && Borders(s, NULL) && Parents(s, NULL) && Widened(s, s')
    ensures Borders(s', NULL) && Parents(s', NULL)
  {
    forall n | n in s'.h && s'.h[n].Border?
      ensures BorderAt(s', NULL, n)
    {
      assert BorderAt(s, NULL, n);
      forall i | 0 <= i < |s'.h[n].entries|
        ensures EntryAt(s', NULL, n, s'.h[n].entries[i])
      {
        assert EntryAt(s, NULL, n, s.h[n].entries[i]);
      }
    }
    forall n | n in s'.h
      ensures ParentAt(s', n)
    {
      assert ParentAt(s, n);
    }
  }

  lemma StretchInterior(s: Snap, c: NodeId, o: int, s': Snap, n: NodeId)
    requires Treelike(s) && Open(s, c, o)
    requires s' == s.(sh := s.sh[c := Stretch(Of(s, c), o)])
    requires n in s.h && s.h[n].Interior?
    ensures InteriorAt(s', NULL, n)
  {
    assert InteriorAt(s, NULL, n);
    hide Treelike, Open, KidAt;
    var ks, cs := s.h[n].keys, s.h[n].children;
    forall i | 0 <= i < |cs|
      ensures KidAt(s', n, i, cs[i])
    {
      if cs[i] == c {
        StretchPlace(s, c, o, n, i);
      }
      StretchKid(s, c, o, s', n, i);
    }
  }

  /** The only child that is stretched is the one the place is routed to. */
  lemma StretchPlace(s: Snap, c: NodeId, o: int, n: NodeId, i: nat)
    requires Treelike(s) && Open(s, c, o) && n in s.h && s.h[n].Interior?
    requires i < |s.h[n].children| && s.h[n].children[i] == c
    ensures InRange(s, n, o) && i == ChildIndex(s.h[n].keys, o)
  {
    hide Ord, ChildIndex;
    assert InteriorAt(s, NULL, n);
    assert KidAt(s, n, i, c);
    assert ParentAt(s, c);
    assert !LayerRoot(s, c);
  }

  lemma StretchKid(s: Snap, c: NodeId, o: int, s': Snap, n: NodeId, i: nat)
    requires c in s.h && s.sh.Keys == s.h.Keys && s' == s.(sh := s.sh[c := Stretch(Of(s, c), o)])
    requires n in s.h && s.h[n].Interior? && i < |s.h[n].children| && KidAt(s, n, i, s.h[n].children[i])
    requires s.h[n].children[i] == c ==> InRange(s, n, o) && i == ChildIndex(s.h[n].keys, o) && KeysSorted(s.h[n].keys)
    ensures KidAt(s', n, i, s.h[n].children[i])
  {
    hide Ord, ChildIndex;
  }

  lemma {:induction false} RouteSame(s: Snap, s': Snap, n: NodeId, o: int)
    requires Widened(s, s')
    ensures Route(s', n, o) == Route(s, n, o)
    decreases Of(s, n).ht
  {
    if n in s.h && s.h[n].Interior? {
      var i := ChildIndex(s.h[n].keys, o);
      if i < |s.h[n].children| && Of(s, s.h[n].children[i]).ht < Of(s, n).ht {
        RouteSame(s, s', s.h[n].children[i], o);
      }
    }
  }

  lemma {:induction false} StretchRoute(s: Snap, n: NodeId, o: int) returns (s': Snap)
    requires Treelike(s) && Open(s, n, o)
    ensures Treelike(s') && Widened(s, s')
    ensures InRange(s', Route(s, n, o), o)
    decreases Of(s, n).ht
  {
    s' := s.(sh := s.sh[n := Stretch(Of(s, n), o)]);
    StretchOne(s, n, o, s');
    if s.h[n].Interior? {
      RouteStep(s, n, o);
      var c := s.h[n].children[ChildIndex(s.h[n].keys, o)];
      var s1 := s';
      s' := StretchRoute(s1, c, o);
      RouteSame(s, s1, c, o);
    }
  }

  lemma OrderStable(s: Snap, s': Snap, bound: nat, a: NodeId, c: NodeId)
    requires Treelike(s') && Below(s', bound) && Widened(s, s') && Domain(s)
    requires a in s.h && s.h[a].Border? && c in s.h && s.h[c].Border?
    requires Of(s, a).pfx == Of(s, c).pfx && Of(s, a).hi < Of(s, c).lo
    ensures Of(s', a).hi < Of(s', c).lo
  {
    if Of(s', a).hi >= Of(s', c).lo {
      var o := if Of(s', a).lo < Of(s', c).lo then Of(s', c).lo else Of(s', a).lo;
      BorderUnique(s', bound, a, c, o);
    }
  }

  lemma ChainsStable(s: Snap, s': Snap)
    requires Domain(s) && Chains(s) && Treelike(s') && Widened(s, s')
    ensures Chains(s')
  {
    var bound := Bound(s');
    forall n | n in s'.h && s'.h[n].Border?
      ensures ChainAt(s', n)
    {
      assert ChainAt(s, n);
      if s.h[n].next != NULL {
        OrderStable(s, s', bound, n, s.h[n].next);
      }
    }
    forall a, c | a in s'.h && c in s'.h && s'.h[a].Border? && s'.h[c].Border? && a != c
      ensures NextAt(s', a, c)
    {
      if Of(s, a).pfx == Of(s, c).pfx {
        NextStable(s, s', bound, a, c);
      }
    }
  }

  lemma NextStable(s: Snap, s': Snap, bound: nat, a: NodeId, c: NodeId)
    requires Domain(s) && Chains(s) && Treelike(s') && Below(s', bound) && Widened(s, s')
    requires a in s.h && s.h[a].Border? && c in s.h && s.h[c].Border? && a != c
    requires Of(s, a).pfx == Of(s, c).pfx
    ensures NextAt(s', a, c)
  {
    assert NextAt(s, a, c) && ChainAt(s, a);
    if Of(s, a).lo < Of(s, c).lo {
      Before(s, a, c);
      OrderStable(s, s', bound, a, c);
      if s.h[a].next != c {
        Before(s, s.h[a].next, c);
        OrderStable(s, s', bound, s.h[a].next, c);
      }
    } else {
      Before(s, c, a);
      OrderStable(s, s', bound, c, a);
    }
  }

  /** The ranges along the route of `o` can be widened to hold `o`. */
  lemma Extend(s: Snap, n: NodeId, o: int) returns (s': Snap)
    requires Shape(s, NULL, NULL) && LayerRoot(s, n)
    ensures Shape(s', NULL, NULL) && Widened(s, s')
    ensures InRange(s', Route(s, n, o), o)
  {
    s' := StretchRoute(s, n, o);
    ChainsStable(s, s');
  }

  /** The meaning of the store does not depend on the ranges. */
  lemma StoredWidened(s: Snap, s': Snap)
    requires Widened(s, s')
    ensures forall k, v :: Stored(s', k, v) <==> Stored(s, k, v)
  {
    forall k, v
      ensures Stored(s', k, v) <==> Stored(s, k, v)
    {
      forall n ensures NodeHolds(s', n, k, v) <==> NodeHolds(s, n, k, v) {}
    }
  }
}
