/** Removal and routing: taking a child out of an interior node, or collapsing a node that is left with
    one child, reroutes only the keys that led to the node that is gone. */
module Reroute {
  import opened Keys
  import opened Contents
  import opened Store
  import opened Routing
  import opened AttachStep
  import opened RemoveStep
  import opened InnerRemoveStep

  /** One step of a descent through a node that still points at the dangling `d`. */
  lemma StepOrDangle(s: Snap, d: NodeId, n: NodeId, o: int)
    requires n in s.h && s.h[n].Interior? && InteriorAt(s, d, n) && (d != NULL ==> d !in s.h)
    requires s.sh.Keys == s.h.Keys
    ensures
      var i := ChildIndex(s.h[n].keys, o);
      && i < |s.h[n].children|
      && (s.h[n].children[i] == d && d != NULL ==> Route(s, n, o) == d || Route(s, n, o) == NULL)
      && (s.h[n].children[i] != d ==>
            KidAt(s, n, i, s.h[n].children[i]) && Route(s, n, o) == Route(s, s.h[n].children[i], o))
  {
    var i := ChildIndex(s.h[n].keys, o);
    var c := s.h[n].children[i];
    assert Dangling(d, c) || KidAt(s, n, i, c);
  }

  /** Dropping a child keeps every route that did not end at it. */
  lemma {:induction false} DropKeepsRoutes(s: Snap, d: NodeId, p: NodeId, i: nat, s': Snap, n: NodeId, o: int)
    requires Domain(s) && Interiors(s, d) && Orphaned(s, d, p) && s.h[p].Interior? && |s.h[p].keys| > 1
    requires i < |s.h[p].children| && i <= |s.h[p].keys| && s.h[p].children[i] == d && Dropped(s, p, i, s')
    requires n in s.h && Route(s, n, o) != d && Route(s, n, o) != NULL
    ensures Route(s', n, o) == Route(s, n, o)
    decreases Of(s, n).ht
  {
    if s.h[n].Interior? {
      assert InteriorAt(s, d, n) && InteriorAt(s, d, p);
      StepOrDangle(s, d, n, o);
      var c := s.h[n].children[ChildIndex(s.h[n].keys, o)];
      if n == p {
        DropRoutes(s.h[p].keys, s.h[p].children, i, o);
      }
      DropKeepsRoutes(s, d, p, i, s', c, o);
      assert s'.h[n].children[ChildIndex(s'.h[n].keys, o)] == c;
    }
  }

  /** The collapse puts the sibling in the place of its parent and keeps every other route. */
  lemma {:induction false} CollapseKeepsRoutes(s: Snap, d: NodeId, p: NodeId, sib: NodeId, s': Snap, n: NodeId, o: int)
    requires Domain(s) && Interiors(s, d) && OneChild(s, d, p, sib) && Collapsed(s, p, sib, s')
    requires n in s.h && n != p && Route(s, n, o) != d && Route(s, n, o) != NULL
    ensures Route(s', n, o) == Route(s, n, o)
    decreases Of(s, n).ht
  {
    hide OneChild, Collapsed, Orphaned, InteriorAt, ChildIndex;
    CollapsedRow(s, d, p, sib, s', n);
    OneChildLeaves(s, d, p, sib);
    if s.h[n].Interior? {
      RowOf(s, d, n);
      StepOrDangle(s, d, n, o);
      var i := ChildIndex(s.h[n].keys, o);
      var c := s.h[n].children[i];
      if c == p {
        StepOrDangle(s, d, p, o);
        assert s.h[p].children[ChildIndex(s.h[p].keys, o)] in s.h[p].children;
        CollapsedRow(s, d, p, sib, s', sib);
        CollapseKeepsRoutes(s, d, p, sib, s', sib, o);
      } else {
        CollapsedRow(s, d, p, sib, s', c);
        CollapseKeepsRoutes(s, d, p, sib, s', c, o);
      }
    }
  }

  lemma RowOf(s: Snap, d: NodeId, n: NodeId)
    requires Interiors(s, d) && n in s.h && s.h[n].Interior?
    ensures InteriorAt(s, d, n)
  {
  }

  lemma OneChildLeaves(s: Snap, d: NodeId, p: NodeId, sib: NodeId)
    requires OneChild(s, d, p, sib)
    ensures d != NULL && d !in s.h && p in s.h && s.h[p].Interior? && InteriorAt(s, d, p)
    ensures sib in s.h && sib != p && Of(s, sib).ht < Of(s, p).ht
    ensures forall n :: n in s.h[p].children ==> n == d || n == sib
  {
  }

  /** What the collapse does to the separators and children of another node. */
  lemma CollapsedRow(s: Snap, d: NodeId, p: NodeId, sib: NodeId, s': Snap, n: NodeId)
    requires Domain(s) && Interiors(s, d) && OneChild(s, d, p, sib) && Collapsed(s, p, sib, s') && n in s.h && n != p
    ensures n in s'.h && Of(s', n) == Of(s, n) && s'.h[n].Border? == s.h[n].Border?
    ensures s.h[n].Interior? ==> s'.h[n].keys == s.h[n].keys && |s'.h[n].children| == |s.h[n].children|
    ensures s.h[n].Interior? ==> forall i :: 0 <= i < |s.h[n].children| ==>
              s'.h[n].children[i] == if s.h[n].children[i] == p then sib else s.h[n].children[i]
  {
    if s.h[n].Interior? && n != s.h[p].parent {
      assert InteriorAt(s, d, n);
      forall i | 0 <= i < |s.h[n].children|
        ensures s.h[n].children[i] != p
      {
        assert Dangling(d, s.h[n].children[i]) || KidAt(s, n, i, s.h[n].children[i]);
      }
    }
  }
}
