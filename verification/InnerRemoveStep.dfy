/** Removing a buried child from an interior node, and collapsing a node left with one child. */
module InnerRemoveStep {
  import opened Keys
  import opened Contents
  import opened Store
  import opened AttachStep
  import opened RemoveStep

  // ---- more than two children: one is dropped ----

  ghost predicate Dropped(s: Snap, p: NodeId, i: nat, s': Snap)
    requires p in s.h && s.h[p].Interior? && i <= |s.h[p].keys| && |s.h[p].keys| > 0 && i < |s.h[p].children|
  {
    var n := s.h[p];
    s' == s.(h := s.h[p := n.(keys := DropKey(n.keys, i), children := RemoveAt(n.children, i),
                              ver := n.ver.(vins := n.ver.vins + 1))])
  }

  lemma DropKid(s: Snap, d: NodeId, p: NodeId, i: nat, j: nat, s': Snap)
    requires p in s.h && s.h[p].Interior? && InteriorAt(s, d, p) && |s.h[p].keys| > 1
    requires i < |s.h[p].children| && s.h[p].children[i] == d && Dropped(s, p, i, s')
    requires j < |s'.h[p].children| && Alike(s, s')
    ensures KidAt(s', p, j, s'.h[p].children[j])
  {
    var ks, ks' := s.h[p].keys, DropKey(s.h[p].keys, i);
    var m := if j < i then j else j + 1;
    var r := if i == 0 then 0 else i - 1;
    assert KidAt(s, p, m, s.h[p].children[m]);
    assert j > 0 ==> ks'[j - 1] == ks[if j - 1 < r then j - 1 else j];
    assert j < |ks'| ==> ks'[j] == ks[if j < r then j else j + 1];
  }

  lemma DroppedAlike(s: Snap, p: NodeId, i: nat, s': Snap)
    requires p in s.h && s.h[p].Interior? && i <= |s.h[p].keys| && |s.h[p].keys| > 0 && i < |s.h[p].children|
    requires Dropped(s, p, i, s')
    ensures Alike(s, s')
  {
  }

  lemma DropRow(s: Snap, d: NodeId, p: NodeId, i: nat, s': Snap)
    requires p in s.h && s.h[p].Interior? && InteriorAt(s, d, p) && |s.h[p].keys| > 1
    requires i < |s.h[p].children| && s.h[p].children[i] == d && Dropped(s, p, i, s') && Alike(s, s')
    ensures InteriorAt(s', NULL, p)
  {
    DropKeepsSorted(s.h[p].keys, i);
    forall j | 0 <= j < |s'.h[p].children|
      ensures KidAt(s', p, j, s'.h[p].children[j])
    {
      DropKid(s, d, p, i, j, s');
    }
    RemoveDistinct(s.h[p].children, i);
  }

  lemma RemoveDistinct(cs: seq<NodeId>, i: nat)
    requires i < |cs| && forall a, b :: 0 <= a < b < |cs| ==> cs[a] != cs[b]
    ensures forall a, b :: 0 <= a < b < |cs| - 1 ==> RemoveAt(cs, i)[a] != RemoveAt(cs, i)[b]
    ensures forall n :: n in cs && n != cs[i] ==> n in RemoveAt(cs, i)
  {
    var cs' := RemoveAt(cs, i);
    forall n | n in cs && n != cs[i]
      ensures n in cs'
    {
      var j :| 0 <= j < |cs| && cs[j] == n;
      assert cs'[if j < i then j else j - 1] == n;
    }
  }

  lemma DropNodes(s: Snap, d: NodeId, p: NodeId, i: nat, s': Snap)
    requires Interiors(s, d) && Borders(s, d) && Orphaned(s, d, p) && s.h[p].Interior? && |s.h[p].keys| > 1
    requires i < |s.h[p].children| && i <= |s.h[p].keys| && s.h[p].children[i] == d && Dropped(s, p, i, s')
    ensures Interiors(s', NULL) && Borders(s', NULL)
  {
    DroppedAlike(s, p, i, s');
    assert InteriorAt(s, d, p);
    forall n | n in s'.h && s'.h[n].Interior?
      ensures InteriorAt(s', NULL, n)
    {
      if n == p {
        DropRow(s, d, p, i, s');
      } else {
        SettledInterior(s, d, p, n, s');
      }
    }
    forall n | n in s'.h && s'.h[n].Border?
      ensures BorderAt(s', NULL, n)
    {
      SettledBorder(s, d, p, n, s');
    }
  }

  lemma DropParents(s: Snap, d: NodeId, p: NodeId, i: nat, s': Snap)
    requires Domain(s) && Parents(s, NULL) && Orphaned(s, d, p) && s.h[p].Interior? && InteriorAt(s, d, p)
    requires |s.h[p].keys| > 1
    requires i < |s.h[p].children| && i <= |s.h[p].keys| && s.h[p].children[i] == d && Dropped(s, p, i, s')
    ensures Parents(s', NULL)
  {
    RemoveDistinct(s.h[p].children, i);
    forall n | n in s'.h
      ensures ParentAt(s', n)
    {
      assert ParentAt(s, n);
      if n != s.root {
        assert IsChild(s'.h[s.h[n].parent], n);
      }
    }
  }

  lemma DropChains(s: Snap, p: NodeId, i: nat, s': Snap)
    requires Domain(s) && Chains(s) && p in s.h && s.h[p].Interior?
    requires i <= |s.h[p].keys| && |s.h[p].keys| > 0 && i < |s.h[p].children| && Dropped(s, p, i, s')
    ensures Chains(s')
  {
    ChainsAlike(s, s');
  }

  /** Dropping a child at any position keeps the shape. */
  lemma DropKeepsShape(s: Snap, d: NodeId, p: NodeId, i: nat, s': Snap)
    requires Shape(s, NULL, d) && Orphaned(s, d, p) && s.h[p].Interior? && |s.h[p].keys| > 1
    requires i < |s.h[p].children| && i <= |s.h[p].keys| && s.h[p].children[i] == d && Dropped(s, p, i, s')
    ensures Shape(s', NULL, NULL)
  {
    assert InteriorAt(s, d, p);
    DropNodes(s, d, p, i, s');
    DropParents(s, d, p, i, s');
    DropChains(s, p, i, s');
  }

  // ---- two children: the sibling takes the place of its parent ----

  function Swap(cs: seq<NodeId>, from: NodeId, to: NodeId): (r: seq<NodeId>)
    ensures |r| == |cs|
  {
    seq(|cs|, i requires 0 <= i < |cs| => if cs[i] == from then to else cs[i])
  }

  ghost function CollapsedNode(n: Node, m: NodeId, p: NodeId, gp: NodeId, sib: NodeId, top: bool): Node {
    if m == sib then n.(parent := gp, ver := n.ver.(root := top))
    else if m == gp then
      (match n
       case Border(_, _, es, _, _) => n.(entries := Relink(es, p, sib))
       case Interior(_, _, _, cs) => n.(children := Swap(cs, p, sib)))
    else n
  }

  ghost predicate Collapsed(s: Snap, p: NodeId, sib: NodeId, s': Snap)
    requires p in s.h
  {
    var gp := s.h[p].parent;
    var top := gp == NULL || (gp in s.h && s.h[gp].Border?);
    && s'.h.Keys == s.h.Keys - {p} && s'.sh.Keys == s'.h.Keys
    && s'.root == (if gp == NULL then sib else s.root)
    && (forall m <- s'.h :: s'.h[m] == CollapsedNode(s.h[m], m, p, gp, sib, top))
    && (forall m <- s'.h :: Of(s', m) == Of(s, m))
  }

  /** What is known when `p` is left with the one child `sib`. */
  ghost predicate OneChild(s: Snap, d: NodeId, p: NodeId, sib: NodeId) {
    && Orphaned(s, d, p) && s.h[p].Interior? && |s.h[p].keys| == 1 && InteriorAt(s, d, p)
    && sib in s.h && s.h[sib].parent == p && !s.h[sib].ver.root && sib != p && sib != s.root
    && Of(s, sib).pfx == Of(s, p).pfx && Of(s, sib).ht < Of(s, p).ht
    && Of(s, p).lo <= Of(s, sib).lo && Of(s, sib).hi <= Of(s, p).hi
    && (forall n :: n in s.h[p].children <==> n == d || n == sib)
    && s.h[p].parent != p && s.h[p].parent != sib && ParentAt(s, p)
    && (s.h[p].parent == NULL <==> p == s.root)
  }

  lemma CollapseInterior(s: Snap, d: NodeId, p: NodeId, sib: NodeId, s': Snap, n: NodeId)
    requires Domain(s) && OneChild(s, d, p, sib) && Collapsed(s, p, sib, s')
    requires n in s'.h && s.h[n].Interior? && n != s.h[p].parent && InteriorAt(s, d, n)
    ensures InteriorAt(s', NULL, n)
  {
    NotDangling(s, d, p, n);
    var cs := s.h[n].children;
    forall i | 0 <= i < |cs|
      ensures KidAt(s', n, i, cs[i])
    {
      assert KidAt(s, n, i, cs[i]);
    }
  }

  lemma CollapseGrandparent(s: Snap, d: NodeId, p: NodeId, sib: NodeId, s': Snap)
    requires Domain(s) && OneChild(s, d, p, sib) && Collapsed(s, p, sib, s')
    requires var g := s.h[p].parent; g in s.h && s.h[g].Interior? && InteriorAt(s, d, g)
    ensures InteriorAt(s', NULL, s.h[p].parent)
  {
    var g := s.h[p].parent;
    NotDangling(s, d, p, g);
    var cs, cs' := s.h[g].children, Swap(s.h[g].children, p, sib);
    assert s'.h[g].children == cs' && s'.h[g].keys == s.h[g].keys;
    forall i | 0 <= i < |cs'|
      ensures KidAt(s', g, i, cs'[i]) && cs[i] != sib
    {
      assert KidAt(s, g, i, cs[i]);
    }
  }

  lemma CollapseBorder(s: Snap, d: NodeId, p: NodeId, sib: NodeId, s': Snap, n: NodeId)
    requires Domain(s) && OneChild(s, d, p, sib) && Collapsed(s, p, sib, s')
    requires n in s'.h && s.h[n].Border? && n != s.h[p].parent && BorderAt(s, d, n)
    ensures BorderAt(s', NULL, n)
  {
    NotDangling(s, d, p, n);
    var es := s.h[n].entries;
    forall i | 0 <= i < |es|
      ensures EntryAt(s', NULL, n, es[i])
    {
      assert EntryAt(s, d, n, es[i]);
    }
  }

  lemma CollapseHolder(s: Snap, d: NodeId, p: NodeId, sib: NodeId, s': Snap)
    requires Domain(s) && OneChild(s, d, p, sib) && Collapsed(s, p, sib, s')
    requires var g := s.h[p].parent; g in s.h && s.h[g].Border? && BorderAt(s, d, g)
    ensures BorderAt(s', NULL, s.h[p].parent)
  {
    var g := s.h[p].parent;
    NotDangling(s, d, p, g);
    var es, es' := s.h[g].entries, Relink(s.h[g].entries, p, sib);
    assert s'.h[g].entries == es';
    forall i | 0 <= i < |es|
      ensures es'[i].key == es[i].key && EntryAt(s', NULL, g, es'[i])
      ensures es[i].payload != Link(sib)
    {
      assert EntryAt(s, d, g, es[i]);
    }
    RelinkKeepsApart(es, p, sib);
  }

  lemma RelinkKeepsApart(es: seq<Entry>, p: NodeId, sib: NodeId)
    requires LinksApart(es) && forall i :: 0 <= i < |es| ==> es[i].payload != Link(sib)
    ensures LinksApart(Relink(es, p, sib))
  {
  }

  lemma CollapseNodes(s: Snap, d: NodeId, p: NodeId, sib: NodeId, s': Snap)
    requires Domain(s) && Interiors(s, d) && Borders(s, d) && OneChild(s, d, p, sib) && Collapsed(s, p, sib, s')
    ensures Interiors(s', NULL) && Borders(s', NULL)
  {
    forall n | n in s'.h && s'.h[n].Interior?
      ensures InteriorAt(s', NULL, n)
    {
      if n == s.h[p].parent {
        CollapseGrandparent(s, d, p, sib, s');
      } else {
        CollapseInterior(s, d, p, sib, s', n);
      }
    }
    forall n | n in s'.h && s'.h[n].Border?
      ensures BorderAt(s', NULL, n)
    {
      if n == s.h[p].parent {
        CollapseHolder(s, d, p, sib, s');
      } else {
        CollapseBorder(s, d, p, sib, s', n);
      }
    }
  }

  lemma SwapIn(cs: seq<NodeId>, from: NodeId, to: NodeId, n: NodeId)
    ensures (n in cs && n != from) || (from in cs && n == to) ==> n in Swap(cs, from, to)
  {
    var cs' := Swap(cs, from, to);
    if n in cs && n != from {
      var i :| 0 <= i < |cs| && cs[i] == n;
      assert cs'[i] == n;
    }
    if from in cs && n == to {
      var i :| 0 <= i < |cs| && cs[i] == from;
      assert cs'[i] == to;
    }
  }

  /** Whoever pointed at `p` points at the sibling, and keeps its other children. */
  lemma CollapsedChild(n: Node, m: NodeId, p: NodeId, gp: NodeId, sib: NodeId, top: bool, c: NodeId)
    requires m != sib && p != sib
    ensures m == gp && ((IsChild(n, c) && c != p) || (IsChild(n, p) && c == sib)) ==>
              IsChild(CollapsedNode(n, m, p, gp, sib, top), c)
    ensures m != gp && IsChild(n, c) ==> IsChild(CollapsedNode(n, m, p, gp, sib, top), c)
  {
    match n
    case Border(_, _, es, _, _) => RelinkLinks(es, p, sib, c);
    case Interior(_, _, _, cs) => SwapIn(cs, p, sib, c);
  }

  lemma CollapseParent(s: Snap, d: NodeId, p: NodeId, sib: NodeId, s': Snap, n: NodeId)
    requires Domain(s) && OneChild(s, d, p, sib) && Collapsed(s, p, sib, s')
    requires n in s'.h && ParentAt(s, n) && n != sib
    ensures ParentAt(s', n)
  {
    var g := s.h[p].parent;
    if n != s.root {
      var q := s.h[n].parent;
      if q == sib {
        assert IsChild(s'.h[sib], n) == IsChild(s.h[sib], n);
      } else {
        CollapsedChild(s.h[q], q, p, g, sib, g == NULL || s.h[g].Border?, n);
      }
    }
  }

  lemma CollapseSibling(s: Snap, d: NodeId, p: NodeId, sib: NodeId, s': Snap)
    requires Domain(s) && OneChild(s, d, p, sib) && Collapsed(s, p, sib, s')
    ensures ParentAt(s', sib)
  {
    var g := s.h[p].parent;
    if g != NULL {
      CollapsedChild(s.h[g], g, p, g, sib, s.h[g].Border?, sib);
    }
  }

  lemma CollapseParents(s: Snap, d: NodeId, p: NodeId, sib: NodeId, s': Snap)
    requires Domain(s) && Parents(s, NULL) && OneChild(s, d, p, sib) && Collapsed(s, p, sib, s')
    ensures Parents(s', NULL)
  {
    forall n | n in s'.h
      ensures ParentAt(s', n)
    {
      if n == sib {
        CollapseSibling(s, d, p, sib, s');
      } else {
        assert ParentAt(s, n);
        CollapseParent(s, d, p, sib, s', n);
      }
    }
  }

  lemma CollapseChains(s: Snap, d: NodeId, p: NodeId, sib: NodeId, s': Snap)
    requires Domain(s) && Chains(s) && OneChild(s, d, p, sib) && Collapsed(s, p, sib, s')
    ensures Chains(s')
  {
    ChainsAlike(s, s');
  }

  lemma OneChildLeft(s: Snap, d: NodeId, p: NodeId, sib: NodeId)
    requires Shape(s, NULL, d) && Orphaned(s, d, p) && s.h[p].Interior? && |s.h[p].keys| == 1
    requires sib in s.h[p].children && sib != d
    ensures OneChild(s, d, p, sib)
  {
    assert InteriorAt(s, d, p);
    var cs := s.h[p].children;
    var i :| 0 <= i < |cs| && cs[i] == sib;
    assert KidAt(s, p, i, sib);
    assert cs == [cs[0], cs[1]];
    assert cs[1 - i] == d;
    assert ParentAt(s, p) && ParentAt(s, sib);
    if p != s.root {
      ChildBelow(s, d, s.h[p].parent, p);
      KidNotAbove(s, d, p, sib);
    }
  }

  lemma KidNotAbove(s: Snap, d: NodeId, p: NodeId, sib: NodeId)
    requires Interiors(s, d) && Borders(s, d) && p in s.h && sib in s.h && p != d
    requires Of(s, sib).pfx == Of(s, p).pfx && Of(s, sib).ht < Of(s, p).ht
    ensures !IsChild(s.h[sib], p)
  {
    if s.h[sib].Interior? {
      assert InteriorAt(s, d, sib);
      forall i | 0 <= i < |s.h[sib].children| && s.h[sib].children[i] == p
        ensures KidAt(s, sib, i, p)
      {
      }
    } else {
      assert BorderAt(s, d, sib);
      forall i | 0 <= i < |s.h[sib].entries| && s.h[sib].entries[i].payload == Link(p)
        ensures EntryAt(s, d, sib, s.h[sib].entries[i])
      {
      }
    }
  }

  /** The collapse keeps the shape. */
  lemma CollapseKeepsShape(s: Snap, d: NodeId, p: NodeId, sib: NodeId, s': Snap)
    requires Shape(s, NULL, d) && Orphaned(s, d, p) && s.h[p].Interior? && |s.h[p].keys| == 1
    requires sib in s.h[p].children && sib != d && Collapsed(s, p, sib, s')
    ensures Shape(s', NULL, NULL)
  {
    OneChildLeft(s, d, p, sib);
    CollapseDomain(s, d, p, sib, s');
    CollapseNodes(s, d, p, sib, s');
    CollapseParents(s, d, p, sib, s');
    CollapseChains(s, d, p, sib, s');
  }

  lemma CollapseDomain(s: Snap, d: NodeId, p: NodeId, sib: NodeId, s': Snap)
    requires Domain(s) && OneChild(s, d, p, sib) && Collapsed(s, p, sib, s')
    ensures Domain(s')
  {
  }
}
