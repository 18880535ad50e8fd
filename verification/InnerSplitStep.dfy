/** Splitting a full interior node while a child waits to be entered in it. */
module InnerSplitStep {
  import opened Keys
  import opened Contents
  import opened Store
  import opened AttachStep

  /** The version of a half: both count a split, and the half that took the child an insertion. */
  function HalfVersion(v: Version, took: bool): Version {
    v.(vsplit := v.vsplit + 1, vins := if took then v.vins + 1 else v.vins)
  }

  /** The heap after `interior_split`: `p` keeps the left half, the new node `y` takes the right one
      and becomes the parent of the children moved to it; `x` names the half it went to. */
  ghost predicate InnerSplit(s: Snap, p: NodeId, x: NodeId, y: NodeId, hv: Halves, s': Snap)
    requires p in s.h && s.h[p].Interior? && x in s.h
  {
    && y != NULL && y !in s.h && p != x
    && s'.root == s.root && s'.h.Keys == s.h.Keys + {y} && s'.sh.Keys == s.h.Keys + {y}
    && !s.h[p].ver.deleted
    && s'.h[p] == Interior(s.h[p].parent, HalfVersion(s.h[p].ver, x in hv.leftKids), hv.leftKeys, hv.leftKids)
    && s'.h[y] == Interior(NULL, HalfVersion(s.h[p].ver, x !in hv.leftKids).(root := false),
                           hv.rightKeys, hv.rightKids)
    && (forall m <- s.h :: m != p ==>
          s'.h[m] == if m in hv.rightKids then Under(s.h[m], y) else if m == x then Under(s.h[m], p) else s.h[m])
    && Of(s', p) == Of(s, p).(hi := Ord(hv.pivot) - 1)
    && Of(s', y) == Info(Of(s, p).pfx, Ord(hv.pivot), Of(s, p).hi, Of(s, p).ht)
    && (forall m <- s.h :: m != p ==> Of(s', m) == Of(s, m))
  }

  /** The halves put together are a row for `p`. */
  ghost predicate RowHalves(s: Snap, p: NodeId, x: NodeId, hv: Halves) {
    && Row(s, p, x, hv.leftKeys + [hv.pivot] + hv.rightKeys, hv.leftKids + hv.rightKids)
    && 1 <= |hv.leftKeys| <= FANOUT && 1 <= |hv.rightKeys| <= FANOUT
    && |hv.leftKids| == |hv.leftKeys| + 1 && |hv.rightKids| == |hv.rightKeys| + 1
  }

  lemma LeftSlot(s: Snap, p: NodeId, x: NodeId, hv: Halves, j: nat)
    requires RowHalves(s, p, x, hv) && j < |hv.leftKids|
    ensures Slot(s, p, hv.leftKeys, j, hv.leftKids[j])
    ensures Of(s, hv.leftKids[j]).hi < Ord(hv.pivot)
    ensures hv.leftKids[j] !in hv.rightKids
    ensures hv.leftKids[j] == x || s.h[hv.leftKids[j]].parent == p
  {
    var ks := hv.leftKeys + [hv.pivot] + hv.rightKeys;
    var cs := hv.leftKids + hv.rightKids;
    assert Slot(s, p, ks, j, cs[j]);
    assert j > 0 ==> ks[j - 1] == hv.leftKeys[j - 1];
    assert ks[|hv.leftKeys|] == hv.pivot;
    forall i | 0 <= i < |hv.rightKids|
      ensures hv.rightKids[i] != hv.leftKids[j]
    {
      assert cs[|hv.leftKids| + i] == hv.rightKids[i];
    }
  }

  lemma RightSlot(s: Snap, p: NodeId, x: NodeId, hv: Halves, j: nat)
    requires RowHalves(s, p, x, hv) && j < |hv.rightKids|
    ensures Slot(s, p, hv.rightKeys, j, hv.rightKids[j])
    ensures Ord(hv.pivot) <= Of(s, hv.rightKids[j]).lo
    ensures hv.rightKids[j] == x || s.h[hv.rightKids[j]].parent == p
  {
    var ks := hv.leftKeys + [hv.pivot] + hv.rightKeys;
    var cs := hv.leftKids + hv.rightKids;
    var m := |hv.leftKids| + j;
    assert cs[m] == hv.rightKids[j];
    assert Slot(s, p, ks, m, cs[m]);
    assert ks[|hv.leftKeys|] == hv.pivot;
    assert j > 0 ==> ks[m - 1] == hv.rightKeys[j - 1];
    assert j < |hv.rightKeys| ==> ks[m] == hv.rightKeys[j];
  }

  lemma HalfKeys(s: Snap, p: NodeId, x: NodeId, hv: Halves)
    requires RowHalves(s, p, x, hv)
    ensures KeysSorted(hv.leftKeys) && KeysSorted(hv.rightKeys)
    ensures Canonical(hv.pivot) && hv.pivot.len > 0
    ensures forall i, j :: 0 <= i < j < |hv.leftKids| ==> hv.leftKids[i] != hv.leftKids[j]
    ensures forall i, j :: 0 <= i < j < |hv.rightKids| ==> hv.rightKids[i] != hv.rightKids[j]
  {
    var ks := hv.leftKeys + [hv.pivot] + hv.rightKeys;
    var cs := hv.leftKids + hv.rightKids;
    var l, k := |hv.leftKeys|, |hv.leftKids|;
    forall i | 0 <= i < l ensures hv.leftKeys[i] == ks[i] {}
    forall i | 0 <= i < |hv.rightKeys| ensures hv.rightKeys[i] == ks[l + 1 + i] {}
    forall i | 0 <= i < k ensures hv.leftKids[i] == cs[i] {}
    forall i | 0 <= i < |hv.rightKids| ensures hv.rightKids[i] == cs[k + i] {}
    assert ks[l] == hv.pivot;
  }

  lemma SplitLeftRow(s: Snap, p: NodeId, x: NodeId, y: NodeId, hv: Halves, s': Snap)
    requires p in s.h && s.h[p].Interior? && x in s.h && y !in s.h
    requires RowHalves(s, p, x, hv) && InnerSplit(s, p, x, y, hv, s')
    ensures InteriorAt(s', NULL, p)
  {
    HalfKeys(s, p, x, hv);
    forall j | 0 <= j < |hv.leftKids|
      ensures KidAt(s', p, j, hv.leftKids[j])
    {
      LeftSlot(s, p, x, hv, j);
    }
  }

  lemma SplitRightRow(s: Snap, p: NodeId, x: NodeId, y: NodeId, hv: Halves, s': Snap)
    requires p in s.h && s.h[p].Interior? && x in s.h && y !in s.h
    requires RowHalves(s, p, x, hv) && InnerSplit(s, p, x, y, hv, s')
    ensures InteriorAt(s', NULL, y)
  {
    HalfKeys(s, p, x, hv);
    forall j | 0 <= j < |hv.rightKids|
      ensures KidAt(s', y, j, hv.rightKids[j])
    {
      RightSlot(s, p, x, hv, j);
      assert hv.rightKids[j] in hv.rightKids;
    }
  }

  /** Children moved to the right named `p` as parent, or are the new child. */
  lemma RightKid(s: Snap, p: NodeId, x: NodeId, hv: Halves, m: NodeId)
    requires RowHalves(s, p, x, hv)
    ensures m in hv.rightKids ==> m in s.h && !s.h[m].ver.root && m != p && (m == x || s.h[m].parent == p)
  {
    if m in hv.rightKids {
      var j :| 0 <= j < |hv.rightKids| && hv.rightKids[j] == m;
      RightSlot(s, p, x, hv, j);
    }
  }

  lemma SplitOtherRow(s: Snap, p: NodeId, x: NodeId, y: NodeId, hv: Halves, s': Snap, n: NodeId)
    requires Domain(s) && p in s.h && s.h[p].Interior? && x in s.h && s.h[x].parent == NULL
    requires RowHalves(s, p, x, hv) && InnerSplit(s, p, x, y, hv, s')
    requires n in s.h && s.h[n].Interior? && n != p && InteriorAt(s, NULL, n)
    ensures InteriorAt(s', NULL, n)
  {
    var cs := s.h[n].children;
    RightSlot(s, p, x, hv, 0);
    assert Ord(hv.pivot) <= Of(s, p).hi;
    forall i | 0 <= i < |cs|
      ensures KidAt(s', n, i, cs[i])
    {
      assert KidAt(s, n, i, cs[i]);
      RightKid(s, p, x, hv, cs[i]);
    }
  }

  lemma SplitInteriors(s: Snap, p: NodeId, x: NodeId, y: NodeId, hv: Halves, s': Snap)
    requires Domain(s) && Interiors(s, NULL) && p in s.h && s.h[p].Interior? && x in s.h && s.h[x].parent == NULL
    requires RowHalves(s, p, x, hv) && InnerSplit(s, p, x, y, hv, s')
    ensures Interiors(s', NULL)
  {
    forall n | n in s'.h && s'.h[n].Interior?
      ensures InteriorAt(s', NULL, n)
    {
      if n == p {
        SplitLeftRow(s, p, x, y, hv, s');
      } else if n == y {
        SplitRightRow(s, p, x, y, hv, s');
      } else {
        assert n in s.h && s.h[n].Interior?;
        SplitOtherRow(s, p, x, y, hv, s', n);
      }
    }
  }

  lemma SplitBorder(s: Snap, p: NodeId, x: NodeId, y: NodeId, hv: Halves, s': Snap, n: NodeId)
    requires p in s.h && s.h[p].Interior? && x in s.h && !s.h[x].ver.root
    requires RowHalves(s, p, x, hv) && InnerSplit(s, p, x, y, hv, s')
    requires n in s.h && s.h[n].Border? && BorderAt(s, NULL, n)
    ensures s'.h[n].Border? && BorderAt(s', NULL, n)
  {
    var es := s.h[n].entries;
    forall i | 0 <= i < |es|
      ensures EntryAt(s', NULL, n, es[i])
    {
      assert EntryAt(s, NULL, n, es[i]);
      if es[i].payload.Link? {
        RightKid(s, p, x, hv, es[i].payload.to);
      }
    }
  }

  lemma SplitBorders(s: Snap, p: NodeId, x: NodeId, y: NodeId, hv: Halves, s': Snap)
    requires Borders(s, NULL) && p in s.h && s.h[p].Interior? && x in s.h && !s.h[x].ver.root
    requires RowHalves(s, p, x, hv) && InnerSplit(s, p, x, y, hv, s')
    ensures Borders(s', NULL)
  {
    forall n | n in s'.h && s'.h[n].Border?
      ensures BorderAt(s', NULL, n)
    {
      assert n in s.h && s.h[n].Border?;
      SplitBorder(s, p, x, y, hv, s', n);
    }
  }

  lemma SplitParent(s: Snap, p: NodeId, x: NodeId, y: NodeId, hv: Halves, s': Snap, n: NodeId)
    requires p in s.h && s.h[p].Interior? && x in s.h && x != s.root
    requires RowHalves(s, p, x, hv) && InnerSplit(s, p, x, y, hv, s')
    requires n in s.h && (n != x ==> ParentAt(s, n))
    requires n in s.h[p].children || n == x ==> n in hv.leftKids || n in hv.rightKids
    ensures ParentAt(s', n)
  {
    RightKid(s, p, x, hv, n);
    if n in hv.rightKids {
      assert IsChild(s'.h[y], n);
    } else if n == x || (n != s.root && s.h[n].parent == p) {
      assert IsChild(s'.h[p], n);
    } else if n != s.root {
      assert IsChild(s'.h[s.h[n].parent], n);
    }
  }

  lemma SplitParents(s: Snap, p: NodeId, x: NodeId, y: NodeId, hv: Halves, s': Snap)
    requires Domain(s) && Parents(s, x) && p in s.h && s.h[p].Interior? && x in s.h && x != s.root
    requires RowHalves(s, p, x, hv) && InnerSplit(s, p, x, y, hv, s')
    requires forall n :: n in s.h[p].children || n == x ==> n in hv.leftKids || n in hv.rightKids
    ensures Parents(s', y)
  {
    hide RowHalves, ParentAt;
    forall n | n in s'.h && n != y
      ensures ParentAt(s', n)
    {
      SplitParent(s, p, x, y, hv, s', n);
    }
  }

  lemma SplitDomain(s: Snap, p: NodeId, x: NodeId, y: NodeId, hv: Halves, s': Snap)
    requires Domain(s) && p in s.h && s.h[p].Interior? && x in s.h
    requires RowHalves(s, p, x, hv) && InnerSplit(s, p, x, y, hv, s')
    ensures Domain(s')
  {
    LeftSlot(s, p, x, hv, 0);
    RightSlot(s, p, x, hv, 0);
    forall n | n in s'.h
      ensures Of(s', n).lo <= Of(s', n).hi && |Of(s', n).pfx| % SLICE == 0
      ensures s'.h[n].ver.deleted ==> s'.h[n].Border?
    {
      if n != y && n != p {
        assert s'.h[n].ver == s.h[n].ver && Of(s', n) == Of(s, n);
      }
    }
  }

  lemma SplitChains(s: Snap, p: NodeId, x: NodeId, y: NodeId, hv: Halves, s': Snap)
    requires Domain(s) && Chains(s) && p in s.h && s.h[p].Interior? && x in s.h && InnerSplit(s, p, x, y, hv, s')
    ensures Chains(s')
  {
    ChainsAlike(s, s');
  }

  lemma SplitPending(s: Snap, p: NodeId, x: NodeId, y: NodeId, hv: Halves, s': Snap)
    requires Domain(s) && Interiors(s, NULL) && p in s.h && s.h[p].Interior? && x in s.h && ParentAt(s, p)
    requires RowHalves(s, p, x, hv) && InnerSplit(s, p, x, y, hv, s')
    ensures Pending(s', p, y, hv.pivot)
  {
    HalfKeys(s, p, x, hv);
    var q := s.h[p].parent;
    if q in s.h && s.h[q].Interior? {
      RoomAfter(s, q, p);
      assert Of(s', y).hi <= Of(s, q).hi;
    }
  }

  lemma HalvesRow(s: Snap, left: NodeId, x: NodeId, sep: KeyTuple, p: NodeId, hv: Halves)
    requires Domain(s) && Interiors(s, NULL) && p in s.h && s.h[p].Interior? && Pending(s, left, x, sep)
    requires s.h[left].parent == p && left in s.h[p].children && |s.h[p].keys| == FANOUT
    requires KeysSorted(s.h[p].keys) && |s.h[p].children| == FANOUT + 1
    requires hv == SplitInterior(s.h[p].keys, s.h[p].children, sep, x)
    ensures RowHalves(s, p, x, hv)
    ensures forall n :: n in s.h[p].children || n == x ==> n in hv.leftKids || n in hv.rightKids
  {
    var ks, cs := s.h[p].keys, s.h[p].children;
    var i :| 0 <= i < |cs| && cs[i] == left;
    LeftPosition(s, left, x, sep, p, i);
    RowEntered(s, left, x, sep, p, i);
    SplitInteriorCorrect(ks, cs, sep, x, i);
    forall n | n in cs || n == x
      ensures n in hv.leftKids || n in hv.rightKids
    {
      InsertedIn(cs, i + 1, x, n);
      assert n in hv.leftKids + hv.rightKids;
    }
  }

  /** An interior split keeps the shape; now the new interior node waits for its parent. */
  lemma InnerSplitKeepsShape(s: Snap, left: NodeId, x: NodeId, sep: KeyTuple, p: NodeId, y: NodeId, hv: Halves, s': Snap)
    requires Shape(s, x, NULL) && Pending(s, left, x, sep)
    requires p in s.h && s.h[p].Interior? && s.h[left].parent == p && |s.h[p].keys| == FANOUT
    requires KeysSorted(s.h[p].keys) && |s.h[p].children| == FANOUT + 1
    requires hv == SplitInterior(s.h[p].keys, s.h[p].children, sep, x)
    requires InnerSplit(s, p, x, y, hv, s')
    ensures Shape(s', y, NULL) && Pending(s', p, y, hv.pivot)
  {
    assert left in s.h[p].children by { assert ParentAt(s, left); }
    HalvesRow(s, left, x, sep, p, hv);
    SplitDomain(s, p, x, y, hv, s');
    SplitInteriors(s, p, x, y, hv, s');
    SplitBorders(s, p, x, y, hv, s');
    SplitParents(s, p, x, y, hv, s');
    SplitChains(s, p, x, y, hv, s');
    assert ParentAt(s, p);
    SplitPending(s, p, x, y, hv, s');
  }
}
