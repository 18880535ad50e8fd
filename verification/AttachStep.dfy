/** Entering the right half of a split in the parent of the left half. */
module AttachStep {
  import opened Keys
  import opened Contents
  import opened Store

  // ---- a new interior node over both halves ----

  /** The parent border swaps its link. */
  function Relink(es: seq<Entry>, from: NodeId, to: NodeId): (r: seq<Entry>)
    ensures |r| == |es|
  {
    seq(|es|, i requires 0 <= i < |es| =>
      if es[i].payload == Link(from) then Entry(es[i].key, Link(to)) else es[i])
  }

  lemma RelinkLinks(es: seq<Entry>, from: NodeId, to: NodeId, n: NodeId)
    requires from != to
    ensures HasLink(Relink(es, from, to), n) <==>
            (HasLink(es, n) && n != from) || (HasLink(es, from) && n == to)
  {
    var es' := Relink(es, from, to);
    forall i | 0 <= i < |es|
      ensures es'[i].payload == if es[i].payload == Link(from) then Link(to) else es[i].payload
    {
    }
    if HasLink(es, from) {
      var i :| 0 <= i < |es| && es[i].payload == Link(from);
      assert es'[i].payload == Link(to);
    }
    if HasLink(es, n) && n != from {
      var i :| 0 <= i < |es| && es[i].payload == Link(n);
      assert es'[i].payload == Link(n);
    }
  }

  /** The heap after `create_interior_parent_of_*`: node `t` over `left` and `x`, put in the place
      of `left` as top root or as target of the link. */
  ghost predicate Crowned(s: Snap, left: NodeId, x: NodeId, sep: KeyTuple, t: NodeId, s': Snap)
    requires left in s.h && x in s.h
  {
    var p := s.h[left].parent;
    && t != NULL && t !in s.h && (p == NULL || (p in s.h && s.h[p].Border?))
    && s'.h.Keys == s.h.Keys + {t} && s'.sh.Keys == s.h.Keys + {t}
    && s'.root == (if p == NULL then t else s.root)
    && s'.h[t] == Interior(p, Version(1, 0, false, true), [sep], [left, x])
    && (forall m <- s.h :: s'.h[m] == CrownedNode(s.h[m], m, left, x, t, p))
    && Of(s', t) == Info(Of(s, left).pfx, Of(s, left).lo, Of(s, x).hi, Of(s, left).ht + 1)
    && (forall m <- s.h :: Of(s', m) == Of(s, m))
  }

  ghost function CrownedNode(n: Node, m: NodeId, left: NodeId, x: NodeId, t: NodeId, p: NodeId): Node {
    if m == left || m == x then n.(parent := t, ver := n.ver.(root := false))
    else if m == p && n.Border? then
      n.(entries := Relink(n.entries, left, t), ver := n.ver.(vins := n.ver.vins + 1))
    else n
  }

  lemma CrownInteriors(s: Snap, left: NodeId, x: NodeId, sep: KeyTuple, t: NodeId, s': Snap)
    requires Domain(s) && Interiors(s, NULL) && Pending(s, left, x, sep) && Crowned(s, left, x, sep, t, s')
    ensures Interiors(s', NULL)
  {
    forall n | n in s'.h && s'.h[n].Interior?
      ensures InteriorAt(s', NULL, n)
    {
      if n == t {
        assert KidAt(s', t, 0, left) && KidAt(s', t, 1, x);
      } else {
        CrownInterior(s, left, x, sep, t, s', n);
      }
    }
  }

  lemma CrownInterior(s: Snap, left: NodeId, x: NodeId, sep: KeyTuple, t: NodeId, s': Snap, n: NodeId)
    requires Domain(s) && Interiors(s, NULL) && Pending(s, left, x, sep) && Crowned(s, left, x, sep, t, s')
    requires n in s.h && s.h[n].Interior?
    ensures InteriorAt(s', NULL, n)
  {
    assert InteriorAt(s, NULL, n);
    forall i | 0 <= i < |s.h[n].children|
      ensures KidAt(s', n, i, s.h[n].children[i])
    {
      assert KidAt(s, n, i, s.h[n].children[i]);
    }
  }

  lemma CrownBorders(s: Snap, left: NodeId, x: NodeId, sep: KeyTuple, t: NodeId, s': Snap)
    requires Domain(s) && Borders(s, NULL) && Parents(s, x) && Pending(s, left, x, sep)
    requires Crowned(s, left, x, sep, t, s')
    requires s.h[left].Border? ==> s.h[left].entries != []
    ensures Borders(s', NULL)
  {
    forall n | n in s'.h && s'.h[n].Border?
      ensures BorderAt(s', NULL, n)
    {
      assert ParentAt(s, left);
      if n == s.h[left].parent {
        CrownHolder(s, left, x, sep, t, s');
      } else {
        CrownBorder(s, left, x, sep, t, s', n);
      }
    }
  }

  lemma CrownBorder(s: Snap, left: NodeId, x: NodeId, sep: KeyTuple, t: NodeId, s': Snap, n: NodeId)
    requires Domain(s) && Pending(s, left, x, sep)
    requires Crowned(s, left, x, sep, t, s')
    requires s.h[left].Border? ==> s.h[left].entries != []
    requires n in s.h && s.h[n].Border? && BorderAt(s, NULL, n) && n != s.h[left].parent
    requires s.h[left].parent == NULL ==> left == s.root
    ensures BorderAt(s', NULL, n)
  {
    var es := s.h[n].entries;
    forall i | 0 <= i < |es|
      ensures EntryAt(s', NULL, n, es[i])
    {
      assert EntryAt(s, NULL, n, es[i]);
    }
  }

  lemma CrownHolder(s: Snap, left: NodeId, x: NodeId, sep: KeyTuple, t: NodeId, s': Snap)
    requires Domain(s) && Borders(s, NULL) && Pending(s, left, x, sep)
    requires Crowned(s, left, x, sep, t, s')
    requires s.h[left].parent in s.h && s.h[s.h[left].parent].Border?
    ensures BorderAt(s', NULL, s.h[left].parent)
  {
    var p := s.h[left].parent;
    var es, es' := s.h[p].entries, Relink(s.h[p].entries, left, t);
    assert BorderAt(s, NULL, p);
    assert s'.h[p].entries == es' && Of(s', p) == Of(s, p);
    forall i | 0 <= i < |es|
      ensures es'[i].key == es[i].key && EntryAt(s', NULL, p, es'[i])
    {
      assert EntryAt(s, NULL, p, es[i]);
    }
    RelinkApart(s, p, left, t);
  }

  lemma RelinkApart(s: Snap, p: NodeId, left: NodeId, t: NodeId)
    requires p in s.h && s.h[p].Border? && BorderAt(s, NULL, p) && t !in s.h
    ensures LinksApart(Relink(s.h[p].entries, left, t))
  {
    var es := s.h[p].entries;
    forall i | 0 <= i < |es|
      ensures es[i].payload != Link(t) || t == NULL
    {
      assert EntryAt(s, NULL, p, es[i]);
    }
  }

  lemma CrownParents(s: Snap, left: NodeId, x: NodeId, sep: KeyTuple, t: NodeId, s': Snap)
    requires Domain(s) && Borders(s, NULL) && Parents(s, x) && Pending(s, left, x, sep)
    requires Crowned(s, left, x, sep, t, s')
    ensures Parents(s', NULL)
  {
    assert ParentAt(s, left);
    forall n | n in s'.h
      ensures ParentAt(s', n)
    {
      if n == t || n == left || n == x {
        CrownTop(s, left, x, sep, t, s');
      } else {
        assert ParentAt(s, n);
        CrownParent(s, left, x, sep, t, s', n);
      }
    }
  }

  /** A border that holds a link is in the layer above its target. */
  lemma HolderAbove(s: Snap, left: NodeId)
    requires Borders(s, NULL) && left in s.h && s.h[left].parent in s.h && s.h[s.h[left].parent].Border?
    requires ParentAt(s, left) && left != s.root
    ensures |Of(s, s.h[left].parent).pfx| < |Of(s, left).pfx|
  {
    var p := s.h[left].parent;
    assert BorderAt(s, NULL, p);
    var i :| 0 <= i < |s.h[p].entries| && s.h[p].entries[i].payload == Link(left);
    assert EntryAt(s, NULL, p, s.h[p].entries[i]);
  }

  lemma CrownTop(s: Snap, left: NodeId, x: NodeId, sep: KeyTuple, t: NodeId, s': Snap)
    requires Domain(s) && Borders(s, NULL) && Pending(s, left, x, sep)
    requires Crowned(s, left, x, sep, t, s') && ParentAt(s, left)
    ensures ParentAt(s', t) && ParentAt(s', left) && ParentAt(s', x)
  {
    var p := s.h[left].parent;
    assert s'.h[t].children[0] == left && s'.h[t].children[1] == x;
    if p != NULL {
      HolderAbove(s, left);
      RelinkLinks(s.h[p].entries, left, t, t);
      assert IsChild(s'.h[p], t);
    }
  }

  lemma CrownParent(s: Snap, left: NodeId, x: NodeId, sep: KeyTuple, t: NodeId, s': Snap, n: NodeId)
    requires Domain(s) && Pending(s, left, x, sep) && Crowned(s, left, x, sep, t, s')
    requires n in s.h && n != left && n != x && ParentAt(s, n)
    requires s.h[left].parent == NULL ==> left == s.root
    ensures ParentAt(s', n)
  {
    if n != s.root {
      var q := s.h[n].parent;
      if q == s.h[left].parent {
        RelinkLinks(s.h[q].entries, left, t, n);
      }
      assert IsChild(s'.h[q], n);
    }
  }

  lemma CrownDomain(s: Snap, left: NodeId, x: NodeId, sep: KeyTuple, t: NodeId, s': Snap)
    requires Domain(s) && Pending(s, left, x, sep) && Crowned(s, left, x, sep, t, s')
    ensures Domain(s')
  {
  }

  lemma CrownChains(s: Snap, left: NodeId, x: NodeId, sep: KeyTuple, t: NodeId, s': Snap)
    requires Domain(s) && Chains(s) && left in s.h && x in s.h && Crowned(s, left, x, sep, t, s')
    ensures Chains(s')
  {
    ChainsAlike(s, s');
  }

  /** The new interior node completes the shape. */
  lemma CrownKeepsShape(s: Snap, left: NodeId, x: NodeId, sep: KeyTuple, t: NodeId, s': Snap)
    requires Shape(s, x, NULL) && Pending(s, left, x, sep) && Crowned(s, left, x, sep, t, s')
    requires s.h[left].Border? ==> s.h[left].entries != []
    ensures Shape(s', NULL, NULL)
  {
    CrownDomain(s, left, x, sep, t, s');
    CrownInteriors(s, left, x, sep, t, s');
    CrownBorders(s, left, x, sep, t, s');
    CrownParents(s, left, x, sep, t, s');
    CrownChains(s, left, x, sep, t, s');
  }

  // ---- the row of children with the new one entered ----

  /** Child `c` fits at position `j` among separators `ks` of node `p`. */
  ghost predicate Slot(s: Snap, p: NodeId, ks: seq<KeyTuple>, j: nat, c: NodeId) {
    && c in s.h && !s.h[c].ver.root
    && Of(s, c).pfx == Of(s, p).pfx && Of(s, c).ht < Of(s, p).ht
    && Of(s, p).lo <= Of(s, c).lo && Of(s, c).hi <= Of(s, p).hi
    && (0 < j <= |ks| ==> Ord(ks[j - 1]) <= Of(s, c).lo)
    && (j < |ks| ==> Of(s, c).hi < Ord(ks[j]))
  }

  /** Separators `ks` and children `cs` make a row for `p`; all but `x` already name `p` as parent. */
  ghost predicate Row(s: Snap, p: NodeId, x: NodeId, ks: seq<KeyTuple>, cs: seq<NodeId>) {
    && |cs| == |ks| + 1 && KeysSorted(ks)
    && (forall j :: 0 <= j < |cs| ==> Slot(s, p, ks, j, cs[j]))
    && (forall j :: 0 <= j < |cs| ==> cs[j] == x || s.h[cs[j]].parent == p)
    && (forall i, j :: 0 <= i < j < |cs| ==> cs[i] != cs[j])
  }

  /** The position of `left` is where the new separator belongs. */
  lemma LeftPosition(s: Snap, left: NodeId, x: NodeId, sep: KeyTuple, p: NodeId, i: nat)
    requires Interiors(s, NULL) && p in s.h && s.h[p].Interior? && Pending(s, left, x, sep)
    requires s.h[left].parent == p && i < |s.h[p].children| && s.h[p].children[i] == left
    requires forall n <- s.h :: Of(s, n).lo <= Of(s, n).hi
    ensures i > 0 ==> Ord(s.h[p].keys[i - 1]) < Ord(sep)
    ensures i < |s.h[p].keys| ==> Ord(sep) < Ord(s.h[p].keys[i])
    ensures ChildIndex(s.h[p].keys, Ord(sep)) == i
  {
    assert InteriorAt(s, NULL, p) && KidAt(s, p, i, left);
    ChildIndexUnique(s.h[p].keys, Ord(sep), i);
  }

  lemma DistinctInserted(cs: seq<NodeId>, i: nat, x: NodeId)
    requires i <= |cs| && x !in cs
    requires forall a, b :: 0 <= a < b < |cs| ==> cs[a] != cs[b]
    ensures forall a, b :: 0 <= a < b <= |cs| ==> InsertAt(cs, i, x)[a] != InsertAt(cs, i, x)[b]
  {
    var s := InsertAt(cs, i, x);
    forall a, b | 0 <= a < b < |s|
      ensures s[a] != s[b]
    {
      assert s[a] == if a < i then cs[a] else if a == i then x else cs[a - 1];
      assert s[b] == if b < i then cs[b] else if b == i then x else cs[b - 1];
    }
  }

  lemma RowEntered(s: Snap, left: NodeId, x: NodeId, sep: KeyTuple, p: NodeId, i: nat)
    requires Domain(s) && Interiors(s, NULL) && p in s.h && s.h[p].Interior? && Pending(s, left, x, sep)
    requires s.h[left].parent == p && i < |s.h[p].children| && s.h[p].children[i] == left
    ensures Row(s, p, x, InsertAt(s.h[p].keys, i, sep), InsertAt(s.h[p].children, i + 1, x))
  {
    hide KidAt;
    var ks, cs := s.h[p].keys, s.h[p].children;
    assert InteriorAt(s, NULL, p);
    LeftPosition(s, left, x, sep, p, i);
    KeysInserted(ks, i, sep);
    NewChild(s, left, x, sep, p);
    DistinctInserted(cs, i + 1, x);
    var cs' := InsertAt(cs, i + 1, x);
    forall j | 0 <= j < |cs'|
      ensures Slot(s, p, InsertAt(ks, i, sep), j, cs'[j]) && (cs'[j] == x || s.h[cs'[j]].parent == p)
    {
      RowSlot(s, left, x, sep, p, i, j);
    }
  }

  lemma NewChild(s: Snap, left: NodeId, x: NodeId, sep: KeyTuple, p: NodeId)
    requires Domain(s) && p in s.h && s.h[p].Interior? && Pending(s, left, x, sep) && InteriorAt(s, NULL, p)
    ensures forall j :: 0 <= j < |s.h[p].children| ==> s.h[p].children[j] != x
  {
    forall j | 0 <= j < |s.h[p].children|
      ensures s.h[p].children[j] != x
    {
      assert KidAt(s, p, j, s.h[p].children[j]);
    }
  }

  lemma RowSlot(s: Snap, left: NodeId, x: NodeId, sep: KeyTuple, p: NodeId, i: nat, j: nat)
    requires Domain(s) && p in s.h && s.h[p].Interior? && Pending(s, left, x, sep) && InteriorAt(s, NULL, p)
    requires s.h[left].parent == p && i < |s.h[p].children| && s.h[p].children[i] == left && j <= |s.h[p].children|
    ensures var c := InsertAt(s.h[p].children, i + 1, x)[j];
            Slot(s, p, InsertAt(s.h[p].keys, i, sep), j, c) && (c == x || s.h[c].parent == p)
  {
    hide Pending, Slot, KidAt, InteriorAt;
    if j <= i {
      RowLeft(s, left, x, sep, p, i, j);
    } else if j == i + 1 {
      RowNew(s, left, x, sep, p, i);
    } else {
      RowRight(s, left, x, sep, p, i, j);
    }
  }

  lemma RowLeft(s: Snap, left: NodeId, x: NodeId, sep: KeyTuple, p: NodeId, i: nat, j: nat)
    requires p in s.h && s.h[p].Interior? && Pending(s, left, x, sep) && InteriorAt(s, NULL, p)
    requires i < |s.h[p].children| && s.h[p].children[i] == left && j <= i
    ensures Slot(s, p, InsertAt(s.h[p].keys, i, sep), j, s.h[p].children[j])
    ensures s.h[s.h[p].children[j]].parent == p
  {
    var ks := s.h[p].keys;
    var ks' := InsertAt(ks, i, sep);
    assert KidAt(s, p, j, s.h[p].children[j]);
    assert j > 0 ==> ks'[j - 1] == ks[j - 1];
    assert ks'[j] == if j == i then sep else ks[j];
  }

  lemma RowNew(s: Snap, left: NodeId, x: NodeId, sep: KeyTuple, p: NodeId, i: nat)
    requires Domain(s) && p in s.h && s.h[p].Interior? && Pending(s, left, x, sep) && InteriorAt(s, NULL, p)
    requires s.h[left].parent == p && i < |s.h[p].children| && s.h[p].children[i] == left
    ensures Slot(s, p, InsertAt(s.h[p].keys, i, sep), i + 1, x)
  {
    var ks := s.h[p].keys;
    var ks' := InsertAt(ks, i, sep);
    assert KidAt(s, p, i, left);
    assert ks'[i] == sep;
    assert i < |ks| ==> ks'[i + 1] == ks[i];
  }

  lemma RowRight(s: Snap, left: NodeId, x: NodeId, sep: KeyTuple, p: NodeId, i: nat, j: nat)
    requires p in s.h && s.h[p].Interior? && InteriorAt(s, NULL, p)
    requires i + 1 < j <= |s.h[p].children|
    ensures Slot(s, p, InsertAt(s.h[p].keys, i, sep), j, s.h[p].children[j - 1])
    ensures s.h[s.h[p].children[j - 1]].parent == p
  {
    var ks := s.h[p].keys;
    var ks' := InsertAt(ks, i, sep);
    assert KidAt(s, p, j - 1, s.h[p].children[j - 1]);
    assert ks'[j - 1] == ks[j - 2];
    assert j < |ks'| ==> ks'[j] == ks[j - 1];
  }

  // ---- a parent with room ----

  ghost predicate Adopted(s: Snap, left: NodeId, x: NodeId, sep: KeyTuple, p: NodeId, s': Snap)
    requires p in s.h && s.h[p].Interior? && x in s.h
  {
    var i := ChildIndex(s.h[p].keys, Ord(sep));
    && i + 1 <= |s.h[p].children| && p != x
    && s'.root == s.root && s'.sh == s.sh && s'.h.Keys == s.h.Keys
    && s'.h[p] == s.h[p].(keys := InsertAt(s.h[p].keys, i, sep), children := InsertAt(s.h[p].children, i + 1, x),
                          ver := s.h[p].ver.(vins := s.h[p].ver.vins + 1))
    && s'.h[x] == s.h[x].(parent := p)
    && forall m <- s.h :: m != p && m != x ==> s'.h[m] == s.h[m]
  }

  lemma AdoptInteriors(s: Snap, left: NodeId, x: NodeId, sep: KeyTuple, p: NodeId, s': Snap)
    requires Domain(s) && Interiors(s, NULL) && Pending(s, left, x, sep)
    requires p in s.h && s.h[p].Interior? && s.h[left].parent == p && left in s.h[p].children
    requires |s.h[p].keys| < FANOUT && Adopted(s, left, x, sep, p, s')
    ensures Interiors(s', NULL)
  {
    hide Pending, Row, InteriorAt;
    AdoptedRow(s, left, x, sep, p, s');
    forall n | n in s'.h && s'.h[n].Interior?
      ensures InteriorAt(s', NULL, n)
    {
      if n == p {
        AdoptRow(s, left, x, sep, p, s');
      } else {
        AdoptOther(s, left, x, sep, p, s', n);
      }
    }
  }

  lemma AdoptedRow(s: Snap, left: NodeId, x: NodeId, sep: KeyTuple, p: NodeId, s': Snap)
    requires Domain(s) && Interiors(s, NULL) && Pending(s, left, x, sep)
    requires p in s.h && s.h[p].Interior? && s.h[left].parent == p && left in s.h[p].children
    requires Adopted(s, left, x, sep, p, s')
    ensures x in s.h && Row(s, p, x, s'.h[p].keys, s'.h[p].children)
  {
    hide Row, KidAt, InteriorAt;
    var i :| 0 <= i < |s.h[p].children| && s.h[p].children[i] == left;
    LeftPosition(s, left, x, sep, p, i);
    RowEntered(s, left, x, sep, p, i);
  }

  lemma AdoptRow(s: Snap, left: NodeId, x: NodeId, sep: KeyTuple, p: NodeId, s': Snap)
    requires p in s.h && s.h[p].Interior? && x in s.h && |s.h[p].keys| < FANOUT && Adopted(s, left, x, sep, p, s')
    requires Row(s, p, x, s'.h[p].keys, s'.h[p].children)
    ensures InteriorAt(s', NULL, p)
  {
    var ks, cs := s'.h[p].keys, s'.h[p].children;
    forall j | 0 <= j < |cs|
      ensures KidAt(s', p, j, cs[j])
    {
      assert Slot(s, p, ks, j, cs[j]);
    }
  }

  lemma AdoptOther(s: Snap, left: NodeId, x: NodeId, sep: KeyTuple, p: NodeId, s': Snap, n: NodeId)
    requires Domain(s) && Interiors(s, NULL) && Pending(s, left, x, sep)
    requires p in s.h && s.h[p].Interior? && Adopted(s, left, x, sep, p, s')
    requires n in s.h && s.h[n].Interior? && n != p
    ensures InteriorAt(s', NULL, n)
  {
    assert InteriorAt(s, NULL, n);
    forall i | 0 <= i < |s.h[n].children|
      ensures KidAt(s', n, i, s.h[n].children[i])
    {
      assert KidAt(s, n, i, s.h[n].children[i]);
    }
  }

  lemma AdoptBorders(s: Snap, left: NodeId, x: NodeId, sep: KeyTuple, p: NodeId, s': Snap)
    requires Domain(s) && Borders(s, NULL) && Pending(s, left, x, sep)
    requires p in s.h && s.h[p].Interior? && Adopted(s, left, x, sep, p, s')
    ensures Borders(s', NULL)
  {
    forall n | n in s'.h && s'.h[n].Border?
      ensures BorderAt(s', NULL, n)
    {
      assert BorderAt(s, NULL, n);
      forall i | 0 <= i < |s.h[n].entries|
        ensures EntryAt(s', NULL, n, s.h[n].entries[i])
      {
        assert EntryAt(s, NULL, n, s.h[n].entries[i]);
      }
    }
  }

  lemma AdoptParents(s: Snap, left: NodeId, x: NodeId, sep: KeyTuple, p: NodeId, s': Snap)
    requires Domain(s) && Parents(s, x) && Pending(s, left, x, sep)
    requires p in s.h && s.h[p].Interior? && Adopted(s, left, x, sep, p, s')
    ensures Parents(s', NULL)
  {
    hide ParentAt;
    forall n | n in s'.h
      ensures ParentAt(s', n)
    {
      if n == x {
        AdoptNew(s, left, x, sep, p, s');
      } else {
        assert ParentAt(s, n);
        AdoptParent(s, left, x, sep, p, s', n);
      }
    }
  }

  lemma AdoptLeft(s: Snap, left: NodeId, x: NodeId, sep: KeyTuple, p: NodeId, s': Snap)
    requires Domain(s) && Parents(s, x) && Pending(s, left, x, sep)
    requires p in s.h && s.h[p].Interior? && s.h[left].parent == p && Adopted(s, left, x, sep, p, s')
    ensures left in s.h && left in s.h[p].children && x in s.h && Domain(s')
  {
    assert ParentAt(s, left);
  }

  lemma AdoptNew(s: Snap, left: NodeId, x: NodeId, sep: KeyTuple, p: NodeId, s': Snap)
    requires p in s.h && s.h[p].Interior? && x in s.h && x != s.root && Adopted(s, left, x, sep, p, s')
    ensures ParentAt(s', x)
  {
    InsertedIn(s.h[p].children, ChildIndex(s.h[p].keys, Ord(sep)) + 1, x, x);
    assert IsChild(s'.h[p], x);
  }

  lemma AdoptParent(s: Snap, left: NodeId, x: NodeId, sep: KeyTuple, p: NodeId, s': Snap, n: NodeId)
    requires n in s.h && n != x && ParentAt(s, n)
    requires p in s.h && s.h[p].Interior? && x in s.h && Adopted(s, left, x, sep, p, s')
    ensures ParentAt(s', n)
  {
    if n != s.root {
      InsertedIn(s.h[p].children, ChildIndex(s.h[p].keys, Ord(sep)) + 1, x, n);
      assert IsChild(s'.h[s.h[n].parent], n);
    }
  }

  lemma InsertedIn(cs: seq<NodeId>, i: nat, x: NodeId, n: NodeId)
    requires i <= |cs|
    ensures n in cs || n == x ==> n in InsertAt(cs, i, x)
  {
    var cs' := InsertAt(cs, i, x);
    assert cs'[i] == x;
    if n in cs {
      var j :| 0 <= j < |cs| && cs[j] == n;
      assert cs'[if j < i then j else j + 1] == n;
    }
  }

  lemma AdoptChains(s: Snap, left: NodeId, x: NodeId, sep: KeyTuple, p: NodeId, s': Snap)
    requires Domain(s) && Chains(s) && x in s.h && p in s.h && s.h[p].Interior? && Adopted(s, left, x, sep, p, s')
    ensures Chains(s')
  {
    ChainsAlike(s, s');
  }

  /** A parent with room takes the new child right after the one it split from. */
  lemma AdoptKeepsShape(s: Snap, left: NodeId, x: NodeId, sep: KeyTuple, p: NodeId, s': Snap)
    requires Shape(s, x, NULL) && Pending(s, left, x, sep)
    requires p in s.h && s.h[p].Interior? && s.h[left].parent == p
    requires |s.h[p].keys| < FANOUT && Adopted(s, left, x, sep, p, s')
    ensures Shape(s', NULL, NULL)
  {
    hide Domain, Interiors, Borders, Parents, Chains, Pending, Adopted;
    AdoptLeft(s, left, x, sep, p, s');
    AdoptInteriors(s, left, x, sep, p, s');
    AdoptBorders(s, left, x, sep, p, s');
    AdoptParents(s, left, x, sep, p, s');
    AdoptChains(s, left, x, sep, p, s');
  }
}
