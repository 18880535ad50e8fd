/** Removing an entry, an emptied border and a child of an interior node. */
module RemoveStep {
  import opened Keys
  import opened Contents
  import opened Store

  /** Node `d` is gone from the heap and `p` is the one node that still points at it. */
  ghost predicate Orphaned(s: Snap, d: NodeId, p: NodeId) {
    && d != NULL && d !in s.h && p in s.h && IsChild(s.h[p], d)
    && forall n <- s.h :: n != p ==> !IsChild(s.h[n], d)
  }

  /** Entry `i` of border `b` may go: it is a value, or the link to the node just buried. */
  ghost predicate Removable(s: Snap, b: NodeId, i: nat, d: NodeId) {
    && b in s.h && s.h[b].Border? && i < |s.h[b].entries|
    && if d == NULL then s.h[b].entries[i].payload.Value?
       else s.h[b].entries[i].payload == Link(d) && Orphaned(s, d, b)
  }

  lemma RemoveLink(es: seq<Entry>, i: nat, n: NodeId)
    requires i < |es| && LinksApart(es)
    ensures HasLink(RemoveAt(es, i), n) <==> HasLink(es, n) && es[i].payload != Link(n)
  {
    var es' := RemoveAt(es, i);
    if HasLink(es', n) {
      var j :| 0 <= j < |es'| && es'[j].payload == Link(n);
      assert es[if j < i then j else j + 1] == es'[j];
    }
    if HasLink(es, n) && es[i].payload != Link(n) {
      var j :| 0 <= j < |es| && es[j].payload == Link(n);
      assert es'[if j < i then j else j - 1] == es[j];
    }
  }

  // ---- an entry goes and others stay ----

  ghost predicate Taken(s: Snap, b: NodeId, i: nat, s': Snap)
    requires b in s.h && s.h[b].Border? && i < |s.h[b].entries|
  {
    s' == s.(h := s.h[b := s.h[b].(entries := RemoveAt(s.h[b].entries, i))])
  }

  /** Once the last pointer to `d` is gone, nothing dangles. */
  lemma NotDangling(s: Snap, d: NodeId, b: NodeId, n: NodeId)
    requires n in s.h && (d != NULL ==> Orphaned(s, d, b)) && n != b
    ensures s.h[n].Interior? ==> forall i :: 0 <= i < |s.h[n].children| ==> !Dangling(d, s.h[n].children[i])
    ensures s.h[n].Border? ==> forall i :: 0 <= i < |s.h[n].entries| && s.h[n].entries[i].payload.Link? ==>
                                             !Dangling(d, s.h[n].entries[i].payload.to)
  {
    assert d != NULL ==> !IsChild(s.h[n], d);
  }

  lemma SettledInterior(s: Snap, d: NodeId, b: NodeId, n: NodeId, s': Snap)
    requires (d != NULL ==> Orphaned(s, d, b)) && n != b
    requires n in s.h && s.h[n].Interior? && InteriorAt(s, d, n)
    requires n in s'.h && s'.h[n].Interior? && s'.h[n].keys == s.h[n].keys && s'.h[n].children == s.h[n].children
    requires Alike(s, s')
    ensures InteriorAt(s', NULL, n)
  {
    NotDangling(s, d, b, n);
    forall i | 0 <= i < |s.h[n].children|
      ensures KidAt(s', n, i, s.h[n].children[i])
    {
      assert Dangling(d, s.h[n].children[i]) || KidAt(s, n, i, s.h[n].children[i]);
    }
  }

  lemma SettledBorder(s: Snap, d: NodeId, b: NodeId, n: NodeId, s': Snap)
    requires (d != NULL ==> Orphaned(s, d, b)) && n != b
    requires n in s.h && s.h[n].Border? && BorderAt(s, d, n)
    requires n in s'.h && s'.h[n].Border? && s'.h[n].entries == s.h[n].entries
    requires s'.h[n].ver.deleted == s.h[n].ver.deleted && s'.root == s.root
    requires Alike(s, s')
    ensures BorderAt(s', NULL, n)
  {
    NotDangling(s, d, b, n);
    forall i | 0 <= i < |s.h[n].entries|
      ensures EntryAt(s', NULL, n, s.h[n].entries[i])
    {
      assert EntryAt(s, d, n, s.h[n].entries[i]);
    }
  }

  lemma TakenAlike(s: Snap, b: NodeId, i: nat, s': Snap)
    requires b in s.h && s.h[b].Border? && i < |s.h[b].entries| && Taken(s, b, i, s')
    ensures Alike(s, s')
  {
  }

  lemma TakeBorder(s: Snap, b: NodeId, i: nat, d: NodeId, s': Snap)
    requires Removable(s, b, i, d) && BorderAt(s, d, b) && |s.h[b].entries| > 1
    requires Taken(s, b, i, s') && Alike(s, s')
    ensures BorderAt(s', NULL, b)
  {
    var es := s.h[b].entries;
    var es' := RemoveAt(es, i);
    RemoveKeepsSorted(es, i);
    forall j | 0 <= j < |es'|
      ensures EntryAt(s', NULL, b, es'[j])
    {
      var m := if j < i then j else j + 1;
      assert es'[j] == es[m] && EntryAt(s, d, b, es[m]);
      assert d != NULL ==> es[m].payload != es[i].payload;
    }
    RemoveApart(es, i);
  }

  lemma RemoveApart(es: seq<Entry>, i: nat)
    requires i < |es| && LinksApart(es)
    ensures LinksApart(RemoveAt(es, i))
  {
  }

  lemma TakeNodes(s: Snap, b: NodeId, i: nat, d: NodeId, s': Snap)
    requires Interiors(s, d) && Borders(s, d) && Removable(s, b, i, d) && |s.h[b].entries| > 1
    requires Taken(s, b, i, s')
    ensures Interiors(s', NULL) && Borders(s', NULL)
  {
    TakenAlike(s, b, i, s');
    forall n | n in s'.h && s'.h[n].Interior?
      ensures InteriorAt(s', NULL, n)
    {
      SettledInterior(s, d, b, n, s');
    }
    forall n | n in s'.h && s'.h[n].Border?
      ensures BorderAt(s', NULL, n)
    {
      if n == b {
        TakeBorder(s, b, i, d, s');
      } else {
        SettledBorder(s, d, b, n, s');
      }
    }
  }

  lemma TakeParents(s: Snap, b: NodeId, i: nat, d: NodeId, s': Snap)
    requires Domain(s) && Parents(s, NULL) && Removable(s, b, i, d) && BorderAt(s, d, b)
    requires Taken(s, b, i, s')
    ensures Parents(s', NULL)
  {
    forall n | n in s'.h
      ensures ParentAt(s', n)
    {
      assert ParentAt(s, n);
      RemoveLink(s.h[b].entries, i, n);
      if n != s.root {
        assert IsChild(s'.h[s.h[n].parent], n);
      }
    }
  }

  lemma TakeChains(s: Snap, b: NodeId, i: nat, s': Snap)
    requires Domain(s) && Chains(s) && b in s.h && s.h[b].Border? && i < |s.h[b].entries| && Taken(s, b, i, s')
    ensures Chains(s')
  {
    ChainsAlike(s, s');
  }

  /** Removing one of several entries keeps the shape. */
  lemma TakeKeepsShape(s: Snap, b: NodeId, i: nat, d: NodeId, s': Snap)
    requires Shape(s, NULL, d) && Removable(s, b, i, d) && |s.h[b].entries| > 1
    requires Taken(s, b, i, s')
    ensures Shape(s', NULL, NULL)
  {
    assert BorderAt(s, d, b);
    TakeNodes(s, b, i, d, s');
    TakeParents(s, b, i, d, s');
    TakeChains(s, b, i, s');
  }

  // ---- the top root border becomes empty ----

  ghost predicate Emptied(s: Snap, s': Snap)
    requires s.root in s.h && s.h[s.root].Border?
  {
    s' == s.(h := s.h[s.root := s.h[s.root].(entries := [], ver := s.h[s.root].ver.(deleted := true))])
  }

  lemma EmptyAlike(s: Snap, s': Snap)
    requires s.root in s.h && s.h[s.root].Border? && Emptied(s, s')
    ensures Alike(s, s')
  {
  }

  lemma EmptyNodes(s: Snap, d: NodeId, s': Snap)
    requires Interiors(s, d) && Borders(s, d) && Removable(s, s.root, 0, d) && |s.h[s.root].entries| == 1
    requires Emptied(s, s')
    ensures Interiors(s', NULL) && Borders(s', NULL)
  {
    EmptyAlike(s, s');
    forall n | n in s'.h && s'.h[n].Interior?
      ensures InteriorAt(s', NULL, n)
    {
      SettledInterior(s, d, s.root, n, s');
    }
    forall n | n in s'.h && s'.h[n].Border?
      ensures BorderAt(s', NULL, n)
    {
      if n != s.root {
        SettledBorder(s, d, s.root, n, s');
      }
    }
  }

  lemma EmptyParents(s: Snap, d: NodeId, s': Snap)
    requires Domain(s) && Parents(s, NULL) && Removable(s, s.root, 0, d) && |s.h[s.root].entries| == 1
    requires Emptied(s, s')
    ensures Parents(s', NULL)
  {
    forall n | n in s'.h
      ensures ParentAt(s', n)
    {
      assert ParentAt(s, n);
      NoKids(s, s.root, d, n);
      if n != s.root {
        assert IsChild(s'.h[s.h[n].parent], n);
      }
    }
  }

  /** A border whose only entry may go has no child in the heap. */
  lemma NoKids(s: Snap, b: NodeId, d: NodeId, n: NodeId)
    requires Removable(s, b, 0, d) && |s.h[b].entries| == 1 && n in s.h
    ensures !IsChild(s.h[b], n)
  {
  }

  lemma EmptyChains(s: Snap, s': Snap)
    requires Domain(s) && Chains(s) && s.root in s.h && s.h[s.root].Border? && Emptied(s, s')
    ensures Chains(s')
  {
    ChainsAlike(s, s');
  }

  /** The top root border stays when its last entry goes. */
  lemma EmptyKeepsShape(s: Snap, d: NodeId, s': Snap)
    requires Shape(s, NULL, d) && Removable(s, s.root, 0, d) && |s.h[s.root].entries| == 1
    requires Emptied(s, s')
    ensures Shape(s', NULL, NULL)
  {
    EmptyNodes(s, d, s');
    EmptyParents(s, d, s');
    EmptyChains(s, s');
  }

  // ---- an emptied border is unlinked from the chain and buried ----

  ghost predicate Buried(s: Snap, b: NodeId, s': Snap)
    requires b in s.h && s.h[b].Border?
  {
    var p, q := s.h[b].prev, s.h[b].next;
    && s'.root == s.root && s'.h.Keys == s.h.Keys - {b} && s'.sh.Keys == s'.h.Keys
    && (forall m <- s'.h :: s'.h[m] == Unlinked(s.h[m], m, p, q))
    && (forall m <- s'.h :: Of(s', m) == Of(s, m))
  }

  /** A node after its neighbour between `p` and `q` left the chain. */
  ghost function Unlinked(n: Node, m: NodeId, p: NodeId, q: NodeId): Node {
    if m == NULL || n.Interior? then n
    else
      var n' := if m == p then n.(next := q) else n;
      if m == q then n'.(prev := p) else n'
  }

  lemma BuryInterior(s: Snap, b: NodeId, d: NodeId, s': Snap, n: NodeId)
    requires Domain(s) && Removable(s, b, 0, d) && Buried(s, b, s')
    requires n in s'.h && s.h[n].Interior? && InteriorAt(s, d, n)
    ensures InteriorAt(s', b, n)
  {
    NotDangling(s, d, b, n);
    var cs := s.h[n].children;
    forall i | 0 <= i < |cs|
      ensures Dangling(b, cs[i]) || KidAt(s', n, i, cs[i])
    {
      assert Dangling(d, cs[i]) || KidAt(s, n, i, cs[i]);
    }
  }

  lemma BuryBorder(s: Snap, b: NodeId, d: NodeId, s': Snap, n: NodeId)
    requires Domain(s) && Removable(s, b, 0, d) && Buried(s, b, s')
    requires n in s'.h && s.h[n].Border? && BorderAt(s, d, n)
    ensures BorderAt(s', b, n)
  {
    hide Orphaned;
    NotDangling(s, d, b, n);
    var es := s.h[n].entries;
    forall i | 0 <= i < |es|
      ensures EntryAt(s', b, n, es[i])
    {
      assert EntryAt(s, d, n, es[i]);
    }
  }

  lemma BuryNodes(s: Snap, b: NodeId, d: NodeId, s': Snap)
    requires Domain(s) && Interiors(s, d) && Borders(s, d) && Removable(s, b, 0, d) && Buried(s, b, s')
    ensures Interiors(s', b) && Borders(s', b)
  {
    forall n | n in s'.h && s'.h[n].Interior?
      ensures InteriorAt(s', b, n)
    {
      BuryInterior(s, b, d, s', n);
    }
    forall n | n in s'.h && s'.h[n].Border?
      ensures BorderAt(s', b, n)
    {
      BuryBorder(s, b, d, s', n);
    }
  }

  lemma BuryParents(s: Snap, b: NodeId, d: NodeId, s': Snap)
    requires Domain(s) && Parents(s, NULL) && Removable(s, b, 0, d) && |s.h[b].entries| == 1 && Buried(s, b, s')
    ensures Parents(s', NULL)
  {
    forall n | n in s'.h
      ensures ParentAt(s', n)
    {
      BuryParent(s, b, d, s', n);
    }
  }

  lemma BuryParent(s: Snap, b: NodeId, d: NodeId, s': Snap, n: NodeId)
    requires Domain(s) && Parents(s, NULL) && Removable(s, b, 0, d) && |s.h[b].entries| == 1 && Buried(s, b, s')
    requires n in s'.h
    ensures ParentAt(s', n)
  {
    assert ParentAt(s, n);
    NoKids(s, b, d, n);
    UnlinkedSame(s.h[n], n, s.h[b].prev, s.h[b].next, n);
    if n != s.root {
      var p := s.h[n].parent;
      assert p != b && p in s'.h;
      UnlinkedSame(s.h[p], p, s.h[b].prev, s.h[b].next, n);
    }
  }

  lemma UnlinkedSame(n: Node, m: NodeId, p: NodeId, q: NodeId, k: NodeId)
    ensures var n' := Unlinked(n, m, p, q);
            && (IsChild(n', k) <==> IsChild(n, k))
            && n'.parent == n.parent && n'.ver == n.ver && n'.Border? == n.Border?
  {
  }

  lemma BuryChainAt(s: Snap, b: NodeId, s': Snap, n: NodeId)
    requires b in s.h && s.h[b].Border? && Buried(s, b, s')
    requires Domain(s) && ChainAt(s, b) && s.h[b].next != b && s.h[b].prev != b
    requires n in s'.h && s'.h[n].Border? && ChainAt(s, n)
    requires s.h[b].prev != NULL ==> ChainAt(s, s.h[b].prev)
    ensures ChainAt(s', n)
  {
    var p, q := s.h[b].prev, s.h[b].next;
    var n', m := s'.h[n], s.h[n];
    assert n'.next == if n == p then q else m.next;
    assert n'.prev == if n == q then p else m.prev;
    assert m.next == b ==> n == p;
    assert m.prev == b ==> n == q;
  }

  lemma BuryNextAt(s: Snap, b: NodeId, s': Snap, a: NodeId, c: NodeId)
    requires Domain(s) && Chains(s) && b in s.h && s.h[b].Border? && Buried(s, b, s')
    requires a in s'.h && s'.h[a].Border? && c in s'.h && s'.h[c].Border? && a != c
    ensures NextAt(s', a, c)
  {
    assert NextAt(s, a, c) && NextAt(s, b, c) && ChainAt(s, a) && ChainAt(s, b);
  }

  lemma BuryChains(s: Snap, b: NodeId, s': Snap)
    requires Domain(s) && Chains(s) && b in s.h && s.h[b].Border? && Buried(s, b, s')
    ensures Chains(s')
  {
    var p := s.h[b].prev;
    assert ChainAt(s, b);
    assert p != NULL ==> ChainAt(s, p);
    forall n | n in s'.h && s'.h[n].Border?
      ensures ChainAt(s', n)
    {
      assert ChainAt(s, n);
      BuryChainAt(s, b, s', n);
    }
    forall a, c | a in s'.h && c in s'.h && s'.h[a].Border? && s'.h[c].Border? && a != c
      ensures NextAt(s', a, c)
    {
      BuryNextAt(s, b, s', a, c);
    }
  }

  /** Only the parent of a node points at it. */
  lemma OneParent(s: Snap, d: NodeId, b: NodeId, n: NodeId)
    requires Interiors(s, d) && Borders(s, d) && b in s.h && b != d && n in s.h
    ensures IsChild(s.h[n], b) ==> s.h[b].parent == n
  {
    if s.h[n].Interior? {
      assert InteriorAt(s, d, n);
      forall i | 0 <= i < |s.h[n].children| && s.h[n].children[i] == b
        ensures KidAt(s, n, i, b)
      {
      }
    } else {
      assert BorderAt(s, d, n);
      forall i | 0 <= i < |s.h[n].entries| && s.h[n].entries[i].payload == Link(b)
        ensures EntryAt(s, d, n, s.h[n].entries[i])
      {
      }
    }
  }

  lemma BuryOrphans(s: Snap, b: NodeId, d: NodeId, s': Snap)
    requires Domain(s) && Interiors(s, d) && Borders(s, d) && b in s.h && s.h[b].Border? && b != d && b != s.root
    requires ParentAt(s, b) && s.h[b].parent != b
    requires Buried(s, b, s')
    ensures Orphaned(s', b, s.h[b].parent)
  {
    forall n | n in s'.h && n != s.h[b].parent
      ensures !IsChild(s'.h[n], b)
    {
      OneParent(s, d, b, n);
      assert IsChild(s'.h[n], b) == IsChild(s.h[n], b);
    }
    assert IsChild(s'.h[s.h[b].parent], b);
  }

  /** A child is in a deeper layer, or lower in the same one. */
  lemma ChildBelow(s: Snap, d: NodeId, n: NodeId, c: NodeId)
    requires Interiors(s, d) && Borders(s, d) && n in s.h && c != d && IsChild(s.h[n], c)
    ensures Of(s, c) != Of(s, n)
  {
    if s.h[n].Interior? {
      assert InteriorAt(s, d, n);
      var i :| 0 <= i < |s.h[n].children| && s.h[n].children[i] == c;
      assert KidAt(s, n, i, c);
    } else {
      assert BorderAt(s, d, n);
      var i :| 0 <= i < |s.h[n].entries| && s.h[n].entries[i].payload == Link(c);
      assert EntryAt(s, d, n, s.h[n].entries[i]);
    }
  }

  /** Burying an emptied border keeps the shape, up to the pointer its parent still holds. */
  lemma BuryKeepsShape(s: Snap, b: NodeId, d: NodeId, s': Snap)
    requires Shape(s, NULL, d) && Removable(s, b, 0, d) && |s.h[b].entries| == 1 && b != s.root
    requires Buried(s, b, s')
    ensures Shape(s', NULL, b) && Orphaned(s', b, s.h[b].parent)
  {
    assert ParentAt(s, b);
    ChildBelow(s, d, s.h[b].parent, b);
    BuryNodes(s, b, d, s');
    BuryParents(s, b, d, s');
    BuryChains(s, b, s');
    BuryOrphans(s, b, d, s');
  }
}
