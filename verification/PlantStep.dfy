/** Building a new layer: borders with one entry each, from the last slice of the key upward. */
module PlantStep {
  import opened Keys
  import opened Contents
  import opened Store

  /** `x` is the root border of a new layer that nothing points at yet. */
  ghost predicate NewLayer(s: Snap, x: NodeId, pfx: Key) {
    && x in s.h && s.h[x].Border? && x != s.root && x != NULL
    && s.h[x].parent == NULL && s.h[x].ver.root && Of(s, x).pfx == pfx
  }

  ghost predicate Vacant(s: Snap, pfx: Key) {
    forall n <- s.h :: !(pfx <= Of(s, n).pfx)
  }

  function Sprout(e: Entry): Node {
    Border(NULL, Version(1, 0, false, true), [e], NULL, NULL)
  }

  /** The heap after a border with the one entry `e` was made; a link's target names it as parent. */
  ghost predicate Planted(s: Snap, y: NodeId, pfx: Key, e: Entry, s': Snap) {
    && y != NULL && y !in s.h && y != s.root
    && s'.root == s.root && s'.h.Keys == s.h.Keys + {y} && s'.sh.Keys == s.h.Keys + {y}
    && s'.h[y] == Sprout(e)
    && (forall m <- s.h :: s'.h[m] == if e.payload == Link(m) then s.h[m].(parent := y) else s.h[m])
    && Of(s', y) == Info(pfx, Ord(e.key), Ord(e.key), 0)
    && (forall m <- s.h :: Of(s', m) == Of(s, m))
  }

  /** Entry `e` may be the first of a new border with prefix `pfx`. */
  ghost predicate Seed(s: Snap, pfx: Key, e: Entry, x: NodeId) {
    && |pfx| % SLICE == 0 && Canonical(e.key) && (pfx != [] ==> e.key.len > 0)
    && (forall n <- s.h :: Of(s, n).pfx != pfx)
    && match e.payload
       case Value(_) => e.key.len <= SLICE && x == NULL
       case Link(r) => r == x && e.key.len == LINK_LEN && NewLayer(s, x, pfx + e.key.slice)
  }

  lemma PlantOthers(s: Snap, y: NodeId, pfx: Key, e: Entry, x: NodeId, s': Snap)
    requires Domain(s) && Interiors(s, NULL) && Borders(s, NULL) && Seed(s, pfx, e, x) && Planted(s, y, pfx, e, s')
    ensures Interiors(s', NULL)
    ensures forall n <- s.h :: s.h[n].Border? ==> BorderAt(s', NULL, n)
  {
    forall n | n in s'.h && s'.h[n].Interior?
      ensures InteriorAt(s', NULL, n)
    {
      assert InteriorAt(s, NULL, n);
      forall i | 0 <= i < |s.h[n].children|
        ensures KidAt(s', n, i, s.h[n].children[i])
      {
        assert KidAt(s, n, i, s.h[n].children[i]);
      }
    }
    forall n | n in s.h && s.h[n].Border?
      ensures BorderAt(s', NULL, n)
    {
      PlantBorder(s, y, pfx, e, x, s', n);
    }
  }

  lemma PlantBorder(s: Snap, y: NodeId, pfx: Key, e: Entry, x: NodeId, s': Snap, n: NodeId)
    requires Domain(s) && Seed(s, pfx, e, x) && Planted(s, y, pfx, e, s')
    requires n in s.h && s.h[n].Border? && BorderAt(s, NULL, n)
    ensures BorderAt(s', NULL, n)
  {
    var es := s.h[n].entries;
    forall i | 0 <= i < |es|
      ensures EntryAt(s', NULL, n, es[i])
    {
      assert EntryAt(s, NULL, n, es[i]);
    }
  }

  lemma PlantParents(s: Snap, y: NodeId, pfx: Key, e: Entry, x: NodeId, s': Snap)
    requires Domain(s) && Parents(s, x) && Seed(s, pfx, e, x) && Planted(s, y, pfx, e, s')
    ensures Parents(s', y)
  {
    forall n | n in s'.h && n != y
      ensures ParentAt(s', n)
    {
      if n == x {
        assert s'.h[y].entries[0].payload == Link(x);
        assert IsChild(s'.h[y], x);
      } else {
        assert ParentAt(s, n);
        assert n != s.root ==> IsChild(s'.h[s.h[n].parent], n);
      }
    }
  }

  lemma PlantChains(s: Snap, y: NodeId, pfx: Key, e: Entry, x: NodeId, s': Snap)
    requires Domain(s) && Chains(s) && Seed(s, pfx, e, x) && Planted(s, y, pfx, e, s')
    ensures Chains(s')
  {
    forall n | n in s'.h && s'.h[n].Border?
      ensures ChainAt(s', n)
    {
      if n != y {
        assert ChainAt(s, n);
      }
    }
    forall a, c | a in s'.h && c in s'.h && s'.h[a].Border? && s'.h[c].Border? && a != c
      ensures NextAt(s', a, c)
    {
      PlantNext(s, y, pfx, e, x, s', a, c);
    }
  }

  lemma PlantNext(s: Snap, y: NodeId, pfx: Key, e: Entry, x: NodeId, s': Snap, a: NodeId, c: NodeId)
    requires Domain(s) && Chains(s) && Seed(s, pfx, e, x) && Planted(s, y, pfx, e, s')
    requires a in s'.h && c in s'.h && s'.h[a].Border? && s'.h[c].Border? && a != c
    ensures NextAt(s', a, c)
  {
    if a != y && c != y {
      assert NextAt(s, a, c) && ChainAt(s, a);
    }
  }

  /** A new border keeps the shape, up to the pointer that will lead to it. */
  lemma PlantKeepsShape(s: Snap, y: NodeId, pfx: Key, e: Entry, x: NodeId, s': Snap)
    requires Shape(s, x, NULL) && Seed(s, pfx, e, x) && Planted(s, y, pfx, e, s')
    ensures Shape(s', y, NULL) && NewLayer(s', y, pfx)
  {
    PlantOthers(s, y, pfx, e, x, s');
    PlantLeaf(s, y, pfx, e, x, s');
    PlantParents(s, y, pfx, e, x, s');
    PlantChains(s, y, pfx, e, x, s');
  }

  lemma PlantLeaf(s: Snap, y: NodeId, pfx: Key, e: Entry, x: NodeId, s': Snap)
    requires Domain(s) && Seed(s, pfx, e, x) && Planted(s, y, pfx, e, s')
    ensures Domain(s') && BorderAt(s', NULL, y)
  {
    assert EntryAt(s', NULL, y, s'.h[y].entries[0]);
  }

  /** A waiting node may name its parent before the parent points at it. */
  lemma NameParent(s: Snap, x: NodeId, b: NodeId, s': Snap)
    requires Shape(s, x, NULL) && x in s.h && s.h[x].parent == NULL
    requires s' == s.(h := s.h[x := s.h[x].(parent := b)])
    ensures Shape(s', x, NULL)
  {
    forall n | n in s'.h && s'.h[n].Interior?
      ensures InteriorAt(s', NULL, n)
    {
      assert InteriorAt(s, NULL, n);
      forall i | 0 <= i < |s.h[n].children|
        ensures KidAt(s', n, i, s.h[n].children[i])
      {
        assert KidAt(s, n, i, s.h[n].children[i]);
      }
    }
    NameParentRest(s, x, b, s');
  }

  lemma NameParentRest(s: Snap, x: NodeId, b: NodeId, s': Snap)
    requires Domain(s) && Borders(s, NULL) && Parents(s, x) && Chains(s) && x in s.h && s.h[x].parent == NULL
    requires s' == s.(h := s.h[x := s.h[x].(parent := b)])
    ensures Borders(s', NULL) && Parents(s', x) && Chains(s')
  {
    hide BorderAt, ParentAt, Chains;
    forall n | n in s'.h && s'.h[n].Border?
      ensures BorderAt(s', NULL, n)
    {
      NamedBorder(s, x, b, s', n);
    }
    forall n | n in s'.h && n != x
      ensures ParentAt(s', n)
    {
      NamedParent(s, x, b, s', n);
    }
    ChainsAlike(s, s');
  }

  lemma NamedBorder(s: Snap, x: NodeId, b: NodeId, s': Snap, n: NodeId)
    requires NULL !in s.h && n in s.h && s.h[n].Border? && BorderAt(s, NULL, n) && x in s.h && s.h[x].parent == NULL
    requires s' == s.(h := s.h[x := s.h[x].(parent := b)])
    ensures BorderAt(s', NULL, n)
  {
    forall i | 0 <= i < |s.h[n].entries|
      ensures EntryAt(s', NULL, n, s.h[n].entries[i])
    {
      assert EntryAt(s, NULL, n, s.h[n].entries[i]);
    }
  }

  lemma NamedParent(s: Snap, x: NodeId, b: NodeId, s': Snap, n: NodeId)
    requires n in s.h && n != x && ParentAt(s, n) && x in s.h
    requires s' == s.(h := s.h[x := s.h[x].(parent := b)])
    ensures ParentAt(s', n)
  {
    assert n != s.root ==> IsChild(s'.h[s.h[n].parent], n);
  }

  /** The first border of an empty tree becomes its root. */
  lemma RootPlanted(s: Snap, y: NodeId, s': Snap)
    requires Shape(s, y, NULL) && s.root == NULL && NewLayer(s, y, [])
    requires s' == s.(root := y)
    ensures Shape(s', NULL, NULL)
  {
    forall n | n in s'.h && s'.h[n].Interior?
      ensures InteriorAt(s', NULL, n)
    {
      assert InteriorAt(s, NULL, n);
      InteriorAlike(s, NULL, n, s');
    }
    forall n | n in s'.h && s'.h[n].Border?
      ensures BorderAt(s', NULL, n)
    {
      assert BorderAt(s, NULL, n);
      forall i | 0 <= i < |s.h[n].entries|
        ensures EntryAt(s', NULL, n, s.h[n].entries[i])
      {
        assert EntryAt(s, NULL, n, s.h[n].entries[i]);
      }
    }
    forall n | n in s'.h
      ensures ParentAt(s', n)
    {
      assert n != y ==> ParentAt(s, n);
    }
    ChainsAlike(s, s');
  }
}
