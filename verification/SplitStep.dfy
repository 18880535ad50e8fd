/** Splitting a full border: the heap before and after, and what the new heap keeps. */
module SplitStep {
  import opened Keys
  import opened Contents
  import opened Store
  import opened InsertStep

  /** The heap after `border_split` has filled both halves of `b` and linked the new border `y` behind
      it: moved links name `y` as parent, and the old successor names `y` as predecessor. */
  ghost predicate LeafSplit(s: Snap, b: NodeId, y: NodeId, low: seq<Entry>, high: seq<Entry>, s': Snap)
    requires b in s.h && s.h[b].Border?
  {
    var n := s.h[b];
    var ver := n.ver.(vins := n.ver.vins + 1, vsplit := n.ver.vsplit + 1);
    && y != NULL && y !in s.h && high != []
    && s'.root == s.root && s'.h.Keys == s.h.Keys + {y} && s'.sh.Keys == s.h.Keys + {y}
    && s'.h[b] == Border(n.parent, ver, low, n.prev, y)
    && s'.h[y] == Border(NULL, ver.(root := false), high, b, n.next)
    && (forall m <- s.h :: m != b ==> s'.h[m] == Moved(s.h[m], m, y, high, n.next))
    && Of(s', b) == Of(s, b).(hi := Ord(high[0].key) - 1)
    && Of(s', y) == Info(Of(s, b).pfx, Ord(high[0].key), Of(s, b).hi, Of(s, b).ht)
    && (forall m <- s.h :: m != b ==> Of(s', m) == Of(s, m))
  }

  /** A bystander of the split. */
  ghost function Moved(n: Node, m: NodeId, y: NodeId, high: seq<Entry>, next: NodeId): Node {
    var n' := if HasLink(high, m) then Under(n, y) else n;
    if m == next && n'.Border? then n'.(prev := y) else n'
  }

  /** The halves hold the old entries and the new one, in order. */
  ghost predicate Halved(s: Snap, b: NodeId, e: Entry, x: NodeId, low: seq<Entry>, high: seq<Entry>) {
    && Fits(s, b, e, x) && BorderAt(s, NULL, b)
    && |s.h[b].entries| == FANOUT
    && (low, high) == SplitEntries(s.h[b].entries, Rank(s.h[b].entries, Ord(e.key)), e)
  }

  /** The facts about the halves that the rest of the proof uses. */
  ghost predicate GoodHalves(s: Snap, b: NodeId, x: NodeId, low: seq<Entry>, high: seq<Entry>)
    requires b in s.h && s.h[b].Border?
  {
    && 1 <= |low| <= FANOUT && 1 <= |high| <= FANOUT
    && Sorted(low) && Sorted(high) && high[0].key.len > 0
    && (forall i :: 0 <= i < |low| ==> Ord(low[i].key) < Ord(high[0].key))
    && (forall f :: f in low || f in high ==> EntryAt(s, NULL, b, f))
    && LinksApart(low) && LinksApart(high)
    && (forall n :: !(HasLink(low, n) && HasLink(high, n)))
    && (forall n :: HasLink(s.h[b].entries, n) ==> HasLink(low, n) || HasLink(high, n))
    && (x != NULL ==> HasLink(low, x) || HasLink(high, x))
  }

  lemma HalvesGood(s: Snap, b: NodeId, e: Entry, x: NodeId, low: seq<Entry>, high: seq<Entry>)
    requires Halved(s, b, e, x, low, high)
    ensures GoodHalves(s, b, x, low, high)
  {
    var es := s.h[b].entries;
    var r := Rank(es, Ord(e.key));
    SplitEntriesCorrect(es, r, e);
    FreshLink(s, b, e, x);
    InsertApart(es, r, e);
    ConcatLinks(low, high);
    forall n ensures HasLink(es, n) || e.payload == Link(n) <==> HasLink(low + high, n)
    {
      InsertLink(es, r, e, n);
    }
    HalvesEntries(s, b, e, x, low, high);
  }

  lemma HalvesEntries(s: Snap, b: NodeId, e: Entry, x: NodeId, low: seq<Entry>, high: seq<Entry>)
    requires Fits(s, b, e, x) && BorderAt(s, NULL, b)
    requires low + high == InsertAt(s.h[b].entries, Rank(s.h[b].entries, Ord(e.key)), e)
    ensures forall f :: f in low || f in high ==> EntryAt(s, NULL, b, f)
  {
    var es := s.h[b].entries;
    var r := Rank(es, Ord(e.key));
    forall f | f in low || f in high
      ensures EntryAt(s, NULL, b, f)
    {
      assert f in low + high;
      var i :| 0 <= i <= |es| && InsertAt(es, r, e)[i] == f;
      if i != r {
        assert f == es[if i < r then i else i - 1];
      }
    }
  }

  // ---- the shape after the split ----

  /** Moved links lead to layer roots that named `b` as parent. */
  lemma MovedLinks(s: Snap, b: NodeId, x: NodeId, low: seq<Entry>, high: seq<Entry>, m: NodeId)
    requires b in s.h && s.h[b].Border? && GoodHalves(s, b, x, low, high)
    ensures HasLink(high, m) || HasLink(low, m) ==>
              m in s.h && s.h[m].parent == b && s.h[m].ver.root && |Of(s, m).pfx| > |Of(s, b).pfx|
  {
    if HasLink(high, m) {
      var i :| 0 <= i < |high| && high[i].payload == Link(m);
      assert high[i] in high;
    } else if HasLink(low, m) {
      var i :| 0 <= i < |low| && low[i].payload == Link(m);
      assert low[i] in low;
    }
  }

  lemma LeafInterior(s: Snap, b: NodeId, x: NodeId, y: NodeId, low: seq<Entry>, high: seq<Entry>, s': Snap, n: NodeId)
    requires b in s.h && s.h[b].Border? && GoodHalves(s, b, x, low, high) && LeafSplit(s, b, y, low, high, s')
    requires n in s.h && s.h[n].Interior? && InteriorAt(s, NULL, n)
    requires Ord(high[0].key) <= Of(s, b).hi + 1
    ensures InteriorAt(s', NULL, n)
  {
    forall i | 0 <= i < |s.h[n].children|
      ensures KidAt(s', n, i, s.h[n].children[i])
    {
      assert KidAt(s, n, i, s.h[n].children[i]);
      MovedLinks(s, b, x, low, high, s.h[n].children[i]);
    }
  }

  lemma LeafBystander(s: Snap, b: NodeId, x: NodeId, y: NodeId, low: seq<Entry>, high: seq<Entry>, s': Snap, n: NodeId)
    requires b in s.h && s.h[b].Border? && GoodHalves(s, b, x, low, high) && LeafSplit(s, b, y, low, high, s')
    requires n in s.h && s.h[n].Border? && BorderAt(s, NULL, n) && n != b
    ensures BorderAt(s', NULL, n)
  {
    var es := s.h[n].entries;
    forall i | 0 <= i < |es|
      ensures EntryAt(s', NULL, n, es[i])
    {
      assert EntryAt(s, NULL, n, es[i]);
      if es[i].payload.Link? {
        MovedLinks(s, b, x, low, high, es[i].payload.to);
      }
    }
  }

  lemma LeafLow(s: Snap, b: NodeId, x: NodeId, y: NodeId, low: seq<Entry>, high: seq<Entry>, s': Snap)
    requires b in s.h && s.h[b].Border? && GoodHalves(s, b, x, low, high) && LeafSplit(s, b, y, low, high, s')
    requires BorderAt(s, NULL, b) && s.h[b].entries != []
    ensures BorderAt(s', NULL, b)
  {
    forall i | 0 <= i < |low|
      ensures EntryAt(s', NULL, b, low[i])
    {
      assert low[i] in low;
      if low[i].payload.Link? {
        MovedLinks(s, b, x, low, high, low[i].payload.to);
        assert HasLink(low, low[i].payload.to);
      }
    }
  }

  lemma LeafHigh(s: Snap, b: NodeId, x: NodeId, y: NodeId, low: seq<Entry>, high: seq<Entry>, s': Snap)
    requires b in s.h && s.h[b].Border? && GoodHalves(s, b, x, low, high) && LeafSplit(s, b, y, low, high, s')
    requires BorderAt(s, NULL, b) && s.h[b].entries != []
    ensures BorderAt(s', NULL, y)
  {
    forall i | 0 <= i < |high|
      ensures EntryAt(s', NULL, y, high[i])
    {
      assert high[i] in high;
      if high[i].payload.Link? {
        MovedLinks(s, b, x, low, high, high[i].payload.to);
        assert HasLink(high, high[i].payload.to);
      }
    }
  }

  lemma LeafParents(s: Snap, b: NodeId, x: NodeId, y: NodeId, low: seq<Entry>, high: seq<Entry>, s': Snap)
    requires Domain(s) && Parents(s, x) && b in s.h && s.h[b].Border? && x != s.root
    requires GoodHalves(s, b, x, low, high) && LeafSplit(s, b, y, low, high, s')
    ensures Parents(s', y)
  {
    forall n | n in s'.h && n != y
      ensures ParentAt(s', n)
    {
      LeafParentAt(s, b, x, y, low, high, s', n);
    }
  }

  lemma LeafParentAt(s: Snap, b: NodeId, x: NodeId, y: NodeId, low: seq<Entry>, high: seq<Entry>, s': Snap, n: NodeId)
    requires Domain(s) && b in s.h && s.h[b].Border? && x != s.root
    requires GoodHalves(s, b, x, low, high) && LeafSplit(s, b, y, low, high, s')
    requires n in s.h && (n != x ==> ParentAt(s, n))
    ensures ParentAt(s', n)
  {
    MovedLinks(s, b, x, low, high, n);
    if HasLink(high, n) {
      assert IsChild(s'.h[y], n);
    } else if HasLink(low, n) {
      assert IsChild(s'.h[b], n);
    } else {
      assert ParentAt(s, n);
      assert n != s.root && s.h[n].parent != b ==> IsChild(s'.h[s.h[n].parent], n);
    }
  }

  /** The part of a leaf split the chain sees. */
  ghost predicate ChainSplit(s: Snap, b: NodeId, y: NodeId, sep: int, s': Snap)
    requires b in s.h && s.h[b].Border?
  {
    var q := s.h[b].next;
    && y != NULL && y !in s.h && s'.h.Keys == s.h.Keys + {y}
    && s'.h[b].Border? && s'.h[b].prev == s.h[b].prev && s'.h[b].next == y
    && s'.h[y].Border? && s'.h[y].prev == b && s'.h[y].next == q
    && (forall m <- s.h :: m != b ==>
          && s'.h[m].Border? == s.h[m].Border?
          && (s.h[m].Border? ==> s'.h[m].next == s.h[m].next && s'.h[m].prev == if m == q then y else s.h[m].prev))
    && Of(s', b) == Of(s, b).(hi := sep - 1)
    && Of(s', y).pfx == Of(s, b).pfx && Of(s', y).lo == sep && Of(s', y).hi == Of(s, b).hi
    && (forall m <- s.h :: m != b ==> Of(s', m) == Of(s, m))
  }

  lemma ChainSplitAt(s: Snap, b: NodeId, y: NodeId, sep: int, s': Snap, n: NodeId)
    requires Domain(s) && Chains(s) && b in s.h && s.h[b].Border?
    requires ChainSplit(s, b, y, sep, s') && Of(s, b).lo < sep <= Of(s, b).hi
    requires n in s'.h && s'.h[n].Border?
    ensures ChainAt(s', n)
  {
    assert ChainAt(s, b);
    if n != y {
      assert ChainAt(s, n);
    }
  }

  lemma ChainSplitNext(s: Snap, b: NodeId, y: NodeId, sep: int, s': Snap, a: NodeId, c: NodeId)
    requires Domain(s) && Chains(s) && b in s.h && s.h[b].Border?
    requires ChainSplit(s, b, y, sep, s') && Of(s, b).lo < sep <= Of(s, b).hi
    requires a in s'.h && c in s'.h && s'.h[a].Border? && s'.h[c].Border? && a != c
    ensures NextAt(s', a, c)
  {
    assert ChainAt(s, b);
    if a != y && a != b {
      assert NextAt(s, b, a) && NextAt(s, a, b);
    }
    if c != y && c != b {
      assert NextAt(s, b, c) && NextAt(s, c, b);
    }
    if a != y && c != y {
      assert NextAt(s, a, c);
    }
  }

  lemma LeafChains(s: Snap, b: NodeId, y: NodeId, low: seq<Entry>, high: seq<Entry>, s': Snap)
    requires Domain(s) && Chains(s) && b in s.h && s.h[b].Border?
    requires LeafSplit(s, b, y, low, high, s')
    requires Of(s, b).lo < Ord(high[0].key) <= Of(s, b).hi
    ensures Chains(s')
  {
    var sep := Ord(high[0].key);
    assert ChainSplit(s, b, y, sep, s');
    forall n | n in s'.h && s'.h[n].Border?
      ensures ChainAt(s', n)
    {
      ChainSplitAt(s, b, y, sep, s', n);
    }
    forall a, c | a in s'.h && c in s'.h && s'.h[a].Border? && s'.h[c].Border? && a != c
      ensures NextAt(s', a, c)
    {
      ChainSplitNext(s, b, y, sep, s', a, c);
    }
  }

  lemma LeafPending(s: Snap, b: NodeId, x: NodeId, y: NodeId, low: seq<Entry>, high: seq<Entry>, s': Snap)
    requires Domain(s) && Interiors(s, NULL) && b in s.h && s.h[b].Border? && ParentAt(s, b)
    requires GoodHalves(s, b, x, low, high) && LeafSplit(s, b, y, low, high, s')
    ensures Pending(s', b, y, high[0].key)
  {
    var p := s.h[b].parent;
    assert Canonical(high[0].key);
    if p in s.h && s.h[p].Interior? {
      RoomAfter(s, p, b);
    }
  }

  /** A leaf split keeps the shape; the new border waits to be entered in the parent. */
  lemma SplitKeepsShape(s: Snap, b: NodeId, e: Entry, x: NodeId, y: NodeId, low: seq<Entry>, high: seq<Entry>, s': Snap)
    requires Shape(s, x, NULL) && b != x && x != s.root && Halved(s, b, e, x, low, high)
    requires LeafSplit(s, b, y, low, high, s')
    ensures Shape(s', y, NULL) && Pending(s', b, y, high[0].key)
  {
    HalvesGood(s, b, e, x, low, high);
    SeparatorInside(s, b, x, low, high);
    LeafShape(s, b, x, y, low, high, s');
    LeafParents(s, b, x, y, low, high, s');
    LeafChains(s, b, y, low, high, s');
    assert ParentAt(s, b);
    LeafPending(s, b, x, y, low, high, s');
  }

  lemma SeparatorInside(s: Snap, b: NodeId, x: NodeId, low: seq<Entry>, high: seq<Entry>)
    requires b in s.h && s.h[b].Border? && GoodHalves(s, b, x, low, high)
    ensures Of(s, b).lo < Ord(high[0].key) <= Of(s, b).hi
  {
    assert low[0] in low && high[0] in high;
  }

  lemma LeafDomain(s: Snap, b: NodeId, x: NodeId, y: NodeId, low: seq<Entry>, high: seq<Entry>, s': Snap)
    requires Domain(s) && b in s.h && s.h[b].Border?
    requires LeafSplit(s, b, y, low, high, s')
    requires Of(s, b).lo < Ord(high[0].key) <= Of(s, b).hi
    ensures Domain(s')
  {
    forall n | n in s'.h
      ensures Of(s', n).lo <= Of(s', n).hi && |Of(s', n).pfx| % SLICE == 0
      ensures s'.h[n].ver.deleted ==> s'.h[n].Border?
    {
      if n != y && n != b {
        assert s'.h[n].ver == s.h[n].ver && Of(s', n) == Of(s, n);
      }
    }
  }

  lemma LeafBorders(s: Snap, b: NodeId, x: NodeId, y: NodeId, low: seq<Entry>, high: seq<Entry>, s': Snap)
    requires Borders(s, NULL)
    requires b in s.h && s.h[b].Border? && s.h[b].entries != []
    requires GoodHalves(s, b, x, low, high) && LeafSplit(s, b, y, low, high, s')
    ensures Borders(s', NULL)
  {
    assert BorderAt(s, NULL, b);
    forall n | n in s'.h && s'.h[n].Border?
      ensures BorderAt(s', NULL, n)
    {
      if n == b {
        LeafLow(s, b, x, y, low, high, s');
      } else if n == y {
        LeafHigh(s, b, x, y, low, high, s');
      } else {
        LeafBystander(s, b, x, y, low, high, s', n);
      }
    }
  }

  lemma LeafInteriors(s: Snap, b: NodeId, x: NodeId, y: NodeId, low: seq<Entry>, high: seq<Entry>, s': Snap)
    requires Interiors(s, NULL) && b in s.h && s.h[b].Border?
    requires GoodHalves(s, b, x, low, high) && LeafSplit(s, b, y, low, high, s')
    requires Ord(high[0].key) <= Of(s, b).hi
    ensures Interiors(s', NULL)
  {
    forall n | n in s'.h && s'.h[n].Interior?
      ensures InteriorAt(s', NULL, n)
    {
      assert n in s.h && s.h[n].Interior?;
      LeafInterior(s, b, x, y, low, high, s', n);
    }
  }

  lemma LeafShape(s: Snap, b: NodeId, x: NodeId, y: NodeId, low: seq<Entry>, high: seq<Entry>, s': Snap)
    requires Domain(s) && Interiors(s, NULL) && Borders(s, NULL)
    requires b in s.h && s.h[b].Border? && s.h[b].entries != []
    requires GoodHalves(s, b, x, low, high) && LeafSplit(s, b, y, low, high, s')
    requires Of(s, b).lo < Ord(high[0].key) <= Of(s, b).hi
    ensures Domain(s') && Interiors(s', NULL) && Borders(s', NULL)
  {
    LeafDomain(s, b, x, y, low, high, s');
    LeafBorders(s, b, x, y, low, high, s');
    LeafInteriors(s, b, x, y, low, high, s');
  }
}
