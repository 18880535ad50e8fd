/** Entering one entry in a border that has room. */
module InsertStep {
  import opened Keys
  import opened Contents
  import opened Store

  /** What `insert_lv_at` needs to know of a new entry for border `b`: its tuple is absent and lies in
      the range of `b`, and a link leads to a new layer root `x` that already names `b` as parent. */
  ghost predicate Fits(s: Snap, b: NodeId, e: Entry, x: NodeId) {
    && b in s.h && s.h[b].Border?
    && Canonical(e.key) && Lookup(s.h[b].entries, e.key) == |s.h[b].entries|
    && Of(s, b).lo <= Ord(e.key) <= Of(s, b).hi
    && (Of(s, b).pfx != [] ==> e.key.len > 0)
    && match e.payload
       case Value(_) => e.key.len <= SLICE && x == NULL
       case Link(r) =>
         && r == x && x != NULL && x != b && x != s.root && e.key.len == LINK_LEN
         && x in s.h && s.h[x].parent == b && s.h[x].ver.root
         && Of(s, x).pfx == Of(s, b).pfx + e.key.slice
  }

  /** The border after the insertion: the deleted flag is cleared and the insert counter moves on. */
  function Entered(n: Node, rank: nat, e: Entry): Node
    requires n.Border? && rank <= |n.entries|
  {
    n.(entries := InsertAt(n.entries, rank, e),
       ver := n.ver.(vins := n.ver.vins + 1, deleted := false))
  }

  ghost predicate Inserted(s: Snap, b: NodeId, e: Entry, s': Snap)
    requires b in s.h && s.h[b].Border?
  {
    s' == s.(h := s.h[b := Entered(s.h[b], Rank(s.h[b].entries, Ord(e.key)), e)])
  }

  /** A link entry is determined by its target. */
  lemma LinkKey(s: Snap, b: NodeId, f: Entry, r: NodeId)
    requires b in s.h && EntryAt(s, NULL, b, f) && Canonical(f.key)
    ensures f.payload == Link(r) ==> f.key == KeyTuple(Of(s, r).pfx[|Of(s, b).pfx|..], LINK_LEN)
  {
    if f.payload == Link(r) {
      assert Of(s, r).pfx[|Of(s, b).pfx|..] == f.key.slice;
    }
  }

  /** The new entry is no second link to its layer. */
  lemma FreshLink(s: Snap, b: NodeId, e: Entry, x: NodeId)
    requires Fits(s, b, e, x) && BorderAt(s, NULL, b)
    ensures e.payload.Link? ==> !HasLink(s.h[b].entries, x)
  {
    forall i | 0 <= i < |s.h[b].entries|
      ensures e.payload.Link? ==> s.h[b].entries[i].payload != Link(x)
    {
      var f := s.h[b].entries[i];
      assert EntryAt(s, NULL, b, f);
      LinkKey(s, b, f, x);
      assert e.payload.Link? ==> Of(s, x).pfx[|Of(s, b).pfx|..] == e.key.slice;
    }
  }

  lemma InsertedAlike(s: Snap, b: NodeId, e: Entry, s': Snap)
    requires b in s.h && s.h[b].Border? && Inserted(s, b, e, s')
    ensures Alike(s, s')
  {
  }

  lemma InsertEntries(s: Snap, b: NodeId, e: Entry, x: NodeId, s': Snap)
    requires Fits(s, b, e, x) && BorderAt(s, NULL, b)
    requires Alike(s, s')
    ensures EntryAt(s', NULL, b, e)
    ensures forall i :: 0 <= i < |s.h[b].entries| ==> EntryAt(s', NULL, b, s.h[b].entries[i])
  {
    forall i | 0 <= i < |s.h[b].entries|
      ensures EntryAt(s', NULL, b, s.h[b].entries[i])
    {
      EntryAlike(s, NULL, b, s.h[b].entries[i], s');
    }
  }

  lemma InsertBorder(s: Snap, b: NodeId, e: Entry, x: NodeId, s': Snap)
    requires Borders(s, NULL) && Fits(s, b, e, x) && |s.h[b].entries| < FANOUT
    requires Inserted(s, b, e, s')
    ensures BorderAt(s', NULL, b)
  {
    assert BorderAt(s, NULL, b);
    var es := s.h[b].entries;
    var r := Rank(es, Ord(e.key));
    InsertKeepsSorted(es, e);
    FreshLink(s, b, e, x);
    InsertApart(es, r, e);
    InsertedAlike(s, b, e, s');
    InsertEntries(s, b, e, x, s');
  }

  lemma InsertOthers(s: Snap, b: NodeId, e: Entry, s': Snap)
    requires Interiors(s, NULL) && Borders(s, NULL) && b in s.h && s.h[b].Border?
    requires Inserted(s, b, e, s')
    ensures Interiors(s', NULL)
    ensures forall n <- s'.h :: s'.h[n].Border? && n != b ==> BorderAt(s', NULL, n)
  {
    InsertedAlike(s, b, e, s');
    forall n | n in s'.h && s'.h[n].Interior?
      ensures InteriorAt(s', NULL, n)
    {
      InteriorAlike(s, NULL, n, s');
    }
    forall n | n in s'.h && s'.h[n].Border? && n != b
      ensures BorderAt(s', NULL, n)
    {
      BorderAlike(s, NULL, n, s');
    }
  }

  lemma InsertParents(s: Snap, b: NodeId, e: Entry, x: NodeId, s': Snap)
    requires Domain(s) && Parents(s, x) && Fits(s, b, e, x)
    requires Inserted(s, b, e, s')
    ensures Parents(s', NULL)
  {
    var r := Rank(s.h[b].entries, Ord(e.key));
    forall n | n in s'.h
      ensures ParentAt(s', n)
    {
      InsertLink(s.h[b].entries, r, e, n);
      if n == x {
        assert IsChild(s'.h[b], n);
      } else {
        assert ParentAt(s, n);
        assert n != s.root ==> IsChild(s'.h[s.h[n].parent], n);
      }
    }
  }

  lemma InsertChains(s: Snap, b: NodeId, e: Entry, s': Snap)
    requires Domain(s) && Chains(s) && b in s.h && s.h[b].Border?
    requires Inserted(s, b, e, s')
    ensures Chains(s')
  {
    ChainsAlike(s, s');
  }

  /** A new entry keeps the shape, and a pending layer becomes part of the tree. */
  lemma InsertKeepsShape(s: Snap, b: NodeId, e: Entry, x: NodeId, s': Snap)
    requires Shape(s, x, NULL) && Fits(s, b, e, x) && |s.h[b].entries| < FANOUT
    requires Inserted(s, b, e, s')
    ensures Shape(s', NULL, NULL)
  {
    InsertBorder(s, b, e, x, s');
    InsertOthers(s, b, e, s');
    InsertParents(s, b, e, x, s');
    InsertChains(s, b, e, s');
  }
}
