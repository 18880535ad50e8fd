/** What each step does to the map the store represents. */
module Meaning {
  import opened Keys
  import opened Contents
  import opened Store
  import opened InsertStep
  import opened SplitStep
  import opened AttachStep
  import opened InnerSplitStep
  import opened RemoveStep
  import opened InnerRemoveStep
  import opened PlantStep

  // ---- entries of one border ----

  lemma HoldsInserted(pfx: Key, es: seq<Entry>, r: nat, e: Entry, k: Key, v: Val)
    requires r <= |es|
    ensures SeqHolds(pfx, InsertAt(es, r, e), k, v) <==> SeqHolds(pfx, es, k, v) || EntryHolds(pfx, e, k, v)
  {
    var es' := InsertAt(es, r, e);
    assert es'[r] == e;
    forall f | f in es ensures f in es'
    {
      var i :| 0 <= i < |es| && es[i] == f;
      assert es'[if i < r then i else i + 1] == f;
    }
    forall f | f in es' ensures f in es || f == e
    {
      var i :| 0 <= i < |es'| && es'[i] == f;
      assert i != r ==> es[if i < r then i else i - 1] == f;
    }
  }

  lemma HoldsConcat(pfx: Key, a: seq<Entry>, b: seq<Entry>, k: Key, v: Val)
    ensures SeqHolds(pfx, a + b, k, v) <==> SeqHolds(pfx, a, k, v) || SeqHolds(pfx, b, k, v)
  {
  }

  lemma HoldsRelinked(pfx: Key, es: seq<Entry>, from: NodeId, to: NodeId, k: Key, v: Val)
    ensures SeqHolds(pfx, Relink(es, from, to), k, v) <==> SeqHolds(pfx, es, k, v)
  {
    var es' := Relink(es, from, to);
    if SeqHolds(pfx, es, k, v) {
      var e :| e in es && EntryHolds(pfx, e, k, v);
      var i :| 0 <= i < |es| && es[i] == e;
      assert es'[i] == e;
    }
    if SeqHolds(pfx, es', k, v) {
      var e :| e in es' && EntryHolds(pfx, e, k, v);
      var i :| 0 <= i < |es'| && es'[i] == e;
      assert es[i] == e;
    }
  }

  /** Two value entries of one border have different full keys. */
  lemma ValueKeysDiffer(pfx: Key, a: Entry, b: Entry, k: Key)
    requires Canonical(a.key) && Canonical(b.key) && a.key.len <= SLICE && b.key.len <= SLICE
    requires pfx + TupleBytes(a.key) == k && pfx + TupleBytes(b.key) == k
    ensures a.key == b.key
  {
    assert TupleBytes(a.key) == k[|pfx|..] == TupleBytes(b.key);
    TupleOfBytes(a.key);
    TupleOfBytes(b.key);
  }

  /** Every value entry has a short key. */
  ghost predicate ShortValues(es: seq<Entry>) {
    forall i :: 0 <= i < |es| && es[i].payload.Value? ==> es[i].key.len <= SLICE
  }

  lemma BorderShort(s: Snap, d: NodeId, b: NodeId)
    requires b in s.h && s.h[b].Border? && BorderAt(s, d, b)
    ensures ShortValues(s.h[b].entries)
  {
    forall i | 0 <= i < |s.h[b].entries|
      ensures EntryAt(s, d, b, s.h[b].entries[i])
    {
    }
  }

  /** Entries at two places of a border hold different keys. */
  lemma OneKeyOneEntry(pfx: Key, es: seq<Entry>, i: nat, m: nat, k: Key)
    requires Sorted(es) && ShortValues(es) && i < |es| && m < |es| && i != m
    requires es[i].payload.Value? && es[m].payload.Value?
    ensures !(pfx + TupleBytes(es[i].key) == k == pfx + TupleBytes(es[m].key))
  {
    if pfx + TupleBytes(es[i].key) == k == pfx + TupleBytes(es[m].key) {
      ValueKeysDiffer(pfx, es[i], es[m], k);
    }
  }

  lemma HoldsRemoved(pfx: Key, es: seq<Entry>, i: nat, k: Key, v: Val)
    requires Sorted(es) && ShortValues(es) && i < |es|
    ensures
      SeqHolds(pfx, RemoveAt(es, i), k, v) <==>
      SeqHolds(pfx, es, k, v) && (es[i].payload.Value? ==> k != pfx + TupleBytes(es[i].key))
  {
    if SeqHolds(pfx, RemoveAt(es, i), k, v) {
      HoldsBefore(pfx, es, i, k, v);
    }
    if SeqHolds(pfx, es, k, v) && (es[i].payload.Value? ==> k != pfx + TupleBytes(es[i].key)) {
      HoldsAfter(pfx, es, i, k, v);
    }
  }

  lemma HoldsBefore(pfx: Key, es: seq<Entry>, i: nat, k: Key, v: Val)
    requires Sorted(es) && ShortValues(es) && i < |es| && SeqHolds(pfx, RemoveAt(es, i), k, v)
    ensures SeqHolds(pfx, es, k, v) && (es[i].payload.Value? ==> k != pfx + TupleBytes(es[i].key))
  {
    var es' := RemoveAt(es, i);
    var e :| e in es' && EntryHolds(pfx, e, k, v);
    var j :| 0 <= j < |es'| && es'[j] == e;
    var m := if j < i then j else j + 1;
    assert es[m] == e;
    if es[i].payload.Value? {
      OneKeyOneEntry(pfx, es, i, m, k);
    }
  }

  lemma HoldsAfter(pfx: Key, es: seq<Entry>, i: nat, k: Key, v: Val)
    requires i < |es| && SeqHolds(pfx, es, k, v)
    requires es[i].payload.Value? ==> k != pfx + TupleBytes(es[i].key)
    ensures SeqHolds(pfx, RemoveAt(es, i), k, v)
  {
    var e :| e in es && EntryHolds(pfx, e, k, v);
    var j :| 0 <= j < |es| && es[j] == e;
    assert j != i;
    assert RemoveAt(es, i)[if j < i then j else j - 1] == e;
  }

  lemma HoldsUpdated(pfx: Key, es: seq<Entry>, i: nat, w: Val, k: Key, v: Val)
    requires Sorted(es) && ShortValues(es) && i < |es| && es[i].payload.Value?
    ensures
      var k0 := pfx + TupleBytes(es[i].key);
      SeqHolds(pfx, es[i := Entry(es[i].key, Value(w))], k, v) <==>
      if k == k0 then v == w else SeqHolds(pfx, es, k, v)
  {
    var e' := Entry(es[i].key, Value(w));
    var es' := es[i := e'];
    var k0 := pfx + TupleBytes(es[i].key);
    assert es'[i] == e' && e' in es';
    if k == k0 {
      forall j | 0 <= j < |es'| && EntryHolds(pfx, es'[j], k, v)
        ensures v == w
      {
        ValueKeysDiffer(pfx, e', es'[j], k);
      }
      assert EntryHolds(pfx, e', k, w);
    } else {
      forall e | EntryHolds(pfx, e, k, v)
        ensures e in es <==> e in es'
      {
        if e in es {
          var j :| 0 <= j < |es| && es[j] == e;
          assert es'[j] == e;
        }
        if e in es' {
          var j :| 0 <= j < |es'| && es'[j] == e;
          assert es[j] == e;
        }
      }
    }
  }

  // ---- the steps ----

  /** All that changed is who points at whom. */
  ghost predicate SameEntries(s: Snap, s': Snap) {
    forall n, k, v :: NodeHolds(s', n, k, v) <==> NodeHolds(s, n, k, v)
  }

  lemma SameStored(s: Snap, s': Snap)
    requires SameEntries(s, s')
    ensures forall k, v :: Stored(s', k, v) <==> Stored(s, k, v)
  {
  }

  lemma CrownMeaning(s: Snap, left: NodeId, x: NodeId, sep: KeyTuple, t: NodeId, s': Snap)
    requires left in s.h && x in s.h && Crowned(s, left, x, sep, t, s')
    ensures SameEntries(s, s')
  {
    forall n, k, v
      ensures NodeHolds(s', n, k, v) <==> NodeHolds(s, n, k, v)
    {
      if n in s.h && s.h[n].Border? {
        HoldsRelinked(Of(s, n).pfx, s.h[n].entries, left, t, k, v);
      }
    }
  }

  lemma AdoptMeaning(s: Snap, left: NodeId, x: NodeId, sep: KeyTuple, p: NodeId, s': Snap)
    requires p in s.h && s.h[p].Interior? && x in s.h && Adopted(s, left, x, sep, p, s')
    ensures SameEntries(s, s')
  {
  }

  lemma InnerSplitMeaning(s: Snap, p: NodeId, x: NodeId, y: NodeId, hv: Halves, s': Snap)
    requires p in s.h && s.h[p].Interior? && x in s.h && InnerSplit(s, p, x, y, hv, s')
    ensures SameEntries(s, s')
  {
  }

  lemma DropMeaning(s: Snap, p: NodeId, i: nat, s': Snap)
    requires p in s.h && s.h[p].Interior? && i <= |s.h[p].keys| && |s.h[p].keys| > 0 && i < |s.h[p].children|
    requires Dropped(s, p, i, s')
    ensures SameEntries(s, s')
  {
  }

  lemma CollapseMeaning(s: Snap, p: NodeId, sib: NodeId, s': Snap)
    requires p in s.h && s.h[p].Interior? && Collapsed(s, p, sib, s') && s.h[p].parent != sib
    ensures SameEntries(s, s')
  {
    forall n, k, v
      ensures NodeHolds(s', n, k, v) <==> NodeHolds(s, n, k, v)
    {
      if n in s'.h && s.h[n].Border? {
        HoldsRelinked(Of(s, n).pfx, s.h[n].entries, p, sib, k, v);
      }
    }
  }

  lemma NameParentMeaning(s: Snap, x: NodeId, b: NodeId, s': Snap)
    requires x in s.h && s' == s.(h := s.h[x := s.h[x].(parent := b)])
    ensures SameEntries(s, s')
  {
  }

  /** Border `b` holds something new, and every other border what it held. */
  lemma StoredAt(s: Snap, s': Snap, b: NodeId, k: Key, v: Val)
    requires forall n :: n != b ==> (NodeHolds(s', n, k, v) <==> NodeHolds(s, n, k, v))
    requires NodeHolds(s, b, k, v) ==> NodeHolds(s', b, k, v)
    ensures Stored(s', k, v) <==> Stored(s, k, v) || NodeHolds(s', b, k, v)
  {
    if Stored(s, k, v) {
      var n :| NodeHolds(s, n, k, v);
      assert NodeHolds(s', n, k, v);
    }
    if Stored(s', k, v) && !NodeHolds(s', b, k, v) {
      var n :| NodeHolds(s', n, k, v);
      assert NodeHolds(s, n, k, v);
    }
  }

  lemma InsertMeaning(s: Snap, b: NodeId, e: Entry, s': Snap)
    requires b in s.h && s.h[b].Border? && Inserted(s, b, e, s')
    ensures forall k, v :: Stored(s', k, v) <==> Stored(s, k, v) || EntryHolds(Of(s, b).pfx, e, k, v)
  {
    forall k, v
      ensures Stored(s', k, v) <==> Stored(s, k, v) || EntryHolds(Of(s, b).pfx, e, k, v)
    {
      HoldsInserted(Of(s, b).pfx, s.h[b].entries, Rank(s.h[b].entries, Ord(e.key)), e, k, v);
      StoredAt(s, s', b, k, v);
      assert NodeHolds(s, b, k, v) ==> Stored(s, k, v);
    }
  }

  lemma PlantMeaning(s: Snap, y: NodeId, pfx: Key, e: Entry, s': Snap)
    requires Planted(s, y, pfx, e, s')
    ensures forall k, v :: Stored(s', k, v) <==> Stored(s, k, v) || EntryHolds(pfx, e, k, v)
  {
    forall k, v
      ensures Stored(s', k, v) <==> Stored(s, k, v) || EntryHolds(pfx, e, k, v)
    {
      StoredAt(s, s', y, k, v);
      assert e in s'.h[y].entries;
      assert NodeHolds(s', y, k, v) <==> EntryHolds(pfx, e, k, v);
    }
  }

  lemma SplitMeaning(s: Snap, b: NodeId, e: Entry, x: NodeId, y: NodeId, low: seq<Entry>, high: seq<Entry>, s': Snap)
    requires Halved(s, b, e, x, low, high) && LeafSplit(s, b, y, low, high, s')
    ensures forall k, v :: Stored(s', k, v) <==> Stored(s, k, v) || EntryHolds(Of(s, b).pfx, e, k, v)
  {
    var es := s.h[b].entries;
    var r := Rank(es, Ord(e.key));
    SplitEntriesCorrect(es, r, e);
    forall k, v
      ensures Stored(s', k, v) <==> Stored(s, k, v) || EntryHolds(Of(s, b).pfx, e, k, v)
    {
      HoldsInserted(Of(s, b).pfx, es, r, e, k, v);
      HoldsConcat(Of(s, b).pfx, low, high, k, v);
      SplitStored(s, b, y, low, high, s', k, v);
      assert NodeHolds(s, b, k, v) <==> SeqHolds(Of(s, b).pfx, es, k, v);
    }
  }

  lemma SplitStored(s: Snap, b: NodeId, y: NodeId, low: seq<Entry>, high: seq<Entry>, s': Snap, k: Key, v: Val)
    requires b in s.h && s.h[b].Border? && LeafSplit(s, b, y, low, high, s')
    requires NodeHolds(s, b, k, v) ==> SeqHolds(Of(s, b).pfx, low, k, v) || SeqHolds(Of(s, b).pfx, high, k, v)
    ensures Stored(s', k, v) <==>
            Stored(s, k, v) || SeqHolds(Of(s, b).pfx, low, k, v) || SeqHolds(Of(s, b).pfx, high, k, v)
  {
    forall n | n != b && n != y
      ensures NodeHolds(s', n, k, v) <==> NodeHolds(s, n, k, v)
    {
    }
    assert NodeHolds(s', b, k, v) <==> SeqHolds(Of(s, b).pfx, low, k, v);
    assert NodeHolds(s', y, k, v) <==> SeqHolds(Of(s, b).pfx, high, k, v);
    if Stored(s, k, v) {
      var n :| NodeHolds(s, n, k, v);
      assert n != b ==> NodeHolds(s', n, k, v);
    }
  }

  /** The key of an entry about to go, when no other border holds it. */
  ghost predicate SoleHolder(s: Snap, b: NodeId, i: nat)
    requires b in s.h && s.h[b].Border? && i < |s.h[b].entries|
  {
    var e := s.h[b].entries[i];
    e.payload.Value? ==> forall c, v :: NodeHolds(s, c, Of(s, b).pfx + TupleBytes(e.key), v) ==> c == b
  }

  /** The store after entry `i` of `b` went: its key, if it was a value, is gone; nothing else is. */
  ghost predicate Without(s: Snap, b: NodeId, i: nat, s': Snap)
    requires b in s.h && s.h[b].Border? && i < |s.h[b].entries|
  {
    var e := s.h[b].entries[i];
    forall k, v :: Stored(s', k, v) <==>
                   Stored(s, k, v) && (e.payload.Value? ==> k != Of(s, b).pfx + TupleBytes(e.key))
  }

  lemma WithoutEntry(s: Snap, b: NodeId, i: nat, s': Snap)
    requires b in s.h && s.h[b].Border? && i < |s.h[b].entries|
    requires Sorted(s.h[b].entries) && ShortValues(s.h[b].entries) && SoleHolder(s, b, i)
    requires forall n, k, v :: n != b ==> (NodeHolds(s', n, k, v) <==> NodeHolds(s, n, k, v))
    requires forall k, v :: NodeHolds(s', b, k, v) <==> SeqHolds(Of(s, b).pfx, RemoveAt(s.h[b].entries, i), k, v)
    ensures Without(s, b, i, s')
  {
    var e := s.h[b].entries[i];
    forall k, v
      ensures Stored(s', k, v) <==>
              Stored(s, k, v) && (e.payload.Value? ==> k != Of(s, b).pfx + TupleBytes(e.key))
    {
      HoldsRemoved(Of(s, b).pfx, s.h[b].entries, i, k, v);
      if Stored(s', k, v) {
        var n :| NodeHolds(s', n, k, v);
        assert NodeHolds(s, n, k, v);
      }
      if Stored(s, k, v) && (e.payload.Value? ==> k != Of(s, b).pfx + TupleBytes(e.key)) {
        var n :| NodeHolds(s, n, k, v);
        assert NodeHolds(s', n, k, v);
      }
    }
  }

  lemma TakeMeaning(s: Snap, b: NodeId, i: nat, s': Snap)
    requires b in s.h && s.h[b].Border? && i < |s.h[b].entries| && Taken(s, b, i, s')
    requires Sorted(s.h[b].entries) && ShortValues(s.h[b].entries) && SoleHolder(s, b, i)
    ensures Without(s, b, i, s')
  {
    WithoutEntry(s, b, i, s');
  }

  lemma EmptyMeaning(s: Snap, s': Snap)
    requires s.root in s.h && s.h[s.root].Border? && |s.h[s.root].entries| == 1 && Emptied(s, s')
    requires Sorted(s.h[s.root].entries) && ShortValues(s.h[s.root].entries) && SoleHolder(s, s.root, 0)
    ensures Without(s, s.root, 0, s')
  {
    assert RemoveAt(s.h[s.root].entries, 0) == [];
    WithoutEntry(s, s.root, 0, s');
  }

  lemma BuryMeaning(s: Snap, b: NodeId, s': Snap)
    requires b in s.h && s.h[b].Border? && |s.h[b].entries| == 1 && Buried(s, b, s')
    requires Sorted(s.h[b].entries) && ShortValues(s.h[b].entries) && SoleHolder(s, b, 0)
    ensures Without(s, b, 0, s')
  {
    assert RemoveAt(s.h[b].entries, 0) == [];
    WithoutEntry(s, b, 0, s');
  }

  /** Overwriting the value of one entry. */
  ghost predicate Overwritten(s: Snap, b: NodeId, i: nat, w: Val, s': Snap)
    requires b in s.h && s.h[b].Border? && i < |s.h[b].entries|
  {
    var n := s.h[b];
    s' == s.(h := s.h[b := n.(entries := n.entries[i := Entry(n.entries[i].key, Value(w))])])
  }

  lemma OverwriteMeaning(s: Snap, b: NodeId, i: nat, w: Val, s': Snap)
    requires b in s.h && s.h[b].Border? && i < |s.h[b].entries| && s.h[b].entries[i].payload.Value?
    requires Sorted(s.h[b].entries) && ShortValues(s.h[b].entries) && SoleHolder(s, b, i)
    requires Overwritten(s, b, i, w, s')
    ensures
      var k0 := Of(s, b).pfx + TupleBytes(s.h[b].entries[i].key);
      forall k, v :: Stored(s', k, v) <==> if k == k0 then v == w else Stored(s, k, v)
  {
    var pfx := Of(s, b).pfx;
    var k0 := pfx + TupleBytes(s.h[b].entries[i].key);
    forall k, v
      ensures Stored(s', k, v) <==> if k == k0 then v == w else Stored(s, k, v)
    {
      HoldsUpdated(pfx, s.h[b].entries, i, w, k, v);
      forall n | n != b ensures NodeHolds(s', n, k, v) <==> NodeHolds(s, n, k, v) {}
      assert NodeHolds(s', b, k, v) <==> if k == k0 then v == w else NodeHolds(s, b, k, v);
      if Stored(s', k, v) {
        var n :| NodeHolds(s', n, k, v);
      }
      if Stored(s, k, v) {
        var n :| NodeHolds(s, n, k, v);
      }
    }
  }

  lemma OverwriteKeepsShape(s: Snap, b: NodeId, i: nat, w: Val, s': Snap)
    requires Shape(s, NULL, NULL) && b in s.h && s.h[b].Border? && i < |s.h[b].entries|
    requires s.h[b].entries[i].payload.Value? && Overwritten(s, b, i, w, s')
    ensures Shape(s', NULL, NULL)
  {
    OverwriteBorders(s, b, i, w, s');
    OverwriteRest(s, b, i, w, s');
  }

  lemma OverwriteBorders(s: Snap, b: NodeId, i: nat, w: Val, s': Snap)
    requires Borders(s, NULL) && b in s.h && s.h[b].Border? && i < |s.h[b].entries|
    requires s.h[b].entries[i].payload.Value? && Overwritten(s, b, i, w, s')
    ensures Borders(s', NULL)
  {
    assert Alike(s, s');
    forall n | n in s'.h && s'.h[n].Border?
      ensures BorderAt(s', NULL, n)
    {
      assert BorderAt(s, NULL, n);
      forall j | 0 <= j < |s.h[n].entries|
        ensures EntryAt(s', NULL, n, s.h[n].entries[j])
      {
        EntryAlike(s, NULL, n, s.h[n].entries[j], s');
      }
      assert EntryAt(s', NULL, b, s.h[b].entries[i]) ==> EntryAt(s', NULL, b, Entry(s.h[b].entries[i].key, Value(w)));
    }
  }

  lemma OverwriteRest(s: Snap, b: NodeId, i: nat, w: Val, s': Snap)
    requires Domain(s) && Interiors(s, NULL) && Parents(s, NULL) && Chains(s)
    requires b in s.h && s.h[b].Border? && i < |s.h[b].entries|
    requires s.h[b].entries[i].payload.Value? && Overwritten(s, b, i, w, s')
    ensures Domain(s') && Interiors(s', NULL) && Parents(s', NULL) && Chains(s')
  {
    OverwriteChains(s, b, i, w, s');
    OverwriteInteriors(s, b, i, w, s');
    OverwriteParents(s, b, i, w, s');
  }

  lemma OverwriteChains(s: Snap, b: NodeId, i: nat, w: Val, s': Snap)
    requires Domain(s) && Chains(s) && b in s.h && s.h[b].Border? && i < |s.h[b].entries| && Overwritten(s, b, i, w, s')
    ensures Domain(s') && Chains(s')
  {
    assert Domain(s');
    hide Chains;
    ChainsAlike(s, s');
  }

  lemma OverwriteParents(s: Snap, b: NodeId, i: nat, w: Val, s': Snap)
    requires Domain(s) && Parents(s, NULL) && b in s.h && s.h[b].Border? && i < |s.h[b].entries|
    requires s.h[b].entries[i].payload.Value? && Overwritten(s, b, i, w, s')
    ensures Parents(s', NULL)
  {
    hide HasLink;
    forall n | n in s'.h
      ensures ParentAt(s', n)
    {
      assert ParentAt(s, n);
      OverwriteLinks(s.h[b].entries, i, w, n);
    }
  }

  lemma OverwriteInteriors(s: Snap, b: NodeId, i: nat, w: Val, s': Snap)
    requires Interiors(s, NULL) && b in s.h && s.h[b].Border? && i < |s.h[b].entries| && Overwritten(s, b, i, w, s')
    ensures Interiors(s', NULL)
  {
    hide InteriorAt;
    assert Alike(s, s');
    forall n | n in s'.h && s'.h[n].Interior?
      ensures InteriorAt(s', NULL, n)
    {
      InteriorAlike(s, NULL, n, s');
    }
  }

  lemma OverwriteLinks(es: seq<Entry>, i: nat, w: Val, n: NodeId)
    requires i < |es| && es[i].payload.Value?
    ensures HasLink(es, n) ==> HasLink(es[i := Entry(es[i].key, Value(w))], n)
  {
    var es' := es[i := Entry(es[i].key, Value(w))];
    if HasLink(es, n) {
      var j :| 0 <= j < |es| && es[j].payload == Link(n);
      assert es'[j] == es[j];
    }
  }
}
