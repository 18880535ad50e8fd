/** Nodes of the tree as slots: an object of `BorderNode` or `InteriorNode` that shows a node of the heap
    goes on showing it when its method does to the slots what a step of the tree does to the heap. */
module SlotNodes {
  import opened Keys
  import opened Contents
  import opened Store
  import opened Routing
  import opened InsertStep
  import opened SplitStep
  import opened AttachStep
  import opened InnerSplitStep
  import opened RemoveStep
  import opened InnerRemoveStep
  import opened Meaning
  import opened Permutations
  import opened BorderNodes
  import opened InteriorNodes

  /** The slots hold the entries of the border. */
  ghost predicate Shows(o: BorderNode, n: Node)
    reads o, o.perm, o.keys, o.lvs
  {
    o.Valid() && n.Border? && o.Contents() == n.entries
  }

  /** The slots hold the separators and children of the interior node. */
  ghost predicate ShowsRow(o: InteriorNode, n: Node)
    reads o, o.keys, o.children
  {
    o.Valid() && n.Interior? && o.Keys() == n.keys && o.Kids() == n.children
  }

  predicate Apart(o: BorderNode, right: BorderNode) {
    o.perm != right.perm && o.keys != right.keys && o.lvs != right.lvs
  }

  predicate RowsApart(o: InteriorNode, right: InteriorNode) {
    && right != o && right.keys != o.keys && right.children != o.children
    && right.keys != o.children as object && right.children != o.keys as object
  }

  // ---- borders ----

  /** The search over the slots answers what the tree reads from the heap. */
  method Search(o: BorderNode, t: KeyTuple, ghost n: Node) returns (found: bool, pos: nat)
    requires Shows(o, n) && Canonical(t)
    ensures found <==> Lookup(n.entries, t) < |n.entries|
    ensures found ==> pos in o.perm.Slots() && o.keys.Length > pos && o.lvs.Length > pos
                      && o.keys[pos] == t && o.lvs[pos] == Held(n.entries[Lookup(n.entries, t)].payload)
  {
    found, pos := o.GetLvOf(t);
    FitFacts(o.perm.body);
    if found {
      assert o.Contents()[Lookup(n.entries, t)].key == t;
    }
  }

  /** A border with room takes an entry. */
  method Enter(o: BorderNode, e: Entry, ghost s: Snap, ghost b: NodeId, ghost x: NodeId, ghost s': Snap)
    requires Fits(s, b, e, x) && |s.h[b].entries| < FANOUT && InsertStep.Inserted(s, b, e, s')
    requires Shows(o, s.h[b])
    modifies o.perm, o.keys, o.lvs
    ensures Shows(o, s'.h[b])
  {
    hide Fit, SlotsOf, CountOf, Rank, Lookup;
    FitFacts(o.perm.body);
    var rank := o.ComputeRankIfInsert(e.key);
    var slot := o.perm.GetEmptySlot();
    o.InsertLvAt(slot, e.key, e.payload, rank);
  }

  /** A full border is split. */
  method Divide(o: BorderNode, right: BorderNode, e: Entry, ghost s: Snap, ghost b: NodeId, ghost x: NodeId,
                ghost y: NodeId, ghost low: seq<Entry>, ghost high: seq<Entry>, ghost s': Snap)
    requires Halved(s, b, e, x, low, high) && LeafSplit(s, b, y, low, high, s')
    requires Shows(o, s.h[b]) && right.Valid() && Apart(o, right)
    modifies o.perm, o.keys, o.lvs, right.perm, right.keys, right.lvs
    ensures Shows(o, s'.h[b]) && Shows(right, s'.h[y])
  {
    hide Fit, SlotsOf, CountOf, Rank, Lookup, SplitEntries, BorderAt, Sorted;
    var rank := o.ComputeRankIfInsert(e.key);
    o.Split(right, e.key, e.payload, rank);
  }

  /** A value is replaced. */
  method Replace(o: BorderNode, t: KeyTuple, w: Val, ghost s: Snap, ghost b: NodeId, ghost s': Snap)
    requires b in s.h && s.h[b].Border? && Canonical(t) && Lookup(s.h[b].entries, t) < |s.h[b].entries|
    requires Overwritten(s, b, Lookup(s.h[b].entries, t), w, s')
    requires Shows(o, s.h[b])
    modifies o.lvs
    ensures Shows(o, s'.h[b])
  {
    hide Fit, SlotsOf, CountOf, Rank, Lookup, Sorted;
    var found, pos := o.GetLvOf(t);
    o.SetLv(pos, Value(w), Lookup(s.h[b].entries, t));
  }

  /** An entry goes; the value it held is handed to reclamation if it was allocated. */
  method Take(o: BorderNode, t: KeyTuple, targetIsValue: bool, ghost s: Snap, ghost b: NodeId, ghost s': Snap)
    returns (released: seq<nat>, emptied: bool)
    requires b in s.h && s.h[b].Border? && Canonical(t) && Lookup(s.h[b].entries, t) < |s.h[b].entries|
    requires Taken(s, b, Lookup(s.h[b].entries, t), s')
    requires Shows(o, s.h[b])
    modifies o.perm, o.lvs
    ensures Shows(o, s'.h[b]) && (emptied <==> s'.h[b].entries == [])
    ensures released ==
            var p := s.h[b].entries[Lookup(s.h[b].entries, t)].payload;
            if targetIsValue && p.Value? && p.val.Boxed? then [p.val.id] else []
  {
    hide Fit, SlotsOf, CountOf, Rank, Lookup, Sorted;
    released, emptied := o.DeleteOf(t, targetIsValue);
  }

  // ---- interior nodes ----

  /** One step of the descent over the slots is one step of the route. */
  method Descend(o: InteriorNode, slice: seq<byte>, len: nat, ghost s: Snap, ghost n: NodeId) returns (c: NodeId)
    requires Interiors(s, NULL) && n in s.h && ShowsRow(o, s.h[n]) && |slice| == SLICE
    ensures c in s.h[n].children
    ensures Route(s, n, Ord(Clamp(slice, len))) == Route(s, c, Ord(Clamp(slice, len)))
  {
    RouteStep(s, n, Ord(Clamp(slice, len)));
    c := o.GetChildOf(slice, len);
  }

  lemma SeparatorNew(ks: seq<KeyTuple>, i: nat, sep: KeyTuple)
    requires KeysSorted(ks) && i <= |ks|
    requires (i > 0 ==> Ord(ks[i - 1]) < Ord(sep)) && (i < |ks| ==> Ord(sep) < Ord(ks[i]))
    ensures forall j :: 0 <= j < |ks| ==> Ord(ks[j]) != Ord(sep)
  {
    hide Ord;
  }

  lemma PendingNew(s: Snap, left: NodeId, x: NodeId, sep: KeyTuple, p: NodeId)
    requires Domain(s) && Interiors(s, NULL) && Pending(s, left, x, sep)
    requires p in s.h && s.h[p].Interior? && s.h[left].parent == p && left in s.h[p].children
    ensures forall j :: 0 <= j < |s.h[p].keys| ==> Ord(s.h[p].keys[j]) != Ord(sep)
  {
    hide Ord, KidAt;
    assert InteriorAt(s, NULL, p);
    var i :| 0 <= i < |s.h[p].children| && s.h[p].children[i] == left;
    LeftPosition(s, left, x, sep, p, i);
    SeparatorNew(s.h[p].keys, i, sep);
  }

  /** An interior node with room takes a separator and a child. */
  method Adopt(o: InteriorNode, sep: KeyTuple, x: NodeId, ghost s: Snap, ghost left: NodeId, ghost p: NodeId, ghost s': Snap)
    requires Domain(s) && Interiors(s, NULL) && Pending(s, left, x, sep)
    requires p in s.h && s.h[p].Interior? && s.h[left].parent == p && left in s.h[p].children
    requires |s.h[p].keys| < FANOUT && Adopted(s, left, x, sep, p, s')
    requires ShowsRow(o, s.h[p])
    modifies o`n, o.keys, o.children
    ensures ShowsRow(o, s'.h[p])
  {
    hide Interiors, Ord, ChildIndex, KeysSorted;
    PendingNew(s, left, x, sep, p);
    o.Insert(x, sep);
  }

  /** A full interior node is split. */
  method DivideRow(o: InteriorNode, right: InteriorNode, sep: KeyTuple, x: NodeId, ghost s: Snap, ghost left: NodeId,
                   ghost p: NodeId, ghost y: NodeId, ghost hv: Halves, ghost s': Snap)
    returns (pivot: KeyTuple)
    requires Domain(s) && Interiors(s, NULL) && Pending(s, left, x, sep)
    requires p in s.h && s.h[p].Interior? && s.h[left].parent == p && left in s.h[p].children
    requires |s.h[p].keys| == FANOUT && KeysSorted(s.h[p].keys) && |s.h[p].children| == FANOUT + 1
    requires hv == SplitInterior(s.h[p].keys, s.h[p].children, sep, x) && InnerSplit(s, p, x, y, hv, s')
    requires ShowsRow(o, s.h[p]) && right.Valid() && RowsApart(o, right)
    modifies o`n, o.keys, o.children, right`n, right.keys, right.children
    ensures ShowsRow(o, s'.h[p]) && ShowsRow(right, s'.h[y]) && pivot == hv.pivot
  {
    hide Interiors, Ord, ChildIndex, KeysSorted, SplitInterior;
    PendingNew(s, left, x, sep, p);
    pivot := o.Split(right, x, sep);
  }

  /** A child of at least three goes. */
  method Drop(o: InteriorNode, d: NodeId, ghost s: Snap, ghost p: NodeId, ghost i: nat, ghost s': Snap)
    requires p in s.h && s.h[p].Interior? && InteriorAt(s, d, p) && |s.h[p].keys| > 1
    requires i < |s.h[p].children| && s.h[p].children[i] == d && Dropped(s, p, i, s')
    requires ShowsRow(o, s.h[p])
    modifies o`n, o.keys, o.children
    ensures ShowsRow(o, s'.h[p])
  {
    hide Ord, KeysSorted, KidAt, DropKey, RemoveAt;
    ghost var cs := o.Kids();
    o.DeleteOf(d);
    ghost var j :| 0 <= j < |cs| && cs[j] == d && o.Keys() == DropKey(s.h[p].keys, j) && o.Kids() == RemoveAt(cs, j);
    assert i == j;
  }
}
