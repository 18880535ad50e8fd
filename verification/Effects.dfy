/** What one operation does to the nodes it does not replace, and to the one it is about: the exact new
    contents and counters, and that every other node keeps its own. */
module Effects {
  import opened Keys
  import opened Contents
  import opened Store
  import opened Routing
  import opened InsertStep
  import opened SplitStep
  import opened AttachStep
  import opened InnerSplitStep
  import opened RemoveStep
  import opened Meaning
  import opened Widen
  import opened Track
  import opened TreeFacts

  /** Node `m` is above `n` in the layer of `n`, or is the border that links to that layer. */
  ghost predicate UpBy(h: Heap, n: NodeId, m: NodeId, k: nat)
    decreases k
  {
    k > 0 && n in h && h[n].parent in h
    && (m == h[n].parent || (h[h[n].parent].Interior? && UpBy(h, h[n].parent, m, k - 1)))
  }

  ghost predicate Up(h: Heap, n: NodeId, m: NodeId) {
    exists k: nat :: UpBy(h, n, m, k)
  }

  predicate SameCounts(v: Version, w: Version) {
    w.vins == v.vins && w.vsplit == v.vsplit && w.deleted == v.deleted
  }

  /** The node holds what it held, at the same counts; its parent and its place in the chain may differ. */
  predicate Kept(n: Node, n': Node) {
    SameCounts(n.ver, n'.ver)
    && match n
       case Border(_, _, es, _, next) => n'.Border? && n'.entries == es && n'.next == next
       case Interior(_, _, ks, cs) => n'.Interior? && n'.keys == ks && n'.children == cs
  }

  /** The node has been changed once.  An interior node counts an insertion for a child it gained, or it was
      full, counts a split and keeps seven separators, or eight with an insertion; a border counts at most
      one insertion, for a link that leads elsewhere now. */
  predicate Nudged(n: Node, n': Node) {
    && n.ver.vins <= n'.ver.vins <= n.ver.vins + 1 && n.ver.vsplit <= n'.ver.vsplit <= n.ver.vsplit + 1
    && n'.ver.deleted == n.ver.deleted
    && match n
       case Border(_, _, es, _, next) =>
         && n'.Border? && n'.next == next && n'.ver.vsplit == n.ver.vsplit && |n'.entries| == |es|
         && forall i :: 0 <= i < |es| ==> n'.entries[i].key == es[i].key && (es[i].payload.Value? ==> n'.entries[i] == es[i])
       case Interior(_, _, ks, cs) =>
         && n'.Interior?
         && if n'.ver.vsplit == n.ver.vsplit then n'.ver.vins - n.ver.vins == |n'.children| - |cs|
            else
              && |ks| == FANOUT && |n'.children| == |n'.keys| + 1
              && |n'.keys| == if n'.ver.vins == n.ver.vins then FANOUT / 2 else FANOUT / 2 + 1
  }

  /** The nodes above `left` may have been changed, once each; all others are kept. */
  ghost predicate Attached(h: Heap, left: NodeId, h': Heap) {
    forall n <- h :: n in h' && if Up(h, left, n) then Nudged(h[n], h'[n]) else Kept(h[n], h'[n])
  }

  /** Border `b` has taken entry `e`: in its own slots, every other node being what it was, or as half of a
      split with new border `y`, the nodes above it counting at most one change each. */
  ghost predicate Took(h: Heap, b: NodeId, e: Entry, h': Heap) {
    && b in h && h[b].Border? && b in h' && Lookup(h[b].entries, e.key) == |h[b].entries|
    && if |h[b].entries| < FANOUT then
         && h'[b] == Entered(h[b], Rank(h[b].entries, Ord(e.key)), e)
         && forall n <- h :: n != b ==> n in h' && h'[n] == h[n]
       else
         TookSplit(h, b, e, h')
  }

  ghost predicate TookSplit(h: Heap, b: NodeId, e: Entry, h': Heap)
    requires b in h && h[b].Border? && b in h'
  {
    var y := if h'[b].Border? then h'[b].next else NULL;
    && h'[b].Border? && y in h' && y !in h && h'[y].Border? && h'[y].next == h[b].next
    && Halves(h[b].entries, e, h'[b].entries, h'[y].entries)
    && h'[b].ver.vins == h[b].ver.vins + 1 && h'[b].ver.vsplit == h[b].ver.vsplit + 1
    && SameCounts(h'[b].ver, h'[y].ver) && h'[b].ver.deleted == h[b].ver.deleted
    && forall n <- h :: n != b ==> n in h' && if Up(h, b, n) then Nudged(h[n], h'[n]) else Kept(h[n], h'[n])
  }

  ghost predicate Halves(es: seq<Entry>, e: Entry, low: seq<Entry>, high: seq<Entry>) {
    && |es| == FANOUT && Sorted(es) && Canonical(e.key) && Lookup(es, e.key) == |es|
    && (low, high) == SplitEntries(es, Rank(es, Ord(e.key)), e)
  }

  /** A new key: one border takes one entry, with the value or with a link to a new layer. */
  ghost predicate Admits(s: Snap, k: Key, v: Val, h': Heap) {
    exists n, rest, b :: AdmitsAt(s, k, v, h', n, rest, b)
  }

  ghost predicate AdmitsAt(s: Snap, k: Key, v: Val, h': Heap, n: NodeId, rest: Key, b: NodeId) {
    && b in s.h && s.h[b].Border? && Located(s, k, n, rest, b, |s.h[b].entries|)
    && exists e :: NewEntry(s.h, rest, v, e) && Took(s.h, b, e, h')
  }

  predicate NewEntry(h: Heap, rest: Key, v: Val, e: Entry) {
    e.key == TupleOf(rest)
    && if |rest| <= SLICE then e.payload == Value(v) else e.payload.Link? && e.payload.to !in h
  }

  /** An existing key: one value is replaced, and nothing else. */
  ghost predicate Updates(s: Snap, k: Key, v: Val, s': Snap) {
    exists n, rest, b, i :: UpdatesAt(s, k, v, s', n, rest, b, i)
  }

  ghost predicate UpdatesAt(s: Snap, k: Key, v: Val, s': Snap, n: NodeId, rest: Key, b: NodeId, i: nat) {
    && b in s.h && s.h[b].Border? && i < |s.h[b].entries| && Located(s, k, n, rest, b, i)
    && Overwritten(s, b, i, v, s')
  }

  /** A removed key: its border gives up one entry and nothing else changes, or the emptied top root border
      is marked, or the emptied border leaves the tree. */
  ghost predicate Leaves(s: Snap, k: Key, s': Snap, retired: seq<NodeId>, retired': seq<NodeId>) {
    exists n, rest, b, i :: LeavesAt(s, k, s', retired, retired', n, rest, b, i)
  }

  ghost predicate LeavesAt(s: Snap, k: Key, s': Snap, retired: seq<NodeId>, retired': seq<NodeId>,
                           n: NodeId, rest: Key, b: NodeId, i: nat) {
    && b in s.h && s.h[b].Border? && i < |s.h[b].entries| && Located(s, k, n, rest, b, i)
    && GaveUp(s, b, i, s', retired, retired')
  }

  ghost predicate GaveUp(s: Snap, b: NodeId, i: nat, s': Snap, retired: seq<NodeId>, retired': seq<NodeId>)
    requires b in s.h && s.h[b].Border? && i < |s.h[b].entries|
  {
    if |s.h[b].entries| > 1 then Taken(s, b, i, s') && retired' == retired
    else if s.h[b].parent == NULL then b == s.root && Emptied(s, s') && retired' == retired
    else b !in s'.h && |retired'| > |retired| && retired'[|retired'| - 1] == b
  }

  // ---- climbing ----

  lemma ParentUp(s: Snap, x: NodeId, n: NodeId)
    requires Shape(s, x, NULL) && n in s.h && (n == x ==> s.h[n].parent == NULL)
    ensures NULL !in s.h
    ensures var p := s.h[n].parent;
            p in s.h ==> if s.h[p].Interior? then Of(s, p).pfx == Of(s, n).pfx && Of(s, n).ht < Of(s, p).ht
                         else |Of(s, p).pfx| < |Of(s, n).pfx|
    ensures s.h[n].parent == NULL || s.h[n].parent in s.h
  {
    if s.h[n].parent in s.h {
      var p := s.h[n].parent;
      assert ParentAt(s, n);
      if s.h[p].Interior? {
        assert InteriorAt(s, NULL, p);
        var i :| 0 <= i < |s.h[p].children| && s.h[p].children[i] == n;
        assert KidAt(s, p, i, n);
      } else {
        assert BorderAt(s, NULL, p);
        var i :| 0 <= i < |s.h[p].entries| && s.h[p].entries[i].payload == Link(n);
        assert EntryAt(s, NULL, p, s.h[p].entries[i]);
      }
    } else if n != x {
      assert ParentAt(s, n);
    }
  }

  /** Climbing goes up: interior nodes get higher, and the border at the end is in a layer above. */
  lemma {:induction false} UpHigher(s: Snap, x: NodeId, n: NodeId, m: NodeId, k: nat)
    requires Shape(s, x, NULL) && (x in s.h ==> s.h[x].parent == NULL) && UpBy(s.h, n, m, k)
    ensures m in s.h
    ensures if s.h[m].Interior? then Of(s, m).pfx == Of(s, n).pfx && Of(s, n).ht < Of(s, m).ht
            else |Of(s, m).pfx| < |Of(s, n).pfx|
    decreases k
  {
    hide Shape;
    ParentUp(s, x, n);
    var p := s.h[n].parent;
    if m != p {
      UpHigher(s, x, p, m, k - 1);
    }
  }

  /** The nodes of `c` keep their parents, and so does everything above them. */
  ghost predicate ClimbsAlike(h: Heap, h': Heap, c: set<NodeId>) {
    forall n <- c :: n in h && n in h' && h'[n].parent == h[n].parent
                     && (h[n].parent in h <==> h[n].parent in h')
                     && (h[n].parent in h ==> h'[h[n].parent].Border? == h[h[n].parent].Border?
                                              && (h[h[n].parent].Interior? ==> h[n].parent in c))
  }

  lemma {:induction false} UpByAlike(h: Heap, h': Heap, c: set<NodeId>, n: NodeId, m: NodeId, k: nat)
    requires ClimbsAlike(h, h', c) && n in c
    ensures UpBy(h, n, m, k) <==> UpBy(h', n, m, k)
    decreases k
  {
    if k > 0 && h[n].parent in h && h[h[n].parent].Interior? {
      UpByAlike(h, h', c, h[n].parent, m, k - 1);
    }
  }

  lemma UpAlike(h: Heap, h': Heap, c: set<NodeId>, n: NodeId)
    requires ClimbsAlike(h, h', c) && n in c
    ensures forall m :: Up(h, n, m) <==> Up(h', n, m)
  {
    forall m
      ensures Up(h, n, m) <==> Up(h', n, m)
    {
      if Up(h, n, m) {
        var k: nat :| UpBy(h, n, m, k);
        UpByAlike(h, h', c, n, m, k);
      }
      if Up(h', n, m) {
        var k: nat :| UpBy(h', n, m, k);
        UpByAlike(h, h', c, n, m, k);
      }
    }
  }

  lemma UpParent(h: Heap, n: NodeId, m: NodeId)
    requires n in h && h[n].parent in h
    ensures Up(h, n, m) <==> m == h[n].parent || (h[h[n].parent].Interior? && Up(h, h[n].parent, m))
  {
    var p := h[n].parent;
    if m == p {
      assert UpBy(h, n, m, 1);
    } else if h[p].Interior? {
      if Up(h, p, m) {
        var k: nat :| UpBy(h, p, m, k);
        assert UpBy(h, n, m, k + 1);
      }
      if Up(h, n, m) {
        var k: nat :| UpBy(h, n, m, k);
        assert UpBy(h, p, m, k - 1);
      }
    }
  }

  lemma NothingUp(h: Heap, n: NodeId, m: NodeId)
    requires n in h ==> h[n].parent !in h
    ensures !Up(h, n, m)
  {
  }

  lemma NotUp(s: Snap, x: NodeId, n: NodeId, m: NodeId)
    requires Shape(s, x, NULL) && (x in s.h ==> s.h[x].parent == NULL) && n in s.h && m in s.h
    requires Of(s, m).pfx == Of(s, n).pfx && Of(s, m).ht <= Of(s, n).ht
    ensures !Up(s.h, n, m)
  {
    hide Shape;
    if Up(s.h, n, m) {
      var k: nat :| UpBy(s.h, n, m, k);
      UpHigher(s, x, n, m, k);
    }
  }

  // ---- the steps of the upward propagation ----

  lemma AdoptAttaches(s: Snap, left: NodeId, x: NodeId, sep: KeyTuple, p: NodeId, s': Snap)
    requires p in s.h && s.h[p].Interior? && x in s.h && left in s.h && s.h[left].parent == p && Adopted(s, left, x, sep, p, s')
    ensures Attached(s.h, left, s'.h)
  {
    forall n | n in s.h
      ensures n in s'.h && if Up(s.h, left, n) then Nudged(s.h[n], s'.h[n]) else Kept(s.h[n], s'.h[n])
    {
      assert n in s'.h.Keys;
      UpParent(s.h, left, n);
    }
  }

  lemma CrownAttaches(s: Snap, left: NodeId, x: NodeId, sep: KeyTuple, t: NodeId, s': Snap)
    requires left in s.h && x in s.h && NULL !in s.h && Crowned(s, left, x, sep, t, s')
    requires s.h[left].parent != left && s.h[left].parent != x
    ensures Attached(s.h, left, s'.h)
  {
    var p := s.h[left].parent;
    forall n | n in s.h
      ensures n in s'.h && if Up(s.h, left, n) then Nudged(s.h[n], s'.h[n]) else Kept(s.h[n], s'.h[n])
    {
      assert n in s'.h.Keys;
      if p == NULL {
        NothingUp(s.h, left, n);
      } else {
        UpParent(s.h, left, n);
      }
    }
  }

  /** One interior split and what follows above it. */
  lemma SplitAttaches(s: Snap, left: NodeId, x: NodeId, p: NodeId, y: NodeId, hv: Contents.Halves, s1: Snap, h2: Heap)
    requires Shape(s, x, NULL) && x in s.h && s.h[x].parent == NULL && left in s.h && s.h[left].parent == p
    requires p in s.h && s.h[p].Interior? && InnerSplit(s, p, x, y, hv, s1) && Attached(s1.h, p, h2)
    requires forall m <- hv.rightKids :: m in s.h && Of(s, m).ht < Of(s, p).ht
    requires Of(s, x).ht < Of(s, p).ht && HalfSizes(s.h[p], x, hv)
    ensures Attached(s.h, left, h2)
  {
    hide Shape, Nudged, Kept;
    var c := set n | n in s.h && Of(s, p).ht <= Of(s, n).ht;
    assert ClimbsAlike(s.h, s1.h, c) by { SplitClimbs(s, x, p, y, hv, s1, c); }
    UpAlike(s.h, s1.h, c, p);
    NotUp(s, x, p, p);
    forall n | n in s.h
      ensures n in h2 && if Up(s.h, left, n) then Nudged(s.h[n], h2[n]) else Kept(s.h[n], h2[n])
    {
      assert n in s1.h.Keys;
      UpParent(s.h, left, n);
      SplitNode(s, x, p, y, hv, s1, n);
      KeptThen(s.h[n], s1.h[n], h2[n]);
    }
  }

  lemma SplitClimbs(s: Snap, x: NodeId, p: NodeId, y: NodeId, hv: Contents.Halves, s1: Snap, c: set<NodeId>)
    requires Shape(s, x, NULL) && x in s.h && s.h[x].parent == NULL
    requires p in s.h && s.h[p].Interior? && InnerSplit(s, p, x, y, hv, s1)
    requires forall m <- hv.rightKids :: m in s.h && Of(s, m).ht < Of(s, p).ht
    requires Of(s, x).ht < Of(s, p).ht
    requires c == set n | n in s.h && Of(s, p).ht <= Of(s, n).ht
    ensures ClimbsAlike(s.h, s1.h, c)
  {
    hide Shape;
    forall n | n in c
      ensures n in s1.h && s1.h[n].parent == s.h[n].parent
      ensures s.h[n].parent in s.h <==> s.h[n].parent in s1.h
      ensures s.h[n].parent in s.h ==> s1.h[s.h[n].parent].Border? == s.h[s.h[n].parent].Border?
                                       && (s.h[s.h[n].parent].Interior? ==> s.h[n].parent in c)
    {
      ParentUp(s, x, n);
      assert n in s1.h.Keys;
      assert s.h[n].parent in s.h ==> s.h[n].parent in s1.h.Keys;
      assert s.h[n].parent == NULL ==> s.h[n].parent !in s1.h.Keys;
    }
  }

  lemma SplitNode(s: Snap, x: NodeId, p: NodeId, y: NodeId, hv: Contents.Halves, s1: Snap, n: NodeId)
    requires p in s.h && s.h[p].Interior? && x in s.h && InnerSplit(s, p, x, y, hv, s1) && n in s.h && n in s1.h
    requires HalfSizes(s.h[p], x, hv)
    ensures if n == p then Nudged(s.h[n], s1.h[n]) else Kept(s.h[n], s1.h[n])
  {
  }

  lemma KeptThen(n: Node, n1: Node, n2: Node)
    ensures Kept(n, n1) && Kept(n1, n2) ==> Kept(n, n2)
    ensures Kept(n, n1) && Nudged(n1, n2) ==> Nudged(n, n2)
    ensures Nudged(n, n1) && Kept(n1, n2) ==> Nudged(n, n2)
  {
  }

  predicate HalfSizes(n: Node, x: NodeId, hv: Contents.Halves)
    requires n.Interior?
  {
    && |n.keys| == FANOUT && |hv.leftKids| == |hv.leftKeys| + 1
    && |hv.leftKeys| == if x in hv.leftKids then FANOUT / 2 + 1 else FANOUT / 2
  }

  lemma PlaceOfNew(s: Snap, left: NodeId, x: NodeId, sep: KeyTuple, p: NodeId) returns (i: nat)
    requires Shape(s, x, NULL) && Pending(s, left, x, sep) && p in s.h && s.h[p].Interior? && s.h[left].parent == p
    ensures Canonical(sep) && x !in s.h[p].children && i <= |s.h[p].keys|
    ensures (i > 0 ==> Ord(s.h[p].keys[i - 1]) < Ord(sep)) && (i < |s.h[p].keys| ==> Ord(sep) < Ord(s.h[p].keys[i]))
  {
    ParentRow(s, left, x, sep, p);
    assert InteriorAt(s, NULL, p);
    hide Ord, KidAt, KeysSorted;
    i :| 0 <= i < |s.h[p].children| && s.h[p].children[i] == left;
    LeftPosition(s, left, x, sep, p, i);
    NewChild(s, left, x, sep, p);
  }

  lemma SplitSizes(s: Snap, left: NodeId, x: NodeId, sep: KeyTuple, p: NodeId, hv: Contents.Halves)
    requires Shape(s, x, NULL) && Pending(s, left, x, sep) && p in s.h && s.h[p].Interior? && s.h[left].parent == p
    requires |s.h[p].keys| == FANOUT && KeysSorted(s.h[p].keys) && |s.h[p].children| == FANOUT + 1
    requires hv == SplitInterior(s.h[p].keys, s.h[p].children, sep, x)
    ensures HalfSizes(s.h[p], x, hv)
  {
    var ks, cs := s.h[p].keys, s.h[p].children;
    var i := PlaceOfNew(s, left, x, sep, p);
    hide *;
    SplitInteriorCorrect(ks, cs, sep, x, i);
    WhereEntered(cs, i + 1, x, hv.leftKids, hv.rightKids);
  }

  lemma WhereEntered(cs: seq<NodeId>, i: nat, x: NodeId, low: seq<NodeId>, high: seq<NodeId>)
    requires i <= |cs| && x !in cs && low + high == InsertAt(cs, i, x)
    ensures x in low <==> i < |low|
  {
    var all := low + high;
    forall j | 0 <= j < |all|
      ensures all[j] == x <==> j == i
    {
      assert all[j] == if j < i then cs[j] else if j == i then x else cs[j - 1];
    }
    forall j | 0 <= j < |low|
      ensures low[j] == all[j]
    {
    }
    if i < |low| {
      assert low[i] == x;
    }
  }

  lemma KidsLower(s: Snap, left: NodeId, x: NodeId, sep: KeyTuple, p: NodeId, hv: Contents.Halves)
    requires Shape(s, x, NULL) && Pending(s, left, x, sep) && p in s.h && s.h[p].Interior? && s.h[left].parent == p
    requires |s.h[p].keys| == FANOUT && KeysSorted(s.h[p].keys) && |s.h[p].children| == FANOUT + 1
    requires hv == SplitInterior(s.h[p].keys, s.h[p].children, sep, x)
    ensures forall m <- hv.rightKids :: m in s.h && Of(s, m).ht < Of(s, p).ht
    ensures Of(s, x).ht < Of(s, p).ht && x in s.h && s.h[x].parent == NULL && left in s.h
  {
    ParentRow(s, left, x, sep, p);
    HalvesRow(s, left, x, sep, p, hv);
    hide Shape, Pending, SplitInterior;
    forall m | m in hv.rightKids
      ensures m in s.h && Of(s, m).ht < Of(s, p).ht
    {
      var j :| 0 <= j < |hv.rightKids| && hv.rightKids[j] == m;
      RightSlot(s, p, x, hv, j);
    }
  }

  // ---- the split of the border ----

  lemma LeafKeeps(s: Snap, b: NodeId, y: NodeId, low: seq<Entry>, high: seq<Entry>, s1: Snap, n: NodeId)
    requires b in s.h && s.h[b].Border? && LeafSplit(s, b, y, low, high, s1) && n in s.h && n != b
    ensures n in s1.h && Kept(s.h[n], s1.h[n])
  {
    assert n in s1.h.Keys;
  }

  lemma LeafClimbs(s: Snap, x: NodeId, b: NodeId, y: NodeId, low: seq<Entry>, high: seq<Entry>, s1: Snap, c: set<NodeId>)
    requires Shape(s, x, NULL) && x != b && b in s.h && s.h[b].Border? && LeafSplit(s, b, y, low, high, s1)
    requires forall m :: HasLink(high, m) ==> m in s.h && |Of(s, m).pfx| > |Of(s, b).pfx|
    requires x in s.h ==> HasLink(high, x) || |Of(s, x).pfx| > |Of(s, b).pfx|
    requires c == set n | n in s.h && Of(s, n).pfx == Of(s, b).pfx
    ensures ClimbsAlike(s.h, s1.h, c)
  {
    hide Shape;
    forall n | n in c
      ensures n in s1.h && s1.h[n].parent == s.h[n].parent
      ensures s.h[n].parent in s.h <==> s.h[n].parent in s1.h
      ensures s.h[n].parent in s.h ==> s1.h[s.h[n].parent].Border? == s.h[s.h[n].parent].Border?
                                       && (s.h[s.h[n].parent].Interior? ==> s.h[n].parent in c)
    {
      ParentUp(s, x, n);
      assert n in s1.h.Keys;
      assert n != b ==> s1.h[n] == Moved(s.h[n], n, y, high, s.h[b].next);
      if s.h[n].parent in s.h {
        LeafKind(s, b, y, low, high, s1, s.h[n].parent);
      }
      assert s.h[n].parent == NULL ==> s.h[n].parent !in s1.h.Keys;
    }
  }

  lemma LeafKind(s: Snap, b: NodeId, y: NodeId, low: seq<Entry>, high: seq<Entry>, s1: Snap, n: NodeId)
    requires b in s.h && s.h[b].Border? && LeafSplit(s, b, y, low, high, s1) && n in s.h
    ensures n in s1.h && s1.h[n].Border? == s.h[n].Border?
  {
    assert n in s1.h.Keys;
  }

  /** Split, placement and propagation together. */
  lemma SplitTook(s: Snap, b: NodeId, e: Entry, x: NodeId, y: NodeId, low: seq<Entry>, high: seq<Entry>, s1: Snap, h2: Heap)
    requires Shape(s, x, NULL) && x != b && Halved(s, b, e, x, low, high) && LeafSplit(s, b, y, low, high, s1)
    requires Shape(s1, y, NULL) && y in s1.h && s1.h[y].parent == NULL && Attached(s1.h, b, h2)
    ensures Took(s.h, b, e, h2)
  {
    hide Shape, Kept, Nudged, LeafSplit, Halved;
    var c := set n | n in s.h && Of(s, n).pfx == Of(s, b).pfx;
    SplitLinks(s, b, e, x, low, high);
    NoNull(s, x);
    LeafClimbs(s, x, b, y, low, high, s1, c);
    UpAlike(s.h, s1.h, c, b);
    LeafFacts(s, b, y, low, high, s1);
    NotUp(s1, y, b, b);
    NotUp(s1, y, b, y);
    assert Kept(s1.h[b], h2[b]) && Kept(s1.h[y], h2[y]);
    TookHalves(s, b, e, x, y, low, high, s1, h2);
    forall n | n in s.h && n != b
      ensures n in h2 && if Up(s.h, b, n) then Nudged(s.h[n], h2[n]) else Kept(s.h[n], h2[n])
    {
      LeafKeeps(s, b, y, low, high, s1, n);
      KeptThen(s.h[n], s1.h[n], h2[n]);
    }
  }

  lemma NoNull(s: Snap, x: NodeId)
    requires Shape(s, x, NULL)
    ensures NULL !in s.h
  {
  }

  lemma LeafFacts(s: Snap, b: NodeId, y: NodeId, low: seq<Entry>, high: seq<Entry>, s1: Snap)
    requires b in s.h && s.h[b].Border? && LeafSplit(s, b, y, low, high, s1)
    ensures b in s1.h && y in s1.h && y !in s.h && Of(s1, y).pfx == Of(s1, b).pfx && Of(s1, y).ht == Of(s1, b).ht
    ensures s1.h[b].Border? && s1.h[y].Border? && s1.h[b].next == y && s1.h[y].next == s.h[b].next
    ensures s1.h[b].entries == low && s1.h[y].entries == high
    ensures s1.h[b].ver.vins == s.h[b].ver.vins + 1 && s1.h[b].ver.vsplit == s.h[b].ver.vsplit + 1
    ensures SameCounts(s1.h[b].ver, s1.h[y].ver) && s1.h[b].ver.deleted == s.h[b].ver.deleted
  {
  }

  lemma SplitLinks(s: Snap, b: NodeId, e: Entry, x: NodeId, low: seq<Entry>, high: seq<Entry>)
    requires Halved(s, b, e, x, low, high)
    ensures b in s.h && s.h[b].Border?
    ensures forall m :: HasLink(high, m) ==> m in s.h && |Of(s, m).pfx| > |Of(s, b).pfx|
    ensures x in s.h && x != NULL ==> |Of(s, x).pfx| > |Of(s, b).pfx|
    ensures Halves(s.h[b].entries, e, low, high)
  {
    HalvesGood(s, b, e, x, low, high);
    forall m
      ensures HasLink(high, m) || HasLink(low, m) ==> m in s.h && |Of(s, m).pfx| > |Of(s, b).pfx|
    {
      MovedLinks(s, b, x, low, high, m);
    }
  }

  lemma TookHalves(s: Snap, b: NodeId, e: Entry, x: NodeId, y: NodeId, low: seq<Entry>, high: seq<Entry>, s1: Snap, h2: Heap)
    requires b in s.h && s.h[b].Border? && Halves(s.h[b].entries, e, low, high) && LeafSplit(s, b, y, low, high, s1)
    requires b in h2 && y in h2 && b in s1.h && y in s1.h && Kept(s1.h[b], h2[b]) && Kept(s1.h[y], h2[y])
    ensures h2[b].Border? && h2[b].next == y && h2[y].Border? && h2[y].next == s.h[b].next && y !in s.h
    ensures Halves(s.h[b].entries, e, h2[b].entries, h2[y].entries)
    ensures h2[b].ver.vins == s.h[b].ver.vins + 1 && h2[b].ver.vsplit == s.h[b].ver.vsplit + 1
    ensures SameCounts(h2[b].ver, h2[y].ver) && h2[b].ver.deleted == s.h[b].ver.deleted
    ensures Lookup(s.h[b].entries, e.key) == |s.h[b].entries| == FANOUT
  {
  }

  // ---- what is kept ----

  /** An update moves no version. */
  lemma UpdatesKeeps(s: Snap, k: Key, v: Val, s': Snap)
    requires Updates(s, k, v, s')
    ensures s'.h.Keys == s.h.Keys && s'.root == s.root && forall n <- s.h :: n in s'.h && s'.h[n].ver == s.h[n].ver
  {
  }

  /** A removal that retires no node moves no version, unless it emptied the tree. */
  lemma LeavesKeeps(s: Snap, k: Key, s': Snap, retired: seq<NodeId>, retired': seq<NodeId>)
    requires Leaves(s, k, s', retired, retired') && retired' == retired
    ensures s'.h.Keys == s.h.Keys && s'.root == s.root
    ensures (forall n <- s.h :: n in s'.h && s'.h[n].ver == s.h[n].ver)
            || (s'.root in s'.h && s'.h[s'.root].Border? && s'.h[s'.root].entries == [])
  {
    var n, rest, b, i :| LeavesAt(s, k, s', retired, retired', n, rest, b, i);
  }

  // ---- from one step to the operation ----

  lemma GaveUpTop(s: Snap, b: NodeId, i: nat, s': Snap, retired: seq<NodeId>)
    requires b in s.h && s.h[b].Border? && i < |s.h[b].entries| && |s.h[b].entries| == 1 && s.h[b].parent == NULL
    requires b == s.root && Emptied(s, s')
    ensures GaveUp(s, b, i, s', retired, retired)
  {
  }

  /** The emptied border is out of the tree and out of its parent: what is left to account for. */
  lemma BorderGone(s: Snap, b: NodeId, i: nat, s1: Snap, s2: Snap, graves: Heap, g1: Heap, g2: Heap,
                   retired: seq<NodeId>, retired': seq<NodeId>, held: set<NodeId>, next: NodeId)
    requires b in s.h && s.h[b].Border? && i < |s.h[b].entries| == 1 && s.h[b].parent != NULL
    requires Without(s, b, i, s1) && forall k, v :: Stored(s2, k, v) <==> Stored(s1, k, v)
    requires Shrinks(s, s1) && Shrinks(s1, s2) && CountsKept(s.h, s1.h, b) && GravesKept(s1.h, s2.h, g1, g2)
    requires Counted(s2.h, retired', held + {b}, next) && b !in held && GravesFit(retired', g2) && retired <= retired'
    requires b in g1 && g1 == graves[b := g1[b]] && g1[b].ver.deleted && !g1[b].ver.root && CountsOn(s.h[b], g1[b])
    ensures Without(s, b, i, s2) && Shrinks(s, s2) && GaveUp(s, b, i, s2, retired, retired' + [b])
    ensures Counted(s2.h, retired' + [b], held, next) && GravesFit(retired' + [b], g2) && GravesKept(s.h, s2.h, graves, g2)
  {
    hide Without, Shrinks, CountsKept, GravesKept, Stored, GravesFit;
    assert b !in s2.h;
    hide Counted;
    WithoutThen(s, b, i, s1, s2);
    ShrinksThen(s, s1, s2);
    CountPush(s2.h, retired', held, next, b);
    GravesPush(s.h, s1.h, s2.h, b, graves, g1, g2, retired');
  }

  lemma AdmitsNow(s: Snap, k: Key, v: Val, h': Heap, n: NodeId, rest: Key, b: NodeId, e: Entry)
    requires b in s.h && s.h[b].Border? && Located(s, k, n, rest, b, |s.h[b].entries|)
    requires NewEntry(s.h, rest, v, e) && Took(s.h, b, e, h')
    ensures Admits(s, k, v, h')
  {
    assert AdmitsAt(s, k, v, h', n, rest, b);
  }

  lemma UpdatesNow(s: Snap, k: Key, v: Val, s': Snap, n: NodeId, rest: Key, b: NodeId, i: nat)
    requires b in s.h && s.h[b].Border? && i < |s.h[b].entries| && Located(s, k, n, rest, b, i)
    requires Overwritten(s, b, i, v, s')
    ensures Updates(s, k, v, s')
  {
    assert UpdatesAt(s, k, v, s', n, rest, b, i);
  }

  lemma LeavesNow(s: Snap, k: Key, s': Snap, retired: seq<NodeId>, retired': seq<NodeId>, n: NodeId, rest: Key, b: NodeId, i: nat)
    requires b in s.h && s.h[b].Border? && i < |s.h[b].entries| && Located(s, k, n, rest, b, i)
    requires GaveUp(s, b, i, s', retired, retired')
    ensures Leaves(s, k, s', retired, retired')
  {
    assert LeavesAt(s, k, s', retired, retired', n, rest, b, i);
  }

  lemma InsertTook(s: Snap, b: NodeId, e: Entry, x: NodeId, s': Snap)
    requires Fits(s, b, e, x) && |s.h[b].entries| < FANOUT && Inserted(s, b, e, s')
    ensures Took(s.h, b, e, s'.h)
  {
  }

  /** New nodes made before the entry was taken do not matter. */
  lemma TookLater(s: Snap, h1: Heap, b: NodeId, e: Entry, h2: Heap)
    requires Shape(s, NULL, NULL) && b in s.h
    requires NULL !in h1 && forall n <- s.h :: n in h1 && h1[n] == s.h[n]
    requires Took(h1, b, e, h2)
    ensures Took(s.h, b, e, h2)
  {
    hide Shape, Kept, Nudged, Halves;
    var c := s.h.Keys;
    assert ClimbsAlike(s.h, h1, c) by {
      forall n | n in c
        ensures h1[n].parent == s.h[n].parent && (s.h[n].parent in s.h <==> s.h[n].parent in h1)
      {
        ParentUp(s, NULL, n);
      }
    }
    UpAlike(s.h, h1, c, b);
  }
}
