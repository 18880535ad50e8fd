/** What the methods of the tree need between their steps: the accounting of nodes and values, where a
    key is found, and the effect of each step on shape, meaning and counters together. */
module TreeFacts {
  import opened Wrappers
  import opened Keys
  import opened Contents
  import opened Store
  import opened Routing
  import opened Widen
  import opened InsertStep
  import opened SplitStep
  import opened AttachStep
  import opened InnerSplitStep
  import opened RemoveStep
  import opened InnerRemoveStep
  import opened PlantStep
  import opened Meaning
  import opened Track

  datatype Status = OK | OK_NOT_FOUND | OK_ROOT_IS_NULL | WARN_NOT_EXIST | WARN_UNIQUE_RESTRICTION | ERR_BAD_USAGE

  predicate Distinct<T(==)>(s: seq<T>) {
    forall i, j :: 0 <= i < j < |s| ==> s[i] != s[j]
  }

  /** Every node identity handed out so far is in the tree, retired, or held by a running removal or
      creation; exactly one of them, and retired at most once. */
  ghost predicate Counted(h: Heap, retired: seq<NodeId>, held: set<NodeId>, next: NodeId) {
    && 0 < next
    && (forall n :: 0 < n < next <==> n in h || n in retired || n in held)
    && (forall n <- h :: n !in retired && n !in held)
    && (forall n <- held :: n !in retired)
    && Distinct(retired)
  }

  /** Every allocated value is stored under exactly one key, or released exactly once. */
  ghost predicate ValuesCounted(m: Content, released: seq<nat>, next: nat) {
    && (forall k, i: nat :: Owns(m, k, i) ==> i < next && i !in released)
    && (forall k, l, i: nat :: Owns(m, k, i) && Owns(m, l, i) ==> k == l)
    && (forall i <- released :: i < next)
    && Distinct(released)
    && (forall i: nat :: i < next && i !in released ==> exists k :: Owns(m, k, i))
  }

  predicate Owns(m: Content, k: Key, i: nat) {
    k in m && m[k].Boxed? && m[k].id == i
  }

  /** The identity of the allocated value under `k`, if there is one. */
  function Displaced(m: Content, k: Key): seq<nat> {
    if k in m && m[k].Boxed? then [m[k].id] else []
  }

  /** What a fresh value adds to the identities handed out. */
  predicate FreshVal(v: Val, next: nat, next': nat) {
    if v.Boxed? then v.id == next && next' == next + 1 else next' == next
  }

  /** Retired nodes carry the deleted mark and no root flag. */
  predicate GravesFit(retired: seq<NodeId>, graves: Heap) {
    forall n <- retired :: n in graves && graves[n].ver.deleted && !graves[n].ver.root
  }

  /** The record of a node that had left the tree before stays as it was, and a node that leaves keeps
      its counts. */
  predicate GravesKept(h: Heap, h': Heap, graves: Heap, graves': Heap) {
    && (forall n <- graves :: n !in h ==> n in graves' && graves'[n] == graves[n])
    && (forall n <- h :: n !in h' ==> n in graves' && CountsOn(h[n], graves'[n]))
  }

  /** The counts of a border are final once it has left; an interior node may have counted on. */
  predicate CountsOn(n: Node, n': Node) {
    NotLess(n.ver, n'.ver) && n'.Border? == n.Border?
    && (n.Border? ==> n'.ver.vins == n.ver.vins && n'.ver.vsplit == n.ver.vsplit)
  }

  predicate NotLess(v: Version, w: Version) {
    v.vins <= w.vins && v.vsplit <= w.vsplit
  }

  /** What is left of a node that was unlinked: an emptied border, or an interior node whose one
      separator is gone. */
  function Grave(n: Node): Node {
    match n
    case Border(p, ver, _, prev, next) => Border(p, ver.(deleted := true, root := false), [], prev, next)
    case Interior(p, ver, _, cs) => Interior(p, ver.(vins := ver.vins + 1, deleted := true, root := false), [], cs)
  }

  /** Only `b` left, and no other node lost a count. */
  predicate CountsKept(h: Heap, h1: Heap, b: NodeId) {
    h1.Keys == h.Keys - {b} && forall n <- h1 :: n in h && CountsOn(h[n], h1[n])
  }

  lemma CountsStay(s: Snap, p: NodeId, sib: NodeId, s': Snap)
    requires p in s.h && Collapsed(s, p, sib, s')
    ensures CountsKept(s.h, s'.h, p)
  {
  }

  lemma GravesPush(h: Heap, h1: Heap, h': Heap, b: NodeId, graves: Heap, g1: Heap, graves': Heap, retired: seq<NodeId>)
    requires GravesFit(retired, graves') && b in h && b in g1 && g1 == graves[b := g1[b]]
    requires CountsKept(h, h1, b) && GravesKept(h1, h', g1, graves')
    requires g1[b].ver.deleted && !g1[b].ver.root && CountsOn(h[b], g1[b])
    ensures GravesFit(retired + [b], graves') && GravesKept(h, h', graves, graves')
  {
    forall n | n in graves && n !in h
      ensures n in graves' && graves'[n] == graves[n]
    {
      assert n in g1 && n !in h1.Keys;
    }
    forall n | n in h && n !in h'
      ensures n in graves' && CountsOn(h[n], graves'[n])
    {
      assert n != b ==> n in h1.Keys;
    }
  }

  lemma GravesAdd(retired: seq<NodeId>, graves: Heap, b: NodeId, graves': Heap)
    requires GravesFit(retired, graves) && b in graves' && graves' == graves[b := graves'[b]]
    requires graves'[b].ver.deleted && !graves'[b].ver.root
    ensures GravesFit(retired, graves')
  {
  }

  lemma GravesSame(h: Heap, h': Heap, graves: Heap)
    requires h.Keys <= h'.Keys
    ensures GravesKept(h, h', graves, graves)
  {
  }

  lemma DistinctMore(m: Content, k: Key, released: seq<nat>)
    requires Distinct(released) && forall i :: Owns(m, k, i) ==> i !in released
    ensures Distinct(released + Displaced(m, k))
  {
    assert k in m && m[k].Boxed? ==> Owns(m, k, m[k].id);
    assert k in m && m[k].Boxed? ==> forall j :: 0 <= j < |released| ==> released[j] in released;
  }

  lemma ValueStored(m: Content, k: Key, v: Val, released: seq<nat>, next: nat, next': nat)
    requires ValuesCounted(m, released, next) && FreshVal(v, next, next')
    ensures ValuesCounted(m[k := v], released + Displaced(m, k), next')
  {
    var m', r' := m[k := v], released + Displaced(m, k);
    DistinctMore(m, k, released);
    forall i ensures i in r' <==> i in released || Owns(m, k, i) {}
    forall l, i ensures Owns(m', l, i) <==> if l == k then v.Boxed? && v.id == i else Owns(m, l, i) {}
    forall i | 0 <= i < next' && i !in r'
      ensures exists l :: Owns(m', l, i)
    {
      if i < next {
        var l :| Owns(m, l, i);
        assert Owns(m', l, i);
      } else {
        assert Owns(m', k, i);
      }
    }
  }

  lemma ValueDropped(m: Content, k: Key, released: seq<nat>, next: nat)
    requires ValuesCounted(m, released, next)
    ensures ValuesCounted(m - {k}, released + Displaced(m, k), next)
  {
    var m', r' := m - {k}, released + Displaced(m, k);
    DistinctMore(m, k, released);
    forall i ensures i in r' <==> i in released || Owns(m, k, i) {}
    forall l, i ensures Owns(m', l, i) <==> l != k && Owns(m, l, i) {}
    forall i | 0 <= i < next && i !in r'
      ensures exists l :: Owns(m', l, i)
    {
      var l :| Owns(m, l, i);
      assert Owns(m', l, i);
    }
  }

  lemma CountPush(h: Heap, retired: seq<NodeId>, held: set<NodeId>, next: NodeId, n: NodeId)
    requires Counted(h, retired, held + {n}, next) && n !in held
    ensures Counted(h, retired + [n], held, next)
  {
    forall m ensures m in retired + [n] <==> m in retired || m == n {}
  }

  lemma CountNew(h: Heap, retired: seq<NodeId>, held: set<NodeId>, next: NodeId)
    requires Counted(h, retired, held, next)
    ensures Counted(h, retired, held + {next}, next + 1)
    ensures next !in h && next !in held
  {
  }

  /** An identity that was handed out and is held is not in the tree. */
  lemma NotYetPlaced(s: Snap, x: NodeId, retired: seq<NodeId>, held: set<NodeId>, next: NodeId, r: NodeId)
    requires Shape(s, x, NULL) && Counted(s.h, retired, held + {r}, next)
    ensures r != NULL && r !in s.h && r != s.root && s.sh.Keys == s.h.Keys
  {
    assert r in held + {r};
  }

  lemma CountPlace(h: Heap, h': Heap, retired: seq<NodeId>, held: set<NodeId>, next: NodeId, n: NodeId)
    requires Counted(h, retired, held + {n}, next) && n !in held && h'.Keys == h.Keys + {n}
    ensures Counted(h', retired, held, next)
  {
    assert n in held + {n};
    forall m ensures m in h' <==> m in h || m == n {}
  }

  lemma CountTake(h: Heap, h': Heap, retired: seq<NodeId>, held: set<NodeId>, next: NodeId, n: NodeId)
    requires Counted(h, retired, held, next) && n in h && h'.Keys == h.Keys - {n}
    ensures Counted(h', retired, held + {n}, next) && n !in held
  {
    forall m ensures m in h' <==> m in h && m != n {}
  }

  lemma CountSame(h: Heap, h': Heap, retired: seq<NodeId>, held: set<NodeId>, next: NodeId)
    requires Counted(h, retired, held, next) && h'.Keys == h.Keys
    ensures Counted(h', retired, held, next)
  {
    forall m ensures m in h' <==> m in h {}
  }

  function IndexOfLink(es: seq<Entry>, n: NodeId): (i: nat)
    requires HasLink(es, n)
    ensures i < |es| && es[i].payload == Link(n)
  {
    if es[0].payload == Link(n) then 0
    else
      assert HasLink(es[1..], n) by {
        var j :| 0 <= j < |es| && es[j].payload == Link(n);
        assert es[1..][j - 1] == es[j];
      }
      1 + IndexOfLink(es[1..], n)
  }

  function IndexOf(cs: seq<NodeId>, n: NodeId): (i: nat)
    requires n in cs
    ensures i < |cs| && cs[i] == n
  {
    if cs[0] == n then 0 else 1 + IndexOf(cs[1..], n)
  }

  lemma LeftParent(s: Snap, left: NodeId, x: NodeId, sep: KeyTuple)
    requires Shape(s, x, NULL) && Pending(s, left, x, sep)
    ensures left in s.h && x in s.h && left != x && s.sh.Keys == s.h.Keys && NULL !in s.h
    ensures var p := s.h[left].parent;
            && (p != NULL ==> p in s.h && IsChild(s.h[p], left))
            && p != left && p != x
  {
    var p := s.h[left].parent;
    assert ParentAt(s, left);
    if p != NULL {
      ChildBelow(s, NULL, p, left);
    }
  }

  lemma ParentRow(s: Snap, left: NodeId, x: NodeId, sep: KeyTuple, p: NodeId)
    requires Shape(s, x, NULL) && Pending(s, left, x, sep) && p in s.h && s.h[p].Interior? && s.h[left].parent == p
    ensures left in s.h[p].children && p != x && p != left && Of(s, left).ht < Of(s, p).ht
    ensures |s.h[p].keys| <= FANOUT && |s.h[p].children| == |s.h[p].keys| + 1 && KeysSorted(s.h[p].keys)
    ensures x in s.h && s.sh.Keys == s.h.Keys && NULL !in s.h && !s.h[p].ver.deleted && Canonical(sep)
  {
    assert ParentAt(s, left) && InteriorAt(s, NULL, p);
    NotSelf(s, p, left, x, sep);
  }

  lemma FullRow(s: Snap, left: NodeId, x: NodeId, sep: KeyTuple, p: NodeId)
    requires Shape(s, x, NULL) && Pending(s, left, x, sep) && p in s.h && s.h[p].Interior? && s.h[left].parent == p
    requires |s.h[p].keys| == FANOUT
    ensures KeysSorted(s.h[p].keys) && |s.h[p].children| == FANOUT + 1 && Canonical(sep)
  {
    assert InteriorAt(s, NULL, p) by { ParentRow(s, left, x, sep, p); }
  }

  lemma RowReady(s: Snap, left: NodeId, x: NodeId, sep: KeyTuple, p: NodeId, hv: Halves)
    requires Shape(s, x, NULL) && Pending(s, left, x, sep) && p in s.h && s.h[p].Interior? && s.h[left].parent == p
    requires |s.h[p].keys| == FANOUT && KeysSorted(s.h[p].keys) && |s.h[p].children| == FANOUT + 1
    requires hv == SplitInterior(s.h[p].keys, s.h[p].children, sep, x)
    ensures x in s.h && p != x && s.sh.Keys == s.h.Keys && !s.h[p].ver.deleted
    ensures forall m <- hv.rightKids :: m in s.h && m != p
  {
    ParentRow(s, left, x, sep, p);
    HalvesRow(s, left, x, sep, p, hv);
    forall m | m in hv.rightKids
      ensures m in s.h && m != p
    {
      RightKid(s, p, x, hv, m);
    }
  }

  lemma RowDone(s: Snap, left: NodeId, x: NodeId, sep: KeyTuple, p: NodeId, y: NodeId, hv: Halves, s': Snap)
    requires Shape(s, x, NULL) && Pending(s, left, x, sep) && p in s.h && s.h[p].Interior? && s.h[left].parent == p
    requires |s.h[p].keys| == FANOUT && KeysSorted(s.h[p].keys) && |s.h[p].children| == FANOUT + 1
    requires hv == SplitInterior(s.h[p].keys, s.h[p].children, sep, x) && x in s.h && InnerSplit(s, p, x, y, hv, s')
    ensures Shape(s', y, NULL) && Pending(s', p, y, hv.pivot)
    ensures forall b: nat :: Below(s, b) ==> Below(s', b)
    ensures forall k, w :: Stored(s', k, w) <==> Stored(s, k, w)
    ensures Swells(s, s')
  {
    hide Shape, Pending, Stored;
    InnerSplitTracks(s, p, x, y, hv, s');
    InnerSplitKeepsShape(s, left, x, sep, p, y, hv, s');
    InnerSplitMeaning(s, p, x, y, hv, s');
    SameStored(s, s');
  }

  /** Where key `k` is, or would be: entry `i` of border `b`, in the layer with root `n`. */
  ghost predicate Located(s: Snap, k: Key, n: NodeId, rest: Key, b: NodeId, i: nat) {
    && LayerRoot(s, n) && Of(s, n).pfx + rest == k && (Of(s, n).pfx != [] ==> rest != [])
    && b in s.h && s.h[b].Border? && Of(s, b).pfx == Of(s, n).pfx
    && b == Route(s, n, Ord(TupleOf(rest)))
    && i == Lookup(s.h[b].entries, TupleOf(rest))
    && (i < |s.h[b].entries| ==> |rest| <= SLICE)
  }

  /** A key of one slice belongs in the top layer. */
  lemma LocatedTop(s: Snap, k: Key, n: NodeId, rest: Key, b: NodeId, i: nat)
    requires Treelike(s) && s.root != NULL && Located(s, k, n, rest, b, i)
    ensures |k| <= SLICE ==> rest == k && n == s.root && b == Route(s, s.root, Ord(TupleOf(k)))
  {
    assert |Of(s, n).pfx| % SLICE == 0;
    if |k| <= SLICE {
      assert Of(s, n).pfx == [];
      var bound := Bound(s);
      TopRoot(s);
      RootUnique(s, bound, n, s.root);
    }
  }

  lemma TopRoot(s: Snap)
    requires Treelike(s) && s.root != NULL
    ensures LayerRoot(s, s.root) && Of(s, s.root).pfx == []
  {
    assert ParentAt(s, s.root);
  }

  /** The root flag is set exactly on the roots of layers. */
  lemma RootFlag(s: Snap, n: NodeId)
    requires Treelike(s) && n in s.h
    ensures s.h[n].ver.root <==> LayerRoot(s, n)
  {
    assert ParentAt(s, n);
    if n != s.root {
      var p := s.h[n].parent;
      if s.h[p].Interior? {
        assert InteriorAt(s, NULL, p);
        var i :| 0 <= i < |s.h[p].children| && s.h[p].children[i] == n;
        assert KidAt(s, p, i, n);
      } else {
        assert BorderAt(s, NULL, p);
        var i :| 0 <= i < |s.h[p].entries| && s.h[p].entries[i].payload == Link(n);
        assert EntryAt(s, NULL, p, s.h[p].entries[i]);
      }
    }
  }

  lemma ShapeTree(s: Snap)
    requires Shape(s, NULL, NULL)
    ensures Treelike(s)
  {
  }

  lemma NowReady(s: Snap, s': Snap, k: Key, n: NodeId, rest: Key, b: NodeId, i: nat)
    requires Shape(s, NULL, NULL) && Located(s, k, n, rest, b, i) && i == |s.h[b].entries|
    requires Widened(s, s') && InRange(s', b, Ord(TupleOf(rest)))
    ensures Ready(s', b, rest) && Of(s', b).pfx + rest == k
  {
    if |rest| > SLICE {
      var bound := Bound(s);
      forall m | m in s'.h
        ensures !(Of(s', b).pfx + TupleOf(rest).slice <= Of(s', m).pfx)
      {
        if Of(s, n).pfx + TupleOf(rest).slice <= Of(s, m).pfx {
          LayerFound(s, bound, n, rest, m);
        }
      }
    }
  }

  /** The entry found for `k` is a value entry. */
  lemma EntrySound(s: Snap, k: Key, n: NodeId, rest: Key, b: NodeId, i: nat)
    requires Treelike(s) && Located(s, k, n, rest, b, i) && i < |s.h[b].entries|
    ensures s.h[b].entries[i].payload.Value? && Sorted(s.h[b].entries) && ShortValues(s.h[b].entries)
    ensures Of(s, b).pfx + TupleBytes(s.h[b].entries[i].key) == k
    ensures Stored(s, k, s.h[b].entries[i].payload.val)
  {
    hide Treelike;
    var e := s.h[b].entries[i];
    BorderSound(s, b, i);
    TupleRoundTrip(rest);
    assert EntryHolds(Of(s, b).pfx, e, k, e.payload.val);
    assert NodeHolds(s, b, k, e.payload.val);
  }

  lemma BorderSound(s: Snap, b: NodeId, i: nat)
    requires Treelike(s) && b in s.h && s.h[b].Border? && i < |s.h[b].entries|
    ensures Sorted(s.h[b].entries) && ShortValues(s.h[b].entries)
    ensures s.h[b].entries[i].payload.Value? <==> s.h[b].entries[i].key.len <= SLICE
  {
    assert BorderAt(s, NULL, b);
    EntryFacts(s, NULL, b, i);
    BorderShort(s, NULL, b);
  }

  /** No other border holds `k`. */
  lemma EntryAlone(s: Snap, k: Key, n: NodeId, rest: Key, b: NodeId, i: nat)
    requires Treelike(s) && Located(s, k, n, rest, b, i) && i < |s.h[b].entries|
    ensures SoleHolder(s, b, i)
  {
    hide Treelike, NodeHolds;
    EntrySound(s, k, n, rest, b, i);
    forall c, v | NodeHolds(s, c, k, v)
      ensures c == b
    {
      assert Stored(s, k, v);
      Hit(s, n, rest, v);
    }
  }

  // ---- removal, one step at a time ----

  /** The top root border has no neighbours. */
  ghost predicate TopAlone(s: Snap) {
    s.root in s.h && s.h[s.root].Border? ==> s.h[s.root].prev == NULL && s.h[s.root].next == NULL
  }

  lemma OnlyBorder(s: Snap, c: NodeId)
    requires Treelike(s) && s.root in s.h && s.h[s.root].Border? && c in s.h && s.h[c].Border?
    requires Of(s, c).pfx == Of(s, s.root).pfx
    ensures c == s.root
  {
    var bound := Bound(s);
    var o := Of(s, c).lo;
    var r := RootOf(s, bound, c, o);
    RootUnique(s, bound, r, s.root);
  }

  lemma TopIsAlone(s: Snap)
    requires Shape(s, NULL, NULL)
    ensures TopAlone(s)
  {
    if s.root in s.h && s.h[s.root].Border? {
      assert ChainAt(s, s.root);
      var p, q := s.h[s.root].prev, s.h[s.root].next;
      if q != NULL {
        OnlyBorder(s, q);
      }
      if p != NULL {
        assert ChainAt(s, p);
        OnlyBorder(s, p);
      }
    }
  }

  lemma EntryGoes(s: Snap, k: Key, n: NodeId, rest: Key, b: NodeId, i: nat)
    requires Shape(s, NULL, NULL) && Located(s, k, n, rest, b, i) && i < |s.h[b].entries|
    ensures Removable(s, b, i, NULL) && SoleHolder(s, b, i) && TopAlone(s)
    ensures s.h[b].entries[i].payload.Value? && Of(s, b).pfx + TupleBytes(s.h[b].entries[i].key) == k
  {
    hide Shape, SoleHolder, TopAlone;
    ShapeTree(s);
    EntrySound(s, k, n, rest, b, i);
    EntryAlone(s, k, n, rest, b, i);
    TopIsAlone(s);
  }

  lemma ContentLost(s: Snap, s': Snap, m: Content, k: Key, b: NodeId, i: nat)
    requires b in s.h && s.h[b].Border? && i < |s.h[b].entries| && Without(s, b, i, s') && Agrees(s, m)
    requires s.h[b].entries[i].payload.Value? && Of(s, b).pfx + TupleBytes(s.h[b].entries[i].key) == k
    ensures Agrees(s', m - {k})
  {
    hide Stored;
  }

  lemma TakeDone(s: Snap, b: NodeId, i: nat, d: NodeId, s': Snap)
    requires Shape(s, NULL, d) && Removable(s, b, i, d) && SoleHolder(s, b, i) && |s.h[b].entries| > 1
    requires Taken(s, b, i, s')
    ensures Shape(s', NULL, NULL) && Without(s, b, i, s') && Shrinks(s, s')
  {
    TakeKeepsShape(s, b, i, d, s');
    hide SoleHolder, Without;
    assert BorderAt(s, d, b);
    BorderShort(s, d, b);
    TakeMeaning(s, b, i, s');
    TakeTracks(s, b, i, s');
  }

  lemma ChainFacts(s: Snap, d: NodeId, b: NodeId)
    requires Shape(s, NULL, d) && b in s.h && s.h[b].Border?
    ensures NULL !in s.h && s.h[b].prev != b && s.h[b].next != b && b != NULL
    ensures s.h[b].prev != NULL ==> s.h[b].prev in s.h && s.h[s.h[b].prev].Border?
    ensures s.h[b].next != NULL ==> s.h[b].next in s.h && s.h[s.h[b].next].Border?
    ensures s.sh.Keys == s.h.Keys
    ensures (s.h[b].parent == NULL <==> b == s.root) && ChainAt(s, b)
  {
    assert ChainAt(s, b) && ParentAt(s, b);
    if s.h[b].prev != NULL {
      assert ChainAt(s, s.h[b].prev);
    }
  }

  lemma EmptyDone(s: Snap, b: NodeId, i: nat, d: NodeId, h1: Heap, s': Snap)
    requires Shape(s, NULL, d) && Removable(s, b, i, d) && SoleHolder(s, b, i) && |s.h[b].entries| == 1
    requires s.h[b].parent == NULL && TopAlone(s)
    requires h1.Keys == s.h.Keys && h1[b] == s.h[b]
    requires forall m <- h1 :: m != b ==> h1[m] == Unlinked(s.h[m], m, s.h[b].prev, s.h[b].next)
    requires s' == s.(h := h1[b := h1[b].(entries := [], ver := h1[b].ver.(deleted := true))])
    ensures Shape(s', NULL, NULL) && Without(s, b, i, s') && Shrinks(s, s')
    ensures b == s.root && Emptied(s, s')
  {
    hide Shape, SoleHolder, Without;
    ChainFacts(s, d, b);
    forall m | m in h1
      ensures h1[m] == s.h[m]
    {
    }
    assert h1 == s.h;
    EmptyDone2(s, d, s');
  }

  lemma EmptyDone2(s: Snap, d: NodeId, s': Snap)
    requires Shape(s, NULL, d) && Removable(s, s.root, 0, d) && SoleHolder(s, s.root, 0) && |s.h[s.root].entries| == 1
    requires Emptied(s, s')
    ensures Shape(s', NULL, NULL) && Without(s, s.root, 0, s') && Shrinks(s, s')
  {
    EmptyKeepsShape(s, d, s');
    hide SoleHolder, Without;
    assert BorderAt(s, d, s.root);
    BorderShort(s, d, s.root);
    EmptyMeaning(s, s');
    EmptyTracks(s, s');
  }

  lemma BuryDone(s: Snap, b: NodeId, i: nat, d: NodeId, h1: Heap, s': Snap)
    requires Shape(s, NULL, d) && Removable(s, b, i, d) && SoleHolder(s, b, i) && |s.h[b].entries| == 1
    requires s.h[b].parent != NULL && TopAlone(s)
    requires h1.Keys == s.h.Keys && h1[b] == s.h[b]
    requires forall m <- h1 :: m != b ==> h1[m] == Unlinked(s.h[m], m, s.h[b].prev, s.h[b].next)
    requires s'.h == h1 - {b} && s'.sh == s.sh - {b} && s'.root == s.root
    ensures Shape(s', NULL, b) && Without(s, b, i, s') && Shrinks(s, s') && TopAlone(s')
    ensures Orphaned(s', b, s.h[b].parent) && b in s.h && s'.h.Keys == s.h.Keys - {b}
    ensures var p := s.h[b].parent;
            p in s'.h && (s'.h[p].Border? ==> HasLink(s'.h[p].entries, b) && |Of(s', p).pfx| < |Of(s, b).pfx|)
    ensures CountsKept(s.h, s'.h, b)
  {
    hide Shape, Without, SoleHolder, TopAlone, Orphaned, Buried;
    ChainFacts(s, d, b);
    UnlinkedBuried(s, b, h1, s');
    BuryDone2(s, b, d, s');
    BuryTop(s, b, d, s');
    BuryUp(s, b, d, s');
  }

  lemma BuryDone2(s: Snap, b: NodeId, d: NodeId, s': Snap)
    requires Shape(s, NULL, d) && Removable(s, b, 0, d) && SoleHolder(s, b, 0) && |s.h[b].entries| == 1
    requires b != s.root && Buried(s, b, s')
    ensures Shape(s', NULL, b) && Without(s, b, 0, s') && Shrinks(s, s') && Orphaned(s', b, s.h[b].parent)
  {
    BuryKeepsShape(s, b, d, s');
    hide SoleHolder, Without, Buried;
    assert BorderAt(s, d, b);
    BorderShort(s, d, b);
    BuryMeaning(s, b, s');
    BuryTracks(s, b, s');
  }

  lemma BuryTop(s: Snap, b: NodeId, d: NodeId, s': Snap)
    requires NULL !in s.h && TopAlone(s) && b in s.h && s.h[b].Border? && ChainAt(s, b) && Buried(s, b, s')
    requires b != s.root
    ensures TopAlone(s')
  {
    if s.root in s.h && s.h[s.root].Border? {
      assert s.root != s.h[b].prev && s.root != s.h[b].next;
    }
  }

  lemma UnlinkedBuried(s: Snap, b: NodeId, h1: Heap, s': Snap)
    requires b in s.h && s.h[b].Border? && s.sh.Keys == s.h.Keys && h1.Keys == s.h.Keys && NULL !in s.h
    requires forall m <- h1 :: m != b ==> h1[m] == Unlinked(s.h[m], m, s.h[b].prev, s.h[b].next)
    requires s'.h == h1 - {b} && s'.sh == s.sh - {b} && s'.root == s.root
    ensures Buried(s, b, s')
  {
    hide Unlinked;
  }

  lemma BuryUp(s: Snap, b: NodeId, d: NodeId, s': Snap)
    requires Shape(s, NULL, d) && Removable(s, b, 0, d) && b != s.root && Buried(s, b, s')
    requires Orphaned(s', b, s.h[b].parent)
    ensures var p := s.h[b].parent;
            p in s'.h && (s'.h[p].Border? ==> HasLink(s'.h[p].entries, b) && |Of(s', p).pfx| < |Of(s, b).pfx|)
  {
    hide Unlinked;
    BuryDeeper(s, b, d);
    UnlinkedSame(s.h[s.h[b].parent], s.h[b].parent, s.h[b].prev, s.h[b].next, b);
  }

  lemma BuryDeeper(s: Snap, b: NodeId, d: NodeId)
    requires Shape(s, NULL, d) && Removable(s, b, 0, d) && b != s.root
    ensures var p := s.h[b].parent;
            p in s.h && (s.h[p].Border? ==> |Of(s, p).pfx| < |Of(s, b).pfx|)
  {
    var p := s.h[b].parent;
    assert ParentAt(s, b);
    if s.h[p].Border? {
      assert BorderAt(s, d, p);
      var i :| 0 <= i < |s.h[p].entries| && s.h[p].entries[i].payload == Link(b);
      assert EntryAt(s, d, p, s.h[p].entries[i]);
    }
  }

  /** The link to the buried layer root may go. */
  lemma LinkGoes(s: Snap, p: NodeId, j: nat, b: NodeId)
    requires Orphaned(s, b, p) && s.h[p].Border? && j < |s.h[p].entries| && s.h[p].entries[j].payload == Link(b)
    ensures Removable(s, p, j, b) && SoleHolder(s, p, j)
  {
  }

  lemma LinkGone(s: Snap, p: NodeId, j: nat, s': Snap)
    requires p in s.h && s.h[p].Border? && j < |s.h[p].entries| && s.h[p].entries[j].payload.Link?
    requires Without(s, p, j, s')
    ensures forall k, v :: Stored(s', k, v) <==> Stored(s, k, v)
  {
  }

  lemma WithoutThen(s: Snap, b: NodeId, i: nat, s1: Snap, s2: Snap)
    requires b in s.h && s.h[b].Border? && i < |s.h[b].entries| && Without(s, b, i, s1)
    requires forall k, v :: Stored(s2, k, v) <==> Stored(s1, k, v)
    ensures Without(s, b, i, s2)
  {
  }

  lemma RowFacts(s: Snap, d: NodeId, p: NodeId)
    requires Shape(s, NULL, d) && Orphaned(s, d, p) && s.h[p].Interior?
    ensures d in s.h[p].children && |s.h[p].children| == |s.h[p].keys| + 1 && |s.h[p].keys| >= 1
    ensures forall i, j :: 0 <= i < j < |s.h[p].children| ==> s.h[p].children[i] != s.h[p].children[j]
  {
    assert InteriorAt(s, d, p);
  }

  lemma DropDone(s: Snap, d: NodeId, p: NodeId, i: nat, s': Snap)
    requires Shape(s, NULL, d) && Orphaned(s, d, p) && s.h[p].Interior? && |s.h[p].keys| > 1
    requires i < |s.h[p].children| && i <= |s.h[p].keys| && s.h[p].children[i] == d && Dropped(s, p, i, s')
    ensures Shape(s', NULL, NULL) && Shrinks(s, s')
    ensures forall k, v :: Stored(s', k, v) <==> Stored(s, k, v)
  {
    hide Shape, Stored;
    DropKeepsShape(s, d, p, i, s');
    DropMeaning(s, p, i, s');
    SameStored(s, s');
    DropTracks(s, p, i, s');
  }

  lemma OneChildFacts(s: Snap, d: NodeId, p: NodeId, sib: NodeId)
    requires Shape(s, NULL, d) && Orphaned(s, d, p) && s.h[p].Interior? && |s.h[p].keys| == 1
    requires sib in s.h[p].children && sib != d
    ensures p in s.h && sib in s.h && p != sib && s.sh.Keys == s.h.Keys && NULL !in s.h
    ensures var gp := s.h[p].parent; gp != p && gp != sib && (gp != NULL ==> gp in s.h)
  {
    OneChildLeft(s, d, p, sib);
  }

  lemma CollapseDone(s: Snap, d: NodeId, p: NodeId, sib: NodeId, s': Snap)
    requires Shape(s, NULL, d) && Orphaned(s, d, p) && s.h[p].Interior? && |s.h[p].keys| == 1
    requires sib in s.h[p].children && sib != d && Collapsed(s, p, sib, s') && s.h[p].parent != sib
    ensures Shape(s', NULL, NULL) && Shrinks(s, s')
    ensures forall k, v :: Stored(s', k, v) <==> Stored(s, k, v)
  {
    hide Shape, Stored;
    CollapseKeepsShape(s, d, p, sib, s');
    CollapseMeaning(s, p, sib, s');
    SameStored(s, s');
    CollapseTracks(s, p, sib, s');
  }

  lemma ContentGains(s: Snap, s': Snap, m: Content, k: Key, v: Val)
    requires Agrees(s, m) && Gains(s, s', k, v) && k !in m
    ensures Agrees(s', m[k := v])
  {
  }

  lemma ContentSet(s: Snap, s': Snap, m: Content, k: Key, w: Val)
    requires Agrees(s, m)
    requires forall l, v :: Stored(s', l, v) <==> if l == k then v == w else Stored(s, l, v)
    ensures Agrees(s', m[k := w])
  {
  }

  /** Border `b` is where the absent remainder `rest` belongs. */
  ghost predicate Ready(s: Snap, b: NodeId, rest: Key) {
    && b in s.h && s.h[b].Border?
    && Lookup(s.h[b].entries, TupleOf(rest)) == |s.h[b].entries|
    && InRange(s, b, Ord(TupleOf(rest)))
    && (Of(s, b).pfx != [] ==> rest != [])
    && (|rest| > SLICE ==> Vacant(s, Of(s, b).pfx + TupleOf(rest).slice))
  }

  /** Once entry `e` is entered in `b`, the store will have gained one key. */
  ghost predicate Owed(s: Snap, s': Snap, b: NodeId, e: Entry, k0: Key, v: Val) {
    forall k, w :: Stored(s', k, w) || EntryHolds(Of(s', b).pfx, e, k, w) <==>
                   Stored(s, k, w) || (k == k0 && w == v)
  }

  lemma ValueReady(s: Snap, b: NodeId, rest: Key, v: Val)
    requires Ready(s, b, rest) && |rest| <= SLICE
    ensures Fits(s, b, Entry(TupleOf(rest), Value(v)), NULL)
    ensures Owed(s, s, b, Entry(TupleOf(rest), Value(v)), Of(s, b).pfx + rest, v)
  {
    TupleRoundTrip(rest);
  }

  lemma LinkReady(s0: Snap, s1: Snap, s2: Snap, b: NodeId, rest: Key, x: NodeId, v: Val)
    requires Ready(s0, b, rest) && |rest| > SLICE && x !in s0.h
    requires x in s1.h && s2 == s1.(h := s1.h[x := s1.h[x].(parent := b)])
    requires Shape(s1, x, NULL) && NewLayer(s1, x, Of(s0, b).pfx + TupleOf(rest).slice)
    requires Grown(s0, s1, Of(s0, b).pfx + TupleOf(rest).slice)
    requires Gains(s0, s1, Of(s0, b).pfx + TupleOf(rest).slice + rest[SLICE..], v)
    ensures Shape(s2, x, NULL) && Fits(s2, b, Entry(TupleOf(rest), Link(x)), x)
    ensures Owed(s0, s2, b, Entry(TupleOf(rest), Link(x)), Of(s0, b).pfx + rest, v)
    ensures Swells(s0, s2)
  {
    hide Shape;
    Advance(Of(s0, b).pfx, rest);
    NameParent(s1, x, b, s2);
    NameParentMeaning(s1, x, b, s2);
    SameStored(s1, s2);
    assert !exists w :: EntryHolds(Of(s2, b).pfx, Entry(TupleOf(rest), Link(x)), [], w);
  }

  lemma ShapeDomain(s: Snap)
    requires Shape(s, NULL, NULL)
    ensures Domain(s)
  {
  }

  lemma LayerRoom(s: Snap, b: NodeId, rest: Key)
    requires Domain(s) && Ready(s, b, rest) && |rest| > SLICE
    ensures Vacant(s, Of(s, b).pfx + TupleOf(rest).slice) && |Of(s, b).pfx + TupleOf(rest).slice| % SLICE == 0
  {
  }

  lemma HasRoom(s: Snap, x: NodeId, b: NodeId)
    requires Shape(s, x, NULL) && b in s.h && s.h[b].Border?
    ensures |s.h[b].entries| <= FANOUT
  {
    assert BorderAt(s, NULL, b);
  }

  /** Border `b` counted an insertion. */
  ghost predicate Bumped(s: Snap, s': Snap, b: NodeId) {
    b in s.h && b in s'.h && s'.h[b].Border? && s.h[b].ver.vins < s'.h[b].ver.vins
  }

  lemma BumpedOn(s: Snap, s1: Snap, s2: Snap, b: NodeId)
    requires Swells(s, s1) && Bumped(s, s1, b) && Swells(s1, s2)
    ensures Swells(s, s2) && Bumped(s, s2, b)
  {
    SwellsThen(s, s1, s2);
    assert b in s1.h.Keys && TracksAt(s1, s2, b);
  }

  lemma FullBorder(s: Snap, b: NodeId, e: Entry, x: NodeId)
    requires Shape(s, x, NULL) && Fits(s, b, e, x)
    ensures b in s.h && s.h[b].Border? && b != NULL && Sorted(s.h[b].entries)
    ensures Canonical(e.key) && Lookup(s.h[b].entries, e.key) == |s.h[b].entries|
    ensures s.sh.Keys == s.h.Keys && NULL !in s.h
    ensures var q := s.h[b].next; q != NULL ==> q in s.h && s.h[q].Border? && q != b
  {
    assert BorderAt(s, NULL, b) && ChainAt(s, b);
  }

  lemma SplitReady(s: Snap, b: NodeId, e: Entry, x: NodeId, low: seq<Entry>, high: seq<Entry>)
    requires Shape(s, x, NULL) && Fits(s, b, e, x) && |s.h[b].entries| == FANOUT && Sorted(s.h[b].entries)
    requires (low, high) == SplitEntries(s.h[b].entries, Rank(s.h[b].entries, Ord(e.key)), e)
    ensures Halved(s, b, e, x, low, high)
    ensures low != [] && high != [] && forall m :: HasLink(high, m) ==> m in s.h && m != b
  {
    assert BorderAt(s, NULL, b);
    HalvesGood(s, b, e, x, low, high);
    forall m
      ensures HasLink(high, m) ==> m in s.h && m != b
    {
      MovedLinks(s, b, x, low, high, m);
    }
  }

  lemma SplitDone(s: Snap, b: NodeId, e: Entry, x: NodeId, y: NodeId, low: seq<Entry>, high: seq<Entry>, s': Snap)
    requires Shape(s, x, NULL) && b != x && x != s.root && Halved(s, b, e, x, low, high) && low != []
    requires LeafSplit(s, b, y, low, high, s')
    ensures Shape(s', y, NULL) && Pending(s', b, y, high[0].key)
    ensures s'.h[b].Border? && s'.h[b].entries != []
    ensures forall k, v :: Stored(s', k, v) <==> Stored(s, k, v) || EntryHolds(Of(s, b).pfx, e, k, v)
    ensures Swells(s, s') && Bumped(s, s', b)
  {
    hide Shape, Stored, Pending;
    SplitTracks(s, b, y, low, high, s');
    SplitKeepsShape(s, b, e, x, y, low, high, s');
    SplitMeaning(s, b, e, x, y, low, high, s');
  }

  /** Rewriting `prev` of the right neighbour and the parents of the moved layers do not interfere. */
  lemma HalvesFilled(s: Snap, b: NodeId, y: NodeId, low: seq<Entry>, high: seq<Entry>, h1: Heap, h2: Heap, s': Snap)
    requires b in s.h && s.h[b].Border? && NULL !in s.h && y != NULL && y !in s.h && high != [] && s.sh.Keys == s.h.Keys
    requires s.h[b].next != b
    requires var q := s.h[b].next;
             if q == NULL then h1 == s.h else q in s.h && s.h[q].Border? && h1 == s.h[q := s.h[q].(prev := y)]
    requires h2.Keys == h1.Keys
    requires forall m <- h2 :: h2[m] == if HasLink(high, m) then Under(h1[m], y) else h1[m]
    requires s'.root == s.root
    requires var n := s.h[b]; var ver := n.ver.(vins := n.ver.vins + 1, vsplit := n.ver.vsplit + 1);
             s'.h == h2[b := Border(n.parent, ver, low, n.prev, y)][y := Border(NULL, ver.(root := false), high, b, n.next)]
    requires s'.sh == s.sh[b := s.sh[b].(hi := Ord(high[0].key) - 1)]
                          [y := Info(s.sh[b].pfx, Ord(high[0].key), s.sh[b].hi, s.sh[b].ht)]
    ensures LeafSplit(s, b, y, low, high, s')
  {
    hide HasLink;
    forall m | m in s.h && m != b
      ensures s'.h[m] == Moved(s.h[m], m, y, high, s.h[b].next)
    {
      assert s'.h[m] == h2[m];
      assert h1[m] == if m == s.h[b].next then s.h[m].(prev := y) else s.h[m];
    }
  }

  lemma HalvesSpread(s: Snap, p: NodeId, x: NodeId, y: NodeId, hv: Halves, h2: Heap, s': Snap)
    requires p in s.h && s.h[p].Interior? && x in s.h && y != NULL && y !in s.h && p != x && s.sh.Keys == s.h.Keys
    requires !s.h[p].ver.deleted && forall m <- hv.rightKids :: m in s.h && m != p
    requires h2.Keys == s.h.Keys
    requires forall m <- h2 ::
               h2[m] == if m in hv.rightKids then Under(s.h[x := Under(s.h[x], p)][m], y) else s.h[x := Under(s.h[x], p)][m]
    requires s'.root == s.root
    requires
      var ver, took := s.h[p].ver, x in hv.leftKids;
      s'.h == h2[p := Interior(s.h[p].parent, HalfVersion(ver, took), hv.leftKeys, hv.leftKids)]
                [y := Interior(NULL, HalfVersion(ver, !took).(root := false), hv.rightKeys, hv.rightKids)]
    requires s'.sh == s.sh[p := s.sh[p].(hi := Ord(hv.pivot) - 1)]
                          [y := Info(s.sh[p].pfx, Ord(hv.pivot), s.sh[p].hi, s.sh[p].ht)]
    ensures InnerSplit(s, p, x, y, hv, s')
  {
  }

  lemma Settle(s0: Snap, s1: Snap, s2: Snap, b: NodeId, e: Entry, k0: Key, v: Val)
    requires Owed(s0, s1, b, e, k0, v)
    requires forall k, w :: Stored(s2, k, w) <==> Stored(s1, k, w) || EntryHolds(Of(s1, b).pfx, e, k, w)
    ensures Gains(s0, s2, k0, v)
  {
  }

  lemma LinkPrefixStep(es: seq<Entry>, i: nat)
    requires i < |es|
    ensures forall m :: HasLink(es[..i + 1], m) <==> HasLink(es[..i], m) || es[i].payload == Link(m)
  {
    assert es[..i + 1][i] == es[i];
    forall m
      ensures HasLink(es[..i + 1], m) <==> HasLink(es[..i], m) || es[i].payload == Link(m)
    {
      if HasLink(es[..i], m) {
        var j :| 0 <= j < i && es[..i][j].payload == Link(m);
        assert es[..i + 1][j] == es[j];
      }
      if HasLink(es[..i + 1], m) && es[i].payload != Link(m) {
        var j :| 0 <= j < i + 1 && es[..i + 1][j].payload == Link(m);
        assert es[..i][j] == es[j];
      }
    }
  }

  lemma RootThere(s: Snap, n: NodeId)
    requires Shape(s, NULL, NULL) && n in s.h
    ensures s.root != NULL && n != NULL
  {
    var bound := Bound(s);
    TopOf(s, bound, n, Of(s, n).lo);
  }

  /** Climbing from any node ends at the top root. */
  lemma {:induction false} TopOf(s: Snap, bound: nat, n: NodeId, o: int)
    requires Treelike(s) && n in s.h && Below(s, bound) && InRange(s, n, o)
    ensures s.root in s.h
    decreases |Of(s, n).pfx|
  {
    var r := RootOf(s, bound, n, o);
    if r != s.root {
      var i := LinkOf(s, r);
      TopOf(s, bound, s.h[r].parent, Of(s, s.h[r].parent).lo);
    }
  }

  lemma NotSelf(s: Snap, p: NodeId, left: NodeId, x: NodeId, sep: KeyTuple)
    requires Interiors(s, NULL) && p in s.h && s.h[p].Interior? && Pending(s, left, x, sep) && s.h[left].parent == p
    requires left in s.h[p].children
    ensures p != x && p != left && Of(s, left).ht < Of(s, p).ht
  {
    assert InteriorAt(s, NULL, p);
    var i :| 0 <= i < |s.h[p].children| && s.h[p].children[i] == left;
    assert KidAt(s, p, i, left);
  }

  /** Old nodes are untouched, and the new ones are in layers from `pfx` on. */
  ghost predicate Grown(s: Snap, s': Snap, pfx: Key) {
    && s'.root == s.root
    && (forall n <- s.h :: n in s'.h && s'.h[n] == s.h[n] && Of(s', n) == Of(s, n))
    && (forall n <- s'.h :: n !in s.h ==> pfx <= Of(s', n).pfx)
  }

  /** The store gained one key. */
  ghost predicate Gains(s: Snap, s': Snap, k0: Key, v: Val) {
    forall k, w :: Stored(s', k, w) <==> Stored(s, k, w) || (k == k0 && w == v)
  }

  lemma VacantBelow(s: Snap, pfx: Key, slice: Key)
    requires Vacant(s, pfx)
    ensures Vacant(s, pfx + slice)
  {
    forall n | n in s.h
      ensures !(pfx + slice <= Of(s, n).pfx)
    {
      assert pfx + slice <= Of(s, n).pfx ==> pfx <= Of(s, n).pfx by {
        assert pfx == (pfx + slice)[..|pfx|];
      }
    }
  }

  /** What has been built below is what the next border up needs. */
  lemma LayerSeed(s0: Snap, s1: Snap, pfx: Key, rest: Key, e: Entry, x: NodeId, v: Val)
    requires Vacant(s0, pfx) && |pfx| % SLICE == 0 && (pfx != [] ==> rest != []) && e.key == TupleOf(rest)
    requires |rest| <= SLICE ==> s1 == s0 && x == NULL && e.payload == Value(v)
    requires |rest| > SLICE ==> Grown(s0, s1, pfx + e.key.slice) && NewLayer(s1, x, pfx + e.key.slice)
                                && e.payload == Link(x)
    ensures Seed(s1, pfx, e, x)
  {
    forall n | n in s1.h
      ensures Of(s1, n).pfx != pfx
    {
      if n in s0.h {
        assert Of(s1, n) == Of(s0, n);
      } else {
        assert pfx + e.key.slice <= Of(s1, n).pfx;
      }
    }
  }

  lemma LayerStep(s0: Snap, s1: Snap, s2: Snap, r: NodeId, pfx: Key, rest: Key, e: Entry, x: NodeId, v: Val)
    requires Vacant(s0, pfx) && |pfx| % SLICE == 0 && (pfx != [] ==> rest != []) && e.key == TupleOf(rest)
    requires Shape(s1, x, NULL) && Planted(s1, r, pfx, e, s2) && r !in s0.h
    requires |rest| <= SLICE ==> s1 == s0 && x == NULL && e.payload == Value(v)
    requires |rest| > SLICE ==> Grown(s0, s1, pfx + e.key.slice) && NewLayer(s1, x, pfx + e.key.slice)
                                && e.payload == Link(x) && x !in s0.h
                                && Gains(s0, s1, pfx + e.key.slice + rest[SLICE..], v)
    ensures Shape(s2, r, NULL) && NewLayer(s2, r, pfx)
    ensures Grown(s0, s2, pfx) && Gains(s0, s2, pfx + rest, v)
  {
    LayerSeed(s0, s1, pfx, rest, e, x, v);
    PlantKeepsShape(s1, r, pfx, e, x, s2);
    PlantMeaning(s1, r, pfx, e, s2);
    LayerDone(s0, s1, s2, r, pfx, rest, e, v);
  }

  lemma LayerDone(s0: Snap, s1: Snap, s2: Snap, r: NodeId, pfx: Key, rest: Key, e: Entry, v: Val)
    requires e.key == TupleOf(rest) && Planted(s1, r, pfx, e, s2) && r !in s0.h
    requires |rest| <= SLICE ==> s1 == s0 && e.payload == Value(v)
    requires |rest| > SLICE ==> Grown(s0, s1, pfx + e.key.slice) && e.payload.Link? && e.payload.to !in s0.h
                                && Gains(s0, s1, pfx + e.key.slice + rest[SLICE..], v)
    requires forall k, w :: Stored(s2, k, w) <==> Stored(s1, k, w) || EntryHolds(pfx, e, k, w)
    ensures Grown(s0, s2, pfx) && Gains(s0, s2, pfx + rest, v)
  {
    if |rest| <= SLICE {
      TupleRoundTrip(rest);
    } else {
      Advance(pfx, rest);
    }
    forall n | n in s2.h && n !in s0.h
      ensures pfx <= Of(s2, n).pfx
    {
      if n != r {
        assert pfx + e.key.slice <= Of(s1, n).pfx;
        assert pfx == (pfx + e.key.slice)[..|pfx|];
      }
    }
  }

  lemma NothingStored(s: Snap, m: Content)
    requires s.h == map[] && Agrees(s, m)
    ensures m == map[]
  {
    forall k
      ensures k !in m
    {
      InContent(s, m, k);
    }
  }

  lemma InContent(s: Snap, m: Content, k: Key)
    requires Agrees(s, m)
    ensures k in m ==> Stored(s, k, m[k])
  {
  }

  lemma EntryFacts(s: Snap, d: NodeId, b: NodeId, i: nat)
    requires Borders(s, d) && b in s.h && s.h[b].Border? && i < |s.h[b].entries|
    ensures EntryAt(s, d, b, s.h[b].entries[i]) && Canonical(s.h[b].entries[i].key)
  {
    assert BorderAt(s, d, b);
  }

  lemma Advance(p: Key, rest: Key)
    requires |rest| > SLICE
    ensures p + TupleOf(rest).slice + rest[SLICE..] == p + rest
  {
    assert TupleOf(rest).slice == rest[..SLICE];
    assert rest == rest[..SLICE] + rest[SLICE..];
  }

  /** Following a link moves eight bytes of the remainder into the prefix. */
  lemma NextLayer(s: Snap, n: NodeId, b: NodeId, i: nat, rest: Key)
    requires Treelike(s) && b in s.h && s.h[b].Border? && i < |s.h[b].entries|
    requires Of(s, b).pfx == Of(s, n).pfx && s.h[b].entries[i].key == TupleOf(rest) && |rest| > SLICE
    ensures var e := s.h[b].entries[i];
            && e.payload.Link? && LayerRoot(s, e.payload.to)
            && Of(s, e.payload.to).pfx + rest[SLICE..] == Of(s, n).pfx + rest
            && Of(s, e.payload.to).pfx != []
  {
    EntryFacts(s, NULL, b, i);
    Advance(Of(s, n).pfx, rest);
  }

  lemma Absent(s: Snap, m: Content, k: Key, n: NodeId, rest: Key, b: NodeId, i: nat)
    requires Treelike(s) && Agrees(s, m) && Located(s, k, n, rest, b, i) && i == |s.h[b].entries|
    ensures k !in m
  {
    hide Treelike, Stored, Route;
    Miss(s, n, rest);
    InContent(s, m, k);
  }

  /** The entry found is the value of the key. */
  lemma Present(s: Snap, m: Content, k: Key, n: NodeId, rest: Key, b: NodeId, i: nat)
    requires Treelike(s) && Agrees(s, m) && Located(s, k, n, rest, b, i) && i < |s.h[b].entries|
    ensures s.h[b].entries[i].payload.Value?
    ensures k in m && s.h[b].entries[i].payload.val == m[k]
  {
    hide Treelike;
    EntrySound(s, k, n, rest, b, i);
    StoredIn(s, m, k, s.h[b].entries[i].payload.val);
  }

  lemma StoredIn(s: Snap, m: Content, k: Key, v: Val)
    requires Agrees(s, m) && Stored(s, k, v)
    ensures k in m && m[k] == v
  {
  }
}
