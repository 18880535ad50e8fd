/** Phantom detection: entering a key inside a scanned interval changes the version of a border the
    scan recorded, for good: whatever happens to the key and the border later does not undo it. */
module Phantom {
  import opened Wrappers
  import opened Keys
  import opened Counters
  import opened Contents
  import opened Store
  import opened Routing
  import opened Widen
  import opened Track
  import opened TreeFacts
  import opened Effects
  import opened Trees
  import opened Runs
  import opened Interval
  import opened ScanFacts
  import opened ScanLimit
  import opened ScanRecords
  import opened Scans

  /** What a comparison of two version words sees. */
  predicate SameWord(v: Version, w: Version) {
    v.vins % MODULUS == w.vins % MODULUS && v.vsplit % MODULUS == w.vsplit % MODULUS
    && v.deleted == w.deleted && v.root == w.root
  }

  /** Fewer than 2^29 tracked updates lie between the two versions. */
  predicate WithinWindow(v: Version, w: Version) {
    w.vins < v.vins + MODULUS && w.vsplit < v.vsplit + MODULUS
  }

  predicate Moved(v: Version, w: Version) {
    NotLess(v, w) && (v.vins < w.vins || v.vsplit < w.vsplit)
  }

  lemma MovedDiffers(v: Version, w: Version)
    requires Moved(v, w) && WithinWindow(v, w)
    ensures !SameWord(v, w)
  {
    CounterMoves(v.vins, w.vins);
    CounterMoves(v.vsplit, w.vsplit);
  }

  /** The version recorded for `b` no longer matches: its counters have moved, or it is gone and marked. */
  ghost predicate Told(s: Snap, graves: Heap, retired: seq<NodeId>, b: NodeId, v: Version) {
    if b in s.h then s.h[b].Border? && Moved(v, s.h[b].ver)
    else b in retired && b in graves && (Moved(v, graves[b].ver) || (!v.deleted && graves[b].ver.deleted))
  }

  /** The border whose version `v` was recorded while it was responsible for `k` tells of a change, or
      it is still responsible. */
  ghost predicate OnGuard(s: Snap, graves: Heap, retired: seq<NodeId>, b: NodeId, v: Version, k: Key) {
    Told(s, graves, retired, b, v) || Watching(s, b, v, k)
  }

  ghost predicate Watching(s: Snap, b: NodeId, v: Version, k: Key) {
    && b in s.h && s.h[b].Border?
    && var w := s.h[b].ver;
    && w.vins == v.vins && w.vsplit == v.vsplit && (v.deleted ==> w.deleted)
    && Of(s, b).pfx == [] && InRange(s, b, Ord(TupleOf(k)))
  }

  lemma WatchRoutes(s: Snap, b: NodeId, v: Version, k: Key)
    requires Shape(s, NULL, NULL) && Watching(s, b, v, k)
    ensures s.root != NULL && Route(s, s.root, Ord(TupleOf(k))) == b
  {
    RootThere(s, b);
    ShapeTree(s);
    TopRoot(s);
    var bound := Bound(s);
    OnRoute(s, bound, s.root, b, Ord(TupleOf(k)));
  }

  /** No put takes back what was told, and the border responsible for a key that enters tells. */
  lemma PutKeepsGuard(s: Snap, s': Snap, graves: Heap, retired: seq<NodeId>, b: NodeId, v: Version, k: Key, enters: bool)
    requires Shape(s, NULL, NULL) && OnGuard(s, graves, retired, b, v, k) && Swells(s, s')
    requires forall n <- retired :: n !in s'.h
    requires enters && s.root != NULL ==> Bumped(s, s', Route(s, s.root, Ord(TupleOf(k))))
    ensures OnGuard(s', graves, retired, b, v, k)
    ensures enters || Told(s, graves, retired, b, v) ==> Told(s', graves, retired, b, v)
  {
    hide Shape, Route;
    if b in s.h {
      assert b in s'.h.Keys && TracksAt(s, s', b);
      if Watching(s, b, v, k) {
        WatchRoutes(s, b, v, k);
      }
    }
  }

  lemma RemoveKeepsGuard(s: Snap, s': Snap, graves: Heap, graves': Heap, retired: seq<NodeId>, retired': seq<NodeId>,
                         b: NodeId, v: Version, k: Key)
    requires OnGuard(s, graves, retired, b, v, k) && Shrinks(s, s') && GravesKept(s.h, s'.h, graves, graves')
    requires retired <= retired' && GravesFit(retired', graves')
    requires forall n <- s.h :: n !in s'.h ==> n in retired'
    requires b in s.h && b !in s'.h ==> !s.h[b].ver.deleted
    ensures OnGuard(s', graves', retired', b, v, k)
    ensures Told(s, graves, retired, b, v) ==> Told(s', graves', retired', b, v)
  {
    if b in s.h && b in s'.h {
      assert TracksAt(s, s', b);
    } else if b !in s.h {
      assert b !in s'.h.Keys;
    }
  }

  /** A tree with an emptied root has nothing to remove. */
  lemma DeletedEmpty(s: Snap, m: Content, b: NodeId)
    requires Shape(s, NULL, NULL) && Agrees(s, m) && b in s.h && s.h[b].ver.deleted
    ensures forall k :: k !in m
  {
    hide Agrees;
    assert s.h[b].Border?;
    assert BorderAt(s, NULL, b);
    forall k
      ensures k !in m
    {
      NotThere(s, m, k);
    }
  }

  lemma Departed(h: Heap, h': Heap, retired: seq<NodeId>, retired': seq<NodeId>, f: NodeId, f': NodeId)
    requires Counted(h, retired, {}, f) && Counted(h', retired', {}, f') && f <= f'
    ensures forall n <- h :: n !in h' ==> n in retired'
    ensures forall n <- retired' :: n !in h'
  {
  }

  /** The operation enters a key that was absent. */
  predicate Enters(a: Table, op: Op, k: Key) {
    op.DoPut? && op.key == k && k !in a
  }

  /** One operation. */
  method PerformGuarded(t: Tree, op: Op)
    requires t.Valid()
    modifies t
    ensures t.Valid() && TableOf(t.content) == Step(old(TableOf(t.content)), op)
    ensures forall b, v, k :: |k| <= SLICE && OnGuard(old(t.Now()), old(t.graves), old(t.retired), b, v, k) ==>
              && OnGuard(t.Now(), t.graves, t.retired, b, v, k)
              && (Told(old(t.Now()), old(t.graves), old(t.retired), b, v) || Enters(old(TableOf(t.content)), op, k) ==>
                    Told(t.Now(), t.graves, t.retired, b, v))
  {
    hide Shape, Agrees, Counted, ValuesCounted, GravesFit, GravesKept, Swells, Shrinks, Bumped, Route, OnGuard, Told;
    ghost var s, g, r, m := t.Now(), t.graves, t.retired, t.content;
    ghost var f := t.nextId;
    match op {
      case DoPut(k1, data, inline, unique) =>
        var st, v := t.Put(k1, data, inline, unique);
        GoneStaysGone(t.heap, t.retired, t.nextId);
        forall b, v, k | |k| <= SLICE && OnGuard(s, g, r, b, v, k)
          ensures OnGuard(t.Now(), t.graves, t.retired, b, v, k)
          ensures Told(s, g, r, b, v) || Enters(TableOf(m), op, k) ==> Told(t.Now(), t.graves, t.retired, b, v)
        {
          PutKeepsGuard(s, t.Now(), g, r, b, v, k, Enters(TableOf(m), op, k));
        }
      case DoRemove(k1) =>
        var st := t.Remove(k1);
        if k1 in m {
          RemoveGuards(s, t.Now(), g, t.graves, r, t.retired, m, f, k1);
        }
    }
  }

  lemma GoneStaysGone(h: Heap, retired: seq<NodeId>, f: NodeId)
    requires Counted(h, retired, {}, f)
    ensures forall n <- retired :: n !in h
  {
  }

  lemma RemoveGuards(s: Snap, s': Snap, graves: Heap, graves': Heap, retired: seq<NodeId>, retired': seq<NodeId>,
                     m: Content, f: NodeId, k1: Key)
    requires Shape(s, NULL, NULL) && Agrees(s, m) && k1 in m
    requires Shrinks(s, s') && GravesKept(s.h, s'.h, graves, graves') && retired <= retired' && GravesFit(retired', graves')
    requires Counted(s.h, retired, {}, f) && Counted(s'.h, retired', {}, f)
    ensures forall b, v, k :: OnGuard(s, graves, retired, b, v, k) ==>
              && OnGuard(s', graves', retired', b, v, k)
              && (Told(s, graves, retired, b, v) ==> Told(s', graves', retired', b, v))
  {
    hide Shape, Agrees, Counted, GravesFit, GravesKept, Shrinks, OnGuard, Told;
    Departed(s.h, s'.h, retired, retired', f, f);
    forall b, v, k | OnGuard(s, graves, retired, b, v, k)
      ensures OnGuard(s', graves', retired', b, v, k)
      ensures Told(s, graves, retired, b, v) ==> Told(s', graves', retired', b, v)
    {
      if b in s.h && s.h[b].ver.deleted {
        DeletedEmpty(s, m, b);
      }
      RemoveKeepsGuard(s, s', graves, graves', retired, retired', b, v, k);
    }
  }

  function VersionOf(h: Heap, graves: Heap, b: NodeId): Version
    requires b in h || b in graves
  {
    if b in h then h[b].ver else graves[b].ver
  }

  /** A border that tells has a word different from the one recorded. */
  lemma GuardReports(s: Snap, graves: Heap, retired: seq<NodeId>, b: NodeId, v: Version)
    requires Told(s, graves, retired, b, v)
    ensures b in s.h || b in graves
    ensures WithinWindow(v, VersionOf(s.h, graves, b)) ==> !SameWord(v, VersionOf(s.h, graves, b))
  {
    var w := VersionOf(s.h, graves, b);
    if Moved(v, w) && WithinWindow(v, w) {
      MovedDiffers(v, w);
    }
  }

  /** Some operation of the run enters `k` while it is absent. */
  ghost predicate EnteredBy(a: Table, ops: seq<Op>, k: Key) {
    exists i: nat :: i < |ops| && Enters(Fold(a, ops[..i]), ops[i], k)
  }

  /** A scan of a single-layer tree without a size limit, then any sequence of puts and removals.  If
      the run enters a key of the interval while it is absent, some recorded version no longer matches
      at the end of the run, whatever else the run does: the key may have been stored when the scan
      read, and it may be gone again. */
  method ScanThenRun(t: Tree, l: Key, le: End, r: Key, re: End, ops: seq<Op>, ghost k: Key)
    returns (st: Status, ts: Tuples, vs: Records)
    requires t.Valid() && Flat(t.heap) && (le.INF? ==> l == [])
    requires |k| <= SLICE && InInterval(k, l, le, r, re)
    modifies t
    ensures t.Valid()
    ensures st == OK && EnteredBy(old(TableOf(t.content)), ops, k) ==>
              exists b, v :: (b, v) in vs && (b in t.heap || b in t.graves)
                             && (WithinWindow(v, VersionOf(t.heap, t.graves, b)) ==>
                                   !SameWord(v, VersionOf(t.heap, t.graves, b)))
  {
    hide Shape, Agrees, Counted, ValuesCounted, GravesFit, IsFilter, Guarded, OnGuard, Told, Route, Enters, Step;
    st, ts, vs := Scan(t, l, le, r, re, 0, [], []);
    if st != OK {
      return;
    }
    ghost var b, s1 := Watch(t.Now(), t.content, l, le, r, re, vs, k);
    ghost var v := s1.h[b].ver;
    t.sh := s1.sh;
    assert t.Now() == s1;
    assert OnGuard(t.Now(), t.graves, t.retired, b, v, k) by {
      GuardStarts(s1, t.graves, t.retired, b, k);
    }
    ghost var a := TableOf(t.content);
    for i := 0 to |ops|
      invariant t.Valid() && TableOf(t.content) == Fold(a, ops[..i])
      invariant OnGuard(t.Now(), t.graves, t.retired, b, v, k)
      invariant forall j: nat :: j < i && Enters(Fold(a, ops[..j]), ops[j], k) ==> Told(t.Now(), t.graves, t.retired, b, v)
    {
      assert ops[..i + 1][..i] == ops[..i];
      PerformGuarded(t, ops[i]);
    }
    if EnteredBy(a, ops, k) {
      GuardReports(t.Now(), t.graves, t.retired, b, v);
    }
  }

  lemma GuardStarts(s: Snap, graves: Heap, retired: seq<NodeId>, b: NodeId, k: Key)
    requires b in s.h && Watching(s, b, s.h[b].ver, k)
    ensures OnGuard(s, graves, retired, b, s.h[b].ver, k)
  {
  }

  /** The recorded border in whose care `k` is, with its range widened to say so. */
  lemma Watch(s: Snap, m: Content, l: Key, le: End, r: Key, re: End, vs: Records, k: Key) returns (b: NodeId, s1: Snap)
    requires Shape(s, NULL, NULL) && Agrees(s, m) && s.root != NULL && Guarded(s, l, le, r, re, vs)
    requires InInterval(k, l, le, r, re)
    ensures Shape(s1, NULL, NULL) && Agrees(s1, m) && s1.h == s.h && s1.root == s.root
    ensures b in s1.h && s1.h[b].Border? && (b, s1.h[b].ver) in vs && Watching(s1, b, s1.h[b].ver, k)
  {
    hide Shape, Agrees, Route;
    ShapeTree(s);
    TopRoot(s);
    var o := Ord(TupleOf(k));
    b := Route(s, s.root, o);
    RouteBorder(s, s.root, o);
    s1 := Extend(s, s.root, o);
    AgreesStill(s, s1, m);
  }

  // ---- no false alarm ----

  /** No operation of the run enters a key. */
  predicate OnlyUpdates(a: Table, ops: seq<Op>) {
    forall i :: 0 <= i < |ops| ==> ops[i].DoPut? ==> ops[i].key in Fold(a, ops[..i])
  }

  /** The borders of `h` that are left are at the counts they had, and the others are retired. */
  ghost predicate Unmoved(h: Heap, h': Heap, retired: seq<NodeId>) {
    forall b <- h :: h[b].Border? ==>
                       if b in h' then h'[b].Border? && h'[b].ver.vins == h[b].ver.vins && h'[b].ver.vsplit == h[b].ver.vsplit
                       else b in retired
  }

  ghost predicate SameVersions(h: Heap, h': Heap) {
    forall n <- h :: n in h' && h'[n].ver == h[n].ver
  }

  /** One operation that enters no key. */
  method PerformUpdate(t: Tree, op: Op)
    requires t.Valid() && (op.DoPut? ==> op.key in t.content)
    modifies t
    ensures t.Valid() && TableOf(t.content) == Step(old(TableOf(t.content)), op)
    ensures old(t.retired) <= t.retired && t.content.Keys <= old(t.content).Keys
    ensures Unmoved(old(t.heap), t.heap, t.retired)
    ensures t.retired == old(t.retired) && t.content != map[] ==> SameVersions(old(t.heap), t.heap)
  {
    hide Shape, Agrees, Counted, ValuesCounted, GravesFit, GravesKept, Swells, Shrinks, Bumped, Route, Updates, Leaves, Admits;
    ghost var s, r, m := t.Now(), t.retired, t.content;
    ghost var f := t.nextId;
    match op {
      case DoPut(k, data, inline, unique) =>
        var st, v := t.Put(k, data, inline, unique);
        UpdateUnmoved(s, t.Now(), k, v, unique, t.retired);
      case DoRemove(k) =>
        var st := t.Remove(k);
        if k in m {
          RemoveUnmoved(s, t.Now(), k, r, t.retired, t.content, f);
        }
    }
  }

  lemma UpdateUnmoved(s: Snap, s': Snap, k: Key, v: Option<Val>, unique: bool, retired: seq<NodeId>)
    requires if unique then s' == s else v.Some? && Updates(s, k, v.value, s')
    ensures Unmoved(s.h, s'.h, retired) && SameVersions(s.h, s'.h)
  {
  }

  lemma RemoveUnmoved(s: Snap, s': Snap, k: Key, retired: seq<NodeId>, retired': seq<NodeId>, m': Content, f: NodeId)
    requires Shape(s', NULL, NULL) && Agrees(s', m') && Leaves(s, k, s', retired, retired') && Shrinks(s, s')
    requires Counted(s.h, retired, {}, f) && Counted(s'.h, retired', {}, f)
    ensures Unmoved(s.h, s'.h, retired')
    ensures retired' == retired && m' != map[] ==> SameVersions(s.h, s'.h)
  {
    Departed(s.h, s'.h, retired, retired', f, f);
    hide Shape, Agrees, Counted, Leaves;
    if retired' == retired {
      LeavesKeeps(s, k, s', retired, retired');
      if s'.root in s'.h && s'.h[s'.root].Border? && s'.h[s'.root].entries == [] {
        forall l
          ensures l !in m'
        {
          NotThere(s', m', l);
        }
      }
    }
  }

  lemma UnmovedThen(h: Heap, h1: Heap, h2: Heap, retired: seq<NodeId>, retired': seq<NodeId>)
    requires Unmoved(h, h1, retired) && Unmoved(h1, h2, retired') && retired <= retired' && forall n <- retired' :: n !in h2
    ensures Unmoved(h, h2, retired')
  {
  }

  /** A scan of any tree, then any sequence of updates and removals.  No recorded border that is still in
      the tree has moved a counter; and if no node has been retired and the tree has not been emptied,
      every recorded version still matches. */
  method ScanThenUpdates(t: Tree, l: Key, le: End, r: Key, re: End, max: nat, ops: seq<Op>)
    returns (st: Status, ts: Tuples, vs: Records)
    requires t.Valid() && OnlyUpdates(TableOf(t.content), ops)
    modifies t
    ensures t.Valid()
    ensures st == OK ==> forall j :: 0 <= j < |vs| ==>
                           if vs[j].0 in t.heap then
                             t.heap[vs[j].0].ver.vins == vs[j].1.vins && t.heap[vs[j].0].ver.vsplit == vs[j].1.vsplit
                           else vs[j].0 in t.graves && t.graves[vs[j].0].ver.deleted
    ensures st == OK && t.retired == old(t.retired) && t.content != map[] ==>
              forall j :: 0 <= j < |vs| ==> vs[j].0 in t.heap && SameWord(vs[j].1, t.heap[vs[j].0].ver)
  {
    hide Shape, Agrees, Counted, ValuesCounted, IsFilter, IsFront, Guarded, StartHarmless, Logs, HasRecord, Step, Unmoved, SameVersions;
    st, ts, vs := Scan(t, l, le, r, re, max, [], []);
    ghost var h, ret, a := t.heap, t.retired, TableOf(t.content);
    assert Unmoved(h, h, ret) && SameVersions(h, h) by { UnmovedSelf(h, ret); }
    for i := 0 to |ops|
      invariant t.Valid() && TableOf(t.content) == Fold(a, ops[..i]) && ret <= t.retired
      invariant Unmoved(h, t.heap, t.retired)
      invariant t.retired == ret && t.content != map[] ==> SameVersions(h, t.heap)
    {
      assert ops[..i + 1][..i] == ops[..i];
      ghost var h1, r1, m1 := t.heap, t.retired, t.content;
      assert ops[i].DoPut? ==> ops[i].key in TableOf(t.content);
      PerformUpdate(t, ops[i]);
      GoneStaysGone(t.heap, t.retired, t.nextId);
      UnmovedThen(h, h1, t.heap, r1, t.retired);
      if t.retired == ret && t.content != map[] {
        KeysLeft(m1, t.content);
        SameVersionsThen(h, h1, t.heap);
      }
    }
    if st == OK {
      RecordsUnmoved(h, t.heap, t.retired, t.graves, vs);
      if SameVersions(h, t.heap) {
        RecordsSame(h, t.heap, vs);
      }
    }
  }

  lemma UnmovedSelf(h: Heap, retired: seq<NodeId>)
    ensures Unmoved(h, h, retired) && SameVersions(h, h)
  {
  }

  lemma KeysLeft(m: Content, m': Content)
    requires m'.Keys <= m.Keys && m' != map[]
    ensures m != map[]
  {
    assert m'.Keys != {};
  }

  lemma SameVersionsThen(h: Heap, h1: Heap, h2: Heap)
    requires SameVersions(h, h1) && SameVersions(h1, h2)
    ensures SameVersions(h, h2)
  {
  }

  lemma RecordsUnmoved(h: Heap, h': Heap, retired: seq<NodeId>, graves: Heap, vs: Records)
    requires Unmoved(h, h', retired) && GravesFit(retired, graves)
    requires forall j :: 0 <= j < |vs| ==> vs[j].0 in h && h[vs[j].0].Border? && vs[j].1 == h[vs[j].0].ver
    ensures forall j :: 0 <= j < |vs| ==>
                          if vs[j].0 in h' then h'[vs[j].0].ver.vins == vs[j].1.vins && h'[vs[j].0].ver.vsplit == vs[j].1.vsplit
                          else vs[j].0 in graves && graves[vs[j].0].ver.deleted
  {
  }

  lemma RecordsSame(h: Heap, h': Heap, vs: Records)
    requires SameVersions(h, h')
    requires forall j :: 0 <= j < |vs| ==> vs[j].0 in h && vs[j].1 == h[vs[j].0].ver
    ensures forall j :: 0 <= j < |vs| ==> vs[j].0 in h' && SameWord(vs[j].1, h'[vs[j].0].ver)
  {
  }
}
