/** Range scans: the walk along the leaf chain, the descent into lower layers, and the versions a scan
    records for the later check that no key has appeared. */
module Scans {
  import opened Keys
  import opened Contents
  import opened Store
  import opened Routing
  import opened Widen
  import opened TreeFacts
  import opened Trees
  import opened Runs
  import opened Interval
  import opened ScanFacts
  import opened ScanLimit
  import opened ScanRecords

  datatype Turn = END | CONTINUE

  /** How far the layer has been delivered when the first `i` entries of `b` are done. */
  ghost function Mark(s: Snap, b: NodeId, i: nat): int
    requires b in s.h && s.h[b].Border? && i <= |s.h[b].entries|
  {
    if i == 0 then Of(s, b).lo else Ord(s.h[b].entries[i - 1].key) + 1
  }

  /** The tree as a scan sees it; `s` may carry wider ranges than the tree. */
  ghost predicate Ground(t: Tree, s: Snap, depth: nat)
    reads t
  {
    && t.Valid() && Shape(s, NULL, NULL) && Widened(t.Now(), s)
    && forall n <- s.h :: |Of(s, n).pfx| < depth
  }

  ghost predicate InBorder(s: Snap, q: Query, n: NodeId, b: NodeId) {
    && LayerRoot(s, n) && Of(s, n).pfx == q.pfx
    && b in s.h && s.h[b].Border? && Of(s, b).pfx == q.pfx
  }

  /** No entry of the tree is a link. */
  predicate Flat(h: Heap) {
    forall n <- h :: h[n].Border? ==> forall i :: 0 <= i < |h[n].entries| ==> h[n].entries[i].payload.Value?
  }

  /** The last tuple delivered is an entry of border `b`. */
  ghost predicate LastHere(s: Snap, q: Query, b: NodeId, ts: Tuples) {
    && b in s.h && s.h[b].Border? && ts != []
    && exists i :: 0 <= i < |s.h[b].entries| && s.h[b].entries[i].key.len <= SLICE
                   && ts[|ts| - 1].0 == q.pfx + TupleBytes(s.h[b].entries[i].key)
  }

  /** Border `b` reaches the right end: it is the last, or holds a key beyond the end point. */
  ghost predicate Reaches(s: Snap, q: Query, b: NodeId) {
    b in s.h && s.h[b].Border?
    && (s.h[b].next == NULL
        || exists i :: 0 <= i < |s.h[b].entries| && !ToRight(q.pfx + TupleBytes(s.h[b].entries[i].key), q.r, q.re))
  }

  // ---- one border ----

  lemma Skipped(m: Content, q: Query, ts: Tuples, o: int, open: bool)
    requires Progress(m, q, ts, o, open) && Exhausts(m, q, [], o)
    ensures Progress(m, q, ts, o + 1, open)
  {
    if open {
      DeliverAll(m, q, ts, [], o);
      assert ts + [] == ts;
    }
  }

  lemma Taken(m: Content, q: Query, ts: Tuples, more: Tuples, o: int, open: bool)
    requires Progress(m, q, ts, o, open) && Contributes(m, q, more, o) && (open ==> Exhausts(m, q, more, o))
    ensures Progress(m, q, ts + more, o + 1, open)
  {
    Deliver(m, q, ts, more, o);
    if open {
      DeliverAll(m, q, ts, more, o);
    }
  }

  lemma Reached(s: Snap, m: Content, n: NodeId, q: Query, ts: Tuples, b: NodeId, i: nat, open: bool)
    requires Shape(s, NULL, NULL) && Agrees(s, m) && InBorder(s, q, n, b) && i <= |s.h[b].entries|
    requires Progress(m, q, ts, Mark(s, b, i), open)
    ensures Progress(m, q, ts, Bar(s, b, i), open)
  {
    ShapeTree(s);
    MarkBelow(s, b, i);
    if open {
      ToBar(s, m, n, q, ts, b, i);
    }
  }

  lemma MarkBelow(s: Snap, b: NodeId, i: nat)
    requires Treelike(s) && b in s.h && s.h[b].Border? && i <= |s.h[b].entries|
    ensures Mark(s, b, i) <= Bar(s, b, i)
  {
    assert BorderAt(s, NULL, b);
    assert i < |s.h[b].entries| ==> EntryAt(s, NULL, b, s.h[b].entries[i]);
    assert i > 0 ==> EntryAt(s, NULL, b, s.h[b].entries[i - 1]);
  }

  lemma Crossed(s: Snap, m: Content, n: NodeId, q: Query, ts: Tuples, b: NodeId, open: bool)
    requires Shape(s, NULL, NULL) && Agrees(s, m) && InBorder(s, q, n, b)
    requires Progress(m, q, ts, Mark(s, b, |s.h[b].entries|), open)
    ensures var o := if s.h[b].next == NULL then TOP else Of(s, s.h[b].next).lo; Progress(m, q, ts, o, open)
    ensures s.h[b].next != NULL ==> InBorder(s, q, n, s.h[b].next) && Of(s, b).lo < Of(s, s.h[b].next).lo
  {
    Reached(s, m, n, q, ts, b, |s.h[b].entries|, open);
    assert ChainAt(s, b);
    if open {
      NextBorder(s, m, n, q, ts, b);
    }
    SoundLater(m, q, ts, Of(s, b).hi + 1);
  }

  lemma SoundLater(m: Content, q: Query, ts: Tuples, o: int)
    requires Sound(m, q, ts, o)
    ensures Sound(m, q, ts, TOP)
  {
    forall i | 0 <= i < |ts|
      ensures OrdIn(q.pfx, ts[i].0) < TOP
    {
      OrdBound(TupleOf(ts[i].0[|q.pfx|..]));
    }
  }

  /** The shape of one entry, without the invariant it comes from. */
  lemma EntryShape(s: Snap, b: NodeId, i: nat)
    requires Treelike(s) && b in s.h && s.h[b].Border? && i < |s.h[b].entries|
    ensures var e := s.h[b].entries[i];
            && Canonical(e.key) && (Of(s, b).pfx != [] ==> e.key.len > 0)
            && (e.payload.Value? <==> e.key.len <= SLICE)
            && (e.key.len > SLICE ==> e.key.len == LINK_LEN && TupleBytes(e.key) == e.key.slice)
            && Of(s, b).lo <= Ord(e.key) <= Of(s, b).hi
  {
    EntryFacts(s, NULL, b, i);
  }

  lemma Stopped(s: Snap, m: Content, q: Query, ts: Tuples, b: NodeId, i: nat, open: bool)
    requires Treelike(s) && b in s.h && s.h[b].Border? && Of(s, b).pfx == q.pfx && i < |s.h[b].entries|
    requires Progress(m, q, ts, Ord(s.h[b].entries[i].key), open)
    requires var t := s.h[b].entries[i].key;
             if t.len > SLICE then RightCut(q.r, q.re, q.pfx + TupleBytes(t)).Nothing?
             else !ToRight(q.pfx + TupleBytes(t), q.r, q.re)
    ensures Progress(m, q, ts, TOP, open)
  {
    hide Treelike;
    EntryShape(s, b, i);
    StoppedAt(m, q, ts, s.h[b].entries[i].key, open);
  }

  lemma StoppedAt(m: Content, q: Query, ts: Tuples, t: KeyTuple, open: bool)
    requires Progress(m, q, ts, Ord(t), open) && Canonical(t) && (q.pfx != [] ==> t.len > 0)
    requires if t.len > SLICE then t.len == LINK_LEN && RightCut(q.r, q.re, q.pfx + t.slice).Nothing?
             else !ToRight(q.pfx + TupleBytes(t), q.r, q.re)
    ensures Progress(m, q, ts, TOP, open)
  {
    SoundLater(m, q, ts, Ord(t));
    if open {
      if t.len > SLICE {
        StopAtLink(m, q, ts, t);
      } else {
        StopAtValue(m, q, ts, t);
      }
    }
  }

  // ---- entries ----

  /** The link at entry `i`: what the layer below it holds of the interval. */
  method ScanLink(t: Tree, b: NodeId, i: nat, q: Query, max: nat, ts0: Tuples, vs0: Records,
                  ghost s: Snap, ghost n: NodeId, ghost depth: nat, ghost pre: Tuples, ghost add0: Tuples,
                  ghost preLog: Records, ghost log0: Records, ghost pushed: bool)
    returns (w: Turn, ts: Tuples, vs: Records, ghost add: Tuples, ghost log: Records)
    requires Ground(t, s, depth) && InBorder(s, q, n, b) && ts0 == pre + add0 && vs0 == preLog + log0
    requires i < |t.heap[b].entries| && t.heap[b].entries[i].key.len > SLICE
    requires q.from <= Ord(t.heap[b].entries[i].key)
    requires Progress(t.content, q, add0, Ord(t.heap[b].entries[i].key), Room(ts0, max))
    requires Fronted(t.content, q, pre, add0, max) && Logs(t.Now(), add0, log0)
    requires LogUpTo(s, q.pfx, log0, b, pushed, Ord(t.heap[b].entries[i].key))
    ensures ts == pre + add && vs == preLog + log && vs0 <= vs
    ensures Progress(t.content, q, add, if w.END? then TOP else Ord(t.heap[b].entries[i].key) + 1, Room(ts, max))
    ensures Fronted(t.content, q, pre, add, max) && Logs(t.Now(), add, log)
    ensures LogUpTo(s, q.pfx, log, b, pushed, Ord(t.heap[b].entries[i].key) + 1)
    decreases depth - |q.pfx|, 0
  {
    hide Shape, Treelike, Agrees, Counted, ValuesCounted, GravesFit, Progress, LayerRoot, Fronted, Logs, LogUpTo, LogWithin, Recorded;
    hide Flat, Covers, LeftOut;
    ghost var m := t.content;
    var e := t.heap[b].entries[i];
    ShapeTree(s);
    LinkFacts(s, b, i);
    w, ts, vs, add, log := CONTINUE, ts0, vs0, add0, log0;
    var lc := LeftCut(q.l, q.le, e.key.slice);
    if lc.Nothing? {
      LinkSkipped(m, q, e.key);
      Skipped(m, q, add0, Ord(e.key), Room(ts, max));
      LogLater(s, q.pfx, log0, b, pushed, Ord(e.key), pushed, Ord(e.key) + 1);
      return;
    }
    var full := q.pfx + TupleBytes(e.key);
    var rc := RightCut(q.r, q.re, full);
    if rc.Nothing? {
      w := END;
      Stopped(s, m, q, add0, b, i, Room(ts, max));
      LogLater(s, q.pfx, log0, b, pushed, Ord(e.key), pushed, Ord(e.key) + 1);
      return;
    }
    var q' := Query(full, lc.key, lc.end, rc.key, rc.end, 0);
    ghost var more, low, moreLog;
    ts, vs, more, low, moreLog := ScanLayer(t, e.payload.to, q', max, ts0, vs0, s, depth);
    LinkStep(t.Now(), s, m, q, b, e.key, lc, rc, low, pre, add0, more, max, log0, moreLog, pushed);
    add, log := add0 + more, log0 + moreLog;
    assert pre + add == ts0 + more && preLog + log == vs0 + moreLog;
  }

  /** The layer below the link has been delivered. */
  lemma LinkStep(now: Snap, s: Snap, m: Content, q: Query, b: NodeId, t: KeyTuple, lc: Cut, rc: Cut, low: int,
                 pre: Tuples, add: Tuples, more: Tuples, max: nat, log: Records, moreLog: Records, pushed: bool)
    requires Canonical(t) && t.len == LINK_LEN && TupleBytes(t) == t.slice && q.from <= Ord(t) && Of(s, b).pfx == q.pfx
    requires lc == LeftCut(q.l, q.le, t.slice) && rc == RightCut(q.r, q.re, q.pfx + t.slice) && lc.Cut? && rc.Cut?
    requires Progress(m, q, add, Ord(t), Room(pre + add, max)) && Fronted(m, q, pre, add, max)
    requires Logs(now, add, log) && LogUpTo(s, q.pfx, log, b, pushed, Ord(t))
    requires var q' := Query(q.pfx + t.slice, lc.key, lc.end, rc.key, rc.end, 0);
             && low <= Ord(Clamp(SliceOf(q'.l), |q'.l| % 256))
             && Progress(m, q'.(from := low), more, TOP, Room(pre + add + more, max))
             && Fronted(m, q'.(from := low), pre + add, more, max)
             && Logs(now, more, moreLog) && LogWithin(s, q'.pfx, moreLog)
    ensures Progress(m, q, add + more, Ord(t) + 1, Room(pre + (add + more), max)) && Fronted(m, q, pre, add + more, max)
    ensures Logs(now, add + more, log + moreLog) && LogUpTo(s, q.pfx, log + moreLog, b, pushed, Ord(t) + 1)
  {
    hide Progress, Fronted, Logs, LogUpTo, LogWithin, Recorded, Ord, Clamp;
    var q' := Query(q.pfx + t.slice, lc.key, lc.end, rc.key, rc.end, 0);
    var open := Room(pre + (add + more), max);
    assert pre + add + more == pre + (add + more);
    NormalBelow(q, t, lc);
    NormalStart(m, q', low, more, open);
    FrontedNormal(m, q', low, pre + add, more, max);
    Weaken(m, q, add, Ord(t), Room(pre + add, max), open);
    LinkTaken(m, q, t, lc, rc, add, more, open);
    FrontedLink(m, q, t, lc, rc, pre, add, more, max);
    LogLink(s, q.pfx, log, b, pushed, t.slice, moreLog);
    LogConcat(now, add, log, more, moreLog);
  }

  lemma NormalBelow(q: Query, t: KeyTuple, lc: Cut)
    requires |t.slice| == SLICE && lc == LeftCut(q.l, q.le, t.slice) && lc.Cut?
    ensures lc.end.INF? ==> lc.key == []
  {
  }

  lemma FrontedNormal(m: Content, q: Query, low: int, pre: Tuples, add: Tuples, max: nat)
    requires Normal(q) && q.from == 0 && low <= Ord(Clamp(SliceOf(q.l), |q.l| % 256))
    requires Fronted(m, q.(from := low), pre, add, max)
    ensures Fronted(m, q, pre, add, max)
  {
    hide Fronted;
    forall k
      ensures Wanted(m, q.(from := low), k) <==> Wanted(m, q, k)
    {
      NormalStartAt(m, q, low, k);
    }
    FrontedAlike(m, q.(from := low), q, pre, add, max);
  }

  lemma LinkFacts(s: Snap, b: NodeId, i: nat)
    requires Treelike(s) && b in s.h && s.h[b].Border? && i < |s.h[b].entries| && s.h[b].entries[i].key.len > SLICE
    ensures var e := s.h[b].entries[i];
            && Canonical(e.key) && e.key.len == LINK_LEN && TupleBytes(e.key) == e.key.slice
            && e.payload.Link? && LayerRoot(s, e.payload.to) && Of(s, e.payload.to).pfx == Of(s, b).pfx + e.key.slice
            && !s.h[e.payload.to].ver.deleted && s.h[e.payload.to].ver.root
  {
    EntryFacts(s, NULL, b, i);
    var r := s.h[b].entries[i].payload.to;
    assert ParentAt(s, r);
    if s.h[r].Border? {
      assert BorderAt(s, NULL, r);
    }
  }

  lemma LinkNotFlat(h: Heap, b: NodeId, i: nat)
    requires b in h && h[b].Border? && i < |h[b].entries| && h[b].entries[i].payload.Link?
    ensures !Flat(h)
  {
  }

  lemma LinkTaken(m: Content, q: Query, t: KeyTuple, lc: Cut, rc: Cut, add: Tuples, more: Tuples, open: bool)
    requires Canonical(t) && t.len == LINK_LEN && q.from <= Ord(t)
    requires lc == LeftCut(q.l, q.le, t.slice) && rc == RightCut(q.r, q.re, q.pfx + t.slice) && lc.Cut? && rc.Cut?
    requires Progress(m, q, add, Ord(t), open)
    requires Progress(m, Query(q.pfx + t.slice, lc.key, lc.end, rc.key, rc.end, 0), more, TOP, open)
    ensures Progress(m, q, add + more, Ord(t) + 1, open)
  {
    LinkContributes(m, q, t, lc, rc, more);
    if open {
      LinkExhausts(m, q, t, lc, rc, more);
    }
    Taken(m, q, add, more, Ord(t), open);
  }

  /** The next place after that of a tuple. */
  ghost function After(t: KeyTuple): int {
    Ord(t) + 1
  }

  /** Entry `i` holds a value: deliver it if it lies in the interval. */
  method ScanValue(t: Tree, b: NodeId, i: nat, q: Query, max: nat, ts0: Tuples,
                   ghost s: Snap, ghost n: NodeId, ghost pre: Tuples, ghost add0: Tuples)
    returns (w: Turn, pushed: bool, ts: Tuples, ghost add: Tuples)
    requires t.Valid() && Shape(s, NULL, NULL) && Widened(t.Now(), s)
    requires InBorder(s, q, n, b) && ts0 == pre + add0
    requires i < |t.heap[b].entries| && t.heap[b].entries[i].key.len <= SLICE && q.from <= Ord(t.heap[b].entries[i].key)
    requires Progress(t.content, q, add0, Ord(t.heap[b].entries[i].key), Room(ts0, max)) && Fronted(t.content, q, pre, add0, max)
    ensures ts == pre + add && (pushed ==> |add| == |add0| + 1 && add[..|add0|] == add0) && (!pushed ==> add == add0)
    ensures pushed ==> NodeHolds(t.Now(), b, add[|add0|].0, add[|add0|].1)
    ensures Progress(t.content, q, add, if w.END? then TOP else After(t.heap[b].entries[i].key), Room(ts, max))
    ensures Fronted(t.content, q, pre, add, max)
    ensures w.CONTINUE? && Room(ts0, max) ==> Room(ts, max)
    ensures pushed ==> LastHere(s, q, b, ts)
    ensures w.END? ==> if pushed then !Room(ts, max) else Reaches(s, q, b)
  {
    ghost var m := t.content;
    var e := t.heap[b].entries[i];
    var full := q.pfx + TupleBytes(e.key);
    ValueFacts(t.Now(), s, m, q, n, b, i, add0, Room(ts0, max));
    ghost var after := After(e.key);
    assert after == Ord(e.key) + 1;
    hide Shape, Agrees, Counted, ValuesCounted, GravesFit, Progress, LayerRoot, Fronted, Contributes, Exhausts, NodeHolds, Widened;
    hide InBorder, Reaches, LastHere, Ord, LeftSkips, RightTakes, TupleBytes, After;
    w, pushed, ts, add := CONTINUE, false, ts0, add0;
    if LeftSkips(q.l, q.le, e.key) {
      return;
    }
    if !RightTakes(q.r, q.re, full) {
      w := END;
      return;
    }
    ghost var x := (full, e.payload.val);
    ValueStep(m, q, pre, add0, x, Ord(e.key), max, add0 + [x], ts0 + [x], after);
    LastIs(s, q, n, b, i, ts0, e.payload.val);
    pushed, ts, add := true, ts0 + [(full, e.payload.val)], add0 + [x];
    if max != 0 && |ts| >= max {
      w := END;
    }
  }

  lemma LastIs(s: Snap, q: Query, n: NodeId, b: NodeId, i: nat, ts: Tuples, v: Val)
    requires InBorder(s, q, n, b) && i < |s.h[b].entries| && s.h[b].entries[i].key.len <= SLICE
    ensures LastHere(s, q, b, ts + [(q.pfx + TupleBytes(s.h[b].entries[i].key), v)])
  {
    assert s.h[b].entries[i].key.len <= SLICE;
  }

  /** What each of the three ways of treating a value entry amounts to. */
  lemma ValueFacts(now: Snap, s: Snap, m: Content, q: Query, n: NodeId, b: NodeId, i: nat, ts: Tuples, open: bool)
    requires Shape(s, NULL, NULL) && Widened(now, s) && Agrees(now, m) && InBorder(s, q, n, b)
    requires i < |s.h[b].entries| && s.h[b].entries[i].key.len <= SLICE && q.from <= Ord(s.h[b].entries[i].key)
    requires Progress(m, q, ts, Ord(s.h[b].entries[i].key), open)
    ensures var e := s.h[b].entries[i]; var full := q.pfx + TupleBytes(e.key);
            && |e.key.slice| == SLICE && e.payload.Value?
            && if LeftSkips(q.l, q.le, e.key) then Progress(m, q, ts, After(e.key), open)
               else if !RightTakes(q.r, q.re, full) then Progress(m, q, ts, TOP, open) && Reaches(s, q, b)
               else
                 && Contributes(m, q, [(full, e.payload.val)], Ord(e.key)) && Exhausts(m, q, [(full, e.payload.val)], Ord(e.key))
                 && NodeHolds(now, b, full, e.payload.val)
  {
    hide Shape, Treelike, Agrees, Progress, LayerRoot, Contributes, Exhausts, NodeHolds, Widened, FromLeft, Ord, LeftSkips, RightTakes;
    var e := s.h[b].entries[i];
    var full := q.pfx + TupleBytes(e.key);
    ShapeTree(s);
    AgreesStill(now, s, m);
    EntryShape(s, b, i);
    ValueContributes(s, m, q, b, i);
    LeftSkipsExactly(q.l, q.le, e.key);
    RightTakesExactly(q.r, q.re, full);
    if LeftSkips(q.l, q.le, e.key) {
      Skipped(m, q, ts, Ord(e.key), open);
    } else if !RightTakes(q.r, q.re, full) {
      Stopped(s, m, q, ts, b, i, open);
    } else {
      HeldHere(now, s, q, b, i);
    }
  }

  lemma ValueStep(m: Content, q: Query, pre: Tuples, add: Tuples, x: (Key, Val), o: int, max: nat, add': Tuples, ts: Tuples, after: int)
    requires Progress(m, q, add, o, Room(pre + add, max)) && Fronted(m, q, pre, add, max)
    requires Contributes(m, q, [x], o) && Exhausts(m, q, [x], o) && add' == add + [x] && ts == pre + add + [x] && after == o + 1
    ensures Progress(m, q, add', if Room(ts, max) then after else TOP, Room(ts, max)) && Fronted(m, q, pre, add', max)
    ensures ts == pre + add' && |add'| == |add| + 1 && add'[..|add|] == add && add'[|add|] == x
  {
    hide Progress, Fronted, Contributes, Exhausts;
    FrontedValue(m, q, pre, add, x, o, max);
    assert ts == pre + add';
    Weaken(m, q, add, o, Room(pre + add, max), Room(ts, max));
    Taken(m, q, add, [x], o, Room(ts, max));
    if !Room(ts, max) {
      CutShort(m, q, add', o + 1, false);
    }
  }

  lemma HeldHere(now: Snap, s: Snap, q: Query, b: NodeId, i: nat)
    requires Widened(now, s) && b in s.h && s.h[b].Border? && Of(s, b).pfx == q.pfx && i < |s.h[b].entries|
    requires s.h[b].entries[i].payload.Value?
    ensures var e := s.h[b].entries[i]; NodeHolds(now, b, q.pfx + TupleBytes(e.key), e.payload.val)
  {
    var e := s.h[b].entries[i];
    assert e in now.h[b].entries && EntryHolds(Of(now, b).pfx, e, q.pfx + TupleBytes(e.key), e.payload.val);
  }

  /** Nothing is claimed any more of what comes later. */
  lemma CutShort(m: Content, q: Query, ts: Tuples, o: int, open: bool)
    requires Progress(m, q, ts, o, open)
    ensures Progress(m, q, ts, TOP, false)
  {
    SoundLater(m, q, ts, o);
  }

  lemma AgreesStill(s: Snap, s': Snap, m: Content)
    requires Widened(s, s') && Agrees(s, m)
    ensures Agrees(s', m)
  {
    hide Stored, Widened;
    StoredWidened(s, s');
  }

  lemma Weaken(m: Content, q: Query, ts: Tuples, o: int, open: bool, open': bool)
    requires Progress(m, q, ts, o, open) && (open' ==> open)
    ensures Progress(m, q, ts, o, open')
  {
  }

  /** A value entry together with its record: one for a tuple delivered, and one for the border when the
      right end stops a border that delivered nothing. */
  method ScanEntry(t: Tree, b: NodeId, i: nat, q: Query, max: nat, ts0: Tuples, vs0: Records, pushed0: bool,
                   ghost s: Snap, ghost n: NodeId, ghost pre: Tuples, ghost add0: Tuples, ghost preLog: Records, ghost log0: Records)
    returns (w: Turn, pushed: bool, ts: Tuples, vs: Records, ghost add: Tuples, ghost log: Records)
    requires t.Valid() && Shape(s, NULL, NULL) && Widened(t.Now(), s)
    requires InBorder(s, q, n, b) && ts0 == pre + add0 && vs0 == preLog + log0
    requires i < |t.heap[b].entries| && t.heap[b].entries[i].key.len <= SLICE && q.from <= Ord(t.heap[b].entries[i].key)
    requires Progress(t.content, q, add0, Ord(t.heap[b].entries[i].key), Room(ts0, max)) && Fronted(t.content, q, pre, add0, max)
    requires Logs(t.Now(), add0, log0) && LogUpTo(s, q.pfx, log0, b, pushed0, Ord(t.heap[b].entries[i].key) + 1)
    requires pushed0 ==> (b, t.heap[b].ver) in vs0
    ensures ts == pre + add && vs == preLog + log && vs0 <= vs
    ensures Progress(t.content, q, add, if w.END? then TOP else Ord(t.heap[b].entries[i].key) + 1, Room(ts, max))
    ensures Fronted(t.content, q, pre, add, max)
    ensures Logs(t.Now(), add, log) && LogUpTo(s, q.pfx, log, b, pushed, Ord(t.heap[b].entries[i].key) + 1)
    ensures pushed || w.END? ==> (b, t.heap[b].ver) in vs
    ensures w.CONTINUE? && Room(ts0, max) ==> Room(ts, max)
    ensures Room(ts0, max) && max > 0 ==> |ts| <= max
    ensures w.END? && Room(ts, max) ==> Reaches(s, q, b)
    ensures Room(ts0, max) && !Room(ts, max) ==> LastHere(s, q, b, ts)
  {
    hide Shape, Treelike, Agrees, Counted, ValuesCounted, GravesFit, Progress, LayerRoot, Fronted, Reaches, LastHere, Logs, LogUpTo, NodeHolds;
    assert s.h == t.heap;
    hide Widened;
    var took;
    w, took, ts, add := ScanValue(t, b, i, q, max, ts0, s, n, pre, add0);
    pushed, vs, log := pushed0, vs0, log0;
    if took || (w.END? && !pushed0) {
      LogOne(t.Now(), s, q.pfx, add0, add, took, log0, b, pushed0, Ord(t.heap[b].entries[i].key) + 1);
      pushed, vs, log := true, vs0 + [(b, t.heap[b].ver)], log0 + [(b, t.heap[b].ver)];
    }
  }

  lemma AllDone(s: Snap, m: Content, n: NodeId, q: Query, ts: Tuples, b: NodeId, open: bool, log: Records, pushed: bool)
    requires Shape(s, NULL, NULL) && Agrees(s, m) && InBorder(s, q, n, b)
    requires Progress(m, q, ts, Mark(s, b, |s.h[b].entries|), open)
    requires LogUpTo(s, q.pfx, log, b, pushed, Mark(s, b, |s.h[b].entries|))
    ensures var c := s.h[b].next;
            if c == NULL then Progress(m, q, ts, TOP, open) && Reaches(s, q, b)
            else InBorder(s, q, n, c) && Of(s, b).lo < Of(s, c).lo && Progress(m, q, ts, Of(s, c).lo, open)
                 && LogUpTo(s, q.pfx, log, c, false, Of(s, c).lo)
  {
    hide Progress, LogUpTo;
    Crossed(s, m, n, q, ts, b, open);
    if s.h[b].next != NULL {
      MarkBefore(s, b);
      LogNext(s, q.pfx, log, b, pushed, Mark(s, b, |s.h[b].entries|), s.h[b].next);
    }
  }

  lemma MarkBefore(s: Snap, b: NodeId)
    requires Shape(s, NULL, NULL) && b in s.h && s.h[b].Border? && s.h[b].next != NULL
    ensures Mark(s, b, |s.h[b].entries|) <= Of(s, s.h[b].next).lo
  {
    var n := |s.h[b].entries|;
    assert ChainAt(s, b) && BorderAt(s, NULL, b);
    if n > 0 {
      assert EntryAt(s, NULL, b, s.h[b].entries[n - 1]);
    }
  }

  /** Entry `i` of the border, whatever it holds. */
  method ScanSlot(t: Tree, b: NodeId, i: nat, q: Query, max: nat, ts0: Tuples, vs0: Records, pushed0: bool,
                  ghost s: Snap, ghost n: NodeId, ghost depth: nat, ghost pre: Tuples, ghost add0: Tuples,
                  ghost preLog: Records, ghost log0: Records)
    returns (w: Turn, pushed: bool, ts: Tuples, vs: Records, ghost add: Tuples, ghost log: Records)
    requires Ground(t, s, depth) && InBorder(s, q, n, b) && ts0 == pre + add0 && vs0 == preLog + log0
    requires i < |t.heap[b].entries| && q.from <= Of(s, b).lo
    requires Progress(t.content, q, add0, Mark(s, b, i), Room(ts0, max)) && Fronted(t.content, q, pre, add0, max)
    requires Logs(t.Now(), add0, log0) && LogUpTo(s, q.pfx, log0, b, pushed0, Mark(s, b, i))
    requires pushed0 ==> (b, t.heap[b].ver) in vs0
    ensures ts == pre + add && vs == preLog + log && vs0 <= vs
    ensures Progress(t.content, q, add, if w.END? then TOP else Mark(s, b, i + 1), Room(ts, max))
    ensures Fronted(t.content, q, pre, add, max)
    ensures Logs(t.Now(), add, log) && LogUpTo(s, q.pfx, log, b, pushed, Mark(s, b, i + 1)) && LogWithin(s, q.pfx, log)
    ensures pushed || (w.END? && Flat(t.heap)) ==> (b, t.heap[b].ver) in vs
    ensures Flat(t.heap) && Room(ts0, max) ==>
              (w.CONTINUE? ==> Room(ts, max)) && (max > 0 ==> |ts| <= max) && (w.END? && Room(ts, max) ==> Reaches(s, q, b))
              && (!Room(ts, max) ==> w.END? && LastHere(s, q, b, ts))
    decreases depth - |q.pfx|, 1
  {
    hide Shape, Treelike, Agrees, Counted, ValuesCounted, GravesFit, Progress, LayerRoot, Fronted, Reaches, LastHere, Flat;
    hide Logs, LogUpTo, LogWithin, Mark, NodeHolds, Bar;
    ghost var m := t.content;
    ghost var o := Ord(t.heap[b].entries[i].key);
    ShapeTree(s);
    AgreesStill(t.Now(), s, m);
    Reached(s, m, n, q, add0, b, i, Room(ts0, max));
    EntryShape(s, b, i);
    MarkOn(s, b, i);
    if t.heap[b].entries[i].key.len > SLICE {
      LogLater(s, q.pfx, log0, b, pushed0, Mark(s, b, i), pushed0, o);
      LinkNotFlat(t.heap, b, i);
      pushed := pushed0;
      w, ts, vs, add, log := ScanLink(t, b, i, q, max, ts0, vs0, s, n, depth, pre, add0, preLog, log0, pushed);
    } else {
      LogLater(s, q.pfx, log0, b, pushed0, Mark(s, b, i), pushed0, o + 1);
      w, pushed, ts, vs, add, log := ScanEntry(t, b, i, q, max, ts0, vs0, pushed0, s, n, pre, add0, preLog, log0);
    }
    LogIsWithin(s, q.pfx, log, b, pushed, o + 1);
  }

  /** The entries of one border in rank order, then its successor. */
  method ScanBorder(t: Tree, b: NodeId, q: Query, max: nat, ts0: Tuples, vs0: Records,
                    ghost s: Snap, ghost n: NodeId, ghost depth: nat, ghost pre: Tuples, ghost add0: Tuples,
                    ghost preLog: Records, ghost log0: Records)
    returns (w: Turn, ts: Tuples, vs: Records, ghost add: Tuples, ghost log: Records)
    requires Ground(t, s, depth) && InBorder(s, q, n, b) && ts0 == pre + add0 && vs0 == preLog + log0
    requires Progress(t.content, q, add0, Of(s, b).lo, Room(ts0, max)) && q.from <= Of(s, b).lo
    requires Fronted(t.content, q, pre, add0, max) && Logs(t.Now(), add0, log0)
    requires LogUpTo(s, q.pfx, log0, b, false, Of(s, b).lo)
    ensures ts == pre + add && vs == preLog + log && vs0 <= vs && (Flat(t.heap) ==> (b, t.heap[b].ver) in vs)
    ensures Fronted(t.content, q, pre, add, max) && Logs(t.Now(), add, log) && LogWithin(s, q.pfx, log)
    ensures w.CONTINUE? ==>
              && var c := t.heap[b].next;
              && c != NULL && InBorder(s, q, n, c) && Of(s, b).lo < Of(s, c).lo
              && Progress(t.content, q, add, Of(s, c).lo, Room(ts, max)) && LogUpTo(s, q.pfx, log, c, false, Of(s, c).lo)
    ensures w.END? ==> Progress(t.content, q, add, TOP, Room(ts, max))
    ensures Flat(t.heap) && Room(ts0, max) ==>
              (w.CONTINUE? ==> Room(ts, max)) && (max > 0 ==> |ts| <= max) && (w.END? && Room(ts, max) ==> Reaches(s, q, b))
              && (!Room(ts, max) ==> w.END? && LastHere(s, q, b, ts))
    decreases depth - |q.pfx|, 2
  {
    ghost var m := t.content;
    assert Mark(s, b, 0) == Of(s, b).lo;
    assert Shape(s, NULL, NULL) && Agrees(s, m) by { GroundFacts(t, s, depth); }
    assert b in s.h && s.h[b].Border? && Of(s, b).pfx == q.pfx && t.Now().h == s.h == t.heap;
    hide Shape, Agrees, Progress, LayerRoot, Fronted, Reaches, LastHere, Flat, Ground, InBorder, Of, Tree.Valid, Tree.Now;
    hide Logs, LogUpTo, LogWithin, Recorded, Mark, NodeHolds;
    w, ts, vs, add, log := CONTINUE, ts0, vs0, add0, log0;
    var pushed := false;
    for i := 0 to |t.heap[b].entries|
      invariant ts == pre + add && vs == preLog + log && vs0 <= vs
      invariant pushed ==> (b, t.heap[b].ver) in vs
      invariant Progress(m, q, add, Mark(s, b, i), Room(ts, max)) && Fronted(m, q, pre, add, max)
      invariant Logs(t.Now(), add, log) && LogUpTo(s, q.pfx, log, b, pushed, Mark(s, b, i))
      invariant Flat(t.heap) && Room(ts0, max) ==> Room(ts, max)
    {
      w, pushed, ts, vs, add, log := ScanSlot(t, b, i, q, max, ts, vs, pushed, s, n, depth, pre, add, preLog, log);
      if w.END? {
        return;
      }
    }
    vs, log := RecordBarren(t, b, pushed, vs, s, q.pfx, add, preLog, log, Mark(s, b, |t.heap[b].entries|));
    w := if t.heap[b].next == NULL then END else CONTINUE;
    LeaveBorder(s, m, n, q, add, b, Room(ts, max), log);
  }

  /** A border that delivered nothing is recorded all the same. */
  method RecordBarren(t: Tree, b: NodeId, pushed: bool, vs0: Records, ghost s: Snap, ghost pfx: Key,
                      ghost add: Tuples, ghost preLog: Records, ghost log0: Records, ghost o: int)
    returns (vs: Records, ghost log: Records)
    requires b in t.heap && t.heap[b].Border? && Of(s, b).pfx == pfx && vs0 == preLog + log0
    requires Logs(t.Now(), add, log0) && LogUpTo(s, pfx, log0, b, pushed, o) && (pushed ==> (b, t.heap[b].ver) in vs0)
    ensures vs == preLog + log && vs0 <= vs && (b, t.heap[b].ver) in vs
    ensures Logs(t.Now(), add, log) && LogUpTo(s, pfx, log, b, true, o)
  {
    hide Logs, LogUpTo;
    vs, log := vs0, log0;
    if !pushed {
      LogOne(t.Now(), s, pfx, add, add, false, log, b, pushed, o);
      vs, log := vs + [(b, t.heap[b].ver)], log + [(b, t.heap[b].ver)];
    }
  }

  lemma LeaveBorder(s: Snap, m: Content, n: NodeId, q: Query, ts: Tuples, b: NodeId, open: bool, log: Records)
    requires Shape(s, NULL, NULL) && Agrees(s, m) && InBorder(s, q, n, b)
    requires Progress(m, q, ts, Mark(s, b, |s.h[b].entries|), open)
    requires LogUpTo(s, q.pfx, log, b, true, Mark(s, b, |s.h[b].entries|))
    ensures LogWithin(s, q.pfx, log)
    ensures var c := s.h[b].next;
            if c == NULL then Progress(m, q, ts, TOP, open) && Reaches(s, q, b)
            else InBorder(s, q, n, c) && Of(s, b).lo < Of(s, c).lo && Progress(m, q, ts, Of(s, c).lo, open)
                 && LogUpTo(s, q.pfx, log, c, false, Of(s, c).lo)
  {
    LogIsWithin(s, q.pfx, log, b, true, Mark(s, b, |s.h[b].entries|));
    AllDone(s, m, n, q, ts, b, open, log, true);
  }

  lemma GroundFacts(t: Tree, s: Snap, depth: nat)
    requires Ground(t, s, depth)
    ensures Shape(s, NULL, NULL) && Agrees(s, t.content)
  {
    hide Shape, Agrees, Counted, ValuesCounted, GravesFit;
    AgreesStill(t.Now(), s, t.content);
  }

  lemma MarkOn(s: Snap, b: NodeId, i: nat)
    requires Treelike(s) && b in s.h && s.h[b].Border? && i < |s.h[b].entries|
    ensures Mark(s, b, i) <= Ord(s.h[b].entries[i].key) && Mark(s, b, i + 1) == Ord(s.h[b].entries[i].key) + 1
    ensures Bar(s, b, i) == Ord(s.h[b].entries[i].key)
  {
    MarkBelow(s, b, i);
  }

  lemma LogIsWithin(s: Snap, pfx: Key, log: Records, b: NodeId, pushed: bool, o: int)
    requires LogUpTo(s, pfx, log, b, pushed, o)
    ensures LogWithin(s, pfx, log)
  {
  }

  /** The record for a tuple just delivered from `b`, or for `b` without one. */
  lemma LogOne(now: Snap, s: Snap, pfx: Key, was: Tuples, add: Tuples, took: bool, log: Records, b: NodeId, pushed: bool, o: int)
    requires b in now.h && now.h[b].Border? && Of(s, b).pfx == pfx
    requires Logs(now, was, log) && LogUpTo(s, pfx, log, b, pushed, o) && (took || !pushed)
    requires if took then |add| == |was| + 1 && add[..|was|] == was && NodeHolds(now, b, add[|was|].0, add[|was|].1)
             else add == was
    ensures Logs(now, add, log + [(b, now.h[b].ver)]) && LogUpTo(s, pfx, log + [(b, now.h[b].ver)], b, true, o)
  {
    hide Logs, LogUpTo, Recorded, NodeHolds;
    LogOwn(s, pfx, log, b, pushed, o, now.h[b].ver);
    if took {
      LogTuple(now, was, log, b, add[|was|].0, add[|was|].1);
      assert add == was + [(add[|was|].0, add[|was|].1)];
    } else {
      LogBarren(now, was, log, b);
    }
  }

  /** An open left end comes with an empty left key; otherwise the key still picks the start border. */
  predicate Normal(q: Query) {
    q.le.INF? ==> q.l == []
  }

  // ---- one layer ----

  /** Every key of the interval is in the care of a border whose version was recorded. */
  ghost predicate Covers(s: Snap, q: Query, r: NodeId, vs: Records) {
    forall k :: InLayer(q.pfx, k) && FromLeft(k[|q.pfx|..], q.l, q.le) && ToRight(k, q.r, q.re) ==>
                  CaredFor(s, Route(s, r, OrdIn(q.pfx, k)), vs)
  }

  /** The same for the keys up to `last`. */
  ghost predicate CoversUpTo(s: Snap, q: Query, r: NodeId, last: Key, vs: Records) {
    forall k :: InLayer(q.pfx, k) && FromLeft(k[|q.pfx|..], q.l, q.le) && ToRight(k, q.r, q.re) && !KeyLess(last, k) ==>
                  CaredFor(s, Route(s, r, OrdIn(q.pfx, k)), vs)
  }

  ghost predicate CaredFor(s: Snap, b: NodeId, vs: Records) {
    b in s.h && (b, s.h[b].ver) in vs
  }

  /** Every border of the layer from `b0` up to but not including place `upto` has been recorded. */
  ghost predicate Seen(s: Snap, q: Query, b0: NodeId, upto: int, vs: Records) {
    b0 in s.h && forall c <- s.h :: s.h[c].Border? && Of(s, c).pfx == q.pfx && Of(s, b0).lo <= Of(s, c).lo < upto ==>
                                      CaredFor(s, c, vs)
  }

  /** Every border up to and including `b`, and all there are if `b` is the last. */
  ghost predicate SeenTo(s: Snap, q: Query, b0: NodeId, b: NodeId, vs: Records) {
    && b in s.h && s.h[b].Border? && Seen(s, q, b0, Of(s, b).lo + 1, vs)
    && (s.h[b].next == NULL ==> forall upto :: Seen(s, q, b0, upto, vs))
  }

  lemma NoneSeen(s: Snap, q: Query, b0: NodeId, vs: Records)
    requires b0 in s.h
    ensures Seen(s, q, b0, Of(s, b0).lo, vs)
  {
  }

  lemma SeenOne(s: Snap, q: Query, b0: NodeId, b: NodeId, vs: Records, vs': Records)
    requires Chains(s) && b in s.h && s.h[b].Border? && Of(s, b).pfx == q.pfx
    requires Seen(s, q, b0, Of(s, b).lo, vs) && vs <= vs' && (b, s.h[b].ver) in vs'
    ensures SeenTo(s, q, b0, b, vs') && (s.h[b].next != NULL ==> Seen(s, q, b0, Of(s, s.h[b].next).lo, vs'))
  {
    forall c | c in s.h && s.h[c].Border? && Of(s, c).pfx == q.pfx && Of(s, b0).lo <= Of(s, c).lo
      ensures Of(s, c).lo <= Of(s, b).lo ==> CaredFor(s, c, vs')
      ensures c != b && Of(s, b).lo < Of(s, c).lo ==> s.h[b].next != NULL && Of(s, s.h[b].next).lo <= Of(s, c).lo
    {
      if c != b {
        assert NextAt(s, b, c);
      }
    }
  }

  /** A border further left cannot care for a larger place. */
  lemma RoutesOrdered(s: Snap, r: NodeId, a: NodeId, o: int, o': int)
    requires Shape(s, NULL, NULL) && LayerRoot(s, r) && o <= o'
    requires a in s.h && s.h[a].Border? && Of(s, a).pfx == Of(s, r).pfx && InRange(s, a, o)
    ensures Of(s, a).lo <= Of(s, Route(s, r, o')).lo
  {
    hide Shape, Route;
    var s' := Extend(s, r, o');
    ShapeTree(s);
    ShapeTree(s');
    RouteBorder(s, r, o');
    var c := Route(s, r, o');
    var bound := Bound(s');
    if c != a && Of(s, c).lo < Of(s, a).lo {
      ShapeBefore(s, c, a);
      ShapeDomain(s);
      OrderStable(s, s', bound, c, a);
    }
  }

  lemma ShapeBefore(s: Snap, a: NodeId, c: NodeId)
    requires Shape(s, NULL, NULL) && a in s.h && s.h[a].Border? && c in s.h && s.h[c].Border?
    requires Of(s, a).pfx == Of(s, c).pfx && Of(s, a).lo < Of(s, c).lo
    ensures Of(s, a).hi < Of(s, c).lo
  {
    Before(s, a, c);
  }

  /** A border further right cannot care for a smaller place. */
  lemma RoutesBounded(s: Snap, r: NodeId, a: NodeId, o: int, o': int)
    requires Shape(s, NULL, NULL) && LayerRoot(s, r) && o' <= o
    requires a in s.h && s.h[a].Border? && Of(s, a).pfx == Of(s, r).pfx && InRange(s, a, o)
    ensures Of(s, Route(s, r, o')).lo <= Of(s, a).lo
  {
    hide Shape, Route;
    var s' := Extend(s, r, o');
    ShapeTree(s);
    ShapeTree(s');
    RouteBorder(s, r, o');
    var c := Route(s, r, o');
    var bound := Bound(s');
    if c != a && Of(s, a).lo < Of(s, c).lo {
      ShapeBefore(s, a, c);
      ShapeDomain(s);
      OrderStable(s, s', bound, a, c);
    }
  }

  /** A key before the right end point belongs no further right than an entry beyond it. */
  lemma BeforeBeyond(s: Snap, q: Query, r: NodeId, b: NodeId, i: nat, k: Key)
    requires Shape(s, NULL, NULL) && LayerRoot(s, r) && Of(s, r).pfx == q.pfx && Of(s, b).pfx == q.pfx
    requires b in s.h && s.h[b].Border? && i < |s.h[b].entries| && s.h[b].entries[i].key.len <= SLICE
    requires !ToRight(q.pfx + TupleBytes(s.h[b].entries[i].key), q.r, q.re)
    requires InLayer(q.pfx, k) && ToRight(k, q.r, q.re)
    ensures Of(s, Route(s, r, OrdIn(q.pfx, k))).lo <= Of(s, b).lo
  {
    hide Shape, Route;
    var e := s.h[b].entries[i];
    ShapeTree(s);
    EntryShape(s, b, i);
    EntryInRange(s, b, i);
    OneAtPlace(q.pfx, e.key, k);
    if OrdIn(q.pfx, k) > Ord(e.key) {
      LayerOrder(q.pfx, q.pfx + TupleBytes(e.key), k);
      RightMonotone(q.r, q.re, q.pfx + TupleBytes(e.key), k);
    }
    RoutesBounded(s, r, b, Ord(e.key), OrdIn(q.pfx, k));
  }

  lemma EntryInRange(s: Snap, b: NodeId, i: nat)
    requires Treelike(s) && b in s.h && s.h[b].Border? && i < |s.h[b].entries|
    ensures InRange(s, b, Ord(s.h[b].entries[i].key))
  {
    EntryFacts(s, NULL, b, i);
  }

  lemma CoverAll(s: Snap, q: Query, r: NodeId, b0: NodeId, len: nat, b: NodeId, vs: Records)
    requires Shape(s, NULL, NULL) && LayerRoot(s, r) && Of(s, r).pfx == q.pfx && Flat(s.h)
    requires len <= |q.l| && (q.le.INF? ==> q.l == [])
    requires InBorder(s, q, r, b0) && InRange(s, b0, Ord(Clamp(SliceOf(q.l), len)))
    requires InBorder(s, q, r, b) && Reaches(s, q, b)
    requires Seen(s, q, b0, Of(s, b).lo + 1, vs) && (s.h[b].next == NULL ==> forall upto :: Seen(s, q, b0, upto, vs))
    ensures Covers(s, q, r, vs)
  {
    hide Shape, Route;
    forall k | InLayer(q.pfx, k) && FromLeft(k[|q.pfx|..], q.l, q.le) && ToRight(k, q.r, q.re)
      ensures CaredFor(s, Route(s, r, OrdIn(q.pfx, k)), vs)
    {
      var o := OrdIn(q.pfx, k);
      var c := Route(s, r, o);
      StartBefore(q.l, q.le, len, k[|q.pfx|..]);
      RoutesOrdered(s, r, b0, Ord(Clamp(SliceOf(q.l), len)), o);
      ShapeTree(s);
      RouteBorder(s, r, o);
      if s.h[b].next == NULL {
        assert Seen(s, q, b0, Of(s, c).lo + 1, vs);
      } else {
        var i :| 0 <= i < |s.h[b].entries| && !ToRight(q.pfx + TupleBytes(s.h[b].entries[i].key), q.r, q.re);
        EntryShape(s, b, i);
        BeforeBeyond(s, q, r, b, i, k);
      }
    }
  }

  /** Every border responsible for a key of the interval up to the last one delivered has been recorded. */
  lemma CoverUpTo(s: Snap, q: Query, r: NodeId, b0: NodeId, len: nat, b: NodeId, ts: Tuples, vs: Records)
    requires Shape(s, NULL, NULL) && LayerRoot(s, r) && Of(s, r).pfx == q.pfx
    requires len <= |q.l| && (q.le.INF? ==> q.l == [])
    requires InBorder(s, q, r, b0) && InRange(s, b0, Ord(Clamp(SliceOf(q.l), len)))
    requires InBorder(s, q, r, b) && LastHere(s, q, b, ts)
    requires Seen(s, q, b0, Of(s, b).lo + 1, vs)
    ensures CoversUpTo(s, q, r, ts[|ts| - 1].0, vs)
  {
    hide Shape, Route;
    var last := ts[|ts| - 1].0;
    var i :| 0 <= i < |s.h[b].entries| && s.h[b].entries[i].key.len <= SLICE
             && last == q.pfx + TupleBytes(s.h[b].entries[i].key);
    forall k | InLayer(q.pfx, k) && FromLeft(k[|q.pfx|..], q.l, q.le) && ToRight(k, q.r, q.re) && !KeyLess(last, k)
      ensures CaredFor(s, Route(s, r, OrdIn(q.pfx, k)), vs)
    {
      var o := OrdIn(q.pfx, k);
      StartBefore(q.l, q.le, len, k[|q.pfx|..]);
      RoutesOrdered(s, r, b0, Ord(Clamp(SliceOf(q.l), len)), o);
      ShapeTree(s);
      RouteBorder(s, r, o);
      EntryShape(s, b, i);
      EntryInRange(s, b, i);
      OneAtPlace(q.pfx, s.h[b].entries[i].key, last);
      if o > Ord(s.h[b].entries[i].key) {
        LayerOrder(q.pfx, last, k);
      }
      RoutesBounded(s, r, b, Ord(s.h[b].entries[i].key), o);
    }
  }

  ghost function Lows(ns: set<NodeId>, s: Snap): (b: int)
    ensures forall n <- ns :: Of(s, n).lo < b
  {
    if ns == {} then 0
    else
      var n :| n in ns;
      var b := Lows(ns - {n}, s);
      if Of(s, n).lo < b then b else Of(s, n).lo + 1
  }

  lemma WidenedTwice(s: Snap, s1: Snap, s2: Snap)
    requires Widened(s, s1) && Widened(s1, s2)
    ensures Widened(s, s2)
  {
  }

  method ScanLayer(t: Tree, r: NodeId, q: Query, max: nat, ts0: Tuples, vs0: Records, ghost s: Snap, ghost depth: nat)
    returns (ts: Tuples, vs: Records, ghost add: Tuples, ghost low: int, ghost log: Records)
    requires Ground(t, s, depth) && LayerRoot(s, r) && Of(s, r).pfx == q.pfx
    requires !t.heap[r].ver.deleted
    ensures ts == ts0 + add && vs == vs0 + log
    ensures low <= Ord(Clamp(SliceOf(q.l), |q.l| % 256)) && LeftOut(s, q, StartOf(s, r, q), low)
    ensures Progress(t.content, q.(from := low), add, TOP, Room(ts, max)) && Fronted(t.content, q.(from := low), ts0, add, max)
    ensures Logs(t.Now(), add, log) && LogWithin(s, q.pfx, log)
    ensures Flat(t.heap) && Room(ts0, max) ==>
              (max > 0 ==> |ts| <= max) && (Room(ts, max) && Normal(q) ==> Covers(s, q, r, vs))
              && (!Room(ts, max) && Normal(q) ==> ts != [] && CoversUpTo(s, q, r, ts[|ts| - 1].0, vs))
    decreases depth - |q.pfx|, 3
  {
    hide Shape, Treelike, Agrees, Counted, ValuesCounted, GravesFit, Progress, Fronted, Reaches, Flat;
    hide Normal, LastHere, CoversUpTo, SeenTo;
    hide Seen, Covers, CaredFor, Route, Logs, LogUpTo, LogWithin, NodeHolds;
    ghost var m := t.content;
    ghost var len := |q.l| % 256;
    assert len <= |q.l|;
    ShapeTree(t.Now());
    var b := t.FindBorder(r, SliceOf(q.l), |q.l| % 256);
    ghost var s1 := LayerBegin(t.Now(), s, m, r, q, b, ts0, vs0, max);
    low := Of(s1, b).lo;
    var q1 := q.(from := low);
    ghost var b0, top := b, Lows(s1.h.Keys, s1);
    ts, vs, add, log := ts0, vs0, [], [];
    assert ts0 + [] == ts0 && vs0 + [] == vs0;
    hide InRange, Clamp, Ord, SliceOf, StartOf, LeftOut;
    while true
      invariant InBorder(s1, q1, r, b) && ts == ts0 + add && vs == vs0 + log && low <= Of(s1, b).lo
      invariant Progress(m, q1, add, Of(s1, b).lo, Room(ts, max)) && Fronted(m, q1, ts0, add, max)
      invariant Logs(t.Now(), add, log) && LogUpTo(s1, q1.pfx, log, b, false, Of(s1, b).lo)
      invariant Flat(t.heap) && Room(ts0, max) ==> Room(ts, max)
      invariant Flat(t.heap) ==> Seen(s1, q1, b0, Of(s1, b).lo, vs)
      decreases top - Of(s1, b).lo
    {
      ghost var vs1 := vs;
      var w;
      w, ts, vs, add, log := ScanBorder(t, b, q1, max, ts, vs, s1, r, depth, ts0, add, vs0, log);
      if Flat(t.heap) {
        ShapeChains(s1);
        SeenOne(s1, q1, b0, b, vs1, vs);
      }
      if w.END? {
        break;
      }
      b := t.heap[b].next;
    }
    LogWidened(s, s1, q.pfx, log);
    if Flat(t.heap) && Normal(q) {
      LayerCovered(s, s1, q, low, r, b0, len, b, ts, vs);
    }
  }

  lemma LayerStart(now: Snap, s: Snap, m: Content, q: Query, pre: Tuples, b: NodeId, low: int, max: nat)
    requires low == q.from == Of(s, b).lo
    ensures Progress(m, q, [], Of(s, b).lo, Room(pre, max)) && Fronted(m, q, pre, [], max)
    ensures Logs(now, [], []) && LogUpTo(s, q.pfx, [], b, false, Of(s, b).lo)
  {
    NothingBefore(m, q, low, Room(pre, max));
    FrontedStart(m, q, pre, max);
  }

  /** Everything holds at the start border, with its range widened to hold the start. */
  lemma LayerBegin(now: Snap, s: Snap, m: Content, r: NodeId, q: Query, b: NodeId, pre: Tuples, vs: Records, max: nat) returns (s1: Snap)
    requires Shape(s, NULL, NULL) && Widened(now, s) && LayerRoot(s, r) && Of(s, r).pfx == q.pfx
    requires b == Route(now, r, Ord(Clamp(SliceOf(q.l), |q.l| % 256)))
    ensures Shape(s1, NULL, NULL) && Widened(now, s1) && Widened(s, s1)
    ensures var low := Of(s1, b).lo; var q1 := q.(from := low);
            && InBorder(s1, q1, r, b) && InRange(s1, b, Ord(Clamp(SliceOf(q.l), |q.l| % 256)))
            && low <= Ord(Clamp(SliceOf(q.l), |q.l| % 256)) && LeftOut(s, q, StartOf(s, r, q), low)
            && Seen(s1, q1, b, low, vs)
            && Progress(m, q1, [], low, Room(pre, max)) && Fronted(m, q1, pre, [], max)
            && Logs(now, [], []) && LogUpTo(s1, q1.pfx, [], b, false, low)
  {
    hide Shape, Route, Progress, Fronted, Logs, LogUpTo, Seen, Ord, Clamp, LeftOut;
    s1 := Start(now, s, r, q, b, Ord(Clamp(SliceOf(q.l), |q.l| % 256)));
    var q1 := q.(from := Of(s1, b).lo);
    LeftOutAt(now, s, s1, r, q, b);
    NoneSeen(s1, q1, b, vs);
    LayerStart(now, s1, m, q1, pre, b, Of(s1, b).lo, max);
  }

  /** What the walk that ends in border `b` has recorded. */
  lemma LayerCovered(s: Snap, s1: Snap, q: Query, low: int, r: NodeId, b0: NodeId, len: nat, b: NodeId, ts: Tuples, vs: Records)
    requires Shape(s1, NULL, NULL) && Widened(s, s1) && LayerRoot(s1, r) && Of(s1, r).pfx == q.pfx && Flat(s1.h) && Normal(q)
    requires len <= |q.l| && var q1 := q.(from := low);
             && InBorder(s1, q1, r, b0) && InRange(s1, b0, Ord(Clamp(SliceOf(q.l), len))) && InBorder(s1, q1, r, b)
             && SeenTo(s1, q1, b0, b, vs)
    ensures Reaches(s1, q.(from := low), b) ==> Covers(s, q, r, vs)
    ensures LastHere(s1, q.(from := low), b, ts) ==> ts != [] && CoversUpTo(s, q, r, ts[|ts| - 1].0, vs)
  {
    var q1 := q.(from := low);
    assert LastHere(s1, q1, b, ts) ==> ts != [];
    hide Shape, Treelike, Seen, Covers, CoversUpTo, Flat, LayerRoot, Widened, Clamp, LastHere, Reaches, Ord;
    if Reaches(s1, q1, b) {
      CoverAll(s1, q1, r, b0, len, b, vs);
      CoversStill(s, s1, q, low, r, vs);
    }
    if LastHere(s1, q1, b, ts) {
      CoverUpTo(s1, q1, r, b0, len, b, ts, vs);
      CoversUpToStill(s, s1, q, low, r, ts, vs);
    }
  }

  lemma ShapeChains(s: Snap)
    requires Shape(s, NULL, NULL)
    ensures Chains(s)
  {
  }

  lemma CoversStill(s: Snap, s1: Snap, q: Query, low: int, r: NodeId, vs: Records)
    requires Widened(s, s1) && Covers(s1, q.(from := low), r, vs)
    ensures Covers(s, q, r, vs)
  {
    forall k | InLayer(q.pfx, k) && FromLeft(k[|q.pfx|..], q.l, q.le) && ToRight(k, q.r, q.re)
      ensures CaredFor(s, Route(s, r, OrdIn(q.pfx, k)), vs)
    {
      RouteSame(s, s1, r, OrdIn(q.pfx, k));
    }
  }

  lemma CoversUpToStill(s: Snap, s1: Snap, q: Query, low: int, r: NodeId, ts: Tuples, vs: Records)
    requires Widened(s, s1) && ts != [] && CoversUpTo(s1, q.(from := low), r, ts[|ts| - 1].0, vs)
    ensures CoversUpTo(s, q, r, ts[|ts| - 1].0, vs)
  {
    var last := ts[|ts| - 1].0;
    forall k | InLayer(q.pfx, k) && FromLeft(k[|q.pfx|..], q.l, q.le) && ToRight(k, q.r, q.re) && !KeyLess(last, k)
      ensures CaredFor(s, Route(s, r, OrdIn(q.pfx, k)), vs)
    {
      RouteSame(s, s1, r, OrdIn(q.pfx, k));
    }
  }

  /** The range of the border found with the shortened length can be widened to hold the start. */
  lemma Start(now: Snap, s: Snap, r: NodeId, q: Query, b: NodeId, o: int) returns (s1: Snap)
    requires Shape(s, NULL, NULL) && Widened(now, s) && LayerRoot(s, r) && Of(s, r).pfx == q.pfx
    requires b == Route(now, r, o)
    ensures Shape(s1, NULL, NULL) && Widened(now, s1) && Widened(s, s1)
    ensures InBorder(s1, q, r, b) && InRange(s1, b, o)
  {
    hide Shape, Route;
    RouteSame(now, s, r, o);
    s1 := Extend(s, r, o);
    WidenedTwice(now, s, s1);
    ShapeTree(s);
    RouteBorder(s, r, o);
  }

  lemma NothingBefore(m: Content, q: Query, o: int, open: bool)
    requires o <= q.from
    ensures Progress(m, q, [], o, open)
  {
  }

  /** Where a scan of a layer starts. */
  ghost function StartOf(s: Snap, r: NodeId, q: Query): NodeId {
    Route(s, r, Ord(Clamp(SliceOf(q.l), |q.l| % 256)))
  }

  /** Borders left of the start border end before `low`. */
  ghost predicate LeftOut(s: Snap, q: Query, b0: NodeId, low: int) {
    && b0 in s.h && low <= Of(s, b0).lo
    && forall c <- s.h :: s.h[c].Border? && Of(s, c).pfx == q.pfx && Of(s, c).lo < Of(s, b0).lo ==> Of(s, c).hi < low
  }

  lemma LeftOutAt(now: Snap, s: Snap, s1: Snap, r: NodeId, q: Query, b: NodeId)
    requires Shape(s, NULL, NULL) && Shape(s1, NULL, NULL) && Widened(now, s) && Widened(s, s1)
    requires InBorder(s1, q, r, b) && b == Route(now, r, Ord(Clamp(SliceOf(q.l), |q.l| % 256)))
    ensures b == StartOf(s, r, q) && LeftOut(s, q, b, Of(s1, b).lo)
  {
    hide Shape, Route;
    RouteSame(now, s, r, Ord(Clamp(SliceOf(q.l), |q.l| % 256)));
    ShapeDomain(s);
    ShapeTree(s1);
    var bound := Bound(s1);
    forall c | c in s.h && s.h[c].Border? && Of(s, c).pfx == q.pfx && Of(s, c).lo < Of(s, b).lo
      ensures Of(s, c).hi < Of(s1, b).lo
    {
      ShapeBefore(s, c, b);
      OrderStable(s, s1, bound, c, b);
    }
  }

  /** When the left key is cut off only by the left end, the start loses nothing. */
  lemma NormalStart(m: Content, q: Query, low: int, ts: Tuples, open: bool)
    requires Normal(q) && q.from == 0 && low <= Ord(Clamp(SliceOf(q.l), |q.l| % 256))
    requires Progress(m, q.(from := low), ts, TOP, open)
    ensures Progress(m, q, ts, TOP, open)
  {
    forall k
      ensures Wanted(m, q.(from := low), k) ==> Wanted(m, q, k)
      ensures Wanted(m, q, k) ==> Wanted(m, q.(from := low), k)
    {
      NormalStartAt(m, q, low, k);
    }
  }

  lemma NormalStartAt(m: Content, q: Query, low: int, k: Key)
    requires Normal(q) && q.from == 0 && low <= Ord(Clamp(SliceOf(q.l), |q.l| % 256))
    ensures Wanted(m, q.(from := low), k) <==> Wanted(m, q, k)
  {
    if Wanted(m, q, k) {
      StartBefore(q.l, q.le, |q.l| % 256, k[|q.pfx|..]);
    }
  }

  // ---- the scan ----

  predicate InInterval(k: Key, l: Key, le: End, r: Key, re: End) {
    FromLeft(k, l, le) && ToRight(k, r, re)
  }

  /** Exactly the entries of the map inside the interval, in ascending order of their keys. */
  ghost predicate IsFilter(m: Content, l: Key, le: End, r: Key, re: End, ts: Tuples) {
    && Ascending(ts)
    && (forall i :: 0 <= i < |ts| ==> ts[i].0 in m && m[ts[i].0] == ts[i].1 && InInterval(ts[i].0, l, le, r, re))
    && (forall k <- m :: InInterval(k, l, le, r, re) ==> Has(ts, k))
  }

  /** The first `max` entries of that list. */
  ghost predicate IsFront(m: Content, l: Key, le: End, r: Key, re: End, ts: Tuples, max: nat) {
    && max > 0 && |ts| == max && Ascending(ts)
    && (forall i :: 0 <= i < |ts| ==> ts[i].0 in m && m[ts[i].0] == ts[i].1 && InInterval(ts[i].0, l, le, r, re))
    && (forall k <- m :: InInterval(k, l, le, r, re) ==> Has(ts, k) || KeyLess(ts[max - 1].0, k))
  }

  /** Every key of the interval is in the care of a border whose version was recorded. */
  ghost predicate Guarded(s: Snap, l: Key, le: End, r: Key, re: End, vs: Records) {
    forall k :: InInterval(k, l, le, r, re) ==> CaredFor(s, Route(s, s.root, Ord(TupleOf(k))), vs)
  }

  /** The same for the keys up to the last one delivered. */
  ghost predicate GuardedUpTo(s: Snap, l: Key, le: End, r: Key, re: End, ts: Tuples, vs: Records) {
    ts != [] && forall k :: InInterval(k, l, le, r, re) && !KeyLess(ts[|ts| - 1].0, k) ==>
                              CaredFor(s, Route(s, s.root, Ord(TupleOf(k))), vs)
  }

  lemma TopQuery(l: Key, le: End, r: Key, re: End, k: Key)
    ensures InLayer([], k) && k[0..] == k && OrdIn([], k) == Ord(TupleOf(k))
  {
    assert k[0..] == k;
  }

  /** No key of the interval lies before `low`. */
  ghost predicate NoneMissed(m: Content, l: Key, le: End, r: Key, re: End, low: int) {
    forall k <- m :: InInterval(k, l, le, r, re) ==> low <= Ord(TupleOf(k))
  }

  /** What lies before `low` was not visited; the result is the filter exactly if nothing there is wanted. */
  lemma FilterDone(m: Content, l: Key, le: End, r: Key, re: End, low: int, ts: Tuples)
    requires Progress(m, Query([], l, le, r, re, low), ts, TOP, true)
    ensures IsFilter(m, l, le, r, re, ts) <==> NoneMissed(m, l, le, r, re, low)
  {
    SoundDone(m, l, le, r, re, low, ts);
    forall k | k in m && InInterval(k, l, le, r, re)
      ensures Has(ts, k) <==> low <= Ord(TupleOf(k))
    {
      TopQuery(l, le, r, re, k);
      OrdBound(TupleOf(k));
      if Has(ts, k) {
        var i :| 0 <= i < |ts| && ts[i].0 == k;
        assert Wanted(m, Query([], l, le, r, re, low), ts[i].0);
      }
    }
  }

  lemma SoundDone(m: Content, l: Key, le: End, r: Key, re: End, low: int, ts: Tuples)
    requires Sound(m, Query([], l, le, r, re, low), ts, TOP)
    ensures forall i :: 0 <= i < |ts| ==>
                          ts[i].0 in m && m[ts[i].0] == ts[i].1 && InInterval(ts[i].0, l, le, r, re)
  {
    forall i | 0 <= i < |ts|
      ensures InInterval(ts[i].0, l, le, r, re)
    {
      TopQuery(l, le, r, re, ts[i].0);
    }
  }

  /** When the limit was reached, the first `max` tuples are the front of the filter exactly if nothing
      before `low` is wanted. */
  lemma FrontDone(m: Content, l: Key, le: End, r: Key, re: End, low: int, ts: Tuples, max: nat)
    requires var q := Query([], l, le, r, re, low); Progress(m, q, ts, TOP, false) && Fronted(m, q, [], ts, max)
    requires !Room(ts, max)
    ensures IsFront(m, l, le, r, re, ts[..max], max) <==> NoneMissed(m, l, le, r, re, low)
  {
    hide *;
    var q := Query([], l, le, r, re, low);
    FrontOf(m, q, ts, max);
    var f := ts[..max];
    SoundDone(m, l, le, r, re, low, f);
    forall k | k in m && InInterval(k, l, le, r, re)
      ensures Has(f, k) || KeyLess(f[max - 1].0, k) <==> low <= Ord(TupleOf(k))
    {
      FrontHas(m, q, f, k);
    }
    FrontIs(m, l, le, r, re, low, f, max);
  }

  lemma FrontOf(m: Content, q: Query, ts: Tuples, max: nat)
    requires Progress(m, q, ts, TOP, false) && Fronted(m, q, [], ts, max) && !Room(ts, max)
    ensures 0 < max <= |ts| && Front(m, q, ts[..max]) && Sound(m, q, ts[..max], TOP) && Ascending(ts[..max])
  {
    hide Front, Wanted;
    assert [] + ts == ts;
    SoundFront(m, q, ts, TOP, max);
  }

  lemma FrontIs(m: Content, l: Key, le: End, r: Key, re: End, low: int, f: Tuples, max: nat)
    requires max > 0 && |f| == max && Ascending(f)
    requires forall i :: 0 <= i < |f| ==> f[i].0 in m && m[f[i].0] == f[i].1 && InInterval(f[i].0, l, le, r, re)
    requires forall k <- m :: InInterval(k, l, le, r, re) ==>
                                (Has(f, k) || KeyLess(f[max - 1].0, k) <==> low <= Ord(TupleOf(k)))
    ensures IsFront(m, l, le, r, re, f, max) <==> NoneMissed(m, l, le, r, re, low)
  {
    hide Ord, TupleOf, KeyLess, InInterval;
  }

  lemma FrontHas(m: Content, q: Query, f: Tuples, k: Key)
    requires q.pfx == [] && Front(m, q, f) && Sound(m, q, f, TOP) && k in m && InInterval(k, q.l, q.le, q.r, q.re)
    ensures Has(f, k) || KeyLess(f[|f| - 1].0, k) <==> q.from <= Ord(TupleOf(k))
  {
    var last := f[|f| - 1].0;
    TopQuery(q.l, q.le, q.r, q.re, k);
    SoundHas(m, q, f, k);
    if q.from <= Ord(TupleOf(k)) {
      assert Wanted(m, q, k);
    } else {
      LayerOrder([], k, last);
      KeyLessTotal(k, last);
    }
  }

  lemma SoundHas(m: Content, q: Query, f: Tuples, k: Key)
    requires Sound(m, q, f, TOP)
    ensures Has(f, k) ==> Wanted(m, q, k)
  {
  }

  lemma SoundFront(m: Content, q: Query, ts: Tuples, o: int, n: nat)
    requires Sound(m, q, ts, o) && Ascending(ts) && n <= |ts|
    ensures Sound(m, q, ts[..n], o) && Ascending(ts[..n])
  {
  }

  lemma GuardDone(s: Snap, l: Key, le: End, r: Key, re: End, vs: Records)
    requires Covers(s, Query([], l, le, r, re, 0), s.root, vs)
    ensures Guarded(s, l, le, r, re, vs)
  {
    forall k | InInterval(k, l, le, r, re)
      ensures CaredFor(s, Route(s, s.root, Ord(TupleOf(k))), vs)
    {
      TopQuery(l, le, r, re, k);
    }
  }

  lemma GuardUpToDone(s: Snap, l: Key, le: End, r: Key, re: End, ts: Tuples, vs: Records)
    requires ts != [] && CoversUpTo(s, Query([], l, le, r, re, 0), s.root, ts[|ts| - 1].0, vs)
    ensures GuardedUpTo(s, l, le, r, re, ts, vs)
  {
    forall k | InInterval(k, l, le, r, re) && !KeyLess(ts[|ts| - 1].0, k)
      ensures CaredFor(s, Route(s, s.root, Ord(TupleOf(k))), vs)
    {
      TopQuery(l, le, r, re, k);
    }
  }

  lemma GuardsDone(s: Snap, l: Key, le: End, r: Key, re: End, ts: Tuples, vs: Records)
    ensures Covers(s, Query([], l, le, r, re, 0), s.root, vs) ==> Guarded(s, l, le, r, re, vs)
    ensures ts != [] && CoversUpTo(s, Query([], l, le, r, re, 0), s.root, ts[|ts| - 1].0, vs) ==>
              GuardedUpTo(s, l, le, r, re, ts, vs)
  {
    hide Covers, CoversUpTo, Guarded, GuardedUpTo;
    if Covers(s, Query([], l, le, r, re, 0), s.root, vs) {
      GuardDone(s, l, le, r, re, vs);
    }
    if ts != [] && CoversUpTo(s, Query([], l, le, r, re, 0), s.root, ts[|ts| - 1].0, vs) {
      GuardUpToDone(s, l, le, r, re, ts, vs);
    }
  }

  ghost function Depths(ns: set<NodeId>, s: Snap): (b: nat)
    ensures forall n <- ns :: |Of(s, n).pfx| < b
  {
    if ns == {} then 0
    else
      var n :| n in ns;
      var b := Depths(ns - {n}, s);
      if |Of(s, n).pfx| < b then b else |Of(s, n).pfx| + 1
  }

  /** A scan of the whole tree; `ts0` and `vs0` are what the output vectors hold before the call. */
  method Scan(t: Tree, l: Key, le: End, r: Key, re: End, max: nat, ts0: Tuples, vs0: Records)
    returns (st: Status, ts: Tuples, vs: Records)
    requires t.Valid()
    ensures l == r && (le.EXCLUSIVE? || re.EXCLUSIVE?) ==> st == ERR_BAD_USAGE && ts == ts0 && vs == vs0
    ensures !(l == r && (le.EXCLUSIVE? || re.EXCLUSIVE?)) && t.root == NULL ==>
              st == OK_ROOT_IS_NULL && ts == [] && vs == [] && t.content == map[]
    ensures !(l == r && (le.EXCLUSIVE? || re.EXCLUSIVE?)) && t.root != NULL ==> st == OK
    ensures st == OK ==>
              Ascending(ts) && forall i :: 0 <= i < |ts| ==>
                ts[i].0 in t.content && t.content[ts[i].0] == ts[i].1 && InInterval(ts[i].0, l, le, r, re)
    ensures st == OK && Room(ts, max) ==> (IsFilter(t.content, l, le, r, re, ts) <==> StartHarmless(t.Now(), t.content, l, le, r, re))
    ensures st == OK && !Room(ts, max) ==>
              (IsFront(t.content, l, le, r, re, ts[..max], max) <==> StartHarmless(t.Now(), t.content, l, le, r, re))
    ensures st == OK && max > 0 && Flat(t.heap) ==> |ts| <= max
    ensures st == OK ==> Logs(t.Now(), ts, vs)
    ensures st == OK ==> forall j :: 0 <= j < |vs| ==> Genuine(t.Now(), vs[j])
    ensures st == OK ==> forall i :: 0 <= i < |ts| ==> HasRecord(t.Now(), vs, i, ts[i])
    ensures st == OK && (le.INF? ==> l == []) && Flat(t.heap) && Room(ts, max) ==> Guarded(t.Now(), l, le, r, re, vs)
    ensures st == OK && (le.INF? ==> l == []) && Flat(t.heap) && !Room(ts, max) ==> GuardedUpTo(t.Now(), l, le, r, re, ts, vs)
  {
    hide Shape, Agrees, Counted, ValuesCounted, GravesFit, IsFilter, IsFront, Guarded, Fronted, Covers, Flat;
    hide CoversUpTo, GuardedUpTo, InInterval, Ascending, Clamp, Ord, SliceOf, GravesKept, Reaches;
    hide LeftOut, StartOf, StartHarmless, Route, Progress, Logs, LogWithin, Genuine, HasRecord;
    if l == r && (le.EXCLUSIVE? || re.EXCLUSIVE?) {
      return ERR_BAD_USAGE, ts0, vs0;
    }
    if t.root == NULL {
      NothingStored(t.Now(), t.content);
      return OK_ROOT_IS_NULL, [], [];
    }
    ghost var s := t.Now();
    ghost var q := Query([], l, le, r, re, 0);
    ShapeTree(s);
    TopRoot(s);
    st := OK;
    if t.heap[t.root].ver.deleted {
      ts, vs := [], [(t.root, t.heap[t.root].ver)];
      EmptyTree(s, t.content, q, vs);
      EmptyDone(s, t.content, l, le, r, re, vs);
      GuardDone(s, l, le, r, re, vs);
      return;
    }
    ghost var add, low, log;
    ts, vs, add, low, log := ScanLayer(t, t.root, Query([], l, le, r, re, 0), max, [], [], s, Depths(s.h.Keys, s));
    assert ts == add && vs == log;
    Delivered(s, t.content, l, le, r, re, low, ts, max);
    LogsSay(s, ts, vs);
    GuardsDone(s, l, le, r, re, ts, vs);
  }

  /** What the delivery of the top layer means for the whole tree. */
  lemma Delivered(s: Snap, m: Content, l: Key, le: End, r: Key, re: End, low: int, ts: Tuples, max: nat)
    requires Shape(s, NULL, NULL) && Agrees(s, m) && s.root != NULL
    requires low <= Ord(Clamp(SliceOf(l), |l| % 256))
    requires LeftOut(s, Query([], l, le, r, re, 0), StartOf(s, s.root, Query([], l, le, r, re, 0)), low)
    requires var q := Query([], l, le, r, re, low); Progress(m, q, ts, TOP, Room(ts, max)) && Fronted(m, q, [], ts, max)
    ensures Ascending(ts)
    ensures forall i :: 0 <= i < |ts| ==>
                          ts[i].0 in m && m[ts[i].0] == ts[i].1 && InInterval(ts[i].0, l, le, r, re)
    ensures Room(ts, max) ==> (IsFilter(m, l, le, r, re, ts) <==> StartHarmless(s, m, l, le, r, re))
    ensures !Room(ts, max) ==> (IsFront(m, l, le, r, re, ts[..max], max) <==> StartHarmless(s, m, l, le, r, re))
  {
    hide Shape, Agrees, IsFilter, IsFront, Fronted, LeftOut, StartOf, StartHarmless, NoneMissed, Route, Full;
    SoundDone(m, l, le, r, re, low, ts);
    StartDecides(s, m, l, le, r, re, low);
    if Room(ts, max) {
      FilterDone(m, l, le, r, re, low, ts);
    } else {
      FrontDone(m, l, le, r, re, low, ts, max);
    }
  }

  lemma EmptyDone(s: Snap, m: Content, l: Key, le: End, r: Key, re: End, vs: Records)
    requires m == map[] && s.root in s.h && s.h[s.root].Border? && vs == [(s.root, s.h[s.root].ver)]
    ensures IsFilter(m, l, le, r, re, []) && StartHarmless(s, m, l, le, r, re)
    ensures Logs(s, [], vs) && Genuine(s, vs[0])
  {
    assert Logs(s, [], []);
    LogBarren(s, [], [], s.root);
    assert [] + vs == vs;
  }

  /** The start border loses nothing: the left end is closed or has no key, or the start border has no
      left neighbour, or the right end admits no key at all. */
  ghost predicate StartHarmless(s: Snap, m: Content, l: Key, le: End, r: Key, re: End) {
    var b := StartOf(s, s.root, Query([], l, le, r, re, 0));
    || (le.INF? ==> l == [])
    || (b in s.h && s.h[b].Border? && s.h[b].prev == NULL)
    || forall k <- m :: !ToRight(k, r, re)
  }

  /** Every key wanted lies at or after `low` exactly when the start is harmless. */
  lemma StartDecides(s: Snap, m: Content, l: Key, le: End, r: Key, re: End, low: int)
    requires Shape(s, NULL, NULL) && Agrees(s, m) && s.root != NULL
    requires low <= Ord(Clamp(SliceOf(l), |l| % 256))
    requires LeftOut(s, Query([], l, le, r, re, 0), StartOf(s, s.root, Query([], l, le, r, re, 0)), low)
    ensures StartHarmless(s, m, l, le, r, re) <==> NoneMissed(m, l, le, r, re, low)
  {
    hide Shape, Agrees, Route, ToRight, LeftOut, NoneMissed;
    var b := StartOf(s, s.root, Query([], l, le, r, re, 0));
    StartIsBorder(s, l, le, r, re);
    if le.INF? ==> l == [] {
      ClosedStart(m, l, le, r, re, low);
    } else if s.h[b].prev == NULL {
      FirstStart(s, m, l, le, r, re, b, low);
    } else {
      LaterStart(s, m, l, le, r, re, b, low);
    }
  }

  lemma StartIsBorder(s: Snap, l: Key, le: End, r: Key, re: End)
    requires Shape(s, NULL, NULL) && s.root != NULL
    ensures var b := StartOf(s, s.root, Query([], l, le, r, re, 0));
            b in s.h && s.h[b].Border? && Of(s, b).pfx == []
  {
    hide Shape, Route;
    ShapeTree(s);
    TopRoot(s);
    RouteBorder(s, s.root, Ord(Clamp(SliceOf(l), |l| % 256)));
  }

  lemma ClosedStart(m: Content, l: Key, le: End, r: Key, re: End, low: int)
    requires (le.INF? ==> l == []) && low <= Ord(Clamp(SliceOf(l), |l| % 256))
    ensures NoneMissed(m, l, le, r, re, low)
  {
    forall k | k in m && InInterval(k, l, le, r, re)
      ensures low <= Ord(TupleOf(k))
    {
      StartBefore(l, le, |l| % 256, k);
    }
  }

  lemma FirstStart(s: Snap, m: Content, l: Key, le: End, r: Key, re: End, b: NodeId, low: int)
    requires Shape(s, NULL, NULL) && Agrees(s, m) && s.root != NULL
    requires b in s.h && s.h[b].Border? && Of(s, b).pfx == [] && s.h[b].prev == NULL
    requires LeftOut(s, Query([], l, le, r, re, 0), b, low)
    ensures NoneMissed(m, l, le, r, re, low)
  {
    hide Shape, Agrees, ToRight;
    forall k | k in m && InInterval(k, l, le, r, re)
      ensures low <= Ord(TupleOf(k))
    {
      NothingLeft(s, m, b, low, k);
    }
  }

  lemma LaterStart(s: Snap, m: Content, l: Key, le: End, r: Key, re: End, b: NodeId, low: int)
    requires Shape(s, NULL, NULL) && Agrees(s, m) && s.root != NULL && le.INF?
    requires b in s.h && s.h[b].Border? && Of(s, b).pfx == [] && s.h[b].prev != NULL
    requires LeftOut(s, Query([], l, le, r, re, 0), b, low)
    ensures (forall k <- m :: !ToRight(k, r, re)) <==> NoneMissed(m, l, le, r, re, low)
  {
    hide Shape, Agrees, ToRight;
    if k0 :| k0 in m && ToRight(k0, r, re) {
      var k := Missed(s, m, b, low, l, r, re, k0);
      assert InInterval(k, l, le, r, re);
    }
  }

  /** With no border to the left of the start, no key is left of it. */
  lemma NothingLeft(s: Snap, m: Content, b: NodeId, low: int, k: Key)
    requires Shape(s, NULL, NULL) && Agrees(s, m) && s.root != NULL && k in m
    requires b in s.h && s.h[b].Border? && Of(s, b).pfx == [] && s.h[b].prev == NULL && low <= Of(s, b).lo
    ensures low <= Ord(TupleOf(k))
  {
    hide Shape, Agrees, Route;
    ShapeTree(s);
    ShapeDomain(s);
    ShapeChains(s);
    TopRoot(s);
    TopQuery([], INF, [], INF, k);
    var c, j := PlaceOf(s, m, s.root, k);
    if Of(s, c).lo < Of(s, b).lo {
      var i := ChainReaches(s, c, b);
      ChainAscends(s, c, i);
      WalkInHeap(s, c, i);
    }
  }

  lemma WalkInHeap(s: Snap, a: NodeId, j: nat)
    requires Domain(s) && Chains(s) && a in s.h && s.h[a].Border? && j > 0 && Walk(s, a, j) != NULL
    ensures Walk(s, a, j - 1) != NULL
  {
    NullWalk(s, 1);
    if j > 1 && Walk(s, a, j - 1) == NULL {
      WalkStays(s, a, j - 1);
    }
  }

  lemma {:induction false} WalkStays(s: Snap, a: NodeId, j: nat)
    requires NULL !in s.h && Walk(s, a, j) == NULL
    ensures Walk(s, a, j + 1) == NULL
    decreases j
  {
    if j > 0 && a in s.h && s.h[a].Border? {
      WalkStays(s, s.h[a].next, j - 1);
    }
  }

  /** With a border to the left of the start, and a key the right end admits, some wanted key is left
      of the start. */
  lemma Missed(s: Snap, m: Content, b: NodeId, low: int, l: Key, r: Key, re: End, k0: Key) returns (k: Key)
    requires Shape(s, NULL, NULL) && Agrees(s, m) && s.root != NULL && k0 in m && ToRight(k0, r, re)
    requires b in s.h && s.h[b].Border? && Of(s, b).pfx == [] && s.h[b].prev != NULL
    requires LeftOut(s, Query([], l, INF, r, re, 0), b, low)
    ensures k in m && ToRight(k, r, re) && Ord(TupleOf(k)) < low
  {
    hide Shape, Agrees, Route, ToRight;
    k := k0;
    if low <= Ord(TupleOf(k0)) {
      var a := s.h[b].prev;
      PrevFacts(s, b);
      k := SomeKey(s, m, Depths(s.h.Keys, s), a);
      TopQuery([], INF, [], INF, k);
      TopQuery([], INF, [], INF, k0);
      ShapeTree(s);
      EntryShape(s, a, 0);
      LayerOrder([], k, k0);
      RightKept(r, re, k, k0);
    }
  }

  lemma RightKept(r: Key, re: End, k: Key, k': Key)
    requires ToRight(k', r, re) && KeyLess(k, k')
    ensures ToRight(k, r, re)
  {
    if !ToRight(k, r, re) {
      RightMonotone(r, re, k, k');
    }
  }

  lemma PrevFacts(s: Snap, b: NodeId)
    requires Shape(s, NULL, NULL) && b in s.h && s.h[b].Border? && s.h[b].prev != NULL && Of(s, b).pfx == []
    ensures var a := s.h[b].prev;
            && a in s.h && s.h[a].Border? && Of(s, a).pfx == [] && Of(s, a).lo < Of(s, b).lo && s.h[a].entries != []
  {
    var a := s.h[b].prev;
    assert ChainAt(s, b) && ChainAt(s, a);
    assert BorderAt(s, NULL, a);
    TopIsAlone(s);
  }

  /** A border that is not empty leads to some key, through as many layers as it takes. */
  lemma {:induction false} SomeKey(s: Snap, m: Content, depth: nat, b: NodeId) returns (k: Key)
    requires Shape(s, NULL, NULL) && Agrees(s, m) && forall n <- s.h :: |Of(s, n).pfx| < depth
    requires b in s.h && s.h[b].Border? && s.h[b].entries != []
    ensures k in m && InLayer(Of(s, b).pfx, k) && OrdIn(Of(s, b).pfx, k) == Ord(s.h[b].entries[0].key)
    decreases depth - |Of(s, b).pfx|
  {
    hide Shape, Agrees, Route;
    ShapeTree(s);
    var e := s.h[b].entries[0];
    EntryShape(s, b, 0);
    if e.payload.Value? {
      k := Of(s, b).pfx + TupleBytes(e.key);
      ValueThere(s, m, b, 0);
      OneAtPlace(Of(s, b).pfx, e.key, k);
    } else {
      LinkFacts(s, b, 0);
      var r := e.payload.to;
      RouteBorder(s, r, 0);
      var c := Route(s, r, 0);
      LowerNotEmpty(s, c);
      k := SomeKey(s, m, depth, c);
      UpOne(Of(s, b).pfx, e.key, k);
    }
  }

  lemma ValueThere(s: Snap, m: Content, b: NodeId, i: nat)
    requires Agrees(s, m) && b in s.h && s.h[b].Border? && i < |s.h[b].entries| && s.h[b].entries[i].payload.Value?
    ensures Of(s, b).pfx + TupleBytes(s.h[b].entries[i].key) in m
  {
    var e := s.h[b].entries[i];
    var k := Of(s, b).pfx + TupleBytes(e.key);
    assert EntryHolds(Of(s, b).pfx, e, k, e.payload.val);
    assert NodeHolds(s, b, k, e.payload.val);
    StoredIn(s, m, k, e.payload.val);
  }

  lemma LowerNotEmpty(s: Snap, c: NodeId)
    requires Shape(s, NULL, NULL) && c in s.h && s.h[c].Border? && Of(s, c).pfx != []
    ensures s.h[c].entries != []
  {
    assert BorderAt(s, NULL, c) && ParentAt(s, c);
  }

  /** A key below a link has the place of the link in the layer above. */
  lemma UpOne(pfx: Key, t: KeyTuple, k: Key)
    requires Canonical(t) && t.len == LINK_LEN && InLayer(pfx + t.slice, k)
    ensures InLayer(pfx, k) && OrdIn(pfx, k) == Ord(t)
  {
    var x := k[|pfx + t.slice|..];
    assert k == pfx + t.slice + x;
    assert pfx == k[..|pfx|];
    assert k[|pfx|..] == t.slice + x;
    TupleOfLonger(t.slice, x);
  }

  /** An emptied top root border holds nothing, and every key is in its care. */
  lemma EmptyTree(s: Snap, m: Content, q: Query, vs: Records)
    requires Shape(s, NULL, NULL) && Agrees(s, m) && s.root in s.h && s.h[s.root].ver.deleted && q.pfx == []
    requires vs == [(s.root, s.h[s.root].ver)]
    ensures m == map[] && Covers(s, q, s.root, vs) && s.h[s.root].Border?
  {
    hide Covers, Shape, Agrees;
    EmptiedRoot(s);
    forall k
      ensures k !in m
    {
      NotThere(s, m, k);
    }
    EmptyCovers(s, q, vs);
  }

  lemma EmptiedRoot(s: Snap)
    requires Shape(s, NULL, NULL) && s.root in s.h && s.h[s.root].ver.deleted
    ensures s.h[s.root].Border? && s.h[s.root].entries == []
  {
    assert s.h[s.root].Border?;
    assert BorderAt(s, NULL, s.root);
  }

  lemma NotThere(s: Snap, m: Content, k: Key)
    requires Shape(s, NULL, NULL) && Agrees(s, m) && s.root in s.h && s.h[s.root].Border? && s.h[s.root].entries == []
    ensures k !in m
  {
    hide Shape, Agrees;
    if k in m {
      ShapeTree(s);
      ShapeDomain(s);
      TopRoot(s);
      var b, j := PlaceOf(s, m, s.root, k);
    }
  }

  lemma EmptyCovers(s: Snap, q: Query, vs: Records)
    requires s.root in s.h && s.h[s.root].Border? && vs == [(s.root, s.h[s.root].ver)]
    ensures Covers(s, q, s.root, vs)
  {
    forall k
      ensures CaredFor(s, Route(s, s.root, k), vs)
    {
    }
  }
}
