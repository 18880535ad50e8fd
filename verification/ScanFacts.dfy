/** What a scan has to deliver from one layer, and why walking its leaf chain delivers it. */
module ScanFacts {
  import opened Keys
  import opened Contents
  import opened Store
  import opened Routing
  import opened Widen
  import opened TreeFacts
  import opened Interval

  type Tuples = seq<(Key, Val)>

  /** A scan of the layer with prefix `pfx`; the left end point is cut to the layer, the right is whole.
      `from` is the place where the start border begins: what lies before it is never visited. */
  datatype Query = Query(pfx: Key, l: Key, le: End, r: Key, re: End, ghost from: int)

  predicate InLayer(pfx: Key, k: Key) {
    pfx <= k && (pfx != [] ==> |pfx| < |k|)
  }

  function OrdIn(pfx: Key, k: Key): int
    requires pfx <= k
  {
    Ord(TupleOf(k[|pfx|..]))
  }

  ghost predicate Wanted(m: Content, q: Query, k: Key) {
    k in m && InLayer(q.pfx, k) && q.from <= OrdIn(q.pfx, k) && FromLeft(k[|q.pfx|..], q.l, q.le) && ToRight(k, q.r, q.re)
  }

  predicate Has(ts: Tuples, k: Key) {
    exists i :: 0 <= i < |ts| && ts[i].0 == k
  }

  predicate Ascending(ts: Tuples) {
    forall i, j :: 0 <= i < j < |ts| ==> KeyLess(ts[i].0, ts[j].0)
  }

  /** Everything delivered is wanted, true to the map, and placed before `o` in the layer. */
  ghost predicate Sound(m: Content, q: Query, ts: Tuples, o: int) {
    forall i :: 0 <= i < |ts| ==>
                  Wanted(m, q, ts[i].0) && ts[i].1 == m[ts[i].0] && OrdIn(q.pfx, ts[i].0) < o
  }

  /** Everything wanted before `o` has been delivered. */
  ghost predicate Full(m: Content, q: Query, ts: Tuples, o: int) {
    forall k :: Wanted(m, q, k) && OrdIn(q.pfx, k) < o ==> Has(ts, k)
  }

  /** Beyond every place in a layer. */
  const TOP: int := 16 * 0x1_0000_0000_0000_0000

  lemma {:induction false} NumBound(s: seq<byte>, n: nat, b: nat)
    requires n <= |s| && b == Power(n)
    ensures Num(s, n) < b
  {
    if n > 0 {
      NumBound(s, n - 1, Power(n - 1));
    }
  }

  function Power(n: nat): nat {
    if n == 0 then 1 else 256 * Power(n - 1)
  }

  lemma OrdBound(t: KeyTuple)
    requires Canonical(t)
    ensures Ord(t) < TOP
  {
    assert Power(8) == 0x1_0000_0000_0000_0000 by {
      assert Power(2) == 0x1_0000;
      assert Power(4) == 0x1_0000_0000;
      assert Power(6) == 0x1_0000_0000_0000;
    }
    NumBound(t.slice, SLICE, Power(SLICE));
  }

  // ---- places ----

  /** A key of a layer sits in the border its tuple is routed to, under that tuple. */
  lemma PlaceOf(s: Snap, m: Content, n: NodeId, k: Key) returns (b: NodeId, j: nat)
    requires Treelike(s) && Agrees(s, m) && LayerRoot(s, n) && k in m && InLayer(Of(s, n).pfx, k)
    ensures var rest := k[|Of(s, n).pfx|..];
            && b == Route(s, n, Ord(TupleOf(rest)))
            && b in s.h && s.h[b].Border? && Of(s, b).pfx == Of(s, n).pfx
            && j < |s.h[b].entries| && s.h[b].entries[j].key == TupleOf(rest)
            && InRange(s, b, Ord(TupleOf(rest)))
  {
    var rest := k[|Of(s, n).pfx|..];
    assert Of(s, n).pfx + rest == k;
    InContent(s, m, k);
    var c :| NodeHolds(s, c, k, m[k]);
    var e :| e in s.h[c].entries && EntryHolds(Of(s, c).pfx, e, k, m[k]);
    var bound := Bound(s);
    PlaceOfKey(s, bound, n, rest, c, e, m[k]);
    b := Route(s, n, Ord(TupleOf(rest)));
    RouteBorder(s, n, Ord(TupleOf(rest)));
    j := Lookup(s.h[b].entries, TupleOf(rest));
    assert BorderAt(s, NULL, b) && EntryAt(s, NULL, b, s.h[b].entries[j]);
  }

  /** The layer of a link is the part of the layer above with its tuple. */
  lemma BelowLink(pfx: Key, slice: Key, k: Key)
    requires |slice| == SLICE && InLayer(pfx, k)
    ensures InLayer(pfx + slice, k) <==> TupleOf(k[|pfx|..]) == KeyTuple(slice, LINK_LEN)
  {
    var rest := k[|pfx|..];
    assert k == pfx + rest;
    if InLayer(pfx + slice, k) {
      var x := k[|pfx + slice|..];
      assert rest == slice + x;
      TupleOfLonger(slice, x);
    }
    if TupleOf(rest) == KeyTuple(slice, LINK_LEN) {
      assert rest[..SLICE] == TupleOf(rest).slice == slice;
      assert pfx + slice == k[..|pfx| + SLICE];
    }
  }

  /** Keys of a layer compare as their tuples do. */
  lemma LayerOrder(pfx: Key, a: Key, b: Key)
    requires InLayer(pfx, a) && InLayer(pfx, b) && OrdIn(pfx, a) < OrdIn(pfx, b)
    ensures KeyLess(a, b)
  {
    assert a == pfx + a[|pfx|..] && b == pfx + b[|pfx|..];
    KeyLessPrefix(pfx, a[|pfx|..], b[|pfx|..]);
    TupleOrderIsKeyOrder(a[|pfx|..], b[|pfx|..]);
  }

  // ---- delivering one more entry ----

  lemma AscendingConcat(pfx: Key, ts: Tuples, more: Tuples, o: int)
    requires Ascending(ts) && Ascending(more)
    requires forall i :: 0 <= i < |ts| ==> InLayer(pfx, ts[i].0) && OrdIn(pfx, ts[i].0) < o
    requires forall i :: 0 <= i < |more| ==> InLayer(pfx, more[i].0) && OrdIn(pfx, more[i].0) == o
    ensures Ascending(ts + more)
  {
    var all := ts + more;
    forall i, j | 0 <= i < j < |all|
      ensures KeyLess(all[i].0, all[j].0)
    {
      if i < |ts| <= j {
        LayerOrder(pfx, all[i].0, all[j].0);
      }
    }
  }

  /** The entry at `o` contributes exactly `more`. */
  ghost predicate Contributes(m: Content, q: Query, more: Tuples, o: int) {
    && Ascending(more)
    && (forall i :: 0 <= i < |more| ==>
                      Wanted(m, q, more[i].0) && more[i].1 == m[more[i].0] && OrdIn(q.pfx, more[i].0) == o)
  }

  ghost predicate Exhausts(m: Content, q: Query, more: Tuples, o: int) {
    forall k :: Wanted(m, q, k) && OrdIn(q.pfx, k) == o ==> Has(more, k)
  }

  lemma Deliver(m: Content, q: Query, ts: Tuples, more: Tuples, o: int)
    requires Sound(m, q, ts, o) && Ascending(ts) && Contributes(m, q, more, o)
    ensures Sound(m, q, ts + more, o + 1) && Ascending(ts + more)
  {
    AscendingConcat(q.pfx, ts, more, o);
  }

  lemma DeliverAll(m: Content, q: Query, ts: Tuples, more: Tuples, o: int)
    requires Full(m, q, ts, o) && Exhausts(m, q, more, o)
    ensures Full(m, q, ts + more, o + 1)
  {
    var all := ts + more;
    forall k | Wanted(m, q, k) && OrdIn(q.pfx, k) < o + 1
      ensures Has(all, k)
    {
      if OrdIn(q.pfx, k) < o {
        var i :| 0 <= i < |ts| && ts[i].0 == k;
        assert all[i].0 == k;
      } else {
        var i :| 0 <= i < |more| && more[i].0 == k;
        assert all[|ts| + i].0 == k;
      }
    }
  }

  /** The key of a value entry is the only key of the layer at its place. */
  lemma OneAtPlace(pfx: Key, t: KeyTuple, k: Key)
    requires Canonical(t) && t.len <= SLICE && (pfx != [] ==> t.len > 0)
    ensures InLayer(pfx, pfx + TupleBytes(t)) && (pfx + TupleBytes(t))[|pfx|..] == TupleBytes(t)
    ensures OrdIn(pfx, pfx + TupleBytes(t)) == Ord(t)
    ensures InLayer(pfx, k) && OrdIn(pfx, k) == Ord(t) ==> k == pfx + TupleBytes(t)
  {
    TupleOfBytes(t);
    if InLayer(pfx, k) && OrdIn(pfx, k) == Ord(t) {
      var rest := k[|pfx|..];
      OrdInjective(TupleOf(rest), t);
      TupleRoundTrip(rest);
      assert k == pfx + rest;
    }
  }

  lemma ValueContributes(s: Snap, m: Content, q: Query, b: NodeId, i: nat)
    requires Treelike(s) && Agrees(s, m) && b in s.h && s.h[b].Border? && Of(s, b).pfx == q.pfx
    requires i < |s.h[b].entries| && s.h[b].entries[i].payload.Value? && q.from <= Ord(s.h[b].entries[i].key)
    ensures var e := s.h[b].entries[i]; var k := q.pfx + TupleBytes(e.key);
            && k in m && m[k] == e.payload.val && OrdIn(q.pfx, k) == Ord(e.key)
            && (if FromLeft(TupleBytes(e.key), q.l, q.le) && ToRight(k, q.r, q.re)
                then Contributes(m, q, [(k, e.payload.val)], Ord(e.key)) && Exhausts(m, q, [(k, e.payload.val)], Ord(e.key))
                else Exhausts(m, q, [], Ord(e.key)))
  {
    var e := s.h[b].entries[i];
    var k := q.pfx + TupleBytes(e.key);
    EntryFacts(s, NULL, b, i);
    OneAtPlace(q.pfx, e.key, k);
    assert EntryHolds(q.pfx, e, k, e.payload.val);
    assert NodeHolds(s, b, k, e.payload.val);
    StoredIn(s, m, k, e.payload.val);
    forall l | Wanted(m, q, l) && OrdIn(q.pfx, l) == Ord(e.key)
      ensures l == k
    {
      OneAtPlace(q.pfx, e.key, l);
    }
    var one := [(k, e.payload.val)];
    assert one[0].0 == k;
  }

  /** What a sub-layer delivers is what its link contributes. */
  lemma LinkContributes(m: Content, q: Query, t: KeyTuple, lc: Cut, rc: Cut, more: Tuples)
    requires Canonical(t) && t.len == LINK_LEN && q.from <= Ord(t)
    requires lc == LeftCut(q.l, q.le, t.slice) && rc == RightCut(q.r, q.re, q.pfx + t.slice) && lc.Cut? && rc.Cut?
    requires var q' := Query(q.pfx + t.slice, lc.key, lc.end, rc.key, rc.end, 0);
             Sound(m, q', more, TOP) && Ascending(more)
    ensures Contributes(m, q, more, Ord(t))
  {
    var q' := Query(q.pfx + t.slice, lc.key, lc.end, rc.key, rc.end, 0);
    forall i | 0 <= i < |more|
      ensures Wanted(m, q, more[i].0) && OrdIn(q.pfx, more[i].0) == Ord(t)
    {
      WantedBelow(m, q, t, lc, rc, more[i].0);
    }
  }

  lemma LinkExhausts(m: Content, q: Query, t: KeyTuple, lc: Cut, rc: Cut, more: Tuples)
    requires Canonical(t) && t.len == LINK_LEN && q.from <= Ord(t)
    requires lc == LeftCut(q.l, q.le, t.slice) && rc == RightCut(q.r, q.re, q.pfx + t.slice) && lc.Cut? && rc.Cut?
    requires var q' := Query(q.pfx + t.slice, lc.key, lc.end, rc.key, rc.end, 0); Full(m, q', more, TOP)
    ensures Exhausts(m, q, more, Ord(t))
  {
    var q' := Query(q.pfx + t.slice, lc.key, lc.end, rc.key, rc.end, 0);
    forall k | Wanted(m, q, k) && OrdIn(q.pfx, k) == Ord(t)
      ensures Has(more, k)
    {
      OrdInjective(TupleOf(k[|q.pfx|..]), t);
      BelowLink(q.pfx, t.slice, k);
      WantedBelow(m, q, t, lc, rc, k);
      OrdBound(TupleOf(k[|q'.pfx|..]));
    }
  }

  lemma WantedBelow(m: Content, q: Query, t: KeyTuple, lc: Cut, rc: Cut, k: Key)
    requires Canonical(t) && t.len == LINK_LEN && q.from <= Ord(t) && InLayer(q.pfx + t.slice, k)
    requires lc == LeftCut(q.l, q.le, t.slice) && rc == RightCut(q.r, q.re, q.pfx + t.slice) && lc.Cut? && rc.Cut?
    ensures Wanted(m, q, k) <==> Wanted(m, Query(q.pfx + t.slice, lc.key, lc.end, rc.key, rc.end, 0), k)
    ensures InLayer(q.pfx, k) && OrdIn(q.pfx, k) == Ord(t)
  {
    var x := k[|q.pfx + t.slice|..];
    assert k == q.pfx + t.slice + x;
    assert q.pfx == k[..|q.pfx|];
    assert k[|q.pfx|..] == t.slice + x;
    TupleOfLonger(t.slice, x);
    LeftCutExactly(q.l, q.le, t.slice, x);
    RightCutExactly(q.r, q.re, q.pfx + t.slice, x);
  }

  /** A link before the left end point contributes nothing. */
  lemma LinkSkipped(m: Content, q: Query, t: KeyTuple)
    requires Canonical(t) && t.len == LINK_LEN && LeftCut(q.l, q.le, t.slice).Nothing?
    ensures Exhausts(m, q, [], Ord(t))
  {
    forall k | Wanted(m, q, k) && OrdIn(q.pfx, k) == Ord(t)
      ensures false
    {
      OrdInjective(TupleOf(k[|q.pfx|..]), t);
      BelowLink(q.pfx, t.slice, k);
      var x := k[|q.pfx + t.slice|..];
      assert k[|q.pfx|..] == t.slice + x;
      LeftCutExactly(q.l, q.le, t.slice, x);
    }
  }

  // ---- stopping ----

  /** Once an entry is beyond the right end point, everything wanted has been delivered. */
  lemma StopAtValue(m: Content, q: Query, ts: Tuples, t: KeyTuple)
    requires Full(m, q, ts, Ord(t)) && Canonical(t) && t.len <= SLICE && (q.pfx != [] ==> t.len > 0)
    requires !ToRight(q.pfx + TupleBytes(t), q.r, q.re)
    ensures Full(m, q, ts, TOP)
  {
    var k0 := q.pfx + TupleBytes(t);
    forall k | Wanted(m, q, k)
      ensures OrdIn(q.pfx, k) < Ord(t)
    {
      OneAtPlace(q.pfx, t, k);
      if OrdIn(q.pfx, k) > Ord(t) {
        LayerOrder(q.pfx, k0, k);
        RightMonotone(q.r, q.re, k0, k);
      }
    }
  }

  lemma StopAtLink(m: Content, q: Query, ts: Tuples, t: KeyTuple)
    requires Full(m, q, ts, Ord(t)) && Canonical(t) && t.len == LINK_LEN
    requires RightCut(q.r, q.re, q.pfx + t.slice).Nothing?
    ensures Full(m, q, ts, TOP)
  {
    forall k | Wanted(m, q, k)
      ensures OrdIn(q.pfx, k) < Ord(t)
    {
      if OrdIn(q.pfx, k) >= Ord(t) {
        AfterLink(q.pfx, t, k);
        RightCutStops(q.r, q.re, q.pfx + t.slice, k);
      }
    }
  }

  lemma AfterLink(pfx: Key, t: KeyTuple, k: Key)
    requires Canonical(t) && t.len == LINK_LEN && InLayer(pfx, k) && OrdIn(pfx, k) >= Ord(t)
    ensures KeyLess(pfx + t.slice, k)
  {
    var rest := k[|pfx|..];
    assert k == pfx + rest;
    assert TupleOf(t.slice) == KeyTuple(t.slice, SLICE);
    TupleOrderIsKeyOrder(t.slice, rest);
    KeyLessPrefix(pfx, t.slice, rest);
  }

  // ---- between entries and between borders ----

  /** The place after which entry `i` comes: the entry itself, or the end of the border. */
  ghost function Bar(s: Snap, b: NodeId, i: nat): int
    requires b in s.h && s.h[b].Border?
  {
    if i < |s.h[b].entries| then Ord(s.h[b].entries[i].key) else Of(s, b).hi + 1
  }

  /** Nothing of the layer lies in the range of a border but between two of its entries. */
  lemma Gap(s: Snap, m: Content, n: NodeId, b: NodeId, i: nat, k: Key)
    requires Treelike(s) && Agrees(s, m) && LayerRoot(s, n) && k in m && InLayer(Of(s, n).pfx, k)
    requires b in s.h && s.h[b].Border? && Of(s, b).pfx == Of(s, n).pfx && i <= |s.h[b].entries|
    requires Of(s, b).lo <= OrdIn(Of(s, n).pfx, k) < Bar(s, b, i)
    ensures i > 0 && OrdIn(Of(s, n).pfx, k) <= Ord(s.h[b].entries[i - 1].key)
  {
    var o := OrdIn(Of(s, n).pfx, k);
    assert BorderAt(s, NULL, b);
    assert i < |s.h[b].entries| ==> EntryAt(s, NULL, b, s.h[b].entries[i]);
    var c, j := PlaceOf(s, m, n, k);
    var bound := Bound(s);
    BorderUnique(s, bound, b, c, o);
  }

  lemma ToBar(s: Snap, m: Content, n: NodeId, q: Query, ts: Tuples, b: NodeId, i: nat)
    requires Treelike(s) && Agrees(s, m) && LayerRoot(s, n) && Of(s, n).pfx == q.pfx
    requires b in s.h && s.h[b].Border? && Of(s, b).pfx == q.pfx && i <= |s.h[b].entries|
    requires if i == 0 then Full(m, q, ts, Of(s, b).lo) else Full(m, q, ts, Ord(s.h[b].entries[i - 1].key) + 1)
    ensures Full(m, q, ts, Bar(s, b, i))
  {
    forall k | Wanted(m, q, k) && OrdIn(q.pfx, k) < Bar(s, b, i)
      ensures Has(ts, k)
    {
      if Of(s, b).lo <= OrdIn(q.pfx, k) {
        Gap(s, m, n, b, i, k);
      } else {
        assert i > 0 ==> EntryAt(s, NULL, b, s.h[b].entries[i - 1]) by { assert BorderAt(s, NULL, b); }
      }
    }
  }

  /** Between a border and its successor in the chain there is nothing. */
  lemma NextBorder(s: Snap, m: Content, n: NodeId, q: Query, ts: Tuples, b: NodeId)
    requires Shape(s, NULL, NULL) && Agrees(s, m) && LayerRoot(s, n) && Of(s, n).pfx == q.pfx
    requires b in s.h && s.h[b].Border? && Of(s, b).pfx == q.pfx && Full(m, q, ts, Of(s, b).hi + 1)
    ensures Full(m, q, ts, if s.h[b].next == NULL then TOP else Of(s, s.h[b].next).lo)
  {
    var o := if s.h[b].next == NULL then TOP else Of(s, s.h[b].next).lo;
    forall k | Wanted(m, q, k) && OrdIn(q.pfx, k) < o
      ensures Has(ts, k)
    {
      var c, j := PlaceOf(s, m, n, k);
      NotBeyond(s, b, c, OrdIn(q.pfx, k));
    }
  }

  lemma NotBeyond(s: Snap, b: NodeId, c: NodeId, o: int)
    requires Domain(s) && Chains(s) && b in s.h && s.h[b].Border? && c in s.h && s.h[c].Border?
    requires Of(s, c).pfx == Of(s, b).pfx && InRange(s, c, o)
    requires s.h[b].next != NULL ==> o < Of(s, s.h[b].next).lo
    ensures o <= Of(s, b).hi
  {
    if c != b {
      assert NextAt(s, b, c) && NextAt(s, c, b);
      if Of(s, c).lo < Of(s, b).lo {
        Before(s, c, b);
      }
    }
  }

  // ---- where to start ----

  /** The start border may be reached with a truncated length: it is the right one or one to its left. */
  lemma StartBefore(l: Key, le: End, len: nat, k: Key)
    requires FromLeft(k, l, le) && len <= |l| && (le.INF? ==> l == [])
    ensures Ord(Clamp(SliceOf(l), len)) <= Ord(TupleOf(k))
  {
    var c := Clamp(SliceOf(l), len);
    ClampBelow(l, len);
    TupleOrderIsKeyOrder(l, k);
    if le.INF? {
      assert |l| == 0 && len == 0;
      ClampEmpty(SliceOf(l), TupleOf(k));
    }
  }

  lemma ClampEmpty(slice: seq<byte>, t: KeyTuple)
    requires |slice| == SLICE && Canonical(t)
    ensures Ord(Clamp(slice, 0)) <= Ord(t)
  {
    var c := Clamp(slice, 0);
    MemcmpExtends(c.slice, t.slice, 0, SLICE);
    MemcmpNum(c.slice, t.slice, SLICE);
  }

  /** A shortened length routes like a prefix of the key. */
  lemma ClampBelow(l: Key, len: nat)
    requires len <= |l|
    ensures Ord(Clamp(SliceOf(l), len)) <= Ord(TupleOf(l))
  {
    var c, t := Clamp(SliceOf(l), len), TupleOf(l);
    MemcmpExtends(c.slice, t.slice, 0, SLICE);
    MemcmpNum(c.slice, t.slice, SLICE);
    if c.slice == t.slice {
      assert Num(c.slice, SLICE) == Num(t.slice, SLICE);
    }
  }
}
