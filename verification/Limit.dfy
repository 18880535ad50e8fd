/** Scans with a size limit: how far a delivery is complete, and what its first `max` tuples are. */
module ScanLimit {
  import opened Keys
  import opened Contents
  import opened Store
  import opened Interval
  import opened ScanFacts

  /** The limit has not been reached; 0 means that there is none. */
  predicate Room(ts: Tuples, max: nat) {
    max == 0 || |ts| < max
  }

  /** What has been delivered from a layer up to `o`; `open` while nothing cut the delivery short. */
  ghost predicate Progress(m: Content, q: Query, ts: Tuples, o: int, open: bool) {
    Sound(m, q, ts, o) && Ascending(ts) && (open ==> Full(m, q, ts, o))
  }

  /** Nothing wanted is left out up to the last key of `ts`. */
  ghost predicate Front(m: Content, q: Query, ts: Tuples) {
    && ts != [] && Wanted(m, q, ts[|ts| - 1].0)
    && forall k :: Wanted(m, q, k) && !KeyLess(ts[|ts| - 1].0, k) ==> Has(ts, k)
  }

  /** If the limit was reached within `add`, delivered after `pre`, nothing is left out up to that point. */
  ghost predicate Fronted(m: Content, q: Query, pre: Tuples, add: Tuples, max: nat) {
    Room(pre, max) && !Room(pre + add, max) ==> Front(m, q, add[..max - |pre|])
  }

  lemma FrontedStart(m: Content, q: Query, pre: Tuples, max: nat)
    ensures Fronted(m, q, pre, [], max)
  {
    assert pre + [] == pre;
  }

  /** One value more. */
  lemma FrontedValue(m: Content, q: Query, pre: Tuples, add: Tuples, x: (Key, Val), o: int, max: nat)
    requires Progress(m, q, add, o, Room(pre + add, max)) && Fronted(m, q, pre, add, max)
    requires Contributes(m, q, [x], o) && Exhausts(m, q, [x], o)
    ensures Fronted(m, q, pre, add + [x], max)
  {
    var add' := add + [x];
    if Room(pre, max) && !Room(pre + add', max) {
      if Room(pre + add, max) {
        assert add'[..max - |pre|] == add';
        assert [x][0] == x;
        DeliverAll(m, q, add, [x], o);
        forall k | Wanted(m, q, k) && !KeyLess(x.0, k)
          ensures Has(add', k)
        {
          if OrdIn(q.pfx, k) > o {
            LayerOrder(q.pfx, x.0, k);
          }
        }
      } else {
        assert add'[..max - |pre|] == add[..max - |pre|];
      }
    }
  }

  /** What the layer below a link delivered. */
  lemma FrontedLink(m: Content, q: Query, t: KeyTuple, lc: Cut, rc: Cut, pre: Tuples, add: Tuples, more: Tuples, max: nat)
    requires Canonical(t) && t.len == LINK_LEN && q.from <= Ord(t)
    requires lc == LeftCut(q.l, q.le, t.slice) && rc == RightCut(q.r, q.re, q.pfx + t.slice) && lc.Cut? && rc.Cut?
    requires Progress(m, q, add, Ord(t), Room(pre + add, max)) && Fronted(m, q, pre, add, max)
    requires Fronted(m, Query(q.pfx + t.slice, lc.key, lc.end, rc.key, rc.end, 0), pre + add, more, max)
    ensures Fronted(m, q, pre, add + more, max)
  {
    var q' := Query(q.pfx + t.slice, lc.key, lc.end, rc.key, rc.end, 0);
    if Room(pre, max) && !Room(pre + (add + more), max) {
      assert pre + add + more == pre + (add + more);
      if Room(pre + add, max) {
        var f := more[..max - |pre + add|];
        assert (add + more)[..max - |pre|] == add + f;
        FrontBelow(m, q, t, lc, rc, add, f);
      } else {
        assert (add + more)[..max - |pre|] == add[..max - |pre|];
      }
    }
  }

  lemma FrontBelow(m: Content, q: Query, t: KeyTuple, lc: Cut, rc: Cut, add: Tuples, f: Tuples)
    requires Canonical(t) && t.len == LINK_LEN && q.from <= Ord(t)
    requires lc == LeftCut(q.l, q.le, t.slice) && rc == RightCut(q.r, q.re, q.pfx + t.slice) && lc.Cut? && rc.Cut?
    requires Full(m, q, add, Ord(t)) && Front(m, Query(q.pfx + t.slice, lc.key, lc.end, rc.key, rc.end, 0), f)
    ensures Front(m, q, add + f)
  {
    var last := f[|f| - 1].0;
    assert (add + f)[|add + f| - 1] == f[|f| - 1];
    WantedBelow(m, q, t, lc, rc, last);
    forall k | Wanted(m, q, k) && !KeyLess(last, k)
      ensures Has(add + f, k)
    {
      if OrdIn(q.pfx, k) < Ord(t) {
        HasConcat(add, f, k);
      } else if OrdIn(q.pfx, k) > Ord(t) {
        LayerOrder(q.pfx, last, k);
      } else {
        OrdInjective(TupleOf(k[|q.pfx|..]), t);
        BelowLink(q.pfx, t.slice, k);
        WantedBelow(m, q, t, lc, rc, k);
        HasConcat(add, f, k);
      }
    }
  }

  lemma HasConcat(a: Tuples, b: Tuples, k: Key)
    requires Has(a, k) || Has(b, k)
    ensures Has(a + b, k)
  {
    if Has(a, k) {
      var i :| 0 <= i < |a| && a[i].0 == k;
      assert (a + b)[i].0 == k;
    } else {
      var i :| 0 <= i < |b| && b[i].0 == k;
      assert (a + b)[|a| + i].0 == k;
    }
  }

  /** Queries that want the same keys. */
  lemma FrontedAlike(m: Content, q: Query, q': Query, pre: Tuples, add: Tuples, max: nat)
    requires Fronted(m, q, pre, add, max) && forall k :: Wanted(m, q, k) <==> Wanted(m, q', k)
    ensures Fronted(m, q', pre, add, max)
  {
  }
}
