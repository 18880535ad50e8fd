/** Scan intervals: what the end points mean, and the comparisons and cuts by which a scan applies them
    to one key slice at a time. */
module Interval {
  import opened Keys

  datatype End = INCLUSIVE | EXCLUSIVE | INF

  predicate FromLeft(k: Key, l: Key, le: End) {
    le.INF? || KeyLess(l, k) || (le.INCLUSIVE? && k == l)
  }

  predicate ToRight(k: Key, r: Key, re: End) {
    re.INF? || KeyLess(k, r) || (re.INCLUSIVE? && k == r)
  }

  // ---- the left end point ----

  /** A complete key with tuple `t` lies before the left end point. */
  predicate LeftSkips(l: Key, le: End, t: KeyTuple)
    requires |t.slice| == SLICE
  {
    var c := Memcmp(SliceOf(l), t.slice, SLICE);
    !le.INF? && (c > 0 || (c == 0 && (|l| > t.len || (|l| == t.len && le.EXCLUSIVE?))))
  }

  datatype Cut = Nothing | Cut(key: Key, end: End)

  /** The left end point handed to the layer below a link with slice `slice`. */
  function LeftCut(l: Key, le: End, slice: seq<byte>): Cut
    requires |slice| == SLICE
  {
    if le.INF? then Cut([], INF)
    else
      var c := Memcmp(SliceOf(l), slice, SLICE);
      if c < 0 then Cut([], INF)
      else if c == 0 then Cut(if |l| > SLICE then l[SLICE..] else [], le)
      else Nothing
  }

  /** The slice comparison decides unless the slices agree. */
  lemma SliceDecides(a: Key, b: Key)
    ensures Memcmp(SliceOf(a), SliceOf(b), SLICE) < 0 ==> KeyLess(a, b)
    ensures Memcmp(SliceOf(a), SliceOf(b), SLICE) > 0 ==> KeyLess(b, a)
  {
    TupleOrderIsKeyOrder(a, b);
    TupleOrderIsKeyOrder(b, a);
    MemcmpNum(SliceOf(a), SliceOf(b), SLICE);
  }

  /** Among keys of at most eight bytes with the same slice, the length decides. */
  lemma LengthDecides(a: Key, b: Key)
    requires SliceOf(a) == SliceOf(b) && |b| <= SLICE
    ensures |a| > |b| ==> KeyLess(b, a)
    ensures |a| < |b| ==> KeyLess(a, b)
    ensures |a| == |b| ==> a == b
  {
    TupleOrderIsKeyOrder(a, b);
    TupleOrderIsKeyOrder(b, a);
  }

  lemma LeftSkipsExactly(l: Key, le: End, t: KeyTuple)
    requires Canonical(t) && t.len <= SLICE
    ensures LeftSkips(l, le, t) <==> !FromLeft(TupleBytes(t), l, le)
  {
    var k := TupleBytes(t);
    TupleOfBytes(t);
    assert SliceOf(k) == t.slice && |k| == t.len;
    SliceDecides(l, k);
    MemcmpNum(SliceOf(l), t.slice, SLICE);
    assert SliceOf(l)[..SLICE] == SliceOf(l) && t.slice[..SLICE] == t.slice;
    if SliceOf(l) == t.slice {
      LengthDecides(l, k);
    }
    KeyLessTotal(l, k);
  }

  /** Below a link, the cut end point admits exactly what the whole end point admits. */
  lemma LeftCutExactly(l: Key, le: End, slice: seq<byte>, x: Key)
    requires |slice| == SLICE && x != []
    ensures match LeftCut(l, le, slice)
            case Nothing => !FromLeft(slice + x, l, le)
            case Cut(l', le') => FromLeft(slice + x, l, le) <==> FromLeft(x, l', le')
  {
    var k := slice + x;
    assert SliceOf(k) == slice;
    SliceDecides(l, k);
    MemcmpNum(SliceOf(l), slice, SLICE);
    assert SliceOf(l)[..SLICE] == SliceOf(l) && slice[..SLICE] == slice;
    KeyLessTotal(l, k);
    if !le.INF? && SliceOf(l) == slice {
      if |l| > SLICE {
        assert l == slice + l[SLICE..];
        KeyLessPrefix(slice, l[SLICE..], x);
        KeyLessTotal(l[SLICE..], x);
        if k == l {
          assert x == k[SLICE..] == l[SLICE..];
        }
      } else {
        LengthDecides(k, l);
      }
    }
  }

  // ---- the right end point ----

  /** The full key `full` does not lie beyond the right end point. */
  predicate RightTakes(r: Key, re: End, full: Key) {
    var c := Memcmp(r, full, Min(|r|, |full|));
    re.INF? || c > 0 || (c == 0 && (|r| > |full| || (|r| == |full| && re.INCLUSIVE?)))
  }

  /** The right end point handed below a link whose bytes complete the prefix `full`. */
  function RightCut(r: Key, re: End, full: Key): Cut {
    if re.INF? then Cut([], INF)
    else
      var c := Memcmp(r, full, Min(|r|, |full|));
      if c < 0 || (c == 0 && |r| <= |full|) then Nothing
      else if c == 0 then Cut(r, re)
      else Cut([], INF)
  }

  /** A proper prefix comes first. */
  lemma ShorterLess(a: Key, b: Key)
    ensures |a| < |b| ==> (KeyLess(a[|a|..], b[|a|..]) && !KeyLess(b[|a|..], a[|a|..]))
  {
  }

  lemma PrefixCompare(r: Key, full: Key)
    ensures var c := Memcmp(r, full, Min(|r|, |full|));
            && (c < 0 ==> KeyLess(r, full))
            && (c > 0 ==> KeyLess(full, r))
            && (c == 0 && |r| < |full| ==> KeyLess(r, full))
            && (c == 0 && |r| > |full| ==> KeyLess(full, r) && r == full + r[|full|..])
            && (c == 0 && |r| == |full| ==> r == full)
  {
    var n := Min(|r|, |full|);
    KeyLessMemcmp(r, full, n);
    MemcmpFlip(r, full, n);
    KeyLessMemcmp(full, r, n);
    MemcmpNum(r, full, n);
    hide Memcmp, Num, KeyLess;
    ShorterLess(r, full);
    ShorterLess(full, r);
    if r[..n] == full[..n] && |r| >= |full| {
      assert full[..n] == full;
      assert r == r[..n] + r[n..];
    }
  }

  lemma RightTakesExactly(r: Key, re: End, full: Key)
    ensures RightTakes(r, re, full) <==> ToRight(full, r, re)
  {
    PrefixCompare(r, full);
    KeyLessTotal(r, full);
  }

  /** Nothing after a key beyond the end point is admitted. */
  lemma RightMonotone(r: Key, re: End, k: Key, k': Key)
    requires !ToRight(k, r, re) && KeyLess(k, k')
    ensures !ToRight(k', r, re)
  {
    KeyLessTotal(k', r);
    KeyLessTotal(k, r);
    if KeyLess(k', r) {
      KeyLessTransitive(k, k', r);
    }
  }

  lemma RightCutExactly(r: Key, re: End, full: Key, x: Key)
    requires x != []
    ensures match RightCut(r, re, full)
            case Nothing => !ToRight(full + x, r, re)
            case Cut(r', re') => ToRight(full + x, r, re) <==> ToRight(full + x, r', re')
  {
    var k := full + x;
    PrefixCompare(r, full);
    assert full + [] == full;
    KeyLessPrefix(full, [], x);
    if RightCut(r, re, full).Nothing? {
      RightCutStops(r, re, full, k);
    } else if !re.INF? && Memcmp(r, full, Min(|r|, |full|)) > 0 {
      FirstDifference(full, x, r);
    }
  }

  /** When a link is beyond the end point, so is everything after its bytes. */
  lemma RightCutStops(r: Key, re: End, full: Key, k: Key)
    requires RightCut(r, re, full).Nothing? && KeyLess(full, k)
    ensures !ToRight(k, r, re)
  {
    PrefixCompare(r, full);
    if r != full {
      KeyLessTransitive(r, full, k);
    }
    KeyLessTotal(r, k);
  }

  /** A difference inside the common length is not undone by what follows. */
  lemma FirstDifference(full: Key, x: Key, r: Key)
    requires Memcmp(r, full, Min(|r|, |full|)) > 0
    ensures KeyLess(full + x, r)
  {
    var n := Min(|r|, |full|);
    MemcmpAppend(r, full, x, n);
    KeyLessMemcmp(r, full + x, n);
  }

  lemma {:induction false} MemcmpAppend(r: Key, full: Key, x: Key, n: nat)
    requires n <= |r| && n <= |full|
    ensures Memcmp(r, full + x, n) == Memcmp(r, full, n)
  {
    if n > 0 {
      MemcmpAppend(r, full, x, n - 1);
    }
  }
}
