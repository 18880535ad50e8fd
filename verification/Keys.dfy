/** Keys, key slices and the three ways the tree compares them.

    A key is a byte string.  Each layer of the tree looks at one slice of eight bytes; a shorter
    remainder is padded with zero bytes and its true length is kept beside it, and every remainder
    of more than eight bytes gets the length code 9.  Slices are kept as the bytes `memcmp` sees,
    so the model does not depend on the byte order of the machine. */
module Keys {

  type byte = x: int | 0 <= x < 256

  type Key = seq<byte>

  const SLICE: nat := 8

  const FANOUT: nat := 15

  const LINK_LEN: nat := 9

  datatype KeyTuple = KeyTuple(slice: seq<byte>, len: nat)

  /** What every stored tuple looks like: eight bytes, zero beyond the length. */
  predicate Canonical(t: KeyTuple) {
    && |t.slice| == SLICE
    && t.len <= LINK_LEN
    && forall i :: t.len <= i < SLICE ==> t.slice[i] == 0
  }

  function Min(a: nat, b: nat): nat {
    if a < b then a else b
  }

  /** The eight bytes a zeroed slice holds after copying in (at most eight bytes of) `k`. */
  function SliceOf(k: Key): (s: seq<byte>)
    ensures |s| == SLICE
  {
    seq(SLICE, i requires 0 <= i => if i < |k| then k[i] else 0)
  }

  /** The tuple the descent uses for the remaining key `k`. */
  function TupleOf(k: Key): (t: KeyTuple)
    ensures Canonical(t)
    ensures t.len == LINK_LEN <==> |k| > SLICE
    ensures |k| <= SLICE ==> t.len == |k|
  {
    KeyTuple(SliceOf(k), if |k| > SLICE then LINK_LEN else |k|)
  }

  /** The bytes a tuple contributes to a full key. */
  function TupleBytes(t: KeyTuple): Key {
    t.slice[..Min(t.len, |t.slice|)]
  }

  /** `memcmp` of the first `n` bytes: the first difference decides. */
  function Memcmp(a: seq<byte>, b: seq<byte>, n: nat): int
    requires n <= |a| && n <= |b|
  {
    if n == 0 then 0
    else
      var c: int := Memcmp(a, b, n - 1);
      if c != 0 then c else a[n - 1] as int - b[n - 1] as int
  }

  /** The first `n` bytes read as a number, most significant byte first. */
  function Num(s: seq<byte>, n: nat): nat
    requires n <= |s|
  {
    if n == 0 then 0 else 256 * Num(s, n - 1) + s[n - 1]
  }

  /** The position of a tuple in the order of its layer. */
  function Ord(t: KeyTuple): nat {
    16 * Num(t.slice, |t.slice|) + t.len
  }

  // ---- the three comparisons of the source ----

  datatype Cmp = Lt | Eq | Gt

  /** Lookup and rank computation in a border: all eight bytes, then the length. */
  function BorderCmp(a: KeyTuple, b: KeyTuple): Cmp
    requires |a.slice| == SLICE && |b.slice| == SLICE
  {
    if a.len == 0 && b.len == 0 then Eq
    else
      var c := Memcmp(a.slice, b.slice, SLICE);
      if c == 0 then
        if (a.len > SLICE && b.len > SLICE) || a.len == b.len then Eq
        else if a.len < b.len then Lt else Gt
      else if c < 0 then Lt else Gt
  }

  /** Routing and insertion in an interior node: the shorter length bounds the comparison. */
  predicate InteriorLess(slice: seq<byte>, len: nat, sep: KeyTuple)
    requires |slice| == SLICE && |sep.slice| == SLICE
  {
    var c := Memcmp(slice, sep.slice, Min(Min(len, sep.len), SLICE));
    c < 0 || (c == 0 && len < sep.len)
  }

  /** The test a border split makes to pick the half that takes the new key. */
  predicate SplitGoesLow(t: KeyTuple, front: KeyTuple, rank: nat, remaining: nat)
    requires |t.slice| == SLICE && |front.slice| == SLICE
  {
    var n := if t.len > SLICE && front.len > SLICE then SLICE else Min(Min(t.len, front.len), SLICE);
    var c := Memcmp(t.slice, front.slice, n);
    t.len == 0 || c < 0 || (c == 0 && t.len < front.len) || (c == 0 && rank < remaining)
  }

  // ---- one order ----

  lemma {:induction false} MemcmpNum(a: seq<byte>, b: seq<byte>, n: nat)
    requires n <= |a| && n <= |b|
    ensures Memcmp(a, b, n) < 0 <==> Num(a, n) < Num(b, n)
    ensures Memcmp(a, b, n) == 0 <==> Num(a, n) == Num(b, n)
    ensures Memcmp(a, b, n) == 0 <==> a[..n] == b[..n]
  {
    if n > 0 {
      MemcmpNum(a, b, n - 1);
      assert a[..n] == a[..n - 1] + [a[n - 1]] && b[..n] == b[..n - 1] + [b[n - 1]];
    }
  }

  /** Comparing more bytes never changes a decision already made. */
  lemma {:induction false} MemcmpExtends(a: seq<byte>, b: seq<byte>, m: nat, n: nat)
    requires m <= n <= |a| && n <= |b|
    ensures Memcmp(a, b, m) != 0 ==> Memcmp(a, b, n) == Memcmp(a, b, m)
    ensures Memcmp(a, b, m) == 0 && (forall i :: m <= i < n ==> a[i] <= b[i]) ==> Memcmp(a, b, n) <= 0
    decreases n
  {
    if m < n {
      MemcmpExtends(a, b, m, n - 1);
    }
  }

  lemma {:induction false} MemcmpFlip(a: seq<byte>, b: seq<byte>, n: nat)
    requires n <= |a| && n <= |b|
    ensures Memcmp(a, b, n) == -Memcmp(b, a, n)
  {
    if n > 0 {
      MemcmpFlip(a, b, n - 1);
    }
  }

  /** The order determines the tuple. */
  lemma OrdInjective(a: KeyTuple, b: KeyTuple)
    requires Canonical(a) && Canonical(b) && Ord(a) == Ord(b)
    ensures a == b
  {
    MemcmpNum(a.slice, b.slice, SLICE);
    assert a.slice[..SLICE] == a.slice && b.slice[..SLICE] == b.slice;
  }

  lemma BorderCmpIsOrder(a: KeyTuple, b: KeyTuple)
    requires Canonical(a) && Canonical(b)
    ensures BorderCmp(a, b) == Lt <==> Ord(a) < Ord(b)
    ensures BorderCmp(a, b) == Eq <==> a == b
    ensures BorderCmp(a, b) == Eq <==> Ord(a) == Ord(b)
  {
    MemcmpNum(a.slice, b.slice, SLICE);
    if Ord(a) == Ord(b) {
      OrdInjective(a, b);
    }
    if a.len == 0 && b.len == 0 {
      assert a.slice == b.slice;
    }
  }

  /** A raw length of any size routes like the canonical tuple of the bytes it covers. */
  function Clamp(slice: seq<byte>, len: nat): (t: KeyTuple)
    requires |slice| == SLICE
    ensures Canonical(t)
  {
    KeyTuple(seq(SLICE, i requires 0 <= i < SLICE => if i < len then slice[i] else 0), Min(len, LINK_LEN))
  }

  lemma ClampCanonical(t: KeyTuple)
    requires Canonical(t)
    ensures Clamp(t.slice, t.len) == t
  {
    assert Clamp(t.slice, t.len).slice == t.slice;
  }

  lemma {:induction false} MemcmpClamp(slice: seq<byte>, len: nat, b: seq<byte>, n: nat)
    requires |slice| == SLICE && |b| == SLICE && n <= len && n <= SLICE
    ensures Memcmp(slice, b, n) == Memcmp(Clamp(slice, len).slice, b, n)
  {
    if n > 0 {
      MemcmpClamp(slice, len, b, n - 1);
    }
  }

  lemma MinLengthCompare(a: KeyTuple, b: KeyTuple)
    requires Canonical(a) && Canonical(b)
    ensures
      var c := Memcmp(a.slice, b.slice, Min(Min(a.len, b.len), SLICE));
      (c < 0 || (c == 0 && a.len < b.len)) <==> Ord(a) < Ord(b)
  {
    var m := Min(Min(a.len, b.len), SLICE);
    MemcmpNum(a.slice, b.slice, SLICE);
    MemcmpExtends(a.slice, b.slice, m, SLICE);
    MemcmpExtends(b.slice, a.slice, m, SLICE);
    MemcmpFlip(a.slice, b.slice, m);
    MemcmpFlip(a.slice, b.slice, SLICE);
  }

  /** Interior routing decides the same order, whatever length the caller passes. */
  lemma InteriorLessIsOrder(slice: seq<byte>, len: nat, sep: KeyTuple)
    requires |slice| == SLICE && Canonical(sep)
    ensures InteriorLess(slice, len, sep) <==> Ord(Clamp(slice, len)) < Ord(sep)
  {
    var t := Clamp(slice, len);
    var m := Min(Min(len, sep.len), SLICE);
    assert Min(Min(t.len, sep.len), SLICE) == m;
    MemcmpClamp(slice, len, sep.slice, m);
    MinLengthCompare(t, sep);
  }

  /** The split test is the same order once the rank is the true rank of the key. */
  lemma SplitTestIsOrder(t: KeyTuple, front: KeyTuple, rank: nat, remaining: nat)
    requires Canonical(t) && Canonical(front) && front.len > 0
    requires Ord(t) != Ord(front)
    requires rank < remaining ==> Ord(t) < Ord(front)
    ensures SplitGoesLow(t, front, rank, remaining) <==> Ord(t) < Ord(front)
  {
    MinLengthCompare(t, front);
    MinLengthCompare(front, t);
    if t.len == 0 {
      MemcmpExtends(t.slice, front.slice, 0, SLICE);
      MemcmpNum(t.slice, front.slice, SLICE);
    }
  }

  // ---- agreement with the order of byte strings ----

  predicate KeyLess(a: Key, b: Key) {
    b != [] && (a == [] || a[0] < b[0] || (a[0] == b[0] && KeyLess(a[1..], b[1..])))
  }

  lemma {:induction false} KeyLessTotal(a: Key, b: Key)
    ensures a == b || KeyLess(a, b) || KeyLess(b, a)
    ensures !(KeyLess(a, b) && KeyLess(b, a))
    ensures !KeyLess(a, a)
  {
    if a != [] {
      KeyLessTotal(a[1..], a[1..]);
      if b != [] {
        KeyLessTotal(a[1..], b[1..]);
        if a[0] == b[0] && a[1..] == b[1..] {
          assert a == [a[0]] + a[1..] == b;
        }
      }
    }
  }

  lemma {:induction false} KeyLessTransitive(a: Key, b: Key, c: Key)
    requires KeyLess(a, b) && KeyLess(b, c)
    ensures KeyLess(a, c)
  {
    if a != [] && a[0] == b[0] == c[0] {
      KeyLessTransitive(a[1..], b[1..], c[1..]);
    }
  }

  /** Two keys with a common front compare as their tails do. */
  lemma {:induction false} KeyLessPrefix(p: Key, a: Key, b: Key)
    ensures KeyLess(p + a, p + b) <==> KeyLess(a, b)
  {
    if p == [] {
      assert p + a == a && p + b == b;
    } else {
      KeyLessPrefix(p[1..], a, b);
      assert (p + a)[1..] == p[1..] + a && (p + b)[1..] == p[1..] + b;
    }
  }

  /** Lexicographic comparison, read off `Memcmp` of `n` bytes both keys have. */
  lemma {:induction false} KeyLessMemcmp(a: Key, b: Key, n: nat)
    requires n <= |a| && n <= |b|
    ensures Memcmp(a, b, n) < 0 ==> KeyLess(a, b)
    ensures Memcmp(a, b, n) > 0 ==> KeyLess(b, a)
    ensures Memcmp(a, b, n) == 0 ==> (KeyLess(a, b) <==> KeyLess(a[n..], b[n..]))
  {
    if n > 0 {
      KeyLessMemcmp(a, b, n - 1);
      MemcmpNum(a, b, n - 1);
      if Memcmp(a, b, n - 1) == 0 {
        var p := a[..n - 1];
        assert a == p + a[n - 1..] && b == p + b[n - 1..];
        KeyLessPrefix(p, a[n - 1..], b[n - 1..]);
        KeyLessPrefix(p, b[n - 1..], a[n - 1..]);
        assert a[n - 1..][1..] == a[n..] && b[n - 1..][1..] == b[n..];
      }
    }
  }

  lemma MemcmpSlice(a: Key, b: Key, n: nat)
    requires n <= |a| && n <= |b| && n <= SLICE
    ensures Memcmp(SliceOf(a), SliceOf(b), n) == Memcmp(a, b, n)
  {
    if n > 0 {
      MemcmpSlice(a, b, n - 1);
    }
  }

  /** The layered order is the lexicographic order: the first slice decides, and two keys that
      share a link are ordered by what follows it. */
  lemma TupleOrderIsKeyOrder(a: Key, b: Key)
    ensures KeyLess(a, b) <==>
            Ord(TupleOf(a)) < Ord(TupleOf(b))
            || (TupleOf(a) == TupleOf(b) && |a| > SLICE && KeyLess(a[SLICE..], b[SLICE..]))
    ensures TupleOf(a) == TupleOf(b) && |a| <= SLICE ==> a == b
  {
    var ta, tb := TupleOf(a), TupleOf(b);
    var m := Min(Min(|a|, |b|), SLICE);
    MinLengthCompare(ta, tb);
    MinLengthCompare(tb, ta);
    MemcmpFlip(ta.slice, tb.slice, m);
    MemcmpSlice(a, b, m);
    KeyLessMemcmp(a, b, m);
    MemcmpNum(a, b, m);
    KeyLessTotal(a, b);
    if ta == tb {
      MemcmpNum(ta.slice, tb.slice, m);
      if |a| <= SLICE {
        assert a == a[..m] == b[..m] == b;
      }
    } else if Ord(ta) == Ord(tb) {
      OrdInjective(ta, tb);
    }
  }

  /** Cutting a key into its tuple and the rest loses nothing. */
  lemma TupleRoundTrip(k: Key)
    ensures TupleBytes(TupleOf(k)) + (if |k| > SLICE then k[SLICE..] else []) == k
  {
    var t := TupleOf(k);
    assert TupleBytes(t) == k[..Min(|k|, SLICE)];
  }

  lemma TupleOfBytes(t: KeyTuple)
    requires Canonical(t) && t.len <= SLICE
    ensures TupleOf(TupleBytes(t)) == t
  {
    assert TupleOf(TupleBytes(t)).slice == t.slice;
  }

  lemma TupleOfLonger(s: seq<byte>, k: Key)
    requires |s| == SLICE && k != []
    ensures TupleOf(s + k) == KeyTuple(s, LINK_LEN)
  {
    assert TupleOf(s + k).slice == s;
  }

  /** Two keys share a link exactly when both go on past eight bytes and agree on those. */
  lemma LinkShared(a: Key, b: Key)
    ensures TupleOf(a) == TupleOf(b) && TupleOf(a).len == LINK_LEN <==>
            |a| > SLICE && |b| > SLICE && a[..SLICE] == b[..SLICE]
  {
    if |a| > SLICE && |b| > SLICE {
      assert SliceOf(a) == a[..SLICE] && SliceOf(b) == b[..SLICE];
    }
  }
}
