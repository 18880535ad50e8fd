/** The versions a scan records: one record per tuple it delivers, in the same order, naming the border
    that holds the tuple, and one record for a border it looked through without delivering anything. */
module ScanRecords {
  import opened Keys
  import opened Contents
  import opened Store
  import opened Widen
  import opened Interval
  import opened ScanFacts

  type Records = seq<(NodeId, Version)>

  /** The record is of a border of the tree, at its present version. */
  ghost predicate Genuine(s: Snap, r: (NodeId, Version)) {
    r.0 in s.h && s.h[r.0].Border? && r.1 == s.h[r.0].ver
  }

  predicate Recorded(vs: Records, b: NodeId) {
    exists j :: 0 <= j < |vs| && vs[j].0 == b
  }

  /** The records of a scan that delivered `ts`. */
  ghost predicate Logs(s: Snap, ts: Tuples, vs: Records)
    decreases |vs|
  {
    if vs == [] then ts == []
    else
      var n, k := |vs| - 1, |ts| - 1;
      Genuine(s, vs[n])
      && ((ts != [] && NodeHolds(s, vs[n].0, ts[k].0, ts[k].1) && Logs(s, ts[..k], vs[..n]))
          || (!Recorded(vs[..n], vs[n].0) && Logs(s, ts, vs[..n])))
  }

  lemma LogTuple(s: Snap, ts: Tuples, vs: Records, b: NodeId, k: Key, v: Val)
    requires Logs(s, ts, vs) && b in s.h && s.h[b].Border? && NodeHolds(s, b, k, v)
    ensures Logs(s, ts + [(k, v)], vs + [(b, s.h[b].ver)])
  {
    var ts', vs' := ts + [(k, v)], vs + [(b, s.h[b].ver)];
    assert vs'[..|vs|] == vs && ts'[..|ts|] == ts;
  }

  lemma LogBarren(s: Snap, ts: Tuples, vs: Records, b: NodeId)
    requires Logs(s, ts, vs) && b in s.h && s.h[b].Border? && !Recorded(vs, b)
    ensures Logs(s, ts, vs + [(b, s.h[b].ver)])
  {
    var vs' := vs + [(b, s.h[b].ver)];
    assert vs'[..|vs|] == vs;
  }

  lemma {:induction false} LogConcat(s: Snap, ts: Tuples, vs: Records, ts': Tuples, vs': Records)
    requires Logs(s, ts, vs) && Logs(s, ts', vs')
    requires forall j :: 0 <= j < |vs'| ==> !Recorded(vs, vs'[j].0)
    ensures Logs(s, ts + ts', vs + vs')
    decreases |vs'|
  {
    if vs' == [] {
      assert ts + ts' == ts && vs + vs' == vs;
    } else {
      var n, k := |vs'| - 1, |ts'| - 1;
      assert (vs + vs')[..|vs| + n] == vs + vs'[..n];
      if ts' != [] && NodeHolds(s, vs'[n].0, ts'[k].0, ts'[k].1) && Logs(s, ts'[..k], vs'[..n]) {
        assert (ts + ts')[..|ts| + k] == ts + ts'[..k];
        LogConcat(s, ts, vs, ts'[..k], vs'[..n]);
      } else {
        LogConcat(s, ts, vs, ts', vs'[..n]);
        NotRecorded(vs, vs'[..n], vs'[n].0);
      }
    }
  }

  lemma NotRecorded(vs: Records, vs': Records, b: NodeId)
    requires !Recorded(vs, b) && !Recorded(vs', b)
    ensures !Recorded(vs + vs', b)
  {
  }

  /** A record from place `i` on is of the border that holds the tuple. */
  ghost predicate HasRecord(s: Snap, vs: Records, i: nat, t: (Key, Val)) {
    exists j :: i <= j < |vs| && NodeHolds(s, vs[j].0, t.0, t.1)
  }

  lemma HasRecordStill(s: Snap, vs: Records, i: nat, t: (Key, Val), vs': Records)
    requires HasRecord(s, vs, i, t) && vs <= vs'
    ensures HasRecord(s, vs', i, t)
  {
    hide NodeHolds;
    var j :| i <= j < |vs| && NodeHolds(s, vs[j].0, t.0, t.1);
    assert vs'[j] == vs[j];
  }

  /** What the records say: each is of a border of the tree at its present version, and every tuple has
      the record of the border that holds it, no earlier than its own place. */
  lemma {:induction false} LogsSay(s: Snap, ts: Tuples, vs: Records)
    requires Logs(s, ts, vs)
    ensures |ts| <= |vs| && forall j :: 0 <= j < |vs| ==> Genuine(s, vs[j])
    ensures forall i :: 0 <= i < |ts| ==> HasRecord(s, vs, i, ts[i])
    decreases |vs|
  {
    hide HasRecord, Genuine;
    if vs != [] {
      var n, k := |vs| - 1, |ts| - 1;
      assert Genuine(s, vs[n]);
      if ts != [] && NodeHolds(s, vs[n].0, ts[k].0, ts[k].1) && Logs(s, ts[..k], vs[..n]) {
        LogsSay(s, ts[..k], vs[..n]);
        assert HasRecord(s, vs, k, ts[k]) by { LastRecord(s, vs, k, ts[k]); }
        forall i | 0 <= i < k
          ensures HasRecord(s, vs, i, ts[i])
        {
          assert ts[..k][i] == ts[i];
          HasRecordStill(s, vs[..n], i, ts[i], vs);
        }
      } else {
        LogsSay(s, ts, vs[..n]);
        forall i | 0 <= i < |ts|
          ensures HasRecord(s, vs, i, ts[i])
        {
          HasRecordStill(s, vs[..n], i, ts[i], vs);
        }
      }
    }
  }

  lemma LastRecord(s: Snap, vs: Records, i: nat, t: (Key, Val))
    requires i < |vs| && NodeHolds(s, vs[|vs| - 1].0, t.0, t.1)
    ensures HasRecord(s, vs, i, t)
  {
  }

  // ---- where the records of a layer lie ----

  /** The place of a recorded border in the layer with prefix `pfx`: its own, or that of the link above it. */
  ghost function RecordPlace(s: Snap, pfx: Key, c: NodeId): int {
    var p := Of(s, c).pfx;
    if p == pfx || |p| < |pfx| + SLICE then Of(s, c).lo else Ord(KeyTuple(p[|pfx|..|pfx| + SLICE], LINK_LEN))
  }

  /** All records are of borders in or below the layer. */
  ghost predicate LogWithin(s: Snap, pfx: Key, vs: Records) {
    forall j :: 0 <= j < |vs| ==> pfx <= Of(s, vs[j].0).pfx
  }

  /** While border `b` is looked through up to place `o`. */
  ghost predicate LogUpTo(s: Snap, pfx: Key, vs: Records, b: NodeId, pushed: bool, o: int) {
    LogWithin(s, pfx, vs)
    && forall j :: 0 <= j < |vs| ==> if vs[j].0 == b then pushed else RecordPlace(s, pfx, vs[j].0) < o
  }

  lemma LogLater(s: Snap, pfx: Key, vs: Records, b: NodeId, pushed: bool, o: int, pushed': bool, o': int)
    requires LogUpTo(s, pfx, vs, b, pushed, o) && o <= o' && (pushed ==> pushed')
    ensures LogUpTo(s, pfx, vs, b, pushed', o')
  {
  }

  lemma LogOwn(s: Snap, pfx: Key, vs: Records, b: NodeId, pushed: bool, o: int, v: Version)
    requires LogUpTo(s, pfx, vs, b, pushed, o) && Of(s, b).pfx == pfx
    ensures LogUpTo(s, pfx, vs + [(b, v)], b, true, o)
    ensures !pushed ==> !Recorded(vs, b)
  {
  }

  lemma LogNext(s: Snap, pfx: Key, vs: Records, b: NodeId, pushed: bool, o: int, c: NodeId)
    requires LogUpTo(s, pfx, vs, b, pushed, o) && Of(s, b).pfx == pfx && Of(s, c).pfx == pfx
    requires Of(s, b).lo < Of(s, c).lo && o <= Of(s, c).lo
    ensures LogUpTo(s, pfx, vs, c, false, Of(s, c).lo)
  {
  }

  /** What was recorded below a link is apart from what was recorded before it. */
  lemma LogLink(s: Snap, pfx: Key, vs: Records, b: NodeId, pushed: bool, slice: Key, more: Records)
    requires LogUpTo(s, pfx, vs, b, pushed, Ord(KeyTuple(slice, LINK_LEN))) && |slice| == SLICE && Of(s, b).pfx == pfx
    requires LogWithin(s, pfx + slice, more)
    ensures LogUpTo(s, pfx, vs + more, b, pushed, Ord(KeyTuple(slice, LINK_LEN)) + 1)
    ensures forall j :: 0 <= j < |more| ==> !Recorded(vs, more[j].0)
  {
    hide Ord;
    forall j | 0 <= j < |more|
      ensures pfx <= Of(s, more[j].0).pfx && more[j].0 != b
      ensures RecordPlace(s, pfx, more[j].0) == Ord(KeyTuple(slice, LINK_LEN))
    {
      var p := Of(s, more[j].0).pfx;
      assert p[..|pfx + slice|] == pfx + slice;
      assert p[..|pfx|] == pfx && p[|pfx|..|pfx| + SLICE] == slice;
    }
  }

  lemma LogWidened(s: Snap, s1: Snap, pfx: Key, vs: Records)
    requires Widened(s, s1) && LogWithin(s1, pfx, vs)
    ensures LogWithin(s, pfx, vs)
  {
  }
}
