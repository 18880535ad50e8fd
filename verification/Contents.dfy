/** What a node holds, in key order: the entries of a border and the separators and children of an
    interior node.  The classes of `BorderNode.dfy` and `InteriorNode.dfy` compute these functions
    slot by slot; the tree of `Tree.dfy` is built from them. */
module Contents {
  import opened Keys

  /** Nodes are named by identities that are never reused; 0 is the null pointer. */
  type NodeId = nat

  const NULL: NodeId := 0

  type Data = seq<byte>

  /** A stored value: kept in the slot itself, or allocated under an identity of its own. */
  datatype Val = Inline(data: Data) | Boxed(id: nat, data: Data)

  datatype Payload = Value(val: Val) | Link(to: NodeId)

  datatype Entry = Entry(key: KeyTuple, payload: Payload)

  // ---- borders ----

  predicate Sorted(es: seq<Entry>) {
    && (forall i :: 0 <= i < |es| ==> Canonical(es[i].key))
    && (forall i, j :: 0 <= i < j < |es| ==> Ord(es[i].key) < Ord(es[j].key))
  }

  /** The rank a new key would take: the number of smaller keys. */
  function Rank(es: seq<Entry>, o: int): (r: nat)
    ensures r <= |es|
    ensures forall i :: 0 <= i < r ==> Ord(es[i].key) < o || !Sorted(es)
    ensures forall i :: r <= i < |es| ==> o <= Ord(es[i].key)
  {
    if es == [] then 0
    else if Ord(es[|es| - 1].key) < o then |es|
    else Rank(es[..|es| - 1], o)
  }

  /** The index of the entry with tuple `t`, or the number of entries when there is none. */
  function Lookup(es: seq<Entry>, t: KeyTuple): (r: nat)
    ensures r <= |es|
    ensures r < |es| ==> es[r].key == t
    ensures r == |es| ==> forall i :: 0 <= i < |es| ==> es[i].key != t
  {
    if es == [] then 0
    else if es[0].key == t then 0
    else 1 + Lookup(es[1..], t)
  }

  function InsertAt<T>(s: seq<T>, i: nat, x: T): (r: seq<T>)
    requires i <= |s|
    ensures |r| == |s| + 1
  {
    seq(|s| + 1, j requires 0 <= j <= |s| => if j < i then s[j] else if j == i then x else s[j - 1])
  }

  function RemoveAt<T>(s: seq<T>, i: nat): (r: seq<T>)
    requires i < |s|
    ensures |r| == |s| - 1
  {
    seq(|s| - 1, j requires 0 <= j < |s| - 1 => if j < i then s[j] else s[j + 1])
  }

  lemma InsertSplits<T>(s: seq<T>, i: nat, x: T, k: nat)
    requires i <= |s| && k <= |s|
    ensures i <= k ==> InsertAt(s[..k], i, x) + s[k..] == InsertAt(s, i, x)
    ensures i >= k ==> s[..k] + InsertAt(s[k..], i - k, x) == InsertAt(s, i, x)
  {
  }

  lemma InsertKeepsSorted(es: seq<Entry>, e: Entry)
    requires Sorted(es) && Canonical(e.key)
    requires Lookup(es, e.key) == |es|
    ensures Sorted(InsertAt(es, Rank(es, Ord(e.key)), e))
  {
    var r := Rank(es, Ord(e.key));
    forall i | r <= i < |es|
      ensures Ord(e.key) < Ord(es[i].key)
    {
      if Ord(e.key) == Ord(es[i].key) {
        OrdInjective(e.key, es[i].key);
      }
    }
    InsertOrdered(es, r, e);
  }

  lemma InsertOrdered(es: seq<Entry>, r: nat, e: Entry)
    requires Sorted(es) && Canonical(e.key) && r <= |es|
    requires forall i :: 0 <= i < r ==> Ord(es[i].key) < Ord(e.key)
    requires forall i :: r <= i < |es| ==> Ord(e.key) < Ord(es[i].key)
    ensures Sorted(InsertAt(es, r, e))
  {
    var s := InsertAt(es, r, e);
    forall i, j | 0 <= i < j < |s|
      ensures Ord(s[i].key) < Ord(s[j].key)
    {
      assert s[i] == if i < r then es[i] else if i == r then e else es[i - 1];
      assert s[j] == if j < r then es[j] else if j == r then e else es[j - 1];
    }
  }

  lemma RemoveKeepsSorted(es: seq<Entry>, r: nat)
    requires Sorted(es) && r < |es|
    ensures Sorted(RemoveAt(es, r))
  {
  }

  // ---- the split of a full border ----

  const KEEP: nat := FANOUT / 2 + 1

  /** The split as the source performs it: the last seven entries move to the new border, then the
      new entry goes to one of the halves, chosen by comparing it with the front of the new border. */
  function SplitEntries(es: seq<Entry>, rank: nat, e: Entry): (r: (seq<Entry>, seq<Entry>))
    requires |es| == FANOUT && Sorted(es) && Canonical(e.key)
    requires Lookup(es, e.key) == |es| && rank == Rank(es, Ord(e.key))
  {
    SplitIsRank(es, rank, e);
    var keep, moved := es[..KEEP], es[KEEP..];
    if SplitGoesLow(e.key, moved[0].key, rank, KEEP) then
      (InsertAt(keep, rank, e), moved)
    else
      (keep, InsertAt(moved, rank - KEEP, e))
  }

  lemma SplitConcat(es: seq<Entry>, rank: nat, e: Entry)
    requires |es| == FANOUT && Sorted(es) && Canonical(e.key)
    requires Lookup(es, e.key) == |es| && rank == Rank(es, Ord(e.key))
    ensures
      var (low, high) := SplitEntries(es, rank, e);
      && low + high == InsertAt(es, rank, e)
      && |low| == (if rank <= KEEP then 9 else 8)
      && high[0] == es[KEEP]
  {
    SplitIsRank(es, rank, e);
    InsertSplits(es, rank, e, KEEP);
  }

  /** Nothing is lost, the halves are balanced, and the front of the new border separates them. */
  lemma SplitEntriesCorrect(es: seq<Entry>, rank: nat, e: Entry)
    requires |es| == FANOUT && Sorted(es) && Canonical(e.key)
    requires Lookup(es, e.key) == |es| && rank == Rank(es, Ord(e.key))
    ensures
      var (low, high) := SplitEntries(es, rank, e);
      && low + high == InsertAt(es, rank, e)
      && |low| == (if rank <= KEEP then 9 else 8)
      && |high| == (if rank <= KEEP then 7 else 8)
      && Sorted(low) && Sorted(high)
      && high[0] == es[KEEP] && high[0].key.len > 0
      && forall i :: 0 <= i < |low| ==> Ord(low[i].key) < Ord(high[0].key)
  {
    SplitConcat(es, rank, e);
    InsertKeepsSorted(es, e);
    SplitIsRank(es, rank, e);
    var split := SplitEntries(es, rank, e);
    assert |split.0 + split.1| == |es| + 1;
    SortedConcat(split.0, split.1);
  }

  lemma SortedConcat(a: seq<Entry>, b: seq<Entry>)
    requires Sorted(a + b) && b != []
    ensures Sorted(a) && Sorted(b)
    ensures forall i :: 0 <= i < |a| ==> Ord(a[i].key) < Ord(b[0].key)
  {
    var s := a + b;
    forall i | 0 <= i < |a| ensures a[i] == s[i] {}
    forall i | 0 <= i < |b| ensures b[i] == s[|a| + i] {}
  }

  /** The comparison with the front of the new border picks the lower half exactly for ranks up to 8. */
  lemma SplitIsRank(es: seq<Entry>, rank: nat, e: Entry)
    requires |es| == FANOUT && Sorted(es) && Canonical(e.key)
    requires Lookup(es, e.key) == |es| && rank == Rank(es, Ord(e.key))
    ensures SplitGoesLow(e.key, es[KEEP].key, rank, KEEP) <==> rank <= KEEP
    ensures es[KEEP].key.len > 0
  {
    var front := es[KEEP].key;
    if front.len == 0 {
      assert front.slice == seq(SLICE, i => 0);
      assert forall i :: 0 <= i < SLICE ==> front.slice[i] <= es[0].key.slice[i];
      MemcmpExtends(front.slice, es[0].key.slice, 0, SLICE);
      MemcmpNum(front.slice, es[0].key.slice, SLICE);
      assert false;
    }
    if Ord(e.key) == Ord(front) {
      OrdInjective(e.key, front);
    }
    SplitTestIsOrder(e.key, front, rank, KEEP);
  }

  // ---- interior nodes ----

  predicate KeysSorted(ks: seq<KeyTuple>) {
    && (forall i :: 0 <= i < |ks| ==> Canonical(ks[i]) && ks[i].len > 0)
    && (forall i, j :: 0 <= i < j < |ks| ==> Ord(ks[i]) < Ord(ks[j]))
  }

  lemma KeysInserted(ks: seq<KeyTuple>, i: nat, sep: KeyTuple)
    requires KeysSorted(ks) && i <= |ks| && Canonical(sep) && sep.len > 0
    requires (i > 0 ==> Ord(ks[i - 1]) < Ord(sep)) && (i < |ks| ==> Ord(sep) < Ord(ks[i]))
    ensures KeysSorted(InsertAt(ks, i, sep))
  {
    var s := InsertAt(ks, i, sep);
    forall a, b | 0 <= a < b < |s|
      ensures Ord(s[a]) < Ord(s[b])
    {
      assert s[a] == if a < i then ks[a] else if a == i then sep else ks[a - 1];
      assert s[b] == if b < i then ks[b] else if b == i then sep else ks[b - 1];
    }
  }

  /** The child a key of order `o` is routed to: the first whose upper separator exceeds it. */
  function ChildIndex(ks: seq<KeyTuple>, o: int): (r: nat)
    ensures r <= |ks|
    ensures forall i :: 0 <= i < r ==> Ord(ks[i]) <= o
    ensures r < |ks| ==> o < Ord(ks[r])
  {
    if ks == [] || o < Ord(ks[0]) then 0 else 1 + ChildIndex(ks[1..], o)
  }

  /** The routing is determined by the separators around it. */
  lemma ChildIndexUnique(ks: seq<KeyTuple>, o: int, i: nat)
    requires KeysSorted(ks) && i <= |ks|
    requires i > 0 ==> Ord(ks[i - 1]) <= o
    requires i < |ks| ==> o < Ord(ks[i])
    ensures ChildIndex(ks, o) == i
  {
  }

  const PIVOT: nat := FANOUT / 2

  datatype Halves = Halves(leftKeys: seq<KeyTuple>, leftKids: seq<NodeId>, pivot: KeyTuple,
                           rightKeys: seq<KeyTuple>, rightKids: seq<NodeId>)

  /** The split of a full interior node as the source performs it: separators and children after
      the eighth child move to the new node, the separator between them is the pivot, and the new
      child goes right after the child it split from, in whichever half its separator belongs to. */
  function SplitInterior(ks: seq<KeyTuple>, cs: seq<NodeId>, sep: KeyTuple, child: NodeId): (r: Halves)
    requires |ks| == FANOUT && |cs| == FANOUT + 1 && KeysSorted(ks) && Canonical(sep)
  {
    var leftKeys, rightKeys := ks[..PIVOT], ks[PIVOT + 1..];
    var leftKids, rightKids := cs[..PIVOT + 1], cs[PIVOT + 1..];
    var pivot := ks[PIVOT];
    if InteriorLess(sep.slice, sep.len, pivot) then
      var i := ChildIndex(leftKeys, Ord(sep));
      Halves(InsertAt(leftKeys, i, sep), InsertAt(leftKids, i + 1, child), pivot, rightKeys, rightKids)
    else
      var i := ChildIndex(rightKeys, Ord(sep));
      Halves(leftKeys, leftKids, pivot, InsertAt(rightKeys, i, sep), InsertAt(rightKids, i + 1, child))
  }

  lemma SplitInteriorLow(ks: seq<KeyTuple>, cs: seq<NodeId>, sep: KeyTuple, child: NodeId, i: nat)
    requires |ks| == FANOUT && |cs| == FANOUT + 1 && KeysSorted(ks) && Canonical(sep)
    requires i <= PIVOT && (i > 0 ==> Ord(ks[i - 1]) < Ord(sep)) && Ord(sep) < Ord(ks[i])
    ensures SplitInterior(ks, cs, sep, child) ==
            Halves(InsertAt(ks[..PIVOT], i, sep), InsertAt(cs[..PIVOT + 1], i + 1, child), ks[PIVOT],
                   ks[PIVOT + 1..], cs[PIVOT + 1..])
  {
    InteriorLessIsOrder(sep.slice, sep.len, ks[PIVOT]);
    ClampCanonical(sep);
    var left := ks[..PIVOT];
    assert i < PIVOT ==> left[i] == ks[i];
    assert i > 0 ==> left[i - 1] == ks[i - 1];
    ChildIndexUnique(left, Ord(sep), i);
  }

  lemma SplitInteriorHigh(ks: seq<KeyTuple>, cs: seq<NodeId>, sep: KeyTuple, child: NodeId, i: nat)
    requires |ks| == FANOUT && |cs| == FANOUT + 1 && KeysSorted(ks) && Canonical(sep)
    requires PIVOT < i <= |ks| && Ord(ks[i - 1]) < Ord(sep) && (i < |ks| ==> Ord(sep) < Ord(ks[i]))
    ensures SplitInterior(ks, cs, sep, child) ==
            Halves(ks[..PIVOT], cs[..PIVOT + 1], ks[PIVOT],
                   InsertAt(ks[PIVOT + 1..], i - PIVOT - 1, sep), InsertAt(cs[PIVOT + 1..], i - PIVOT, child))
  {
    InteriorLessIsOrder(sep.slice, sep.len, ks[PIVOT]);
    ClampCanonical(sep);
    var right := ks[PIVOT + 1..];
    var j := i - (PIVOT + 1);
    assert j < |right| ==> right[j] == ks[i];
    assert j > 0 ==> right[j - 1] == ks[i - 1];
    ChildIndexUnique(right, Ord(sep), j);
  }

  /** Left part, pivot and right part are the old separators with the new one inserted; children
      likewise, balanced nine to eight. */
  lemma SplitInteriorCorrect(ks: seq<KeyTuple>, cs: seq<NodeId>, sep: KeyTuple, child: NodeId, i: nat)
    requires |ks| == FANOUT && |cs| == FANOUT + 1 && KeysSorted(ks) && Canonical(sep)
    requires i <= |ks| && (i > 0 ==> Ord(ks[i - 1]) < Ord(sep)) && (i < |ks| ==> Ord(sep) < Ord(ks[i]))
    ensures
      var r := SplitInterior(ks, cs, sep, child);
      && r.leftKeys + [r.pivot] + r.rightKeys == InsertAt(ks, i, sep)
      && r.leftKids + r.rightKids == InsertAt(cs, i + 1, child)
      && |r.leftKids| == |r.leftKeys| + 1 && |r.rightKids| == |r.rightKeys| + 1
      && |r.leftKids| == (if i <= PIVOT then 9 else 8)
      && |r.rightKids| == (if i <= PIVOT then 8 else 9)
      && r.pivot == ks[PIVOT]
  {
    hide SplitInterior, KeysSorted, Ord;
    InsertSplits(cs, i + 1, child, PIVOT + 1);
    if i <= PIVOT {
      SplitInteriorLow(ks, cs, sep, child, i);
      InsertSplits(ks, i, sep, PIVOT);
      assert ks[PIVOT..] == [ks[PIVOT]] + ks[PIVOT + 1..];
    } else {
      SplitInteriorHigh(ks, cs, sep, child, i);
      InsertSplits(ks, i, sep, PIVOT + 1);
      assert ks[..PIVOT + 1] == ks[..PIVOT] + [ks[PIVOT]];
    }
  }

  /** Dropping the child at `i` drops the separator on its left, or on its right for the first. */
  function DropKey(ks: seq<KeyTuple>, i: nat): (r: seq<KeyTuple>)
    requires i <= |ks| && |ks| > 0
    ensures |r| == |ks| - 1
  {
    RemoveAt(ks, if i == 0 then 0 else i - 1)
  }

  lemma DropKeepsSorted(ks: seq<KeyTuple>, i: nat)
    requires KeysSorted(ks) && |ks| > 0 && i <= |ks|
    ensures KeysSorted(DropKey(ks, i))
  {
  }

  lemma DropIndex(ks: seq<KeyTuple>, i: nat, o: int)
    requires KeysSorted(ks) && |ks| > 0 && i <= |ks|
    ensures
      var c := ChildIndex(ks, o);
      ChildIndex(DropKey(ks, i), o) == (if c > i || (c == i && i > 0) then c - 1 else c)
  {
    var c := ChildIndex(ks, o);
    var c' := if c > i || (c == i && i > 0) then c - 1 else c;
    DropKeepsSorted(ks, i);
    ChildIndexUnique(DropKey(ks, i), o, c');
  }

  /** Removal hands the range of the dropped child to one neighbour and reroutes nothing else. */
  lemma DropRoutes(ks: seq<KeyTuple>, cs: seq<NodeId>, i: nat, o: int)
    requires KeysSorted(ks) && |ks| > 0 && |cs| == |ks| + 1 && i <= |ks|
    ensures ChildIndex(DropKey(ks, i), o) < |RemoveAt(cs, i)|
    ensures
      var c := ChildIndex(ks, o);
      RemoveAt(cs, i)[ChildIndex(DropKey(ks, i), o)] ==
      cs[if c != i then c else if i == 0 then 1 else i - 1]
  {
    DropIndex(ks, i, o);
  }
}
