/** An interior node slot by slot: fifteen separators, sixteen children and a count.  Its methods
    compute the functions of `Contents.dfy`. */
module InteriorNodes {
  import opened Keys
  import opened Contents

  const BLANK: KeyTuple := KeyTuple(seq(SLICE, i => 0), 0)

  class InteriorNode {
    const keys: array<KeyTuple>
    const children: array<NodeId>
    var n: nat

    ghost predicate Framed()
      reads this
    {
      keys.Length == FANOUT && children.Length == FANOUT + 1 && keys != children as object
    }

    ghost predicate Valid()
      reads this, keys, children
    {
      Framed() && n <= FANOUT && KeysSorted(Keys())
    }

    ghost function Keys(): (ks: seq<KeyTuple>)
      requires Framed() && n <= FANOUT
      reads this, keys
      ensures |ks| == n
    {
      keys[..n]
    }

    ghost function Kids(): (cs: seq<NodeId>)
      requires Framed() && n <= FANOUT
      reads this, children
      ensures |cs| == n + 1
    {
      children[..n + 1]
    }

    constructor ()
      ensures Valid() && Keys() == [] && fresh(keys) && fresh(children)
      ensures forall i :: 0 <= i < FANOUT ==> keys[i] == BLANK
      ensures forall i :: 0 <= i <= FANOUT ==> children[i] == NULL
    {
      keys := new KeyTuple[FANOUT](i => BLANK);
      children := new NodeId[FANOUT + 1](i => NULL);
      n := 0;
    }

    // ---- routing ----

    /** The child to the left of the first separator beyond the key; the length may be any length. */
    method GetChildOf(slice: seq<byte>, len: nat) returns (c: NodeId)
      requires Valid() && |slice| == SLICE
      ensures c == Kids()[ChildIndex(Keys(), Ord(Clamp(slice, len)))]
    {
      hide Ord, ChildIndex;
      ghost var o := Ord(Clamp(slice, len));
      for i := 0 to n
        invariant forall j :: 0 <= j < i ==> Ord(Keys()[j]) <= o
      {
        InteriorLessIsOrder(slice, len, Keys()[i]);
        if InteriorLess(slice, len, keys[i]) {
          ChildIndexUnique(Keys(), o, i);
          return children[i];
        }
      }
      ChildIndexUnique(Keys(), o, n);
      return children[n];
    }

    // ---- insertion ----

    /** The separators from `start` on move one place right. */
    method ShiftRightKeys(start: nat)
      requires Framed() && start < FANOUT
      modifies keys
      ensures forall j :: 0 <= j <= start ==> keys[j] == old(keys[j])
      ensures forall j :: start < j < FANOUT ==> keys[j] == old(keys[j - 1])
    {
      var i := FANOUT - 1;
      while i > start
        invariant start <= i < FANOUT
        invariant forall j :: 0 <= j <= i ==> keys[j] == old(keys[j])
        invariant forall j :: i < j < FANOUT ==> keys[j] == old(keys[j - 1])
      {
        keys[i] := keys[i - 1];
        i := i - 1;
      }
    }

    method ShiftRightChildren(start: nat)
      requires Framed() && n < FANOUT && start <= n + 1
      modifies children
      ensures forall j :: 0 <= j <= FANOUT && !(start < j <= n + 1) ==> children[j] == old(children[j])
      ensures forall j :: start < j <= n + 1 ==> children[j] == old(children[j - 1])
    {
      var i := n + 1;
      while i > start
        invariant start <= i <= n + 1
        invariant forall j :: 0 <= j <= FANOUT && !(i < j <= n + 1) ==> children[j] == old(children[j])
        invariant forall j :: i < j <= n + 1 ==> children[j] == old(children[j - 1])
      {
        children[i] := children[i - 1];
        i := i - 1;
      }
    }

    /** The place of a separator: the first one beyond it. */
    method FindPlace(sep: KeyTuple) returns (i: nat)
      requires Valid() && Canonical(sep) && forall j :: 0 <= j < n ==> Ord(Keys()[j]) != Ord(sep)
      ensures i == ChildIndex(Keys(), Ord(sep)) && i <= n
      ensures forall j :: 0 <= j < i ==> Ord(Keys()[j]) < Ord(sep)
      ensures i < n ==> Ord(sep) < Ord(Keys()[i])
    {
      hide Ord, ChildIndex;
      ClampCanonical(sep);
      i := 0;
      while i < n
        invariant i <= n && forall j :: 0 <= j < i ==> Ord(Keys()[j]) < Ord(sep)
      {
        InteriorLessIsOrder(sep.slice, sep.len, Keys()[i]);
        if InteriorLess(sep.slice, sep.len, keys[i]) {
          break;
        }
        i := i + 1;
      }
      ChildIndexUnique(Keys(), Ord(sep), i);
    }

    method PlaceKey(i: nat, sep: KeyTuple)
      requires Framed() && n < FANOUT && i <= n
      modifies keys
      ensures keys[..n + 1] == InsertAt(old(keys[..n]), i, sep)
    {
      if i < n {
        ShiftRightKeys(i);
      }
      keys[i] := sep;
    }

    method PlaceChild(i: nat, child: NodeId)
      requires Framed() && n < FANOUT && i <= n
      modifies children
      ensures children[..n + 2] == InsertAt(old(children[..n + 1]), i + 1, child)
    {
      ShiftRightChildren(i + 1);
      children[i + 1] := child;
    }

    /** A new separator and, right of it, a new child. */
    method Insert(child: NodeId, sep: KeyTuple)
      requires Valid() && n < FANOUT && Canonical(sep) && sep.len > 0
      requires forall i :: 0 <= i < n ==> Ord(Keys()[i]) != Ord(sep)
      modifies this`n, keys, children
      ensures Valid() && n == old(n) + 1
      ensures Keys() == InsertAt(old(Keys()), ChildIndex(old(Keys()), Ord(sep)), sep)
      ensures Kids() == InsertAt(old(Kids()), ChildIndex(old(Keys()), Ord(sep)) + 1, child)
    {
      hide Ord, ChildIndex, InsertAt, KeysSorted;
      var i := FindPlace(sep);
      KeysInserted(Keys(), i, sep);
      PlaceKey(i, sep);
      PlaceChild(i, child);
      n := n + 1;
    }

    // ---- removal ----

    method ShiftLeftKeys(start: nat)
      requires Framed() && 0 < start <= FANOUT
      modifies keys
      ensures forall j :: 0 <= j < start - 1 || j == FANOUT - 1 ==> keys[j] == old(keys[j])
      ensures forall j :: start - 1 <= j < FANOUT - 1 ==> keys[j] == old(keys[j + 1])
    {
      for i := start to FANOUT
        invariant forall j :: 0 <= j < FANOUT && !(start - 1 <= j < i - 1) ==> keys[j] == old(keys[j])
        invariant forall j :: start - 1 <= j < i - 1 ==> keys[j] == old(keys[j + 1])
      {
        keys[i - 1] := keys[i];
      }
    }

    method ShiftLeftChildren(start: nat)
      requires Framed() && 0 < start <= FANOUT + 1
      modifies children
      ensures forall j :: 0 <= j < start - 1 || j == FANOUT ==> children[j] == old(children[j])
      ensures forall j :: start - 1 <= j < FANOUT ==> children[j] == old(children[j + 1])
    {
      for i := start to FANOUT + 1
        invariant forall j :: 0 <= j <= FANOUT && !(start - 1 <= j < i - 1) ==> children[j] == old(children[j])
        invariant forall j :: start - 1 <= j < i - 1 ==> children[j] == old(children[j + 1])
      {
        children[i - 1] := children[i];
      }
    }

    method Position(child: NodeId) returns (i: nat)
      requires Framed() && n <= FANOUT && child in Kids()
      ensures i <= n && children[i] == child && child !in children[..i]
    {
      ghost var k :| 0 <= k <= n && children[k] == child;
      i := 0;
      while children[i] != child
        invariant i <= k && child !in children[..i]
        decreases k - i
      {
        i := i + 1;
      }
    }

    /** Drops the child at a place: leftmost, rightmost or in the middle. */
    method DropAt(i: nat)
      requires Framed() && 1 < n <= FANOUT && i <= n
      modifies keys, children
      ensures keys[..n - 1] == DropKey(old(keys[..n]), i)
      ensures children[..n] == RemoveAt(old(children[..n + 1]), i)
    {
      if i == 0 {
        ShiftLeftKeys(1);
        ShiftLeftChildren(1);
        children[n] := NULL;
      } else if i == n {
        children[i] := NULL;
      } else {
        ShiftLeftKeys(i);
        ShiftLeftChildren(i + 1);
        children[n] := NULL;
      }
      keys[n - 1] := BLANK;
      ghost var ks, cs := old(keys[..n]), old(children[..n + 1]);
      RowDropped(ks, cs, i, keys[..n - 1], children[..n]);
    }

    /** Takes a child out of a node with at least three. */
    method DeleteOf(child: NodeId)
      requires Valid() && n > 1 && child in Kids()
      modifies this`n, keys, children
      ensures Valid() && n == old(n) - 1
      ensures exists i :: 0 <= i < |old(Kids())| && old(Kids())[i] == child
                          && Keys() == DropKey(old(Keys()), i) && Kids() == RemoveAt(old(Kids()), i)
    {
      hide KeysSorted, DropKey, RemoveAt;
      ghost var ks, cs := Keys(), Kids();
      var i := Position(child);
      DropKeepsSorted(ks, i);
      DropAt(i);
      n := n - 1;
      assert cs[i] == child && Keys() == DropKey(ks, i) && Kids() == RemoveAt(cs, i);
    }

    method SwapChild(oldChild: NodeId, newChild: NodeId)
      requires Valid() && oldChild in Kids()
      modifies children
      ensures Valid() && Keys() == old(Keys())
      ensures exists i :: 0 <= i <= n && old(Kids())[i] == oldChild && oldChild !in old(Kids())[..i]
                          && Kids() == old(Kids())[i := newChild]
    {
      hide KeysSorted;
      ghost var cs := Kids();
      var i := Position(oldChild);
      children[i] := newChild;
      assert cs[i] == oldChild && oldChild !in cs[..i] && Kids() == cs[i := newChild];
    }

    // ---- the split of a full node ----

    method MoveKeys(right: InteriorNode)
      requires Framed() && right.Framed() && right.keys != keys
      modifies keys, right.keys
      ensures keys[..PIVOT + 1] == old(keys[..PIVOT + 1])
      ensures right.keys[..FANOUT - (PIVOT + 1)] == old(keys[PIVOT + 1..])
    {
      for i := PIVOT + 1 to FANOUT
        invariant forall j :: 0 <= j < FANOUT ==> keys[j] == if PIVOT + 1 <= j < i then BLANK else old(keys[j])
        invariant forall j :: 0 <= j < i - (PIVOT + 1) ==> right.keys[j] == old(keys[j + PIVOT + 1])
      {
        right.keys[i - (PIVOT + 1)] := keys[i];
        keys[i] := BLANK;
      }
    }

    method MoveChildren(right: InteriorNode)
      requires Framed() && right.Framed() && right.children != children
      modifies children, right.children
      ensures children[..PIVOT + 1] == old(children[..PIVOT + 1])
      ensures right.children[..FANOUT - PIVOT] == old(children[PIVOT + 1..])
    {
      for i := PIVOT + 1 to FANOUT + 1
        invariant forall j :: 0 <= j <= FANOUT ==> children[j] == if PIVOT + 1 <= j < i then NULL else old(children[j])
        invariant forall j :: 0 <= j < i - (PIVOT + 1) ==> right.children[j] == old(children[j + PIVOT + 1])
      {
        right.children[i - (PIVOT + 1)] := children[i];
        children[i] := NULL;
      }
    }

    /** The separators and children after the eighth child move to a fresh node; the separator
        between the halves comes out. */
    method MoveUpper(right: InteriorNode) returns (pivot: KeyTuple)
      requires Valid() && n == FANOUT && right.Framed() && right != this
      requires right.keys != keys && right.children != children && right.keys != children as object
               && right.children != keys as object
      modifies this`n, keys, children, right`n, right.keys, right.children
      ensures Valid() && right.Valid() && pivot == old(Keys())[PIVOT]
      ensures Keys() == old(Keys())[..PIVOT] && Kids() == old(Kids())[..PIVOT + 1]
      ensures right.Keys() == old(Keys())[PIVOT + 1..] && right.Kids() == old(Kids())[PIVOT + 1..]
    {
      hide KeysSorted;
      ghost var ks, cs := Keys(), Kids();
      KeysHalved(ks);
      MoveKeys(right);
      n := PIVOT;
      right.n := PIVOT;
      MoveChildren(right);
      pivot := keys[PIVOT];
      assert keys[..PIVOT + 1][..PIVOT] == ks[..PIVOT];
      keys[PIVOT] := BLANK;
      assert ks == old(keys[..]) && cs == old(children[..]);
    }

    /** The split together with the insertion that caused it. */
    method Split(right: InteriorNode, child: NodeId, sep: KeyTuple) returns (pivot: KeyTuple)
      requires Valid() && n == FANOUT && right.Framed() && right != this
      requires right.keys != keys && right.children != children && right.keys != children as object
               && right.children != keys as object
      requires Canonical(sep) && sep.len > 0 && forall i :: 0 <= i < n ==> Ord(Keys()[i]) != Ord(sep)
      modifies this`n, keys, children, right`n, right.keys, right.children
      ensures Valid() && right.Valid()
      ensures SplitInterior(old(Keys()), old(Kids()), sep, child) ==
              Halves(Keys(), Kids(), pivot, right.Keys(), right.Kids())
    {
      hide Ord, ChildIndex, InteriorLess, InsertAt;
      ghost var ks, cs := Keys(), Kids();
      pivot := MoveUpper(right);
      if InteriorLess(sep.slice, sep.len, pivot) {
        Insert(child, sep);
      } else {
        right.Insert(child, sep);
      }
    }
  }

  lemma RowDropped(ks: seq<KeyTuple>, cs: seq<NodeId>, i: nat, ks': seq<KeyTuple>, cs': seq<NodeId>)
    requires 1 < |ks| == |ks'| + 1 && |cs| == |ks| + 1 && |cs'| == |ks| && i <= |ks|
    requires forall j :: 0 <= j < |ks'| ==> ks'[j] == ks[if j < (if i == 0 then 0 else i - 1) then j else j + 1]
    requires forall j :: 0 <= j < |cs'| ==> cs'[j] == cs[if j < i then j else j + 1]
    ensures ks' == DropKey(ks, i) && cs' == RemoveAt(cs, i)
  {
  }

  lemma KeysHalved(ks: seq<KeyTuple>)
    requires KeysSorted(ks) && |ks| == FANOUT
    ensures KeysSorted(ks[..PIVOT]) && KeysSorted(ks[PIVOT + 1..])
  {
  }
}
