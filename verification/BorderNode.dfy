/** A border node slot by slot: fifteen slots of keys and payloads, and the permutation word that
    orders them.  Its methods compute the functions of `Contents.dfy`. */
module BorderNodes {
  import opened Keys
  import opened Contents
  import opened Permutations

  /** A slot that is not in use keeps whatever was left in it. */
  datatype Lv = Unset | Held(load: Payload)

  // ---- searching a sorted sequence the way the node does ----

  lemma LookupAt(es: seq<Entry>, t: KeyTuple, i: nat)
    requires Sorted(es) && i < |es| && es[i].key == t
    ensures Lookup(es, t) == i
  {
    assert Lookup(es, t) < |es|;
  }

  lemma LookupPast(es: seq<Entry>, t: KeyTuple, i: nat)
    requires Sorted(es) && i <= |es| && Canonical(t)
    requires forall j :: 0 <= j < i ==> Ord(es[j].key) < Ord(t)
    requires i < |es| ==> Ord(t) < Ord(es[i].key)
    ensures Lookup(es, t) == |es| && Rank(es, Ord(t)) == i
  {
    RankAt(es, Ord(t), i);
  }

  lemma RankAt(es: seq<Entry>, o: int, i: nat)
    requires Sorted(es) && i <= |es|
    requires forall j :: 0 <= j < i ==> Ord(es[j].key) < o
    requires i < |es| ==> o <= Ord(es[i].key)
    ensures Rank(es, o) == i
  {
  }

  class BorderNode {
    const perm: Permutation
    const keys: array<KeyTuple>
    const lvs: array<Lv>

    ghost predicate Framed()
      reads this
    {
      keys.Length == FANOUT && lvs.Length == FANOUT && keys != lvs as object
    }

    ghost predicate Valid()
      reads this, perm, keys, lvs
    {
      && Framed() && perm.Valid()
      && (forall i :: 0 <= i < |perm.Slots()| ==> lvs[perm.Slots()[i]].Held?)
      && Sorted(Contents())
    }

    /** The entries in key order. */
    ghost function Contents(): (es: seq<Entry>)
      requires Framed() && perm.Valid()
      requires forall i :: 0 <= i < |perm.Slots()| ==> lvs[perm.Slots()[i]].Held?
      reads this, perm, keys, lvs
      ensures |es| == |perm.Slots()|
    {
      EntriesOf(perm.Slots(), keys[..], lvs[..])
    }

    constructor ()
      ensures Valid() && Contents() == [] && fresh(perm) && fresh(keys) && fresh(lvs)
    {
      perm := new Permutation();
      keys := new KeyTuple[FANOUT](i => KeyTuple(seq(SLICE, j => 0), 0));
      lvs := new Lv[FANOUT](i => Unset);
    }

    // ---- lookups ----

    /** The rank a new key would take; 0 when the key is already there, which callers exclude. */
    method ComputeRankIfInsert(t: KeyTuple) returns (rank: nat)
      requires Valid() && Canonical(t)
      ensures rank == if Lookup(Contents(), t) == |Contents()| then Rank(Contents(), Ord(t)) else 0
    {
      hide Fit, SlotsOf, CountOf, Rank, Lookup;
      FitFacts(perm.body);
      var cnk := perm.GetCnk();
      for i := 0 to cnk
        invariant forall j :: 0 <= j < i ==> Ord(Contents()[j].key) < Ord(t)
      {
        var index := perm.GetIndexOfRank(i);
        assert keys[index] == Contents()[i].key;
        BorderCmpIsOrder(t, keys[index]);
        match BorderCmp(t, keys[index]) {
          case Eq =>
            LookupAt(Contents(), t, i);
            return 0;
          case Lt =>
            LookupPast(Contents(), t, i);
            return i;
          case Gt =>
        }
      }
      LookupPast(Contents(), t, cnk);
      return cnk;
    }

    /** The slot of the entry with tuple `t`, scanning in key order and stopping past it. */
    method GetLvOf(t: KeyTuple) returns (found: bool, pos: nat)
      requires Valid() && Canonical(t)
      ensures found <==> Lookup(Contents(), t) < |Contents()|
      ensures found ==> pos == perm.Slots()[Lookup(Contents(), t)]
    {
      hide Fit, SlotsOf, CountOf, Rank, Lookup;
      FitFacts(perm.body);
      pos := 0;
      var cnk := perm.GetCnk();
      for i := 0 to cnk
        invariant forall j :: 0 <= j < i ==> Ord(Contents()[j].key) < Ord(t)
      {
        var index := perm.GetIndexOfRank(i);
        assert keys[index] == Contents()[i].key;
        BorderCmpIsOrder(t, keys[index]);
        match BorderCmp(t, keys[index]) {
          case Eq =>
            LookupAt(Contents(), t, i);
            return true, index;
          case Lt =>
            LookupPast(Contents(), t, i);
            return false, 0;
          case Gt =>
        }
      }
      LookupPast(Contents(), t, cnk);
      return false, 0;
    }

    /** The same search by the holder of the lock; it reads on after a hit until it is past the key. */
    method GetLvOfWithoutLock(t: KeyTuple) returns (found: bool, pos: nat)
      requires Valid() && Canonical(t)
      ensures found <==> Lookup(Contents(), t) < |Contents()|
      ensures found ==> pos == perm.Slots()[Lookup(Contents(), t)]
    {
      hide Fit, SlotsOf, CountOf, Rank, Lookup;
      FitFacts(perm.body);
      found, pos := false, 0;
      var cnk := perm.GetCnk();
      for i := 0 to cnk
        invariant forall j :: 0 <= j < i && !found ==> Ord(Contents()[j].key) < Ord(t)
        invariant found ==> Lookup(Contents(), t) < |Contents()| && pos == perm.Slots()[Lookup(Contents(), t)]
      {
        var index := perm.GetIndexOfRank(i);
        assert keys[index] == Contents()[i].key;
        BorderCmpIsOrder(t, keys[index]);
        match BorderCmp(t, keys[index]) {
          case Eq =>
            LookupAt(Contents(), t, i);
            found, pos := true, index;
          case Lt =>
            if !found {
              LookupPast(Contents(), t, i);
            }
            return;
          case Gt =>
        }
      }
      if !found {
        LookupPast(Contents(), t, cnk);
      }
    }

    // ---- updates ----

    /** Fills a free slot and enters it at its rank. */
    method InsertLvAt(index: nat, t: KeyTuple, p: Payload, rank: nat)
      requires Valid() && |Contents()| < FANOUT && index < FANOUT && index !in perm.Slots()
      requires Canonical(t) && Lookup(Contents(), t) == |Contents()| && rank == Rank(Contents(), Ord(t))
      modifies perm, keys, lvs
      ensures Valid() && Contents() == InsertAt(old(Contents()), rank, Entry(t, p))
      ensures perm.Slots() == InsertAt(old(perm.Slots()), rank, index)
    {
      hide Fit, SlotsOf, CountOf, Rank, Lookup;
      FitFacts(perm.body);
      ghost var es, slots, ks, ls := Contents(), perm.Slots(), keys[..], lvs[..];
      InsertKeepsSorted(es, Entry(t, p));
      keys[index] := t;
      lvs[index] := Held(p);
      perm.InsertSlot(rank, index);
      EntriesInserted(slots, ks, ls, rank, index, Entry(t, p));
      assert keys[..] == ks[index := t] && lvs[..] == ls[index := Held(p)];
    }

    /** Gives a slot in use another payload. */
    method SetLv(pos: nat, p: Payload, ghost rank: nat)
      requires Valid() && rank < |Contents()| && pos == perm.Slots()[rank]
      modifies lvs
      ensures Valid() && perm.Slots() == old(perm.Slots())
      ensures Contents() == old(Contents())[rank := Entry(old(Contents())[rank].key, p)]
    {
      hide Fit, SlotsOf, CountOf, Rank, Lookup;
      FitFacts(perm.body);
      KeysUnchanged(Contents(), rank, p);
      lvs[pos] := Held(p);
      EntryChanged(perm.Slots(), keys[..], old(lvs[..]), rank, p);
      assert lvs[..] == old(lvs[..])[pos := Held(p)];
    }

    /** Takes the entry at a rank out; an allocated value leaves its slot blank. */
    method DeleteAt(rank: nat, targetIsValue: bool) returns (released: seq<nat>)
      requires Valid() && rank < |Contents()|
      modifies perm, lvs
      ensures Valid() && Contents() == RemoveAt(old(Contents()), rank)
      ensures released ==
              var p := old(Contents())[rank].payload;
              if targetIsValue && p.Value? && p.val.Boxed? then [p.val.id] else []
    {
      hide Fit, SlotsOf, CountOf, Rank, Lookup;
      FitFacts(perm.body);
      ghost var es, slots, ks, ls := Contents(), perm.Slots(), keys[..], lvs[..];
      RemoveKeepsSorted(es, rank);
      var pos := perm.GetIndexOfRank(rank);
      released := [];
      if targetIsValue && lvs[pos].load.Value? && lvs[pos].load.val.Boxed? {
        released := [lvs[pos].load.val.id];
        lvs[pos] := Unset;
      }
      perm.DeleteSlot(rank);
      EntriesRemoved(slots, ks, ls, rank, lvs[..]);
    }

    /** Takes out the entry with tuple `t`, and says whether the border is now empty. */
    method DeleteOf(t: KeyTuple, targetIsValue: bool) returns (released: seq<nat>, emptied: bool)
      requires Valid() && Canonical(t) && Lookup(Contents(), t) < |Contents()|
      modifies perm, lvs
      ensures Valid() && |old(Contents())| > 0 && Contents() == RemoveAt(old(Contents()), Lookup(old(Contents()), t))
      ensures released ==
              var p := old(Contents())[Lookup(old(Contents()), t)].payload;
              if targetIsValue && p.Value? && p.val.Boxed? then [p.val.id] else []
      ensures emptied <==> Contents() == []
    {
      hide Fit, SlotsOf, CountOf, Rank, Lookup;
      FitFacts(perm.body);
      ghost var r := Lookup(Contents(), t);
      var cnk := perm.GetCnk();
      for i := 0 to cnk
        invariant unchanged(perm) && unchanged(lvs) && Valid() && Contents() == old(Contents())
        invariant Contents()[r].key == t
        invariant forall j :: 0 <= j < i ==> Contents()[j].key != t
      {
        var index := perm.GetIndexOfRank(i);
        assert keys[index] == Contents()[i].key;
        if (t.len == 0 && keys[index].len == 0) || (t.len == keys[index].len && t.slice == keys[index].slice) {
          BlankKeys(t, keys[index]);
          LookupAt(Contents(), t, i);
          released := DeleteAt(i, targetIsValue);
          return released, cnk == 1;
        }
      }
      assert false;
    }

    /** The entry at rank 8 goes to slot `ctr` of the new border, and its slot here is wiped. */
    method MoveOne(right: BorderNode, ctr: nat)
      requires Framed() && perm.Valid() && right.Framed() && KEEP < |perm.Slots()| && ctr < FANOUT
      requires right.keys != keys && right.lvs != lvs
      modifies perm, keys, lvs, right.keys, right.lvs
      ensures perm.Valid() && perm.Slots() == RemoveAt(old(perm.Slots()), KEEP)
      ensures forall i :: 0 <= i < FANOUT && i != old(perm.Slots())[KEEP] ==> keys[i] == old(keys[i]) && lvs[i] == old(lvs[i])
      ensures right.keys[..] == old(right.keys[..])[ctr := old(keys[perm.Slots()[KEEP]])]
      ensures right.lvs[..] == old(right.lvs[..])[ctr := old(lvs[perm.Slots()[KEEP]])]
    {
      hide Fit, SlotsOf, CountOf;
      FitFacts(perm.body);
      var src := perm.GetIndexOfRank(KEEP);
      right.keys[ctr] := keys[src];
      right.lvs[ctr] := lvs[src];
      keys[src] := KeyTuple(seq(SLICE, j => 0), 0);
      lvs[src] := Unset;
      perm.DeleteSlot(KEEP);
    }

    /** The seven highest entries of a full border go to a fresh one, one at a time from rank 8. */
    method MoveUpper(right: BorderNode)
      requires Valid() && |Contents()| == FANOUT && right.Framed() && right.perm.Valid()
      requires right.perm != perm && right.keys != keys && right.lvs != lvs
      modifies perm, keys, lvs, right.perm, right.keys, right.lvs
      ensures Valid() && Contents() == old(Contents())[..KEEP]
      ensures right.Valid() && right.Contents() == old(Contents())[KEEP..]
      ensures right.perm.Slots() == seq(FANOUT - KEEP, i => i)
    {
      hide Fit, SlotsOf, CountOf, Kept, Gone, Sorted, EntriesOf;
      FitFacts(perm.body);
      ghost var slots, ks, ls := perm.Slots(), keys[..], lvs[..];
      KeptAll(slots, ks, ls, right.keys[..], right.lvs[..]);
      for ctr := 0 to FANOUT - KEEP
        invariant perm.Valid() && perm.Slots() == slots[..KEEP] + slots[KEEP + ctr..]
        invariant Kept(slots, ks, ls, keys[..], lvs[..], 0, KEEP)
        invariant Kept(slots, ks, ls, keys[..], lvs[..], KEEP + ctr, FANOUT)
        invariant Gone(slots, ks, ls, right.keys[..], right.lvs[..], ctr)
      {
        ghost var k0, l0, rk, rl := keys[..], lvs[..], right.keys[..], right.lvs[..];
        DropOne(slots, ctr);
        MoveOne(right, ctr);
        MovedOne(slots, ks, ls, k0, l0, keys[..], lvs[..], ctr);
        GoneOne(slots, ks, ls, k0, l0, rk, rl, right.keys[..], right.lvs[..], ctr);
      }
      right.perm.SplitDest(FANOUT - KEEP);
      EntriesHalved(slots, ks, ls, perm.Slots(), keys[..], lvs[..], right.perm.Slots(), right.keys[..], right.lvs[..]);
      HalvesSorted(EntriesOf(slots, ks, ls));
    }

    /** The split of a full border together with the insertion that caused it. */
    method Split(right: BorderNode, t: KeyTuple, p: Payload, rank: nat)
      requires Valid() && |Contents()| == FANOUT && right.Framed() && right.perm.Valid()
      requires right.perm != perm && right.keys != keys && right.lvs != lvs
      requires Canonical(t) && Lookup(Contents(), t) == |Contents()| && rank == Rank(Contents(), Ord(t))
      modifies perm, keys, lvs, right.perm, right.keys, right.lvs
      ensures Valid() && right.Valid()
      ensures (Contents(), right.Contents()) == SplitEntries(old(Contents()), rank, Entry(t, p))
      ensures right.Contents() != [] && right.keys[0] == right.Contents()[0].key && right.keys[0].len > 0
    {
      hide Fit, SlotsOf, CountOf, Rank, Lookup, SplitGoesLow, Ord;
      ghost var es := Contents();
      MoveUpper(right);
      FitFacts(perm.body);
      FitFacts(right.perm.body);
      SplitIsRank(es, rank, Entry(t, p));
      HalfRanks(es, rank, t);
      assert right.keys[0] == es[KEEP].key;
      if SplitGoesLow(t, right.keys[0], rank, KEEP) {
        var slot := perm.GetEmptySlot();
        InsertLvAt(slot, t, p, rank);
      } else {
        var slot := right.perm.GetEmptySlot();
        assert right.perm.Slots()[0] == 0;
        right.InsertLvAt(slot, t, p, rank - KEEP);
        assert right.perm.Slots()[0] == 0 && right.Contents()[0] == es[KEEP];
      }
    }
  }

  /** The rank in the half that takes the key. */
  lemma HalfRanks(es: seq<Entry>, rank: nat, t: KeyTuple)
    requires Sorted(es) && |es| == FANOUT && Canonical(t) && Lookup(es, t) == |es| && rank == Rank(es, Ord(t))
    ensures rank <= KEEP ==> Rank(es[..KEEP], Ord(t)) == rank && Lookup(es[..KEEP], t) == KEEP
    ensures rank > KEEP ==> Rank(es[KEEP..], Ord(t)) == rank - KEEP && Lookup(es[KEEP..], t) == FANOUT - KEEP
  {
    hide Rank, Lookup, Ord, Sorted;
    RankStrict(es, rank, t);
    HalvesSorted(es);
    if rank <= KEEP {
      assert rank < KEEP ==> es[..KEEP][rank] == es[rank];
      LookupPast(es[..KEEP], t, rank);
    } else {
      var high := es[KEEP..];
      forall j | 0 <= j < rank - KEEP
        ensures Ord(high[j].key) < Ord(t)
      {
        assert high[j] == es[KEEP + j];
      }
      assert rank < FANOUT ==> high[rank - KEEP] == es[rank];
      LookupPast(high, t, rank - KEEP);
    }
  }

  lemma RankStrict(es: seq<Entry>, rank: nat, t: KeyTuple)
    requires Sorted(es) && Canonical(t) && Lookup(es, t) == |es| && rank == Rank(es, Ord(t))
    ensures forall j :: 0 <= j < rank ==> Ord(es[j].key) < Ord(t)
    ensures rank < |es| ==> Ord(t) < Ord(es[rank].key)
  {
    hide Ord;
    if rank < |es| && Ord(t) == Ord(es[rank].key) {
      OrdInjective(t, es[rank].key);
    }
  }

  /** The slots of ranks `from` to `to` still hold what they held. */
  predicate Kept(slots: seq<nat>, ks: seq<KeyTuple>, ls: seq<Lv>, keys: seq<KeyTuple>, lvs: seq<Lv>, from: nat, to: nat)
    requires |ks| == |ls| == |keys| == |lvs| && forall i :: 0 <= i < |slots| ==> slots[i] < |ks|
  {
    forall i :: from <= i < to && i < |slots| ==> keys[slots[i]] == ks[slots[i]] && lvs[slots[i]] == ls[slots[i]]
  }

  /** The first `n` slots of the new border hold what ranks 8 and up held. */
  predicate Gone(slots: seq<nat>, ks: seq<KeyTuple>, ls: seq<Lv>, keys: seq<KeyTuple>, lvs: seq<Lv>, n: nat)
    requires |ks| == |ls| == |keys| == |lvs| == FANOUT && forall i :: 0 <= i < |slots| ==> slots[i] < FANOUT
    requires n <= FANOUT
  {
    forall j :: 0 <= j < n && KEEP + j < |slots| ==> keys[j] == ks[slots[KEEP + j]] && lvs[j] == ls[slots[KEEP + j]]
  }

  lemma DropOne(slots: seq<nat>, ctr: nat)
    requires |slots| == FANOUT && ctr < FANOUT - KEEP
    ensures (slots[..KEEP] + slots[KEEP + ctr..])[KEEP] == slots[KEEP + ctr]
    ensures RemoveAt(slots[..KEEP] + slots[KEEP + ctr..], KEEP) == slots[..KEEP] + slots[KEEP + ctr + 1..]
  {
  }

  lemma KeptAll(slots: seq<nat>, ks: seq<KeyTuple>, ls: seq<Lv>, rk: seq<KeyTuple>, rl: seq<Lv>)
    requires |ks| == |ls| == |rk| == |rl| == FANOUT && |slots| == FANOUT && forall i :: 0 <= i < |slots| ==> slots[i] < FANOUT
    ensures Kept(slots, ks, ls, ks, ls, 0, KEEP) && Kept(slots, ks, ls, ks, ls, KEEP, FANOUT)
    ensures Gone(slots, ks, ls, rk, rl, 0) && slots == slots[..KEEP] + slots[KEEP..]
  {
  }

  lemma MovedOne(slots: seq<nat>, ks: seq<KeyTuple>, ls: seq<Lv>, k0: seq<KeyTuple>, l0: seq<Lv>,
                 keys: seq<KeyTuple>, lvs: seq<Lv>, ctr: nat)
    requires |ks| == |ls| == |k0| == |l0| == |keys| == |lvs| == FANOUT && |slots| == FANOUT && ctr < FANOUT - KEEP
    requires Permutations.Distinct(slots) && forall i :: 0 <= i < |slots| ==> slots[i] < FANOUT
    requires Kept(slots, ks, ls, k0, l0, 0, KEEP) && Kept(slots, ks, ls, k0, l0, KEEP + ctr, FANOUT)
    requires forall i :: 0 <= i < FANOUT && i != slots[KEEP + ctr] ==> keys[i] == k0[i] && lvs[i] == l0[i]
    ensures Kept(slots, ks, ls, keys, lvs, 0, KEEP) && Kept(slots, ks, ls, keys, lvs, KEEP + ctr + 1, FANOUT)
  {
  }

  lemma GoneOne(slots: seq<nat>, ks: seq<KeyTuple>, ls: seq<Lv>, k0: seq<KeyTuple>, l0: seq<Lv>,
                rk: seq<KeyTuple>, rl: seq<Lv>, keys: seq<KeyTuple>, lvs: seq<Lv>, ctr: nat)
    requires |ks| == |ls| == |k0| == |l0| == |rk| == |rl| == |keys| == |lvs| == FANOUT && |slots| == FANOUT
    requires ctr < FANOUT - KEEP && forall i :: 0 <= i < |slots| ==> slots[i] < FANOUT
    requires Kept(slots, ks, ls, k0, l0, KEEP + ctr, FANOUT) && Gone(slots, ks, ls, rk, rl, ctr)
    requires keys == rk[ctr := k0[slots[KEEP + ctr]]] && lvs == rl[ctr := l0[slots[KEEP + ctr]]]
    ensures Gone(slots, ks, ls, keys, lvs, ctr + 1)
  {
  }

  lemma EntriesHalved(slots: seq<nat>, ks: seq<KeyTuple>, ls: seq<Lv>, low: seq<nat>, keys: seq<KeyTuple>, lvs: seq<Lv>,
                      high: seq<nat>, keys': seq<KeyTuple>, lvs': seq<Lv>)
    requires |slots| == FANOUT && |ks| == |ls| == |keys| == |lvs| == |keys'| == |lvs'| == FANOUT
    requires SlotsHeld(slots, ls)
    requires low == slots[..KEEP] + slots[FANOUT..] && Kept(slots, ks, ls, keys, lvs, 0, KEEP)
    requires high == seq(FANOUT - KEEP, i => i) && Gone(slots, ks, ls, keys', lvs', FANOUT - KEEP)
    ensures SlotsHeld(low, lvs) && EntriesOf(low, keys, lvs) == EntriesOf(slots, ks, ls)[..KEEP]
    ensures SlotsHeld(high, lvs') && EntriesOf(high, keys', lvs') == EntriesOf(slots, ks, ls)[KEEP..]
  {
  }

  lemma HalvesSorted(es: seq<Entry>)
    requires Sorted(es) && |es| == FANOUT
    ensures Sorted(es[..KEEP]) && Sorted(es[KEEP..])
  {
  }

  /** Two empty remainders are the same tuple. */
  lemma BlankKeys(a: KeyTuple, b: KeyTuple)
    requires Canonical(a) && Canonical(b) && ((a.len == 0 && b.len == 0) || (a.len == b.len && a.slice == b.slice))
    ensures a == b
  {
    assert a.slice == b.slice;
  }

  lemma EntriesInserted(slots: seq<nat>, keys: seq<KeyTuple>, lvs: seq<Lv>, rank: nat, index: nat, e: Entry)
    requires |keys| == |lvs| && SlotsHeld(slots, lvs) && rank <= |slots| && index < |keys| && index !in slots
    ensures SlotsHeld(InsertAt(slots, rank, index), lvs[index := Held(e.payload)])
    ensures EntriesOf(InsertAt(slots, rank, index), keys[index := e.key], lvs[index := Held(e.payload)]) ==
            InsertAt(EntriesOf(slots, keys, lvs), rank, e)
  {
    var s' := InsertAt(slots, rank, index);
    forall i | 0 <= i < |s'|
      ensures s'[i] == if i < rank then slots[i] else if i == rank then index else slots[i - 1]
    {
    }
  }

  lemma KeysUnchanged(es: seq<Entry>, rank: nat, p: Payload)
    requires Sorted(es) && rank < |es|
    ensures Sorted(es[rank := Entry(es[rank].key, p)])
  {
  }

  lemma EntryChanged(slots: seq<nat>, keys: seq<KeyTuple>, lvs: seq<Lv>, rank: nat, p: Payload)
    requires |keys| == |lvs| && SlotsHeld(slots, lvs) && rank < |slots| && Permutations.Distinct(slots)
    ensures SlotsHeld(slots, lvs[slots[rank] := Held(p)])
    ensures EntriesOf(slots, keys, lvs[slots[rank] := Held(p)]) ==
            EntriesOf(slots, keys, lvs)[rank := Entry(keys[slots[rank]], p)]
  {
    forall i | 0 <= i < |slots| && i != rank
      ensures slots[i] != slots[rank]
    {
    }
  }

  lemma EntriesRemoved(slots: seq<nat>, keys: seq<KeyTuple>, lvs: seq<Lv>, rank: nat, lvs': seq<Lv>)
    requires |keys| == |lvs| == |lvs'| && SlotsHeld(slots, lvs) && rank < |slots| && Permutations.Distinct(slots)
    requires forall i :: 0 <= i < |lvs| && i != slots[rank] ==> lvs'[i] == lvs[i]
    ensures SlotsHeld(RemoveAt(slots, rank), lvs')
    ensures EntriesOf(RemoveAt(slots, rank), keys, lvs') == RemoveAt(EntriesOf(slots, keys, lvs), rank)
  {
    var s' := RemoveAt(slots, rank);
    forall i | 0 <= i < |s'|
      ensures s'[i] == (if i < rank then slots[i] else slots[i + 1]) && s'[i] != slots[rank]
    {
    }
  }

  predicate SlotsHeld(slots: seq<nat>, lvs: seq<Lv>) {
    forall i :: 0 <= i < |slots| ==> slots[i] < |lvs| && lvs[slots[i]].Held?
  }

  function EntriesOf(slots: seq<nat>, keys: seq<KeyTuple>, lvs: seq<Lv>): (es: seq<Entry>)
    requires |keys| == |lvs| && SlotsHeld(slots, lvs)
    ensures |es| == |slots|
  {
    seq(|slots|, i requires 0 <= i < |slots| => Entry(keys[slots[i]], lvs[slots[i]].load))
  }
}
