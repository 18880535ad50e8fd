/** The permutation word of a border: which slots hold keys, in key order, packed into 64 bits. */
module Permutations {
  import opened Keys
  import opened Contents
  import opened Words

  function CountOf(w: bv64): (n: nat)
    ensures n < 16
  {
    Low(w) as nat
  }

  /** The slots in use, by rank. */
  function SlotsOf(w: bv64): (s: seq<nat>)
    ensures |s| == CountOf(w)
  {
    seq(CountOf(w), i requires 0 <= i => SlotAt(w, i))
  }

  /** The slot of the key at rank `i`: the count is shifted out, then the ranks below. */
  function SlotAt(w: bv64, i: nat): nat {
    Nib(w, i + 1) as nat
  }

  predicate Distinct(s: seq<nat>) {
    forall i, j :: 0 <= i < j < |s| ==> s[i] != s[j]
  }

  /** Slots are distinct and exist, and the word holds nothing beyond its count. */
  ghost predicate Fit(w: bv64) {
    && Distinct(SlotsOf(w)) && (forall i :: 0 <= i < CountOf(w) ==> SlotsOf(w)[i] < FANOUT)
    && (forall k :: CountOf(w) < k < 16 ==> Nib(w, k) == 0)
  }

  lemma FitFacts(w: bv64)
    requires Fit(w)
    ensures Distinct(SlotsOf(w)) && |SlotsOf(w)| <= FANOUT
    ensures forall i :: 0 <= i < |SlotsOf(w)| ==> SlotsOf(w)[i] < FANOUT
  {
  }

  function Recount(w: bv64, c: bv64): bv64 {
    Or(Clear(w), c)
  }

  // ---- the arithmetic of insert and delete_rank ----

  /** Everything above `rank` moves up one nibble and `pos` takes the gap; the count is already new. */
  function InsertWord(w: bv64, rank: nat, pos: bv64): bv64
    requires rank < CountOf(w)
  {
    var left := if rank == CountOf(w) - 1 then 0 else UpBy(DownBy(w, rank + 1), rank + 2);
    Or(Clear(Or(Or(left, UpBy(pos, rank + 1)), RightPart(w, rank))), Low(w))
  }

  /** The count and the slots below `rank`. */
  function RightPart(w: bv64, rank: nat): bv64
    requires rank < FANOUT
  {
    if rank == 0 then 0 else DownBy(UpBy(w, FANOUT - rank), FANOUT - rank)
  }

  /** Everything above `rank` moves down one nibble; the count is still old. */
  function DeleteWord(w: bv64, rank: nat): bv64
    requires rank < CountOf(w)
  {
    var left := if rank == CountOf(w) - 1 || rank == FANOUT - 1 then 0 else UpBy(DownBy(w, rank + 2), rank + 1);
    Or(Clear(Or(left, RightPart(w, rank))), Low(w))
  }

  lemma {:induction false} NibBeyond(x: bv64, k: nat)
    requires k >= 16
    ensures Nib(x, k) == 0
  {
    hide Down, Low;
    Empties(x);
    NibDown(x, 16, k - 16);
    NibZero(k - 16);
  }

  /** The part below a rank, cut out by shifting up and down again. */
  lemma NibRight(w: bv64, rank: nat, k: nat)
    requires rank <= FANOUT && k < 16
    ensures Nib(DownBy(UpBy(w, FANOUT - rank), FANOUT - rank), k) == if k <= rank then Nib(w, k) else 0
  {
    hide Down, Low, Up;
    var a := FANOUT - rank;
    NibDown(UpBy(w, a), a, k);
    if k + a <= 15 {
      NibUp(w, a, k + a);
    } else {
      NibBeyond(UpBy(w, a), k + a);
    }
  }

  /** The part above a rank, moved. */
  lemma NibLeft(w: bv64, down: nat, up: nat, k: nat)
    requires k < 16
    ensures Nib(UpBy(DownBy(w, down), up), k) == if k < up then 0 else Nib(w, k - up + down)
  {
    hide Down, Low, Up, Nib, UpBy, DownBy;
    NibUp(DownBy(w, down), up, k);
    if k >= up {
      NibDown(w, down, k - up);
    }
  }

  lemma NibPos(pos: bv64, k: nat)
    requires pos < 16
    ensures Nib(pos, k) == if k == 0 then pos else 0
  {
    SmallBits(pos);
    hide Down, Low;
    if k > 0 {
      NibZero(k - 1);
    }
  }

  lemma SmallBits(pos: bv64)
    requires pos < 16
    ensures Low(pos) == pos && Down(pos) == 0
  {
  }

  lemma NibTarget(pos: bv64, rank: nat, k: nat)
    requires pos < 16 && k < 16
    ensures Nib(UpBy(pos, rank + 1), k) == if k == rank + 1 then pos else 0
  {
    hide Down, Low, Up;
    NibUp(pos, rank + 1, k);
    if k >= rank + 1 {
      NibPos(pos, k - rank - 1);
    }
  }

  lemma NibRightPart(w: bv64, rank: nat, k: nat)
    requires rank < FANOUT && k < 16
    ensures 0 < k <= rank ==> Nib(RightPart(w, rank), k) == Nib(w, k)
    ensures k > rank ==> Nib(RightPart(w, rank), k) == 0
  {
    hide DownBy, UpBy, Nib;
    NibRight(w, rank, k);
    NibZero(k);
  }

  lemma NibInsertLeft(w: bv64, rank: nat, k: nat)
    requires rank < CountOf(w) && k < 16
    requires forall j :: CountOf(w) <= j < 16 ==> Nib(w, j) == 0
    ensures Nib(if rank == CountOf(w) - 1 then 0 else UpBy(DownBy(w, rank + 1), rank + 2), k) ==
            if k < rank + 2 then 0 else Nib(w, k - 1)
  {
    hide DownBy, UpBy, Nib, Low;
    if rank == CountOf(w) - 1 {
      NibZero(k);
    } else {
      NibLeft(w, rank + 1, rank + 2, k);
    }
  }

  lemma NibDeleteLeft(w: bv64, rank: nat, k: nat)
    requires rank < CountOf(w) && k < 16
    requires forall j :: CountOf(w) < j < 16 ==> Nib(w, j) == 0
    ensures Nib(if rank == CountOf(w) - 1 || rank == FANOUT - 1 then 0 else UpBy(DownBy(w, rank + 2), rank + 1), k) ==
            if k < rank + 1 then 0 else Nib(w, k + 1)
  {
    hide DownBy, UpBy, Nib, Low;
    NibBeyond(w, 16);
    if rank == CountOf(w) - 1 {
      NibZero(k);
    } else {
      NibLeft(w, rank + 2, rank + 1, k);
    }
  }

  lemma OrZeroes()
    ensures forall x :: Or(x, 0) == x && Or(0, x) == x
  {
    forall x
      ensures Or(x, 0) == x && Or(0, x) == x
    {
      OrZero(x);
    }
  }

  lemma InsertNib(w: bv64, rank: nat, pos: bv64, k: nat)
    requires rank < CountOf(w) && pos < 16 && k < 16
    requires forall j :: CountOf(w) <= j < 16 ==> Nib(w, j) == 0
    ensures Nib(InsertWord(w, rank, pos), k) ==
            if k == 0 then Low(w) else if k <= rank then Nib(w, k) else if k == rank + 1 then pos else Nib(w, k - 1)
  {
    LowBits(w);
    hide Low, Or, Clear, DownBy, UpBy, Nib, RightPart, CountOf;
    var left := if rank == CountOf(w) - 1 then 0 else UpBy(DownBy(w, rank + 1), rank + 2);
    var target, right := UpBy(pos, rank + 1), RightPart(w, rank);
    NibRecount(Or(Or(left, target), right), Low(w), k);
    NibOr(Or(left, target), right, k);
    NibOr(left, target, k);
    NibTarget(pos, rank, k);
    NibInsertLeft(w, rank, k);
    NibRightPart(w, rank, k);
    OrZeroes();
  }

  lemma DeleteNib(w: bv64, rank: nat, k: nat)
    requires rank < CountOf(w) && k < 16
    requires forall j :: CountOf(w) < j < 16 ==> Nib(w, j) == 0
    ensures Nib(DeleteWord(w, rank), k) ==
            if k == 0 then Low(w) else if k <= rank then Nib(w, k) else Nib(w, k + 1)
  {
    LowBits(w);
    hide Low, Or, Clear, DownBy, UpBy, Nib, RightPart, CountOf;
    var left := if rank == CountOf(w) - 1 || rank == FANOUT - 1 then 0 else UpBy(DownBy(w, rank + 2), rank + 1);
    NibRecount(Or(left, RightPart(w, rank)), Low(w), k);
    NibOr(left, RightPart(w, rank), k);
    NibDeleteLeft(w, rank, k);
    NibRightPart(w, rank, k);
    OrZeroes();
  }

  // ---- the word as a sequence of slots ----

  lemma CountStep(c: bv64)
    requires c < 15
    ensures c + 1 < 16 && (c + 1) as nat == c as nat + 1
  {
  }

  lemma CountBack(c: bv64)
    requires 0 < c < 16
    ensures c - 1 < 16 && (c - 1) as nat == c as nat - 1
  {
  }

  lemma CountZero(c: bv64)
    requires c < 16
    ensures c as nat == 0 <==> c == 0
    ensures c as nat < 15 <==> c < 15
  {
  }

  lemma RecountNib(w: bv64, c: bv64, k: nat)
    requires c < 16
    ensures Nib(Recount(w, c), k) == if k == 0 then c else Nib(w, k)
    ensures Low(Recount(w, c)) == c
  {
    hide Low, Or, Clear, DownBy;
    NibRecount(w, c, k);
    RecountBits(w, c);
  }

  /** The count goes up, then the slot goes in: together they insert into the sequence. */
  function Inserted(w: bv64, rank: nat, pos: bv64): bv64
    requires CountOf(w) < FANOUT && rank <= CountOf(w)
  {
    CountUp(w);
    InsertWord(Recount(w, Low(w) + 1), rank, pos)
  }

  lemma CountUp(w: bv64)
    requires CountOf(w) < FANOUT
    ensures Low(w) + 1 < 16 && CountOf(Recount(w, Low(w) + 1)) == CountOf(w) + 1
    ensures Low(Recount(w, Low(w) + 1)) == Low(w) + 1
  {
    LowBits(w);
    hide Low, Recount;
    CountZero(Low(w));
    CountStep(Low(w));
    RecountNib(w, Low(w) + 1, 0);
  }

  lemma CountDown(w: bv64)
    requires CountOf(w) > 0
    ensures Low(w) - 1 < 16 && (Low(w) - 1) as nat == CountOf(w) - 1
  {
    LowBits(w);
    hide Low;
    CountZero(Low(w));
    CountBack(Low(w));
  }

  /** The slot goes out, then the count goes down. */
  function Deleted(w: bv64, rank: nat): bv64
    requires rank < CountOf(w)
  {
    Recount(DeleteWord(w, rank), Low(w) - 1)
  }

  lemma InsertedNib(w: bv64, rank: nat, pos: bv64, k: nat)
    requires Fit(w) && CountOf(w) < FANOUT && rank <= CountOf(w) && pos < 16 && k < 16
    ensures Nib(Inserted(w, rank, pos), k) ==
            if k == 0 then Low(w) + 1 else if k <= rank then Nib(w, k) else if k == rank + 1 then pos else Nib(w, k - 1)
    ensures CountOf(Inserted(w, rank, pos)) == CountOf(w) + 1
  {
    CountUp(w);
    hide Low, Recount, InsertWord, SlotsOf, Distinct;
    var w1 := Recount(w, Low(w) + 1);
    forall j | j < 16
      ensures Nib(w1, j) == if j == 0 then Low(w) + 1 else Nib(w, j)
    {
      RecountNib(w, Low(w) + 1, j);
    }
    InsertNib(w1, rank, pos, k);
    InsertNib(w1, rank, pos, 0);
  }

  lemma DeletedNib(w: bv64, rank: nat, k: nat)
    requires Fit(w) && rank < CountOf(w) && k < 16
    ensures Nib(Deleted(w, rank), k) ==
            if k == 0 then Low(w) - 1 else if k <= rank then Nib(w, k) else Nib(w, k + 1)
    ensures CountOf(Deleted(w, rank)) == CountOf(w) - 1
  {
    CountDown(w);
    hide Low, Recount, DeleteWord, SlotsOf, Distinct;
    DeleteNib(w, rank, k);
    RecountNib(DeleteWord(w, rank), Low(w) - 1, k);
    RecountNib(DeleteWord(w, rank), Low(w) - 1, 0);
  }

  lemma InsertedSlotAt(w: bv64, rank: nat, pos: bv64, i: nat)
    requires Fit(w) && CountOf(w) < FANOUT && rank <= CountOf(w) && pos < 16 && i < 15
    ensures SlotAt(Inserted(w, rank, pos), i) ==
            if i < rank then SlotAt(w, i) else if i == rank then pos as nat else SlotAt(w, i - 1)
  {
    hide Low, Inserted, Nib, Fit, SlotsOf;
    InsertedNib(w, rank, pos, i + 1);
  }

  lemma InsertedSlots(w: bv64, rank: nat, pos: bv64)
    requires Fit(w) && CountOf(w) < FANOUT && rank <= CountOf(w) && pos < 16
    ensures SlotsOf(Inserted(w, rank, pos)) == InsertAt(SlotsOf(w), rank, pos as nat)
  {
    InsertedNib(w, rank, pos, 0);
    hide Low, Inserted, Nib, Fit, SlotAt, CountOf;
    var w' := Inserted(w, rank, pos);
    var s' := InsertAt(SlotsOf(w), rank, pos as nat);
    forall i | 0 <= i < |s'|
      ensures SlotsOf(w')[i] == s'[i]
    {
      InsertedSlotAt(w, rank, pos, i);
    }
  }

  lemma InsertedZeros(w: bv64, rank: nat, pos: bv64)
    requires Fit(w) && CountOf(w) < FANOUT && rank <= CountOf(w) && pos < 16
    ensures forall k :: CountOf(w) + 1 < k < 16 ==> Nib(Inserted(w, rank, pos), k) == 0
  {
    hide Low, Inserted, Nib, SlotsOf;
    forall k | CountOf(w) + 1 < k < 16
      ensures Nib(Inserted(w, rank, pos), k) == 0
    {
      InsertedNib(w, rank, pos, k);
    }
  }

  lemma DeletedSlotAt(w: bv64, rank: nat, i: nat)
    requires Fit(w) && rank < CountOf(w) && i < 15
    ensures SlotAt(Deleted(w, rank), i) == if i < rank then SlotAt(w, i) else SlotAt(w, i + 1)
  {
    hide Low, Deleted, Nib, Fit, SlotsOf;
    DeletedNib(w, rank, i + 1);
  }

  lemma DeletedSlots(w: bv64, rank: nat)
    requires Fit(w) && rank < CountOf(w)
    ensures SlotsOf(Deleted(w, rank)) == RemoveAt(SlotsOf(w), rank)
  {
    DeletedNib(w, rank, 0);
    hide Low, Deleted, Nib, Fit, SlotAt, CountOf;
    var w' := Deleted(w, rank);
    var s' := RemoveAt(SlotsOf(w), rank);
    forall i | 0 <= i < |s'|
      ensures SlotsOf(w')[i] == s'[i]
    {
      DeletedSlotAt(w, rank, i);
    }
  }

  lemma DeletedZeros(w: bv64, rank: nat)
    requires Fit(w) && rank < CountOf(w)
    ensures forall k :: CountOf(w) - 1 < k < 16 ==> Nib(Deleted(w, rank), k) == 0
  {
    hide Low, Deleted, Nib, SlotsOf;
    NibBeyond(w, 16);
    forall k | CountOf(w) - 1 < k < 16
      ensures Nib(Deleted(w, rank), k) == 0
    {
      DeletedNib(w, rank, k);
    }
  }

  lemma InsertedFit(w: bv64, rank: nat, pos: bv64)
    requires Fit(w) && CountOf(w) < FANOUT && rank <= CountOf(w) && pos < 15 && (pos as nat) !in SlotsOf(w)
    ensures Fit(Inserted(w, rank, pos))
  {
    CountZero(pos);
    hide Low, Inserted, Nib, SlotsOf, CountOf;
    InsertedSlots(w, rank, pos);
    InsertedZeros(w, rank, pos);
    InsertedNib(w, rank, pos, 0);
    InsertDistinct(SlotsOf(w), rank, pos as nat);
  }

  lemma InsertDistinct(s: seq<nat>, r: nat, p: nat)
    requires Distinct(s) && r <= |s| && p !in s && p < FANOUT && forall i :: 0 <= i < |s| ==> s[i] < FANOUT
    ensures Distinct(InsertAt(s, r, p)) && forall i :: 0 <= i <= |s| ==> InsertAt(s, r, p)[i] < FANOUT
  {
    var t := InsertAt(s, r, p);
    forall i, j | 0 <= i < j < |t|
      ensures t[i] != t[j]
    {
      assert t[i] == if i < r then s[i] else if i == r then p else s[i - 1];
      assert t[j] == if j < r then s[j] else if j == r then p else s[j - 1];
    }
  }

  lemma DeletedFit(w: bv64, rank: nat)
    requires Fit(w) && rank < CountOf(w)
    ensures Fit(Deleted(w, rank))
  {
    hide Low, Deleted, Nib, SlotsOf;
    DeletedSlots(w, rank);
    DeletedZeros(w, rank);
    DeletedNib(w, rank, 0);
  }

  /** Deleting what was inserted restores the word, bit for bit. */
  lemma DeleteUndoesInsert(w: bv64, rank: nat, pos: bv64)
    requires Fit(w) && CountOf(w) < FANOUT && rank <= CountOf(w) && pos < 15 && (pos as nat) !in SlotsOf(w)
    ensures CountOf(Inserted(w, rank, pos)) == CountOf(w) + 1
    ensures Deleted(Inserted(w, rank, pos), rank) == w
  {
    InsertedFit(w, rank, pos);
    LowBits(w);
    hide Low, Inserted, Deleted, Fit;
    var w' := Inserted(w, rank, pos);
    InsertedNib(w, rank, pos, 0);
    NibBeyond(w, 16);
    NibBeyond(w', 16);
    forall k | 0 <= k < 16
      ensures Nib(Deleted(w', rank), k) == Nib(w, k)
    {
      UndoneNib(w, rank, pos, k);
    }
    WordIsNibbles(Deleted(w', rank), w);
  }

  lemma UndoneNib(w: bv64, rank: nat, pos: bv64, k: nat)
    requires Fit(w) && CountOf(w) < FANOUT && rank <= CountOf(w) && pos < 15 && k < 16
    requires Fit(Inserted(w, rank, pos)) && CountOf(Inserted(w, rank, pos)) == CountOf(w) + 1
    ensures Nib(Deleted(Inserted(w, rank, pos), rank), k) == Nib(w, k)
  {
    NibZeroIsLow(w);
    NibZeroIsLow(Inserted(w, rank, pos));
    hide Low, Inserted, Deleted, SlotsOf, Distinct, Nib;
    var w' := Inserted(w, rank, pos);
    DeletedNib(w', rank, k);
    InsertedNib(w, rank, pos, k);
    if k + 1 < 16 {
      InsertedNib(w, rank, pos, k + 1);
    } else {
      NibBeyond(w', 16);
    }
    InsertedNib(w, rank, pos, 0);
  }

  lemma NibZeroIsLow(w: bv64)
    ensures Nib(w, 0) == Low(w)
  {
  }

  // ---- the word in memory ----

  /** The numbers below `n`. */
  function Upto(n: nat): (r: set<nat>)
    ensures |r| == n && forall e :: e in r <==> 0 <= e < n
  {
    if n == 0 then {} else Upto(n - 1) + {n - 1}
  }

  function Elements(s: seq<nat>): (r: set<nat>)
    ensures |r| <= |s| && forall e :: e in r <==> e in s
  {
    if s == [] then {} else Elements(s[1..]) + {s[0]}
  }

  /** Fewer than fifteen slots leave one of the fifteen free. */
  lemma SomeFree(s: seq<nat>)
    requires |s| < FANOUT
    ensures exists e: nat :: e < FANOUT && e !in s
  {
    if forall e: nat :: e < FANOUT ==> e in s {
      forall e | e in Upto(FANOUT) ensures e in Elements(s) {}
      Subset(Upto(FANOUT), Elements(s));
    }
  }

  lemma {:induction false} Subset(a: set<nat>, b: set<nat>)
    requires a <= b
    ensures |a| <= |b|
  {
    if a != {} {
      var x :| x in a;
      Subset(a - {x}, b - {x});
    }
  }

  /** A slot number as a machine word. */
  function Code(p: nat): (c: bv64)
    requires p < 16
    ensures c < 16 && c as nat == p
  {
    if p == 0 then 0
    else
      assert Code(p - 1) < 15 by { CountZero(Code(p - 1)); }
      CountStep(Code(p - 1));
      Code(p - 1) + 1
  }

  lemma CodeSmall(p: nat)
    requires p < 15
    ensures Code(p) < 15
  {
    CountZero(Code(p));
  }

  class Permutation {
    var body: bv64

    ghost predicate Valid()
      reads this
    {
      Fit(body)
    }

    function Slots(): seq<nat>
      reads this
    {
      SlotsOf(body)
    }

    constructor ()
      ensures Valid() && Slots() == []
    {
      body := 0;
      new;
      EmptyWord();
    }

    method GetCnk() returns (n: nat)
      ensures n == |Slots()|
    {
      n := CountOf(body);
    }

    method GetIndexOfRank(rank: nat) returns (slot: nat)
      requires Valid() && rank < |Slots()|
      ensures slot == Slots()[rank]
    {
      var per := Down(body);
      assert DownBy(per, 0) == per && DownBy(body, rank + 1) == DownBy(per, rank);
      if rank != 0 {
        per := DownBy(per, rank);
      }
      slot := Low(per) as nat;
      assert slot == SlotAt(body, rank);
    }

    method IncKeyNum()
      requires |Slots()| < FANOUT
      modifies this
      ensures body == Recount(old(body), Low(old(body)) + 1)
    {
      body := Or(Clear(body), Low(body) + 1);
    }

    method DecKeyNum()
      requires |Slots()| > 0
      modifies this
      ensures body == Recount(old(body), Low(old(body)) - 1)
    {
      body := Or(Clear(body), Low(body) - 1);
    }

    method Insert(rank: nat, pos: nat)
      requires rank < CountOf(body) && pos < FANOUT
      modifies this
      ensures body == InsertWord(old(body), rank, Code(pos))
    {
      body := InsertWord(body, rank, Code(pos));
    }

    method DeleteRank(rank: nat)
      requires rank < CountOf(body)
      modifies this
      ensures body == DeleteWord(old(body), rank)
    {
      body := DeleteWord(body, rank);
    }

    /** As a border uses them: count first, then the slot. */
    method InsertSlot(rank: nat, pos: nat)
      requires Valid() && |Slots()| < FANOUT && rank <= |Slots()| && pos < FANOUT && pos !in Slots()
      modifies this
      ensures Valid() && Slots() == InsertAt(old(Slots()), rank, pos)
    {
      ghost var w := body;
      CodeSmall(pos);
      hide Fit, InsertWord, Recount, CountOf, Low, Code;
      CountUp(w);
      InsertedSlots(w, rank, Code(pos));
      InsertedFit(w, rank, Code(pos));
      IncKeyNum();
      Insert(rank, pos);
    }

    method DeleteSlot(rank: nat)
      requires Valid() && rank < |Slots()|
      modifies this
      ensures Valid() && Slots() == RemoveAt(old(Slots()), rank)
    {
      ghost var w := body;
      hide Fit, DeleteWord, Recount;
      DeletedSlots(w, rank);
      DeletedFit(w, rank);
      DeleteKeepsCount(w, rank);
      DeleteRank(rank);
      DecKeyNum();
    }

    /** The least slot not in use; a full border has none, and 0 comes back. */
    method GetEmptySlot() returns (e: nat)
      requires Valid()
      ensures e < FANOUT
      ensures |Slots()| < FANOUT ==> e !in Slots() && forall j :: 0 <= j < e ==> j in Slots()
    {
      hide Low, Down, Nib, SlotAt, Fit;
      var cnk := CountOf(body);
      if cnk == 0 {
        return 0;
      }
      var used := MarkUsed(body);
      for i := 0 to FANOUT
        invariant forall j :: 0 <= j < i ==> used[j]
      {
        if !used[i] {
          return i;
        }
      }
      if cnk < FANOUT {
        SomeFree(Slots());
      }
      return 0;
    }

    /** One bit for each slot, set by shifting through the word. */
    static method MarkUsed(w: bv64) returns (used: seq<bool>)
      requires Fit(w)
      ensures |used| == FANOUT && forall j :: 0 <= j < FANOUT ==> (used[j] <==> j in SlotsOf(w))
    {
      hide Low, Down, Nib, DownBy, SlotsOf, CountOf;
      StartsWhole(w);
      var per := w;
      used := seq(FANOUT, i => false);
      for i := 0 to CountOf(w)
        invariant per == DownBy(w, i) && |used| == FANOUT
        invariant forall j :: 0 <= j < FANOUT ==> (used[j] <==> j in SlotsOf(w)[..i])
      {
        DownTail(w, i + 1);
        per := Down(per);
        SlotIsLow(w, i);
        used := used[Low(per) as nat := true];
        assert SlotsOf(w)[..i + 1] == SlotsOf(w)[..i] + [SlotsOf(w)[i]];
      }
      assert SlotsOf(w)[..CountOf(w)] == SlotsOf(w);
    }

    /** The new border of a split holds its keys in slot order. */
    method SplitDest(num: nat)
      requires 0 < num <= FANOUT
      modifies this
      ensures Valid() && Slots() == seq(num, i => i)
    {
      hide Low, Down, Or, Up;
      var w: bv64 := 0;
      forall k
        ensures Nib(0, k) == 0
      {
        NibZero(k);
      }
      for i := 1 to num
        invariant forall k :: 0 <= k < 16 ==> Nib(w, k) as nat == if 2 <= k <= i then k - 1 else 0
      {
        SplitStep(w, i, Or(w, UpBy(Code(i), i + 1)));
        w := Or(w, UpBy(Code(i), i + 1));
      }
      body := Or(w, Code(num));
      SplitCount(w, num, body);
    }
  }

  lemma EmptyWord()
    ensures Fit(0) && SlotsOf(0) == []
  {
    forall k
      ensures Nib(0, k) == 0
    {
      NibZero(k);
    }
  }

  lemma DeleteKeepsCount(w: bv64, rank: nat)
    requires rank < CountOf(w)
    ensures CountOf(DeleteWord(w, rank)) == CountOf(w) && Low(DeleteWord(w, rank)) == Low(w)
  {
    LowBits(w);
    RecountBits(Or(if rank == CountOf(w) - 1 || rank == FANOUT - 1 then 0 else UpBy(DownBy(w, rank + 2), rank + 1),
                   RightPart(w, rank)), Low(w));
  }

  lemma StartsWhole(w: bv64)
    ensures DownBy(w, 0) == w
  {
  }

  lemma SlotIsLow(w: bv64, i: nat)
    requires Fit(w) && i < CountOf(w)
    ensures SlotsOf(w)[i] == Low(DownBy(w, i + 1)) as nat < FANOUT
  {
    hide Low, DownBy;
    assert SlotsOf(w)[i] == SlotAt(w, i);
  }

  lemma SplitStep(w: bv64, i: nat, w': bv64)
    requires 1 <= i < FANOUT && w' == Or(w, UpBy(Code(i), i + 1))
    requires forall k :: 0 <= k < 16 ==> Nib(w, k) as nat == if 2 <= k <= i then k - 1 else 0
    ensures forall k :: 0 <= k < 16 ==> Nib(w', k) as nat == if 2 <= k <= i + 1 then k - 1 else 0
  {
    OrZeroes();
    hide Low, Down, Or, Up, UpBy, Nib, Code;
    forall k | 0 <= k < 16
      ensures Nib(w', k) as nat == if 2 <= k <= i + 1 then k - 1 else 0
    {
      NibOr(w, UpBy(Code(i), i + 1), k);
      NibTarget(Code(i), i, k);
      NibSmall(w, k);
      CountZero(Nib(w, k));
    }
  }

  lemma NibSmall(w: bv64, k: nat)
    ensures Nib(w, k) < 16
  {
    LowBits(DownBy(w, k));
  }

  lemma SplitNibs(w: bv64, num: nat, w': bv64, k: nat)
    requires 0 < num <= FANOUT && w' == Or(w, Code(num)) && k < 16
    requires forall k :: 0 <= k < 16 ==> Nib(w, k) as nat == if 2 <= k <= num then k - 1 else 0
    ensures Nib(w', k) as nat == if k == 0 then num else if k <= num then k - 1 else 0
  {
    OrZeroes();
    hide Low, Down, Or, Up, UpBy, Nib, Code;
    NibOr(w, Code(num), k);
    NibPos(Code(num), k);
    NibSmall(w, k);
    CountZero(Nib(w, k));
  }

  lemma SplitSlot(w: bv64, num: nat, w': bv64, i: nat)
    requires 0 < num <= FANOUT && w' == Or(w, Code(num)) && i < num
    requires forall k :: 0 <= k < 16 ==> Nib(w, k) as nat == if 2 <= k <= num then k - 1 else 0
    ensures SlotAt(w', i) == i && CountOf(w') == num
  {
    NibZeroIsLow(w');
    hide Low, Or, Nib, Code;
    SplitNibs(w, num, w', 0);
    SplitNibs(w, num, w', i + 1);
  }

  lemma SplitZero(w: bv64, num: nat, w': bv64, k: nat)
    requires 0 < num <= FANOUT && w' == Or(w, Code(num)) && num < k < 16
    requires forall k :: 0 <= k < 16 ==> Nib(w, k) as nat == if 2 <= k <= num then k - 1 else 0
    ensures Nib(w', k) == 0
  {
    hide Low, Or, Nib, Code;
    SplitNibs(w, num, w', k);
    NibSmall(w', k);
    CountZero(Nib(w', k));
  }

  lemma SplitCount(w: bv64, num: nat, w': bv64)
    requires 0 < num <= FANOUT && w' == Or(w, Code(num))
    requires forall k :: 0 <= k < 16 ==> Nib(w, k) as nat == if 2 <= k <= num then k - 1 else 0
    ensures Fit(w') && SlotsOf(w') == seq(num, i => i)
  {
    hide Low, Or, Nib, Code, SlotAt, CountOf;
    SplitSlot(w, num, w', 0);
    forall i | 0 <= i < num
      ensures SlotsOf(w')[i] == i
    {
      SplitSlot(w, num, w', i);
    }
    forall k | num < k < 16
      ensures Nib(w', k) == 0
    {
      SplitZero(w, num, w', k);
    }
  }
}
