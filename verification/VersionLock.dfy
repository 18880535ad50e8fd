/** The version word as an optimistic lock: any number of threads that lock a border, raise a dirty
    bit, write and unlock, and readers that look a key up between two stable versions.  Every step
    below is one atomic access of the source; steps of different threads interleave freely. */
module VersionLock {
  import opened Keys
  import opened Counters

  datatype Word = Word(vins: Counter, locked: bool, ins: bool, splitting: bool,
                       vsplit: Counter, deleted: bool, root: bool, border: bool)

  // ---- the word in 64 bits ----

  function Bit(b: bool): nat { if b then 1 else 0 }

  /** Two 32-bit halves: a counter in the low 29 bits of each, three flags above it. */
  function Pack(w: Word): (p: nat)
    ensures p < 0x1_0000_0000_0000_0000
  {
    Half(w.vins, w.locked, w.ins, w.splitting) + 0x1_0000_0000 * Half(w.vsplit, w.deleted, w.root, w.border)
  }

  function Half(c: Counter, a: bool, b: bool, d: bool): (h: nat)
    ensures h < 0x1_0000_0000
  {
    c + MODULUS * (Bit(a) + 2 * Bit(b) + 4 * Bit(d))
  }

  lemma HalfInjective(c: Counter, a: bool, b: bool, d: bool, c': Counter, a': bool, b': bool, d': bool)
    requires Half(c, a, b, d) == Half(c', a', b', d')
    ensures c == c' && a == a' && b == b' && d == d'
  {
    var f, f' := Bit(a) + 2 * Bit(b) + 4 * Bit(d), Bit(a') + 2 * Bit(b') + 4 * Bit(d');
    assert f == Half(c, a, b, d) / MODULUS == f';
  }

  lemma HalvesApart(lo: nat, hi: nat, lo': nat, hi': nat)
    requires lo < 0x1_0000_0000 && lo' < 0x1_0000_0000 && lo + 0x1_0000_0000 * hi == lo' + 0x1_0000_0000 * hi'
    ensures lo == lo' && hi == hi'
  {
  }

  /** Comparing the eight bytes compares every field. */
  lemma PackInjective(w: Word, w': Word)
    requires Pack(w) == Pack(w')
    ensures w == w'
  {
    hide Half;
    var lo, hi := Half(w.vins, w.locked, w.ins, w.splitting), Half(w.vsplit, w.deleted, w.root, w.border);
    var lo', hi' := Half(w'.vins, w'.locked, w'.ins, w'.splitting), Half(w'.vsplit, w'.deleted, w'.root, w'.border);
    HalvesApart(lo, hi, lo', hi');
    HalfInjective(w.vins, w.locked, w.ins, w.splitting, w'.vins, w'.locked, w'.ins, w'.splitting);
    HalfInjective(w.vsplit, w.deleted, w.root, w.border, w'.vsplit, w'.deleted, w'.root, w'.border);
  }

  function Unlocked(w: Word): Word {
    w.(locked := false, ins := false, splitting := false,
       vins := if w.ins then Inc(w.vins) else w.vins, vsplit := if w.splitting then Inc(w.vsplit) else w.vsplit)
  }

  predicate Stable(w: Word) {
    !w.locked && !w.ins && !w.splitting
  }

  /** A wrapping counter stays in its 29 bits: unlocking touches neither the flags above the split
      counter nor anything but the three flags it clears. */
  lemma NoSpill(w: Word)
    ensures Pack(Unlocked(w)) / 0x2000_0000_0000_0000 == Pack(w) / 0x2000_0000_0000_0000
    ensures Pack(Unlocked(w)) % 0x1_0000_0000 < MODULUS
  {
    var u := Unlocked(w);
    HighFlags(w);
    HighFlags(u);
    assert Pack(u) % 0x1_0000_0000 == Half(u.vins, false, false, false);
  }

  lemma HighFlags(w: Word)
    ensures Pack(w) / 0x2000_0000_0000_0000 == Bit(w.deleted) + 2 * Bit(w.root) + 4 * Bit(w.border)
  {
    var f := Bit(w.deleted) + 2 * Bit(w.root) + 4 * Bit(w.border);
    var low := Half(w.vins, w.locked, w.ins, w.splitting) + 0x1_0000_0000 * w.vsplit;
    assert Pack(w) == low + 0x2000_0000_0000_0000 * f;
    assert low < 0x2000_0000_0000_0000;
  }

  // ---- the node and the threads ----

  /** What lookups read: the slots in rank order, and the keys in the slots. */
  datatype Mem = Mem(perm: seq<nat>, keys: seq<KeyTuple>)

  predicate Readable(m: Mem) {
    |m.keys| == FANOUT && forall i :: 0 <= i < |m.perm| ==> m.perm[i] < FANOUT
  }

  function RowOf(m: Mem): (r: seq<KeyTuple>)
    requires Readable(m)
    ensures |r| == |m.perm|
  {
    seq(|m.perm|, i requires 0 <= i < |m.perm| => m.keys[m.perm[i]])
  }

  /** A node nobody is changing holds distinct keys in ascending order. */
  predicate Good(m: Mem) {
    && Readable(m)
    && (forall i :: 0 <= i < |m.perm| ==> Canonical(RowOf(m)[i]))
    && (forall i, j :: 0 <= i < j < |m.perm| ==> Ord(RowOf(m)[i]) < Ord(RowOf(m)[j]))
  }

  /** Where a lookup stands.  The source reads the slice and the length of a slot separately. */
  datatype Phase =
    | Start
    | Scan(perm: seq<nat>, rank: nat)
    | SliceRead(perm: seq<nat>, rank: nat, slice: seq<byte>)
    | Answer(found: bool, pos: nat)

  /** `since` and `was` remember the sections completed and the node when the first version was taken. */
  datatype Thread =
    | Idle
    | Holding
    | Reading(want: KeyTuple, v: Word, phase: Phase, since: Sections, was: Mem)

  /** Completed sections that raised a dirty bit, ever. */
  datatype Sections = Sections(inserts: nat, splits: nat)

  type Tid = nat

  datatype State = State(word: Word, mem: Mem, done: Sections, threads: map<Tid, Thread>)

  datatype Action =
    | Lock(t: Tid)
    | RaiseInsert(t: Tid)
    | RaiseSplit(t: Tid)
    | WriteSlice(t: Tid, slot: nat, slice: seq<byte>)
    | WriteLen(t: Tid, slot: nat, len: nat)
    | WritePerm(t: Tid, perm: seq<nat>)
    | WriteValue(t: Tid)
    | Unlock(t: Tid)
    | SetRoot(on: bool)
    | SetDeleted(t: Tid, on: bool)
    | Begin(t: Tid, want: KeyTuple)
    | ReadPerm(t: Tid)
    | ReadSlice(t: Tid)
    | ReadLen(t: Tid)
    | Retry(t: Tid)
    | Return(t: Tid)

  predicate At(s: State, t: Tid, th: Thread) {
    t in s.threads && s.threads[t] == th
  }

  predicate Dirty(w: Word) {
    w.ins || w.splitting
  }

  /** One comparison of the scan. */
  function Compared(want: KeyTuple, perm: seq<nat>, rank: nat, key: KeyTuple): Phase
    requires |want.slice| == SLICE && |key.slice| == SLICE && rank < |perm|
  {
    match BorderCmp(want, key)
    case Eq => Answer(true, perm[rank])
    case Lt => Answer(false, 0)
    case Gt => if rank + 1 == |perm| then Answer(false, 0) else Scan(perm, rank + 1)
  }

  predicate Act(s: State, a: Action, s': State) {
    match a
    case Lock(t) =>
      At(s, t, Idle) && !s.word.locked
      && s' == s.(word := s.word.(locked := true), threads := s.threads[t := Holding])
    case RaiseInsert(t) =>
      At(s, t, Holding) && s' == s.(word := s.word.(ins := true))
    case RaiseSplit(t) =>
      At(s, t, Holding) && s' == s.(word := s.word.(splitting := true))
    case WriteSlice(t, slot, slice) =>
      At(s, t, Holding) && Dirty(s.word) && slot < |s.mem.keys| && |slice| == SLICE
      && s' == s.(mem := s.mem.(keys := s.mem.keys[slot := s.mem.keys[slot].(slice := slice)]))
    case WriteLen(t, slot, len) =>
      At(s, t, Holding) && Dirty(s.word) && slot < |s.mem.keys|
      && s' == s.(mem := s.mem.(keys := s.mem.keys[slot := s.mem.keys[slot].(len := len)]))
    case WritePerm(t, perm) =>
      At(s, t, Holding) && Dirty(s.word) && |perm| <= FANOUT && (forall i :: 0 <= i < |perm| ==> perm[i] < FANOUT)
      && s' == s.(mem := s.mem.(perm := perm))
    case WriteValue(t) =>
      At(s, t, Holding) && s' == s
    case Unlock(t) =>
      At(s, t, Holding) && (Dirty(s.word) ==> Good(s.mem))
      && s' == s.(word := Unlocked(s.word), threads := s.threads[t := Idle],
                  done := Sections(s.done.inserts + Bit(s.word.ins), s.done.splits + Bit(s.word.splitting)))
    case SetRoot(on) =>
      s' == s.(word := s.word.(root := on))
    case SetDeleted(t, on) =>
      At(s, t, Holding) && s' == s.(word := s.word.(deleted := on))
    case Begin(t, want) =>
      At(s, t, Idle) && Stable(s.word) && Canonical(want)
      && s' == s.(threads := s.threads[t := Reading(want, s.word, Start, s.done, s.mem)])
    case ReadPerm(t) =>
      t in s.threads && s.threads[t].Reading? && s.threads[t].phase.Start?
      && var p := if s.mem.perm == [] then Answer(false, 0) else Scan(s.mem.perm, 0);
         s' == s.(threads := s.threads[t := s.threads[t].(phase := p)])
    case ReadSlice(t) =>
      t in s.threads && s.threads[t].Reading? && s.threads[t].phase.Scan?
      && var p := s.threads[t].phase;
      && p.rank < |p.perm| && p.perm[p.rank] < |s.mem.keys|
      && s' == s.(threads := s.threads[t := s.threads[t].(phase := SliceRead(p.perm, p.rank, s.mem.keys[p.perm[p.rank]].slice))])
    case ReadLen(t) =>
      t in s.threads && s.threads[t].Reading? && s.threads[t].phase.SliceRead?
      && var r := s.threads[t];
      && r.phase.rank < |r.phase.perm| && r.phase.perm[r.phase.rank] < |s.mem.keys|
      && |r.want.slice| == SLICE && |r.phase.slice| == SLICE
      && var key := KeyTuple(r.phase.slice, s.mem.keys[r.phase.perm[r.phase.rank]].len);
         s' == s.(threads := s.threads[t := r.(phase := Compared(r.want, r.phase.perm, r.phase.rank, key))])
    case Retry(t) =>
      t in s.threads && s.threads[t].Reading? && s.threads[t].phase.Answer? && Stable(s.word) && s.word != s.threads[t].v
      && s' == s.(threads := s.threads[t := Reading(s.threads[t].want, s.word, Start, s.done, s.mem)])
    case Return(t) =>
      Validated(s, t) && s' == s.(threads := s.threads[t := Idle])
  }

  /** The second stable version equals the first: the lookup returns what it found. */
  predicate Validated(s: State, t: Tid) {
    t in s.threads && s.threads[t].Reading? && s.threads[t].phase.Answer? && Stable(s.word) && s.word == s.threads[t].v
  }

  predicate Init(s: State) {
    Stable(s.word) && s.word.vins == 0 && s.word.vsplit == 0 && s.done == Sections(0, 0) && Good(s.mem) && |s.mem.perm| <= FANOUT
    && (forall i :: 0 <= i < FANOUT ==> |s.mem.keys[i].slice| == SLICE)
    && forall t <- s.threads :: s.threads[t].Idle?
  }

  // ---- what every step keeps ----

  predicate Exclusive(s: State) {
    && (forall t, u :: t in s.threads && u in s.threads && s.threads[t].Holding? && s.threads[u].Holding? ==> t == u)
    && (s.word.locked <==> exists t :: t in s.threads && s.threads[t].Holding?)
    && (Dirty(s.word) ==> s.word.locked)
  }

  predicate Counts(s: State) {
    s.word.vins == s.done.inserts % MODULUS && s.word.vsplit == s.done.splits % MODULUS
  }

  predicate Sane(s: State) {
    && Readable(s.mem) && |s.mem.perm| <= FANOUT && (!Dirty(s.word) ==> Good(s.mem))
    && forall i :: 0 <= i < FANOUT ==> |s.mem.keys[i].slice| == SLICE
  }

  /** No tracked section has completed since the reader began, and none is under way. */
  predicate Quiet(s: State, r: Thread)
    requires r.Reading?
  {
    s.done == r.since && !Dirty(s.word)
  }

  /** What the reader has read so far is what `m` held. */
  predicate Faithful(want: KeyTuple, p: Phase, m: Mem)
    requires Readable(m)
  {
    match p
    case Start => true
    case Scan(perm, rank) => perm == m.perm && rank < |perm| && forall j :: 0 <= j < rank ==> Ord(RowOf(m)[j]) < Ord(want)
    case SliceRead(perm, rank, slice) =>
      perm == m.perm && rank < |perm| && slice == RowOf(m)[rank].slice
      && forall j :: 0 <= j < rank ==> Ord(RowOf(m)[j]) < Ord(want)
    case Answer(found, pos) => Correct(want, found, pos, m)
  }

  /** The answer a lookup must give: the slot that holds the key, or that none does. */
  predicate Correct(want: KeyTuple, found: bool, pos: nat, m: Mem)
    requires Readable(m)
  {
    if found then exists r :: 0 <= r < |m.perm| && m.perm[r] == pos && RowOf(m)[r] == want
    else forall r :: 0 <= r < |m.perm| ==> RowOf(m)[r] != want
  }

  predicate ReaderFine(s: State, r: Thread)
    requires r.Reading?
  {
    && Canonical(r.want) && Good(r.was)
    && r.v.vins == r.since.inserts % MODULUS && r.v.vsplit == r.since.splits % MODULUS
    && r.since.inserts <= s.done.inserts && r.since.splits <= s.done.splits
    && (Quiet(s, r) ==> s.mem == r.was && Faithful(r.want, r.phase, r.was))
  }

  predicate Inv(s: State) {
    Exclusive(s) && Counts(s) && Sane(s)
    && forall t <- s.threads :: s.threads[t].Reading? ==> ReaderFine(s, s.threads[t])
  }

  lemma InitInv(s: State)
    requires Init(s)
    ensures Inv(s)
  {
  }

  lemma StepExclusive(s: State, a: Action, s': State)
    requires Exclusive(s) && Act(s, a, s')
    ensures Exclusive(s')
  {
    hide Act, Dirty;
    forall u | u in s'.threads && s'.threads[u].Holding?
      ensures a == Lock(u) || (u in s.threads && s.threads[u].Holding? && a != Unlock(u))
    {
      HeldBefore(s, a, s', u);
    }
    StepLocked(s, a, s');
  }

  lemma HeldBefore(s: State, a: Action, s': State, u: Tid)
    requires Act(s, a, s') && u in s'.threads && s'.threads[u].Holding?
    ensures a == Lock(u) || (u in s.threads && s.threads[u].Holding? && a != Unlock(u))
  {
    hide Good, Readable, Canonical, BorderCmp;
  }

  lemma StepLocked(s: State, a: Action, s': State)
    requires Exclusive(s) && Act(s, a, s')
    ensures s'.word.locked == if a.Lock? then true else if a.Unlock? then false else s.word.locked
    ensures Dirty(s'.word) ==> s'.word.locked
    ensures (a.Lock? ==> !s.word.locked) && (a.Unlock? ==> a.t in s.threads && s.threads[a.t].Holding?)
    ensures s'.word.locked ==> exists t :: t in s'.threads && s'.threads[t].Holding?
  {
    hide Good, Readable, Canonical, BorderCmp;
    if s'.word.locked {
      var u := if a.Lock? then a.t else Holder(s);
      assert u in s'.threads && s'.threads[u].Holding?;
    }
  }

  ghost function Holder(s: State): (t: Tid)
    requires Exclusive(s) && s.word.locked
    ensures t in s.threads && s.threads[t].Holding?
  {
    var t :| t in s.threads && s.threads[t].Holding?;
    t
  }

  lemma StepCounts(s: State, a: Action, s': State)
    requires Counts(s) && Act(s, a, s')
    ensures Counts(s') && s.done.inserts <= s'.done.inserts && s.done.splits <= s'.done.splits
  {
    hide Good, Readable, Canonical, BorderCmp;
  }

  lemma StepSane(s: State, a: Action, s': State)
    requires Exclusive(s) && Sane(s) && Act(s, a, s')
    ensures Sane(s')
  {
    hide Good, Canonical, BorderCmp;
  }

  // ---- the readers ----

  lemma StepBegin(s: State, t: Tid, want: KeyTuple, s': State)
    requires Counts(s) && Sane(s) && Act(s, Begin(t, want), s')
    ensures ReaderFine(s', s'.threads[t])
  {
    hide Good, Canonical;
  }

  /** One comparison against the node the reader saw keeps the reader faithful to it. */
  lemma ComparedFaithful(want: KeyTuple, m: Mem, rank: nat)
    requires Good(m) && Canonical(want) && rank < |m.perm|
    requires forall j :: 0 <= j < rank ==> Ord(RowOf(m)[j]) < Ord(want)
    ensures Faithful(want, Compared(want, m.perm, rank, RowOf(m)[rank]), m)
  {
    hide Ord, BorderCmp;
    var row := RowOf(m);
    BorderCmpIsOrder(want, row[rank]);
    if BorderCmp(want, row[rank]).Lt? {
      forall r | 0 <= r < |row|
        ensures row[r] != want
      {
        assert r >= rank ==> r == rank || Ord(row[rank]) < Ord(row[r]);
      }
    }
  }

  lemma StepRead(s: State, a: Action, s': State, t: Tid)
    requires Sane(s) && Act(s, a, s') && (a == ReadPerm(t) || a == ReadSlice(t) || a == ReadLen(t))
    requires t in s.threads && s.threads[t].Reading? && ReaderFine(s, s.threads[t])
    ensures t in s'.threads && s'.threads[t].Reading? && ReaderFine(s', s'.threads[t])
  {
    hide Ord, Canonical, Good, Compared;
    var r, r' := s.threads[t], s'.threads[t];
    if Quiet(s, r) && a == ReadLen(t) {
      var row := RowOf(r.was);
      assert KeyTuple(r.phase.slice, s.mem.keys[r.phase.perm[r.phase.rank]].len) == row[r.phase.rank];
      ComparedFaithful(r.want, r.was, r.phase.rank);
    }
  }

  /** Steps of others cannot make a faithful reader unfaithful without a trace. */
  lemma StepOther(s: State, a: Action, s': State, t: Tid)
    requires Exclusive(s) && Act(s, a, s')
    requires t in s.threads && s.threads[t].Reading? && ReaderFine(s, s.threads[t])
    requires t in s'.threads && s'.threads[t] == s.threads[t]
    ensures ReaderFine(s', s'.threads[t])
  {
    hide Ord, Canonical, Good, BorderCmp, Faithful, RowOf;
  }

  lemma StepReaders(s: State, a: Action, s': State, t: Tid)
    requires Inv(s) && Act(s, a, s') && t in s'.threads && s'.threads[t].Reading?
    ensures ReaderFine(s', s'.threads[t])
  {
    hide Ord, Canonical, Good, BorderCmp, Faithful, RowOf, ReaderFine, Compared, Correct;
    if t in s.threads && s'.threads[t] == s.threads[t] {
      assert ReaderFine(s, s.threads[t]);
      StepOther(s, a, s', t);
    } else if a == ReadPerm(t) || a == ReadSlice(t) || a == ReadLen(t) {
      assert ReaderFine(s, s.threads[t]);
      StepRead(s, a, s', t);
    } else if a.Begin? {
      StepBegin(s, t, a.want, s');
    } else {
      StepRetry(s, t, s');
    }
  }

  lemma StepRetry(s: State, t: Tid, s': State)
    requires Counts(s) && Sane(s) && Act(s, Retry(t), s') && ReaderFine(s, s.threads[t])
    ensures ReaderFine(s', s'.threads[t])
  {
    hide Good, Canonical;
  }

  /** Every step of every thread keeps the invariant. */
  lemma StepInv(s: State, a: Action, s': State)
    requires Inv(s) && Act(s, a, s')
    ensures Inv(s')
  {
    hide Act, Exclusive, Counts, Sane, ReaderFine;
    StepExclusive(s, a, s');
    StepCounts(s, a, s');
    StepSane(s, a, s');
    forall t | t in s'.threads && s'.threads[t].Reading?
      ensures ReaderFine(s', s'.threads[t])
    {
      StepReaders(s, a, s', t);
    }
  }

  ghost predicate Run(states: seq<State>, actions: seq<Action>) {
    |states| == |actions| + 1 && Init(states[0])
    && forall i :: 0 <= i < |actions| ==> Act(states[i], actions[i], states[i + 1])
  }

  lemma {:induction false} RunInv(states: seq<State>, actions: seq<Action>)
    requires Run(states, actions)
    ensures Inv(states[|actions|])
    decreases |actions|
  {
    hide Act, Inv, Init;
    if actions == [] {
      InitInv(states[0]);
    } else {
      var n := |actions| - 1;
      RunInv(states[..n + 1], actions[..n]);
      StepInv(states[n], actions[n], states[n + 1]);
    }
  }

  /** In every run the lock is mutually exclusive. */
  lemma MutualExclusion(states: seq<State>, actions: seq<Action>, t: Tid, u: Tid)
    requires Run(states, actions)
    requires var s := states[|actions|]; t in s.threads && u in s.threads && s.threads[t].Holding? && s.threads[u].Holding?
    ensures t == u
  {
    RunInv(states, actions);
  }

  /** Completed sections are never taken back, and a dirty bit goes only when a section completes. */
  predicate Later(s: State, s': State) {
    && s.done.inserts <= s'.done.inserts && s.done.splits <= s'.done.splits
    && (Dirty(s.word) ==> Dirty(s'.word) || s.done != s'.done)
  }

  lemma StepLater(s: State, a: Action, s': State)
    requires Act(s, a, s')
    ensures Later(s, s')
  {
    hide Good, Readable, Canonical, BorderCmp;
  }

  lemma {:induction false} RunLater(states: seq<State>, actions: seq<Action>, j: nat, k: nat)
    requires Run(states, actions) && j <= k <= |actions|
    ensures Later(states[j], states[k])
    decreases k
  {
    hide Act, Init;
    if j < k {
      RunLater(states, actions, j, k - 1);
      StepLater(states[k - 1], actions[k - 1], states[k]);
    }
  }

  lemma RunInvAt(states: seq<State>, actions: seq<Action>, j: nat)
    requires Run(states, actions) && j <= |actions|
    ensures Inv(states[j])
  {
    hide Act, Inv, Init;
    assert Run(states[..j + 1], actions[..j]);
    RunInv(states[..j + 1], actions[..j]);
  }

  /** The action takes the first version of a lookup by `t`. */
  predicate Starts(a: Action, t: Tid) {
    (a.Begin? || a.Retry?) && a.t == t
  }

  /** The lookup of `t` has taken its first version by state `j` and has not started over since. */
  predicate Since(actions: seq<Action>, t: Tid, j: nat) {
    j <= |actions| && forall i :: j <= i < |actions| ==> !Starts(actions[i], t)
  }

  /** The lookup of `t` that stands at `r` is under way. */
  predicate UnderWay(s: State, t: Tid, r: Thread) {
    r.Reading? && t in s.threads && s.threads[t].Reading? && s.threads[t].since == r.since && s.threads[t].was == r.was
  }

  lemma StepUnderWay(s: State, a: Action, s': State, t: Tid)
    requires Act(s, a, s') && t in s'.threads && s'.threads[t].Reading? && !Starts(a, t)
    ensures UnderWay(s, t, s'.threads[t])
  {
    hide Good, Readable, Canonical, BorderCmp;
  }

  lemma {:induction false} WindowUnderWay(states: seq<State>, actions: seq<Action>, t: Tid, j: nat)
    requires Run(states, actions) && Since(actions, t, j)
    requires t in states[|actions|].threads && states[|actions|].threads[t].Reading?
    ensures UnderWay(states[j], t, states[|actions|].threads[t])
    decreases |actions|
  {
    hide Act, Init;
    var n := |actions|;
    if j < n {
      StepUnderWay(states[n - 1], actions[n - 1], states[n], t);
      assert forall i :: j <= i < n - 1 ==> actions[..n - 1][i] == actions[i];
      WindowUnderWay(states[..n], actions[..n - 1], t, j);
    }
  }

  /** Nothing changed at any moment of a window that no tracked section completed in. */
  lemma WindowUnchanged(states: seq<State>, actions: seq<Action>, t: Tid, j: nat)
    requires Run(states, actions) && Since(actions, t, j)
    requires var s := states[|actions|];
             t in s.threads && s.threads[t].Reading? && s.done == s.threads[t].since && !Dirty(s.word)
    ensures states[j].mem == states[|actions|].threads[t].was && !Dirty(states[j].word)
  {
    hide Act, Init, Good, Correct;
    WindowUnderWay(states, actions, t, j);
    RunInvAt(states, actions, j);
    RunLater(states, actions, j, |actions|);
    assert ReaderFine(states[j], states[j].threads[t]);
    assert Quiet(states[j], states[j].threads[t]);
  }

  /** In every run, when a lookup's two stable versions are equal and fewer than 2^29 tracked sections
      of each kind completed in between, the node did not change at any moment since the first version
      was taken, and the answer is right. */
  lemma OptimisticReadSound(states: seq<State>, actions: seq<Action>, t: Tid)
    requires Run(states, actions) && Validated(states[|actions|], t)
    requires var s := states[|actions|]; var r := s.threads[t];
             s.done.inserts < r.since.inserts + MODULUS && s.done.splits < r.since.splits + MODULUS
    ensures var s := states[|actions|]; var r := s.threads[t];
            && s.mem == r.was && Good(s.mem)
            && Correct(r.want, r.phase.found, r.phase.pos, s.mem)
            && forall j: nat :: Since(actions, t, j) ==> states[j].mem == s.mem
  {
    RunInv(states, actions);
    hide Good, Correct, Act, Init, Run;
    var s := states[|actions|];
    var r := s.threads[t];
    CounterMoves(r.since.inserts, s.done.inserts);
    CounterMoves(r.since.splits, s.done.splits);
    assert Quiet(s, r);
    forall j: nat | Since(actions, t, j)
      ensures states[j].mem == s.mem
    {
      WindowUnchanged(states, actions, t, j);
    }
  }

  // ---- sections ----

  predicate Raised(actions: seq<Action>, from: nat, upto: nat, a: Action) {
    exists k :: from <= k < upto && k < |actions| && actions[k] == a
  }

  /** Thread `t` takes the lock at step `i` and has not let it go before step `j`. */
  predicate Section(actions: seq<Action>, t: Tid, i: nat, j: nat) {
    i < j <= |actions| && actions[i] == Lock(t) && forall k :: i < k < j ==> actions[k] != Unlock(t)
  }

  /** What a section has done to the word: the bits raised by its holder, and no counter. */
  predicate Open(w: Word, w': Word, ins: bool, splitting: bool) {
    w' == w.(locked := true, ins := ins, splitting := splitting, deleted := w'.deleted, root := w'.root)
  }

  lemma SectionStep(s: State, a: Action, s': State, t: Tid, w: Word, ins: bool, splitting: bool)
    requires Exclusive(s) && Act(s, a, s') && a != Unlock(t) && t in s.threads && s.threads[t].Holding?
    requires Open(w, s.word, ins, splitting)
    ensures t in s'.threads && s'.threads[t].Holding?
    ensures Open(w, s'.word, ins || a == RaiseInsert(t), splitting || a == RaiseSplit(t))
  {
    hide Good, Readable, Canonical, BorderCmp;
  }

  lemma SectionStart(s: State, t: Tid, s': State)
    requires Exclusive(s) && Act(s, Lock(t), s')
    ensures t in s'.threads && s'.threads[t].Holding? && Open(s.word, s'.word, false, false)
  {
  }

  lemma RaisedStep(actions: seq<Action>, from: nat, upto: nat, a: Action)
    requires from <= upto < |actions|
    ensures Raised(actions, from, upto + 1, a) <==> Raised(actions, from, upto, a) || actions[upto] == a
  {
  }

  lemma {:induction false} SectionSoFar(states: seq<State>, actions: seq<Action>, t: Tid, i: nat, j: nat)
    requires Run(states, actions) && Section(actions, t, i, j)
    ensures t in states[j].threads && states[j].threads[t].Holding?
    ensures Open(states[i].word, states[j].word, Raised(actions, i, j, RaiseInsert(t)), Raised(actions, i, j, RaiseSplit(t)))
    decreases j
  {
    hide Act, Inv, Init, Open, Raised, Exclusive;
    RunInvAt(states, actions, j - 1);
    ExclusiveOf(states[j - 1]);
    RaisedStep(actions, i, j - 1, RaiseInsert(t));
    RaisedStep(actions, i, j - 1, RaiseSplit(t));
    if j == i + 1 {
      assert !Raised(actions, i, i, RaiseInsert(t)) && !Raised(actions, i, i, RaiseSplit(t)) by { NoneRaised(actions, i); }
      SectionStart(states[i], t, states[j]);
    } else {
      SectionSoFar(states, actions, t, i, j - 1);
      SectionStep(states[j - 1], actions[j - 1], states[j], t, states[i].word,
                  Raised(actions, i, j - 1, RaiseInsert(t)), Raised(actions, i, j - 1, RaiseSplit(t)));
    }
  }

  lemma NoneRaised(actions: seq<Action>, i: nat)
    ensures forall a :: !Raised(actions, i, i, a)
  {
  }

  lemma ExclusiveOf(s: State)
    requires Inv(s)
    ensures Exclusive(s)
  {
  }

  /** In every run, a section from its lock to its unlock moves the insert counter by one if its holder
      raised the inserting bit, the split counter by one if it raised the splitting bit, neither
      otherwise, and changes nothing else but the deleted and root flags. */
  lemma SectionCounts(states: seq<State>, actions: seq<Action>, t: Tid, i: nat, j: nat)
    requires Run(states, actions) && Section(actions, t, i, j) && j < |actions| && actions[j] == Unlock(t)
    ensures var w, w' := states[i].word, states[j + 1].word;
            && Stable(w) && Stable(w') && w'.border == w.border
            && w'.vins == (if Raised(actions, i, j, RaiseInsert(t)) then Inc(w.vins) else w.vins)
            && w'.vsplit == (if Raised(actions, i, j, RaiseSplit(t)) then Inc(w.vsplit) else w.vsplit)
  {
    RunInvAt(states, actions, i);
    SectionSoFar(states, actions, t, i, j);
    assert Act(states[i], actions[i], states[i + 1]) && Act(states[j], actions[j], states[j + 1]);
    hide Run, Raised, Good, Readable, Canonical, BorderCmp, Counts, Sane, ReaderFine;
  }

  /** Nothing but the end of a section moves a counter. */
  lemma CounterSteps(s: State, a: Action, s': State)
    requires Act(s, a, s') && (s'.word.vins != s.word.vins || s'.word.vsplit != s.word.vsplit)
    ensures a.Unlock? && a.t in s.threads && s.threads[a.t].Holding?
    ensures s'.word.vins == (if s.word.ins then Inc(s.word.vins) else s.word.vins)
    ensures s'.word.vsplit == (if s.word.splitting then Inc(s.word.vsplit) else s.word.vsplit)
  {
    if a.Unlock? {
      assert s'.word == Unlocked(s.word);
    } else {
      OthersKeepCounts(s, a, s');
    }
  }

  lemma OthersKeepCounts(s: State, a: Action, s': State)
    requires Act(s, a, s') && !a.Unlock?
    ensures s'.word.vins == s.word.vins && s'.word.vsplit == s.word.vsplit
  {
    hide *;
    if a.Lock? || a.RaiseInsert? || a.RaiseSplit? || a.SetRoot? || a.SetDeleted? {
      SameCounters(s, a, s');
    } else {
      SameWord(s, a, s');
    }
  }

  lemma SameCounters(s: State, a: Action, s': State)
    requires Act(s, a, s') && (a.Lock? || a.RaiseInsert? || a.RaiseSplit? || a.SetRoot? || a.SetDeleted?)
    ensures s'.word.vins == s.word.vins && s'.word.vsplit == s.word.vsplit
  {
    hide Good, Readable, Canonical, BorderCmp, Compared, Stable, Dirty, Inc;
  }

  lemma SameWord(s: State, a: Action, s': State)
    requires Act(s, a, s') && !(a.Lock? || a.RaiseInsert? || a.RaiseSplit? || a.SetRoot? || a.SetDeleted? || a.Unlock?)
    ensures s'.word == s.word
  {
    hide Good, Readable, Canonical, BorderCmp, Compared, Stable, Dirty, Inc;
  }

  // ---- an undisturbed lookup ----

  /** The lookup of `t` is under way and nobody has disturbed it. */
  predicate AtWork(s: State, t: Tid) {
    && Inv(s) && t in s.threads && s.threads[t].Reading?
    && Stable(s.word) && s.word == s.threads[t].v && s.done == s.threads[t].since
  }

  function NextRead(t: Tid, p: Phase): Action
    requires !p.Answer?
  {
    match p
    case Start => ReadPerm(t)
    case Scan(_, _) => ReadSlice(t)
    case SliceRead(_, _, _) => ReadLen(t)
  }

  function ReadsLeft(m: Mem, p: Phase): int {
    match p
    case Start => 2 * |m.perm| + 2
    case Scan(perm, rank) => 2 * (|perm| - rank) + 1
    case SliceRead(perm, rank, _) => 2 * (|perm| - rank)
    case Answer(_, _) => 0
  }

  lemma ReadStep(s: State, t: Tid) returns (s': State)
    requires AtWork(s, t) && !s.threads[t].phase.Answer?
    ensures Act(s, NextRead(t, s.threads[t].phase), s') && AtWork(s', t)
    ensures s'.mem == s.mem && s'.word == s.word && s'.threads[t].want == s.threads[t].want
    ensures 0 <= ReadsLeft(s.mem, s'.threads[t].phase) < ReadsLeft(s.mem, s.threads[t].phase)
  {
    hide Inv, BorderCmp;
    var r := s.threads[t];
    ReaderAtWork(s, t);
    var p := match r.phase
      case Start => if s.mem.perm == [] then Answer(false, 0) else Scan(s.mem.perm, 0)
      case Scan(perm, rank) => SliceRead(perm, rank, s.mem.keys[perm[rank]].slice)
      case SliceRead(perm, rank, slice) => Compared(r.want, perm, rank, KeyTuple(slice, s.mem.keys[perm[rank]].len));
    s' := s.(threads := s.threads[t := r.(phase := p)]);
    StepInv(s, NextRead(t, r.phase), s');
  }

  /** What the invariant says of a lookup that is under way. */
  lemma ReaderAtWork(s: State, t: Tid)
    requires AtWork(s, t)
    ensures var r := s.threads[t]; Canonical(r.want) && Readable(s.mem) && s.mem == r.was && Faithful(r.want, r.phase, s.mem)
    ensures forall i :: 0 <= i < FANOUT ==> |s.mem.keys[i].slice| == SLICE
  {
    assert ReaderFine(s, s.threads[t]);
  }

  lemma {:induction false} LookupGoesOn(s: State, t: Tid) returns (s': State, n: nat)
    requires AtWork(s, t)
    ensures Reads(s, t, n, s') && Validated(s', t) && s'.threads[t].want == s.threads[t].want && s'.mem == s.mem
    ensures Correct(s.threads[t].want, s'.threads[t].phase.found, s'.threads[t].phase.pos, s.mem)
    ensures n <= Nat(ReadsLeft(s.mem, s.threads[t].phase))
    decreases Nat(ReadsLeft(s.mem, s.threads[t].phase))
  {
    hide Inv, Act, Correct;
    ReaderAtWork(s, t);
    if s.threads[t].phase.Answer? {
      s', n := s, 0;
    } else {
      var s1 := ReadStep(s, t);
      s', n := LookupGoesOn(s1, t);
      n := n + 1;
    }
  }

  function Nat(x: int): nat {
    if x < 0 then 0 else x
  }

  /** `s'` is what `s` becomes after `n` reads of `t` and nothing else. */
  ghost predicate Reads(s: State, t: Tid, n: nat, s': State)
    decreases n
  {
    if n == 0 then s' == s
    else
      t in s.threads && s.threads[t].Reading? && !s.threads[t].phase.Answer?
      && exists s1 :: Act(s, NextRead(t, s.threads[t].phase), s1) && Reads(s1, t, n - 1, s')
  }

  /** A lookup that nobody disturbs finds its answer in at most two reads per key and two more, the answer
      is right, and the second version lets it return. */
  lemma LookupSucceeds(s: State, t: Tid, want: KeyTuple) returns (s1: State, s2: State, n: nat)
    requires Inv(s) && At(s, t, Idle) && Stable(s.word) && Canonical(want)
    ensures Act(s, Begin(t, want), s1) && Reads(s1, t, n, s2) && n <= 2 * |s.mem.perm| + 2
    ensures Act(s2, Return(t), s2.(threads := s2.threads[t := Idle]))
    ensures s2.mem == s.mem && Readable(s.mem)
    ensures var p := s2.threads[t].phase; Correct(want, p.found, p.pos, s.mem)
  {
    s1 := s.(threads := s.threads[t := Reading(want, s.word, Start, s.done, s.mem)]);
    StepInv(s, Begin(t, want), s1);
    hide Inv, Reads, Correct;
    ReaderAtWork(s1, t);
    s2, n := LookupGoesOn(s1, t);
  }

  // ---- an insertion ----

  /** An insertion into a free node goes through: it fills a slot, publishes the new order and unlocks, the
      insert counter moves by one, and what was written is there. */
  lemma InsertionSucceeds(s: State, t: Tid, slot: nat, key: KeyTuple, perm: seq<nat>) returns (states: seq<State>, actions: seq<Action>)
    requires At(s, t, Idle) && Stable(s.word) && slot < |s.mem.keys| && |key.slice| == SLICE
    requires |perm| <= FANOUT && (forall i :: 0 <= i < |perm| ==> perm[i] < FANOUT)
    requires Good(Mem(perm, s.mem.keys[slot := key]))
    ensures |states| == |actions| + 1 && states[0] == s
    ensures forall i :: 0 <= i < |actions| ==> Act(states[i], actions[i], states[i + 1])
    ensures var s' := states[|actions|];
            && At(s', t, Idle) && s'.mem == Mem(perm, s.mem.keys[slot := key])
            && s'.word == s.word.(vins := Inc(s.word.vins)) && s'.done == s.done.(inserts := s.done.inserts + 1)
  {
    var w := s.word.(locked := true, ins := true);
    var s1 := s.(word := s.word.(locked := true), threads := s.threads[t := Holding]);
    var s2 := s1.(word := w);
    var s3 := s2.(mem := s.mem.(keys := s.mem.keys[slot := s.mem.keys[slot].(slice := key.slice)]));
    var s4 := s3.(mem := s3.mem.(keys := s3.mem.keys[slot := s3.mem.keys[slot].(len := key.len)]));
    var s5 := s4.(mem := s4.mem.(perm := perm));
    assert s5.mem.keys == s.mem.keys[slot := key];
    var s6 := s5.(word := Unlocked(w), threads := s5.threads[t := Idle], done := s.done.(inserts := s.done.inserts + 1));
    states := [s, s1, s2, s3, s4, s5, s6];
    actions := [Lock(t), RaiseInsert(t), WriteSlice(t, slot, key.slice), WriteLen(t, slot, key.len), WritePerm(t, perm), Unlock(t)];
  }
}
