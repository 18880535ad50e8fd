/** Epoch-based reclamation: sessions, the epoch thread and the gc thread, one atomic access per step
    and in any interleaving.  Reading the global epoch and publishing it as a session's begin epoch is
    one step.  One container per session stands for the two of the source, whose code is the same. */
module Reclamation {
  import opened Wrappers

  /** A retired object, tagged with the begin epoch of the session that retired it. */
  datatype Item = Item(epoch: nat, id: nat)

  /** A slot of the session table; `session` counts the sessions it has served. */
  datatype Slot = Slot(running: bool, begin: nat, session: nat, cache: Option<Item>, queue: seq<Item>)

  /** A begin epoch of 0 means that the slot has no session. */
  predicate Active(l: Slot) {
    l.begin != 0
  }

  datatype EpochThread =
    | Sleeping
    | Verifying(cur: nat, next: nat)
    | Verified
    | Scanning(next: nat, least: Option<nat>)

  datatype GcThread = Resting(next: nat) | Collecting(at: nat, limit: nat)

  type SessionId = (nat, nat)

  /** `seen` remembers, for each retired object, the sessions that were active at that moment. */
  datatype State = State(epoch: nat, gcEpoch: nat, slots: seq<Slot>, et: EpochThread, gt: GcThread,
                         made: nat, seen: map<nat, set<SessionId>>, freed: seq<nat>)

  datatype Action =
    | Gain(i: nat)
    | Publish(i: nat)
    | Unpublish(i: nat)
    | Release(i: nat)
    | Retire(i: nat)
    | StartVerify
    | VerifySlot
    | Increment
    | ScanSlot
    | SetGcEpoch
    | ReadLimit
    | CheckCache
    | Pop
    | Finish

  ghost function Sessions(s: State): set<SessionId> {
    set i | 0 <= i < |s.slots| && Active(s.slots[i]) :: (i, s.slots[i].session)
  }

  predicate Older(x: Item, limit: nat) {
    x.epoch < limit
  }

  function With(s: State, i: nat, l: Slot): State
    requires i < |s.slots|
  {
    s.(slots := s.slots[i := l])
  }

  ghost predicate Act(s: State, a: Action, s': State) {
    match a
    case Gain(i) =>
      i < |s.slots| && !s.slots[i].running && s' == With(s, i, s.slots[i].(running := true))
    case Publish(i) =>
      i < |s.slots| && s.slots[i].running && !Active(s.slots[i])
      && s' == With(s, i, s.slots[i].(begin := s.epoch, session := s.slots[i].session + 1))
    case Unpublish(i) =>
      i < |s.slots| && Active(s.slots[i]) && s' == With(s, i, s.slots[i].(begin := 0))
    case Release(i) =>
      i < |s.slots| && s.slots[i].running && !Active(s.slots[i]) && s' == With(s, i, s.slots[i].(running := false))
    case Retire(i) =>
      i < |s.slots| && Active(s.slots[i])
      && s' == With(s, i, s.slots[i].(queue := s.slots[i].queue + [Item(s.slots[i].begin, s.made)]))
               .(made := s.made + 1, seen := s.seen[s.made := Sessions(s)])
    case StartVerify =>
      s.et.Sleeping? && s' == s.(et := Verifying(s.epoch, 0))
    case VerifySlot =>
      s.et.Verifying? && s' == s.(et := VerifyNext(s))
    case Increment =>
      s.et.Verified? && s' == s.(epoch := s.epoch + 1, et := Scanning(0, None))
    case ScanSlot =>
      s.et.Scanning? && s.et.next < |s.slots| && s' == s.(et := Scanning(s.et.next + 1, ScanNext(s)))
    case SetGcEpoch =>
      s.et.Scanning? && s.et.next == |s.slots| && s' == s.(gcEpoch := NewGcEpoch(s), et := Sleeping)
    case ReadLimit =>
      s.gt.Resting? && s.gt.next < |s.slots| && s' == s.(gt := Collecting(s.gt.next, s.gcEpoch))
    case CheckCache =>
      s.gt.Collecting? && s.gt.at < |s.slots| && s.slots[s.gt.at].cache.Some? && s' == AfterCache(s)
    case Pop =>
      s.gt.Collecting? && s.gt.at < |s.slots| && s.slots[s.gt.at].cache.None? && s.slots[s.gt.at].queue != []
      && s' == AfterPop(s)
    case Finish =>
      s.gt.Collecting? && s.gt.at < |s.slots| && s.slots[s.gt.at].cache.None? && s.slots[s.gt.at].queue == []
      && s' == s.(gt := Resting(NextSlot(s)))
  }

  /** One slot of the verify scan; a session of an older epoch makes the scan start over. */
  function VerifyNext(s: State): EpochThread
    requires s.et.Verifying?
  {
    if s.et.next >= |s.slots| then Verified
    else
      var b := s.slots[s.et.next].begin;
      if b != 0 && b != s.et.cur then Sleeping else Verifying(s.et.cur, s.et.next + 1)
  }

  /** One slot of the minimum scan. */
  function ScanNext(s: State): Option<nat>
    requires s.et.Scanning? && s.et.next < |s.slots|
  {
    var b := s.slots[s.et.next].begin;
    if b == 0 then s.et.least
    else if s.et.least.Some? && s.et.least.value <= b then s.et.least
    else Some(b)
  }

  /** An unsigned subtraction in the source; `GcEpochExact` shows it never wraps. */
  function NewGcEpoch(s: State): nat
    requires s.et.Scanning?
  {
    match s.et.least
    case Some(m) => if m > 0 then m - 1 else 0xFFFF_FFFF_FFFF_FFFF
    case None => if s.epoch > 0 then s.epoch - 1 else 0xFFFF_FFFF_FFFF_FFFF
  }

  function NextSlot(s: State): nat
    requires s.gt.Collecting?
  {
    if s.gt.at + 1 < |s.slots| then s.gt.at + 1 else 0
  }

  /** The one-element cache: kept if too young, freed otherwise. */
  function AfterCache(s: State): State
    requires s.gt.Collecting? && s.gt.at < |s.slots| && s.slots[s.gt.at].cache.Some?
  {
    var l := s.slots[s.gt.at];
    var x := l.cache.value;
    if Older(x, s.gt.limit) then With(s, s.gt.at, l.(cache := None)).(freed := s.freed + [x.id])
    else s.(gt := Resting(NextSlot(s)))
  }

  /** The next element: freed, or parked in the cache if too young. */
  function AfterPop(s: State): State
    requires s.gt.Collecting? && s.gt.at < |s.slots| && s.slots[s.gt.at].cache.None? && s.slots[s.gt.at].queue != []
  {
    var l := s.slots[s.gt.at];
    var x := l.queue[0];
    if Older(x, s.gt.limit) then With(s, s.gt.at, l.(queue := l.queue[1..])).(freed := s.freed + [x.id])
    else With(s, s.gt.at, l.(queue := l.queue[1..], cache := Some(x))).(gt := Resting(NextSlot(s)))
  }

  /** The object a step frees, if it frees one. */
  function FreedBy(s: State, a: Action): Option<Item> {
    if s.gt.Collecting? && s.gt.at < |s.slots| then
      var l := s.slots[s.gt.at];
      if a.CheckCache? && l.cache.Some? && Older(l.cache.value, s.gt.limit) then l.cache
      else if a.Pop? && l.queue != [] && Older(l.queue[0], s.gt.limit) then Some(l.queue[0])
      else None
    else None
  }

  predicate Init(s: State) {
    && s.epoch == 1 && s.gcEpoch == 0 && s.et.Sleeping? && s.gt == Resting(0)
    && s.made == 0 && s.seen == map[] && s.freed == []
    && forall i :: 0 <= i < |s.slots| ==>
                     !s.slots[i].running && s.slots[i].begin == 0 && s.slots[i].cache.None? && s.slots[i].queue == []
  }

  // ---- the epochs ----

  predicate Near(s: State) {
    s.epoch >= 1 && forall i :: 0 <= i < |s.slots| && Active(s.slots[i]) ==> s.epoch - 1 <= s.slots[i].begin <= s.epoch
  }

  /** A slot already passed by the verify scan holds no session of an older epoch. */
  predicate Passed(s: State) {
    match s.et
    case Sleeping => true
    case Verifying(cur, next) =>
      cur == s.epoch && forall i :: 0 <= i < next && i < |s.slots| && Active(s.slots[i]) ==> s.slots[i].begin == s.epoch
    case Verified =>
      forall i :: 0 <= i < |s.slots| && Active(s.slots[i]) ==> s.slots[i].begin == s.epoch
    case Scanning(next, least) =>
      && next <= |s.slots| && s.gcEpoch + 2 <= s.epoch
      && (least.Some? ==> s.epoch - 1 <= least.value <= s.epoch)
      && forall i :: 0 <= i < next && Active(s.slots[i]) ==>
                       s.slots[i].begin == s.epoch || (least.Some? && least.value <= s.slots[i].begin)
  }

  predicate Behind(s: State) {
    s.gcEpoch < s.epoch && forall i :: 0 <= i < |s.slots| && Active(s.slots[i]) ==> s.gcEpoch < s.slots[i].begin
  }

  predicate Epochs(s: State) {
    Near(s) && Passed(s) && Behind(s)
  }

  /** The subtractions of the source do not wrap, and the gc epoch grows. */
  lemma GcEpochExact(s: State)
    requires Epochs(s) && s.et.Scanning? && s.et.next == |s.slots|
    ensures NewGcEpoch(s) == (if s.et.least.Some? then s.et.least.value else s.epoch) - 1
    ensures s.gcEpoch <= NewGcEpoch(s) < s.epoch
    ensures forall i :: 0 <= i < |s.slots| && Active(s.slots[i]) ==> NewGcEpoch(s) < s.slots[i].begin
  {
  }

  /** Sessions come with the present epoch, go, or stay as they are. */
  lemma Begins(s: State, a: Action, s': State)
    requires Act(s, a, s')
    ensures |s'.slots| == |s.slots|
    ensures forall i :: 0 <= i < |s.slots| && Active(s'.slots[i]) ==>
                          s'.slots[i].begin == s.slots[i].begin || s'.slots[i].begin == s.epoch
    ensures (a.Increment? || a.SetGcEpoch? || a.VerifySlot? || a.ScanSlot? || a.StartVerify?) ==> s'.slots == s.slots
    ensures !a.Increment? ==> s'.epoch == s.epoch
    ensures !a.SetGcEpoch? ==> s'.gcEpoch == s.gcEpoch
    ensures !(a.Increment? || a.SetGcEpoch? || a.VerifySlot? || a.ScanSlot? || a.StartVerify?) ==> s'.et == s.et
  {
    hide Sessions, Older;
  }

  lemma StepNear(s: State, a: Action, s': State)
    requires Epochs(s) && Act(s, a, s')
    ensures Near(s') && s.epoch <= s'.epoch
  {
    Begins(s, a, s');
    hide Sessions, Older, With, AfterCache, AfterPop;
  }

  lemma StepBehind(s: State, a: Action, s': State)
    requires Epochs(s) && Act(s, a, s')
    ensures Behind(s') && s.gcEpoch <= s'.gcEpoch
  {
    Begins(s, a, s');
    hide Sessions, Older, With, AfterCache, AfterPop;
    if a.SetGcEpoch? {
      GcEpochExact(s);
    }
  }

  lemma StepPassed(s: State, a: Action, s': State)
    requires Epochs(s) && Act(s, a, s')
    ensures Passed(s')
  {
    Begins(s, a, s');
    hide Sessions, Older, With, AfterCache, AfterPop;
  }

  lemma StepEpochs(s: State, a: Action, s': State)
    requires Epochs(s) && Act(s, a, s')
    ensures Epochs(s') && s.gcEpoch <= s'.gcEpoch && s.epoch <= s'.epoch
  {
    hide Act, Near, Behind, Passed;
    StepNear(s, a, s');
    StepBehind(s, a, s');
    StepPassed(s, a, s');
  }

  // ---- the retired objects ----

  predicate Held(s: State, i: nat, x: Item)
    requires i < |s.slots|
  {
    x in s.slots[i].queue || s.slots[i].cache == Some(x)
  }

  /** A waiting object is at most one epoch older than any session that was active when it was retired
      and still is. */
  ghost predicate Guarded(s: State, x: Item) {
    x.id in s.seen
    && forall j :: 0 <= j < |s.slots| && Active(s.slots[j]) && (j, s.slots[j].session) in s.seen[x.id] ==>
                     s.slots[j].begin <= x.epoch + 1
  }

  ghost predicate Waiting(s: State) {
    && (forall i, x :: 0 <= i < |s.slots| && Held(s, i, x) ==> Guarded(s, x))
    && (forall d, j, n :: d in s.seen && (j, n) in s.seen[d] ==> j < |s.slots| && n <= s.slots[j].session)
    && (forall d <- s.seen :: d < s.made)
  }

  predicate Limits(s: State) {
    s.gt.Collecting? ==> s.gt.limit <= s.gcEpoch
  }

  ghost predicate Inv(s: State) {
    Epochs(s) && Waiting(s) && Limits(s)
  }

  lemma InitInv(s: State)
    requires Init(s)
    ensures Inv(s)
  {
  }

  lemma StepLimits(s: State, a: Action, s': State)
    requires Epochs(s) && Limits(s) && Act(s, a, s')
    ensures Limits(s')
  {
    StepEpochs(s, a, s');
    hide Sessions, Epochs;
  }

  /** Nothing is held after a step that was not held before, but for the object just retired. */
  lemma HeldBefore(s: State, a: Action, s': State, i: nat, x: Item)
    requires Act(s, a, s') && i < |s'.slots| && Held(s', i, x)
    ensures |s'.slots| == |s.slots|
    ensures Held(s, i, x) || (a == Retire(i) && x == Item(s.slots[i].begin, s.made))
  {
    hide Sessions;
  }

  /** A session that is active after a step and was seen earlier was active before. */
  lemma StillActive(s: State, a: Action, s': State, j: nat, n: nat)
    requires Act(s, a, s') && j < |s'.slots| && Active(s'.slots[j]) && s'.slots[j].session == n
    ensures j < |s.slots| && s.slots[j].session <= n
    ensures n <= s.slots[j].session ==> Active(s.slots[j]) && s.slots[j].begin == s'.slots[j].begin
  {
    hide Sessions;
  }

  lemma StepGuarded(s: State, a: Action, s': State, i: nat, x: Item)
    requires Near(s) && Waiting(s) && Act(s, a, s') && i < |s'.slots| && Held(s', i, x)
    ensures Guarded(s', x)
  {
    HeldBefore(s, a, s', i, x);
    SeenKept(s, a, s');
    hide Act;
    if Held(s, i, x) {
      assert Guarded(s, x);
      forall j | 0 <= j < |s'.slots| && Active(s'.slots[j]) && (j, s'.slots[j].session) in s'.seen[x.id]
        ensures s'.slots[j].begin <= x.epoch + 1
      {
        StillActive(s, a, s', j, s'.slots[j].session);
      }
    } else {
      forall j | 0 <= j < |s'.slots| && Active(s'.slots[j])
        ensures s'.slots[j].begin <= x.epoch + 1
      {
        RetireKeeps(s, i, s', j);
      }
    }
  }

  lemma SeenKept(s: State, a: Action, s': State)
    requires Act(s, a, s')
    ensures forall d <- s.seen :: d in s'.seen && (d < s.made ==> s'.seen[d] == s.seen[d])
    ensures a.Retire? ==> s.made in s'.seen && s'.seen[s.made] == Sessions(s)
    ensures forall d <- s'.seen :: d in s.seen || (a.Retire? && d == s.made)
    ensures s.made <= s'.made && (a.Retire? ==> s'.made == s.made + 1)
  {
    hide Sessions;
  }

  lemma RetireKeeps(s: State, i: nat, s': State, j: nat)
    requires Act(s, Retire(i), s') && j < |s'.slots|
    ensures i < |s.slots| && Active(s.slots[i])
    ensures j < |s.slots| && s'.slots[j].begin == s.slots[j].begin
  {
    hide Sessions;
  }

  lemma StepSeen(s: State, a: Action, s': State)
    requires Waiting(s) && Act(s, a, s')
    ensures forall d, j, n :: d in s'.seen && (j, n) in s'.seen[d] ==> j < |s'.slots| && n <= s'.slots[j].session
    ensures forall d <- s'.seen :: d < s'.made
  {
    SeenKept(s, a, s');
    SessionsGrow(s, a, s');
    hide Act, Guarded, Held;
  }

  lemma SessionsGrow(s: State, a: Action, s': State)
    requires Act(s, a, s')
    ensures |s'.slots| == |s.slots| && forall j :: 0 <= j < |s.slots| ==> s.slots[j].session <= s'.slots[j].session
    ensures forall j, n :: (j, n) in Sessions(s) ==> j < |s.slots| && n == s.slots[j].session
  {
  }

  /** Every step keeps the invariant. */
  lemma StepInv(s: State, a: Action, s': State)
    requires Inv(s) && Act(s, a, s')
    ensures Inv(s')
  {
    hide Act, Epochs, Limits, Guarded;
    StepEpochs(s, a, s');
    StepLimits(s, a, s');
    StepSeen(s, a, s');
    forall i, x | 0 <= i < |s'.slots| && Held(s', i, x)
      ensures Guarded(s', x)
    {
      NearOf(s);
      StepGuarded(s, a, s', i, x);
    }
  }

  lemma NearOf(s: State)
    requires Epochs(s)
    ensures Near(s)
  {
  }

  ghost predicate Run(states: seq<State>, actions: seq<Action>) {
    |states| == |actions| + 1 && Init(states[0])
    && forall i :: 0 <= i < |actions| ==> Act(states[i], actions[i], states[i + 1])
  }

  lemma {:induction false} RunInv(states: seq<State>, actions: seq<Action>, k: nat)
    requires Run(states, actions) && k <= |actions|
    ensures Inv(states[k])
    decreases k
  {
    hide Act, Inv, Init;
    if k == 0 {
      InitInv(states[0]);
    } else {
      RunInv(states, actions, k - 1);
      StepInv(states[k - 1], actions[k - 1], states[k]);
    }
  }

  lemma FreeIsSafe(s: State, a: Action, x: Item)
    requires Inv(s) && FreedBy(s, a) == Some(x)
    ensures x.id in s.seen
    ensures forall j, n :: (j, n) in s.seen[x.id] ==>
                             j < |s.slots| && !(Active(s.slots[j]) && s.slots[j].session == n)
  {
    assert Held(s, s.gt.at, x);
    assert Guarded(s, x);
  }

  /** In every run: an object is freed only when every session that was active at the moment it was
      retired has left. */
  lemma SafeReclamation(states: seq<State>, actions: seq<Action>, k: nat, x: Item)
    requires Run(states, actions) && k < |actions| && FreedBy(states[k], actions[k]) == Some(x)
    ensures x.id in states[k].seen
    ensures forall j, n :: (j, n) in states[k].seen[x.id] ==>
                             j < |states[k].slots| && !(Active(states[k].slots[j]) && states[k].slots[j].session == n)
  {
    RunInv(states, actions, k);
    FreeIsSafe(states[k], actions[k], x);
  }

  /** In every run: an active session began in this epoch or the one before, the gc epoch is below
      every active begin epoch, and it never decreases. */
  lemma EpochDiscipline(states: seq<State>, actions: seq<Action>, k: nat)
    requires Run(states, actions) && k < |actions|
    ensures var s := states[k];
            && (forall i :: 0 <= i < |s.slots| && Active(s.slots[i]) ==>
                              s.epoch - 1 <= s.slots[i].begin <= s.epoch && s.gcEpoch < s.slots[i].begin)
            && s.gcEpoch <= states[k + 1].gcEpoch
  {
    RunInv(states, actions, k);
    StepEpochs(states[k], actions[k], states[k + 1]);
  }

  /** What was seen of an object when it was retired is never rewritten. */
  lemma {:induction false} SeenForever(states: seq<State>, actions: seq<Action>, i: nat, k: nat, d: nat)
    requires Run(states, actions) && i <= k <= |actions| && d in states[i].seen
    ensures d in states[k].seen && states[k].seen[d] == states[i].seen[d]
    decreases k
  {
    hide Act;
    if i < k {
      SeenForever(states, actions, i, k - 1, d);
      RunInv(states, actions, k - 1);
      SeenKept(states[k - 1], actions[k - 1], states[k]);
    }
  }
}
