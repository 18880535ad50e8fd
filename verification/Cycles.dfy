/** That the epoch thread and the gc thread do their work: what a pass over the session table ends with
    when no session comes or goes meanwhile, whatever else the other threads do. */
module Cycles {
  import opened Wrappers
  import opened Reclamation
  import opened RetireQueues

  /** A stretch of a run, from any state. */
  ghost predicate Path(states: seq<State>, actions: seq<Action>) {
    |states| == |actions| + 1 && forall i :: 0 <= i < |actions| ==> Act(states[i], actions[i], states[i + 1])
  }

  predicate OfEpochThread(a: Action) {
    a.StartVerify? || a.VerifySlot? || a.Increment? || a.ScanSlot? || a.SetGcEpoch?
  }

  predicate OfGcThread(a: Action) {
    a.ReadLimit? || a.CheckCache? || a.Pop? || a.Finish?
  }

  /** No session begins or ends. */
  predicate Undisturbed(actions: seq<Action>) {
    forall i :: 0 <= i < |actions| ==> !actions[i].Publish? && !actions[i].Unpublish?
  }

  /** How many steps of the epoch thread there are. */
  function Steps(actions: seq<Action>): nat {
    if actions == [] then 0
    else Steps(actions[..|actions| - 1]) + if OfEpochThread(actions[|actions| - 1]) then 1 else 0
  }

  predicate SameBegins(s: State, s': State) {
    |s'.slots| == |s.slots| && forall i :: 0 <= i < |s.slots| ==> s'.slots[i].begin == s.slots[i].begin
  }

  lemma OthersStep(s: State, a: Action, s': State)
    requires Act(s, a, s') && !a.Publish? && !a.Unpublish?
    ensures SameBegins(s, s')
    ensures !OfEpochThread(a) ==> s'.et == s.et && s'.epoch == s.epoch && s'.gcEpoch == s.gcEpoch
  {
    hide Sessions, Older;
  }

  // ---- the verify scan ----

  /** How many slots from the left hold no session or one of epoch `e`. */
  function Agreed(slots: seq<Slot>, e: nat): (k: nat)
    ensures k <= |slots| && forall i :: 0 <= i < k ==> slots[i].begin == 0 || slots[i].begin == e
    ensures k < |slots| ==> slots[k].begin != 0 && slots[k].begin != e
  {
    if slots == [] || (slots[0].begin != 0 && slots[0].begin != e) then 0 else 1 + Agreed(slots[1..], e)
  }

  lemma {:induction false} AgreedSame(slots: seq<Slot>, slots': seq<Slot>, e: nat)
    requires |slots'| == |slots| && forall i :: 0 <= i < |slots| ==> slots'[i].begin == slots[i].begin
    ensures Agreed(slots', e) == Agreed(slots, e)
  {
    if slots != [] {
      AgreedSame(slots[1..], slots'[1..], e);
    }
  }

  /** Where the verify scan stands after `c` of its own steps. */
  function VerifyAt(slots: seq<Slot>, e: nat, c: nat): EpochThread {
    if c <= Agreed(slots, e) then Verifying(e, c) else if Agreed(slots, e) == |slots| then Verified else Sleeping
  }

  /** An undisturbed verify scan succeeds exactly when every session is of the present epoch, and after
      one step per slot and one more; otherwise it gives up at the first slot that is not. */
  lemma {:induction false} VerifyPass(states: seq<State>, actions: seq<Action>, e: nat)
    requires Path(states, actions) && Undisturbed(actions) && states[0].et == Verifying(e, 0)
    requires Steps(actions) <= Agreed(states[0].slots, e) + 1
    ensures var s, s' := states[0], states[|actions|];
            && s'.et == VerifyAt(s.slots, e, Steps(actions))
            && SameBegins(s, s') && s'.epoch == s.epoch && s'.gcEpoch == s.gcEpoch
    decreases |actions|
  {
    hide Act;
    if actions != [] {
      var n := |actions| - 1;
      VerifyPass(states[..n + 1], actions[..n], e);
      OthersStep(states[n], actions[n], states[n + 1]);
      AgreedSame(states[0].slots, states[n].slots, e);
      if OfEpochThread(actions[n]) {
        VerifyStep(states[n], actions[n], states[n + 1], e, Steps(actions[..n]));
      }
    }
  }

  lemma VerifyStep(s: State, a: Action, s': State, e: nat, c: nat)
    requires Act(s, a, s') && OfEpochThread(a) && c <= Agreed(s.slots, e) && s.et == Verifying(e, c)
    ensures s'.et == VerifyAt(s.slots, e, c + 1) && s'.epoch == s.epoch && s'.gcEpoch == s.gcEpoch
  {
  }

  // ---- the minimum scan ----

  /** The least begin epoch of a session, if there is a session. */
  function Least(slots: seq<Slot>): (m: Option<nat>)
    ensures m.None? <==> forall i :: 0 <= i < |slots| ==> !Active(slots[i])
    ensures m.Some? ==> exists i :: 0 <= i < |slots| && Active(slots[i]) && slots[i].begin == m.value
    ensures m.Some? ==> forall i :: 0 <= i < |slots| && Active(slots[i]) ==> m.value <= slots[i].begin
  {
    if slots == [] then None
    else
      var l, b := Least(slots[..|slots| - 1]), slots[|slots| - 1].begin;
      if b == 0 || (l.Some? && l.value <= b) then l else Some(b)
  }

  lemma {:induction false} LeastSame(slots: seq<Slot>, slots': seq<Slot>)
    requires |slots'| == |slots| && forall i :: 0 <= i < |slots| ==> slots'[i].begin == slots[i].begin
    ensures Least(slots') == Least(slots)
  {
    if slots != [] {
      LeastSame(slots[..|slots| - 1], slots'[..|slots| - 1]);
    }
  }

  /** An undisturbed minimum scan sets the gc epoch to one less than the least begin epoch of a session,
      or than the present epoch when there is none. */
  lemma {:induction false} MinimumPass(states: seq<State>, actions: seq<Action>)
    requires Path(states, actions) && Undisturbed(actions) && states[0].et == Scanning(0, None) && states[0].epoch > 0
    requires Steps(actions) <= |states[0].slots| + 1
    ensures var s, s', c := states[0], states[|actions|], Steps(actions);
            && SameBegins(s, s') && s'.epoch == s.epoch
            && if c <= |s.slots| then s'.et == Scanning(c, Least(s.slots[..c])) && s'.gcEpoch == s.gcEpoch
               else
                 var l := Least(s.slots);
                 s'.et == Sleeping && s'.gcEpoch == (if l.Some? then l.value else s.epoch) - 1
    decreases |actions|
  {
    hide Act;
    if actions != [] {
      var n := |actions| - 1;
      MinimumPass(states[..n + 1], actions[..n]);
      OthersStep(states[n], actions[n], states[n + 1]);
      if OfEpochThread(actions[n]) {
        MinimumStep(states[0].slots, states[n], actions[n], states[n + 1], Steps(actions[..n]));
      }
    } else {
      assert states[0].slots[..0] == [];
    }
  }

  lemma MinimumStep(slots: seq<Slot>, s: State, a: Action, s': State, c: nat)
    requires Act(s, a, s') && OfEpochThread(a) && c <= |slots| == |s.slots| && s.et == Scanning(c, Least(slots[..c]))
    requires s.epoch > 0 && forall i :: 0 <= i < |slots| ==> s.slots[i].begin == slots[i].begin
    ensures s'.epoch == s.epoch
    ensures if c < |slots| then s'.et == Scanning(c + 1, Least(slots[..c + 1])) && s'.gcEpoch == s.gcEpoch
            else s'.et == Sleeping && s'.gcEpoch == (if Least(slots).Some? then Least(slots).value else s.epoch) - 1
  {
    if c < |slots| {
      assert slots[..c + 1][..c] == slots[..c];
    } else {
      assert slots[..c] == slots;
    }
  }

  // ---- the whole cycle ----

  lemma {:induction false} StepsAppend(a: seq<Action>, b: seq<Action>)
    ensures Steps(a + b) == Steps(a) + Steps(b)
  {
    if b == [] {
      assert a + b == a;
    } else {
      var n := |b| - 1;
      assert (a + b)[..|a + b| - 1] == a + b[..n];
      StepsAppend(a, b[..n]);
    }
  }

  /** When every session is of the present epoch and none comes or goes, a whole cycle of the epoch thread
      advances the epoch by one, and the gc epoch to the old epoch, or one less while sessions go on. */
  lemma CyclePass(states: seq<State>, actions: seq<Action>, j: nat)
    requires Path(states, actions) && Undisturbed(actions) && states[0].epoch > 0
    requires var s := states[0]; s.et == Verifying(s.epoch, 0) && Agreed(s.slots, s.epoch) == |s.slots|
    requires j < |actions| && Steps(actions[..j]) == |states[0].slots| + 1 && OfEpochThread(actions[j])
    requires Steps(actions[j + 1..]) == |states[0].slots| + 1
    ensures var s, s' := states[0], states[|actions|];
            && s'.et == Sleeping && s'.epoch == s.epoch + 1 && SameBegins(s, s')
            && s'.gcEpoch == if Least(s.slots).Some? then s.epoch - 1 else s.epoch
  {
    hide Act;
    var s := states[0];
    VerifyPass(states[..j + 1], actions[..j], s.epoch);
    Incremented(states[j], actions[j], states[j + 1]);
    MinimumPass(states[j + 1..], actions[j + 1..]);
    LeastSame(s.slots, states[j + 1].slots);
  }

  lemma Incremented(s: State, a: Action, s': State)
    requires Act(s, a, s') && OfEpochThread(a) && s.et == Verified
    ensures s'.epoch == s.epoch + 1 && s'.et == Scanning(0, None) && s'.slots == s.slots
  {
  }

  /** The epoch thread always has a next step, whatever the others have done. */
  lemma EpochThreadReady(s: State) returns (a: Action, s': State)
    requires Epochs(s)
    ensures OfEpochThread(a) && Act(s, a, s')
  {
    match s.et {
      case Sleeping => a, s' := StartVerify, s.(et := Verifying(s.epoch, 0));
      case Verifying(_, _) => a, s' := VerifySlot, s.(et := VerifyNext(s));
      case Verified => a, s' := Increment, s.(epoch := s.epoch + 1, et := Scanning(0, None));
      case Scanning(next, _) =>
        if next < |s.slots| {
          a, s' := ScanSlot, s.(et := Scanning(next + 1, ScanNext(s)));
        } else {
          a, s' := SetGcEpoch, s.(gcEpoch := NewGcEpoch(s), et := Sleeping);
        }
    }
  }

  // ---- the gc thread ----

  function Ids(xs: seq<Item>): (r: seq<nat>)
    ensures |r| == |xs|
  {
    seq(|xs|, i requires 0 <= i < |xs| => xs[i].id)
  }

  function GcSteps(actions: seq<Action>): nat {
    if actions == [] then 0
    else GcSteps(actions[..|actions| - 1]) + if OfGcThread(actions[|actions| - 1]) then 1 else 0
  }

  lemma GcOthers(s: State, a: Action, s': State, i: nat, limit: nat)
    requires Act(s, a, s') && !OfGcThread(a) && a != Retire(i) && s.gt == Collecting(i, limit) && i < |s.slots|
    ensures s'.gt == s.gt && s'.freed == s.freed && |s'.slots| == |s.slots| && PendingOf(s'.slots[i]) == PendingOf(s.slots[i])
  {
    hide Sessions, Older;
  }

  /** One step of the gc thread frees the front of what is pending if it is old, and otherwise is done. */
  lemma GcStep(s: State, a: Action, s': State, i: nat, limit: nat)
    requires Act(s, a, s') && OfGcThread(a) && s.gt == Collecting(i, limit) && i < |s.slots|
    ensures |s'.slots| == |s.slots|
    ensures var p, p' := PendingOf(s.slots[i]), PendingOf(s'.slots[i]);
            if p != [] && p[0].epoch < limit then s'.gt == s.gt && s'.freed == s.freed + [p[0].id] && p' == p[1..]
            else s'.gt == Resting(if i + 1 < |s.slots| then i + 1 else 0) && s'.freed == s.freed && p' == p
  {
    var l := s.slots[i];
    if l.cache.Some? {
      assert PendingOf(l)[1..] == l.queue;
    } else if l.queue != [] {
      assert l.queue == [l.queue[0]] + l.queue[1..];
    }
  }

  lemma FrontBy(xs: seq<Item>, limit: nat, k: nat)
    requires k < OldFront(xs, limit) || (k < |xs| && k == OldFront(xs, limit))
    ensures k < OldFront(xs, limit) <==> xs[k].epoch < limit
  {
  }

  /** A pass of the gc thread over one container that nobody pushes to meanwhile frees exactly the old
      front of what was pending, in order, and then goes on to the next slot. */
  lemma {:induction false} GcPass(states: seq<State>, actions: seq<Action>, i: nat, limit: nat)
    requires Path(states, actions) && i < |states[0].slots|
    requires forall k :: 0 <= k < |actions| ==> states[k].gt == Collecting(i, limit) && actions[k] != Retire(i)
    requires actions == [] ==> states[0].gt == Collecting(i, limit)
    ensures var s, s' := states[0], states[|actions|];
            var p, f := PendingOf(s.slots[i]), OldFront(PendingOf(s.slots[i]), limit);
            var c := GcSteps(actions);
            && c <= f + 1 && |s'.slots| == |s.slots|
            && if c <= f then
                 s'.gt == Collecting(i, limit) && s'.freed == s.freed + Ids(p[..c]) && PendingOf(s'.slots[i]) == p[c..]
               else
                 && s'.gt == Resting(if i + 1 < |s.slots| then i + 1 else 0)
                 && s'.freed == s.freed + Ids(p[..f]) && PendingOf(s'.slots[i]) == p[f..]
    decreases |actions|
  {
    hide Act, PendingOf, OldFront;
    var s := states[0];
    var p := PendingOf(s.slots[i]);
    if actions == [] {
      assert s.freed + Ids(p[..0]) == s.freed;
    } else {
      var n := |actions| - 1;
      GcPass(states[..n + 1], actions[..n], i, limit);
      var c := GcSteps(actions[..n]);
      if OfGcThread(actions[n]) {
        GcStep(states[n], actions[n], states[n + 1], i, limit);
        GcCount(s.freed, p, limit, c);
      } else {
        GcOthers(states[n], actions[n], states[n + 1], i, limit);
      }
    }
  }

  lemma GcCount(freed: seq<nat>, p: seq<Item>, limit: nat, c: nat)
    requires c <= OldFront(p, limit)
    ensures p[c..] != [] && p[c..][0].epoch < limit <==> c < OldFront(p, limit)
    ensures c < OldFront(p, limit) ==> p[c..][1..] == p[c + 1..] && freed + Ids(p[..c]) + [p[c..][0].id] == freed + Ids(p[..c + 1])
  {
    if c < |p| {
      FrontBy(p, limit, c);
    }
    if c < OldFront(p, limit) {
      assert Ids(p[..c + 1]) == Ids(p[..c]) + [p[c].id];
    }
  }

  /** Once the gc epoch has passed the epoch a slot without a session was last seen in, which takes two
      cycles, a pass of the gc thread leaves nothing of what was pending there. */
  lemma NothingStays(s: State, i: nat, limit: nat)
    requires Ordered(s) && i < |s.slots| && !Active(s.slots[i]) && s.epoch < limit
    ensures OldFront(PendingOf(s.slots[i]), limit) == |PendingOf(s.slots[i])|
  {
    hide PendingOf;
    var p := PendingOf(s.slots[i]);
    assert forall k :: 0 <= k < |p| ==> p[k].epoch <= s.epoch;
  }

  /** The gc thread always has a next step while there are slots. */
  lemma GcThreadReady(s: State) returns (a: Action, s': State)
    requires s.slots != [] && (if s.gt.Resting? then s.gt.next < |s.slots| else s.gt.at < |s.slots|)
    ensures OfGcThread(a) && Act(s, a, s') && (if s'.gt.Resting? then s'.gt.next < |s'.slots| else s'.gt.at < |s'.slots|)
    ensures s.gt.Resting? ==> s'.gt == Collecting(s.gt.next, s.gcEpoch)
  {
    if s.gt.Resting? {
      a, s' := ReadLimit, s.(gt := Collecting(s.gt.next, s.gcEpoch));
    } else if s.slots[s.gt.at].cache.Some? {
      a, s' := CheckCache, AfterCache(s);
    } else if s.slots[s.gt.at].queue != [] {
      a, s' := Pop, AfterPop(s);
    } else {
      a, s' := Finish, s.(gt := Resting(NextSlot(s)));
    }
  }

  // ---- sessions ----

  /** A free slot can be taken; the session begins in the present epoch, retires what it likes under that
      epoch, and leaves the slot free again. */
  lemma SessionCycle(s: State, i: nat) returns (s1: State, s2: State, s3: State, s4: State, s5: State)
    requires i < |s.slots| && !s.slots[i].running && !Active(s.slots[i]) && s.epoch > 0
    ensures Act(s, Gain(i), s1) && Act(s1, Publish(i), s2) && Act(s2, Retire(i), s3)
    ensures Act(s3, Unpublish(i), s4) && Act(s4, Release(i), s5)
    ensures |s2.slots| == |s.slots| && s2.slots[i].begin == s.epoch && s2.slots[i].session == s.slots[i].session + 1
    ensures |s5.slots| == |s.slots| && !s5.slots[i].running && !Active(s5.slots[i])
    ensures PendingOf(s5.slots[i]) == PendingOf(s.slots[i]) + [Item(s.epoch, s.made)]
  {
    s1 := With(s, i, s.slots[i].(running := true));
    s2 := With(s1, i, s1.slots[i].(begin := s.epoch, session := s.slots[i].session + 1));
    s3 := With(s2, i, s2.slots[i].(queue := s.slots[i].queue + [Item(s.epoch, s.made)]))
          .(made := s.made + 1, seen := s.seen[s.made := Sessions(s2)]);
    s4 := With(s3, i, s3.slots[i].(begin := 0));
    s5 := With(s4, i, s4.slots[i].(running := false));
  }
}
