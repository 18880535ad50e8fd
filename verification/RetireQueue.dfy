/** One container of retired objects: a queue and a cache of one element.  The cache holds an element
    that was popped but turned out too young to free. */
module RetireQueues {
  import opened Wrappers
  import opened Reclamation

  /** How many elements at the front are older than the limit. */
  function OldFront(xs: seq<Item>, limit: nat): (k: nat)
    ensures k <= |xs|
    ensures forall i :: 0 <= i < k ==> xs[i].epoch < limit
    ensures k < |xs| ==> limit <= xs[k].epoch
  {
    if xs == [] || limit <= xs[0].epoch then 0 else 1 + OldFront(xs[1..], limit)
  }

  predicate Ascending(xs: seq<Item>) {
    forall i, j :: 0 <= i < j < |xs| ==> xs[i].epoch <= xs[j].epoch
  }

  /** In a container whose epochs ascend, the old front is all that is old. */
  lemma OldFrontIsAll(xs: seq<Item>, limit: nat, i: nat)
    requires Ascending(xs) && i < |xs|
    ensures xs[i].epoch < limit <==> i < OldFront(xs, limit)
  {
  }

  lemma FrontAt(xs: seq<Item>, limit: nat, j: nat)
    requires j <= |xs| && forall i :: 0 <= i < j ==> xs[i].epoch < limit
    requires j < |xs| ==> limit <= xs[j].epoch
    ensures OldFront(xs, limit) == j
  {
  }

  lemma FrontOnce(xs: seq<Item>, limit: nat)
    ensures xs != [] && limit <= xs[0].epoch ==> OldFront(xs, limit) == 0 && xs[..0] == [] && xs[0..] == xs
  {
  }

  lemma TakeDrop(before: seq<Item>, xs: seq<Item>, k: nat)
    requires k <= |xs|
    ensures before + xs == (before + xs[..k]) + xs[k..]
  {
  }

  /** Freeing an old cached element and then the old front of the queue frees the old front of both. */
  lemma FrontGlue(before: seq<Item>, x: Item, rest: seq<Item>, limit: nat)
    requires x.epoch < limit
    ensures var k := OldFront([x] + rest, limit);
            && before + [x] + rest[..OldFront(rest, limit)] == before + ([x] + rest)[..k]
            && rest[OldFront(rest, limit)..] == ([x] + rest)[k..]
  {
    var j := OldFront(rest, limit);
    hide OldFront;
    FrontAt([x] + rest, limit, j + 1);
    assert ([x] + rest)[..j + 1] == [x] + rest[..j];
  }

  class RetireQueue {
    var cache: Option<Item>
    var queue: seq<Item>
    /** Everything ever pushed, and everything freed so far, in order. */
    ghost var pushed: seq<Item>
    ghost var freed: seq<Item>

    /** Cache and queue together, oldest first. */
    function Pending(): seq<Item>
      reads this
    {
      (if cache.Some? then [cache.value] else []) + queue
    }

    ghost predicate Valid()
      reads this
    {
      pushed == freed + Pending()
    }

    constructor ()
      ensures Valid() && pushed == [] && Pending() == []
    {
      cache := None;
      queue := [];
      pushed := [];
      freed := [];
    }

    method Push(x: Item)
      requires Valid()
      modifies this
      ensures Valid() && pushed == old(pushed) + [x] && freed == old(freed)
      ensures Pending() == old(Pending()) + [x]
    {
      queue := queue + [x];
      pushed := pushed + [x];
    }

    /** Frees from the front while the elements are older than the limit read at the start. */
    method Gc(limit: nat)
      requires Valid()
      modifies this
      ensures Valid() && pushed == old(pushed)
      ensures var k := OldFront(old(Pending()), limit);
              freed == old(freed) + old(Pending())[..k] && Pending() == old(Pending())[k..]
    {
      hide OldFront;
      ghost var all, before := Pending(), freed;
      TakeDrop(before, all, OldFront(all, limit));
      if cache.None? {
        assert all == queue;
        Drain(limit);
      } else if cache.value.epoch >= limit {
        FrontOnce(all, limit);
      } else {
        FreeCacheAndDrain(limit);
      }
      assert freed == before + all[..OldFront(all, limit)];
      assert Pending() == all[OldFront(all, limit)..];
    }

    method FreeCacheAndDrain(limit: nat)
      requires cache.Some? && cache.value.epoch < limit
      modifies this`cache, this`queue, this`freed
      ensures var k := OldFront(old(Pending()), limit);
              freed == old(freed) + old(Pending())[..k] && Pending() == old(Pending())[k..]
    {
      hide OldFront;
      FrontGlue(freed, cache.value, queue, limit);
      freed := freed + [cache.value];
      cache := None;
      Drain(limit);
    }

    method Drain(limit: nat)
      requires cache.None?
      modifies this`cache, this`queue, this`freed
      ensures var k := OldFront(old(queue), limit);
              freed == old(freed) + old(queue)[..k] && Pending() == old(queue)[k..]
    {
      ghost var all, before, j := queue, freed, 0;
      while queue != []
        invariant cache.None? && j <= |all| && queue == all[j..] && freed == before + all[..j]
        invariant forall i :: 0 <= i < j ==> all[i].epoch < limit
        decreases |queue|
      {
        var x := queue[0];
        queue := queue[1..];
        if x.epoch >= limit {
          cache := Some(x);
          FrontAt(all, limit, j);
          return;
        }
        freed := freed + [x];
        j := j + 1;
      }
      FrontAt(all, limit, |all|);
    }

    /** Shutdown: everything that is left is freed. */
    method Fin()
      requires Valid()
      modifies this
      ensures Valid() && pushed == old(pushed) && Pending() == []
      ensures freed == pushed
    {
      if cache.Some? {
        freed := freed + [cache.value];
        cache := None;
      }
      while queue != []
        invariant Valid() && pushed == old(pushed) && cache.None?
        decreases |queue|
      {
        freed := freed + [queue[0]];
        queue := queue[1..];
      }
    }
  }

  // ---- the containers of the protocol ----

  function PendingOf(l: Slot): seq<Item> {
    (if l.cache.Some? then [l.cache.value] else []) + l.queue
  }

  /** Epochs ascend within a container, up to the begin epoch of the session that pushes next. */
  ghost predicate Ordered(s: State) {
    forall i :: 0 <= i < |s.slots| ==>
                  && Ascending(PendingOf(s.slots[i]))
                  && forall k :: 0 <= k < |PendingOf(s.slots[i])| ==>
                                   PendingOf(s.slots[i])[k].epoch <=
                                   if Active(s.slots[i]) then s.slots[i].begin else s.epoch
  }

  /** One step of the protocol pushes at the end, frees at the front, or leaves the container alone. */
  lemma PendingStep(s: State, a: Action, s': State, i: nat)
    requires Act(s, a, s') && i < |s'.slots|
    ensures |s'.slots| == |s.slots|
    ensures var p, p' := PendingOf(s.slots[i]), PendingOf(s'.slots[i]);
            || p' == p
            || (a == Retire(i) && p' == p + [Item(s.slots[i].begin, s.made)])
            || (p != [] && p' == p[1..] && s.gt.Collecting? && s.gt.at == i && FreedBy(s, a) == Some(p[0]))
  {
    hide Sessions;
    if a.Retire? && a.i == i {
      var l := s.slots[i];
      assert PendingOf(s'.slots[i]) == PendingOf(l) + [Item(l.begin, s.made)];
    }
  }

  lemma StepOrdered(s: State, a: Action, s': State)
    requires Epochs(s) && Ordered(s) && Act(s, a, s')
    ensures Ordered(s')
  {
    forall i | 0 <= i < |s'.slots|
      ensures Ascending(PendingOf(s'.slots[i]))
      ensures forall k :: 0 <= k < |PendingOf(s'.slots[i])| ==>
                            PendingOf(s'.slots[i])[k].epoch <=
                            if Active(s'.slots[i]) then s'.slots[i].begin else s'.epoch
    {
      StepOrderedAt(s, a, s', i);
    }
  }

  lemma StepOrderedAt(s: State, a: Action, s': State, i: nat)
    requires Epochs(s) && Ordered(s) && Act(s, a, s') && i < |s'.slots|
    ensures Ascending(PendingOf(s'.slots[i]))
    ensures forall k :: 0 <= k < |PendingOf(s'.slots[i])| ==>
                          PendingOf(s'.slots[i])[k].epoch <=
                          if Active(s'.slots[i]) then s'.slots[i].begin else s'.epoch
  {
    PendingStep(s, a, s', i);
    LevelStep(s, a, s', i);
    hide Act, Epochs, PendingOf, FreedBy, Ascending;
    var p, p' := PendingOf(s.slots[i]), PendingOf(s'.slots[i]);
    var level := if Active(s.slots[i]) then s.slots[i].begin else s.epoch;
    OrderKept(p, Item(s.slots[i].begin, s.made), level);
  }

  lemma OrderKept(p: seq<Item>, x: Item, level: nat)
    requires Ascending(p) && forall k :: 0 <= k < |p| ==> p[k].epoch <= level
    ensures p != [] ==> Ascending(p[1..]) && forall k :: 0 <= k < |p[1..]| ==> p[1..][k].epoch <= level
    ensures x.epoch == level ==> Ascending(p + [x]) && forall k :: 0 <= k < |p + [x]| ==> (p + [x])[k].epoch <= level
  {
  }

  /** The bound on what is pending does not go down. */
  lemma LevelStep(s: State, a: Action, s': State, i: nat)
    requires Epochs(s) && Act(s, a, s') && i < |s'.slots|
    ensures |s'.slots| == |s.slots|
    ensures (if Active(s.slots[i]) then s.slots[i].begin else s.epoch) <=
            (if Active(s'.slots[i]) then s'.slots[i].begin else s'.epoch)
    ensures a == Retire(i) ==> Active(s.slots[i]) && s'.slots[i].begin == s.slots[i].begin
  {
    hide Sessions, Passed, Behind;
  }

  /** In every run the epochs in every container ascend. */
  lemma {:induction false} ContainersOrdered(states: seq<State>, actions: seq<Action>, k: nat)
    requires Run(states, actions) && k <= |actions|
    ensures Ordered(states[k])
    decreases k
  {
    hide Act, Ordered;
    if k == 0 {
      EmptyOrdered(states[0]);
    } else {
      ContainersOrdered(states, actions, k - 1);
      RunInv(states, actions, k - 1);
      StepOrdered(states[k - 1], actions[k - 1], states[k]);
    }
  }

  lemma EmptyOrdered(s: State)
    requires Init(s)
    ensures Ordered(s)
  {
  }
}
