/** What the version counters of the borders reveal about a run.  A border that stays in the tree
    never loses a count, and as long as it has not split it keeps every key it was responsible for.
    Scans rely on this to find keys that appeared after they read. */
module Track {
  import opened Keys
  import opened Contents
  import opened Store
  import opened InsertStep
  import opened SplitStep
  import opened AttachStep
  import opened InnerSplitStep
  import opened RemoveStep
  import opened InnerRemoveStep
  import opened PlantStep
  import opened Meaning
  import opened Widen

  /** Counters do not go back; the range shrinks only when the split counter moves. */
  ghost predicate TracksAt(s: Snap, s': Snap, b: NodeId)
    requires b in s.h && b in s'.h
  {
    && s'.h[b].Border?
    && s.h[b].ver.vins <= s'.h[b].ver.vins && s.h[b].ver.vsplit <= s'.h[b].ver.vsplit
    && (s'.h[b].ver.vins == s.h[b].ver.vins && s.h[b].ver.deleted ==> s'.h[b].ver.deleted)
    && Of(s', b).pfx == Of(s, b).pfx
    && (s'.h[b].ver.vsplit == s.h[b].ver.vsplit ==> Of(s', b).lo <= Of(s, b).lo && Of(s, b).hi <= Of(s', b).hi)
  }

  ghost predicate Tracks(s: Snap, s': Snap) {
    forall b <- s.h :: s.h[b].Border? && b in s'.h ==> TracksAt(s, s', b)
  }

  /** A step of a put: no node leaves. */
  ghost predicate Swells(s: Snap, s': Snap) {
    Tracks(s, s') && s.h.Keys <= s'.h.Keys
  }

  /** A removal moves no counter but that of an interior node, by one for each child it gives up. */
  predicate EasedAt(n: Node, n': Node) {
    && n'.Border? == n.Border? && n'.ver.vsplit == n.ver.vsplit
    && match n
       case Border(_, _, _, _, _) => n'.ver.vins == n.ver.vins
       case Interior(_, _, _, cs) => n'.Interior? && n'.ver.vins == n.ver.vins + |cs| - |n'.children|
  }

  predicate Eases(h: Heap, h': Heap) {
    forall n <- h' :: n in h ==> EasedAt(h[n], h'[n])
  }

  /** A step of a removal: no node appears. */
  ghost predicate Shrinks(s: Snap, s': Snap) {
    Tracks(s, s') && s'.h.Keys <= s.h.Keys && Eases(s.h, s'.h)
  }

  lemma SwellsSelf(s: Snap)
    ensures Swells(s, s)
  {
  }

  lemma SwellsThen(s: Snap, s1: Snap, s2: Snap)
    requires Swells(s, s1) && Swells(s1, s2)
    ensures Swells(s, s2)
  {
    forall b | b in s.h && s.h[b].Border?
      ensures TracksAt(s, s2, b)
    {
      assert b in s.h.Keys && b in s1.h.Keys;
      assert TracksAt(s, s1, b) && TracksAt(s1, s2, b);
    }
  }

  lemma ShrinksSelf(s: Snap)
    ensures Shrinks(s, s)
  {
  }

  lemma ShrinksThen(s: Snap, s1: Snap, s2: Snap)
    requires Shrinks(s, s1) && Shrinks(s1, s2)
    ensures Shrinks(s, s2)
  {
    forall b | b in s.h && s.h[b].Border? && b in s2.h
      ensures TracksAt(s, s2, b)
    {
      assert b in s2.h.Keys && b in s1.h.Keys;
      assert TracksAt(s, s1, b) && TracksAt(s1, s2, b);
    }
    forall n | n in s2.h && n in s.h
      ensures EasedAt(s.h[n], s2.h[n])
    {
      assert n in s2.h.Keys && n in s1.h.Keys;
      assert EasedAt(s.h[n], s1.h[n]) && EasedAt(s1.h[n], s2.h[n]);
    }
  }

  lemma InsertTracks(s: Snap, b: NodeId, e: Entry, s': Snap)
    requires b in s.h && s.h[b].Border? && Inserted(s, b, e, s')
    ensures Swells(s, s') && s'.h[b].ver.vins == s.h[b].ver.vins + 1
  {
  }

  lemma SplitTracks(s: Snap, b: NodeId, y: NodeId, low: seq<Entry>, high: seq<Entry>, s': Snap)
    requires b in s.h && s.h[b].Border? && LeafSplit(s, b, y, low, high, s')
    ensures Swells(s, s')
    ensures s'.h[b].ver.vins == s.h[b].ver.vins + 1 && s'.h[b].ver.vsplit == s.h[b].ver.vsplit + 1
    ensures forall m <- s.h :: m != b ==> m in s'.h && s'.h[m].ver == s.h[m].ver
  {
    forall m | m in s.h && s.h[m].Border? && m in s'.h
      ensures TracksAt(s, s', m)
    {
      assert m != b ==> s'.h[m].ver == s.h[m].ver;
    }
  }

  lemma CrownTracks(s: Snap, left: NodeId, x: NodeId, sep: KeyTuple, t: NodeId, s': Snap)
    requires left in s.h && x in s.h && Crowned(s, left, x, sep, t, s')
    ensures Swells(s, s')
  {
  }

  lemma AdoptTracks(s: Snap, left: NodeId, x: NodeId, sep: KeyTuple, p: NodeId, s': Snap)
    requires p in s.h && s.h[p].Interior? && x in s.h && Adopted(s, left, x, sep, p, s')
    ensures Swells(s, s')
  {
  }

  lemma InnerSplitTracks(s: Snap, p: NodeId, x: NodeId, y: NodeId, hv: Halves, s': Snap)
    requires p in s.h && s.h[p].Interior? && x in s.h && InnerSplit(s, p, x, y, hv, s')
    ensures Swells(s, s')
  {
  }

  lemma OverwriteTracks(s: Snap, b: NodeId, i: nat, w: Val, s': Snap)
    requires b in s.h && s.h[b].Border? && i < |s.h[b].entries| && Overwritten(s, b, i, w, s')
    ensures Swells(s, s')
  {
  }

  lemma WidenTracks(s: Snap, s': Snap)
    requires Widened(s, s')
    ensures Swells(s, s')
  {
  }

  lemma TakeTracks(s: Snap, b: NodeId, i: nat, s': Snap)
    requires b in s.h && s.h[b].Border? && i < |s.h[b].entries| && Taken(s, b, i, s')
    ensures Shrinks(s, s')
  {
  }

  lemma EmptyTracks(s: Snap, s': Snap)
    requires s.root in s.h && s.h[s.root].Border? && Emptied(s, s')
    ensures Shrinks(s, s')
  {
  }

  lemma BuryTracks(s: Snap, b: NodeId, s': Snap)
    requires b in s.h && s.h[b].Border? && Buried(s, b, s')
    ensures Shrinks(s, s')
  {
  }

  lemma DropTracks(s: Snap, p: NodeId, i: nat, s': Snap)
    requires p in s.h && s.h[p].Interior? && i <= |s.h[p].keys| && |s.h[p].keys| > 0 && i < |s.h[p].children|
    requires Dropped(s, p, i, s')
    ensures Shrinks(s, s')
  {
  }

  lemma CollapseTracks(s: Snap, p: NodeId, sib: NodeId, s': Snap)
    requires p in s.h && Collapsed(s, p, sib, s') && s.h[p].parent != sib
    ensures Shrinks(s, s')
  {
  }
}
