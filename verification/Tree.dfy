/** The tree: get, put and remove on one storage, node by node, and the map they implement. */
module Trees {
  import opened Wrappers
  import opened Keys
  import opened Contents
  import opened Store
  import opened Routing
  import opened Widen
  import opened InsertStep
  import opened SplitStep
  import opened AttachStep
  import opened InnerSplitStep
  import opened RemoveStep
  import opened InnerRemoveStep
  import opened PlantStep
  import opened Meaning
  import opened Track
  import opened TreeFacts
  import opened Effects

  class Tree {
    var heap: Heap
    var root: NodeId
    var nextId: NodeId
    var retired: seq<NodeId>
    var graves: Heap
    var nextVal: nat
    var releasedVals: seq<nat>
    var freedAtOnce: set<nat>
    ghost var sh: map<NodeId, Info>
    ghost var content: Content

    ghost function Now(): Snap
      reads this
    {
      Snap(heap, root, sh)
    }

    ghost predicate Valid()
      reads this
    {
      && Shape(Now(), NULL, NULL)
      && (root == NULL ==> heap == map[])
      && Agrees(Now(), content)
      && Counted(heap, retired, {}, nextId)
      && ValuesCounted(content, releasedVals, nextVal)
      && GravesFit(retired, graves)
    }

    /** A storage as `create_storage` makes it: one empty border. */
    constructor ()
      ensures Valid() && content == map[] && retired == [] && releasedVals == []
    {
      heap := map[1 := Border(NULL, Version(0, 0, false, true), [], NULL, NULL)];
      root := 1;
      nextId := 2;
      retired := [];
      graves := map[];
      nextVal := 0;
      releasedVals := [];
      freedAtOnce := {};
      sh := map[1 := Info([], 0, 0, 0)];
      content := map[];
    }

    /** A tree whose root pointer is null. */
    constructor Empty()
      ensures Valid() && content == map[] && retired == [] && releasedVals == []
    {
      heap := map[];
      root := NULL;
      nextId := 1;
      retired := [];
      graves := map[];
      nextVal := 0;
      releasedVals := [];
      freedAtOnce := {};
      sh := map[];
      content := map[];
    }

    // ---- descent ----

    /** The descent inside one layer; `len` is the raw length the caller passes. */
    method FindBorder(n: NodeId, slice: seq<byte>, len: nat) returns (b: NodeId)
      requires Treelike(Now()) && n in heap && |slice| == SLICE
      ensures b in heap && heap[b].Border? && Of(Now(), b).pfx == Of(Now(), n).pfx
      ensures b == Route(Now(), n, Ord(Clamp(slice, len)))
    {
      var o := Ord(Clamp(slice, len));
      RouteBorder(Now(), n, o);
      b := n;
      if heap[b].ver.deleted {
        return;
      }
      while heap[b].Interior?
        invariant b in heap && Route(Now(), b, o) == Route(Now(), n, o)
        decreases Of(Now(), b).ht
      {
        RouteStep(Now(), b, o);
        b := heap[b].children[ChildIndex(heap[b].keys, o)];
      }
    }

    /** The traversal that get, put and remove share: layer by layer to the border and rank where `k`
        is, or would be.  The source checks on the way that the root of each layer has its flag. */
    method Locate(k: Key) returns (n: NodeId, rest: Key, b: NodeId, i: nat)
      requires Treelike(Now()) && root != NULL
      ensures b in heap && heap[b].Border? && i <= |heap[b].entries| && Located(Now(), k, n, rest, b, i)
    {
      hide Treelike;
      n, rest := root, k;
      TopRoot(Now());
      while true
        invariant LayerRoot(Now(), n) && Of(Now(), n).pfx + rest == k
        invariant Of(Now(), n).pfx != [] ==> rest != []
        decreases |rest|
      {
        assert heap[n].ver.root by { RootFlag(Now(), n); }
        var t := TupleOf(rest);
        b := FindBorder(n, t.slice, t.len);
        ClampCanonical(t);
        i := Lookup(heap[b].entries, t);
        if i == |heap[b].entries| || t.len <= SLICE {
          return;
        }
        NextLayer(Now(), n, b, i, rest);
        n, rest := heap[b].entries[i].payload.to, rest[SLICE..];
      }
    }

    method Get(k: Key) returns (st: Status, v: Option<Val>)
      requires Valid()
      ensures k in content ==> st == OK && v == Some(content[k])
      ensures k !in content ==> st == WARN_NOT_EXIST && v == None
    {
      hide Shape, Agrees, Counted, ValuesCounted, Located, Treelike;
      if root == NULL {
        NothingStored(Now(), content);
        return WARN_NOT_EXIST, None;
      }
      ShapeTree(Now());
      var n, rest, b, i := Locate(k);
      if i == |heap[b].entries| {
        Absent(Now(), content, k, n, rest, b, i);
        return WARN_NOT_EXIST, None;
      }
      Present(Now(), content, k, n, rest, b, i);
      return OK, Some(heap[b].entries[i].payload.val);
    }

    // ---- put ----

    /** Sets one key; with `unique` an existing key is left alone.  An overwritten allocated value is
        retired, but when the new value is kept in the slot the old one is freed on the spot. */
    method Put(k: Key, data: Data, inline: bool, unique: bool) returns (st: Status, v: Option<Val>)
      requires Valid()
      modifies this
      ensures Valid() && retired == old(retired) && graves == old(graves)
      ensures Swells(old(Now()), Now())
      ensures k !in old(content) && old(root) != NULL && |k| <= SLICE ==>
                Bumped(old(Now()), Now(), Route(old(Now()), old(root), Ord(TupleOf(k))))
      ensures k !in old(content) && old(root) != NULL ==> v.Some? && Admits(old(Now()), k, v.value, heap)
      ensures k in old(content) && !unique ==> v.Some? && Updates(old(Now()), k, v.value, Now()) && nextId == old(nextId)
      ensures k in old(content) ==>
                heap.Keys == old(heap).Keys && root == old(root) && forall n <- heap :: heap[n].ver == old(heap)[n].ver
      ensures unique && k in old(content) ==> st == WARN_UNIQUE_RESTRICTION && v == None && unchanged(this)
      ensures !(unique && k in old(content)) ==>
                && st == OK && v.Some? && v.value.data == data && v.value.Inline? == inline
                && content == old(content)[k := v.value] && FreshVal(v.value, old(nextVal), nextVal)
                && releasedVals == old(releasedVals) + Displaced(old(content), k)
                && freedAtOnce == old(freedAtOnce) + (if inline then set i <- Displaced(old(content), k) else {})
    {
      hide Shape, Agrees, Counted, ValuesCounted, Gains, Located, Stored, Treelike, Swells, Bumped, Admits, Updates, Took, Overwritten, NewEntry, Owns;
      ghost var s0 := Now();
      var w: Val;
      if root == NULL {
        NothingStored(s0, content);
        w := CreateValue(data, inline);
        PlantRoot(k, w);
        ContentGains(s0, Now(), content, k, w);
      } else {
        ShapeTree(s0);
        var n, rest, b, i := Locate(k);
        if i == |heap[b].entries| {
          Absent(s0, content, k, n, rest, b, i);
          w := CreateValue(data, inline);
          LocatedTop(s0, k, n, rest, b, i);
          ghost var e := PutNew(n, rest, b, i, k, w);
          AdmitsNow(s0, k, w, heap, n, rest, b, e);
          ContentGains(s0, Now(), content, k, w);
        } else {
          Present(s0, content, k, n, rest, b, i);
          if unique {
            SwellsSelf(s0);
            return WARN_UNIQUE_RESTRICTION, None;
          }
          w := Change(n, rest, b, i, k, data, inline);
          UpdatesKeeps(s0, k, w, Now());
        }
      }
      assert releasedVals == old(releasedVals) + Displaced(content, k);
      ValueStored(content, k, w, old(releasedVals), old(nextVal), nextVal);
      content := content[k := w];
      return OK, Some(w);
    }

    /** The key is there: its value gives way to a new one. */
    method Change(ghost n: NodeId, ghost rest: Key, b: NodeId, i: nat, ghost k: Key, data: Data, inline: bool)
      returns (w: Val)
      requires Shape(Now(), NULL, NULL) && Counted(heap, retired, {}, nextId) && Agrees(Now(), content)
      requires b in heap && heap[b].Border? && Located(Now(), k, n, rest, b, i) && i < |heap[b].entries|
      requires k in content && heap[b].entries[i].payload == Value(content[k])
      modifies this`heap, this`nextVal, this`releasedVals, this`freedAtOnce
      ensures Shape(Now(), NULL, NULL) && Counted(heap, retired, {}, nextId) && Agrees(Now(), content[k := w])
      ensures w.data == data && w.Inline? == inline && FreshVal(w, old(nextVal), nextVal)
      ensures Swells(old(Now()), Now()) && Updates(old(Now()), k, w, Now())
      ensures releasedVals == old(releasedVals) + Displaced(content, k)
      ensures freedAtOnce == old(freedAtOnce) + (if inline then set i <- Displaced(content, k) else {})
    {
      hide Shape, Agrees, Counted, Located, Stored, Swells, Updates, Overwritten;
      ghost var s0 := Now();
      w := CreateValue(data, inline);
      var was := Overwrite(n, rest, b, i, k, w);
      UpdatesNow(s0, k, w, Now(), n, rest, b, i);
      ContentSet(s0, Now(), content, k, w);
      ReleaseOld(was, inline);
    }

    /** The displaced value, if it was allocated, is retired or freed on the spot. */
    method ReleaseOld(was: Val, atOnce: bool)
      modifies this`releasedVals, this`freedAtOnce
      ensures releasedVals == old(releasedVals) + if was.Boxed? then [was.id] else []
      ensures freedAtOnce == old(freedAtOnce) + if was.Boxed? && atOnce then {was.id} else {}
    {
      if was.Boxed? {
        releasedVals := releasedVals + [was.id];
        if atOnce {
          freedAtOnce := freedAtOnce + {was.id};
        }
      }
    }

    /** The first key of an empty tree. */
    method PlantRoot(k: Key, v: Val)
      requires Shape(Now(), NULL, NULL) && heap == map[] && root == NULL && Counted(heap, retired, {}, nextId)
      modifies this`heap, this`root, this`nextId, this`sh
      ensures Shape(Now(), NULL, NULL) && Counted(heap, retired, {}, nextId) && root != NULL
      ensures Gains(old(Now()), Now(), k, v) && Swells(old(Now()), Now())
    {
      hide Shape, Counted, Stored;
      var r := CreateLayer([], k, v, {});
      ghost var s1 := Now();
      root := r;
      RootPlanted(s1, r, Now());
      SameStored(s1, Now());
      assert [] + k == k;
    }

    method PutNew(n: NodeId, rest: Key, b: NodeId, i: nat, ghost k: Key, v: Val) returns (ghost e: Entry)
      requires Shape(Now(), NULL, NULL) && Counted(heap, retired, {}, nextId)
      requires Located(Now(), k, n, rest, b, i) && i == |heap[b].entries|
      modifies this`heap, this`root, this`nextId, this`sh
      ensures Shape(Now(), NULL, NULL) && Counted(heap, retired, {}, nextId) && root != NULL
      ensures Gains(old(Now()), Now(), k, v) && Swells(old(Now()), Now()) && Bumped(old(Now()), Now(), b)
      ensures NewEntry(old(heap), rest, v, e) && Took(old(heap), b, e, heap)
    {
      hide Shape, Counted, Stored, Swells, Took;
      ghost var s0 := Now();
      ghost var s1 := Extend(s0, n, Ord(TupleOf(rest)));
      sh := s1.sh;
      assert Now() == s1;
      NowReady(s0, s1, k, n, rest, b, i);
      StoredWidened(s0, s1);
      WidenTracks(s0, s1);
      e := InsertLv(b, rest, v);
      SwellsThen(s0, s1, Now());
    }

    method Overwrite(ghost n: NodeId, ghost rest: Key, b: NodeId, i: nat, ghost k: Key, w: Val) returns (was: Val)
      requires Shape(Now(), NULL, NULL) && Counted(heap, retired, {}, nextId)
      requires Located(Now(), k, n, rest, b, i) && i < |heap[b].entries|
      modifies this`heap
      ensures Shape(Now(), NULL, NULL) && Counted(heap, retired, {}, nextId)
      ensures forall l, v :: Stored(Now(), l, v) <==> if l == k then v == w else Stored(old(Now()), l, v)
      ensures old(heap)[b].entries[i].payload == Value(was) && Swells(old(Now()), Now())
      ensures Overwritten(old(Now()), b, i, w, Now())
    {
      hide Shape, Counted, Stored, SoleHolder, Swells;
      ghost var s0 := Now();
      ShapeTree(s0);
      EntrySound(s0, k, n, rest, b, i);
      EntryAlone(s0, k, n, rest, b, i);
      was := heap[b].entries[i].payload.val;
      heap := heap[b := heap[b].(entries := heap[b].entries[i := Entry(heap[b].entries[i].key, Value(w))])];
      OverwriteKeepsShape(s0, b, i, w, Now());
      OverwriteMeaning(s0, b, i, w, Now());
      OverwriteTracks(s0, b, i, w, Now());
      CountSame(s0.h, heap, retired, {}, nextId);
    }

    // ---- remove ----

    /** Deletes one key.  A border that becomes empty is unlinked, and its link or separator in the
        parent goes with it, upward until a node stays; only the top root border may stay empty. */
    method Remove(k: Key) returns (st: Status)
      requires Valid()
      modifies this
      ensures Valid() && old(retired) <= retired
      ensures Shrinks(old(Now()), Now()) && GravesKept(old(heap), heap, old(graves), graves)
      ensures k in old(content) ==> Leaves(old(Now()), k, Now(), old(retired), retired)
      ensures old(root) == NULL ==> st == OK_ROOT_IS_NULL && unchanged(this) && old(content) == map[]
      ensures old(root) != NULL && k !in old(content) ==> st == OK_NOT_FOUND && unchanged(this)
      ensures k in old(content) ==>
                && st == OK && content == old(content) - {k} && root != NULL
                && releasedVals == old(releasedVals) + Displaced(old(content), k)
                && freedAtOnce == old(freedAtOnce) && nextId == old(nextId) && nextVal == old(nextVal)
    {
      hide Shape, Agrees, Counted, ValuesCounted, Located, Stored, Treelike, Shrinks, Without, GravesFit, Leaves, GaveUp;
      ghost var s0 := Now();
      if root == NULL {
        NothingStored(s0, content);
        ShrinksSelf(s0);
        return OK_ROOT_IS_NULL;
      }
      ShapeTree(s0);
      var n, rest, b, i := Locate(k);
      if i == |heap[b].entries| {
        Absent(s0, content, k, n, rest, b, i);
        ShrinksSelf(s0);
        return OK_NOT_FOUND;
      }
      Present(s0, content, k, n, rest, b, i);
      EntryGoes(s0, k, n, rest, b, i);
      ReleaseOld(heap[b].entries[i].payload.val, false);
      DropEntry(b, i, NULL, {});
      LeavesNow(s0, k, Now(), old(retired), retired, n, rest, b, i);
      ContentLost(s0, Now(), content, k, b, i);
      ValueDropped(content, k, old(releasedVals), nextVal);
      content := content - {k};
      return OK;
    }

    /** Takes entry `i` out of border `b`: a value, or the link to the buried layer root `d`. */
    method DropEntry(b: NodeId, i: nat, ghost d: NodeId, ghost held: set<NodeId>)
      requires Shape(Now(), NULL, d) && Removable(Now(), b, i, d) && SoleHolder(Now(), b, i) && TopAlone(Now())
      requires Counted(heap, retired, held, nextId) && GravesFit(retired, graves) && root != NULL
      modifies this`heap, this`root, this`sh, this`retired, this`graves
      ensures Shape(Now(), NULL, NULL) && Without(old(Now()), b, i, Now()) && Shrinks(old(Now()), Now())
      ensures Counted(heap, retired, held, nextId) && GravesFit(retired, graves) && root != NULL
      ensures old(retired) <= retired && GravesKept(old(heap), heap, old(graves), graves)
      ensures GaveUp(old(Now()), b, i, Now(), old(retired), retired)
      decreases |Of(Now(), b).pfx|, 3
    {
      hide Shape, Counted, Stored, Without, Shrinks, GravesFit, SoleHolder, TopAlone, Orphaned, GravesKept;
      ghost var s0 := Now();
      if |heap[b].entries| > 1 {
        heap := heap[b := heap[b].(entries := RemoveAt(heap[b].entries, i))];
        TakeDone(s0, b, i, d, Now());
        CountSame(s0.h, heap, retired, held, nextId);
        GravesSame(s0.h, heap, graves);
      } else {
        DropLast(b, i, d, held);
      }
    }

    /** The only entry of border `b` goes. */
    method DropLast(b: NodeId, i: nat, ghost d: NodeId, ghost held: set<NodeId>)
      requires Shape(Now(), NULL, d) && Removable(Now(), b, i, d) && SoleHolder(Now(), b, i) && TopAlone(Now())
      requires |heap[b].entries| == 1
      requires Counted(heap, retired, held, nextId) && GravesFit(retired, graves) && root != NULL
      modifies this`heap, this`root, this`sh, this`retired, this`graves
      ensures Shape(Now(), NULL, NULL) && Without(old(Now()), b, i, Now()) && Shrinks(old(Now()), Now())
      ensures Counted(heap, retired, held, nextId) && GravesFit(retired, graves) && root != NULL
      ensures old(retired) <= retired && GravesKept(old(heap), heap, old(graves), graves)
      ensures GaveUp(old(Now()), b, i, Now(), old(retired), retired)
      decreases |Of(Now(), b).pfx|, 2
    {
      hide Shape, Counted, Stored, Without, Shrinks, GravesFit, SoleHolder, TopAlone, Orphaned, GravesKept, Unlinked;
      hide CountsKept, GaveUp, Emptied;
      ghost var s0 := Now();
      ChainFacts(s0, d, b);
      Unlink(b);
      ghost var h1 := heap;
      if heap[b].parent == NULL {
        heap := heap[b := heap[b].(entries := [], ver := heap[b].ver.(deleted := true))];
        EmptyDone(s0, b, i, d, h1, Now());
        GaveUpTop(s0, b, i, Now(), retired);
        CountSame(s0.h, heap, retired, held, nextId);
        GravesSame(s0.h, heap, graves);
      } else {
        var p := heap[b].parent;
        graves := graves[b := Grave(heap[b])];
        heap := heap - {b};
        sh := sh - {b};
        ghost var s1, g1 := Now(), graves;
        BuryDone(s0, b, i, d, h1, s1);
        CountTake(s0.h, heap, retired, held, nextId, b);
        GravesAdd(retired, old(graves), b, graves);
        DropFromParent(p, b, held + {b});
        BorderGone(s0, b, i, s1, Now(), old(graves), g1, graves, old(retired), retired, held, nextId);
        retired := retired + [b];
      }
    }

    /** The parent gives up its pointer to the buried border `d`. */
    method DropFromParent(p: NodeId, d: NodeId, ghost held: set<NodeId>)
      requires Shape(Now(), NULL, d) && Orphaned(Now(), d, p) && TopAlone(Now())
      requires Counted(heap, retired, held, nextId) && GravesFit(retired, graves) && root != NULL
      modifies this`heap, this`root, this`sh, this`retired, this`graves
      ensures Shape(Now(), NULL, NULL) && Shrinks(old(Now()), Now())
      ensures forall k, v :: Stored(Now(), k, v) <==> Stored(old(Now()), k, v)
      ensures Counted(heap, retired, held, nextId) && GravesFit(retired, graves) && root != NULL
      ensures old(retired) <= retired && GravesKept(old(heap), heap, old(graves), graves)
      decreases if heap[p].Border? then |Of(Now(), p).pfx| else 0, if heap[p].Border? then 4 else 1
    {
      hide Shape, Counted, Stored, Without, Shrinks, GravesFit, SoleHolder, TopAlone, GravesKept;
      ghost var s1 := Now();
      if heap[p].Border? {
        var j := IndexOfLink(heap[p].entries, d);
        LinkGoes(s1, p, j, d);
        DropEntry(p, j, d, held);
        LinkGone(s1, p, j, Now());
      } else {
        DropChild(p, d, held);
      }
    }

    /** Takes `b` out of the leaf chain. */
    method Unlink(b: NodeId)
      requires b in heap && heap[b].Border? && NULL !in heap && heap[b].prev != b && heap[b].next != b
      requires heap[b].prev != NULL ==> heap[b].prev in heap && heap[heap[b].prev].Border?
      requires heap[b].next != NULL ==> heap[b].next in heap && heap[heap[b].next].Border?
      modifies this`heap
      ensures heap.Keys == old(heap).Keys && heap[b] == old(heap)[b]
      ensures forall m <- heap :: m != b ==> heap[m] == Unlinked(old(heap)[m], m, old(heap)[b].prev, old(heap)[b].next)
    {
      var p, q := heap[b].prev, heap[b].next;
      if p != NULL {
        heap := heap[p := heap[p].(next := q)];
        if q != NULL {
          heap := heap[q := heap[q].(prev := p)];
        }
      } else if q != NULL {
        heap := heap[q := heap[q].(prev := NULL)];
      }
    }

    /** Takes the buried child `d` out of interior node `p`. */
    method DropChild(p: NodeId, d: NodeId, ghost held: set<NodeId>)
      requires Shape(Now(), NULL, d) && Orphaned(Now(), d, p) && heap[p].Interior?
      requires Counted(heap, retired, held, nextId) && GravesFit(retired, graves) && root != NULL
      modifies this`heap, this`root, this`sh, this`retired, this`graves
      ensures Shape(Now(), NULL, NULL) && Shrinks(old(Now()), Now())
      ensures forall k, v :: Stored(Now(), k, v) <==> Stored(old(Now()), k, v)
      ensures Counted(heap, retired, held, nextId) && GravesFit(retired, graves) && root != NULL
      ensures old(retired) <= retired && GravesKept(old(heap), heap, old(graves), graves)
    {
      hide Shape, Counted, Stored, Shrinks, GravesFit, GravesKept;
      ghost var s0 := Now();
      RowFacts(s0, d, p);
      var i := IndexOf(heap[p].children, d);
      if |heap[p].keys| == 1 {
        Collapse(p, heap[p].children[1 - i], d, held);
      } else {
        heap := heap[p := heap[p].(keys := DropKey(heap[p].keys, i), children := RemoveAt(heap[p].children, i),
                                   ver := heap[p].ver.(vins := heap[p].ver.vins + 1))];
        DropDone(s0, d, p, i, Now());
        CountSame(s0.h, heap, retired, held, nextId);
        GravesSame(s0.h, heap, graves);
      }
    }

    /** The sibling takes the place of `p`, which is left with one child. */
    method Collapse(p: NodeId, sib: NodeId, ghost d: NodeId, ghost held: set<NodeId>)
      requires Shape(Now(), NULL, d) && Orphaned(Now(), d, p) && heap[p].Interior? && |heap[p].keys| == 1
      requires sib in heap[p].children && sib != d
      requires Counted(heap, retired, held, nextId) && GravesFit(retired, graves) && root != NULL
      modifies this`heap, this`root, this`sh, this`retired, this`graves
      ensures Shape(Now(), NULL, NULL) && Shrinks(old(Now()), Now())
      ensures forall k, v :: Stored(Now(), k, v) <==> Stored(old(Now()), k, v)
      ensures Counted(heap, retired, held, nextId) && GravesFit(retired, graves) && root != NULL
      ensures old(retired) <= retired && GravesKept(old(heap), heap, old(graves), graves)
    {
      hide Shape, Counted, Stored, Shrinks, GravesFit, GravesKept, Orphaned;
      ghost var s0 := Now();
      OneChildFacts(s0, d, p, sib);
      var was := heap[p];
      Promote(p, sib);
      CollapseDone(s0, d, p, sib, Now());
      graves := graves[p := Grave(was)];
      GravesSame(heap, heap, graves);
      CountsStay(s0, p, sib, Now());
      CountTake(s0.h, heap, retired, held, nextId, p);
      CountPush(heap, retired, held, nextId, p);
      GravesAdd(retired, old(graves), p, graves);
      GravesPush(s0.h, heap, heap, p, old(graves), graves, graves, retired);
      retired := retired + [p];
    }

    /** `sib` goes up to where `p` was: to the root pointer, a link or a child slot. */
    method Promote(p: NodeId, sib: NodeId)
      requires p in heap && sib in heap && p != sib && sh.Keys == heap.Keys && NULL !in heap
      requires var gp := heap[p].parent; gp != p && gp != sib && (gp != NULL ==> gp in heap)
      modifies this`heap, this`root, this`sh
      ensures Collapsed(old(Now()), p, sib, Now())
    {
      var gp := heap[p].parent;
      var top := gp == NULL || heap[gp].Border?;
      heap := heap[sib := heap[sib].(parent := gp, ver := heap[sib].ver.(root := top))];
      if gp == NULL {
        root := sib;
      } else if heap[gp].Border? {
        heap := heap[gp := heap[gp].(entries := Relink(heap[gp].entries, p, sib))];
      } else {
        heap := heap[gp := heap[gp].(children := Swap(heap[gp].children, p, sib))];
      }
      heap := heap - {p};
      sh := sh - {p};
    }

    // ---- creating values and layers ----

    method CreateValue(data: Data, inline: bool) returns (v: Val)
      modifies this`nextVal
      ensures v.data == data && v.Inline? == inline
      ensures inline ==> nextVal == old(nextVal)
      ensures !inline ==> v.id == old(nextVal) && nextVal == old(nextVal) + 1
    {
      if inline {
        v := Inline(data);
      } else {
        v := Boxed(nextVal, data);
        nextVal := nextVal + 1;
      }
    }

    /** A border holding the one key `rest`, and below it one border per further slice. */
    method CreateLayer(ghost pfx: Key, rest: Key, v: Val, ghost held: set<NodeId>) returns (r: NodeId)
      requires Shape(Now(), NULL, NULL) && Vacant(Now(), pfx) && |pfx| % SLICE == 0 && (pfx != [] ==> rest != [])
      requires Counted(heap, retired, held, nextId)
      modifies this`heap, this`nextId, this`sh
      ensures r !in old(heap) && Shape(Now(), r, NULL) && NewLayer(Now(), r, pfx)
      ensures Grown(old(Now()), Now(), pfx) && Gains(old(Now()), Now(), pfx + rest, v)
      ensures Counted(heap, retired, held, nextId)
      decreases |rest|
    {
      hide Shape, Counted, Stored, Vacant, Gains;
      ghost var s0 := Now();
      r := nextId;
      nextId := nextId + 1;
      CountNew(heap, retired, held, r);
      var t := TupleOf(rest);
      var e := Entry(t, Value(v));
      ghost var x := NULL;
      if |rest| > SLICE {
        VacantBelow(s0, pfx, t.slice);
        var to := CreateLayer(pfx + t.slice, rest[SLICE..], v, held + {r});
        e := Entry(t, Link(to));
        x := to;
      }
      ghost var s1 := Now();
      NotYetPlaced(s1, x, retired, held, nextId, r);
      PlantBorder(r, pfx, e);
      CountPlace(s1.h, heap, retired, held, nextId, r);
      LayerStep(s0, s1, Now(), r, pfx, rest, e, x, v);
    }

    /** A new border `r` with one entry; the target of a link names it as parent. */
    method PlantBorder(r: NodeId, ghost pfx: Key, e: Entry)
      requires r != NULL && r !in heap && r != root && sh.Keys == heap.Keys
      requires e.payload.Link? ==> e.payload.to in heap
      modifies this`heap, this`sh
      ensures Planted(old(Now()), r, pfx, e, Now())
    {
      if e.payload.Link? {
        heap := heap[e.payload.to := heap[e.payload.to].(parent := r)];
      }
      heap := heap[r := Sprout(e)];
      sh := sh[r := Info(pfx, Ord(e.key), Ord(e.key), 0)];
    }

    // ---- inserting ----

    /** The entry for `rest` in border `b`: a value, or a link to a new layer. */
    method MakeEntry(b: NodeId, rest: Key, v: Val, ghost held: set<NodeId>) returns (e: Entry, ghost x: NodeId)
      requires Shape(Now(), NULL, NULL) && Ready(Now(), b, rest) && Counted(heap, retired, held, nextId)
      modifies this`heap, this`nextId, this`sh
      ensures Shape(Now(), x, NULL) && Fits(Now(), b, e, x) && Counted(heap, retired, held, nextId)
      ensures root == old(root) && x != root && x != b && b in old(heap) && heap[b] == old(heap)[b]
      ensures Of(Now(), b) == Of(old(Now()), b)
      ensures Owed(old(Now()), Now(), b, e, Of(old(Now()), b).pfx + rest, v)
      ensures Swells(old(Now()), Now())
      ensures NewEntry(old(heap), rest, v, e) && NULL !in heap && forall n <- old(heap) :: n in heap && heap[n] == old(heap)[n]
    {
      hide Shape, Counted;
      ghost var s0 := Now();
      var t := TupleOf(rest);
      if |rest| > SLICE {
        ShapeDomain(s0);
        LayerRoom(s0, b, rest);
        var to := CreateLayer(Of(s0, b).pfx + t.slice, rest[SLICE..], v, held);
        ghost var s1 := Now();
        heap := heap[to := Under(heap[to], b)];
        e, x := Entry(t, Link(to)), to;
        LinkReady(s0, s1, Now(), b, rest, to, v);
        CountSame(s1.h, heap, retired, held, nextId);
      } else {
        e, x := Entry(t, Value(v)), NULL;
        RootThere(s0, b);
        ValueReady(s0, b, rest, v);
      }
      NoNull(Now(), x);
    }

    method InsertLv(b: NodeId, rest: Key, v: Val) returns (ghost e: Entry)
      requires Shape(Now(), NULL, NULL) && Ready(Now(), b, rest) && Counted(heap, retired, {}, nextId)
      modifies this`heap, this`root, this`nextId, this`sh
      ensures Shape(Now(), NULL, NULL) && Counted(heap, retired, {}, nextId) && root != NULL
      ensures Gains(old(Now()), Now(), Of(old(Now()), b).pfx + rest, v)
      ensures Swells(old(Now()), Now()) && Bumped(old(Now()), Now(), b)
      ensures NewEntry(old(heap), rest, v, e) && Took(old(heap), b, e, heap)
    {
      hide Shape, Counted, Stored, Swells, Took;
      ghost var s0 := Now();
      var e', x := MakeEntry(b, rest, v, {});
      e := e';
      ghost var s1 := Now();
      if |heap[b].entries| == FANOUT {
        BorderSplit(b, e', x);
      } else {
        EnterOne(b, e', x);
      }
      Settle(s0, s1, Now(), b, e, Of(s0, b).pfx + rest, v);
      SwellsThen(s0, s1, Now());
      TookLater(s0, s1.h, b, e, heap);
    }

    /** There is room in the border. */
    method EnterOne(b: NodeId, e: Entry, ghost x: NodeId)
      requires Shape(Now(), x, NULL) && Fits(Now(), b, e, x) && |heap[b].entries| != FANOUT
      requires Counted(heap, retired, {}, nextId)
      modifies this`heap
      ensures Shape(Now(), NULL, NULL) && Counted(heap, retired, {}, nextId) && root != NULL
      ensures Swells(old(Now()), Now()) && Bumped(old(Now()), Now(), b) && Took(old(heap), b, e, heap)
      ensures forall k, w :: Stored(Now(), k, w) <==>
                             Stored(old(Now()), k, w) || EntryHolds(Of(old(Now()), b).pfx, e, k, w)
    {
      hide Shape, Counted, Stored, Swells, Took;
      ghost var s0 := Now();
      HasRoom(s0, x, b);
      heap := heap[b := Entered(heap[b], Rank(heap[b].entries, Ord(e.key)), e)];
      InsertKeepsShape(s0, b, e, x, Now());
      InsertTook(s0, b, e, x, Now());
      InsertMeaning(s0, b, e, Now());
      InsertTracks(s0, b, e, Now());
      CountSame(s0.h, heap, retired, {}, nextId);
      RootThere(Now(), b);
    }

    /** The moved links name the new border as parent. */
    method Reparent(es: seq<Entry>, y: NodeId)
      requires forall m :: HasLink(es, m) ==> m in heap
      modifies this`heap
      ensures heap.Keys == old(heap).Keys
      ensures forall m <- heap :: heap[m] == if HasLink(es, m) then Under(old(heap)[m], y) else old(heap)[m]
    {
      for i := 0 to |es|
        invariant heap.Keys == old(heap).Keys
        invariant forall m <- heap ::
                    heap[m] == if HasLink(es[..i], m) then Under(old(heap)[m], y) else old(heap)[m]
      {
        LinkPrefixStep(es, i);
        if es[i].payload.Link? {
          assert HasLink(es, es[i].payload.to);
          heap := heap[es[i].payload.to := Under(heap[es[i].payload.to], y)];
        }
      }
      assert es[..|es|] == es;
    }

    method FillHalves(b: NodeId, y: NodeId, low: seq<Entry>, high: seq<Entry>)
      requires b in heap && heap[b].Border? && y != NULL && NULL !in heap && y !in heap && high != [] && sh.Keys == heap.Keys
      requires forall m :: HasLink(high, m) ==> m in heap && m != b
      requires var q := heap[b].next; q != NULL ==> q in heap && heap[q].Border? && q != b
      modifies this`heap, this`sh
      ensures LeafSplit(old(Now()), b, y, low, high, Now())
    {
      hide HasLink, LeafSplit;
      ghost var s0 := Now();
      var n := heap[b];
      var ver := n.ver.(vins := n.ver.vins + 1, vsplit := n.ver.vsplit + 1);
      if n.next != NULL {
        heap := heap[n.next := heap[n.next].(prev := y)];
      }
      ghost var h1 := heap;
      Reparent(high, y);
      ghost var h2 := heap;
      heap := heap[b := Border(n.parent, ver, low, n.prev, y)][y := Border(NULL, ver.(root := false), high, b, n.next)];
      sh := sh[b := sh[b].(hi := Ord(high[0].key) - 1)]
              [y := Info(sh[b].pfx, Ord(high[0].key), sh[b].hi, sh[b].ht)];
      HalvesFilled(s0, b, y, low, high, h1, h2, Now());
    }

    method BorderSplit(b: NodeId, e: Entry, ghost x: NodeId)
      requires Shape(Now(), x, NULL) && Fits(Now(), b, e, x) && |heap[b].entries| == FANOUT && x != b && x != root
      requires Counted(heap, retired, {}, nextId)
      modifies this`heap, this`root, this`nextId, this`sh
      ensures Shape(Now(), NULL, NULL) && Counted(heap, retired, {}, nextId) && root != NULL
      ensures forall k, w :: Stored(Now(), k, w) <==>
                             Stored(old(Now()), k, w) || EntryHolds(Of(old(Now()), b).pfx, e, k, w)
      ensures Swells(old(Now()), Now()) && Bumped(old(Now()), Now(), b) && Took(old(heap), b, e, heap)
    {
      hide Shape, Counted, Stored, Fits, Pending, GoodHalves, Swells, Took, Attached;
      ghost var s0 := Now();
      FullBorder(s0, b, e, x);
      var y := nextId;
      nextId := nextId + 1;
      CountNew(heap, retired, {}, y);
      var (low, high) := SplitEntries(heap[b].entries, Rank(heap[b].entries, Ord(e.key)), e);
      SplitReady(s0, b, e, x, low, high);
      FillHalves(b, y, low, high);
      SplitDone(s0, b, e, x, y, low, high, Now());
      CountPlace(s0.h, heap, retired, {}, nextId, y);
      ghost var s1 := Now();
      ghost var bound := Bound(s1);
      AttachRight(b, y, high[0].key, bound);
      BumpedOn(s0, s1, Now(), b);
      SplitTook(s0, b, e, x, y, low, high, s1, heap);
    }

    // ---- propagating a split upward ----

    /** Admits `x` right of `left` in the parent of `left`, splitting ancestors as needed. */
    method AttachRight(left: NodeId, x: NodeId, sep: KeyTuple, ghost bound: nat)
      requires Shape(Now(), x, NULL) && Pending(Now(), left, x, sep) && Below(Now(), bound)
      requires heap[left].Border? ==> heap[left].entries != []
      requires Counted(heap, retired, {}, nextId)
      modifies this`heap, this`root, this`nextId, this`sh
      ensures Shape(Now(), NULL, NULL) && Counted(heap, retired, {}, nextId) && root != NULL
      ensures forall k, w :: Stored(Now(), k, w) <==> Stored(old(Now()), k, w)
      ensures Swells(old(Now()), Now()) && Attached(old(heap), left, heap)
      decreases bound - Of(Now(), left).ht
    {
      hide Shape, Counted, Stored, Swells, Attached, InnerSplit, SplitInterior;
      ghost var s0 := Now();
      LeftParent(s0, left, x, sep);
      var p := heap[left].parent;
      if p == NULL || heap[p].Border? {
        CreateInteriorParent(left, x, sep);
      } else if |heap[p].keys| == FANOUT {
        ParentRow(s0, left, x, sep, p);
        var y, pivot, hv := InteriorSplit(left, x, sep, p);
        ghost var s1 := Now();
        AttachRight(p, y, pivot, bound);
        SwellsThen(s0, s1, Now());
        KidsLower(s0, left, x, sep, p, hv);
        SplitSizes(s0, left, x, sep, p, hv);
        SplitAttaches(s0, left, x, p, y, hv, s1, heap);
      } else {
        AdoptChild(left, x, sep, p);
      }
    }

    /** There is room in the parent. */
    method AdoptChild(left: NodeId, x: NodeId, sep: KeyTuple, p: NodeId)
      requires Shape(Now(), x, NULL) && Pending(Now(), left, x, sep)
      requires p in heap && heap[p].Interior? && heap[left].parent == p && |heap[p].keys| != FANOUT
      requires Counted(heap, retired, {}, nextId)
      modifies this`heap
      ensures Shape(Now(), NULL, NULL) && Counted(heap, retired, {}, nextId) && root != NULL
      ensures forall k, w :: Stored(Now(), k, w) <==> Stored(old(Now()), k, w)
      ensures Swells(old(Now()), Now()) && Attached(old(heap), left, heap)
    {
      hide Shape, Counted, Stored, Swells, Attached;
      ghost var s0 := Now();
      ParentRow(s0, left, x, sep, p);
      var i := ChildIndex(heap[p].keys, Ord(sep));
      heap := heap[x := Under(heap[x], p)]
                  [p := heap[p].(keys := InsertAt(heap[p].keys, i, sep), children := InsertAt(heap[p].children, i + 1, x),
                                 ver := heap[p].ver.(vins := heap[p].ver.vins + 1))];
      AdoptKeepsShape(s0, left, x, sep, p, Now());
      AdoptMeaning(s0, left, x, sep, p, Now());
      AdoptTracks(s0, left, x, sep, p, Now());
      AdoptAttaches(s0, left, x, sep, p, Now());
      SameStored(s0, Now());
      CountSame(s0.h, heap, retired, {}, nextId);
      RootThere(Now(), left);
    }

    /** A new interior node over `left` and `x` takes the place of `left`. */
    method CreateInteriorParent(left: NodeId, x: NodeId, sep: KeyTuple)
      requires Shape(Now(), x, NULL) && Pending(Now(), left, x, sep)
      requires heap[left].Border? ==> heap[left].entries != []
      requires heap[left].parent == NULL || (heap[left].parent in heap && heap[heap[left].parent].Border?)
      requires Counted(heap, retired, {}, nextId)
      modifies this`heap, this`root, this`nextId, this`sh
      ensures Shape(Now(), NULL, NULL) && Counted(heap, retired, {}, nextId) && root != NULL
      ensures forall k, w :: Stored(Now(), k, w) <==> Stored(old(Now()), k, w)
      ensures Swells(old(Now()), Now()) && Attached(old(heap), left, heap)
    {
      hide Shape, Counted, Stored, Swells, Attached;
      ghost var s0 := Now();
      LeftParent(s0, left, x, sep);
      var t := nextId;
      nextId := nextId + 1;
      CountNew(heap, retired, {}, t);
      Crown(left, x, sep, t);
      CrownKeepsShape(s0, left, x, sep, t, Now());
      CrownMeaning(s0, left, x, sep, t, Now());
      CrownTracks(s0, left, x, sep, t, Now());
      CrownAttaches(s0, left, x, sep, t, Now());
      SameStored(s0, Now());
      CountPlace(s0.h, heap, retired, {}, nextId, t);
      RootThere(Now(), t);
    }

    method Crown(left: NodeId, x: NodeId, sep: KeyTuple, t: NodeId)
      requires left in heap && x in heap && left != x && t != NULL && t !in heap && sh.Keys == heap.Keys
      requires heap[left].parent == NULL || (heap[left].parent in heap && heap[heap[left].parent].Border?)
      requires heap[left].parent != left && heap[left].parent != x && NULL !in heap
      modifies this`heap, this`root, this`sh
      ensures Crowned(old(Now()), left, x, sep, t, Now())
    {
      var p := heap[left].parent;
      heap := heap[left := heap[left].(parent := t, ver := heap[left].ver.(root := false))]
                  [x := heap[x].(parent := t, ver := heap[x].ver.(root := false))]
                  [t := Interior(p, Version(1, 0, false, true), [sep], [left, x])];
      sh := sh[t := Info(sh[left].pfx, sh[left].lo, sh[x].hi, sh[left].ht + 1)];
      if p == NULL {
        root := t;
      } else {
        heap := heap[p := heap[p].(entries := Relink(heap[p].entries, left, t),
                                   ver := heap[p].ver.(vins := heap[p].ver.vins + 1))];
      }
    }

    /** Children moved to the right half name it as parent. */
    method ReparentKids(cs: seq<NodeId>, y: NodeId)
      requires forall m <- cs :: m in heap
      modifies this`heap
      ensures heap.Keys == old(heap).Keys
      ensures forall m <- heap :: heap[m] == if m in cs then Under(old(heap)[m], y) else old(heap)[m]
    {
      for i := 0 to |cs|
        invariant heap.Keys == old(heap).Keys
        invariant forall m <- heap :: heap[m] == if m in cs[..i] then Under(old(heap)[m], y) else old(heap)[m]
      {
        assert cs[i] in cs;
        assert cs[..i + 1] == cs[..i] + [cs[i]];
        heap := heap[cs[i] := Under(heap[cs[i]], y)];
      }
      assert cs[..|cs|] == cs;
    }

    /** Splits the full parent `p` and enters `x` in one half; the new right half waits for its own
        parent. */
    method InteriorSplit(left: NodeId, x: NodeId, sep: KeyTuple, p: NodeId) returns (y: NodeId, pivot: KeyTuple, ghost hv: Contents.Halves)
      requires Shape(Now(), x, NULL) && Pending(Now(), left, x, sep)
      requires p in heap && heap[p].Interior? && heap[left].parent == p && |heap[p].keys| == FANOUT
      requires Counted(heap, retired, {}, nextId)
      modifies this`heap, this`nextId, this`sh
      ensures Shape(Now(), y, NULL) && Pending(Now(), p, y, pivot) && Counted(heap, retired, {}, nextId)
      ensures p in old(heap) && heap[p].Interior? && Of(Now(), p).ht == Of(old(Now()), p).ht
      ensures forall b: nat :: Below(old(Now()), b) ==> Below(Now(), b)
      ensures forall k, w :: Stored(Now(), k, w) <==> Stored(old(Now()), k, w)
      ensures Swells(old(Now()), Now())
      ensures KeysSorted(old(heap)[p].keys) && |old(heap)[p].children| == FANOUT + 1 && x in old(heap)
      ensures hv == SplitInterior(old(heap)[p].keys, old(heap)[p].children, sep, x) && InnerSplit(old(Now()), p, x, y, hv, Now())
    {
      hide Shape, Counted, Stored, Pending, Swells;
      ghost var s0 := Now();
      FullRow(s0, left, x, sep, p);
      y := nextId;
      nextId := nextId + 1;
      CountNew(heap, retired, {}, y);
      var halves := SplitInterior(heap[p].keys, heap[p].children, sep, x);
      hv := halves;
      pivot := halves.pivot;
      RowReady(s0, left, x, sep, p, hv);
      SpreadHalves(p, x, y, halves);
      RowDone(s0, left, x, sep, p, y, hv, Now());
      CountPlace(s0.h, heap, retired, {}, nextId, y);
    }

    method SpreadHalves(p: NodeId, x: NodeId, y: NodeId, hv: Halves)
      requires p in heap && heap[p].Interior? && x in heap && y != NULL && y !in heap && p != x && sh.Keys == heap.Keys
      requires !heap[p].ver.deleted && forall m <- hv.rightKids :: m in heap && m != p
      modifies this`heap, this`sh
      ensures InnerSplit(old(Now()), p, x, y, hv, Now())
    {
      hide InnerSplit;
      ghost var s0 := Now();
      var n := heap[p];
      var took := x in hv.leftKids;
      heap := heap[x := Under(heap[x], p)];
      ReparentKids(hv.rightKids, y);
      ghost var h2 := heap;
      heap := heap[p := Interior(n.parent, HalfVersion(n.ver, took), hv.leftKeys, hv.leftKids)]
                  [y := Interior(NULL, HalfVersion(n.ver, !took).(root := false), hv.rightKeys, hv.rightKids)];
      sh := sh[p := sh[p].(hi := Ord(hv.pivot) - 1)]
              [y := Info(sh[p].pfx, Ord(hv.pivot), sh[p].hi, sh[p].ht)];
      HalvesSpread(s0, p, x, y, hv, h2, Now());
    }
  }
}
