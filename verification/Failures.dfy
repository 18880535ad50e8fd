/** Inputs on which the code does less than its documentation says: a tree of two borders, scanned with
    an `INF` left end and a left key that leads to the second one, and a put that frees a value at once. */
module Failures {
  import opened Keys
  import opened Contents
  import opened Store
  import opened Routing
  import opened TreeFacts
  import opened Trees
  import opened Runs
  import opened Interval
  import opened ScanFacts
  import opened Scans

  const NEAR: Key := [1]

  const FAR: Key := [9]

  const EMPTY: Val := Inline([])

  const ROOT: NodeId := 1

  const LEFT: NodeId := 2

  const RIGHT: NodeId := 3

  function Leaf(k: Key, prev: NodeId, next: NodeId): Node {
    Border(ROOT, Version(1, 1, false, false), [Entry(TupleOf(k), Value(EMPTY))], prev, next)
  }

  function TwoBorders(): Heap {
    map[ROOT := Interior(NULL, Version(1, 0, false, true), [TupleOf(FAR)], [LEFT, RIGHT]),
        LEFT := Leaf(NEAR, NULL, RIGHT), RIGHT := Leaf(FAR, LEFT, NULL)]
  }

  ghost function Ranges(): map<NodeId, Info> {
    var a, c := Ord(TupleOf(NEAR)), Ord(TupleOf(FAR));
    map[ROOT := Info([], a, c, 1), LEFT := Info([], a, a, 0), RIGHT := Info([], c, c, 0)]
  }

  ghost function Example(): Snap {
    Snap(TwoBorders(), ROOT, Ranges())
  }

  function Both(): Content {
    map[NEAR := EMPTY, FAR := EMPTY]
  }

  lemma NearFirst()
    ensures Ord(TupleOf(NEAR)) < Ord(TupleOf(FAR))
    ensures TupleBytes(TupleOf(NEAR)) == NEAR && TupleBytes(TupleOf(FAR)) == FAR
  {
    assert KeyLess(NEAR, FAR);
    TupleOrderIsKeyOrder(NEAR, FAR);
    TupleRoundTrip(NEAR);
    TupleRoundTrip(FAR);
  }

  lemma ExampleInteriors()
    ensures Domain(Example()) && Interiors(Example(), NULL)
  {
    hide Ord, TupleOf;
    NearFirst();
    var s := Example();
    assert KidAt(s, ROOT, 0, LEFT) && KidAt(s, ROOT, 1, RIGHT);
    assert InteriorAt(s, NULL, ROOT);
  }

  lemma ExampleBorders()
    ensures Borders(Example(), NULL)
  {
    hide Ord, TupleOf;
    var s := Example();
    assert BorderAt(s, NULL, LEFT) && BorderAt(s, NULL, RIGHT);
  }

  lemma ExampleLinks()
    ensures Parents(Example(), NULL) && Chains(Example())
  {
    hide Ord, TupleOf;
    NearFirst();
    var s := Example();
    assert ChainAt(s, LEFT) && ChainAt(s, RIGHT);
  }

  lemma ExampleShape()
    ensures Shape(Example(), NULL, NULL)
  {
    ExampleInteriors();
    ExampleBorders();
    ExampleLinks();
  }

  lemma ExampleAgrees()
    ensures Agrees(Example(), Both())
  {
    hide Ord, TupleOf;
    NearFirst();
    var s := Example();
    forall k, v
      ensures Stored(s, k, v) <==> k in Both() && Both()[k] == v
    {
      assert NodeHolds(s, LEFT, k, v) <==> k == NEAR && v == EMPTY by {
        assert s.h[LEFT].entries[0] in s.h[LEFT].entries;
      }
      assert NodeHolds(s, RIGHT, k, v) <==> k == FAR && v == EMPTY by {
        assert s.h[RIGHT].entries[0] in s.h[RIGHT].entries;
      }
    }
  }

  lemma ExampleCounted()
    ensures Counted(TwoBorders(), [], {}, 4) && ValuesCounted(Both(), [], 0)
  {
    hide Ord, TupleOf;
  }

  lemma FarPlace()
    ensures Clamp(SliceOf(FAR), |FAR| % 256) == TupleOf(FAR)
  {
    ClampCanonical(TupleOf(FAR));
  }

  /** The start border of the scan has a left neighbour, and the right end admits every key. */
  lemma ExampleHarmful()
    ensures !StartHarmless(Example(), Both(), FAR, INF, [], INF)
  {
    hide Ord, TupleOf, SliceOf, Clamp;
    NearFirst();
    FarPlace();
    var s := Example();
    assert ChildIndex([TupleOf(FAR)], Ord(TupleOf(FAR))) == 1;
    assert Route(s, ROOT, Ord(TupleOf(FAR))) == RIGHT;
    assert ToRight(NEAR, [], INF) && NEAR in Both();
  }

  /** The scan of that tree: both keys lie in the interval, and they are not both delivered. */
  method ScanMisses() returns (t: Tree, ts: Tuples)
    ensures fresh(t) && t.Valid() && t.Now() == Example() && t.content == Both()
    ensures !IsFilter(t.content, FAR, INF, [], INF, ts)
    ensures InInterval(NEAR, FAR, INF, [], INF) && InInterval(FAR, FAR, INF, [], INF)
  {
    t := MakeExample();
    hide Shape, Agrees, Counted, ValuesCounted, IsFilter, StartHarmless, Ord, TupleOf, TwoBorders, Ranges, Both, Flat;
    ExampleHarmful();
    assert t.Now().root == ROOT;
    var st, vs;
    st, ts, vs := Scan(t, FAR, INF, [], INF, 0, [], []);
  }

  method MakeExample() returns (t: Tree)
    ensures fresh(t) && t.Valid() && t.Now() == Example() && t.content == Both()
  {
    hide Shape, Agrees, Counted, ValuesCounted, Ord, TupleOf, TwoBorders, Ranges, Both;
    t := new Tree();
    t.heap, t.root, t.nextId := TwoBorders(), ROOT, 4;
    t.retired, t.graves, t.nextVal, t.releasedVals := [], map[], 0, [];
    t.sh, t.content := Ranges(), Both();
    ExampleShape();
    ExampleAgrees();
    ExampleCounted();
    assert t.Now() == Example();
  }

  /** A put that frees a value at once: an allocated value is displaced by one kept in the slot. */
  lemma FreedExample()
    ensures FreedBy(map[FAR := Boxed(0, [])], DoPut(FAR, [], true, false)) == {0}
  {
    var m: Content := map[FAR := Boxed(0, [])];
    assert Displaced(m, FAR) == [0];
  }
}
