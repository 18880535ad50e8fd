/** The node graph of one tree and its shape invariant.

    Nodes are records in a map keyed by node identity; parent, child, layer and leaf-chain pointers
    are identities, so sharing and in-place update are those of the source.  Beside the real fields a
    ghost `Info` per node records its layer prefix, a range that holds every key stored below it, and
    its height.  The invariant is a conjunction of facts about one node and its neighbours. */
module Store {
  import opened Keys
  import opened Contents

  /** The fields of a version word that are read at rest; counters are unbounded here and compared
      modulo 2^29 (see `Phantom.SameWord`). */
  datatype Version = Version(vins: nat, vsplit: nat, deleted: bool, root: bool)

  datatype Node =
    | Border(parent: NodeId, ver: Version, entries: seq<Entry>, prev: NodeId, next: NodeId)
    | Interior(parent: NodeId, ver: Version, keys: seq<KeyTuple>, children: seq<NodeId>)

  datatype Info = Info(pfx: Key, lo: int, hi: int, ht: nat)

  function Under(n: Node, p: NodeId): Node {
    n.(parent := p)
  }

  type Heap = map<NodeId, Node>

  /** A heap with its root and its ghost annotation. */
  datatype Snap = Snap(h: Heap, root: NodeId, sh: map<NodeId, Info>)

  ghost function Of(s: Snap, n: NodeId): Info {
    if n in s.sh then s.sh[n] else Info([], 0, 0, 0)
  }

  predicate HasLink(es: seq<Entry>, n: NodeId) {
    exists i :: 0 <= i < |es| && es[i].payload == Link(n)
  }

  predicate LinksApart(es: seq<Entry>) {
    forall i, j :: 0 <= i < j < |es| && es[i].payload.Link? ==> es[i].payload != es[j].payload
  }

  lemma InsertLink(es: seq<Entry>, r: nat, e: Entry, n: NodeId)
    requires r <= |es|
    ensures HasLink(InsertAt(es, r, e), n) <==> HasLink(es, n) || e.payload == Link(n)
  {
    var es' := InsertAt(es, r, e);
    assert es'[r] == e;
    if HasLink(es, n) {
      var i :| 0 <= i < |es| && es[i].payload == Link(n);
      assert es'[if i < r then i else i + 1] == es[i];
    }
    if HasLink(es', n) && e.payload != Link(n) {
      var i :| 0 <= i < |es'| && es'[i].payload == Link(n);
      assert es[if i < r then i else i - 1] == es'[i];
    }
  }

  lemma InsertApart(es: seq<Entry>, r: nat, e: Entry)
    requires r <= |es| && LinksApart(es)
    requires e.payload.Link? ==> !HasLink(es, e.payload.to)
    ensures LinksApart(InsertAt(es, r, e))
  {
    var es' := InsertAt(es, r, e);
    forall i, j | 0 <= i < j < |es'| && es'[i].payload.Link?
      ensures es'[i].payload != es'[j].payload
    {
      assert es'[i] == if i < r then es[i] else if i == r then e else es[i - 1];
      assert es'[j] == if j < r then es[j] else if j == r then e else es[j - 1];
    }
  }

  lemma ConcatLinks(a: seq<Entry>, b: seq<Entry>)
    requires LinksApart(a + b)
    ensures LinksApart(a) && LinksApart(b)
    ensures forall n :: HasLink(a + b, n) <==> HasLink(a, n) || HasLink(b, n)
    ensures forall n :: !(HasLink(a, n) && HasLink(b, n))
  {
    var s := a + b;
    forall i | 0 <= i < |a| ensures s[i] == a[i] {}
    forall i | 0 <= i < |b| ensures s[|a| + i] == b[i] {}
    forall n ensures HasLink(s, n) <==> HasLink(a, n) || HasLink(b, n)
    {
      if HasLink(s, n) {
        var i :| 0 <= i < |s| && s[i].payload == Link(n);
        assert i < |a| ==> a[i].payload == Link(n);
        assert i >= |a| ==> b[i - |a|].payload == Link(n);
      }
      if HasLink(a, n) {
        var i :| 0 <= i < |a| && a[i].payload == Link(n);
        assert s[i].payload == Link(n);
      }
      if HasLink(b, n) {
        var i :| 0 <= i < |b| && b[i].payload == Link(n);
        assert s[|a| + i].payload == Link(n);
      }
    }
  }

  predicate IsChild(p: Node, n: NodeId) {
    match p
    case Interior(_, _, _, children) => n in children
    case Border(_, _, entries, _, _) => HasLink(entries, n)
  }

  predicate Dangling(d: NodeId, c: NodeId) {
    d != NULL && c == d
  }

  /** In these predicates `d` is a node already unlinked whose parent still points at it, and `x` a
      new node not yet entered in its parent; both are `NULL` at rest. */
  ghost predicate KidAt(s: Snap, n: NodeId, i: nat, c: NodeId)
    requires n in s.h && s.h[n].Interior?
  {
    var ks := s.h[n].keys;
    && c in s.h && s.h[c].parent == n && !s.h[c].ver.root
    && Of(s, c).pfx == Of(s, n).pfx
    && Of(s, c).ht < Of(s, n).ht
    && Of(s, n).lo <= Of(s, c).lo && Of(s, c).hi <= Of(s, n).hi
    && (0 < i <= |ks| ==> Ord(ks[i - 1]) <= Of(s, c).lo)
    && (i < |ks| ==> Of(s, c).hi < Ord(ks[i]))
  }

  ghost predicate InteriorAt(s: Snap, d: NodeId, n: NodeId)
    requires n in s.h && s.h[n].Interior?
  {
    var ks, cs := s.h[n].keys, s.h[n].children;
    && 1 <= |ks| <= FANOUT && |cs| == |ks| + 1
    && KeysSorted(ks)
    && (forall i :: 0 <= i < |cs| ==> Dangling(d, cs[i]) || KidAt(s, n, i, cs[i]))
    && (forall i, j :: 0 <= i < j < |cs| ==> cs[i] != cs[j])
  }

  ghost predicate EntryAt(s: Snap, d: NodeId, n: NodeId, e: Entry)
    requires n in s.h
  {
    && Of(s, n).lo <= Ord(e.key) <= Of(s, n).hi
    && (Of(s, n).pfx != [] ==> e.key.len > 0)
    && match e.payload
       case Value(_) => e.key.len <= SLICE
       case Link(r) =>
         && e.key.len == LINK_LEN
         && (Dangling(d, r)
             || (&& r in s.h && s.h[r].parent == n && s.h[r].ver.root
                 && Of(s, r).pfx == Of(s, n).pfx + e.key.slice))
  }

  ghost predicate BorderAt(s: Snap, d: NodeId, n: NodeId)
    requires n in s.h && s.h[n].Border?
  {
    var es := s.h[n].entries;
    && |es| <= FANOUT
    && Sorted(es)
    && (forall i :: 0 <= i < |es| ==> EntryAt(s, d, n, es[i]))
    && LinksApart(es)
    && (es == [] ==> n == s.root)
    && (s.h[n].ver.deleted ==> es == [])
  }

  ghost predicate ParentAt(s: Snap, n: NodeId)
    requires n in s.h
  {
    var p := s.h[n].parent;
    if n == s.root then p == NULL && s.h[n].ver.root && Of(s, n).pfx == []
    else p in s.h && IsChild(s.h[p], n)
  }

  ghost predicate ChainAt(s: Snap, n: NodeId)
    requires n in s.h && s.h[n].Border?
  {
    var p, q := s.h[n].prev, s.h[n].next;
    && (q != NULL ==> q in s.h && s.h[q].Border? && s.h[q].prev == n
                      && Of(s, q).pfx == Of(s, n).pfx && Of(s, n).hi < Of(s, q).lo)
    && (p != NULL ==> p in s.h && s.h[p].Border? && s.h[p].next == n)
  }

  /** Borders of one layer start at different places, and nothing starts between a border and its
      successor in the chain. */
  ghost predicate NextAt(s: Snap, a: NodeId, c: NodeId)
    requires a in s.h && s.h[a].Border?
  {
    Of(s, a).pfx == Of(s, c).pfx ==>
      && Of(s, a).lo != Of(s, c).lo
      && (Of(s, a).lo < Of(s, c).lo ==>
            s.h[a].next != NULL && (s.h[a].next == c || Of(s, s.h[a].next).lo < Of(s, c).lo))
  }

  ghost predicate Domain(s: Snap) {
    && s.sh.Keys == s.h.Keys
    && NULL !in s.h
    && (s.root != NULL ==> s.root in s.h)
    && (forall n <- s.h :: Of(s, n).lo <= Of(s, n).hi)
    && (forall n <- s.h :: |Of(s, n).pfx| % SLICE == 0)
    && (forall n <- s.h :: s.h[n].ver.deleted ==> s.h[n].Border?)
  }

  ghost predicate Interiors(s: Snap, d: NodeId) {
    forall n <- s.h :: s.h[n].Interior? ==> InteriorAt(s, d, n)
  }

  ghost predicate Borders(s: Snap, d: NodeId) {
    forall n <- s.h :: s.h[n].Border? ==> BorderAt(s, d, n)
  }

  ghost predicate Parents(s: Snap, x: NodeId) {
    forall n <- s.h :: n != x ==> ParentAt(s, n)
  }

  ghost predicate Chains(s: Snap) {
    && (forall n <- s.h :: s.h[n].Border? ==> ChainAt(s, n))
    && (forall a, c :: a in s.h && c in s.h && s.h[a].Border? && s.h[c].Border? && a != c ==> NextAt(s, a, c))
  }

  ghost predicate Shape(s: Snap, x: NodeId, d: NodeId) {
    Domain(s) && Interiors(s, d) && Borders(s, d) && Parents(s, x) && Chains(s)
  }

  /** The part of the invariant that routing rests on. */
  ghost predicate Treelike(s: Snap) {
    Domain(s) && Interiors(s, NULL) && Borders(s, NULL) && Parents(s, NULL)
  }

  /** A new node `x` to the right of `left`, not yet entered in the parent of `left`: `sep` will
      separate them, and there is room for `x` between `left` and its right neighbour. */
  ghost predicate Pending(s: Snap, left: NodeId, x: NodeId, sep: KeyTuple) {
    && left in s.h && x in s.h && left != x && x != s.root
    && s.h[x].parent == NULL && !s.h[x].ver.root
    && Canonical(sep) && sep.len > 0
    && Of(s, x).pfx == Of(s, left).pfx && Of(s, x).ht == Of(s, left).ht
    && Of(s, left).hi < Ord(sep) <= Of(s, x).lo
    && var p := s.h[left].parent;
       p in s.h && s.h[p].Interior? ==>
         && Of(s, x).hi <= Of(s, p).hi
         && forall i :: 0 <= i < |s.h[p].keys| && i < |s.h[p].children| && s.h[p].children[i] == left ==>
                          Of(s, x).hi < Ord(s.h[p].keys[i])
  }

  /** A border that starts earlier ends before the other starts. */
  lemma Before(s: Snap, a: NodeId, c: NodeId)
    requires Chains(s) && a in s.h && s.h[a].Border? && c in s.h && s.h[c].Border?
    requires Of(s, a).pfx == Of(s, c).pfx && Of(s, a).lo < Of(s, c).lo
    ensures Of(s, a).hi < Of(s, c).lo
  {
    assert NextAt(s, a, c) && ChainAt(s, a);
  }

  lemma RoomAfter(s: Snap, p: NodeId, left: NodeId)
    requires Interiors(s, NULL) && p in s.h && s.h[p].Interior? && left in s.h[p].children
    ensures Of(s, left).hi <= Of(s, p).hi
    ensures forall i :: 0 <= i < |s.h[p].keys| && i < |s.h[p].children| && s.h[p].children[i] == left ==>
                          Of(s, left).hi < Ord(s.h[p].keys[i])
  {
    assert InteriorAt(s, NULL, p);
    forall i | 0 <= i < |s.h[p].children| && s.h[p].children[i] == left
      ensures KidAt(s, p, i, left)
    {
    }
  }

  // ---- facts about one node that survive changes elsewhere ----

  /** The parent pointers, root flags and annotation of all old nodes are kept. */
  ghost predicate Alike(s: Snap, s': Snap) {
    forall n <- s.h :: n in s'.h && s'.h[n].parent == s.h[n].parent && s'.h[n].ver.root == s.h[n].ver.root
                       && Of(s', n) == Of(s, n)
  }

  lemma EntryAlike(s: Snap, d: NodeId, n: NodeId, e: Entry, s': Snap)
    requires Alike(s, s') && n in s.h && EntryAt(s, d, n, e)
    ensures EntryAt(s', d, n, e)
  {
  }

  lemma BorderAlike(s: Snap, d: NodeId, n: NodeId, s': Snap)
    requires Alike(s, s') && n in s.h && s.h[n].Border? && BorderAt(s, d, n)
    requires s'.h[n].Border? && s'.h[n].entries == s.h[n].entries
    requires s'.h[n].ver.deleted == s.h[n].ver.deleted && (n == s.root ==> n == s'.root)
    ensures BorderAt(s', d, n)
  {
    forall i | 0 <= i < |s.h[n].entries|
      ensures EntryAt(s', d, n, s.h[n].entries[i])
    {
      EntryAlike(s, d, n, s.h[n].entries[i], s');
    }
  }

  lemma InteriorAlike(s: Snap, d: NodeId, n: NodeId, s': Snap)
    requires Alike(s, s') && n in s.h && s.h[n].Interior? && InteriorAt(s, d, n)
    requires s'.h[n].Interior? && s'.h[n].keys == s.h[n].keys && s'.h[n].children == s.h[n].children
    ensures InteriorAt(s', d, n)
  {
    forall i | 0 <= i < |s.h[n].children|
      ensures Dangling(d, s.h[n].children[i]) || KidAt(s', n, i, s.h[n].children[i])
    {
      assert Dangling(d, s.h[n].children[i]) || KidAt(s, n, i, s.h[n].children[i]);
    }
  }

  /** The chain does not see changes that leave borders, their neighbours and ranges alone. */
  lemma ChainsAlike(s: Snap, s': Snap)
    requires Domain(s) && Chains(s)
    requires forall n <- s'.h :: s'.h[n].Border? ==> n in s.h
    requires forall n <- s.h :: s.h[n].Border? ==>
               && n in s'.h && s'.h[n].Border? && s'.h[n].next == s.h[n].next && s'.h[n].prev == s.h[n].prev
               && Of(s', n) == Of(s, n)
    requires forall n <- s.h :: n in s'.h && s'.h[n].Border? ==> s.h[n].Border?
    ensures Chains(s')
  {
    forall n | n in s'.h && s'.h[n].Border?
      ensures ChainAt(s', n)
    {
      assert ChainAt(s, n);
    }
    forall a, c | a in s'.h && c in s'.h && s'.h[a].Border? && s'.h[c].Border? && a != c
      ensures NextAt(s', a, c)
    {
      assert NextAt(s, a, c) && ChainAt(s, a);
    }
  }

  // ---- what the store means as a map ----

  type Content = map<Key, Val>

  /** Entry `e` of a border with prefix `pfx` stores `v` under the full key `k`. */
  predicate EntryHolds(pfx: Key, e: Entry, k: Key, v: Val) {
    e.payload == Value(v) && pfx + TupleBytes(e.key) == k
  }

  predicate SeqHolds(pfx: Key, es: seq<Entry>, k: Key, v: Val) {
    exists e :: e in es && EntryHolds(pfx, e, k, v)
  }

  ghost predicate NodeHolds(s: Snap, n: NodeId, k: Key, v: Val) {
    n in s.h && s.h[n].Border? && SeqHolds(Of(s, n).pfx, s.h[n].entries, k, v)
  }

  ghost predicate Stored(s: Snap, k: Key, v: Val) {
    exists n :: NodeHolds(s, n, k, v)
  }

  /** The store holds exactly the entries of the map. */
  ghost predicate Agrees(s: Snap, m: Content) {
    forall k, v :: Stored(s, k, v) <==> k in m && m[k] == v
  }
}
