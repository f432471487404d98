/**
  The symbol graph that every pass rewrites in place.

  `Graph` is its abstract value and `SymbolGraph` the mutable object.  The position a new node
  takes in the iteration order is left open (the storage reuses freed slots), so every result
  holds for each choice.  Edges are kept by their deduplication key; `seen` is the separate set
  of keys that `insert_edge` consults and that `retain_edges` does not maintain.
 */
module SymbolGraphs {
  import opened Symbols
  import opened NodeQueries

  datatype EdgeStore = EdgeStore(edges: map<EdgeKey, DirectEdge>, seen: set<EdgeKey>)

  datatype Graph = Graph(
    nodes: seq<SymbolNode>,
    store: EdgeStore,
    nextId: nat,
    nameIndex: map<string, seq<SymbolId>>,
    qualifiedIndex: map<string, seq<SymbolId>>
  )

  // ------------------------------------------------------------ edge store

  /** First insertion of a key wins. */
  function Put(s: EdgeStore, e: DirectEdge): EdgeStore {
    if KeyOf(e) in s.seen then s else EdgeStore(s.edges[KeyOf(e) := e], s.seen + {KeyOf(e)})
  }

  function PutAll(s: EdgeStore, es: seq<DirectEdge>): EdgeStore
    decreases es
  {
    if es == [] then s else PutAll(Put(s, es[0]), es[1..])
  }

  ghost predicate AllSeen(s: EdgeStore, es: seq<DirectEdge>) {
    forall e :: e in es ==> KeyOf(e) in s.seen
  }

  lemma {:induction false} PutAllConcat(s: EdgeStore, a: seq<DirectEdge>, b: seq<DirectEdge>)
    ensures PutAll(s, a + b) == PutAll(PutAll(s, a), b)
    decreases a
  {
    if a == [] {
      assert a + b == b;
    } else {
      assert (a + b)[0] == a[0] && (a + b)[1..] == a[1..] + b;
      PutAllConcat(Put(s, a[0]), a[1..], b);
    }
  }

  lemma PutAllNone(s: EdgeStore)
    ensures PutAll(s, []) == s
  {
  }

  lemma PutAllOne(s: EdgeStore, a: seq<DirectEdge>, e: DirectEdge)
    ensures PutAll(s, a + [e]) == Put(PutAll(s, a), e)
  {
    PutAllConcat(s, a, [e]);
    assert [e][1..] == [];
    assert PutAll(PutAll(s, a), [e]) == PutAll(Put(PutAll(s, a), e), []);
  }

  /** What a batch of insertions does, whatever its order: old edges stay, every key becomes seen. */
  lemma {:induction false} PutAllEffect(s: EdgeStore, es: seq<DirectEdge>)
    ensures PutAll(s, es).seen == s.seen + set e | e in es :: KeyOf(e)
    ensures forall k :: k in s.edges && k in s.seen ==> k in PutAll(s, es).edges && PutAll(s, es).edges[k] == s.edges[k]
    ensures forall k :: k in PutAll(s, es).edges && (k !in s.edges || PutAll(s, es).edges[k] != s.edges[k]) ==>
              k !in s.seen && PutAll(s, es).edges[k] in es && KeyOf(PutAll(s, es).edges[k]) == k
    ensures forall e :: e in es && KeyOf(e) !in s.seen ==> KeyOf(e) in PutAll(s, es).edges
    ensures s.edges.Keys <= PutAll(s, es).edges.Keys
    decreases es
  {
    if es != [] {
      PutAllEffect(Put(s, es[0]), es[1..]);
      assert es == [es[0]] + es[1..];
    }
  }

  /** Inserting only keys that were already seen changes nothing. */
  lemma {:induction false} PutAllSeen(s: EdgeStore, es: seq<DirectEdge>)
    requires AllSeen(s, es)
    ensures PutAll(s, es) == s
    decreases es
  {
    if es != [] {
      assert es[0] in es;
      PutAllSeen(s, es[1..]);
    }
  }

  // ------------------------------------------------------------ name indexes

  function Pushed(index: map<string, seq<SymbolId>>, key: string, id: SymbolId): map<string, seq<SymbolId>> {
    index[key := (if key in index then index[key] else []) + [id]]
  }

  function Without(ids: seq<SymbolId>, id: SymbolId): (r: seq<SymbolId>)
    ensures forall x :: x in r <==> x in ids && x != id
  {
    if ids == [] then []
    else
      assert ids == [ids[0]] + ids[1..];
      (if ids[0] == id then [] else [ids[0]]) + Without(ids[1..], id)
  }

  function Dropped(index: map<string, seq<SymbolId>>, key: string, id: SymbolId): map<string, seq<SymbolId>> {
    if key !in index then index
    else if Without(index[key], id) == [] then index - {key}
    else index[key := Without(index[key], id)]
  }

  ghost predicate NameIndexed(ns: seq<SymbolNode>, index: map<string, seq<SymbolId>>) {
    && (forall n :: n in ns ==> n.name in index && n.id in index[n.name])
    && (forall key, id :: key in index && id in index[key] ==> exists n :: n in ns && n.id == id && n.name == key)
    && (forall key :: key in index ==> index[key] != [])
  }

  ghost predicate QualifiedIndexed(ns: seq<SymbolNode>, index: map<string, seq<SymbolId>>) {
    && (forall n :: n in ns && HasQualifiedKey(n) ==> n.qualifiedName in index && n.id in index[n.qualifiedName])
    && (forall key, id :: key in index && id in index[key] ==>
          exists n :: n in ns && n.id == id && HasQualifiedKey(n) && n.qualifiedName == key)
    && (forall key :: key in index ==> index[key] != [])
  }

  // ------------------------------------------------------------ invariant

  ghost predicate NodesOk(ns: seq<SymbolNode>, nextId: nat) {
    UniqueIds(ns) && forall n :: n in ns ==> n.id < nextId
  }

  /**
    No dangling edge; an edge is stored under its own key; a key that was seen and has no edge
    is a StringMatch key (the only kind `retain_edges` is used on).
   */
  ghost predicate StoreOk(s: EdgeStore, ids: set<SymbolId>) {
    && (forall k :: k in s.edges ==> KeyOf(s.edges[k]) == k && k in s.seen)
    && (forall k :: k in s.seen ==> k.from in ids && k.to in ids)
    && (forall k :: k in s.seen && !k.kind.StringMatch? ==> k in s.edges)
  }

  ghost predicate WellFormed(g: Graph) {
    && NodesOk(g.nodes, g.nextId)
    && StoreOk(g.store, Ids(g.nodes))
    && NameIndexed(g.nodes, g.nameIndex)
    && QualifiedIndexed(g.nodes, g.qualifiedIndex)
  }

  const EmptyGraph := Graph([], EdgeStore(map[], {}), 0, map[], map[])

  // ------------------------------------------------------------ operations

  /** `insert_node`: a fresh id, at position k of the iteration order. */
  function WithNode(g: Graph, n: SymbolNode, k: nat): Graph
    requires k <= |g.nodes|
  {
    var m := n.(id := g.nextId);
    g.(nodes := g.nodes[..k] + [m] + g.nodes[k..],
       nextId := g.nextId + 1,
       nameIndex := Pushed(g.nameIndex, m.name, m.id),
       qualifiedIndex := if HasQualifiedKey(m) then Pushed(g.qualifiedIndex, m.qualifiedName, m.id)
                         else g.qualifiedIndex)
  }

  predicate Known(g: Graph, e: DirectEdge) {
    GetNode(g.nodes, e.from).Some? && GetNode(g.nodes, e.to).Some?
  }

  function WithEdge(g: Graph, e: DirectEdge): Graph {
    if Known(g, e) then g.(store := Put(g.store, e)) else g
  }

  predicate Touches(k: EdgeKey, id: SymbolId) {
    k.from == id || k.to == id
  }

  function StoreWithout(s: EdgeStore, id: SymbolId): EdgeStore {
    EdgeStore(map k | k in s.edges && !Touches(k, id) :: s.edges[k], set k | k in s.seen && !Touches(k, id))
  }

  function WithoutNode(g: Graph, id: SymbolId): Graph {
    match GetNode(g.nodes, id)
    case None => g
    case Some(n) =>
      g.(nodes := Select(Except(id), g.nodes),
         store := StoreWithout(g.store, id),
         nameIndex := Dropped(g.nameIndex, n.name, id),
         qualifiedIndex := if HasQualifiedKey(n) then Dropped(g.qualifiedIndex, n.qualifiedName, id)
                           else g.qualifiedIndex)
  }

  /** `retain_edges` drops edges but leaves their keys in `seen`. */
  function Retained(g: Graph, keep: DirectEdge -> bool): Graph {
    g.(store := g.store.(edges := map k | k in g.store.edges && keep(g.store.edges[k]) :: g.store.edges[k]))
  }

  function Nodes(ns: seq<SymbolNode>, ids: seq<SymbolId>): seq<SymbolNode> {
    if ids == [] then []
    else (match GetNode(ns, ids[0]) case Some(n) => [n] case None => []) + Nodes(ns, ids[1..])
  }

  function Lookup(ns: seq<SymbolNode>, index: map<string, seq<SymbolId>>, key: string, limit: nat): seq<SymbolNode> {
    if key !in index then []
    else Nodes(ns, if |index[key]| <= limit then index[key] else index[key][..limit])
  }

  // ------------------------------------------------------------ invariant preservation

  lemma IdsInserted(ns: seq<SymbolNode>, n: SymbolNode, k: nat)
    requires k <= |ns|
    ensures forall m :: m in ns[..k] + [n] + ns[k..] <==> m in ns || m == n
    ensures Ids(ns[..k] + [n] + ns[k..]) == Ids(ns) + {n.id}
  {
    assert ns == ns[..k] + ns[k..];
    var ms := ns[..k] + [n] + ns[k..];
    assert forall m :: m in ms <==> m in ns || m == n;
    assert Ids(ms) == Ids(ns) + {n.id};
  }

  lemma WithNodeWellFormed(g: Graph, n: SymbolNode, k: nat)
    requires WellFormed(g) && k <= |g.nodes|
    ensures WellFormed(WithNode(g, n, k))
  {
    var g2 := WithNode(g, n, k);
    var m := n.(id := g.nextId);
    IdsInserted(g.nodes, m, k);
    WithNodeUnique(g.nodes, m, k);
    assert m in g2.nodes;
    forall key, id | key in g2.nameIndex && id in g2.nameIndex[key]
      ensures exists x :: x in g2.nodes && x.id == id && x.name == key
    {
      if key in g.nameIndex && id in g.nameIndex[key] {
        var x :| x in g.nodes && x.id == id && x.name == key;
        assert x in g2.nodes;
      } else {
        assert m.id == id && m.name == key;
      }
    }
    forall key, id | key in g2.qualifiedIndex && id in g2.qualifiedIndex[key]
      ensures exists x :: x in g2.nodes && x.id == id && HasQualifiedKey(x) && x.qualifiedName == key
    {
      if key in g.qualifiedIndex && id in g.qualifiedIndex[key] {
        var x :| x in g.nodes && x.id == id && HasQualifiedKey(x) && x.qualifiedName == key;
        assert x in g2.nodes;
      } else {
        assert m.id == id && HasQualifiedKey(m) && m.qualifiedName == key;
      }
    }
  }

  lemma WithNodeUnique(ns: seq<SymbolNode>, m: SymbolNode, k: nat)
    requires UniqueIds(ns) && k <= |ns|
    requires forall n :: n in ns ==> n.id != m.id
    ensures UniqueIds(ns[..k] + [m] + ns[k..])
  {
    var ms := ns[..k] + [m] + ns[k..];
    forall i, j | 0 <= i < j < |ms| ensures ms[i].id != ms[j].id {
      var i0 := if i < k then i else i - 1;
      var j0 := if j < k then j else j - 1;
      if i != k { assert ms[i] == ns[i0] && ns[i0] in ns; }
      if j != k { assert ms[j] == ns[j0] && ns[j0] in ns; }
    }
  }

  lemma WithEdgeWellFormed(g: Graph, e: DirectEdge)
    requires WellFormed(g)
    ensures WellFormed(WithEdge(g, e))
  {
    GetNodeFinds(g.nodes, e.from);
    GetNodeFinds(g.nodes, e.to);
  }

  lemma DroppedMembers(index: map<string, seq<SymbolId>>, key: string, id: SymbolId)
    requires forall k :: k in index ==> index[k] != []
    ensures forall k, x :: (k in Dropped(index, key, id) && x in Dropped(index, key, id)[k])
              <==> (k in index && x in index[k] && !(k == key && x == id))
    ensures forall k :: k in Dropped(index, key, id) ==> Dropped(index, key, id)[k] != []
  {
    if key in index && Without(index[key], id) == [] {
      assert forall x :: x in index[key] && x != id ==> x in Without(index[key], id);
    }
  }

  lemma {:induction false} WithoutNodeWellFormed(g: Graph, id: SymbolId)
    requires WellFormed(g)
    ensures WellFormed(WithoutNode(g, id))
    ensures Ids(WithoutNode(g, id).nodes) == Ids(g.nodes) - {id}
  {
    GetNodeFinds(g.nodes, id);
    var g2 := WithoutNode(g, id);
    if GetNode(g.nodes, id).Some? {
      var n := GetNode(g.nodes, id).value;
      SelectMembers(Except(id), g.nodes);
      SelectUnique(Except(id), g.nodes);
      assert Ids(g2.nodes) == Ids(g.nodes) - {id} by {
        forall x | x in Ids(g.nodes) && x != id ensures x in Ids(g2.nodes) {
          var m :| m in g.nodes && m.id == x;
          assert m in g2.nodes;
        }
      }
      DroppedMembers(g.nameIndex, n.name, id);
      DroppedMembers(g.qualifiedIndex, n.qualifiedName, id);
      WithoutNodeNames(g, n);
      WithoutNodeQualified(g, n);
    }
  }

  lemma WithoutNodeNames(g: Graph, n: SymbolNode)
    requires WellFormed(g) && n in g.nodes
    ensures NameIndexed(Select(Except(n.id), g.nodes), Dropped(g.nameIndex, n.name, n.id))
  {
    var ms := Select(Except(n.id), g.nodes);
    var index := Dropped(g.nameIndex, n.name, n.id);
    SelectMembers(Except(n.id), g.nodes);
    DroppedMembers(g.nameIndex, n.name, n.id);
    forall key, x | key in index && x in index[key]
      ensures exists m :: m in ms && m.id == x && m.name == key
    {
      var m :| m in g.nodes && m.id == x && m.name == key;
      if m.id == n.id { UniqueIdsMeanSameNode(g.nodes, m, n); }
      assert m in ms;
    }
  }

  lemma WithoutNodeQualified(g: Graph, n: SymbolNode)
    requires WellFormed(g) && n in g.nodes
    ensures QualifiedIndexed(Select(Except(n.id), g.nodes),
                             if HasQualifiedKey(n) then Dropped(g.qualifiedIndex, n.qualifiedName, n.id)
                             else g.qualifiedIndex)
  {
    var ms := Select(Except(n.id), g.nodes);
    var index := if HasQualifiedKey(n) then Dropped(g.qualifiedIndex, n.qualifiedName, n.id) else g.qualifiedIndex;
    SelectMembers(Except(n.id), g.nodes);
    DroppedMembers(g.qualifiedIndex, n.qualifiedName, n.id);
    forall key, x | key in index && x in index[key]
      ensures exists m :: m in ms && m.id == x && HasQualifiedKey(m) && m.qualifiedName == key
    {
      var m :| m in g.nodes && m.id == x && HasQualifiedKey(m) && m.qualifiedName == key;
      if m.id == n.id { UniqueIdsMeanSameNode(g.nodes, m, n); }
      assert m in ms;
    }
  }

  lemma RetainedWellFormed(g: Graph, keep: DirectEdge -> bool)
    requires WellFormed(g)
    requires forall k :: k in g.store.edges && !keep(g.store.edges[k]) ==> k.kind.StringMatch?
    ensures WellFormed(Retained(g, keep))
  {
  }

  // ------------------------------------------------------------ growth by whole passes

  function IndexAll(index: map<string, seq<SymbolId>>, ins: seq<SymbolNode>): map<string, seq<SymbolId>> {
    if ins == [] then index
    else var n := ins[|ins| - 1]; Pushed(IndexAll(index, ins[..|ins| - 1]), n.name, n.id)
  }

  function IndexAllQualified(index: map<string, seq<SymbolId>>, ins: seq<SymbolNode>): map<string, seq<SymbolId>> {
    if ins == [] then index
    else
      var n := ins[|ins| - 1];
      var rest := IndexAllQualified(index, ins[..|ins| - 1]);
      if HasQualifiedKey(n) then Pushed(rest, n.qualifiedName, n.id) else rest
  }

  /**
    `g2` is `g` after the nodes `ins` were inserted in that order, each at some place of the
    iteration order; edges are not compared.
   */
  ghost predicate Grows(g: Graph, ins: seq<SymbolNode>, g2: Graph) {
    && g2.nextId == g.nextId + |ins|
    && (forall i :: 0 <= i < |ins| ==> ins[i].id == g.nextId + i)
    && Select(Below(g.nextId), g2.nodes) == g.nodes
    && (forall n :: n in g2.nodes <==> n in g.nodes || n in ins)
    && |g2.nodes| == |g.nodes| + |ins|
    && UniqueIds(g2.nodes)
    && g2.nameIndex == IndexAll(g.nameIndex, ins)
    && g2.qualifiedIndex == IndexAllQualified(g.qualifiedIndex, ins)
  }

  lemma GrowsNot(g: Graph, g2: Graph)
    requires Grows(g, [], g2)
    ensures g2 == g.(store := g2.store)
  {
    SelectLength(Below(g.nextId), g2.nodes);
  }

  lemma GrowsRefl(g: Graph)
    requires NodesOk(g.nodes, g.nextId)
    ensures Grows(g, [], g)
  {
    SelectAll(Below(g.nextId), g.nodes);
  }

  lemma GrowsStore(g: Graph, ins: seq<SymbolNode>, g1: Graph, g2: Graph)
    requires Grows(g, ins, g1) && g2 == g1.(store := g2.store)
    ensures Grows(g, ins, g2)
  {
  }

  lemma GrowsStoreLeft(g: Graph, g0: Graph, ins: seq<SymbolNode>, g2: Graph)
    requires Grows(g0, ins, g2) && g0 == g.(store := g0.store)
    ensures Grows(g, ins, g2)
  {
  }

  lemma GrowsStep(g: Graph, ins: seq<SymbolNode>, g1: Graph, n: SymbolNode, k: nat)
    requires Grows(g, ins, g1) && NodesOk(g1.nodes, g1.nextId) && k <= |g1.nodes|
    ensures Grows(g, ins + [n.(id := g1.nextId)], WithNode(g1, n, k))
  {
    hide Select, Pushed;
    var m := n.(id := g1.nextId);
    WithNodeUnique(g1.nodes, m, k);
    SelectInserted(Below(g.nextId), g1.nodes, m, k);
    IdsInserted(g1.nodes, m, k);
    assert (ins + [m])[..|ins|] == ins;
  }

  /** A selection that no inserted node matches is the old selection. */
  lemma GrowsSelect(g: Graph, ins: seq<SymbolNode>, g2: Graph, q: NodeQuery)
    requires Grows(g, ins, g2) && NodesOk(g.nodes, g.nextId)
    requires forall n :: n in ins ==> !Matches(q, n)
    ensures Select(q, g2.nodes) == Select(q, g.nodes)
  {
    SelectWithin(q, Below(g.nextId), g2.nodes);
  }

  lemma {:induction false} IndexAllConcat(index: map<string, seq<SymbolId>>, a: seq<SymbolNode>, b: seq<SymbolNode>)
    ensures IndexAll(index, a + b) == IndexAll(IndexAll(index, a), b)
    ensures IndexAllQualified(index, a + b) == IndexAllQualified(IndexAllQualified(index, a), b)
    decreases b
  {
    if b == [] {
      assert a + b == a;
    } else {
      assert (a + b)[..|a + b| - 1] == a + b[..|b| - 1];
      IndexAllConcat(index, a, b[..|b| - 1]);
    }
  }

  lemma GrowsTrans(g: Graph, a: seq<SymbolNode>, g1: Graph, b: seq<SymbolNode>, g2: Graph)
    requires Grows(g, a, g1) && Grows(g1, b, g2)
    ensures Grows(g, a + b, g2)
  {
    SelectWithin(Below(g.nextId), Below(g1.nextId), g2.nodes);
    IndexAllConcat(g.nameIndex, a, b);
    IndexAllConcat(g.qualifiedIndex, a, b);
  }

  lemma {:induction false} GrowsNodesOk(g: Graph, ins: seq<SymbolNode>, g2: Graph)
    requires Grows(g, ins, g2) && NodesOk(g.nodes, g.nextId)
    ensures NodesOk(g2.nodes, g2.nextId)
    ensures Ids(g.nodes) <= Ids(g2.nodes)
  {
    forall n | n in g2.nodes ensures n.id < g2.nextId {
      if n in ins {
        var i :| 0 <= i < |ins| && ins[i] == n;
      }
    }
  }

  // ------------------------------------------------------------ the mutable object

  class SymbolGraph {
    var nodes: seq<SymbolNode>
    var edges: map<EdgeKey, DirectEdge>
    var edgeSet: set<EdgeKey>
    var nextId: nat
    var nameIndex: map<string, seq<SymbolId>>
    var qualifiedIndex: map<string, seq<SymbolId>>

    ghost function Value(): Graph
      reads this
    {
      Graph(nodes, EdgeStore(edges, edgeSet), nextId, nameIndex, qualifiedIndex)
    }

    constructor ()
      ensures Value() == EmptyGraph && WellFormed(Value())
    {
      nodes, edges, edgeSet, nextId, nameIndex, qualifiedIndex := [], map[], {}, 0, map[], map[];
    }

    method InsertNode(n: SymbolNode) returns (id: SymbolId, ghost k: nat)
      modifies this
      ensures id == old(nextId)
      ensures k <= |old(nodes)| && Value() == WithNode(old(Value()), n, k)
      ensures old(WellFormed(Value())) ==> WellFormed(Value())
    {
      ghost var before := Value();
      id := nextId;
      nextId := nextId + 1;
      var m := n.(id := id);
      nameIndex := Pushed(nameIndex, m.name, id);
      if HasQualifiedKey(m) {
        qualifiedIndex := Pushed(qualifiedIndex, m.qualifiedName, id);
      }
      var slot: nat :| slot <= |nodes|;
      nodes := nodes[..slot] + [m] + nodes[slot..];
      k := slot;
      if WellFormed(before) {
        WithNodeWellFormed(before, n, k);
      }
    }

    /** `true` also for a key that was seen before, whether or not its edge is still there. */
    method InsertEdge(e: DirectEdge) returns (ok: bool)
      modifies this`edges, this`edgeSet
      ensures ok == Known(old(Value()), e)
      ensures Value() == WithEdge(old(Value()), e)
      ensures old(WellFormed(Value())) ==> WellFormed(Value())
    {
      ghost var before := Value();
      if GetNode(nodes, e.from).None? || GetNode(nodes, e.to).None? {
        return false;
      }
      if WellFormed(before) {
        WithEdgeWellFormed(before, e);
      }
      if KeyOf(e) in edgeSet {
        return true;
      }
      edgeSet := edgeSet + {KeyOf(e)};
      edges := edges[KeyOf(e) := e];
      return true;
    }

    method RemoveNode(id: SymbolId)
      modifies this
      ensures Value() == WithoutNode(old(Value()), id)
      ensures old(WellFormed(Value())) ==> WellFormed(Value())
    {
      ghost var before := Value();
      if WellFormed(before) {
        WithoutNodeWellFormed(before, id);
      }
      var found := GetNode(nodes, id);
      if found.None? {
        return;
      }
      var n := found.value;
      nodes := Select(Except(id), nodes);
      edges := map k | k in edges && !Touches(k, id) :: edges[k];
      nameIndex := Dropped(nameIndex, n.name, id);
      if HasQualifiedKey(n) {
        qualifiedIndex := Dropped(qualifiedIndex, n.qualifiedName, id);
      }
      edgeSet := set k | k in edgeSet && !Touches(k, id);
    }

    method RetainEdges(keep: DirectEdge -> bool)
      modifies this`edges
      ensures Value() == Retained(old(Value()), keep)
    {
      edges := map k | k in edges && keep(edges[k]) :: edges[k];
    }
  }
}
