/** reclassify_string_match: narrows StringMatch edges between enum variants or API path literals. */
module Reclassify {
  import opened Symbols
  import opened NodeQueries
  import opened SymbolGraphs

  const API_PREFIX := "api_path::"

  predicate IsApiPath(n: SymbolNode) {
    n.kind.StringLiteral? && API_PREFIX <= n.name
  }

  function NarrowKind(a: SymbolNode, b: SymbolNode): Option<EdgeKind> {
    if a.kind.EnumVariant? && b.kind.EnumVariant? then Some(EnumValueMatch)
    else if IsApiPath(a) && IsApiPath(b) then Some(ApiPathMatch)
    else None
  }

  /** The narrower kind of a StringMatch edge, when its endpoints allow one. */
  function Narrowing(ns: seq<SymbolNode>, k: EdgeKey): Option<EdgeKind> {
    if !k.kind.StringMatch? then None
    else match (GetNode(ns, k.from), GetNode(ns, k.to))
         case (Some(a), Some(b)) => NarrowKind(a, b)
         case _ => None
  }

  function NarrowKey(ns: seq<SymbolNode>, k: EdgeKey): EdgeKey
    requires Narrowing(ns, k).Some?
  {
    EdgeKey(k.from, k.to, Narrowing(ns, k).value)
  }

  function NarrowEdge(ns: seq<SymbolNode>, e: DirectEdge): DirectEdge
    requires Narrowing(ns, KeyOf(e)).Some?
  {
    var kind := Narrowing(ns, KeyOf(e)).value;
    NewEdge(e.from, e.to, kind, e.origin, Evaluate(kind, e.origin), e.evidenceFile)
  }

  function Unnarrowed(k: EdgeKey): EdgeKey {
    EdgeKey(k.from, k.to, StringMatch)
  }

  /** `k` is the narrowed key of one of the edges in `done`. */
  predicate IsNarrowOf(ns: seq<SymbolNode>, done: set<EdgeKey>, k: EdgeKey) {
    Unnarrowed(k) in done && Narrowing(ns, Unnarrowed(k)) == Some(k.kind)
  }

  function Replaceable(ns: seq<SymbolNode>, s: EdgeStore): set<EdgeKey> {
    set k | k in s.edges && Narrowing(ns, k).Some?
  }

  /** The store after the edges in `done` were replaced; a narrowed key seen before is not re-added. */
  ghost predicate Replaced(ns: seq<SymbolNode>, s: EdgeStore, done: set<EdgeKey>, s2: EdgeStore) {
    && (forall k :: k in s2.seen <==> k in s.seen || IsNarrowOf(ns, done, k))
    && (forall k :: k in s2.edges <==> (k in s.edges && k !in done) || (IsNarrowOf(ns, done, k) && k !in s.seen))
    && (forall k :: k in s2.edges && k in s.seen ==> k in s.edges && s2.edges[k] == s.edges[k])
    && (forall k :: k in s2.edges && k !in s.seen ==>
          Unnarrowed(k) in s.edges && Narrowing(ns, KeyOf(s.edges[Unnarrowed(k)])).Some? &&
          s2.edges[k] == NarrowEdge(ns, s.edges[Unnarrowed(k)]))
  }

  ghost predicate Reclassified(g: Graph, g2: Graph) {
    g2 == g.(store := g2.store) && Replaced(g.nodes, g.store, Replaceable(g.nodes, g.store), g2.store)
  }

  lemma ReplacedStep(ns: seq<SymbolNode>, s: EdgeStore, done: set<EdgeKey>, s1: EdgeStore, k: EdgeKey, s2: EdgeStore)
    requires forall x :: x in s.edges ==> KeyOf(s.edges[x]) == x && x in s.seen
    requires Replaced(ns, s, done, s1) && done <= Replaceable(ns, s)
    requires k in Replaceable(ns, s) && k !in done
    requires s2 == Put(EdgeStore(map x | x in s1.edges && x != k :: s1.edges[x], s1.seen), NarrowEdge(ns, s.edges[k]))
    ensures Replaced(ns, s, done + {k}, s2)
  {
    hide GetNode, Evaluate, NarrowKind;
    var narrow := NarrowKey(ns, k);
    assert KeyOf(NarrowEdge(ns, s.edges[k])) == narrow && Unnarrowed(narrow) == k;
    assert forall x :: IsNarrowOf(ns, done + {k}, x) <==> IsNarrowOf(ns, done, x) || x == narrow;
  }

  method ReclassifyStringMatch(g: SymbolGraph)
    requires WellFormed(g.Value())
    modifies g`edges, g`edgeSet
    ensures WellFormed(g.Value()) && Reclassified(old(g.Value()), g.Value())
  {
    hide GetNode, Evaluate, NarrowKind, WellFormed, Replaced;
    ghost var start := g.Value();
    var replacements := set k | k in g.edges && Narrowing(g.nodes, k).Some?;
    var sources := g.edges;
    var rest := replacements;
    ReplacedNone(start);
    KeysOfEdges(start);
    assert replacements - rest == {};
    while rest != {}
      invariant rest <= replacements
      invariant g.Value() == start.(store := g.Value().store)
      invariant WellFormed(g.Value())
      invariant Replaced(start.nodes, start.store, replacements - rest, g.Value().store)
      decreases rest
    {
      var k :| k in rest;
      var coarse := sources[k];
      ghost var before := g.Value();
      NarrowEnds(start, k);
      KeysOfEdges(before);
      var keep := (e: DirectEdge) => !(e.from == coarse.from && e.to == coarse.to && e.kind.StringMatch?);
      RetainedWellFormed(before, keep);
      g.RetainEdges(keep);
      assert g.edges == map x | x in before.store.edges && x != k :: before.store.edges[x];
      var kind := Narrowing(g.nodes, k).value;
      var e := NewEdge(coarse.from, coarse.to, kind, coarse.origin, Evaluate(kind, coarse.origin), coarse.evidenceFile);
      var _ := g.InsertEdge(e);
      ReplacedStep(start.nodes, start.store, replacements - rest, before.store, k, g.Value().store);
      assert replacements - (rest - {k}) == replacements - rest + {k};
      rest := rest - {k};
    }
    assert replacements - rest == Replaceable(start.nodes, start.store);
  }

  lemma ReplacedNone(g: Graph)
    requires WellFormed(g)
    ensures forall done: set<EdgeKey> :: done == {} ==> Replaced(g.nodes, g.store, done, g.store)
  {
  }

  lemma KeysOfEdges(g: Graph)
    requires WellFormed(g)
    ensures forall x :: x in g.store.edges ==> KeyOf(g.store.edges[x]) == x && x in g.store.seen
  {
  }

  lemma NarrowEnds(g: Graph, k: EdgeKey)
    requires WellFormed(g) && k in g.store.edges && Narrowing(g.nodes, k).Some?
    ensures KeyOf(g.store.edges[k]) == k && k.kind.StringMatch?
    ensures GetNode(g.nodes, k.from).Some? && GetNode(g.nodes, k.to).Some?
  {
  }

  // ------------------------------------------------------------ what reclassification guarantees

  predicate IsMatchKind(kind: EdgeKind) {
    kind.StringMatch? || kind.EnumValueMatch? || kind.ApiPathMatch?
  }

  /** The pair is linked by one of the three match kinds. */
  ghost predicate Matched(s: EdgeStore, from: SymbolId, to: SymbolId) {
    exists kind :: IsMatchKind(kind) && EdgeKey(from, to, kind) in s.edges
  }

  /** No StringMatch edge is left between two enum variants or two API path literals. */
  lemma NoCoarseMatchLeft(g: Graph, g2: Graph)
    requires WellFormed(g) && Reclassified(g, g2)
    ensures Replaceable(g2.nodes, g2.store) == {}
  {
    hide GetNode, NarrowKind, Evaluate;
  }

  /** The same pairs stay linked: a match is narrowed, never lost and never invented. */
  lemma MatchedPairsUnchanged(g: Graph, g2: Graph, from: SymbolId, to: SymbolId)
    requires WellFormed(g) && Reclassified(g, g2)
    ensures Matched(g2.store, from, to) <==> Matched(g.store, from, to)
  {
    hide GetNode, Evaluate, NodesOk, NameIndexed, QualifiedIndexed;
    if Matched(g.store, from, to) {
      var kind :| IsMatchKind(kind) && EdgeKey(from, to, kind) in g.store.edges;
      var k := EdgeKey(from, to, kind);
      if k in Replaceable(g.nodes, g.store) {
        var narrow := NarrowKey(g.nodes, k);
        assert Unnarrowed(narrow) == k;
        assert IsNarrowOf(g.nodes, Replaceable(g.nodes, g.store), narrow);
        assert EdgeKey(from, to, narrow.kind) in g2.store.edges;
      } else {
        assert k in g2.store.edges;
      }
    }
    if Matched(g2.store, from, to) {
      var kind :| IsMatchKind(kind) && EdgeKey(from, to, kind) in g2.store.edges;
      var k := EdgeKey(from, to, kind);
      if k !in g.store.edges {
        assert EdgeKey(from, to, StringMatch) in g.store.edges;
      }
    }
  }

  /** Every edge of another kind, and every StringMatch edge with no narrower kind, is untouched. */
  lemma OtherEdgesUntouched(g: Graph, g2: Graph, k: EdgeKey)
    requires WellFormed(g) && Reclassified(g, g2)
    requires !k.kind.EnumValueMatch? && !k.kind.ApiPathMatch? && Narrowing(g.nodes, k).None?
    ensures k in g2.store.edges <==> k in g.store.edges
    ensures k in g.store.edges ==> g2.store.edges[k] == g.store.edges[k]
  {
    hide GetNode, Evaluate, NodesOk, NameIndexed, QualifiedIndexed;
  }

  lemma ReclassifyIdempotent(g: Graph, g1: Graph, g2: Graph)
    requires WellFormed(g) && Reclassified(g, g1) && Reclassified(g1, g2)
    ensures g2 == g1
  {
    hide GetNode, NarrowKind, Evaluate, WellFormed, Replaced, Replaceable;
    NoCoarseMatchLeft(g, g1);
    NarrowedSeen(g, g1);
    NothingReplaced(g1.nodes, g1.store, g2.store);
  }

  lemma NothingReplaced(ns: seq<SymbolNode>, s: EdgeStore, s2: EdgeStore)
    requires Replaced(ns, s, {}, s2) && forall k :: k in s.edges ==> k in s.seen
    ensures s2 == s
  {
    hide Narrowing;
    assert s2.seen == s.seen;
    assert s2.edges.Keys == s.edges.Keys;
    assert s2.edges == s.edges;
  }

  lemma NarrowedSeen(g: Graph, g1: Graph)
    requires WellFormed(g) && Reclassified(g, g1)
    ensures forall k :: k in g1.store.edges ==> k in g1.store.seen
  {
    hide GetNode, NarrowKind, Evaluate, NodesOk, NameIndexed, QualifiedIndexed;
  }

  /**
    The replaced key stays seen: the string matcher of the next rebuild is told that its edge was
    inserted, but the coarse edge does not come back.
   */
  lemma CoarseMatchStaysAway(g: Graph, g2: Graph, e: DirectEdge)
    requires WellFormed(g) && Reclassified(g, g2)
    requires KeyOf(e) in g.store.edges && Narrowing(g.nodes, KeyOf(e)).Some?
    ensures Known(g2, e) && WithEdge(g2, e) == g2 && KeyOf(e) !in g2.store.edges
  {
    hide GetNode, NarrowKind, Evaluate, NodesOk, NameIndexed, QualifiedIndexed;
  }

  /** Inserting an edge between known nodes leaves its key present unless the key was seen with its edge gone. */
  lemma TrueAnswerMeansPresent(g: Graph, e: DirectEdge)
    requires Known(g, e)
    ensures KeyOf(e) in WithEdge(g, e).store.edges <==> !(KeyOf(e) in g.store.seen && KeyOf(e) !in g.store.edges)
    ensures WellFormed(g) && !e.kind.StringMatch? ==> KeyOf(e) in WithEdge(g, e).store.edges
  {
    hide NodesOk, NameIndexed, QualifiedIndexed, GetNode;
  }
}
