/** Which matches are narrowed to which kind, with the kinds and the prefix written out. */
module NarrowedMatches {
  import opened Symbols
  import opened NodeQueries
  import opened SymbolGraphs
  import opened Reclassify

  /** A string literal that stands for an API path. */
  predicate ApiPathLiteral(n: SymbolNode) {
    n.kind == StringLiteral && |n.name| >= 10 && n.name[..10] == "api_path::"
  }

  /** The confidence of a narrowed match, three quarters of what its origin is worth. */
  function NarrowConfidence(origin: AnalysisOrigin): real {
    match origin
    case CompilerDerived => 0.7425
    case NameResolved => 0.7125
    case SyntaxMatched => 0.6375
    case PatternMatched => 0.45
    case ConventionInferred => 0.3
    case Dynamic => 0.15
  }

  lemma NarrowKindMeaning(g: Graph, a: SymbolNode, b: SymbolNode)
    requires NodesOk(g.nodes, g.nextId) && a in g.nodes && b in g.nodes
    ensures var narrow := Narrowing(g.nodes, EdgeKey(a.id, b.id, StringMatch));
            narrow == if a.kind == EnumVariant && b.kind == EnumVariant then Some(EnumValueMatch)
                      else if ApiPathLiteral(a) && ApiPathLiteral(b) then Some(ApiPathMatch)
                      else None
  {
    hide GetNode;
    GetNodeFinds(g.nodes, a.id);
    GetNodeFinds(g.nodes, b.id);
    assert forall n: SymbolNode :: |n.name| >= 10 && n.name[..10] == "api_path::" <==> "api_path::" <= n.name;
  }

  /** A replaced match has its narrow edge afterwards, and no coarse one. */
  lemma Narrowed(g: Graph, g2: Graph, a: SymbolNode, b: SymbolNode, kind: EdgeKind)
    requires WellFormed(g) && Reclassified(g, g2) && a in g.nodes && b in g.nodes
    requires EdgeKey(a.id, b.id, StringMatch) in g.store.edges
    requires Narrowing(g.nodes, EdgeKey(a.id, b.id, StringMatch)) == Some(kind)
    ensures EdgeKey(a.id, b.id, StringMatch) !in g2.store.edges && EdgeKey(a.id, b.id, kind) in g2.store.edges
    ensures EdgeKey(a.id, b.id, kind) !in g.store.edges ==>
              var match_ := g.store.edges[EdgeKey(a.id, b.id, StringMatch)];
              var e := g2.store.edges[EdgeKey(a.id, b.id, kind)];
              && e.evidenceFile == match_.evidenceFile && e.origin == match_.origin && e.staleEvidenceCount == 0
              && e.createdAtEpoch == 0 && e.confidence == Evaluate(kind, match_.origin)
  {
    hide GetNode, Evaluate, NodesOk, NameIndexed, QualifiedIndexed;
    var k := EdgeKey(a.id, b.id, StringMatch);
    assert k in Replaceable(g.nodes, g.store);
    assert Unnarrowed(EdgeKey(a.id, b.id, kind)) == k;
    assert IsNarrowOf(g.nodes, Replaceable(g.nodes, g.store), EdgeKey(a.id, b.id, kind));
  }

  lemma NarrowScores(origin: AnalysisOrigin)
    ensures Evaluate(EnumValueMatch, origin) == NarrowConfidence(origin)
    ensures Evaluate(ApiPathMatch, origin) == NarrowConfidence(origin)
  {
  }

  /**
    A match of two enum variants becomes an EnumValueMatch, one of two API path literals an ApiPathMatch,
    with the evidence and the origin of the match it replaces; every other match stays as it is.
   */
  lemma MatchesNarrowByKind(g: Graph, g2: Graph, a: SymbolNode, b: SymbolNode)
    requires WellFormed(g) && Reclassified(g, g2) && a in g.nodes && b in g.nodes
    requires EdgeKey(a.id, b.id, StringMatch) in g.store.edges
    ensures var coarse := EdgeKey(a.id, b.id, StringMatch);
            var narrow := EdgeKey(a.id, b.id, if a.kind == EnumVariant then EnumValueMatch else ApiPathMatch);
            var match_ := g.store.edges[coarse];
            if (a.kind == EnumVariant && b.kind == EnumVariant) || (ApiPathLiteral(a) && ApiPathLiteral(b)) then
              && coarse !in g2.store.edges && narrow in g2.store.edges
              && (narrow !in g.store.edges ==>
                    && g2.store.edges[narrow].evidenceFile == match_.evidenceFile
                    && g2.store.edges[narrow].origin == match_.origin
                    && g2.store.edges[narrow].confidence == NarrowConfidence(match_.origin))
            else coarse in g2.store.edges && g2.store.edges[coarse] == match_
  {
    hide WellFormed, Reclassified, Narrowing, Evaluate;
    NodesAreOk(g);
    NarrowKindMeaning(g, a, b);
    var narrow := Narrowing(g.nodes, EdgeKey(a.id, b.id, StringMatch));
    if narrow.Some? {
      Narrowed(g, g2, a, b, narrow.value);
      NarrowScores(g.store.edges[EdgeKey(a.id, b.id, StringMatch)].origin);
    } else {
      OtherEdgesUntouched(g, g2, EdgeKey(a.id, b.id, StringMatch));
    }
  }

  lemma NodesAreOk(g: Graph)
    requires WellFormed(g)
    ensures NodesOk(g.nodes, g.nextId)
  {
  }
}
