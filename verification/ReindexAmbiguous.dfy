/** An edit after which the first two fast reindexes put one edge at two different symbols. */
module ReindexAmbiguous {
  import opened Symbols
  import opened NodeQueries
  import opened SymbolGraphs
  import opened FileRemoval
  import opened Reindex
  import opened ReindexProperties
  import opened ReindexRepeat

  // A caller in one file, its callee in another; the edited file defines two symbols of one qualified name.
  const CALLER_FILE: Path := ["a"]
  const EDITED: Path := ["b"]
  const CALLER := SymbolNode(0, Function, "c", "c", CALLER_FILE, 0, 1, Public)
  const CALLEE := SymbolNode(1, Function, "f", "f", EDITED, 0, 1, Public)
  const CALL := DirectEdge(0, 1, Calls, NameResolved, 0.9, CALLER_FILE, 0, 0)
  const CALL_GRAPH := Graph([CALLER, CALLEE], EdgeStore(map[KeyOf(CALL) := CALL], {KeyOf(CALL)}), 2,
                            map["c" := [0], "f" := [1]], map[])
  const TWINS := [SymbolNode(0, Function, "e", "m", EDITED, 0, 1, Public),
                  SymbolNode(0, Function, "f", "m", EDITED, 2, 3, Public)]

  lemma CallGraphWellFormed()
    ensures WellFormed(CALL_GRAPH) && InPath(TWINS, EDITED)
  {
    assert CALL_GRAPH.nodes[0] == CALLER && CALL_GRAPH.nodes[1] == CALLEE;
    assert CALLER in CALL_GRAPH.nodes && CALLEE in CALL_GRAPH.nodes;
    assert "c"[0] != "f"[0];
  }

  lemma CallIsCaptured()
    ensures IsCaptured(CALL_GRAPH, EDITED, KeyOf(CALL))
    ensures var cap := Capture(CALL_GRAPH, EDITED, KeyOf(CALL));
            cap.fileQname == "f" && cap.fileName == "f" && cap.incoming && cap.otherId == 0
  {
    assert "a"[0] != "b"[0];
    CallGraphWellFormed();
    assert CALL_GRAPH.nodes[0] == CALLER && CALL_GRAPH.nodes[1] == CALLEE;
    assert CALLER in CALL_GRAPH.nodes && CALLEE in CALL_GRAPH.nodes;
    InFileOf(CALL_GRAPH.nodes, EDITED, CALLER);
    InFileOf(CALL_GRAPH.nodes, EDITED, CALLEE);
    GetNodeFinds(CALL_GRAPH.nodes, 1);
    UniqueCallee();
  }

  lemma UniqueCallee()
    ensures GetNode(CALL_GRAPH.nodes, 1) == Some(CALLEE)
  {
    hide Select;
    CallGraphWellFormed();
    assert CALL_GRAPH.nodes[1] == CALLEE;
    GetNodeFinds(CALL_GRAPH.nodes, 1);
    UniqueIdsMeanSameNode(CALL_GRAPH.nodes, CALLEE, GetNode(CALL_GRAPH.nodes, 1).value);
  }

  lemma FewBearers(key: string)
    ensures |OutsideList(CALL_GRAPH, CALL_GRAPH.nameIndex, EDITED, key)| <= 1
    ensures |OutsideList(CALL_GRAPH, CALL_GRAPH.qualifiedIndex, EDITED, key)| == 0
  {
    hide FileIds;
    assert |View(CALL_GRAPH.nameIndex, key)| <= 1 && |View(CALL_GRAPH.qualifiedIndex, key)| == 0;
    AtMostAll(View(CALL_GRAPH.nameIndex, key), Members(FileIds(CALL_GRAPH.nodes, EDITED)));
    AtMostAll(View(CALL_GRAPH.qualifiedIndex, key), Members(FileIds(CALL_GRAPH.nodes, EDITED)));
  }

  lemma {:induction false} AtMostAll(ids: seq<SymbolId>, gone: set<SymbolId>)
    ensures |WithoutAll(ids, gone)| <= |ids|
  {
    if ids != [] {
      AtMostAll(ids[1..], gone);
    }
  }

  /** The names lead to the second twin by bare name, but the second twin's own names lead to the first. */
  lemma TwinLookups()
    ensures RelinkIndex(CALL_GRAPH, EDITED, TWINS, "f", "f") == Some(1)
    ensures RelinkIndex(CALL_GRAPH, EDITED, TWINS, "m", "f") == Some(0)
  {
    hide FirstMatch, OutsideList;
    FewBearers("f");
    FewBearers("m");
    assert "e"[0] != "f"[0] && "m"[0] != "f"[0] && "e"[0] != "m"[0];
    assert TWINS[0] in TWINS && TWINS[1] in TWINS;
    assert Matches(Named("f"), TWINS[1]) && Matches(QualifiedAs("m"), TWINS[0]);
    assert !Matches(Named("f"), TWINS[0]) && !Matches(QualifiedAs("f"), TWINS[0]) &&
           !Matches(QualifiedAs("f"), TWINS[1]);
  }

  /** Hence one pass does not settle this file. */
  lemma OnePassDoesNotSettle(order: seq<EdgeKey>, g2: Graph, g3: Graph, t: FileReindexTelemetry)
    requires WellFormed(g3) && ReindexedBy(CALL_GRAPH, EDITED, Some(TWINS), order, g2, g3, t)
    ensures !Settled(g3, EDITED, TWINS, CALL_GRAPH.nextId)
  {
    hide WellFormed, ReindexedBy, IsCaptured, RelinkIndex, Settled, InPath;
    CallGraphWellFormed();
    CallIsCaptured();
    TwinLookups();
    OnePassSettlesIff(CALL_GRAPH, EDITED, TWINS, order, g2, g3, t);
    assert !FoundAgain(CALL_GRAPH, EDITED, TWINS, KeyOf(CALL));
  }

  /** The call goes to the second twin after the first pass and to the first twin after the second. */
  lemma CallMovesOnSecondPass(order: seq<EdgeKey>, g2: Graph, g3: Graph, t: FileReindexTelemetry,
                              order2: seq<EdgeKey>, g4: Graph, g5: Graph, t2: FileReindexTelemetry)
    requires WellFormed(g3) && ReindexedBy(CALL_GRAPH, EDITED, Some(TWINS), order, g2, g3, t)
    requires ReindexedBy(g3, EDITED, Some(TWINS), order2, g4, g5, t2)
    ensures EdgeKey(0, CALL_GRAPH.nextId + 1, Calls) in g3.store.edges
    ensures EdgeKey(0, g3.nextId + 0, Calls) in g5.store.edges
  {
    hide WellFormed, ReindexedBy, IsCaptured, RelinkIndex, InPath, NameOf, QualifiedNameOf, InFile, InsideKey,
         ComesFrom;
    CallGraphWellFormed();
    CallIsCaptured();
    TwinLookups();
    var g, c := CALL_GRAPH, KeyOf(CALL);
    RelinkedSide(g, EDITED, TWINS, order, g2, g3, t, c);
    var k := EdgeKey(0, g.nextId + 1, Calls);
    assert k == KeyOf(RelinkedEdge(Capture(g, EDITED, c), g.nextId + 1));
    var c2 :| ComesFrom(g, EDITED, TWINS, g3, c2, k);
    MovedIsCaptured(g, order, g2, g3, t, c2, k);
    IndexKept(g, EDITED, TWINS, order, g2, g3, t, "m", "f");
    RelinkedPresent(g3, EDITED, TWINS, order2, g4, g5, t2, k);
  }

  lemma MovedIsCaptured(g: Graph, order: seq<EdgeKey>, g2: Graph, g3: Graph, t: FileReindexTelemetry, c: EdgeKey,
                        k: EdgeKey)
    requires WellFormed(g) && g == CALL_GRAPH && ReindexedBy(g, EDITED, Some(TWINS), order, g2, g3, t) &&
             InPath(TWINS, EDITED)
    requires ComesFrom(g, EDITED, TWINS, g3, c, k) && k == EdgeKey(0, g.nextId + 1, Calls)
    ensures IsCaptured(g3, EDITED, k) && k in g3.store.edges
    ensures var cap := Capture(g3, EDITED, k);
            cap.fileQname == "m" && cap.fileName == "f" && cap.incoming && cap.otherId == 0 && cap.kind == Calls
  {
    hide WellFormed, ReindexedBy, InFile, NameOf, QualifiedNameOf, RelinkIndex;
    OriginSide(g, EDITED, TWINS, order, g2, g3, t, c, k);
    OriginEnds(g, EDITED, TWINS, order, g2, g3, t, c, k);
    assert TWINS[1].name == "f" && TWINS[1].qualifiedName == "m";
  }
}
