/** When a further pass over an unchanged file does nothing but rename and age. */
module ReindexSettled {
  import opened Symbols
  import opened NodeQueries
  import opened SymbolGraphs
  import opened Reindex
  import opened ReindexProperties
  import opened ReindexRepeat

  /** An edge of the file keeps its ends on their sides under the renaming. */
  lemma ImageEnds(g: Graph, path: Path, ts: seq<SymbolNode>, base: nat, g3: Graph, k: EdgeKey)
    requires Holds(g, path, ts, base) && Holds(g3, path, ts, g.nextId) && InPath(ts, path) && k in g.store.edges
    ensures var k2 := ShiftKey(base, |ts|, k);
            && (InFile(g3.nodes, path, k2.from) <==> InFile(g.nodes, path, k.from))
            && (InFile(g3.nodes, path, k2.to) <==> InFile(g.nodes, path, k.to))
            && (InFile(g.nodes, path, k.from) <==> k.from >= base) && (InFile(g.nodes, path, k.to) <==> k.to >= base)
  {
    hide InFile, WellFormed, Stamped;
    EdgesAreSeen(g);
    LiveEnds(g, k);
    FileIdsFromBase(g, path, ts, base, k.from);
    FileIdsFromBase(g, path, ts, base, k.to);
    FileIdsFromBase(g3, path, ts, g.nextId, Shift(base, |ts|, k.from));
    FileIdsFromBase(g3, path, ts, g.nextId, Shift(base, |ts|, k.to));
  }

  lemma EdgesAreSeen(g: Graph)
    requires WellFormed(g)
    ensures forall k :: k in g.store.edges ==> k in g.store.seen
  {
    hide NodesOk, NameIndexed, QualifiedIndexed;
  }

  /** A captured edge put `k2` where it is. */
  lemma OriginOf(g: Graph, path: Path, ts: seq<SymbolNode>, order: seq<EdgeKey>, g2: Graph, g3: Graph,
                 t: FileReindexTelemetry, k2: EdgeKey) returns (c: EdgeKey, at: nat)
    requires WellFormed(g) && InPath(ts, path) && ReindexedBy(g, path, Some(ts), order, g2, g3, t)
    requires k2 in g3.store.edges && InsideKey(g3.nodes, path, k2)
    ensures IsCaptured(g, path, c) && CaptureIndex(g, path, ts, Capture(g, path, c)) == Some(at) && at < |ts|
    ensures FileSide(g3, path, k2) == g.nextId + at
    ensures InFile(g.nodes, path, c.from) != InFile(g.nodes, path, c.to)
    ensures InFile(g3.nodes, path, k2.to) == InFile(g.nodes, path, c.to)
    ensures InFile(g3.nodes, path, k2.from) == InFile(g.nodes, path, c.from)
    ensures g3.store.edges[k2].evidenceFile != path
  {
    hide WellFormed, ReindexedBy, InFile, InsideKey, RelinkIndex, NameOf, QualifiedNameOf, Select, FileSide;
    EdgeOrigin(g, path, ts, order, g2, g3, t, k2);
    c :| ComesFrom(g, path, ts, g3, c, k2);
    OriginEnds(g, path, ts, order, g2, g3, t, c, k2);
    at := CaptureIndex(g, path, ts, Capture(g, path, c)).value;
  }

  /** After a pass that only renames, each edge of the file was put there by a captured edge that found its symbol. */
  lemma PutThereBy(g: Graph, path: Path, ts: seq<SymbolNode>, base: nat, order: seq<EdgeKey>, g2: Graph, g3: Graph,
                   t: FileReindexTelemetry, k: EdgeKey) returns (c: EdgeKey)
    requires Holds(g, path, ts, base) && WellFormed(g3) && InPath(ts, path)
    requires ReindexedBy(g, path, Some(ts), order, g2, g3, t) && Renamed(g, path, base, |ts|, 1, g3)
    requires k in g.store.edges && InsideKey(g.nodes, path, k)
    ensures IsCaptured(g, path, c) && InsideKey(g.nodes, path, c)
    ensures FileSide(g, path, k) >= base
    ensures CaptureIndex(g, path, ts, Capture(g, path, c)) == Some(FileSide(g, path, k) - base)
    ensures FileSide(g, path, k) - base < |ts|
    ensures g.store.edges[k].evidenceFile != path && InFile(g.nodes, path, k.from) != InFile(g.nodes, path, k.to)
  {
    hide WellFormed, ReindexedBy, InFile, CaptureIndex, Capture, IsCaptured, Stamped, Renamed;
    var k2 := ShiftKey(base, |ts|, k);
    PassHolds(g, path, ts, order, g2, g3, t);
    ImageEnds(g, path, ts, base, g3, k);
    RenamedEdge(g, path, base, |ts|, 1, g3, k);
    var at;
    c, at := OriginOf(g, path, ts, order, g2, g3, t, k2);
  }

  /** The edge that put it there was itself put there by another, so its symbol is found by a second lookup. */
  lemma RenamedKeySettled(g: Graph, path: Path, ts: seq<SymbolNode>, base: nat, order: seq<EdgeKey>, g2: Graph,
                          g3: Graph, t: FileReindexTelemetry, k: EdgeKey)
    requires Holds(g, path, ts, base) && WellFormed(g3) && InPath(ts, path)
    requires ReindexedBy(g, path, Some(ts), order, g2, g3, t) && Renamed(g, path, base, |ts|, 1, g3)
    requires k in g.store.edges && InsideKey(g.nodes, path, k)
    ensures SettledKey(g, path, ts, base, k)
  {
    hide Holds, Renamed, ReindexedBy, InFile, RelinkIndex, NameOf, QualifiedNameOf, InsideKey;
    var c := PutThereBy(g, path, ts, base, order, g2, g3, t, k);
    var c2 := PutThereBy(g, path, ts, base, order, g2, g3, t, c);
    var i, j := FileSide(g, path, k) - base, FileSide(g, path, c) - base;
    FileSideNames(g, path, ts, base, i);
    FileSideNames(g, path, ts, base, j);
    var cap := Capture(g, path, c2);
    SecondLookupSettles(g, path, ts, cap.fileQname, cap.fileName);
  }

  /**
    For a graph that holds the file's symbols as its newest nodes: a pass over the unchanged file does
    nothing but rename the file's ids and age its edges by one if and only if the graph is settled.
   */
  lemma RenamesIffSettled(g: Graph, path: Path, ts: seq<SymbolNode>, base: nat, order: seq<EdgeKey>, g2: Graph,
                          g3: Graph, t: FileReindexTelemetry)
    requires Holds(g, path, ts, base) && WellFormed(g3) && InPath(ts, path)
    requires ReindexedBy(g, path, Some(ts), order, g2, g3, t)
    ensures Renamed(g, path, base, |ts|, 1, g3) <==> Settled(g, path, ts, base)
  {
    hide ReindexedBy, Renamed, SettledKey, InsideKey;
    if Settled(g, path, ts, base) {
      SettledPass(g, path, ts, base, order, g2, g3, t);
    }
    if Renamed(g, path, base, |ts|, 1, g3) {
      forall k | k in g.store.edges && InsideKey(g.nodes, path, k) ensures SettledKey(g, path, ts, base, k) {
        RenamedKeySettled(g, path, ts, base, order, g2, g3, t, k);
      }
    }
  }

  /**
    What a caller sees of two passes: the second one only renames and ages if and only if each symbol
    that a captured edge finds in the first is found again under its own names, which is decided on the
    input graph and the extraction.
   */
  lemma SecondPassRenamesIff(g: Graph, path: Path, ts: seq<SymbolNode>,
                             order: seq<EdgeKey>, g2: Graph, g3: Graph, t: FileReindexTelemetry,
                             order2: seq<EdgeKey>, g4: Graph, g5: Graph, t2: FileReindexTelemetry)
    requires WellFormed(g) && WellFormed(g3) && WellFormed(g5) && InPath(ts, path)
    requires ReindexedBy(g, path, Some(ts), order, g2, g3, t)
    requires ReindexedBy(g3, path, Some(ts), order2, g4, g5, t2)
    ensures Renamed(g3, path, g.nextId, |ts|, 1, g5) <==> forall c :: FoundAgain(g, path, ts, c)
  {
    hide WellFormed, ReindexedBy, Renamed, Settled, FoundAgain, Holds;
    PassHolds(g, path, ts, order, g2, g3, t);
    OnePassSettlesIff(g, path, ts, order, g2, g3, t);
    RenamesIffSettled(g3, path, ts, g.nextId, order2, g4, g5, t2);
  }
}
