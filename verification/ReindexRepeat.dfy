/**
  Reindexing an unchanged file again and again: the graph only changes by renaming the file's
  fresh ids, and each edge of the file ages by exactly one.
 */
module ReindexRepeat {
  import opened Symbols
  import opened NodeQueries
  import opened SymbolGraphs
  import opened FileRemoval
  import opened Reindex
  import opened ReindexProperties
  import opened Confidence

  // ------------------------------------------------------------ where an edge of the file comes from

  /** An edge that touches the file was captured, found its symbol by name, and was aged once. */
  ghost predicate ComesFrom(g: Graph, path: Path, ts: seq<SymbolNode>, g3: Graph, c: EdgeKey, k: EdgeKey) {
    && IsCaptured(g, path, c) && k in g3.store.edges
    && var at := CaptureIndex(g, path, ts, Capture(g, path, c));
    && at.Some? && at.value < |ts|
    && g3.store.edges[k] == RelinkedEdge(Capture(g, path, c), g.nextId + at.value)
    && KeyOf(g3.store.edges[k]) == k
  }

  lemma IndexInRange(g: Graph, path: Path, ts: seq<SymbolNode>, q: string, s: string)
    ensures var at := RelinkIndex(g, path, ts, q, s); at.Some? ==> at.value < |ts|
  {
    hide FirstMatch, OutsideList;
  }

  lemma EdgeOrigin(g: Graph, path: Path, ts: seq<SymbolNode>, order: seq<EdgeKey>, g2: Graph, g3: Graph,
                   t: FileReindexTelemetry, k: EdgeKey)
    requires WellFormed(g) && InPath(ts, path)
    requires ReindexedBy(g, path, Some(ts), order, g2, g3, t)
    requires k in g3.store.edges && InsideKey(g3.nodes, path, k)
    ensures exists c :: ComesFrom(g, path, ts, g3, c, k)
  {
    hide WellFormed, WithoutFile, InFile, InsideKey, RelinkedEdges, RelinkedEdge, PutAll, Stamped, Grows, Relink,
         RelinkIndex, Captures, Capture, GetNode, IsCaptured, Enumerates, Select, EvidencedIn;
    var c := RelinkedFrom(g, path, Some(ts), order, g2, g3, t, k);
    var cap := Capture(g, path, c);
    RelinkMeaning(g, path, ts, g2, cap);
    DroppedExactly(g, path, ts, g2, c);
    IndexInRange(g, path, ts, cap.fileQname, cap.fileName);
    assert ComesFrom(g, path, ts, g3, c, k);
  }

  /** The ends of such an edge: the fresh node of the file and the old node outside it. */
  lemma OriginEnds(g: Graph, path: Path, ts: seq<SymbolNode>, order: seq<EdgeKey>, g2: Graph, g3: Graph,
                   t: FileReindexTelemetry, c: EdgeKey, k: EdgeKey)
    requires WellFormed(g) && InPath(ts, path)
    requires ReindexedBy(g, path, Some(ts), order, g2, g3, t)
    requires ComesFrom(g, path, ts, g3, c, k)
    ensures var at := CaptureIndex(g, path, ts, Capture(g, path, c)).value;
            && (if InFile(g.nodes, path, c.to) then k.to == g.nextId + at && k.from == c.from && k.from < g.nextId
                else k.from == g.nextId + at && k.to == c.to && k.to < g.nextId)
            && FileSide(g3, path, k) == g.nextId + at
            && InFile(g3.nodes, path, k.to) == InFile(g.nodes, path, c.to)
            && InFile(g3.nodes, path, k.from) == InFile(g.nodes, path, c.from)
            && NameOf(g3, g.nextId + at) == ts[at].name && QualifiedNameOf(g3, g.nextId + at) == ts[at].qualifiedName
  {
    hide Select, WithoutFile, InFile, RelinkedEdges, PutAll, NameIndexed, QualifiedIndexed, StoreOk, Stamped,
         RelinkIndex, NameOf, QualifiedNameOf, Captures, Enumerates, IndexAll, IndexAllQualified;
    ExtractedNodes(g, path, ts, g2);
    OtherEndLives(g, path, ts, g2, c);
    var at := CaptureIndex(g, path, ts, Capture(g, path, c)).value;
    StampedNode(ts, g.nextId, at, g3, path);
    CapturedEnds(g, path, c);
    assert forall id :: id in Ids(g.nodes) ==> id < g.nextId;
  }

  lemma CapturedEnds(g: Graph, path: Path, c: EdgeKey)
    requires WellFormed(g) && IsCaptured(g, path, c)
    ensures KeyOf(g.store.edges[c]) == c && InFile(g.nodes, path, c.from) != InFile(g.nodes, path, c.to)
    ensures c.from in Ids(g.nodes) && c.to in Ids(g.nodes)
  {
    hide InFile, NameIndexed, QualifiedIndexed, NodesOk;
  }

  lemma StampedNode(ts: seq<SymbolNode>, base: nat, at: nat, g3: Graph, path: Path)
    requires at < |ts| && InPath(ts, path) && UniqueIds(g3.nodes)
    requires forall n :: n in g3.nodes && n.file == path <==> n in Stamped(ts, base)
    ensures InFile(g3.nodes, path, base + at)
    ensures NameOf(g3, base + at) == ts[at].name && QualifiedNameOf(g3, base + at) == ts[at].qualifiedName
  {
    hide InFile, Select;
    var n := Stamped(ts, base)[at];
    assert n in Stamped(ts, base) && ts[at] in ts;
    InFileMeaning(g3.nodes, path, base + at);
    GetNodeFinds(g3.nodes, base + at);
  }

  // ------------------------------------------------------------ the name lookup settles

  /** Symbol `at` of the file is found again under its own names. */
  ghost predicate Stable(g: Graph, path: Path, ts: seq<SymbolNode>, at: nat) {
    && at < |ts| && !(ts[at].name == "" && ts[at].qualifiedName == "")
    && RelinkIndex(g, path, ts, ts[at].qualifiedName, ts[at].name) == Some(at)
  }

  /** Symbols of one qualified name bear one bare name, as overloads do. */
  ghost predicate SharesNames(m: SymbolNode, n: SymbolNode) {
    HasQualifiedKey(m) && m.qualifiedName == n.qualifiedName ==> m.name == n.name
  }

  ghost predicate Unambiguous(ts: seq<SymbolNode>) {
    forall i, j :: 0 <= i < |ts| && 0 <= j < |ts| ==> SharesNames(ts[i], ts[j])
  }

  lemma UnambiguousSettles(g: Graph, path: Path, ts: seq<SymbolNode>, q: string, s: string)
    requires Unambiguous(ts) && RelinkIndex(g, path, ts, q, s).Some?
    ensures Stable(g, path, ts, RelinkIndex(g, path, ts, q, s).value)
  {
    hide OutsideList, FirstMatch;
    var at := RelinkIndex(g, path, ts, q, s).value;
    var own := FirstMatch(ts, QualifiedAs(ts[at].qualifiedName));
    if own.Some? {
      assert SharesNames(ts[own.value], ts[at]);
    }
  }

  lemma SecondLookupSettles(g: Graph, path: Path, ts: seq<SymbolNode>, q: string, s: string)
    requires RelinkIndex(g, path, ts, q, s).Some?
    requires var n := ts[RelinkIndex(g, path, ts, q, s).value]; RelinkIndex(g, path, ts, n.qualifiedName, n.name).Some?
    ensures var n := ts[RelinkIndex(g, path, ts, q, s).value];
            Stable(g, path, ts, RelinkIndex(g, path, ts, n.qualifiedName, n.name).value)
  {
    hide OutsideList, FirstMatch;
    var n := ts[RelinkIndex(g, path, ts, q, s).value];
    var m := ts[RelinkIndex(g, path, ts, n.qualifiedName, n.name).value];
    var _ := RelinkIndex(g, path, ts, m.qualifiedName, m.name);
  }

  /** The lists of outside bearers of a name are the same before and after a pass. */
  lemma OutsideListsKept(g: Graph, path: Path, ts: seq<SymbolNode>, order: seq<EdgeKey>, g2: Graph, g3: Graph,
                         t: FileReindexTelemetry, key: string)
    requires WellFormed(g) && InPath(ts, path)
    requires ReindexedBy(g, path, Some(ts), order, g2, g3, t)
    ensures OutsideList(g3, g3.nameIndex, path, key) == OutsideList(g, g.nameIndex, path, key)
    ensures OutsideList(g3, g3.qualifiedIndex, path, key) == OutsideList(g, g.qualifiedIndex, path, key)
  {
    hide WellFormed, Select, WithoutFile, WithoutAll, View, InFile, IndexAll, IndexAllQualified, IdsOf,
         RelinkedEdges, PutAll, Captures, Enumerates, OutsideList, FileIds, Stamped;
    var g1, ins := WithoutFile(g, path), Stamped(ts, g.nextId);
    FileGone(g, path);
    ExtractedNodes(g, path, ts, g2);
    IndexAllView(g1.nameIndex, ins, key);
    IndexAllView(g1.qualifiedIndex, ins, key);
    OutsideLives(g, path, key, g3);
    OutsideKept(g3, path, g3.nameIndex, key, OutsideList(g, g.nameIndex, path, key), IdsOf(Select(Named(key), ins)),
                ins, Named(key));
    OutsideKept(g3, path, g3.qualifiedIndex, key, OutsideList(g, g.qualifiedIndex, path, key),
                IdsOf(Select(QualifiedAs(key), ins)), ins, QualifiedAs(key));
  }

  lemma OutsideKept(g3: Graph, path: Path, index: map<string, seq<SymbolId>>, key: string, outside: seq<SymbolId>,
                    inside: seq<SymbolId>, ins: seq<SymbolNode>, q: NodeQuery)
    requires UniqueIds(g3.nodes) && View(index, key) == outside + inside
    requires Outside(g3.nodes, outside, path) && inside == IdsOf(Select(q, ins))
    requires forall n :: n in ins ==> n in g3.nodes && n.file == path
    ensures OutsideList(g3, index, path, key) == outside
  {
    hide Select, View, WithoutAll, InFile, IdsOf;
    var gone := Members(FileIds(g3.nodes, path));
    InsideLives(ins, path, q, g3.nodes);
    forall id | id in outside ensures id !in gone {
      var n :| n in g3.nodes && n.id == id && n.file != path;
      InFileOf(g3.nodes, path, n);
      NotInFile(g3.nodes, path, id);
    }
    forall id | id in inside ensures id in gone {
      InFileMeaning(g3.nodes, path, id);
      NotInFile(g3.nodes, path, id);
    }
    WithoutAllConcat(outside, inside, gone);
    WithoutAllNone(outside, gone);
    WithoutAllGone(inside, gone);
    assert outside + [] == outside;
  }

  lemma NotInFile(ns: seq<SymbolNode>, path: Path, id: SymbolId)
    ensures id in Members(FileIds(ns, path)) <==> InFile(ns, path, id)
  {
    hide FileIds;
  }

  lemma IndexKept(g: Graph, path: Path, ts: seq<SymbolNode>, order: seq<EdgeKey>, g2: Graph, g3: Graph,
                  t: FileReindexTelemetry, q: string, s: string)
    requires WellFormed(g) && InPath(ts, path)
    requires ReindexedBy(g, path, Some(ts), order, g2, g3, t)
    ensures RelinkIndex(g3, path, ts, q, s) == RelinkIndex(g, path, ts, q, s)
  {
    hide WellFormed, ReindexedBy, OutsideList, FirstMatch;
    OutsideListsKept(g, path, ts, order, g2, g3, t, q);
    OutsideListsKept(g, path, ts, order, g2, g3, t, s);
  }

  // ------------------------------------------------------------ settled graphs

  /** The file holds exactly `ts` under the ids from `base`, the newest of the graph. */
  ghost predicate Holds(g: Graph, path: Path, ts: seq<SymbolNode>, base: nat) {
    && WellFormed(g) && g.nextId == base + |ts|
    && (forall n :: n in g.nodes && n.file == path <==> n in Stamped(ts, base))
  }

  /** A captured edge whose file-side symbol will be found again. */
  ghost predicate SettledKey(g: Graph, path: Path, ts: seq<SymbolNode>, base: nat, k: EdgeKey) {
    && IsCaptured(g, path, k)
    && FileSide(g, path, k) >= base
    && Stable(g, path, ts, FileSide(g, path, k) - base)
  }

  ghost predicate Settled(g: Graph, path: Path, ts: seq<SymbolNode>, base: nat) {
    && Holds(g, path, ts, base)
    && forall k :: k in g.store.edges && InsideKey(g.nodes, path, k) ==> SettledKey(g, path, ts, base, k)
  }

  lemma PassHolds(g: Graph, path: Path, ts: seq<SymbolNode>, order: seq<EdgeKey>, g2: Graph, g3: Graph,
                  t: FileReindexTelemetry)
    requires WellFormed(g) && WellFormed(g3) && InPath(ts, path)
    requires ReindexedBy(g, path, Some(ts), order, g2, g3, t)
    ensures Holds(g3, path, ts, g.nextId)
  {
    hide WellFormed, Select, WithoutFile, InFile, RelinkedEdges, PutAll, Captures, Enumerates, Stamped, IndexAll,
         IndexAllQualified;
    FileGone(g, path);
    ExtractedNodes(g, path, ts, g2);
  }

  /** An edge of the file whose symbol is stable is settled. */
  lemma OriginSettled(g: Graph, path: Path, ts: seq<SymbolNode>, order: seq<EdgeKey>, g2: Graph, g3: Graph,
                      t: FileReindexTelemetry, c: EdgeKey, k: EdgeKey)
    requires WellFormed(g) && InPath(ts, path)
    requires ReindexedBy(g, path, Some(ts), order, g2, g3, t)
    requires ComesFrom(g, path, ts, g3, c, k)
    requires Stable(g, path, ts, CaptureIndex(g, path, ts, Capture(g, path, c)).value)
    ensures SettledKey(g3, path, ts, g.nextId, k)
  {
    hide WellFormed, ReindexedBy, Select, InFile, RelinkIndex, NameOf, QualifiedNameOf;
    var at := CaptureIndex(g, path, ts, Capture(g, path, c)).value;
    OriginEnds(g, path, ts, order, g2, g3, t, c, k);
    IndexKept(g, path, ts, order, g2, g3, t, ts[at].qualifiedName, ts[at].name);
  }

  lemma CaptureListed(g: Graph, path: Path, order: seq<EdgeKey>, c: EdgeKey)
    requires Enumerates(order, g, path) && IsCaptured(g, path, c) && forall k :: k in order ==> k in g.store.edges
    ensures c in g.store.edges && Capture(g, path, c) in Captures(g, path, order)
  {
    hide IsCaptured, Capture;
    var i :| 0 <= i < |order| && order[i] == c;
    assert Captures(g, path, order)[i] == Capture(g, path, c);
  }

  /** No key of the file survives the removal, so every re-linked edge finds its place. */
  lemma RelinkedStored(g: Graph, path: Path, ts: seq<SymbolNode>, order: seq<EdgeKey>, g2: Graph, g3: Graph,
                       t: FileReindexTelemetry, e: DirectEdge)
    requires WellFormed(g) && InPath(ts, path) && forall k :: k in order ==> k in g.store.edges
    requires ReindexedBy(g, path, Some(ts), order, g2, g3, t)
    requires e in RelinkedEdges(g2, path, Captures(g, path, order))
    ensures KeyOf(e) in g3.store.edges && InsideKey(g3.nodes, path, KeyOf(e))
  {
    hide WellFormed, WithoutFile, InFile, InsideKey, RelinkedEdges, PutAll, Stamped, Grows, Captures, Select,
         EvidencedIn, Enumerates, InPath;
    var caps := Captures(g, path, order);
    ExtractedNodes(g, path, ts, g2);
    WellFormedNodesOk(g2);
    RelinkedTouchFile(g, path, ts, g2, caps);
    FileKeysAreFresh(g, path, g2, KeyOf(e));
    PutAllEffect(g2.store, RelinkedEdges(g2, path, caps));
  }

  /** A captured edge that finds a symbol is in the graph afterwards, at the symbol it found. */
  lemma RelinkedPresent(g: Graph, path: Path, ts: seq<SymbolNode>, order: seq<EdgeKey>, g2: Graph, g3: Graph,
                        t: FileReindexTelemetry, c: EdgeKey)
    requires WellFormed(g) && InPath(ts, path) && IsCaptured(g, path, c) && c in g.store.edges
    requires ReindexedBy(g, path, Some(ts), order, g2, g3, t)
    requires CaptureIndex(g, path, ts, Capture(g, path, c)).Some?
    ensures var k := KeyOf(RelinkedEdge(Capture(g, path, c),
                                        g.nextId + CaptureIndex(g, path, ts, Capture(g, path, c)).value));
            k in g3.store.edges && InsideKey(g3.nodes, path, k)
  {
    hide WellFormed, WithoutFile, InFile, InsideKey, RelinkedEdges, RelinkedEdge, PutAll, Stamped, Grows, Relink,
         Captures, RelinkIndex, Capture, GetNode, IsCaptured, Select, EvidencedIn, Enumerates, InPath;
    EnumeratedAreEdges(g, path, order);
    CaptureListed(g, path, order, c);
    var cap := Capture(g, path, c);
    RelinkMeaning(g, path, ts, g2, cap);
    DroppedExactly(g, path, ts, g2, c);
    RelinkedMembers(g2, path, Captures(g, path, order));
    RelinkedStored(g, path, ts, order, g2, g3, t, RelinkedEdge(cap, Relink(g2, path, cap).value));
  }

  /** That edge sits at the new symbol whichever captured edge put it there. */
  lemma RelinkedSide(g: Graph, path: Path, ts: seq<SymbolNode>, order: seq<EdgeKey>, g2: Graph, g3: Graph,
                     t: FileReindexTelemetry, c: EdgeKey)
    requires WellFormed(g) && InPath(ts, path) && IsCaptured(g, path, c) && c in g.store.edges
    requires ReindexedBy(g, path, Some(ts), order, g2, g3, t)
    requires CaptureIndex(g, path, ts, Capture(g, path, c)).Some?
    ensures var at := CaptureIndex(g, path, ts, Capture(g, path, c)).value;
            var k := KeyOf(RelinkedEdge(Capture(g, path, c), g.nextId + at));
            && k in g3.store.edges && InsideKey(g3.nodes, path, k) && FileSide(g3, path, k) == g.nextId + at
            && exists c2 :: ComesFrom(g, path, ts, g3, c2, k)
  {
    hide WellFormed, ReindexedBy, InFile, InsideKey, RelinkIndex, NameOf, QualifiedNameOf, Select, ComesFrom,
         IsCaptured;
    var at := CaptureIndex(g, path, ts, Capture(g, path, c)).value;
    var k := KeyOf(RelinkedEdge(Capture(g, path, c), g.nextId + at));
    RelinkedPresent(g, path, ts, order, g2, g3, t, c);
    OtherEndLives(g, path, ts, g2, c) by {
      OutcomeGrows(g, path, ts, order, g2, g3, t);
    }
    OldIds(g, Capture(g, path, c).otherId);
    EdgeOrigin(g, path, ts, order, g2, g3, t, k);
    var c2 :| ComesFrom(g, path, ts, g3, c2, k);
    OriginSide(g, path, ts, order, g2, g3, t, c2, k);
  }

  lemma OutcomeGrows(g: Graph, path: Path, ts: seq<SymbolNode>, order: seq<EdgeKey>, g2: Graph, g3: Graph,
                     t: FileReindexTelemetry)
    requires ReindexedBy(g, path, Some(ts), order, g2, g3, t)
    ensures Grows(WithoutFile(g, path), Stamped(ts, g.nextId), g2)
  {
    hide WellFormed, WithoutFile, Captures, RelinkedEdges, Select, Grows;
  }

  lemma OldIds(g: Graph, id: SymbolId)
    requires WellFormed(g) && id in Ids(g.nodes)
    ensures id < g.nextId
  {
    hide StoreOk, NameIndexed, QualifiedIndexed;
  }

  /** The end of a re-linked edge that is new is its end in the file. */
  lemma OriginSide(g: Graph, path: Path, ts: seq<SymbolNode>, order: seq<EdgeKey>, g2: Graph, g3: Graph,
                   t: FileReindexTelemetry, c: EdgeKey, k: EdgeKey)
    requires WellFormed(g) && InPath(ts, path)
    requires ReindexedBy(g, path, Some(ts), order, g2, g3, t)
    requires ComesFrom(g, path, ts, g3, c, k)
    ensures FileSide(g3, path, k) == (if k.to >= g.nextId then k.to else k.from)
    ensures InFile(g3.nodes, path, k.to) <==> k.to >= g.nextId
    ensures InFile(g3.nodes, path, k.from) <==> k.from >= g.nextId
  {
    hide WellFormed, ReindexedBy, InFile, RelinkIndex, NameOf, QualifiedNameOf, Select;
    OriginEnds(g, path, ts, order, g2, g3, t, c, k);
    CapturedEnds(g, path, c);
  }

  // ------------------------------------------------------------ exactly when one pass settles

  /** The symbol a captured edge finds is found again under its own names. */
  ghost predicate FoundAgain(g: Graph, path: Path, ts: seq<SymbolNode>, c: EdgeKey) {
    IsCaptured(g, path, c) && CaptureIndex(g, path, ts, Capture(g, path, c)).Some? ==>
      Stable(g, path, ts, CaptureIndex(g, path, ts, Capture(g, path, c)).value)
  }

  lemma SettledFindsAgain(g: Graph, path: Path, ts: seq<SymbolNode>, order: seq<EdgeKey>, g2: Graph, g3: Graph,
                          t: FileReindexTelemetry, c: EdgeKey)
    requires WellFormed(g) && InPath(ts, path) && ReindexedBy(g, path, Some(ts), order, g2, g3, t)
    requires Settled(g3, path, ts, g.nextId)
    ensures FoundAgain(g, path, ts, c)
  {
    hide WellFormed, ReindexedBy, InFile, Holds, RelinkIndex, NameOf, QualifiedNameOf, Select, IsCaptured, FileSide,
         Capture, CaptureIndex, InsideKey;
    if IsCaptured(g, path, c) {
      CapturedIsEdge(g, path, c);
      var found := CaptureIndex(g, path, ts, Capture(g, path, c));
      if found.Some? {
        RelinkedSide(g, path, ts, order, g2, g3, t, c);
        var k := KeyOf(RelinkedEdge(Capture(g, path, c), g.nextId + found.value));
        assert SettledKey(g3, path, ts, g.nextId, k);
        IndexKept(g, path, ts, order, g2, g3, t, ts[found.value].qualifiedName, ts[found.value].name);
      }
    }
  }

  /** One pass settles the file iff every symbol that a captured edge finds is found again under its own names. */
  lemma OnePassSettlesIff(g: Graph, path: Path, ts: seq<SymbolNode>, order: seq<EdgeKey>, g2: Graph, g3: Graph,
                          t: FileReindexTelemetry)
    requires WellFormed(g) && WellFormed(g3) && InPath(ts, path)
    requires ReindexedBy(g, path, Some(ts), order, g2, g3, t)
    ensures Settled(g3, path, ts, g.nextId) <==> forall c :: FoundAgain(g, path, ts, c)
  {
    hide WellFormed, ReindexedBy, InFile, Holds, Stable, RelinkIndex, SettledKey, FoundAgain;
    if Settled(g3, path, ts, g.nextId) {
      forall c ensures FoundAgain(g, path, ts, c) {
        SettledFindsAgain(g, path, ts, order, g2, g3, t, c);
      }
    }
    if forall c :: FoundAgain(g, path, ts, c) {
      PassHolds(g, path, ts, order, g2, g3, t);
      forall k | k in g3.store.edges && InsideKey(g3.nodes, path, k) ensures SettledKey(g3, path, ts, g.nextId, k) {
        EdgeOrigin(g, path, ts, order, g2, g3, t, k);
        var c :| ComesFrom(g, path, ts, g3, c, k);
        OriginFound(g, path, ts, g3, c, k);
        OriginSettled(g, path, ts, order, g2, g3, t, c, k);
      }
    }
  }

  lemma OriginFound(g: Graph, path: Path, ts: seq<SymbolNode>, g3: Graph, c: EdgeKey, k: EdgeKey)
    requires ComesFrom(g, path, ts, g3, c, k) && FoundAgain(g, path, ts, c)
    ensures Stable(g, path, ts, CaptureIndex(g, path, ts, Capture(g, path, c)).value)
  {
    hide Stable, IsCaptured, RelinkIndex;
  }

  /** So it does when symbols of one qualified name share their bare name. */
  lemma OnePassSettles(g: Graph, path: Path, ts: seq<SymbolNode>, order: seq<EdgeKey>, g2: Graph, g3: Graph,
                       t: FileReindexTelemetry)
    requires WellFormed(g) && WellFormed(g3) && InPath(ts, path) && Unambiguous(ts)
    requires ReindexedBy(g, path, Some(ts), order, g2, g3, t)
    ensures Settled(g3, path, ts, g.nextId)
  {
    hide WellFormed, ReindexedBy, InFile, Settled, Stable, Unambiguous, RelinkIndex, Capture, IsCaptured;
    forall c ensures FoundAgain(g, path, ts, c) {
      if IsCaptured(g, path, c) {
        CapturedIsEdge(g, path, c);
        var cap := Capture(g, path, c);
        if CaptureIndex(g, path, ts, cap).Some? {
          UnambiguousSettles(g, path, ts, cap.fileQname, cap.fileName);
        }
      }
    }
    OnePassSettlesIff(g, path, ts, order, g2, g3, t);
  }

  /** Two passes settle it whatever the names are. */
  lemma TwoPassesSettle(g: Graph, path: Path, ts: seq<SymbolNode>,
                        order: seq<EdgeKey>, g2: Graph, g3: Graph, t: FileReindexTelemetry,
                        order2: seq<EdgeKey>, g4: Graph, g5: Graph, t2: FileReindexTelemetry)
    requires WellFormed(g) && WellFormed(g3) && WellFormed(g5) && InPath(ts, path)
    requires ReindexedBy(g, path, Some(ts), order, g2, g3, t)
    requires ReindexedBy(g3, path, Some(ts), order2, g4, g5, t2)
    ensures Settled(g5, path, ts, g3.nextId)
  {
    hide WellFormed, ReindexedBy, InFile, Holds, Stable, RelinkIndex, NameOf, QualifiedNameOf;
    PassHolds(g3, path, ts, order2, g4, g5, t2);
    forall k | k in g5.store.edges && InsideKey(g5.nodes, path, k) ensures SettledKey(g5, path, ts, g3.nextId, k) {
      EdgeOrigin(g3, path, ts, order2, g4, g5, t2, k);
      var c3 :| ComesFrom(g3, path, ts, g5, c3, k);
      EdgeOrigin(g, path, ts, order, g2, g3, t, c3);
      var c :| ComesFrom(g, path, ts, g3, c, c3);
      OriginEnds(g, path, ts, order, g2, g3, t, c, c3);
      var cap := Capture(g, path, c);
      var n := ts[CaptureIndex(g, path, ts, cap).value];
      IndexKept(g, path, ts, order, g2, g3, t, n.qualifiedName, n.name);
      SecondLookupSettles(g, path, ts, cap.fileQname, cap.fileName);
      var at := CaptureIndex(g3, path, ts, Capture(g3, path, c3)).value;
      StableKept(g, path, ts, order, g2, g3, t, at);
      OriginSettled(g3, path, ts, order2, g4, g5, t2, c3, k);
    }
  }

  lemma StableKept(g: Graph, path: Path, ts: seq<SymbolNode>, order: seq<EdgeKey>, g2: Graph, g3: Graph,
                   t: FileReindexTelemetry, at: nat)
    requires WellFormed(g) && InPath(ts, path)
    requires ReindexedBy(g, path, Some(ts), order, g2, g3, t)
    requires Stable(g, path, ts, at)
    ensures Stable(g3, path, ts, at)
  {
    hide WellFormed, ReindexedBy, RelinkIndex;
    IndexKept(g, path, ts, order, g2, g3, t, ts[at].qualifiedName, ts[at].name);
  }

  // ------------------------------------------------------------ one pass over a settled graph

  /** Ids from `base` on move up by `d`; older ids stay. */
  function Shift(base: nat, d: nat, id: SymbolId): SymbolId {
    if id >= base then id + d else id
  }

  function ShiftKey(base: nat, d: nat, k: EdgeKey): EdgeKey {
    EdgeKey(Shift(base, d, k.from), Shift(base, d, k.to), k.kind)
  }

  function Aged(stale: u32, n: nat): u32 {
    if stale + n <= U32_MAX then stale + n else U32_MAX
  }

  /** The edge after n passes: renamed, and aged when it belongs to the file. */
  function Moved(base: nat, d: nat, n: nat, e: DirectEdge): DirectEdge {
    e.(from := Shift(base, d, e.from), to := Shift(base, d, e.to),
       staleEvidenceCount := if e.from >= base || e.to >= base then Aged(e.staleEvidenceCount, n)
                             else e.staleEvidenceCount)
  }

  /** `g3` is `g` after n passes that moved the file's ids from `base` up by `d`. */
  ghost predicate Renamed(g: Graph, path: Path, base: nat, d: nat, n: nat, g3: Graph) {
    && Select(OutsideOf(path), g3.nodes) == Select(OutsideOf(path), g.nodes)
    && (forall k :: k in g.store.edges ==>
          ShiftKey(base, d, k) in g3.store.edges &&
          g3.store.edges[ShiftKey(base, d, k)] == Moved(base, d, n, g.store.edges[k]))
    && (forall k3 :: k3 in g3.store.edges ==> exists k :: k in g.store.edges && ShiftKey(base, d, k) == k3)
  }

  /** In a graph that holds `ts` from `base`, the file's ids are those from `base` on. */
  lemma FileIdsFromBase(g: Graph, path: Path, ts: seq<SymbolNode>, base: nat, id: SymbolId)
    requires Holds(g, path, ts, base) && InPath(ts, path)
    ensures InFile(g.nodes, path, id) <==> base <= id < base + |ts|
    ensures id in Ids(g.nodes) && id >= base ==> InFile(g.nodes, path, id)
  {
    hide InFile, Select, StoreOk, NameIndexed, QualifiedIndexed, UniqueIds;
    InFileMeaning(g.nodes, path, id);
    if InFile(g.nodes, path, id) {
      var n :| n in g.nodes && n.id == id && n.file == path;
      var i :| 0 <= i < |ts| && Stamped(ts, base)[i] == n;
    }
    if base <= id < base + |ts| {
      var n := Stamped(ts, base)[id - base];
      assert n in Stamped(ts, base) && ts[id - base] in ts;
    }
  }

  /** A settled key is re-linked to the same symbol under its new id. */
  lemma SettledRelinks(g: Graph, path: Path, ts: seq<SymbolNode>, base: nat, order: seq<EdgeKey>, g2: Graph, g3: Graph,
                       t: FileReindexTelemetry, k: EdgeKey)
    requires Settled(g, path, ts, base) && InPath(ts, path)
    requires ReindexedBy(g, path, Some(ts), order, g2, g3, t)
    requires IsCaptured(g, path, k)
    ensures Relinks(g2, path, Capture(g, path, k))
    ensures RelinkedEdge(Capture(g, path, k), Relink(g2, path, Capture(g, path, k)).value) ==
              Moved(base, |ts|, 1, g.store.edges[k])
    ensures KeyOf(Moved(base, |ts|, 1, g.store.edges[k])) == ShiftKey(base, |ts|, k)
  {
    hide WellFormed, Select, WithoutFile, InFile, RelinkedEdges, PutAll, Captures, Enumerates, Stamped, Grows,
         RelinkIndex, NameOf, QualifiedNameOf, Relink;
    CapturedEnds(g, path, k);
    assert InsideKey(g.nodes, path, k);
    assert SettledKey(g, path, ts, base, k);
    var cap, fs := Capture(g, path, k), FileSide(g, path, k);
    var at := fs - base;
    FileIdsFromBase(g, path, ts, base, k.from);
    FileIdsFromBase(g, path, ts, base, k.to);
    FileSideNames(g, path, ts, base, at);
    RelinkMeaning(g, path, ts, g2, cap);
    DroppedExactly(g, path, ts, g2, k);
  }

  lemma FileSideNames(g: Graph, path: Path, ts: seq<SymbolNode>, base: nat, at: nat)
    requires Holds(g, path, ts, base) && InPath(ts, path) && at < |ts|
    ensures NameOf(g, base + at) == ts[at].name && QualifiedNameOf(g, base + at) == ts[at].qualifiedName
  {
    hide NameOf, QualifiedNameOf, StoreOk, NameIndexed, QualifiedIndexed;
    StampedNode(ts, base, at, g, path);
  }

  lemma ShiftInjective(base: nat, d: nat, k: EdgeKey, k2: EdgeKey)
    requires ShiftKey(base, d, k) == ShiftKey(base, d, k2)
    requires k.from < base + d && k.to < base + d && k2.from < base + d && k2.to < base + d
    ensures k == k2
  {
  }

  lemma AllRelinkedInOrder(g: Graph, path: Path, ts: seq<SymbolNode>, base: nat, order: seq<EdgeKey>, g2: Graph,
                           g3: Graph,
                           t: FileReindexTelemetry)
    requires Settled(g, path, ts, base) && InPath(ts, path)
    requires ReindexedBy(g, path, Some(ts), order, g2, g3, t)
    ensures forall k :: k in order ==> k in g.store.edges
    ensures forall cap :: cap in Captures(g, path, order) ==> Relinks(g2, path, cap)
    ensures forall e :: e in RelinkedEdges(g2, path, Captures(g, path, order)) <==>
              exists k :: k in order && e == Moved(base, |ts|, 1, g.store.edges[k])
    ensures t.crossFileEdgesDropped == 0
  {
    hide Settled, Select, WithoutFile, InFile, RelinkedEdges, PutAll, Stamped, Grows, Relink, IsCaptured, Capture,
         Moved, RelinkedEdge, GetNode;
    EnumeratedAreEdges(g, path, order);
    var caps := Captures(g, path, order);
    RelinkedMembers(g2, path, caps);
    forall k | k in order
      ensures Relinks(g2, path, Capture(g, path, k))
      ensures RelinkedEdge(Capture(g, path, k), Relink(g2, path, Capture(g, path, k)).value) ==
                Moved(base, |ts|, 1, g.store.edges[k])
    {
      SettledRelinks(g, path, ts, base, order, g2, g3, t, k);
    }
    forall cap | cap in caps ensures exists k :: k in order && cap == Capture(g, path, k) {
      var i :| 0 <= i < |caps| && caps[i] == cap;
      assert order[i] in order;
    }
    forall k | k in order ensures Capture(g, path, k) in caps {
      var i :| 0 <= i < |order| && order[i] == k;
      assert caps[i] == Capture(g, path, k);
    }
    AllRelinked(g2, path, caps);
  }

  /** A pass over a settled graph drops nothing, renames the file's ids and ages its edges by one. */
  lemma SettledPass(g: Graph, path: Path, ts: seq<SymbolNode>, base: nat, order: seq<EdgeKey>, g2: Graph, g3: Graph,
                    t: FileReindexTelemetry)
    requires Settled(g, path, ts, base) && WellFormed(g3) && InPath(ts, path)
    requires ReindexedBy(g, path, Some(ts), order, g2, g3, t)
    ensures t.crossFileEdgesDropped == 0 && t.crossFileEdgesStaled == |order|
    ensures Renamed(g, path, base, |ts|, 1, g3)
    ensures Settled(g3, path, ts, g.nextId)
  {
    hide WellFormed, SettledKey, Select, WithoutFile, InFile, PutAll, RelinkedEdges, Stamped, Grows, Relink,
         IsCaptured, Captures;
    AllRelinkedInOrder(g, path, ts, base, order, g2, g3, t);
    PassHolds(g, path, ts, order, g2, g3, t);
    ReindexFrame(g, path, Some(ts), order, g2, g3, t);
    forall k | k in g.store.edges
      ensures ShiftKey(base, |ts|, k) in g3.store.edges
      ensures g3.store.edges[ShiftKey(base, |ts|, k)] == Moved(base, |ts|, 1, g.store.edges[k])
    {
      EdgeMoves(g, path, ts, base, order, g2, g3, t, k);
    }
    forall k3 | k3 in g3.store.edges ensures exists k :: k in g.store.edges && ShiftKey(base, |ts|, k) == k3 {
      EdgeCameFrom(g, path, ts, base, order, g2, g3, t, k3);
    }
    forall k | k in g3.store.edges && InsideKey(g3.nodes, path, k) ensures SettledKey(g3, path, ts, g.nextId, k) {
      EdgeOrigin(g, path, ts, order, g2, g3, t, k);
      var c :| ComesFrom(g, path, ts, g3, c, k);
      SettledStable(g, path, ts, base, c);
      OriginSettled(g, path, ts, order, g2, g3, t, c, k);
    }
  }

  lemma SettledStable(g: Graph, path: Path, ts: seq<SymbolNode>, base: nat, c: EdgeKey)
    requires Settled(g, path, ts, base) && InPath(ts, path) && IsCaptured(g, path, c)
    ensures CaptureIndex(g, path, ts, Capture(g, path, c)).Some?
    ensures Stable(g, path, ts, CaptureIndex(g, path, ts, Capture(g, path, c)).value)
  {
    hide WellFormed, InFile, Select, RelinkIndex, NameOf, QualifiedNameOf;
    CapturedEnds(g, path, c);
    assert InsideKey(g.nodes, path, c);
    assert SettledKey(g, path, ts, base, c);
    FileSideNames(g, path, ts, base, FileSide(g, path, c) - base);
  }

  /** The ends of a live edge are ids the graph has handed out. */
  lemma LiveEnds(g: Graph, k: EdgeKey)
    requires WellFormed(g) && k in g.store.seen
    ensures k.from in Ids(g.nodes) && k.to in Ids(g.nodes)
    ensures k.from < g.nextId && k.to < g.nextId
  {
  }

  lemma EdgeMoves(g: Graph, path: Path, ts: seq<SymbolNode>, base: nat, order: seq<EdgeKey>, g2: Graph, g3: Graph,
                  t: FileReindexTelemetry, k: EdgeKey)
    requires Settled(g, path, ts, base) && InPath(ts, path)
    requires ReindexedBy(g, path, Some(ts), order, g2, g3, t)
    requires k in g.store.edges
    ensures ShiftKey(base, |ts|, k) in g3.store.edges
    ensures g3.store.edges[ShiftKey(base, |ts|, k)] == Moved(base, |ts|, 1, g.store.edges[k])
  {
    hide Select, WithoutFile, InFile, PutAll, RelinkedEdges, Stamped, Grows, Relink, IsCaptured, Captures, NodesOk,
         NameIndexed, QualifiedIndexed, Moved, Stable, Capture;
    LiveEnds(g, k);
    FileIdsFromBase(g, path, ts, base, k.from);
    FileIdsFromBase(g, path, ts, base, k.to);
    if InsideKey(g.nodes, path, k) {
      assert SettledKey(g, path, ts, base, k);
      assert k in order;
      InsideEdgeMoves(g, path, ts, base, order, g2, g3, t, k);
    } else {
      ReindexFrame(g, path, Some(ts), order, g2, g3, t);
      OutsideEdgeStays(g, base, |ts|, k);
    }
  }

  lemma OutsideEdgeStays(g: Graph, base: nat, d: nat, k: EdgeKey)
    requires WellFormed(g) && k in g.store.edges && k.from < base && k.to < base
    ensures ShiftKey(base, d, k) == k && Moved(base, d, 1, g.store.edges[k]) == g.store.edges[k]
  {
    hide NodesOk, NameIndexed, QualifiedIndexed;
  }

  lemma InsideEdgeMoves(g: Graph, path: Path, ts: seq<SymbolNode>, base: nat, order: seq<EdgeKey>, g2: Graph, g3: Graph,
                        t: FileReindexTelemetry, k: EdgeKey)
    requires Settled(g, path, ts, base) && InPath(ts, path)
    requires ReindexedBy(g, path, Some(ts), order, g2, g3, t)
    requires k in order
    ensures ShiftKey(base, |ts|, k) in g3.store.edges
    ensures g3.store.edges[ShiftKey(base, |ts|, k)] == Moved(base, |ts|, 1, g.store.edges[k])
  {
    hide WellFormed, Settled, Select, WithoutFile, InFile, PutAll, RelinkedEdges, Stamped, Grows, Relink, Captures,
         Moved, Capture, Relinks, FileSide, NameOf, QualifiedNameOf;
    AllRelinkedInOrder(g, path, ts, base, order, g2, g3, t);
    var es := RelinkedEdges(g2, path, Captures(g, path, order));
    PutAllEffect(g2.store, es);
    SettledWellFormed(g, path, ts, base);
    SettledRelinks(g, path, ts, base, order, g2, g3, t, k);
    var e := Moved(base, |ts|, 1, g.store.edges[k]);
    assert e in es;
    MovedKeyFresh(g, path, ts, base, order, g2, g3, t, k);
    assert KeyOf(e) in g3.store.edges && g3.store.edges[KeyOf(e)] in es;
    var k2 :| k2 in order && g3.store.edges[KeyOf(e)] == Moved(base, |ts|, 1, g.store.edges[k2]);
    SettledRelinks(g, path, ts, base, order, g2, g3, t, k2);
    LiveEnds(g, k);
    LiveEnds(g, k2);
    ShiftInjective(base, |ts|, k, k2);
  }

  lemma SettledWellFormed(g: Graph, path: Path, ts: seq<SymbolNode>, base: nat)
    requires Settled(g, path, ts, base)
    ensures WellFormed(g) && g.nextId == base + |ts| && forall k :: k in g.store.edges ==> k in g.store.seen
  {
  }

  lemma MovedKeyFresh(g: Graph, path: Path, ts: seq<SymbolNode>, base: nat, order: seq<EdgeKey>, g2: Graph, g3: Graph,
                      t: FileReindexTelemetry, k: EdgeKey)
    requires Settled(g, path, ts, base) && InPath(ts, path)
    requires ReindexedBy(g, path, Some(ts), order, g2, g3, t)
    requires IsCaptured(g, path, k)
    ensures ShiftKey(base, |ts|, k) !in g2.store.seen && ShiftKey(base, |ts|, k) !in g2.store.edges
  {
    hide Select, WithoutFile, InFile, PutAll, RelinkedEdges, Stamped, Grows, Relink, Captures, Stable, NodesOk,
         NameIndexed, QualifiedIndexed;
    CapturedEnds(g, path, k);
    LiveEnds(g, k);
    FileIdsFromBase(g, path, ts, base, k.from);
    FileIdsFromBase(g, path, ts, base, k.to);
    FileGone(g, path);
    if ShiftKey(base, |ts|, k) in g2.store.seen {
      LiveEnds(g, ShiftKey(base, |ts|, k));
    }
  }

  lemma EdgeCameFrom(g: Graph, path: Path, ts: seq<SymbolNode>, base: nat, order: seq<EdgeKey>, g2: Graph, g3: Graph,
                     t: FileReindexTelemetry, k3: EdgeKey)
    requires Settled(g, path, ts, base) && InPath(ts, path)
    requires ReindexedBy(g, path, Some(ts), order, g2, g3, t)
    requires k3 in g3.store.edges
    ensures exists k :: k in g.store.edges && ShiftKey(base, |ts|, k) == k3
  {
    hide WellFormed, Settled, Select, WithoutFile, InFile, PutAll, RelinkedEdges, Stamped, Grows, Relink, Captures,
         Moved, Capture, Relinks, FileSide, NameOf, QualifiedNameOf;
    SettledWellFormed(g, path, ts, base);
    AllRelinkedInOrder(g, path, ts, base, order, g2, g3, t);
    var es := RelinkedEdges(g2, path, Captures(g, path, order));
    PutAllEffect(g2.store, es);
    if k3 in g2.store.edges && g3.store.edges[k3] == g2.store.edges[k3] {
      FileGone(g, path);
      LiveEnds(g, k3);
      SettledOutside(g, path, ts, base, k3);
    } else {
      var k :| k in order && g3.store.edges[k3] == Moved(base, |ts|, 1, g.store.edges[k]);
      SettledRelinks(g, path, ts, base, order, g2, g3, t, k);
    }
  }

  lemma SettledOutside(g: Graph, path: Path, ts: seq<SymbolNode>, base: nat, k: EdgeKey)
    requires Settled(g, path, ts, base) && InPath(ts, path)
    requires k in g.store.edges && !InsideKey(g.nodes, path, k)
    ensures ShiftKey(base, |ts|, k) == k
  {
    hide InFile, Select, Stamped;
    SettledWellFormed(g, path, ts, base);
    LiveEnds(g, k);
    FileIdsFromBase(g, path, ts, base, k.from);
    FileIdsFromBase(g, path, ts, base, k.to);
  }

  // ------------------------------------------------------------ any number of passes

  ghost predicate Pass(g: Graph, path: Path, ts: seq<SymbolNode>, g3: Graph) {
    WellFormed(g3) && exists order, g2, t :: ReindexedBy(g, path, Some(ts), order, g2, g3, t)
  }

  ghost predicate Passes(gs: seq<Graph>, path: Path, ts: seq<SymbolNode>) {
    forall i :: 0 <= i < |gs| - 1 ==> Pass(gs[i], path, ts, gs[i + 1])
  }

  lemma ShiftTwice(base: nat, d: nat, m: nat, k: EdgeKey)
    ensures ShiftKey(base + d, m, ShiftKey(base, d, k)) == ShiftKey(base, d + m, k)
  {
  }

  lemma MovedTwice(base: nat, d: nat, n: nat, m: nat, e: DirectEdge)
    ensures Moved(base + d, m, 1, Moved(base, d, n, e)) == Moved(base, d + m, n + 1, e)
  {
  }

  lemma RenamedEdge(g: Graph, path: Path, base: nat, d: nat, n: nat, g1: Graph, k: EdgeKey)
    requires Renamed(g, path, base, d, n, g1) && k in g.store.edges
    ensures ShiftKey(base, d, k) in g1.store.edges
    ensures g1.store.edges[ShiftKey(base, d, k)] == Moved(base, d, n, g.store.edges[k])
  {
    hide ShiftKey, Moved, Select;
  }

  lemma RenamedFrom(g: Graph, path: Path, base: nat, d: nat, n: nat, g1: Graph, k1: EdgeKey) returns (k: EdgeKey)
    requires Renamed(g, path, base, d, n, g1) && k1 in g1.store.edges
    ensures k in g.store.edges && ShiftKey(base, d, k) == k1
  {
    hide ShiftKey, Moved, Select;
    k :| k in g.store.edges && ShiftKey(base, d, k) == k1;
  }

  lemma RenamedOutside(g: Graph, path: Path, base: nat, d: nat, n: nat, g1: Graph)
    requires Renamed(g, path, base, d, n, g1)
    ensures Select(OutsideOf(path), g1.nodes) == Select(OutsideOf(path), g.nodes)
  {
    hide ShiftKey, Moved, Select;
  }

  lemma RenamedIntro(g: Graph, path: Path, base: nat, d: nat, n: nat, g1: Graph)
    requires Select(OutsideOf(path), g1.nodes) == Select(OutsideOf(path), g.nodes)
    requires forall k :: k in g.store.edges ==>
               ShiftKey(base, d, k) in g1.store.edges &&
               g1.store.edges[ShiftKey(base, d, k)] == Moved(base, d, n, g.store.edges[k])
    requires forall k1 :: k1 in g1.store.edges ==> exists k :: k in g.store.edges && ShiftKey(base, d, k) == k1
    ensures Renamed(g, path, base, d, n, g1)
  {
    hide ShiftKey, Moved, Select;
  }

  lemma RenamedTrans(g: Graph, path: Path, base: nat, d: nat, n: nat, g1: Graph, m: nat, g3: Graph)
    requires Renamed(g, path, base, d, n, g1) && Renamed(g1, path, base + d, m, 1, g3)
    ensures Renamed(g, path, base, d + m, n + 1, g3)
  {
    hide *;
    forall k | k in g.store.edges
      ensures ShiftKey(base, d + m, k) in g3.store.edges
      ensures g3.store.edges[ShiftKey(base, d + m, k)] == Moved(base, d + m, n + 1, g.store.edges[k])
    {
      RenamedEdge(g, path, base, d, n, g1, k);
      RenamedEdge(g1, path, base + d, m, 1, g3, ShiftKey(base, d, k));
      ShiftTwice(base, d, m, k);
      MovedTwice(base, d, n, m, g.store.edges[k]);
    }
    forall k3 | k3 in g3.store.edges ensures exists k :: k in g.store.edges && ShiftKey(base, d + m, k) == k3 {
      var k1 := RenamedFrom(g1, path, base + d, m, 1, g3, k3);
      var k := RenamedFrom(g, path, base, d, n, g1, k1);
      ShiftTwice(base, d, m, k);
    }
    RenamedOutside(g, path, base, d, n, g1);
    RenamedOutside(g1, path, base + d, m, 1, g3);
    RenamedIntro(g, path, base, d + m, n + 1, g3);
  }

  lemma RenamedZero(g: Graph, path: Path, base: nat)
    requires WellFormed(g)
    ensures Renamed(g, path, base, 0, 0, g)
  {
    hide Select, NodesOk, NameIndexed, QualifiedIndexed;
    forall k | k in g.store.edges
      ensures ShiftKey(base, 0, k) == k && Moved(base, 0, 0, g.store.edges[k]) == g.store.edges[k] {
    }
  }

  /** `gn` is `g` after n passes: the file's ids moved by a common distance, and still settled. */
  ghost predicate AfterPasses(g: Graph, path: Path, ts: seq<SymbolNode>, base: nat, n: nat, gn: Graph) {
    && gn.nextId >= g.nextId
    && Renamed(g, path, base, gn.nextId - g.nextId, n, gn)
    && Settled(gn, path, ts, base + (gn.nextId - g.nextId))
  }

  lemma OneMorePass(g: Graph, path: Path, ts: seq<SymbolNode>, base: nat, n: nat, prev: Graph, next: Graph)
    requires InPath(ts, path) && g.nextId == base + |ts|
    requires AfterPasses(g, path, ts, base, n, prev) && Pass(prev, path, ts, next)
    ensures AfterPasses(g, path, ts, base, n + 1, next)
  {
    hide WellFormed, Renamed, ReindexedBy, Settled, InPath;
    var order: seq<EdgeKey>, g2: Graph, t: FileReindexTelemetry :|
        ReindexedBy(prev, path, Some(ts), order, g2, next, t);
    var d := prev.nextId - g.nextId;
    SettledWellFormed(prev, path, ts, base + d);
    SettledPass(prev, path, ts, base + d, order, g2, next, t);
    SettledWellFormed(next, path, ts, prev.nextId);
    RenamedTrans(g, path, base, d, n, prev, |ts|, next);
  }

  /**
    From a settled graph, n passes rename the file's ids by a common distance, keep every edge,
    and raise the stale count of each of the file's edges by exactly n, up to saturation.
   */
  lemma RepeatedReindex(gs: seq<Graph>, path: Path, ts: seq<SymbolNode>, base: nat, n: nat)
    requires n < |gs| && InPath(ts, path)
    requires Settled(gs[0], path, ts, base) && Passes(gs, path, ts)
    ensures AfterPasses(gs[0], path, ts, base, n, gs[n])
  {
    hide WellFormed, Renamed, Settled, Pass, InPath;
    SettledWellFormed(gs[0], path, ts, base);
    if n == 0 {
      RenamedZero(gs[0], path, base);
    } else {
      RepeatedReindex(gs, path, ts, base, n - 1);
      assert Pass(gs[n - 1], path, ts, gs[n]);
      OneMorePass(gs[0], path, ts, base, n - 1, gs[n - 1], gs[n]);
    }
  }

  lemma FileEdgeFromBase(g: Graph, path: Path, ts: seq<SymbolNode>, base: nat, k: EdgeKey)
    requires Settled(g, path, ts, base) && InPath(ts, path) && k in g.store.edges && InsideKey(g.nodes, path, k)
    ensures g.store.edges[k].from >= base || g.store.edges[k].to >= base
  {
    hide Select, InFile, Stamped, NodesOk, NameIndexed, QualifiedIndexed, SettledKey, InPath;
    LiveEnds(g, k);
    FileIdsFromBase(g, path, ts, base, k.from);
    FileIdsFromBase(g, path, ts, base, k.to);
  }

  /** After n further passes the confidence of a file edge is its baseline times 0.7^(stale + n). */
  lemma ConfidenceAfterPasses(g: Graph, path: Path, ts: seq<SymbolNode>, base: nat, n: nat, gn: Graph, k: EdgeKey)
    requires InPath(ts, path) && Settled(g, path, ts, base) && AfterPasses(g, path, ts, base, n, gn)
    requires k in g.store.edges && InsideKey(g.nodes, path, k)
    requires g.store.edges[k].staleEvidenceCount + n < I32_LIMIT
    ensures ShiftKey(base, gn.nextId - g.nextId, k) in gn.store.edges
    ensures var e, e2 := g.store.edges[k], gn.store.edges[ShiftKey(base, gn.nextId - g.nextId, k)];
            && e2.staleEvidenceCount == e.staleEvidenceCount + n
            && CurrentConfidence(e2) == BaseScore(e.origin) * Power(DECAY, e.staleEvidenceCount + n)
  {
    hide Select, InsideKey, Power, InPath, Settled, Renamed, ShiftKey, CurrentConfidence, BaseScore;
    var e := g.store.edges[k];
    FileEdgeFromBase(g, path, ts, base, k);
    RenamedEdge(g, path, base, gn.nextId - g.nextId, n, gn, k);
    DecaysPerStaleFile(e, n);
    ConfidenceOf(e.(staleEvidenceCount := e.staleEvidenceCount + n), Moved(base, gn.nextId - g.nextId, n, e));
  }

  /** Confidence depends on the origin and the stale count only. */
  lemma ConfidenceOf(e: DirectEdge, e2: DirectEdge)
    requires e.origin == e2.origin && e.staleEvidenceCount == e2.staleEvidenceCount
    ensures CurrentConfidence(e) == CurrentConfidence(e2)
  {
  }
}
