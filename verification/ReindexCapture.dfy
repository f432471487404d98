/** Which edges a reindex carries over and to which symbol, with every condition written out. */
module ReindexCapture {
  import opened Symbols
  import opened NodeQueries
  import opened SymbolGraphs
  import opened Reindex
  import opened ReindexProperties
  import opened ReindexRepeat

  /** The edge joins a named symbol `n` of the file, at either end, to a symbol `m` of another file. */
  predicate Joins(g: Graph, path: Path, k: EdgeKey, n: SymbolNode, m: SymbolNode) {
    && n in g.nodes && m in g.nodes && n.file == path && m.file != path
    && (n.name != "" || n.qualifiedName != "")
    && ((k.from == n.id && k.to == m.id) || (k.from == m.id && k.to == n.id))
  }

  lemma InFileOfNode(g: Graph, path: Path, n: SymbolNode)
    requires WellFormed(g) && n in g.nodes
    ensures InFile(g.nodes, path, n.id) <==> n.file == path
    ensures NameOf(g, n.id) == n.name && QualifiedNameOf(g, n.id) == n.qualifiedName
  {
    hide InFile, GetNode, StoreOk, NameIndexed, QualifiedIndexed;
    InFileMeaning(g.nodes, path, n.id);
    GetNodeFinds(g.nodes, n.id);
    if InFile(g.nodes, path, n.id) {
      var m :| m in g.nodes && m.id == n.id && m.file == path;
      UniqueIdsMeanSameNode(g.nodes, m, n);
    }
  }

  lemma EndNodes(g: Graph, k: EdgeKey) returns (a: SymbolNode, b: SymbolNode)
    requires WellFormed(g) && k in g.store.edges
    ensures a in g.nodes && b in g.nodes && a.id == k.from && b.id == k.to
  {
    hide NodesOk, NameIndexed, QualifiedIndexed;
    assert k.from in Ids(g.nodes) && k.to in Ids(g.nodes);
    a :| a in g.nodes && a.id == k.from;
    b :| b in g.nodes && b.id == k.to;
  }

  /** An edge of any kind is carried over iff it is evidenced elsewhere and joins the file to another one. */
  lemma CapturedMeaning(g: Graph, path: Path, k: EdgeKey)
    requires WellFormed(g)
    ensures IsCaptured(g, path, k) <==>
              k in g.store.edges && g.store.edges[k].evidenceFile != path && exists n, m :: Joins(g, path, k, n, m)
  {
    hide WellFormed, InFile, NameOf, QualifiedNameOf;
    if k in g.store.edges {
      var a, b := EndNodes(g, k);
      InFileOfNode(g, path, a);
      InFileOfNode(g, path, b);
      if IsCaptured(g, path, k) {
        if a.file == path {
          assert Joins(g, path, k, a, b);
        } else {
          assert Joins(g, path, k, b, a);
        }
      }
      if n, m :| Joins(g, path, k, n, m) {
        InFileOfNode(g, path, n);
        InFileOfNode(g, path, m);
      }
    }
  }

  /** The capture list of a reindex holds those edges and no others, each once. */
  lemma CapturedEdgesAreListed(g: Graph, path: Path, source: Option<seq<SymbolNode>>, order: seq<EdgeKey>, g2: Graph,
                               g3: Graph, t: FileReindexTelemetry, k: EdgeKey)
    requires WellFormed(g) && ReindexedBy(g, path, source, order, g2, g3, t)
    ensures k in order <==>
              k in g.store.edges && g.store.edges[k].evidenceFile != path && exists n, m :: Joins(g, path, k, n, m)
    ensures forall i, j :: 0 <= i < j < |order| ==> order[i] != order[j]
  {
    hide WellFormed, IsCaptured, Joins, Captures, RelinkedEdges, PutAll, WithoutFile, Grows, Stamped;
    CapturedMeaning(g, path, k);
  }

  /** `i` is the first of the extracted symbols with this qualified name, where that is not just its bare name. */
  ghost predicate FirstQualified(ts: seq<SymbolNode>, qname: string, i: nat) {
    && i < |ts| && ts[i].qualifiedName == qname && qname != "" && ts[i].name != qname
    && forall j :: 0 <= j < i && ts[j].qualifiedName == qname ==> ts[j].name == qname
  }

  ghost predicate FirstNamed(ts: seq<SymbolNode>, name: string, i: nat) {
    i < |ts| && ts[i].name == name && forall j :: 0 <= j < i ==> ts[j].name != name
  }

  /**
    The new symbol for an old one: the first with its qualified name, unless four nodes of other files
    bear that; failing that the first with its bare name, unless four nodes of other files bear that.
   */
  ghost predicate Successor(g: Graph, path: Path, ts: seq<SymbolNode>, n: SymbolNode, i: nat) {
    if |OutsideList(g, g.qualifiedIndex, path, n.qualifiedName)| <= 3 &&
       exists j :: FirstQualified(ts, n.qualifiedName, j)
    then FirstQualified(ts, n.qualifiedName, i)
    else
      n.name != "" && |OutsideList(g, g.nameIndex, path, n.name)| <= 3 && FirstNamed(ts, n.name, i)
  }

  lemma FirstQualifiedMeaning(ts: seq<SymbolNode>, qname: string, i: nat)
    requires qname != ""
    ensures FirstMatch(ts, QualifiedAs(qname)) == Some(i) <==> FirstQualified(ts, qname, i)
  {
    var r := FirstMatch(ts, QualifiedAs(qname));
    if FirstQualified(ts, qname, i) {
      assert Matches(QualifiedAs(qname), ts[i]) && ts[i] in ts;
    }
  }

  lemma FirstNamedMeaning(ts: seq<SymbolNode>, name: string, i: nat)
    ensures FirstMatch(ts, Named(name)) == Some(i) <==> FirstNamed(ts, name, i)
  {
    var r := FirstMatch(ts, Named(name));
    if FirstNamed(ts, name, i) {
      assert Matches(Named(name), ts[i]) && ts[i] in ts;
    }
  }

  lemma SuccessorMeaning(g: Graph, path: Path, ts: seq<SymbolNode>, n: SymbolNode, i: nat)
    ensures RelinkIndex(g, path, ts, n.qualifiedName, n.name) == Some(i) <==> Successor(g, path, ts, n, i)
  {
    hide OutsideList, FirstMatch, FirstQualified, FirstNamed;
    var byQname := FirstMatch(ts, QualifiedAs(n.qualifiedName));
    if n.qualifiedName != "" {
      forall j: nat ensures byQname == Some(j) <==> FirstQualified(ts, n.qualifiedName, j) {
        FirstQualifiedMeaning(ts, n.qualifiedName, j);
      }
    } else {
      NoEmptyQualified(ts);
    }
    FirstNamedMeaning(ts, n.name, i);
  }

  lemma NoEmptyQualified(ts: seq<SymbolNode>)
    ensures forall j :: !FirstQualified(ts, "", j)
  {
  }

  /**
    An edge between the file and another one, evidenced elsewhere, is there afterwards at the successor
    of its symbol, in the same direction and of the same kind.
   */
  lemma CrossFileEdgeKept(g: Graph, path: Path, ts: seq<SymbolNode>, order: seq<EdgeKey>, g2: Graph, g3: Graph,
                          t: FileReindexTelemetry, k: EdgeKey, n: SymbolNode, m: SymbolNode, i: nat)
    requires WellFormed(g) && InPath(ts, path) && ReindexedBy(g, path, Some(ts), order, g2, g3, t)
    requires k in g.store.edges && g.store.edges[k].evidenceFile != path && Joins(g, path, k, n, m)
    requires Successor(g, path, ts, n, i)
    ensures k.from == n.id ==> EdgeKey(g.nextId + i, m.id, k.kind) in g3.store.edges
    ensures k.to == n.id ==> EdgeKey(m.id, g.nextId + i, k.kind) in g3.store.edges
  {
    hide WellFormed, ReindexedBy, InFile, NameOf, QualifiedNameOf, RelinkIndex, Successor, InsideKey, InPath;
    CapturedMeaning(g, path, k);
    InFileOfNode(g, path, n);
    InFileOfNode(g, path, m);
    SuccessorMeaning(g, path, ts, n, i);
    EdgeKeysMatch(g, k);
    RelinkedPresent(g, path, ts, order, g2, g3, t, k);
  }

  lemma EdgeKeysMatch(g: Graph, k: EdgeKey)
    requires WellFormed(g) && k in g.store.edges
    ensures KeyOf(g.store.edges[k]) == k
  {
  }

  /** An edge at the file afterwards copies one from before, a step staler, up to the largest 32-bit count. */
  lemma CopiesAgeByOne(g: Graph, path: Path, source: Option<seq<SymbolNode>>, order: seq<EdgeKey>,
                       g2: Graph, g3: Graph, t: FileReindexTelemetry, k: EdgeKey)
    requires WellFormed(g) && InPath(Extracted(source), path) && ReindexedBy(g, path, source, order, g2, g3, t)
    requires k in g3.store.edges && InsideKey(g3.nodes, path, k)
    ensures exists c :: c in g.store.edges &&
              var e0, e := g.store.edges[c], g3.store.edges[k];
              && e.kind == e0.kind && e.evidenceFile == e0.evidenceFile != path
              && e.origin == e0.origin && e.confidence == e0.confidence && e.createdAtEpoch == e0.createdAtEpoch
              && e.staleEvidenceCount == if e0.staleEvidenceCount < 4294967295 then e0.staleEvidenceCount + 1
                                         else 4294967295
  {
    hide WellFormed, ReindexedBy, InFile, SameNamed, InsideKey, InPath;
    RelinkedFaithfully(g, path, source, order, g2, g3, t, k);
    var c :| FaithfulCopy(g, g3, path, c, k);
  }

  // ------------------------------------------------------------ the counters

  ghost function MatchingIds(q: NodeQuery, ns: seq<SymbolNode>): set<SymbolId> {
    set n | n in ns && Matches(q, n) :: n.id
  }

  lemma MatchingIdsFirst(q: NodeQuery, ns: seq<SymbolNode>)
    requires ns != [] && UniqueIds(ns)
    ensures ns[0].id !in MatchingIds(q, ns[1..])
    ensures MatchingIds(q, ns) == MatchingIds(q, ns[1..]) + (if Matches(q, ns[0]) then {ns[0].id} else {})
  {
    hide Matches;
    assert ns == [ns[0]] + ns[1..];
  }

  lemma {:induction false} CountedOnce(q: NodeQuery, ns: seq<SymbolNode>)
    requires UniqueIds(ns)
    ensures |Select(q, ns)| == |MatchingIds(q, ns)|
  {
    hide Matches, MatchingIds;
    if ns == [] {
      NothingMatches(q);
    } else {
      CountedOnce(q, ns[1..]);
      MatchingIdsFirst(q, ns);
    }
  }

  lemma NothingMatches(q: NodeQuery)
    ensures MatchingIds(q, []) == {}
  {
  }

  /** The edges carried over whose symbol has a successor. */
  ghost function FoundKeys(g: Graph, path: Path, g2: Graph, order: seq<EdgeKey>): set<EdgeKey>
    requires forall k :: k in order ==> k in g.store.edges
  {
    set k | k in order && Relinks(g2, path, Capture(g, path, k))
  }

  lemma FoundKeysLast(g: Graph, path: Path, g2: Graph, rest: seq<EdgeKey>, last: EdgeKey)
    requires last !in rest && forall k :: k in rest + [last] ==> k in g.store.edges
    ensures last in rest + [last] && last !in FoundKeys(g, path, g2, rest)
    ensures FoundKeys(g, path, g2, rest + [last]) ==
            FoundKeys(g, path, g2, rest) + (if Relinks(g2, path, Capture(g, path, last)) then {last} else {})
  {
    hide Relinks, Capture;
  }

  lemma CapturesLast(g: Graph, path: Path, rest: seq<EdgeKey>, last: EdgeKey)
    requires forall k :: k in rest + [last] ==> k in g.store.edges
    ensures last in rest + [last] && forall k :: k in rest ==> k in rest + [last]
    ensures Captures(g, path, rest + [last]) == Captures(g, path, rest) + [Capture(g, path, last)]
  {
    hide Capture;
    assert forall k :: k in rest ==> k in rest + [last];
  }

  lemma {:induction false} RelinkedAreCounted(g: Graph, path: Path, g2: Graph, order: seq<EdgeKey>)
    requires forall k :: k in order ==> k in g.store.edges
    requires forall i, j :: 0 <= i < j < |order| ==> order[i] != order[j]
    ensures |RelinkedEdges(g2, path, Captures(g, path, order))| == |FoundKeys(g, path, g2, order)|
  {
    hide Relinks, RelinkedEdge, Relink, Capture, FoundKeys, Captures;
    if order == [] {
      NothingFound(g, path, g2);
    } else {
      var last, rest := order[|order| - 1], order[..|order| - 1];
      assert order == rest + [last];
      RelinkedAreCounted(g, path, g2, rest);
      CapturesLast(g, path, rest, last);
      FoundKeysLast(g, path, g2, rest, last);
      var caps := Captures(g, path, rest) + [Capture(g, path, last)];
      assert caps[..|caps| - 1] == Captures(g, path, rest);
    }
  }

  lemma NothingFound(g: Graph, path: Path, g2: Graph)
    ensures FoundKeys(g, path, g2, []) == {} && Captures(g, path, []) == []
  {
  }

  /** The edge joins a symbol of the file that has a successor to another file. */
  ghost predicate FindsSuccessor(g: Graph, path: Path, ts: seq<SymbolNode>, k: EdgeKey) {
    exists n, m, i :: Joins(g, path, k, n, m) && Successor(g, path, ts, n, i)
  }

  lemma FoundMeaning(g: Graph, path: Path, ts: seq<SymbolNode>, g2: Graph, k: EdgeKey)
    requires WellFormed(g) && InPath(ts, path) && Grows(WithoutFile(g, path), Stamped(ts, g.nextId), g2)
    requires IsCaptured(g, path, k)
    ensures Relinks(g2, path, Capture(g, path, k)) <==> FindsSuccessor(g, path, ts, k)
  {
    hide WellFormed, InFile, NameOf, QualifiedNameOf, RelinkIndex, Successor, InPath, Relinks, Grows, WithoutFile,
         Stamped;
    DroppedExactly(g, path, ts, g2, k);
    CapturedMeaning(g, path, k);
    forall n, m | Joins(g, path, k, n, m)
      ensures CaptureIndex(g, path, ts, Capture(g, path, k)).Some? <==> exists i :: Successor(g, path, ts, n, i)
    {
      InFileOfNode(g, path, n);
      InFileOfNode(g, path, m);
      var found := RelinkIndex(g, path, ts, n.qualifiedName, n.name);
      if found.Some? {
        SuccessorMeaning(g, path, ts, n, found.value);
      }
      if i :| Successor(g, path, ts, n, i) {
        SuccessorMeaning(g, path, ts, n, i);
      }
    }
  }

  /**
    The telemetry counts the nodes of the file before and after, the edges evidenced in it, and of the
    edges carried over those whose symbol has a successor and those whose symbol has none.
   */
  lemma TelemetryCounts(g: Graph, path: Path, ts: seq<SymbolNode>, order: seq<EdgeKey>, g2: Graph, g3: Graph,
                        t: FileReindexTelemetry)
    requires WellFormed(g) && InPath(ts, path) && ReindexedBy(g, path, Some(ts), order, g2, g3, t)
    ensures t.nodesRemoved == |set n | n in g.nodes && n.file == path :: n.id|
    ensures t.nodesInserted == |ts| && t.edgesInserted == 0 && !t.fileMissing
    ensures t.edgesRemovedWithEvidence == |set k | k in g.store.edges && g.store.edges[k].evidenceFile == path|
    ensures t.crossFileEdgesStaled == |set k | k in order && FindsSuccessor(g, path, ts, k)|
    ensures t.crossFileEdgesStaled + t.crossFileEdgesDropped == |order|
  {
    hide Select, IsCaptured, RelinkedEdges, PutAll, Grows, WithoutFile, StoreOk, NameIndexed, QualifiedIndexed,
         Relinks, FindsSuccessor, Capture;
    CountedOnce(DefinedAt(path), g.nodes);
    assert (set n | n in g.nodes && n.file == path :: n.id) == MatchingIds(DefinedAt(path), g.nodes);
    EnumeratedAreEdges(g, path, order);
    RelinkedAreCounted(g, path, g2, order);
    forall k | k in order ensures Relinks(g2, path, Capture(g, path, k)) <==> FindsSuccessor(g, path, ts, k) {
      FoundMeaning(g, path, ts, g2, k);
    }
    assert FoundKeys(g, path, g2, order) == (set k | k in order && FindsSuccessor(g, path, ts, k));
  }

  /** A file that is gone leaves none of its nodes, and everything carried over is dropped. */
  lemma MissingFileCounts(g: Graph, path: Path, order: seq<EdgeKey>, g2: Graph, g3: Graph, t: FileReindexTelemetry)
    requires WellFormed(g) && ReindexedBy(g, path, None, order, g2, g3, t)
    ensures t.nodesInserted == 0 && t.fileMissing && t.crossFileEdgesStaled == 0
    ensures t.crossFileEdgesDropped == |order|
  {
    hide Select, IsCaptured, RelinkedEdges, PutAll, Grows, WithoutFile, StoreOk, NameIndexed, QualifiedIndexed,
         Relinks, FindsSuccessor, Capture, Successor;
    EnumeratedAreEdges(g, path, order);
    RelinkedAreCounted(g, path, g2, order);
    forall k | k in order ensures !Relinks(g2, path, Capture(g, path, k)) {
      FoundMeaning(g, path, [], g2, k);
      NoSuccessor(g, path, k);
    }
    assert FoundKeys(g, path, g2, order) == {};
  }

  lemma NoSuccessor(g: Graph, path: Path, k: EdgeKey)
    ensures !FindsSuccessor(g, path, [], k)
  {
    hide OutsideList;
  }
}
