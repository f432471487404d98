/**
  The surgical single-file reindex: capture the cross-file edges, remove the file's nodes,
  re-extract, re-link.
 */
module Reindex {
  import opened Symbols
  import opened NodeQueries
  import opened SymbolGraphs
  import opened FileRemoval

  /** At most this many nodes of a name are looked at when an edge is re-linked. */
  const LOOKUP_LIMIT: nat := 4

  datatype FileReindexTelemetry = FileReindexTelemetry(
    nodesRemoved: nat,
    nodesInserted: nat,
    edgesRemovedWithEvidence: nat,
    edgesInserted: nat,
    crossFileEdgesStaled: nat,
    crossFileEdgesDropped: nat,
    fileMissing: bool
  )

  datatype CapturedEdge = CapturedEdge(
    fileQname: string,
    fileName: string,
    incoming: bool,
    otherId: SymbolId,
    kind: EdgeKind,
    origin: AnalysisOrigin,
    confidence: real,
    evidenceFile: Path,
    staleEvidenceCount: u32,
    createdAtEpoch: nat
  )

  function FileIds(ns: seq<SymbolNode>, path: Path): seq<SymbolId> {
    IdsOf(Select(DefinedAt(path), ns))
  }

  predicate InFile(ns: seq<SymbolNode>, path: Path, id: SymbolId) {
    id in FileIds(ns, path)
  }

  function SaturatingSucc(n: u32): u32 {
    if n == U32_MAX then n else n + 1
  }

  function FileSide(g: Graph, path: Path, k: EdgeKey): SymbolId {
    if InFile(g.nodes, path, k.to) then k.to else k.from
  }

  function NameOf(g: Graph, id: SymbolId): string {
    match GetNode(g.nodes, id) case Some(n) => n.name case None => ""
  }

  function QualifiedNameOf(g: Graph, id: SymbolId): string {
    match GetNode(g.nodes, id) case Some(n) => n.qualifiedName case None => ""
  }

  /** A cross-file edge: evidenced elsewhere, exactly one end in the file, and that end has a name. */
  predicate IsCaptured(g: Graph, path: Path, k: EdgeKey) {
    && k in g.store.edges
    && g.store.edges[k].evidenceFile != path
    && InFile(g.nodes, path, k.from) != InFile(g.nodes, path, k.to)
    && !(NameOf(g, FileSide(g, path, k)) == "" && QualifiedNameOf(g, FileSide(g, path, k)) == "")
  }

  function Capture(g: Graph, path: Path, k: EdgeKey): CapturedEdge
    requires k in g.store.edges
  {
    var e := g.store.edges[k];
    var incoming := InFile(g.nodes, path, k.to);
    CapturedEdge(QualifiedNameOf(g, FileSide(g, path, k)), NameOf(g, FileSide(g, path, k)), incoming,
                 if incoming then k.from else k.to, e.kind, e.origin, e.confidence, e.evidenceFile,
                 e.staleEvidenceCount, e.createdAtEpoch)
  }

  function Captures(g: Graph, path: Path, order: seq<EdgeKey>): (r: seq<CapturedEdge>)
    requires forall k :: k in order ==> k in g.store.edges
    ensures |r| == |order| && forall i :: 0 <= i < |r| ==> r[i] == Capture(g, path, order[i])
  {
    if order == [] then [] else [Capture(g, path, order[0])] + Captures(g, path, order[1..])
  }

  /** The node a captured edge is re-attached to: by qualified name, else by bare name, in this file only. */
  function Relink(g: Graph, path: Path, cap: CapturedEdge): Option<SymbolId> {
    var byQname := if cap.fileQname == "" then None
                   else FirstAt(Lookup(g.nodes, g.qualifiedIndex, cap.fileQname, LOOKUP_LIMIT), path);
    if byQname.Some? then byQname
    else if cap.fileName == "" then None
    else FirstAt(Lookup(g.nodes, g.nameIndex, cap.fileName, LOOKUP_LIMIT), path)
  }

  function RelinkedEdge(cap: CapturedEdge, node: SymbolId): DirectEdge {
    DirectEdge(if cap.incoming then cap.otherId else node, if cap.incoming then node else cap.otherId,
               cap.kind, cap.origin, cap.confidence, cap.evidenceFile, cap.createdAtEpoch,
               SaturatingSucc(cap.staleEvidenceCount))
  }

  predicate Relinks(g: Graph, path: Path, cap: CapturedEdge) {
    Relink(g, path, cap).Some? && GetNode(g.nodes, cap.otherId).Some?
  }

  function RelinkedEdges(g: Graph, path: Path, caps: seq<CapturedEdge>): seq<DirectEdge> {
    if caps == [] then []
    else
      var cap := caps[|caps| - 1];
      RelinkedEdges(g, path, caps[..|caps| - 1])
      + if Relinks(g, path, cap) then [RelinkedEdge(cap, Relink(g, path, cap).value)] else []
  }

  function Stamped(ts: seq<SymbolNode>, base: nat): (r: seq<SymbolNode>)
    ensures |r| == |ts| && forall i :: 0 <= i < |ts| ==> r[i] == ts[i].(id := base + i)
  {
    seq(|ts|, i requires 0 <= i < |ts| => ts[i].(id := base + i))
  }

  function Extracted(source: Option<seq<SymbolNode>>): seq<SymbolNode> {
    if source.Some? then source.value else []
  }

  ghost predicate Enumerates(order: seq<EdgeKey>, g: Graph, path: Path) {
    && (forall k :: k in order <==> IsCaptured(g, path, k))
    && (forall i, j :: 0 <= i < j < |order| ==> order[i] != order[j])
  }

  /** `c` records some captured edge. */
  ghost predicate IsCaptureOf(g: Graph, path: Path, c: CapturedEdge) {
    exists k :: k in g.store.edges && IsCaptured(g, path, k) && c == Capture(g, path, k)
  }

  function WithoutFile(g: Graph, path: Path): Graph {
    RemoveAll(g, FileIds(g.nodes, path))
  }

  /**
    `g3` and `t` are a possible outcome on `g`, where the source (absent when the file is gone)
    extracts to the given nodes; `order` is the iteration order over the captured edges and `g2`
    the graph between extraction and re-linking.
   */
  ghost predicate ReindexedBy(g: Graph, path: Path, source: Option<seq<SymbolNode>>, order: seq<EdgeKey>,
                              g2: Graph, g3: Graph, t: FileReindexTelemetry)
  {
    && Enumerates(order, g, path)
    && Grows(WithoutFile(g, path), Stamped(Extracted(source), g.nextId), g2)
    && g2.store == WithoutFile(g, path).store && WellFormed(g2)
    && g3 == g2.(store := PutAll(g2.store, RelinkedEdges(g2, path, Captures(g, path, order))))
    && t.nodesRemoved == |Select(DefinedAt(path), g.nodes)|
    && t.nodesInserted == |Extracted(source)|
    && t.edgesRemovedWithEvidence == |EvidencedIn(g, path)|
    && t.edgesInserted == 0
    && t.crossFileEdgesStaled == |RelinkedEdges(g2, path, Captures(g, path, order))|
    && t.crossFileEdgesStaled + t.crossFileEdgesDropped == |order|
    && t.fileMissing == source.None?
  }

  function EvidencedIn(g: Graph, path: Path): set<EdgeKey> {
    set k | k in g.store.edges && g.store.edges[k].evidenceFile == path
  }

  // ------------------------------------------------------------ the pass

  method CaptureEdges(g: SymbolGraph, path: Path) returns (captured: seq<CapturedEdge>, ghost order: seq<EdgeKey>)
    requires WellFormed(g.Value())
    ensures Enumerates(order, g.Value(), path)
    ensures captured == Captures(g.Value(), path, order)
    ensures forall c :: c in captured <==> IsCaptureOf(g.Value(), path, c)
  {
    hide InFile, NameOf, QualifiedNameOf, NodesOk, NameIndexed, QualifiedIndexed, FileIds;
    captured, order := [], [];
    var rest := g.edges.Keys;
    while rest != {}
      invariant rest <= g.edges.Keys
      invariant forall k :: k in order <==> k !in rest && IsCaptured(g.Value(), path, k)
      invariant forall i, j :: 0 <= i < j < |order| ==> order[i] != order[j]
      invariant captured == Captures(g.Value(), path, order)
      decreases rest
    {
      var k :| k in rest;
      var edge := g.edges[k];
      var fromIn := InFile(g.nodes, path, edge.from);
      var toIn := InFile(g.nodes, path, edge.to);
      if edge.evidenceFile != path && fromIn != toIn {
        var fileId := if toIn then edge.to else edge.from;
        var otherId := if toIn then edge.from else edge.to;
        var node := GetNode(g.nodes, fileId);
        var qname := if node.Some? then node.value.qualifiedName else "";
        var name := if node.Some? then node.value.name else "";
        assert qname == QualifiedNameOf(g.Value(), fileId) &&
               name == NameOf(g.Value(), fileId) by { NamesOf(g.Value(), fileId); }
        if !(name == "" && qname == "") {
          captured := captured + [CapturedEdge(qname, name, toIn, otherId, edge.kind, edge.origin, edge.confidence,
                                               edge.evidenceFile, edge.staleEvidenceCount, edge.createdAtEpoch)];
          CapturesSnoc(g.Value(), path, order, k);
          order := order + [k];
        }
      }
      rest := rest - {k};
    }
    CapturesMembers(g.Value(), path, order);
  }

  lemma CapturesMembers(g: Graph, path: Path, order: seq<EdgeKey>)
    requires Enumerates(order, g, path) && forall k :: k in order ==> k in g.store.edges
    ensures forall c :: c in Captures(g, path, order) <==> IsCaptureOf(g, path, c)
  {
    hide IsCaptured, Capture;
    var caps := Captures(g, path, order);
    forall c | c in caps ensures IsCaptureOf(g, path, c) {
      var i :| 0 <= i < |caps| && caps[i] == c;
      assert order[i] in order;
    }
    forall c | IsCaptureOf(g, path, c) ensures c in caps {
      var k :| k in g.store.edges && IsCaptured(g, path, k) && c == Capture(g, path, k);
      var i :| 0 <= i < |order| && order[i] == k;
      assert caps[i] == c;
    }
  }

  lemma NamesOf(g: Graph, id: SymbolId)
    ensures QualifiedNameOf(g, id) ==
              if GetNode(g.nodes, id).Some? then GetNode(g.nodes, id).value.qualifiedName else ""
    ensures NameOf(g, id) == if GetNode(g.nodes, id).Some? then GetNode(g.nodes, id).value.name else ""
  {
  }

  lemma CapturesSnoc(g: Graph, path: Path, order: seq<EdgeKey>, k: EdgeKey)
    requires k in g.store.edges && forall x :: x in order ==> x in g.store.edges
    ensures Captures(g, path, order + [k]) == Captures(g, path, order) + [Capture(g, path, k)]
  {
  }

  method RemoveNodes(g: SymbolGraph, ids: seq<SymbolId>)
    requires WellFormed(g.Value())
    modifies g
    ensures WellFormed(g.Value()) && g.Value() == RemoveAll(old(g.Value()), ids)
  {
    hide WellFormed, WithoutNode;
    for i := 0 to |ids|
      invariant WellFormed(g.Value())
      invariant g.Value() == RemoveAll(old(g.Value()), ids[..i])
    {
      RemoveAllSnoc(old(g.Value()), ids[..i], ids[i]);
      assert ids[..i + 1] == ids[..i] + [ids[i]];
      g.RemoveNode(ids[i]);
    }
    assert ids[..|ids|] == ids;
  }

  lemma {:induction false} RemoveAllSnoc(g: Graph, ids: seq<SymbolId>, id: SymbolId)
    ensures RemoveAll(g, ids + [id]) == WithoutNode(RemoveAll(g, ids), id)
    decreases ids
  {
    hide WithoutNode;
    if ids == [] {
      assert [id][1..] == [];
      assert RemoveAll(g, [id]) == RemoveAll(WithoutNode(g, id), []);
    } else {
      assert (ids + [id])[0] == ids[0] && (ids + [id])[1..] == ids[1..] + [id];
      RemoveAllSnoc(WithoutNode(g, ids[0]), ids[1..], id);
    }
  }

  /** Extraction adds nodes only. */
  method Extract(g: SymbolGraph, ts: seq<SymbolNode>)
    requires WellFormed(g.Value())
    modifies g
    ensures WellFormed(g.Value())
    ensures Grows(old(g.Value()), Stamped(ts, old(g.nextId)), g.Value())
    ensures g.Value().store == old(g.Value().store)
    ensures |g.nodes| == |old(g.nodes)| + |ts|
  {
    hide StoreOk, NameIndexed, QualifiedIndexed, Pushed, Select, IndexAll, IndexAllQualified;
    GrowsRefl(g.Value());
    assert Stamped([], g.nextId) == [];
    for i := 0 to |ts|
      invariant WellFormed(g.Value())
      invariant Grows(old(g.Value()), Stamped(ts[..i], old(g.nextId)), g.Value())
      invariant g.Value().store == old(g.Value().store)
    {
      ghost var before := g.Value();
      ghost var k;
      var id;
      id, k := g.InsertNode(ts[i]);
      GrowsStep(old(g.Value()), Stamped(ts[..i], old(g.nextId)), before, ts[i], k);
      assert Stamped(ts[..i + 1], old(g.nextId)) == Stamped(ts[..i], old(g.nextId)) + [ts[i].(id := before.nextId)];
    }
    assert ts[..|ts|] == ts;
  }

  method RelinkEdges(g: SymbolGraph, path: Path, captured: seq<CapturedEdge>) returns (staled: nat, dropped: nat)
    requires WellFormed(g.Value())
    modifies g`edges, g`edgeSet
    ensures WellFormed(g.Value())
    ensures g.Value() ==
              old(g.Value()).(store := PutAll(old(g.Value().store), RelinkedEdges(old(g.Value()), path, captured)))
    ensures staled == |RelinkedEdges(old(g.Value()), path, captured)|
    ensures staled + dropped == |captured|
  {
    hide StoreOk, NameIndexed, QualifiedIndexed, PutAll, Put, Lookup, FirstAt;
    ghost var start := g.Value();
    staled, dropped := 0, 0;
    PutAllNone(start.store);
    assert RelinkedEdges(start, path, captured[..0]) == [];
    for i := 0 to |captured|
      invariant WellFormed(g.Value())
      invariant g.Value() == start.(store := PutAll(start.store, RelinkedEdges(start, path, captured[..i])))
      invariant staled == |RelinkedEdges(start, path, captured[..i])|
      invariant staled + dropped == i
    {
      var cap := captured[i];
      RelinkedSnoc(start, path, captured, i);
      var byQname := if cap.fileQname == "" then None
                     else FirstAt(Lookup(g.nodes, g.qualifiedIndex, cap.fileQname, LOOKUP_LIMIT), path);
      var found := byQname;
      if byQname.None? && cap.fileName != "" {
        found := FirstAt(Lookup(g.nodes, g.nameIndex, cap.fileName, LOOKUP_LIMIT), path);
      }
      assert found == Relink(start, path, cap);
      if found.None? {
        dropped := dropped + 1;
        continue;
      }
      if GetNode(g.nodes, cap.otherId).None? {
        dropped := dropped + 1;
        continue;
      }
      var from := if cap.incoming then cap.otherId else found.value;
      var to := if cap.incoming then found.value else cap.otherId;
      var stale := SaturatingSucc(cap.staleEvidenceCount);
      var e := NewEdge(from, to, cap.kind, cap.origin, cap.confidence, cap.evidenceFile)
                 .(createdAtEpoch := cap.createdAtEpoch, staleEvidenceCount := stale);
      RelinkIsLive(start, path, cap);
      PutAllOne(start.store, RelinkedEdges(start, path, captured[..i]), e);
      var ok := g.InsertEdge(e);
      if ok {
        staled := staled + 1;
      } else {
        dropped := dropped + 1;
      }
    }
    assert captured[..|captured|] == captured;
  }

  lemma RelinkedSnoc(g: Graph, path: Path, caps: seq<CapturedEdge>, i: nat)
    requires i < |caps|
    ensures RelinkedEdges(g, path, caps[..i + 1]) ==
            if Relinks(g, path, caps[i])
            then RelinkedEdges(g, path, caps[..i]) + [RelinkedEdge(caps[i], Relink(g, path, caps[i]).value)]
            else RelinkedEdges(g, path, caps[..i])
  {
    hide Relink;
    assert caps[..i + 1][..i] == caps[..i];
  }

  /** A lookup only returns live nodes. */
  lemma {:induction false} FirstAtLives(ns: seq<SymbolNode>, found: seq<SymbolNode>, path: Path)
    requires forall n :: n in found ==> n in ns
    ensures FirstAt(found, path).Some? ==> exists n :: n in ns && n.id == FirstAt(found, path).value && n.file == path
  {
    if found != [] && found[0].file != path {
      FirstAtLives(ns, found[1..], path);
    } else if found != [] {
      assert found[0] in ns;
    }
  }

  lemma {:induction false} NodesLive(ns: seq<SymbolNode>, ids: seq<SymbolId>)
    requires UniqueIds(ns)
    ensures forall n :: n in Nodes(ns, ids) ==> n in ns && n.id in ids
  {
    if ids != [] {
      NodesLive(ns, ids[1..]);
      GetNodeFinds(ns, ids[0]);
      assert ids == [ids[0]] + ids[1..];
    }
  }

  lemma LookupLives(ns: seq<SymbolNode>, index: map<string, seq<SymbolId>>, key: string, path: Path)
    requires UniqueIds(ns)
    ensures var found := FirstAt(Lookup(ns, index, key, LOOKUP_LIMIT), path);
            found.Some? ==>
              exists n :: n in ns && n.id == found.value && n.file == path && key in index && n.id in index[key]
  {
    if key in index {
      var ids := if |index[key]| <= LOOKUP_LIMIT then index[key] else index[key][..LOOKUP_LIMIT];
      NodesLive(ns, ids);
      FirstAtLives(ns, Nodes(ns, ids), path);
      FirstAtListed(Nodes(ns, ids), path);
      var found := FirstAt(Lookup(ns, index, key, LOOKUP_LIMIT), path);
      if found.Some? {
        var n :| n in Nodes(ns, ids) && n.id == found.value && n.file == path;
        assert n in ns && n.id in index[key];
      }
    }
  }

  lemma {:induction false} FirstAtListed(found: seq<SymbolNode>, path: Path)
    ensures FirstAt(found, path).Some? ==>
              exists n :: n in found && n.id == FirstAt(found, path).value && n.file == path
  {
    if found != [] && found[0].file != path {
      FirstAtListed(found[1..], path);
      assert found == [found[0]] + found[1..];
    } else if found != [] {
      assert found[0] in found;
    }
  }

  lemma RelinkIsLive(g: Graph, path: Path, cap: CapturedEdge)
    requires WellFormed(g) && Relink(g, path, cap).Some?
    ensures GetNode(g.nodes, Relink(g, path, cap).value).Some?
  {
    hide Lookup, FirstAt, StoreOk, NameIndexed, QualifiedIndexed, GetNode;
    LookupLives(g.nodes, g.qualifiedIndex, cap.fileQname, path);
    LookupLives(g.nodes, g.nameIndex, cap.fileName, path);
    GetNodeFinds(g.nodes, Relink(g, path, cap).value);
  }

  method ReindexFile(g: SymbolGraph, path: Path, source: Option<seq<SymbolNode>>)
    returns (t: FileReindexTelemetry, ghost order: seq<EdgeKey>, ghost extracted: Graph)
    requires WellFormed(g.Value())
    modifies g
    ensures WellFormed(g.Value())
    ensures ReindexedBy(old(g.Value()), path, source, order, extracted, g.Value(), t)
  {
    hide WellFormed, Grows, PutAll, RelinkedEdges, RemoveAll, Select, IsCaptured, Captures;
    ghost var start := g.Value();
    var oldNodes := Select(DefinedAt(path), g.nodes);
    var oldIds := IdsOf(oldNodes);
    var evidenced := set k | k in g.edges && g.edges[k].evidenceFile == path;
    var captured;
    captured, order := CaptureEdges(g, path);
    RemoveNodes(g, oldIds);
    RemovalKeepsCounter(start, oldIds);
    var nodesBefore, edgesBefore := |g.nodes|, |g.edges|;
    if source.Some? {
      Extract(g, source.value);
    } else {
      ExtractNothing(g.Value());
    }
    extracted := g.Value();
    var nodesInserted := |g.nodes| - nodesBefore;
    var edgesInserted := |g.edges| - edgesBefore;
    var staled, dropped := RelinkEdges(g, path, captured);
    t := FileReindexTelemetry(|oldNodes|, nodesInserted, |evidenced|, edgesInserted, staled, dropped, source.None?);
    assert evidenced == EvidencedIn(start, path);
  }

  lemma ExtractNothing(g: Graph)
    requires WellFormed(g)
    ensures Grows(g, Stamped([], g.nextId), g)
  {
    hide StoreOk, NameIndexed, QualifiedIndexed;
    GrowsRefl(g);
    assert Stamped([], g.nextId) == [];
  }

  lemma {:induction false} RemovalKeepsCounter(g: Graph, ids: seq<SymbolId>)
    ensures RemoveAll(g, ids).nextId == g.nextId
    decreases ids
  {
    if ids != [] {
      RemovalKeepsCounter(WithoutNode(g, ids[0]), ids[1..]);
    }
  }
}
