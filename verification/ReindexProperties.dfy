/** What one fast reindex keeps, re-links and drops. */
module ReindexProperties {
  import opened Symbols
  import opened NodeQueries
  import opened SymbolGraphs
  import opened FileRemoval
  import opened Reindex

  /** An extractor places the symbols it finds in the file it was given. */
  ghost predicate InPath(ts: seq<SymbolNode>, path: Path) {
    forall n :: n in ts ==> n.file == path
  }

  lemma InFileMeaning(ns: seq<SymbolNode>, path: Path, id: SymbolId)
    ensures InFile(ns, path, id) <==> exists n :: n in ns && n.id == id && n.file == path
  {
    hide Select;
    IdsOfSelected(DefinedAt(path), ns);
  }

  lemma InFileOf(ns: seq<SymbolNode>, path: Path, n: SymbolNode)
    requires UniqueIds(ns) && n in ns
    ensures InFile(ns, path, n.id) <==> n.file == path
  {
    hide InFile;
    InFileMeaning(ns, path, n.id);
    if InFile(ns, path, n.id) {
      var m :| m in ns && m.id == n.id && m.file == path;
      UniqueIdsMeanSameNode(ns, n, m);
    }
  }

  lemma FileIdsDistinct(ns: seq<SymbolNode>, path: Path)
    requires UniqueIds(ns)
    ensures forall i, j :: 0 <= i < j < |FileIds(ns, path)| ==> FileIds(ns, path)[i] != FileIds(ns, path)[j]
    ensures forall id :: id in FileIds(ns, path) ==> id in Ids(ns)
  {
    hide Select;
    SelectUnique(DefinedAt(path), ns);
    IdsOfSelected(DefinedAt(path), ns);
  }

  ghost predicate InsideKey(ns: seq<SymbolNode>, path: Path, k: EdgeKey) {
    InFile(ns, path, k.from) || InFile(ns, path, k.to)
  }

  /** The list of an index without the file's own nodes. */
  ghost function OutsideList(g: Graph, index: map<string, seq<SymbolId>>, path: Path, key: string): seq<SymbolId> {
    WithoutAll(View(index, key), Members(FileIds(g.nodes, path)))
  }

  /** Removal takes the file's nodes, every edge and key that touches them, and their index entries. */
  lemma FileGone(g: Graph, path: Path)
    requires WellFormed(g)
    ensures WellFormed(WithoutFile(g, path))
    ensures WithoutFile(g, path).nextId == g.nextId
    ensures WithoutFile(g, path).nodes == Select(OutsideOf(path), g.nodes)
    ensures forall k :: k in WithoutFile(g, path).store.edges <==> k in g.store.edges && !InsideKey(g.nodes, path, k)
    ensures forall k ::
              k in WithoutFile(g, path).store.edges ==> WithoutFile(g, path).store.edges[k] == g.store.edges[k]
    ensures forall k :: k in WithoutFile(g, path).store.seen <==> k in g.store.seen && !InsideKey(g.nodes, path, k)
    ensures forall key :: View(WithoutFile(g, path).nameIndex, key) == OutsideList(g, g.nameIndex, path, key)
    ensures forall key :: View(WithoutFile(g, path).qualifiedIndex, key) == OutsideList(g, g.qualifiedIndex, path, key)
  {
    hide WellFormed, Select, View, WithoutAll, FileIds, RemoveAll;
    WellFormedNodesOk(g);
    FileIdsDistinct(g.nodes, path);
    RemoveAllEffect(g, FileIds(g.nodes, path));
    var ids := Members(FileIds(g.nodes, path));
    forall n | n in g.nodes ensures Matches(NotAmong(ids), n) == Matches(OutsideOf(path), n) {
      InFileOf(g.nodes, path, n);
    }
    SelectSame(NotAmong(ids), OutsideOf(path), g.nodes);
  }

  // ------------------------------------------------------------ frame

  lemma StampedMembers(ts: seq<SymbolNode>, base: nat, path: Path)
    requires InPath(ts, path)
    ensures forall n :: n in Stamped(ts, base) ==> n.file == path && n.id >= base
  {
    forall n | n in Stamped(ts, base) ensures n.file == path && n.id >= base {
      var i :| 0 <= i < |ts| && Stamped(ts, base)[i] == n;
      assert ts[i] in ts;
    }
  }

  lemma {:induction false} RelinkedMembers(g: Graph, path: Path, caps: seq<CapturedEdge>)
    ensures forall e :: e in RelinkedEdges(g, path, caps) <==>
              exists c :: c in caps && Relinks(g, path, c) && e == RelinkedEdge(c, Relink(g, path, c).value)
  {
    hide Relink;
    if caps != [] {
      var rest, last := caps[..|caps| - 1], caps[|caps| - 1];
      RelinkedMembers(g, path, rest);
      assert caps == rest + [last];
    }
  }

  /** Extraction leaves the outside nodes alone and the file holds exactly the extracted nodes. */
  lemma ExtractedNodes(g: Graph, path: Path, ts: seq<SymbolNode>, g2: Graph)
    requires WellFormed(g) && InPath(ts, path)
    requires Grows(WithoutFile(g, path), Stamped(ts, g.nextId), g2)
    ensures Select(OutsideOf(path), g2.nodes) == Select(OutsideOf(path), g.nodes)
    ensures forall n :: n in g2.nodes && n.file == path <==> n in Stamped(ts, g.nextId)
    ensures forall n :: n in g2.nodes && n.file != path <==> n in g.nodes && n.file != path
    ensures forall id: SymbolId :: id < g.nextId ==> !InFile(g2.nodes, path, id)
    ensures forall id: SymbolId :: InFile(g2.nodes, path, id) ==> g.nextId <= id < g.nextId + |ts|
  {
    hide WellFormed, Select, IndexAll, IndexAllQualified, WithoutFile, InFile;
    FileGone(g, path);
    var g1 := WithoutFile(g, path);
    WellFormedNodesOk(g1);
    StampedMembers(ts, g.nextId, path);
    SelectMembers(OutsideOf(path), g.nodes);
    GrowsSelect(g1, Stamped(ts, g.nextId), g2, OutsideOf(path));
    SelectAll(OutsideOf(path), g1.nodes);
    forall id: SymbolId | InFile(g2.nodes, path, id) ensures g.nextId <= id < g.nextId + |ts| {
      InFileMeaning(g2.nodes, path, id);
      var n :| n in g2.nodes && n.id == id && n.file == path;
      var i :| 0 <= i < |ts| && Stamped(ts, g.nextId)[i] == n;
    }
  }

  /** Keys that touch the file neither before nor after mean the same edge. */
  lemma EdgesElsewhereKept(g: Graph, path: Path, g2: Graph, g3: Graph, es: seq<DirectEdge>)
    requires WellFormed(g) && g2.store == WithoutFile(g, path).store && g3 == g2.(store := PutAll(g2.store, es))
    requires forall e :: e in es ==> InsideKey(g2.nodes, path, KeyOf(e))
    ensures forall k :: !InsideKey(g.nodes, path, k) && !InsideKey(g3.nodes, path, k) ==>
              (k in g3.store.edges <==> k in g.store.edges) &&
              (k in g.store.edges ==> g3.store.edges[k] == g.store.edges[k])
  {
    hide WellFormed, InsideKey, WithoutFile, PutAll, OutsideList, View, Select;
    FileGone(g, path);
    PutAllEffect(g2.store, es);
  }

  /** Old ids are not reused, so an edge away from the old file is away from the new one. */
  lemma ElsewhereStays(g: Graph, path: Path, g3: Graph)
    requires WellFormed(g) && forall id: SymbolId :: id < g.nextId ==> !InFile(g3.nodes, path, id)
    ensures forall k :: k in g.store.edges ==> !InsideKey(g3.nodes, path, k)
  {
    hide InFile, NameIndexed, QualifiedIndexed;
    forall k | k in g.store.edges ensures !InsideKey(g3.nodes, path, k) {
      assert k.from in Ids(g.nodes) && k.to in Ids(g.nodes);
      assert k.from < g.nextId && k.to < g.nextId;
    }
  }

  /**
    Nodes of other files, their order, and edges that do not touch the file are exactly as before;
    nothing else survives except re-linked edges.
   */
  lemma ReindexFrame(g: Graph, path: Path, source: Option<seq<SymbolNode>>, order: seq<EdgeKey>,
                     g2: Graph, g3: Graph, t: FileReindexTelemetry)
    requires WellFormed(g) && InPath(Extracted(source), path)
    requires ReindexedBy(g, path, source, order, g2, g3, t)
    ensures Select(OutsideOf(path), g3.nodes) == Select(OutsideOf(path), g.nodes)
    ensures forall n :: n in g3.nodes && n.file == path <==> n in Stamped(Extracted(source), g.nextId)
    ensures forall k :: !InsideKey(g.nodes, path, k) && !InsideKey(g3.nodes, path, k) ==>
              (k in g3.store.edges <==> k in g.store.edges) &&
              (k in g.store.edges ==> g3.store.edges[k] == g.store.edges[k])
    ensures forall k :: k in g.store.edges && !InsideKey(g.nodes, path, k) ==> !InsideKey(g3.nodes, path, k)
  {
    hide WellFormed, Select, Grows, WithoutFile, InFile, InsideKey, IsCaptured, RelinkedEdges, PutAll, Captures,
         Stamped, Enumerates;
    var ts := Extracted(source);
    EnumeratedAreEdges(g, path, order);
    ExtractedNodes(g, path, ts, g2);
    var caps := Captures(g, path, order);
    WellFormedNodesOk(g2);
    RelinkedTouchFile(g, path, ts, g2, caps);
    EdgesElsewhereKept(g, path, g2, g3, RelinkedEdges(g2, path, caps));
    ElsewhereStays(g, path, g3);
  }

  lemma RelinkedTouchFile(g: Graph, path: Path, ts: seq<SymbolNode>, g2: Graph, caps: seq<CapturedEdge>)
    requires UniqueIds(g2.nodes)
    ensures forall e :: e in RelinkedEdges(g2, path, caps) ==> InsideKey(g2.nodes, path, KeyOf(e))
  {
    hide InFile, Relink, RelinkedEdges;
    RelinkedMembers(g2, path, caps);
    forall c | c in caps && Relinks(g2, path, c) ensures InFile(g2.nodes, path, Relink(g2, path, c).value) {
      RelinkInFile(g2, path, c);
    }
  }

  lemma RelinkInFile(g: Graph, path: Path, cap: CapturedEdge)
    requires UniqueIds(g.nodes) && Relink(g, path, cap).Some?
    ensures InFile(g.nodes, path, Relink(g, path, cap).value)
  {
    hide Lookup, FirstAt, InFile;
    LookupLives(g.nodes, g.qualifiedIndex, cap.fileQname, path);
    LookupLives(g.nodes, g.nameIndex, cap.fileName, path);
    InFileMeaning(g.nodes, path, Relink(g, path, cap).value);
  }

  // ------------------------------------------------------------ faithfulness

  /** The edge `k` of the reindexed graph is a copy of the captured edge `c`. */
  ghost predicate FaithfulCopy(g: Graph, g3: Graph, path: Path, c: EdgeKey, k: EdgeKey) {
    && IsCaptured(g, path, c) && k in g3.store.edges
    && var e0, e := g.store.edges[c], g3.store.edges[k];
    && e.kind == e0.kind && e.origin == e0.origin && e.confidence == e0.confidence
    && e.evidenceFile == e0.evidenceFile && e.createdAtEpoch == e0.createdAtEpoch
    && e.staleEvidenceCount == SaturatingSucc(e0.staleEvidenceCount)
    && (if InFile(g.nodes, path, c.to)
        then k.from == c.from && SameNamed(g, g3, path, c.to, k.to)
        else k.to == c.to && SameNamed(g, g3, path, c.from, k.from))
  }

  /** `id2` is a node of the file that bears the bare name or the qualified name of the old node `id`. */
  ghost predicate SameNamed(g: Graph, g3: Graph, path: Path, id: SymbolId, id2: SymbolId) {
    exists n :: n in g3.nodes && n.id == id2 && n.file == path &&
      (n.name == NameOf(g, id) != "" || n.qualifiedName == QualifiedNameOf(g, id) != "")
  }

  lemma RelinkSameName(g: Graph, path: Path, cap: CapturedEdge)
    requires WellFormed(g) && Relink(g, path, cap).Some?
    ensures exists n :: n in g.nodes && n.id == Relink(g, path, cap).value && n.file == path &&
              (n.name == cap.fileName != "" || n.qualifiedName == cap.fileQname != "")
  {
    hide Lookup, FirstAt, StoreOk;
    LookupLives(g.nodes, g.qualifiedIndex, cap.fileQname, path);
    LookupLives(g.nodes, g.nameIndex, cap.fileName, path);
    if cap.fileQname != "" && FirstAt(Lookup(g.nodes, g.qualifiedIndex, cap.fileQname, LOOKUP_LIMIT), path).Some? {
      var n :| n in g.nodes && n.id == Relink(g, path, cap).value && n.file == path &&
               cap.fileQname in g.qualifiedIndex && n.id in g.qualifiedIndex[cap.fileQname];
      var m :| m in g.nodes && m.id == n.id && HasQualifiedKey(m) && m.qualifiedName == cap.fileQname;
      UniqueIdsMeanSameNode(g.nodes, n, m);
    } else {
      var n :| n in g.nodes && n.id == Relink(g, path, cap).value && n.file == path &&
               cap.fileName in g.nameIndex && n.id in g.nameIndex[cap.fileName];
      var m :| m in g.nodes && m.id == n.id && m.name == cap.fileName;
      UniqueIdsMeanSameNode(g.nodes, n, m);
    }
  }

  /** After removal no key touches a node of the file, so an edge that does was re-linked. */
  lemma FileKeysAreFresh(g: Graph, path: Path, g2: Graph, k: EdgeKey)
    requires WellFormed(g) && g2.store == WithoutFile(g, path).store
    requires forall id: SymbolId :: id < g.nextId ==> !InFile(g2.nodes, path, id)
    requires InsideKey(g2.nodes, path, k)
    ensures k !in g2.store.edges && k !in g2.store.seen
  {
    hide WithoutFile, InFile, NameIndexed, QualifiedIndexed;
    FileGone(g, path);
    assert forall x :: x in g2.store.seen ==> x.from in Ids(g.nodes) && x.to in Ids(g.nodes);
    assert forall id :: id in Ids(g.nodes) ==> id < g.nextId;
  }

  /** An edge of the file was put there by re-linking some captured edge. */
  lemma RelinkedFrom(g: Graph, path: Path, source: Option<seq<SymbolNode>>, order: seq<EdgeKey>, g2: Graph, g3: Graph,
                     t: FileReindexTelemetry, k: EdgeKey) returns (c: EdgeKey)
    requires WellFormed(g) && InPath(Extracted(source), path)
    requires ReindexedBy(g, path, source, order, g2, g3, t)
    requires k in g3.store.edges && InsideKey(g3.nodes, path, k)
    ensures IsCaptured(g, path, c) && c in g.store.edges
    ensures var cap := Capture(g, path, c);
            && Relinks(g2, path, cap) && g3.store.edges[k] == RelinkedEdge(cap, Relink(g2, path, cap).value)
            && KeyOf(g3.store.edges[k]) == k
  {
    hide WellFormed, WithoutFile, InFile, InsideKey, RelinkedEdges, PutAll, Stamped, Grows, Relink, RelinkedEdge,
         Capture, GetNode, IsCaptured, Select, EvidencedIn;
    ExtractedNodes(g, path, Extracted(source), g2);
    EnumeratedAreEdges(g, path, order);
    var caps := Captures(g, path, order);
    PutAllEffect(g2.store, RelinkedEdges(g2, path, caps));
    RelinkedMembers(g2, path, caps);
    FileKeysAreFresh(g, path, g2, k);
    var e := g3.store.edges[k];
    assert e in RelinkedEdges(g2, path, caps) && KeyOf(e) == k;
    var cap :| cap in caps && Relinks(g2, path, cap) && e == RelinkedEdge(cap, Relink(g2, path, cap).value);
    var i :| 0 <= i < |order| && caps[i] == cap;
    c := order[i];
    assert c in order;
  }

  lemma OutcomeWellFormed(g: Graph, path: Path, source: Option<seq<SymbolNode>>, order: seq<EdgeKey>,
                          g2: Graph, g3: Graph, t: FileReindexTelemetry)
    requires ReindexedBy(g, path, source, order, g2, g3, t)
    ensures WellFormed(g2) && g3.nodes == g2.nodes
  {
    hide WellFormed, WithoutFile, Captures, RelinkedEdges, Select, Grows;
  }

  /** Every edge that touches the file afterwards is a faithful copy of a captured edge, one evidence step staler. */
  lemma RelinkedFaithfully(g: Graph, path: Path, source: Option<seq<SymbolNode>>, order: seq<EdgeKey>,
                           g2: Graph, g3: Graph, t: FileReindexTelemetry, k: EdgeKey)
    requires WellFormed(g) && InPath(Extracted(source), path)
    requires ReindexedBy(g, path, source, order, g2, g3, t)
    requires k in g3.store.edges && InsideKey(g3.nodes, path, k)
    ensures exists c :: FaithfulCopy(g, g3, path, c, k)
  {
    hide ReindexedBy, WellFormed, InFile, Relink, NameOf, QualifiedNameOf;
    OutcomeWellFormed(g, path, source, order, g2, g3, t);
    var c := RelinkedFrom(g, path, source, order, g2, g3, t, k);
    var cap := Capture(g, path, c);
    RelinkSameName(g2, path, cap);
    LiveKey(g, c);
    assert FaithfulCopy(g, g3, path, c, k);
  }

  lemma LiveKey(g: Graph, c: EdgeKey)
    requires WellFormed(g) && c in g.store.edges
    ensures KeyOf(g.store.edges[c]) == c
  {
  }

  // ------------------------------------------------------------ what is dropped

  function FirstMatch(ts: seq<SymbolNode>, q: NodeQuery): (r: Option<nat>)
    ensures r.Some? ==> r.value < |ts| && Matches(q, ts[r.value]) && forall i :: 0 <= i < r.value ==> !Matches(q, ts[i])
    ensures r.None? ==> forall n :: n in ts ==> !Matches(q, n)
  {
    if ts == [] then None
    else if Matches(q, ts[0]) then Some(0)
    else
      assert ts == [ts[0]] + ts[1..];
      match FirstMatch(ts[1..], q)
      case None => None
      case Some(i) => Some(i + 1)
  }

  /** Which extracted symbol a captured edge goes to, decided before the reindex. */
  ghost function RelinkIndex(g: Graph, path: Path, ts: seq<SymbolNode>, qname: string, name: string): Option<nat> {
    var byQname :=
      if qname != "" && |OutsideList(g, g.qualifiedIndex, path, qname)| < LOOKUP_LIMIT
      then FirstMatch(ts, QualifiedAs(qname)) else None;
    if byQname.Some? then byQname
    else if name != "" && |OutsideList(g, g.nameIndex, path, name)| < LOOKUP_LIMIT
    then FirstMatch(ts, Named(name)) else None
  }

  ghost function CaptureIndex(g: Graph, path: Path, ts: seq<SymbolNode>, cap: CapturedEdge): Option<nat> {
    RelinkIndex(g, path, ts, cap.fileQname, cap.fileName)
  }

  lemma SameMatch(q: NodeQuery, n: SymbolNode, id: SymbolId)
    requires q.Named? || q.QualifiedAs?
    ensures Matches(q, n.(id := id)) == Matches(q, n)
  {
  }

  lemma {:induction false} StampedFirst(ts: seq<SymbolNode>, base: nat, q: NodeQuery)
    requires q.Named? || q.QualifiedAs?
    ensures Select(q, Stamped(ts, base)) == [] <==> FirstMatch(ts, q).None?
    ensures FirstMatch(ts, q).Some? ==> Select(q, Stamped(ts, base))[0].id == base + FirstMatch(ts, q).value
    decreases ts
  {
    hide Matches;
    if ts != [] {
      assert Stamped(ts, base)[1..] == Stamped(ts[1..], base + 1);
      assert Matches(q, Stamped(ts, base)[0]) == Matches(q, ts[0]) by {
        SameMatch(q, ts[0], base);
      }
      StampedFirst(ts[1..], base + 1, q);
    }
  }

  lemma OutsideLives(g: Graph, path: Path, key: string, g2: Graph)
    requires WellFormed(g)
    requires forall n :: n in g.nodes && n.file != path ==> n in g2.nodes
    ensures Outside(g2.nodes, OutsideList(g, g.nameIndex, path, key), path)
    ensures Outside(g2.nodes, OutsideList(g, g.qualifiedIndex, path, key), path)
  {
    hide Select, WithoutAll, FileIds, StoreOk;
    var gone := Members(FileIds(g.nodes, path));
    WithoutAllMembers(View(g.nameIndex, key), gone);
    WithoutAllMembers(View(g.qualifiedIndex, key), gone);
    forall id | id in OutsideList(g, g.nameIndex, path, key)
      ensures exists n :: n in g2.nodes && n.id == id && n.file != path
    {
      var n :| n in g.nodes && n.id == id && n.name == key;
      InFileOf(g.nodes, path, n);
    }
    forall id | id in OutsideList(g, g.qualifiedIndex, path, key)
      ensures exists n :: n in g2.nodes && n.id == id && n.file != path
    {
      var n :| n in g.nodes && n.id == id && HasQualifiedKey(n) && n.qualifiedName == key;
      InFileOf(g.nodes, path, n);
    }
  }

  lemma InsideLives(ins: seq<SymbolNode>, path: Path, q: NodeQuery, ns: seq<SymbolNode>)
    requires forall n :: n in ins ==> n in ns && n.file == path
    ensures Inside(ns, IdsOf(Select(q, ins)), path)
  {
    hide Select;
    IdsOfSelected(q, ins);
  }

  /** Re-linking finds the first extracted symbol of the name unless four outside symbols bear it. */
  lemma RelinkMeaning(g: Graph, path: Path, ts: seq<SymbolNode>, g2: Graph, cap: CapturedEdge)
    requires WellFormed(g) && InPath(ts, path)
    requires Grows(WithoutFile(g, path), Stamped(ts, g.nextId), g2)
    ensures Relink(g2, path, cap) ==
            match CaptureIndex(g, path, ts, cap) case None => None case Some(i) => Some(g.nextId + i)
  {
    hide WellFormed, Select, WithoutFile, WithoutAll, View, Lookup, FirstAt, InFile, FileIds, IndexAll,
         IndexAllQualified, OutsideList, IdsOf, FirstMatch;
    var g1, ins := WithoutFile(g, path), Stamped(ts, g.nextId);
    FileGone(g, path);
    ExtractedNodes(g, path, ts, g2);
    StampedMembers(ts, g.nextId, path);
    var q, s := cap.fileQname, cap.fileName;
    OutsideLives(g, path, q, g2);
    OutsideLives(g, path, s, g2);
    IndexAllView(g1.qualifiedIndex, ins, q);
    IndexAllView(g1.nameIndex, ins, s);
    InsideLives(ins, path, QualifiedAs(q), g2.nodes);
    InsideLives(ins, path, Named(s), g2.nodes);
    StampedFirst(ts, g.nextId, QualifiedAs(q));
    StampedFirst(ts, g.nextId, Named(s));
    CappedLookup(g2.nodes, g2.qualifiedIndex, q, LOOKUP_LIMIT, OutsideList(g, g.qualifiedIndex, path, q),
                 IdsOf(Select(QualifiedAs(q), ins)), path);
    CappedLookup(g2.nodes, g2.nameIndex, s, LOOKUP_LIMIT, OutsideList(g, g.nameIndex, path, s),
                 IdsOf(Select(Named(s), ins)), path);
  }

  /** The end outside the file is still there, so only the name decides. */
  lemma OtherEndLives(g: Graph, path: Path, ts: seq<SymbolNode>, g2: Graph, c: EdgeKey)
    requires WellFormed(g) && InPath(ts, path) && IsCaptured(g, path, c)
    requires Grows(WithoutFile(g, path), Stamped(ts, g.nextId), g2)
    ensures GetNode(g2.nodes, Capture(g, path, c).otherId).Some?
    ensures !InFile(g.nodes, path, Capture(g, path, c).otherId)
    ensures Capture(g, path, c).otherId in Ids(g.nodes)
  {
    hide Select, WithoutFile, InFile, NameIndexed, QualifiedIndexed, IndexAll, IndexAllQualified, NameOf,
         QualifiedNameOf;
    ExtractedNodes(g, path, ts, g2);
    var id := Capture(g, path, c).otherId;
    var n :| n in g.nodes && n.id == id;
    InFileOf(g.nodes, path, n);
    GetNodeFinds(g2.nodes, id);
  }

  /** A captured edge is re-linked exactly when its name finds a symbol in the new file; else it is dropped. */
  lemma DroppedExactly(g: Graph, path: Path, ts: seq<SymbolNode>, g2: Graph, c: EdgeKey)
    requires WellFormed(g) && InPath(ts, path) && IsCaptured(g, path, c)
    requires Grows(WithoutFile(g, path), Stamped(ts, g.nextId), g2)
    ensures Relinks(g2, path, Capture(g, path, c)) <==> CaptureIndex(g, path, ts, Capture(g, path, c)).Some?
  {
    hide WellFormed, WithoutFile, Relink, Stamped, RelinkIndex, InFile, IsCaptured, Capture, Grows;
    CapturedIsEdge(g, path, c);
    RelinkMeaning(g, path, ts, g2, Capture(g, path, c));
    OtherEndLives(g, path, ts, g2, c);
  }

  lemma EnumeratedAreEdges(g: Graph, path: Path, order: seq<EdgeKey>)
    requires Enumerates(order, g, path)
    ensures forall k :: k in order ==> k in g.store.edges
  {
  }

  lemma CapturedIsEdge(g: Graph, path: Path, c: EdgeKey)
    requires IsCaptured(g, path, c)
    ensures c in g.store.edges
  {
  }

  lemma {:induction false} AllRelinked(g: Graph, path: Path, caps: seq<CapturedEdge>)
    requires forall c :: c in caps ==> Relinks(g, path, c)
    ensures |RelinkedEdges(g, path, caps)| == |caps|
  {
    hide Relink;
    if caps != [] {
      var rest := caps[..|caps| - 1];
      assert caps == rest + [caps[|caps| - 1]];
      AllRelinked(g, path, rest);
    }
  }

  /** The bare name of every captured edge is still defined in the file, and at most four nodes bear it afterwards. */
  ghost predicate NamesSurvive(g: Graph, path: Path, ts: seq<SymbolNode>, g2: Graph) {
    forall c :: IsCaptured(g, path, c) ==>
      var name := NameOf(g, FileSide(g, path, c));
      name != "" && (exists n :: n in ts && n.name == name) && |View(g2.nameIndex, name)| <= LOOKUP_LIMIT
  }

  lemma SurvivorRelinks(g: Graph, path: Path, ts: seq<SymbolNode>, g2: Graph, c: EdgeKey)
    requires WellFormed(g) && InPath(ts, path) && IsCaptured(g, path, c)
    requires Grows(WithoutFile(g, path), Stamped(ts, g.nextId), g2)
    requires NamesSurvive(g, path, ts, g2)
    ensures c in g.store.edges && Relinks(g2, path, Capture(g, path, c))
  {
    hide WellFormed, WithoutFile, InFile, InPath, Stamped, Grows, Relinks, NameOf, QualifiedNameOf, OutsideList,
         View, FirstMatch, FileSide, IsCaptured;
    CapturedIsEdge(g, path, c);
    var name := NameOf(g, FileSide(g, path, c));
    DroppedExactly(g, path, ts, g2, c);
    NameListed(g, path, ts, g2, name);
    var n :| n in ts && n.name == name;
    FirstMatchFound(ts, Named(name), n);
  }

  /** Nothing is dropped when every captured name survives with at most four bearers. */
  lemma NothingDropped(g: Graph, path: Path, source: Option<seq<SymbolNode>>, order: seq<EdgeKey>,
                       g2: Graph, g3: Graph, t: FileReindexTelemetry)
    requires WellFormed(g) && InPath(Extracted(source), path)
    requires ReindexedBy(g, path, source, order, g2, g3, t)
    requires NamesSurvive(g, path, Extracted(source), g2)
    ensures t.crossFileEdgesDropped == 0 && t.crossFileEdgesStaled == |order|
  {
    hide WellFormed, NamesSurvive, WithoutFile, InPath, PutAll, Stamped, Grows, Relinks, Capture, RelinkedEdges,
         IsCaptured, EvidencedIn, Select;
    EnumeratedAreEdges(g, path, order);
    var caps := Captures(g, path, order);
    forall cap | cap in caps ensures Relinks(g2, path, cap) {
      var i :| 0 <= i < |order| && caps[i] == cap;
      assert order[i] in order;
      SurvivorRelinks(g, path, Extracted(source), g2, order[i]);
    }
    AllRelinked(g2, path, caps);
  }

  lemma FirstMatchFound(ts: seq<SymbolNode>, q: NodeQuery, n: SymbolNode)
    requires n in ts && Matches(q, n)
    ensures FirstMatch(ts, q).Some?
  {
    hide FirstMatch;
    var r := FirstMatch(ts, q);
  }

  /** If the file defines the name and at most four nodes bear it, at most three of them are outside. */
  lemma NameListed(g: Graph, path: Path, ts: seq<SymbolNode>, g2: Graph, name: string)
    requires WellFormed(g) && Grows(WithoutFile(g, path), Stamped(ts, g.nextId), g2)
    ensures |View(g2.nameIndex, name)| >= |OutsideList(g, g.nameIndex, path, name)|
    ensures FirstMatch(ts, Named(name)).Some? ==> |View(g2.nameIndex, name)| > |OutsideList(g, g.nameIndex, path, name)|
  {
    hide WellFormed, Select, WithoutFile, View, OutsideList, IndexAll, IndexAllQualified, IdsOf, FirstMatch;
    FileGone(g, path);
    IndexAllView(WithoutFile(g, path).nameIndex, Stamped(ts, g.nextId), name);
    StampedFirst(ts, g.nextId, Named(name));
  }
}
