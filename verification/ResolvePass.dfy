/**
  resolve_references: turns the references of the whole source tree into edges, minting one
  ExternalPackage stub per unknown imported name and one File node per pure re-export barrel.
 */
module ResolvePasses {
  import opened Symbols
  import opened NodeQueries
  import opened SymbolGraphs
  import opened Enclosing
  import opened Resolution

  function StubNode(name: string): SymbolNode {
    NewNode(ExternalPackage, name, [], 0, 0)
  }

  /** The File node of a barrel spans the whole file; its length is cut to 32 bits. */
  function BarrelNode(src: Sources, file: Path): SymbolNode {
    var len: nat := if file in src.lengths then src.lengths[file] else 0;
    NewNode(File, NameOr(FileName(file), "module"), file, 0, len % 0x1_0000_0000)
  }

  ghost predicate MintedStub(ns: seq<SymbolNode>, src: Sources, n: SymbolNode) {
    && n == StubNode(n.name).(id := n.id)
    && Select(ExternalNamed(n.name), ns) == []
    && exists r :: r in src.refs && r.name == n.name && NeedsStub(ns, src, r)
  }

  ghost predicate MintedBarrel(ns: seq<SymbolNode>, src: Sources, n: SymbolNode) {
    && n == BarrelNode(src, n.file).(id := n.id)
    && exists r :: r in src.refs && r.file == n.file && NeedsBarrel(ns, src, r)
  }

  /** No two inserted nodes are stubs of one name or barrels of one file. */
  ghost predicate DistinctMinted(ins: seq<SymbolNode>) {
    forall i, j :: 0 <= i < j < |ins| && ins[i].kind == ins[j].kind ==>
      if ins[i].kind.File? then ins[i].file != ins[j].file else ins[i].name != ins[j].name
  }

  ghost predicate Minted(ns: seq<SymbolNode>, src: Sources, ins: seq<SymbolNode>) {
    && (forall n :: n in ins ==> MintedStub(ns, src, n) || MintedBarrel(ns, src, n))
    && DistinctMinted(ins)
  }

  ghost predicate StubTable(ns: seq<SymbolNode>, t: map<string, SymbolId>) {
    forall m :: FirstId(Select(ExternalNamed(m), ns)) == if m in t then Some(t[m]) else None
  }

  /** The barrel of each file, among the inserted nodes. */
  ghost predicate BarrelTable(ins: seq<SymbolNode>, t: map<Path, SymbolId>) {
    forall f :: FirstId(Select(FileAt(f), ins)) == if f in t then Some(t[f]) else None
  }

  ghost predicate ResolvedBy(g: Graph, src: Sources, ins: seq<SymbolNode>, stubs: map<string, SymbolId>,
                             barrels: map<Path, SymbolId>, g2: Graph)
  {
    && Grows(g, ins, g2)
    && Minted(g.nodes, src, ins)
    && StubTable(g2.nodes, stubs) && BarrelTable(ins, barrels)
    && Served(g.nodes, stubs, barrels, src, src.refs)
    && g2.store == PutAll(g.store, Emission(g.nodes, stubs, barrels, src))
  }

  /** `g2` is a possible outcome of resolve_references on `g`. */
  ghost predicate Resolved(g: Graph, src: Sources, g2: Graph) {
    exists ins, stubs, barrels :: ResolvedBy(g, src, ins, stubs, barrels, g2)
  }

  /** Whether the pass mints a File node for a barrel, decided before it runs. */
  ghost predicate MintsBarrel(g: Graph, src: Sources) {
    exists r :: r in src.refs && NeedsBarrel(g.nodes, src, r)
  }

  // ------------------------------------------------------------ minting

  method SeedStubs(ns: seq<SymbolNode>) returns (stubs: map<string, SymbolId>)
    ensures StubTable(ns, stubs)
  {
    hide StubTable;
    stubs := map[];
    StubTableNone();
    for i := 0 to |ns|
      invariant StubTable(ns[..i], stubs)
    {
      StubTableStep(ns, i, stubs);
      if ns[i].kind.ExternalPackage? && ns[i].name !in stubs {
        stubs := stubs[ns[i].name := ns[i].id];
      }
    }
    assert ns[..|ns|] == ns;
  }

  lemma StubTableNone()
    ensures StubTable([], map[]) && BarrelTable([], map[])
  {
  }

  lemma StubTableStep(ns: seq<SymbolNode>, i: nat, t: map<string, SymbolId>)
    requires i < |ns| && StubTable(ns[..i], t)
    ensures StubTable(ns[..i + 1],
                      if ns[i].kind.ExternalPackage? && ns[i].name !in t then t[ns[i].name := ns[i].id] else t)
  {
    hide Select;
    forall m
      ensures FirstId(Select(ExternalNamed(m), ns[..i + 1])) ==
              if Select(ExternalNamed(m), ns[..i]) != [] then FirstId(Select(ExternalNamed(m), ns[..i]))
              else if Matches(ExternalNamed(m), ns[i]) then Some(ns[i].id) else None
    {
      SelectPrefix(ExternalNamed(m), ns, i);
    }
  }

  lemma StubTableInserted(g: Graph, n: SymbolNode, k: nat, t: map<string, SymbolId>)
    requires k <= |g.nodes| && StubTable(g.nodes, t)
    requires n.kind.ExternalPackage? ==> n.name !in t
    ensures StubTable(WithNode(g, n, k).nodes, if n.kind.ExternalPackage? then t[n.name := g.nextId] else t)
  {
    hide Select, Pushed;
    var m := n.(id := g.nextId);
    forall x ensures FirstId(Select(ExternalNamed(x), WithNode(g, n, k).nodes)) ==
                     if Matches(ExternalNamed(x), m) then Some(g.nextId)
                     else FirstId(Select(ExternalNamed(x), g.nodes)) {
      SelectInserted(ExternalNamed(x), g.nodes, m, k);
    }
  }

  lemma BarrelTableSnoc(ins: seq<SymbolNode>, n: SymbolNode, t: map<Path, SymbolId>)
    requires BarrelTable(ins, t)
    requires n.kind.File? ==> n.file !in t
    ensures BarrelTable(ins + [n], if n.kind.File? then t[n.file := n.id] else t)
  {
    hide Select;
    forall f
      ensures Select(FileAt(f), ins + [n]) ==
              Select(FileAt(f), ins) + if Matches(FileAt(f), n) then [n] else []
    {
      SelectPrefix(FileAt(f), ins + [n], |ins|);
      assert (ins + [n])[..|ins|] == ins && (ins + [n])[..|ins| + 1] == ins + [n];
    }
  }

  /** A freshly minted node is a stub or barrel nobody minted before. */
  lemma MintedSnoc(g: Graph, src: Sources, ins: seq<SymbolNode>, g1: Graph, stubs: map<string, SymbolId>,
                   barrels: map<Path, SymbolId>, n: SymbolNode)
    requires NodesOk(g.nodes, g.nextId) && Grows(g, ins, g1) && Minted(g.nodes, src, ins)
    requires StubTable(g1.nodes, stubs) && BarrelTable(ins, barrels)
    requires if n.kind.File?
             then n.file !in barrels && MintedBarrel(g.nodes, src, n)
             else n.name !in stubs && n == StubNode(n.name).(id := n.id) &&
                  exists r :: r in src.refs && r.name == n.name && NeedsStub(g.nodes, src, r)
    ensures Minted(g.nodes, src, ins + [n])
  {
    hide Select, NeedsStub, NeedsBarrel, IndexAll, IndexAllQualified;
    if n.kind.File? {
      SelectMembers(FileAt(n.file), ins);
      assert Select(FileAt(n.file), ins) == [];
      assert forall x :: x in ins && x.kind.File? ==> x.file != n.file;
    } else {
      SelectMembers(ExternalNamed(n.name), g1.nodes);
      SelectMembers(ExternalNamed(n.name), g.nodes);
      assert Select(ExternalNamed(n.name), g1.nodes) == [];
      assert forall x :: x in ins && x.kind.ExternalPackage? ==> x.name != n.name;
      NoMembers(Select(ExternalNamed(n.name), g.nodes));
    }
    assert forall x :: x in ins ==> x.kind.File? || x.kind.ExternalPackage?;
    DistinctSnoc(ins, n);
  }

  lemma DistinctSnoc(ins: seq<SymbolNode>, n: SymbolNode)
    requires DistinctMinted(ins)
    requires forall x :: x in ins && x.kind == n.kind ==> if n.kind.File? then x.file != n.file else x.name != n.name
    ensures DistinctMinted(ins + [n])
  {
    var all := ins + [n];
    forall i, j | 0 <= i < j < |all| && all[i].kind == all[j].kind
      ensures if all[i].kind.File? then all[i].file != all[j].file else all[i].name != all[j].name
    {
      assert all[i] in ins;
    }
  }

  // ------------------------------------------------------------ progress of the reference loop

  /** The state of the pass after the references `done`: what was minted and the edges so far. */
  ghost predicate Progress(g: Graph, src: Sources, done: seq<RawReference>, ins: seq<SymbolNode>,
                           stubs: map<string, SymbolId>, barrels: map<Path, SymbolId>, g1: Graph)
  {
    && WellFormed(g1)
    && Grows(g, ins, g1)
    && Minted(g.nodes, src, ins)
    && StubTable(g1.nodes, stubs) && BarrelTable(ins, barrels)
    && Served(g.nodes, stubs, barrels, src, done)
    && g1.store == PutAll(g.store, AllRefEdges(g.nodes, stubs, barrels, src, done))
  }

  lemma ProgressStart(g: Graph, src: Sources, stubs: map<string, SymbolId>)
    requires WellFormed(g) && StubTable(g.nodes, stubs)
    ensures Progress(g, src, [], [], stubs, map[], g)
  {
    hide StubTable, BarrelTable;
    GrowsRefl(g);
    StubTableNone();
    PutAllNone(g.store);
  }

  /** The edges of one more reference, with nothing minted for it. */
  lemma ProgressLink(g: Graph, src: Sources, done: seq<RawReference>, ins: seq<SymbolNode>,
                     stubs: map<string, SymbolId>, barrels: map<Path, SymbolId>, g1: Graph, r: RawReference, g2: Graph)
    requires Progress(g, src, done, ins, stubs, barrels, g1)
    requires NeedsStub(g.nodes, src, r) ==> r.name in stubs
    requires NeedsBarrel(g.nodes, src, r) ==> r.file in barrels
    requires WellFormed(g2) && g2 == g1.(store := PutAll(g1.store, RefEdges(g.nodes, stubs, barrels, src, r)))
    ensures Progress(g, src, done + [r], ins, stubs, barrels, g2)
  {
    hide WellFormed, Minted, StubTable, BarrelTable, NeedsStub, NeedsBarrel, PutAll, RefEdges, Grows;
    GrowsStore(g, ins, g1, g2);
    assert (done + [r])[..|done|] == done;
    PutAllConcat(g.store, AllRefEdges(g.nodes, stubs, barrels, src, done), RefEdges(g.nodes, stubs, barrels, src, r));
  }

  lemma ProgressMintStub(g: Graph, src: Sources, done: seq<RawReference>, ins: seq<SymbolNode>,
                         stubs: map<string, SymbolId>, barrels: map<Path, SymbolId>, g1: Graph, r: RawReference, k: nat)
    requires WellFormed(g) && Progress(g, src, done, ins, stubs, barrels, g1)
    requires r in src.refs && NeedsStub(g.nodes, src, r) && r.name !in stubs && k <= |g1.nodes|
    ensures Progress(g, src, done, ins + [StubNode(r.name).(id := g1.nextId)], stubs[r.name := g1.nextId], barrels,
                     WithNode(g1, StubNode(r.name), k))
  {
    hide Select, WellFormed, PutAll, NeedsStub, NeedsBarrel, Grows, Minted, StubTable, BarrelTable, RefEdges,
         Pushed, Served;
    var n := StubNode(r.name).(id := g1.nextId);
    WellFormedParts(g);
    WellFormedParts(g1);
    WithNodeWellFormed(g1, StubNode(r.name), k);
    GrowsStep(g, ins, g1, StubNode(r.name), k);
    MintedSnoc(g, src, ins, g1, stubs, barrels, n);
    StubTableInserted(g1, StubNode(r.name), k, stubs);
    BarrelTableSnoc(ins, n, barrels);
    AllRefEdgesStable(g.nodes, stubs, barrels, stubs[r.name := g1.nextId], barrels, src, done);
  }

  lemma ProgressMintBarrel(g: Graph, src: Sources, done: seq<RawReference>, ins: seq<SymbolNode>,
                           stubs: map<string, SymbolId>, barrels: map<Path, SymbolId>, g1: Graph, r: RawReference,
                           k: nat)
    requires WellFormed(g) && Progress(g, src, done, ins, stubs, barrels, g1)
    requires r in src.refs && NeedsBarrel(g.nodes, src, r) && r.file !in barrels && k <= |g1.nodes|
    ensures Progress(g, src, done, ins + [BarrelNode(src, r.file).(id := g1.nextId)], stubs,
                     barrels[r.file := g1.nextId],
                     WithNode(g1, BarrelNode(src, r.file), k))
  {
    hide Select, WellFormed, PutAll, NeedsStub, NeedsBarrel, Grows, Minted, StubTable, BarrelTable, RefEdges,
         Pushed, Served;
    var n := BarrelNode(src, r.file).(id := g1.nextId);
    WellFormedParts(g);
    WellFormedParts(g1);
    WithNodeWellFormed(g1, BarrelNode(src, r.file), k);
    GrowsStep(g, ins, g1, BarrelNode(src, r.file), k);
    MintedSnoc(g, src, ins, g1, stubs, barrels, n);
    StubTableInserted(g1, BarrelNode(src, r.file), k, stubs);
    BarrelTableSnoc(ins, n, barrels);
    AllRefEdgesStable(g.nodes, stubs, barrels, stubs, barrels[r.file := g1.nextId], src, done);
  }

  lemma WellFormedParts(g: Graph)
    requires WellFormed(g)
    ensures NodesOk(g.nodes, g.nextId) && UniqueIds(g.nodes)
  {
  }

  // ------------------------------------------------------------ liveness of the endpoints

  lemma LiveAfter(g: Graph, ins: seq<SymbolNode>, g1: Graph)
    requires Grows(g, ins, g1)
    ensures Ids(g.nodes) <= Ids(g1.nodes)
  {
    hide Select, IndexAll, IndexAllQualified;
  }

  lemma SelectedLive(q: NodeQuery, ns: seq<SymbolNode>)
    ensures forall id :: id in IdsOf(Select(q, ns)) ==> id in Ids(ns)
  {
    hide Select;
    IdsOfSelected(q, ns);
  }

  lemma CandidatesLive(ns: seq<SymbolNode>, name: string, srcId: SymbolId, file: Path, target: Option<Path>)
    ensures forall id :: id in PickTargets(Candidates(ns, name), srcId, file, target).0 ==> id in Ids(ns)
  {
    hide Select, PickTargets;
    PickTargetsAreCandidates(Candidates(ns, name), srcId, file, target);
    SelectMembers(Definition(name), ns);
  }

  lemma StubLives(ns: seq<SymbolNode>, stubs: map<string, SymbolId>, name: string)
    requires StubTable(ns, stubs) && name in stubs
    ensures stubs[name] in Ids(ns)
  {
    hide Select;
    var hits := Select(ExternalNamed(name), ns);
    SelectMembers(ExternalNamed(name), ns);
    assert FirstId(hits) == Some(stubs[name]);
    assert hits[0] in hits;
  }

  lemma BarrelLives(g: Graph, ins: seq<SymbolNode>, g1: Graph, barrels: map<Path, SymbolId>, file: Path)
    requires Grows(g, ins, g1) && BarrelTable(ins, barrels) && file in barrels
    ensures barrels[file] in Ids(g1.nodes)
  {
    hide Select, IndexAll, IndexAllQualified;
    var hits := Select(FileAt(file), ins);
    SelectMembers(FileAt(file), ins);
    assert FirstId(hits) == Some(barrels[file]);
    assert hits[0] in hits;
  }

  // ------------------------------------------------------------ the pass

  /** Inserts an edge to every target except the source itself. */
  method LinkAll(g: SymbolGraph, srcId: SymbolId, targets: seq<SymbolId>, kind: EdgeKind, origin: AnalysisOrigin,
                 file: Path)
    requires WellFormed(g.Value()) && srcId in Ids(g.nodes)
    requires forall t :: t in targets ==> t in Ids(g.nodes)
    modifies g`edges, g`edgeSet
    ensures WellFormed(g.Value())
    ensures g.Value() ==
              old(g.Value()).(store := PutAll(old(g.Value().store), Links(srcId, targets, kind, origin, file)))
  {
    hide PutAll, Put, StoreOk, NameIndexed, QualifiedIndexed, Select, Evaluate, Ids;
    ghost var before := g.Value();
    PutAllNone(before.store);
    assert Links(srcId, [], kind, origin, file) == [];
    for i := 0 to |targets|
      invariant WellFormed(g.Value())
      invariant g.Value() == before.(store := PutAll(before.store, Links(srcId, targets[..i], kind, origin, file)))
    {
      LinksSnoc(srcId, targets, i, kind, origin, file);
      assert targets[i] in targets;
      if targets[i] != srcId {
        var e := NewEdge(srcId, targets[i], kind, origin, Evaluate(kind, origin), file);
        EndpointsLive(g.Value(), e);
        PutAllOne(before.store, Links(srcId, targets[..i], kind, origin, file), e);
        var _ := g.InsertEdge(e);
      } else {
        assert Links(srcId, targets[..i], kind, origin, file) + [] == Links(srcId, targets[..i], kind, origin, file);
      }
    }
    assert targets[..|targets|] == targets;
  }

  lemma EndpointsLive(g: Graph, e: DirectEdge)
    requires UniqueIds(g.nodes) && e.from in Ids(g.nodes) && e.to in Ids(g.nodes)
    ensures Known(g, e)
  {
    GetNodeFinds(g.nodes, e.from);
    GetNodeFinds(g.nodes, e.to);
  }

  lemma {:induction false} LinksConcat(srcId: SymbolId, a: seq<SymbolId>, b: seq<SymbolId>, kind: EdgeKind,
                                       origin: AnalysisOrigin, file: Path)
    ensures Links(srcId, a + b, kind, origin, file) ==
              Links(srcId, a, kind, origin, file) + Links(srcId, b, kind, origin, file)
  {
    if a == [] {
      assert a + b == b;
    } else {
      assert (a + b)[0] == a[0] && (a + b)[1..] == a[1..] + b;
      LinksConcat(srcId, a[1..], b, kind, origin, file);
    }
  }

  lemma LinksSnoc(srcId: SymbolId, targets: seq<SymbolId>, i: nat, kind: EdgeKind, origin: AnalysisOrigin, file: Path)
    requires i < |targets|
    ensures Links(srcId, targets[..i + 1], kind, origin, file) ==
            Links(srcId, targets[..i], kind, origin, file)
            + if targets[i] == srcId then []
              else [NewEdge(srcId, targets[i], kind, origin, Evaluate(kind, origin), file)]
  {
    assert targets[..i + 1] == targets[..i] + [targets[i]];
    LinksConcat(srcId, targets[..i], [targets[i]], kind, origin, file);
  }

  /** One reference: a wildcard re-export, a known name, or an external import. */
  method ResolveReference(g: SymbolGraph, ghost g0: Graph, ns: seq<SymbolNode>, src: Sources, r: RawReference,
                          ghost done: seq<RawReference>, ghost ins0: seq<SymbolNode>,
                          stubs0: map<string, SymbolId>, barrels0: map<Path, SymbolId>)
    returns (stubs: map<string, SymbolId>, barrels: map<Path, SymbolId>, ghost ins: seq<SymbolNode>)
    requires WellFormed(g0) && ns == g0.nodes && r in src.refs
    requires Progress(g0, src, done, ins0, stubs0, barrels0, g.Value())
    modifies g
    ensures Progress(g0, src, done + [r], ins, stubs, barrels, g.Value())
  {
    hide Progress, Select, EnclosingSymbol, PickTargets, PutAll, Links, WellFormed, IdsOf, ImportTarget,
         IsInternalName, WithNode, Evaluate, Ids;
    stubs, barrels, ins := stubs0, barrels0, ins0;
    PutAllNone(g.Value().store);
    if r.kind.RefReexportAll? {
      var symbols := Reexported(ns, src, r);
      if symbols == [] {
        assert RefEdges(ns, stubs, barrels, src, r) == [];
        ProgressLink(g0, src, done, ins, stubs, barrels, g.Value(), r, g.Value()) by {
          ProgressFacts(g0, src, done, ins, stubs, barrels, g.Value());
        }
        return;
      }
      var srcId;
      var at := EnclosingSymbol(ns, r.file, r.offset);
      if at.Some? {
        srcId := at.value;
      } else {
        if r.file !in barrels {
          ghost var before := g.Value();
          ghost var k;
          var id;
          id, k := g.InsertNode(BarrelNode(src, r.file));
          ProgressMintBarrel(g0, src, done, ins, stubs, barrels, before, r, k);
          ins := ins + [BarrelNode(src, r.file).(id := id)];
          barrels := barrels[r.file := id];
        }
        srcId := barrels[r.file];
      }
      ghost var before := g.Value();
      ReexportEndpoints(g0, src, done, ins, stubs, barrels, before, r, srcId);
      LinkAll(g, srcId, IdsOf(symbols), Imports, NameResolved, r.file);
      ProgressLink(g0, src, done, ins, stubs, barrels, before, r, g.Value());
      return;
    }
    var at := EnclosingSymbol(ns, r.file, r.offset);
    if at.None? {
      assert RefEdges(ns, stubs, barrels, src, r) == [];
      ProgressLink(g0, src, done, ins, stubs, barrels, g.Value(), r, g.Value()) by {
        ProgressFacts(g0, src, done, ins, stubs, barrels, g.Value());
      }
      return;
    }
    var srcId := at.value;
    var kind := ToEdgeKind(r.kind);
    var candidates := Candidates(ns, r.name);
    if candidates != [] {
      var picked := PickTargets(candidates, srcId, r.file, ImportTarget(src, src.imports, r.file, r.name));
      ghost var before := g.Value();
      CandidateEndpoints(g0, src, done, ins, stubs, barrels, before, r, srcId);
      LinkAll(g, srcId, picked.0, kind, picked.1, r.file);
      ProgressLink(g0, src, done, ins, stubs, barrels, before, r, g.Value());
      return;
    }
    if !(r.kind.RefImport? || r.kind.RefImplements?) || IsInternalName(src, r.name) {
      assert RefEdges(ns, stubs, barrels, src, r) == [];
      ProgressLink(g0, src, done, ins, stubs, barrels, g.Value(), r, g.Value()) by {
        ProgressFacts(g0, src, done, ins, stubs, barrels, g.Value());
      }
      return;
    }
    if r.name !in stubs {
      ghost var before := g.Value();
      ghost var k;
      var id;
      id, k := g.InsertNode(StubNode(r.name));
      ProgressMintStub(g0, src, done, ins, stubs, barrels, before, r, k);
      ins := ins + [StubNode(r.name).(id := id)];
      stubs := stubs[r.name := id];
    }
    var e := NewEdge(srcId, stubs[r.name], kind, SyntaxMatched, Evaluate(kind, SyntaxMatched), r.file);
    ghost var before := g.Value();
    StubEndpoints(g0, src, done, ins, stubs, barrels, before, r, srcId);
    EndpointsLive(before, e);
    PutAllOne(before.store, [], e);
    PutAllNone(before.store);
    var _ := g.InsertEdge(e);
    assert RefEdges(ns, stubs, barrels, src, r) == [e] == [] + [e];
    ProgressLink(g0, src, done, ins, stubs, barrels, before, r, g.Value());
  }

  lemma ProgressFacts(g: Graph, src: Sources, done: seq<RawReference>, ins: seq<SymbolNode>,
                      stubs: map<string, SymbolId>, barrels: map<Path, SymbolId>, g1: Graph)
    requires Progress(g, src, done, ins, stubs, barrels, g1)
    ensures WellFormed(g1) && UniqueIds(g1.nodes)
    ensures Ids(g.nodes) <= Ids(g1.nodes)
  {
    hide Select, IndexAll, IndexAllQualified, AllRefEdges, PutAll, Minted, StubTable, BarrelTable, Served;
    LiveAfter(g, ins, g1);
  }

  lemma ReexportEndpoints(g: Graph, src: Sources, done: seq<RawReference>, ins: seq<SymbolNode>,
                          stubs: map<string, SymbolId>, barrels: map<Path, SymbolId>, g1: Graph, r: RawReference,
                          srcId: SymbolId)
    requires Progress(g, src, done, ins, stubs, barrels, g1)
    requires ReexportSource(g.nodes, barrels, r) == Some(srcId)
    ensures WellFormed(g1) && srcId in Ids(g1.nodes)
    ensures forall t :: t in IdsOf(Reexported(g.nodes, src, r)) ==> t in Ids(g1.nodes)
  {
    hide Select, EnclosingSymbol, IdsOf, WellFormed, AllRefEdges, PutAll, Minted, StubTable, BarrelTable, Served,
         Grows;
    ProgressFacts(g, src, done, ins, stubs, barrels, g1);
    var target := ResolveSpecifier(src, r.file, r.name);
    if target.Some? {
      SelectedLive(PublicAt(target.value), g.nodes);
    } else {
      assert IdsOf([]) == [];
    }
    if EnclosingSymbol(g.nodes, r.file, r.offset).Some? {
      EnclosingSymbolLives(g.nodes, r.file, r.offset);
    } else {
      BarrelLives(g, ins, g1, barrels, r.file);
    }
  }

  lemma CandidateEndpoints(g: Graph, src: Sources, done: seq<RawReference>, ins: seq<SymbolNode>,
                           stubs: map<string, SymbolId>, barrels: map<Path, SymbolId>, g1: Graph, r: RawReference,
                           srcId: SymbolId)
    requires Progress(g, src, done, ins, stubs, barrels, g1)
    requires EnclosingSymbol(g.nodes, r.file, r.offset) == Some(srcId)
    ensures WellFormed(g1) && srcId in Ids(g1.nodes)
    ensures forall t :: t in PickTargets(Candidates(g.nodes, r.name), srcId, r.file,
                                         ImportTarget(src, src.imports, r.file, r.name)).0 ==>
              t in Ids(g1.nodes)
  {
    hide Progress, Select, EnclosingSymbol, PickTargets, IdsOf, WellFormed, ImportTarget;
    ProgressFacts(g, src, done, ins, stubs, barrels, g1);
    EnclosingSymbolLives(g.nodes, r.file, r.offset);
    CandidatesLive(g.nodes, r.name, srcId, r.file, ImportTarget(src, src.imports, r.file, r.name));
  }

  lemma StubEndpoints(g: Graph, src: Sources, done: seq<RawReference>, ins: seq<SymbolNode>,
                      stubs: map<string, SymbolId>, barrels: map<Path, SymbolId>, g1: Graph, r: RawReference,
                      srcId: SymbolId)
    requires Progress(g, src, done, ins, stubs, barrels, g1)
    requires EnclosingSymbol(g.nodes, r.file, r.offset) == Some(srcId) && r.name in stubs
    ensures WellFormed(g1) && UniqueIds(g1.nodes) && srcId in Ids(g1.nodes) && stubs[r.name] in Ids(g1.nodes)
  {
    hide Select, EnclosingSymbol, WellFormed, AllRefEdges, PutAll, Minted, StubTable, BarrelTable, Served, Grows;
    ProgressFacts(g, src, done, ins, stubs, barrels, g1);
    EnclosingSymbolLives(g.nodes, r.file, r.offset);
    StubLives(g1.nodes, stubs, r.name);
  }

  /** The per-specifier edges of one named import. */
  method ResolveImport(g: SymbolGraph, ns: seq<SymbolNode>, src: Sources, ni: NamedImport)
    requires WellFormed(g.Value()) && Ids(ns) <= Ids(g.nodes)
    modifies g`edges, g`edgeSet
    ensures WellFormed(g.Value())
    ensures g.Value() == old(g.Value()).(store := PutAll(old(g.Value().store), ImportEdges(ns, src, ni)))
  {
    hide Select, EnclosingSymbol, PutAll, Links, WellFormed, IdsOf, Ids;
    PutAllNone(g.Value().store);
    var target := ResolveSpecifier(src, ni.file, ni.spec);
    if target.None? {
      return;
    }
    var targets := Select(DefinedAt(target.value), Candidates(ns, ni.imported));
    if targets == [] {
      return;
    }
    var at := EnclosingSymbol(ns, ni.file, ni.offset);
    if at.None? {
      return;
    }
    EnclosingSymbolLives(ns, ni.file, ni.offset);
    ImportTargetsLive(ns, ni.imported, target.value);
    LinkAll(g, at.value, IdsOf(targets), Imports, NameResolved, ni.file);
  }

  lemma ImportTargetsLive(ns: seq<SymbolNode>, name: string, target: Path)
    ensures forall id :: id in IdsOf(Select(DefinedAt(target), Candidates(ns, name))) ==> id in Ids(ns)
  {
    hide Select;
    IdsOfSelected(DefinedAt(target), Candidates(ns, name));
    SelectMembers(Definition(name), ns);
  }

  method ResolveReferences(g: SymbolGraph, src: Sources)
    requires WellFormed(g.Value())
    modifies g
    ensures WellFormed(g.Value()) && Resolved(old(g.Value()), src, g.Value())
  {
    hide Progress, PutAll, AllRefEdges, AllImportEdges, WellFormed, StubTable, BarrelTable, Minted, Served, Grows,
         Resolved, ResolvedBy, Ids;
    ghost var start := g.Value();
    var ns := g.nodes;
    var stubs := SeedStubs(ns);
    ProgressStart(start, src, stubs);
    if src.refs == [] {
      NothingToResolve(start, src, stubs);
      return;
    }
    var barrels: map<Path, SymbolId> := map[];
    ghost var ins := [];
    for i := 0 to |src.refs|
      invariant Progress(start, src, src.refs[..i], ins, stubs, barrels, g.Value())
    {
      stubs, barrels, ins := ResolveReference(g, start, ns, src, src.refs[i], src.refs[..i], ins, stubs, barrels);
      assert src.refs[..i + 1] == src.refs[..i] + [src.refs[i]];
    }
    assert src.refs[..|src.refs|] == src.refs;
    ghost var resolved := g.Value();
    ProgressFacts(start, src, src.refs, ins, stubs, barrels, resolved);
    PutAllNone(resolved.store);
    AllImportEdgesNone(ns, src);
    for i := 0 to |src.imports|
      invariant WellFormed(g.Value()) && g.nodes == resolved.nodes
      invariant g.Value() == resolved.(store := PutAll(resolved.store, AllImportEdges(ns, src, src.imports[..i])))
    {
      ResolveImport(g, ns, src, src.imports[i]);
      AllImportEdgesSnoc(ns, src, i, resolved.store);
    }
    assert src.imports[..|src.imports|] == src.imports;
    FinishResolve(start, src, ins, stubs, barrels, resolved, g.Value());
  }

  lemma AllImportEdgesNone(ns: seq<SymbolNode>, src: Sources)
    ensures AllImportEdges(ns, src, src.imports[..0]) == []
  {
  }

  lemma AllImportEdgesSnoc(ns: seq<SymbolNode>, src: Sources, i: nat, s: EdgeStore)
    requires i < |src.imports|
    ensures PutAll(s, AllImportEdges(ns, src, src.imports[..i + 1])) ==
            PutAll(PutAll(s, AllImportEdges(ns, src, src.imports[..i])), ImportEdges(ns, src, src.imports[i]))
  {
    hide PutAll, ImportEdges;
    assert src.imports[..i + 1][..i] == src.imports[..i];
    PutAllConcat(s, AllImportEdges(ns, src, src.imports[..i]), ImportEdges(ns, src, src.imports[i]));
  }

  lemma NothingToResolve(g: Graph, src: Sources, stubs: map<string, SymbolId>)
    requires src.refs == [] && Progress(g, src, [], [], stubs, map[], g)
    ensures WellFormed(g) && Resolved(g, src, g)
  {
    hide WellFormed, StubTable, BarrelTable, Minted, Grows;
    assert ResolvedBy(g, src, [], stubs, map[], g);
  }

  lemma FinishResolve(g: Graph, src: Sources, ins: seq<SymbolNode>, stubs: map<string, SymbolId>,
                      barrels: map<Path, SymbolId>, g1: Graph, g2: Graph)
    requires src.refs != [] && Progress(g, src, src.refs, ins, stubs, barrels, g1)
    requires g2 == g1.(store := PutAll(g1.store, AllImportEdges(g.nodes, src, src.imports)))
    ensures Resolved(g, src, g2)
  {
    hide WellFormed, StubTable, BarrelTable, Minted, Grows, Served, PutAll, AllRefEdges, AllImportEdges;
    GrowsStore(g, ins, g1, g2);
    PutAllConcat(g.store, AllRefEdges(g.nodes, stubs, barrels, src, src.refs),
                 AllImportEdges(g.nodes, src, src.imports));
    assert ResolvedBy(g, src, ins, stubs, barrels, g2);
  }

  // ------------------------------------------------------------ stubs only receive imports

  ghost predicate ImportsOrDefinition(ns: seq<SymbolNode>, e: DirectEdge) {
    e.kind.Imports? || e.kind.Implements? || exists n :: n in ns && n.id == e.to && !n.kind.ExternalPackage?
  }

  lemma RefEdgesTargets(ns: seq<SymbolNode>, stubs: map<string, SymbolId>, barrels: map<Path, SymbolId>,
                        src: Sources, r: RawReference)
    ensures forall e :: e in RefEdges(ns, stubs, barrels, src, r) ==> ImportsOrDefinition(ns, e)
  {
    hide Select, EnclosingSymbol, PickTargets, Links, IdsOf, IsInternalName, ImportTarget, Evaluate;
    if r.kind.RefReexportAll? {
      if ReexportSource(ns, barrels, r).Some? {
        LinksEndpoints(ReexportSource(ns, barrels, r).value, IdsOf(Reexported(ns, src, r)), Imports, NameResolved,
                       r.file);
      }
    } else if EnclosingSymbol(ns, r.file, r.offset).Some? {
      var srcId := EnclosingSymbol(ns, r.file, r.offset).value;
      var target := ImportTarget(src, src.imports, r.file, r.name);
      var picked := PickTargets(Candidates(ns, r.name), srcId, r.file, target);
      PickTargetsAreCandidates(Candidates(ns, r.name), srcId, r.file, target);
      SelectMembers(Definition(r.name), ns);
      LinksEndpoints(srcId, picked.0, ToEdgeKind(r.kind), picked.1, r.file);
    }
  }

  lemma {:induction false} AllRefEdgesTargets(ns: seq<SymbolNode>, stubs: map<string, SymbolId>,
                                              barrels: map<Path, SymbolId>, src: Sources, refs: seq<RawReference>)
    ensures forall e :: e in AllRefEdges(ns, stubs, barrels, src, refs) ==> ImportsOrDefinition(ns, e)
  {
    hide RefEdges, ImportsOrDefinition;
    if refs != [] {
      AllRefEdgesTargets(ns, stubs, barrels, src, refs[..|refs| - 1]);
      RefEdgesTargets(ns, stubs, barrels, src, refs[|refs| - 1]);
    }
  }

  lemma {:induction false} AllImportEdgesTargets(ns: seq<SymbolNode>, src: Sources, imports: seq<NamedImport>)
    ensures forall e :: e in AllImportEdges(ns, src, imports) ==> e.kind.Imports?
  {
    hide Select, EnclosingSymbol, Links, IdsOf;
    if imports != [] {
      var ni := imports[|imports| - 1];
      AllImportEdgesTargets(ns, src, imports[..|imports| - 1]);
      if ResolveSpecifier(src, ni.file, ni.spec).Some? && EnclosingSymbol(ns, ni.file, ni.offset).Some? {
        LinksEndpoints(EnclosingSymbol(ns, ni.file, ni.offset).value,
                       IdsOf(Select(DefinedAt(ResolveSpecifier(src, ni.file, ni.spec).value),
                                    Candidates(ns, ni.imported))),
                       Imports, NameResolved, ni.file);
      }
    }
  }

  /** No call or reference is ever resolved onto an ExternalPackage stub, left over or new. */
  lemma StubsOnlyImported(g: Graph, src: Sources, g2: Graph, k: EdgeKey, n: SymbolNode)
    requires WellFormed(g) && Resolved(g, src, g2)
    requires k in g2.store.edges && k !in g.store.edges
    requires n in g2.nodes && n.id == k.to && n.kind.ExternalPackage?
    ensures k.kind.Imports? || k.kind.Implements?
  {
    hide Select, PutAll, AllRefEdges, AllImportEdges, Minted, StubTable, BarrelTable, Served, IndexAll,
         IndexAllQualified, NameIndexed, QualifiedIndexed, StoreOk;
    var ins: seq<SymbolNode>, stubs: map<string, SymbolId>, barrels: map<Path, SymbolId> :|
        ResolvedBy(g, src, ins, stubs, barrels, g2);
    PutAllEffect(g.store, Emission(g.nodes, stubs, barrels, src));
    AllRefEdgesTargets(g.nodes, stubs, barrels, src, src.refs);
    AllImportEdgesTargets(g.nodes, src, src.imports);
    var e := g2.store.edges[k];
    assert ImportsOrDefinition(g.nodes, e);
    if !(e.kind.Imports? || e.kind.Implements?) {
      var m :| m in g.nodes && m.id == e.to && !m.kind.ExternalPackage?;
      UniqueIdsMeanSameNode(g2.nodes, m, n);
    }
  }
}
