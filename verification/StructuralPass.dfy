/**
  structural_pass: one File node and one Module for every file that defines symbols, with a
  Contains and a BelongsTo edge for each symbol.  Its result is described by lookups in the final
  node order, from which exact idempotence follows.
 */
module StructuralPasses {
  import opened Symbols
  import opened NodeQueries
  import opened SymbolGraphs

  // ------------------------------------------------------------ names and scores of files

  function IndexOf(parts: seq<string>, part: string): (r: Option<nat>)
    ensures r.Some? ==> r.value < |parts| && parts[r.value] == part && part !in parts[..r.value]
    ensures r.None? ==> part !in parts
  {
    if parts == [] then None
    else if parts[0] == part then Some(0)
    else
      assert parts == [parts[0]] + parts[1..];
      match IndexOf(parts[1..], part)
      case None => None
      case Some(i) =>
        assert parts[..i + 1] == [parts[0]] + parts[1..][..i];
        Some(i + 1)
  }

  /** `crates/<name>/...` gives <name>, else the parent directory, else "root". */
  function SyntheticModuleName(p: Path): string {
    var crate := IndexOf(p, "crates");
    if crate.Some? && crate.value + 1 < |p| then p[crate.value + 1]
    else match Parent(p)
         case None => "root"
         case Some(dir) => NameOr(FileName(dir), "root")
  }

  const TestDirectories: seq<string> :=
    ["tests", "test", "__tests__", "fixtures", "testdata", "benches", "examples"]

  const EntryFiles: seq<string> :=
    ["lib.rs", "main.rs", "mod.rs", "index.ts", "index.js", "__init__.py"]

  function RepresentativeScore(p: Path): int {
    (if exists part :: part in p && part in TestDirectories then -20 else 0)
    + (if "src" in p then 10 else 0)
    + (if FileName(p).Some? && FileName(p).value in EntryFiles then 5 else 0)
  }

  // ------------------------------------------------------------ lookups in the node order

  function FileOf(ns: seq<SymbolNode>, p: Path): Option<SymbolId> {
    LastId(Select(FileAt(p), ns))
  }

  function RealModuleOf(ns: seq<SymbolNode>, p: Path): Option<SymbolId> {
    LastId(Select(ContainerAt(p), ns))
  }

  function NamedModule(ns: seq<SymbolNode>, name: string): Option<SymbolId> {
    FirstId(Select(ModuleNamed(name), ns))
  }

  /** The Module of a file: its own container if it has one, else the first Module of its synthetic name. */
  function ModuleOf(ns: seq<SymbolNode>, p: Path): Option<SymbolId> {
    if RealModuleOf(ns, p).Some? then RealModuleOf(ns, p) else NamedModule(ns, SyntheticModuleName(p))
  }

  function ChildrenOf(ns: seq<SymbolNode>, p: Path): seq<SymbolId> {
    IdsOf(Select(ChildAt(p), ns))
  }

  function ChildPaths(ns: seq<SymbolNode>): set<Path> {
    set n | n in ns && IsChild(n) :: n.file
  }

  // ------------------------------------------------------------ what the pass produces

  function ContainsEdge(file: SymbolId, child: SymbolId, p: Path): DirectEdge {
    NewEdge(file, child, Contains, CompilerDerived, Evaluate(Contains, CompilerDerived), p)
  }

  function BelongsEdge(child: SymbolId, owner: SymbolId, p: Path): DirectEdge {
    NewEdge(child, owner, BelongsTo, CompilerDerived, Evaluate(BelongsTo, CompilerDerived), p)
  }

  ghost predicate IsContains(ns: seq<SymbolNode>, e: DirectEdge) {
    && e == ContainsEdge(e.from, e.to, e.evidenceFile)
    && FileOf(ns, e.evidenceFile) == Some(e.from)
    && e.to in ChildrenOf(ns, e.evidenceFile)
  }

  ghost predicate IsBelongs(ns: seq<SymbolNode>, e: DirectEdge) {
    && e == BelongsEdge(e.from, e.to, e.evidenceFile)
    && ModuleOf(ns, e.evidenceFile) == Some(e.to)
    && e.from in ChildrenOf(ns, e.evidenceFile)
  }

  /** Every file with symbols has its File node and its Module. */
  ghost predicate Housed(ns: seq<SymbolNode>) {
    forall p :: p in ChildPaths(ns) ==> FileOf(ns, p).Some? && ModuleOf(ns, p).Some?
  }

  /** A file with symbols and no container of its own. */
  predicate Unhoused(ns: seq<SymbolNode>, p: Path) {
    p in ChildPaths(ns) && RealModuleOf(ns, p).None?
  }

  ghost predicate Representative(ns: seq<SymbolNode>, name: string, p: Path) {
    && Unhoused(ns, p) && SyntheticModuleName(p) == name
    && forall q :: Unhoused(ns, q) && SyntheticModuleName(q) == name ==>
         RepresentativeScore(q) <= RepresentativeScore(p)
  }

  function FileNode(p: Path): SymbolNode {
    NewNode(File, NameOr(FileName(p), "unknown"), p, 0, 0)
  }

  function ModuleNode(name: string, p: Path): SymbolNode {
    NewNode(Module, name, p, 0, 0)
  }

  ghost predicate MintedFile(ns: seq<SymbolNode>, n: SymbolNode) {
    && n == FileNode(n.file).(id := n.id)
    && n.file in ChildPaths(ns) && FileOf(ns, n.file).None?
  }

  ghost predicate MintedModule(ns: seq<SymbolNode>, n: SymbolNode) {
    && n == ModuleNode(n.name, n.file).(id := n.id)
    && Representative(ns, n.name, n.file) && NamedModule(ns, n.name).None?
  }

  ghost predicate DistinctFiles(ins: seq<SymbolNode>) {
    forall i, j :: 0 <= i < j < |ins| && ins[i].kind.File? && ins[j].kind.File? ==> ins[i].file != ins[j].file
  }

  ghost predicate DistinctModules(ins: seq<SymbolNode>) {
    forall i, j :: 0 <= i < j < |ins| && ins[i].kind.Module? && ins[j].kind.Module? ==> ins[i].name != ins[j].name
  }

  ghost predicate StructuredBy(g: Graph, ins: seq<SymbolNode>, es: seq<DirectEdge>, g2: Graph) {
    && Grows(g, ins, g2)
    && (forall n :: n in ins ==> MintedFile(g.nodes, n) || MintedModule(g.nodes, n))
    && DistinctFiles(ins) && DistinctModules(ins)
    && Housed(g2.nodes)
    && (forall e :: e in es <==> IsContains(g2.nodes, e) || IsBelongs(g2.nodes, e))
    && g2.store == PutAll(g.store, es)
  }

  /** `g2` is a possible outcome of structural_pass on `g`. */
  ghost predicate Structured(g: Graph, g2: Graph) {
    exists ins, es :: StructuredBy(g, ins, es, g2)
  }

  // ------------------------------------------------------------ idempotence

  lemma HousedMintsNothing(g: Graph, ins: seq<SymbolNode>)
    requires Housed(g.nodes)
    requires forall n :: n in ins ==> MintedFile(g.nodes, n) || MintedModule(g.nodes, n)
    ensures ins == []
  {
    NoMembers(ins);
  }

  /** A graph on which the pass has nothing to do. */
  ghost predicate StructurallyClosed(g: Graph) {
    && Housed(g.nodes)
    && forall e :: IsContains(g.nodes, e) || IsBelongs(g.nodes, e) ==> KeyOf(e) in g.store.seen
  }

  lemma StructuredIsClosed(g: Graph, g2: Graph)
    requires Structured(g, g2)
    ensures StructurallyClosed(g2)
  {
    var ins: seq<SymbolNode>, es: seq<DirectEdge> :| StructuredBy(g, ins, es, g2);
    PutAllEffect(g.store, es);
  }

  lemma ClosedIsUnchanged(g: Graph, g2: Graph)
    requires StructurallyClosed(g) && Structured(g, g2)
    ensures g2 == g
  {
    var ins: seq<SymbolNode>, es: seq<DirectEdge> :| StructuredBy(g, ins, es, g2);
    HousedMintsNothing(g, ins);
    GrowsNot(g, g2);
    PutAllSeen(g.store, es);
  }

  /** Running the pass on its own output changes nothing at all: no node, edge, key, index or id counter. */
  lemma StructuralPassIdempotent(g: Graph, g1: Graph, g2: Graph)
    requires Structured(g, g1) && Structured(g1, g2)
    ensures g2 == g1
  {
    StructuredIsClosed(g, g1);
    ClosedIsUnchanged(g1, g2);
  }

  /** The pass only adds: every old node, edge and key is still there, and the new edges are containment edges. */
  lemma StructuralPassOnlyAdds(g: Graph, g2: Graph)
    requires WellFormed(g) && Structured(g, g2)
    ensures Select(Below(g.nextId), g2.nodes) == g.nodes
    ensures forall k :: k in g.store.edges ==> k in g2.store.edges && g2.store.edges[k] == g.store.edges[k]
    ensures forall k :: k in g2.store.edges && k !in g.store.edges ==> k.kind.Contains? || k.kind.BelongsTo?
    ensures forall n :: n in g2.nodes && n !in g.nodes ==> n.kind.File? || n.kind.Module?
    ensures ChildPaths(g2.nodes) == ChildPaths(g.nodes)
    ensures forall p :: ChildrenOf(g2.nodes, p) == ChildrenOf(g.nodes, p)
  {
    hide Select, IdsOf, PutAll, IndexAll, IndexAllQualified, Housed, FileOf, ModuleOf, DistinctFiles,
         DistinctModules, WellFormed, Representative, NamedModule, Evaluate;
    var ins: seq<SymbolNode>, es: seq<DirectEdge> :| StructuredBy(g, ins, es, g2);
    PutAllEffect(g.store, es);
    WellFormedNodes(g);
    assert forall n :: n in ins ==> n.kind.File? || n.kind.Module?;
    forall p ensures ChildrenOf(g2.nodes, p) == ChildrenOf(g.nodes, p) {
      GrowsSelect(g, ins, g2, ChildAt(p));
    }
  }

  /** Each symbol that has a file ends up contained by the File of its path and belonging to its Module. */
  lemma ContainmentIsComplete(g: Graph, g2: Graph, n: SymbolNode)
    requires WellFormed(g) && Structured(g, g2)
    requires n in g.nodes && IsChild(n)
    ensures FileOf(g2.nodes, n.file).Some? && ModuleOf(g2.nodes, n.file).Some?
    ensures EdgeKey(FileOf(g2.nodes, n.file).value, n.id, Contains) in g2.store.edges
    ensures EdgeKey(n.id, ModuleOf(g2.nodes, n.file).value, BelongsTo) in g2.store.edges
  {
    hide Select, PutAll, SyntheticModuleName, WellFormed, IndexAll, IndexAllQualified, IdsOf, DistinctFiles,
         DistinctModules, MintedFile, MintedModule, Evaluate, FileOf, ModuleOf, ChildPaths, ChildrenOf;
    var ins: seq<SymbolNode>, es: seq<DirectEdge> :| StructuredBy(g, ins, es, g2);
    var file := n.file;
    assert n in g2.nodes;
    ChildListed(g2.nodes, n);
    var c := ContainsEdge(FileOf(g2.nodes, file).value, n.id, file);
    var b := BelongsEdge(n.id, ModuleOf(g2.nodes, file).value, file);
    assert IsContains(g2.nodes, c) && IsBelongs(g2.nodes, b);
    PutPresent(g, es, c);
    PutPresent(g, es, b);
  }

  /**
    The pass puts it nowhere else: a new Contains edge into the symbol comes from that File, a new
    BelongsTo edge out of it goes to that Module.  Without such edges before, there is exactly one of each.
   */
  lemma ContainmentIsUnique(g: Graph, g2: Graph, n: SymbolNode, k: EdgeKey)
    requires WellFormed(g) && Structured(g, g2)
    requires n in g.nodes && IsChild(n) && k in g2.store.edges && k !in g.store.edges
    ensures k.kind.Contains? && k.to == n.id ==> FileOf(g2.nodes, n.file) == Some(k.from)
    ensures k.kind.BelongsTo? && k.from == n.id ==> ModuleOf(g2.nodes, n.file) == Some(k.to)
  {
    hide Select, PutAll, SyntheticModuleName, StoreOk, NameIndexed, QualifiedIndexed, IndexAll, IndexAllQualified,
         IdsOf, DistinctFiles, DistinctModules, MintedFile, MintedModule, Evaluate, FileOf, ModuleOf, ChildPaths,
         ChildrenOf, Housed;
    var ins: seq<SymbolNode>, es: seq<DirectEdge> :| StructuredBy(g, ins, es, g2);
    PutAllEffect(g.store, es);
    var e := g2.store.edges[k];
    assert e in es && KeyOf(e) == k;
    assert n in g2.nodes;
    if (k.kind.Contains? && k.to == n.id) || (k.kind.BelongsTo? && k.from == n.id) {
      ChildOfOneFile(g2.nodes, n, e.evidenceFile);
    }
  }

  /** Ids are unique, so a symbol is listed among the children of its own file only. */
  lemma ChildOfOneFile(ns: seq<SymbolNode>, n: SymbolNode, p: Path)
    requires UniqueIds(ns) && n in ns && n.id in ChildrenOf(ns, p)
    ensures p == n.file
  {
    hide Select;
    IdsOfSelected(ChildAt(p), ns);
    var m :| m in ns && m.id == n.id && Matches(ChildAt(p), m);
    UniqueIdsMeanSameNode(ns, n, m);
  }

  lemma ChildListed(ns: seq<SymbolNode>, n: SymbolNode)
    requires n in ns && IsChild(n)
    ensures n.file in ChildPaths(ns) && n.id in ChildrenOf(ns, n.file)
  {
    hide Select;
    SelectMembers(ChildAt(n.file), ns);
    var kids := Select(ChildAt(n.file), ns);
    var i :| 0 <= i < |kids| && kids[i] == n;
    assert ChildrenOf(ns, n.file)[i] == n.id;
  }

  lemma PutPresent(g: Graph, es: seq<DirectEdge>, e: DirectEdge)
    requires WellFormed(g) && e in es && !e.kind.StringMatch?
    ensures KeyOf(e) in PutAll(g.store, es).edges
  {
    hide PutAll, NodesOk, NameIndexed, QualifiedIndexed;
    PutAllEffect(g.store, es);
  }

  // ------------------------------------------------------------ the pass

  ghost predicate ChildrenTable(ns: seq<SymbolNode>, t: map<Path, seq<SymbolId>>) {
    && t.Keys == ChildPaths(ns)
    && forall p :: p in t ==> t[p] == ChildrenOf(ns, p)
  }

  ghost predicate ContainerTable(ns: seq<SymbolNode>, t: map<Path, SymbolId>) {
    forall p :: RealModuleOf(ns, p) == if p in t then Some(t[p]) else None
  }

  ghost predicate FileTable(ns: seq<SymbolNode>, t: map<Path, SymbolId>) {
    forall p :: FileOf(ns, p) == if p in t then Some(t[p]) else None
  }

  ghost predicate ModuleTable(ns: seq<SymbolNode>, t: map<string, SymbolId>) {
    forall m :: NamedModule(ns, m) == if m in t then Some(t[m]) else None
  }

  /** Collects the symbols, containers and File nodes of each file in one scan. */
  method ScanNodes(ns: seq<SymbolNode>)
    returns (children: map<Path, seq<SymbolId>>, modules: map<Path, SymbolId>, files: map<Path, SymbolId>)
    ensures ChildrenTable(ns, children) && ContainerTable(ns, modules) && FileTable(ns, files)
  {
    hide ChildrenTable, ContainerTable, FileTable;
    children, modules, files := map[], map[], map[];
    EmptyTables();
    for i := 0 to |ns|
      invariant ChildrenTable(ns[..i], children) && ContainerTable(ns[..i], modules) && FileTable(ns[..i], files)
    {
      var n := ns[i];
      ChildrenTableStep(ns, i, children);
      ContainerTableStep(ns, i, modules);
      FileTableStep(ns, i, files);
      if n.kind.File? {
        files := files[n.file := n.id];
      } else if n.file == [] {
      } else if IsContainer(n) {
        modules := modules[n.file := n.id];
      } else if n.kind.DocComment? || n.kind.DocSection? {
      } else {
        children := children[n.file := (if n.file in children then children[n.file] else []) + [n.id]];
      }
    }
    assert ns[..|ns|] == ns;
  }

  lemma EmptyTables()
    ensures ChildrenTable([], map[]) && ContainerTable([], map[]) && FileTable([], map[]) && ModuleTable([], map[])
  {
  }

  lemma ChildrenSnoc(ns: seq<SymbolNode>, i: nat, p: Path)
    requires i < |ns|
    ensures ChildrenOf(ns[..i + 1], p) == ChildrenOf(ns[..i], p) + if Matches(ChildAt(p), ns[i]) then [ns[i].id] else []
    ensures p !in ChildPaths(ns[..i]) ==> ChildrenOf(ns[..i], p) == []
  {
    hide Select;
    SelectPrefix(ChildAt(p), ns, i);
    IdsOfSnoc(Select(ChildAt(p), ns[..i]), ns[i]);
    if p !in ChildPaths(ns[..i]) {
      SelectMembers(ChildAt(p), ns[..i]);
      NoMembers(Select(ChildAt(p), ns[..i]));
    }
  }

  lemma ChildPathsSnoc(ns: seq<SymbolNode>, i: nat)
    requires i < |ns|
    ensures ChildPaths(ns[..i + 1]) == ChildPaths(ns[..i]) + if IsChild(ns[i]) then {ns[i].file} else {}
  {
    assert ns[..i + 1] == ns[..i] + [ns[i]];
  }

  lemma ChildrenTableStep(ns: seq<SymbolNode>, i: nat, t: map<Path, seq<SymbolId>>)
    requires i < |ns| && ChildrenTable(ns[..i], t)
    ensures ChildrenTable(ns[..i + 1],
              if IsChild(ns[i])
              then t[ns[i].file := (if ns[i].file in t then t[ns[i].file] else []) + [ns[i].id]]
              else t)
  {
    hide ChildrenOf, ChildPaths, IsChild;
    ChildPathsSnoc(ns, i);
    forall p
      ensures ChildrenOf(ns[..i + 1], p) ==
              ChildrenOf(ns[..i], p) + if IsChild(ns[i]) && ns[i].file == p then [ns[i].id] else []
      ensures p !in ChildPaths(ns[..i]) ==> ChildrenOf(ns[..i], p) == []
    {
      ChildrenSnoc(ns, i, p);
    }
  }

  lemma ContainerTableStep(ns: seq<SymbolNode>, i: nat, t: map<Path, SymbolId>)
    requires i < |ns| && ContainerTable(ns[..i], t)
    ensures ContainerTable(ns[..i + 1], if IsContainer(ns[i]) && ns[i].file != [] then t[ns[i].file := ns[i].id] else t)
  {
    hide Select;
    forall p
      ensures RealModuleOf(ns[..i + 1], p) ==
              if Matches(ContainerAt(p), ns[i]) then Some(ns[i].id) else RealModuleOf(ns[..i], p)
    {
      SelectPrefix(ContainerAt(p), ns, i);
    }
  }

  lemma FileTableStep(ns: seq<SymbolNode>, i: nat, t: map<Path, SymbolId>)
    requires i < |ns| && FileTable(ns[..i], t)
    ensures FileTable(ns[..i + 1], if ns[i].kind.File? then t[ns[i].file := ns[i].id] else t)
  {
    hide Select;
    forall p
      ensures FileOf(ns[..i + 1], p) ==
              if Matches(FileAt(p), ns[i]) then Some(ns[i].id) else FileOf(ns[..i], p)
    {
      SelectPrefix(FileAt(p), ns, i);
    }
  }

  lemma ModuleTableStep(ns: seq<SymbolNode>, i: nat, t: map<string, SymbolId>)
    requires i < |ns| && ModuleTable(ns[..i], t)
    ensures ModuleTable(ns[..i + 1], if ns[i].kind.Module? && ns[i].name !in t then t[ns[i].name := ns[i].id] else t)
  {
    hide Select;
    forall m
      ensures NamedModule(ns[..i + 1], m) ==
              if NamedModule(ns[..i], m).Some? then NamedModule(ns[..i], m)
              else if Matches(ModuleNamed(m), ns[i]) then Some(ns[i].id) else None
    {
      SelectPrefix(ModuleNamed(m), ns, i);
    }
  }

  lemma IdsOfSnoc(ns: seq<SymbolNode>, n: SymbolNode)
    ensures IdsOf(ns + [n]) == IdsOf(ns) + [n.id]
  {
  }

  /** The first Module of each name, so that a Module left by an earlier run is reused. */
  method SeedModules(ns: seq<SymbolNode>) returns (ids: map<string, SymbolId>)
    ensures ModuleTable(ns, ids)
  {
    hide ModuleTable;
    ids := map[];
    EmptyTables();
    for i := 0 to |ns|
      invariant ModuleTable(ns[..i], ids)
    {
      ModuleTableStep(ns, i, ids);
      if ns[i].kind.Module? && ns[i].name !in ids {
        ids := ids[ns[i].name := ns[i].id];
      }
    }
    assert ns[..|ns|] == ns;
  }

  /** A File node for every path that has none. */
  method InsertFiles(g: SymbolGraph, paths: set<Path>, existing: map<Path, SymbolId>)
    returns (fileIds: map<Path, SymbolId>, ghost ins: seq<SymbolNode>)
    requires WellFormed(g.Value())
    requires FileTable(g.nodes, existing)
    modifies g
    ensures WellFormed(g.Value()) && Grows(old(g.Value()), ins, g.Value())
    ensures g.Value().store == old(g.Value().store)
    ensures forall n :: n in ins ==> n == FileNode(n.file).(id := n.id) && n.file in paths && n.file !in existing
    ensures DistinctFiles(ins)
    ensures fileIds.Keys == existing.Keys + paths && FileTable(g.nodes, fileIds)
  {
    hide Select, IndexAll, IndexAllQualified, Pushed, StoreOk, NameIndexed, QualifiedIndexed, FileTable, Grows;
    fileIds, ins := existing, [];
    var rest := paths;
    GrowsRefl(g.Value());
    while rest != {}
      invariant rest <= paths
      invariant WellFormed(g.Value()) && Grows(old(g.Value()), ins, g.Value())
      invariant g.Value().store == old(g.Value().store)
      invariant forall n ::
                  n in ins ==> n == FileNode(n.file).(id := n.id) && n.file in paths - rest && n.file !in existing
      invariant DistinctFiles(ins)
      invariant fileIds.Keys == existing.Keys + (paths - rest) && FileTable(g.nodes, fileIds)
      decreases rest
    {
      var p :| p in rest;
      if p !in fileIds {
        ghost var before := g.Value();
        ghost var k;
        var id;
        id, k := g.InsertNode(FileNode(p));
        ghost var table := fileIds;
        fileIds := fileIds[p := id];
        GrowsStep(old(g.Value()), ins, before, FileNode(p), k);
        FileTableInserted(before, p, k, table);
        ins := ins + [FileNode(p).(id := id)];
      }
      rest := rest - {p};
    }
  }

  lemma FileTableInserted(g: Graph, p: Path, k: nat, t: map<Path, SymbolId>)
    requires k <= |g.nodes| && FileTable(g.nodes, t) && p !in t
    ensures FileTable(WithNode(g, FileNode(p), k).nodes, t[p := g.nextId])
  {
    hide Select, Pushed;
    var n := FileNode(p).(id := g.nextId);
    forall q
      ensures FileOf(WithNode(g, FileNode(p), k).nodes, q) ==
              if q == p then Some(g.nextId) else FileOf(g.nodes, q)
    {
      SelectInserted(FileAt(q), g.nodes, n, k);
    }
  }

  method EmitContains(g: SymbolGraph, children: map<Path, seq<SymbolId>>, fileIds: map<Path, SymbolId>)
    returns (ghost es: seq<DirectEdge>)
    requires WellFormed(g.Value())
    requires children.Keys <= fileIds.Keys
    requires forall p :: p in children ==> fileIds[p] in Ids(g.nodes) && fileIds[p] !in children[p]
    requires forall p, c :: p in children && c in children[p] ==> c in Ids(g.nodes)
    modifies g`edges, g`edgeSet
    ensures WellFormed(g.Value())
    ensures g.Value() == old(g.Value()).(store := PutAll(old(g.Value().store), es))
    ensures forall e :: e in es <==>
              e.evidenceFile in children && e.to in children[e.evidenceFile]
              && e == ContainsEdge(fileIds[e.evidenceFile], e.to, e.evidenceFile)
  {
    hide Select, PutAll, Put, FileOf, Evaluate, StoreOk, NameIndexed, QualifiedIndexed, Known;
    es := [];
    PutAllNone(g.Value().store);
    var rest := children.Keys;
    while rest != {}
      invariant rest <= children.Keys
      invariant WellFormed(g.Value())
      invariant g.Value() == old(g.Value()).(store := PutAll(old(g.Value().store), es))
      invariant forall e :: e in es <==>
                  e.evidenceFile in children.Keys - rest && e.to in children[e.evidenceFile]
                  && e == ContainsEdge(fileIds[e.evidenceFile], e.to, e.evidenceFile)
      decreases rest
    {
      var p :| p in rest;
      var kids := children[p];
      for j := 0 to |kids|
        invariant WellFormed(g.Value())
        invariant g.Value() == old(g.Value()).(store := PutAll(old(g.Value().store), es))
        invariant forall e :: e in es <==>
                    (e.evidenceFile in children.Keys - rest && e.to in children[e.evidenceFile]
                     && e == ContainsEdge(fileIds[e.evidenceFile], e.to, e.evidenceFile))
                    || (e.to in kids[..j] && e == ContainsEdge(fileIds[p], e.to, p))
      {
        if kids[j] != fileIds[p] {
          var e := ContainsEdge(fileIds[p], kids[j], p);
          EndpointsKnown(g.Value(), e);
          var _ := g.InsertEdge(e);
          PutAllOne(old(g.Value().store), es, e);
          es := es + [e];
        }
      }
      rest := rest - {p};
    }
  }

  lemma EndpointsKnown(g: Graph, e: DirectEdge)
    requires UniqueIds(g.nodes) && e.from in Ids(g.nodes) && e.to in Ids(g.nodes)
    ensures Known(g, e)
  {
    GetNodeFinds(g.nodes, e.from);
    GetNodeFinds(g.nodes, e.to);
  }

  /** The best-scored file of each synthetic module name, over the files without a container. */
  method BestFiles(paths: set<Path>, modules: map<Path, SymbolId>) returns (best: map<string, Path>)
    ensures BestTable(paths, modules, best)
  {
    hide SyntheticModuleName, RepresentativeScore;
    var scored: map<string, (Path, int)> := map[];
    var rest := paths;
    while rest != {}
      invariant rest <= paths
      invariant forall p :: p in paths - rest && p !in modules ==> SyntheticModuleName(p) in scored
      invariant forall m :: m in scored ==>
                  && scored[m].0 in paths && scored[m].0 !in modules && SyntheticModuleName(scored[m].0) == m
                  && scored[m].1 == RepresentativeScore(scored[m].0)
      invariant forall m, p :: m in scored && p in paths - rest && p !in modules && SyntheticModuleName(p) == m ==>
                  RepresentativeScore(p) <= scored[m].1
      decreases rest
    {
      var p :| p in rest;
      if p !in modules {
        var name := SyntheticModuleName(p);
        var score := RepresentativeScore(p);
        if name !in scored || score > scored[name].1 {
          scored := scored[name := (p, score)];
        }
      }
      rest := rest - {p};
    }
    best := map m | m in scored :: scored[m].0;
  }

  /** The Module a file's symbols are attached to, from the tables of the pass. */
  function ModuleFrom(modules: map<Path, SymbolId>, synth: map<string, SymbolId>, p: Path): Option<SymbolId> {
    if p in modules then Some(modules[p])
    else if SyntheticModuleName(p) in synth then Some(synth[SyntheticModuleName(p)])
    else None
  }

  ghost predicate ModulesFrom(ns: seq<SymbolNode>, modules: map<Path, SymbolId>, best: map<string, Path>,
                              ins: seq<SymbolNode>) {
    && (forall n :: n in ins ==>
          && n == ModuleNode(n.name, n.file).(id := n.id)
          && n.name in best && n.file == best[n.name] && n.file !in modules
          && SyntheticModuleName(n.file) == n.name
          && NamedModule(ns, n.name).None?)
    && DistinctModules(ins)
  }

  /** After the inserted Modules, looking a file's Module up again gives the one the tables gave. */
  lemma ModuleLookupStable(g: Graph, ins: seq<SymbolNode>, g2: Graph,
                           modules: map<Path, SymbolId>, best: map<string, Path>, synth: map<string, SymbolId>, p: Path)
    requires WellFormed(g) && Grows(g, ins, g2) && ModulesFrom(g.nodes, modules, best, ins)
    requires ContainerTable(g.nodes, modules) && ModuleTable(g2.nodes, synth)
    ensures ModuleOf(g2.nodes, p) == ModuleFrom(modules, synth, p)
  {
    hide Select, SyntheticModuleName, IndexAll, IndexAllQualified;
    var before, after := Select(ContainerAt(p), g.nodes), Select(ContainerAt(p), g2.nodes);
    if p in modules {
      GrowsSelect(g, ins, g2, ContainerAt(p));
    } else if after != [] {
      SelectMembers(ContainerAt(p), g2.nodes);
      SelectMembers(ContainerAt(p), g.nodes);
      var n := after[|after| - 1];
      assert n in after;
      assert n !in before;
      assert n in ins;
      var m := n.name;
      var named := Select(ModuleNamed(m), g2.nodes);
      SelectMembers(ModuleNamed(m), g2.nodes);
      SelectMembers(ModuleNamed(m), g.nodes);
      assert n in named;
      var f := named[0];
      assert f in named;
      assert f !in Select(ModuleNamed(m), g.nodes);
      assert f in ins;
      SameModule(ins, f, n);
    }
  }

  lemma SameModule(ins: seq<SymbolNode>, a: SymbolNode, b: SymbolNode)
    requires DistinctModules(ins) && a in ins && b in ins
    requires a.kind.Module? && b.kind.Module? && a.name == b.name
    ensures a == b
  {
    var i :| 0 <= i < |ins| && ins[i] == a;
    var j :| 0 <= j < |ins| && ins[j] == b;
    assert i == j;
  }

  ghost predicate KidsIn(ns: seq<SymbolNode>, children: map<Path, seq<SymbolId>>) {
    forall p, c :: p in children && c in children[p] ==> exists n :: n in ns && n.id == c && IsChild(n)
  }

  lemma KidsStay(g: Graph, ins: seq<SymbolNode>, g2: Graph, children: map<Path, seq<SymbolId>>)
    requires KidsIn(g.nodes, children) && Grows(g, ins, g2)
    ensures KidsIn(g2.nodes, children)
  {
    forall p, c | p in children && c in children[p] ensures exists n :: n in g2.nodes && n.id == c && IsChild(n) {
      var n :| n in g.nodes && n.id == c && IsChild(n);
      assert n in g2.nodes;
    }
  }

  /** `es` are exactly the BelongsTo edges of the symbols of the files in `done`. */
  ghost predicate BelongsFrom(children: map<Path, seq<SymbolId>>, done: set<Path>, modules: map<Path, SymbolId>,
                              synth: map<string, SymbolId>, es: seq<DirectEdge>) {
    && (forall p :: p in done ==> p in children && ModuleFrom(modules, synth, p).Some?)
    && forall e :: e in es <==>
         e.evidenceFile in done && e.from in children[e.evidenceFile]
         && Some(e.to) == ModuleFrom(modules, synth, e.evidenceFile)
         && e == BelongsEdge(e.from, e.to, e.evidenceFile)
  }

  lemma BelongsFromNone(children: map<Path, seq<SymbolId>>, modules: map<Path, SymbolId>, synth: map<string, SymbolId>)
    ensures BelongsFrom(children, {}, modules, synth, [])
  {
  }

  lemma BelongsFromSynth(children: map<Path, seq<SymbolId>>, done: set<Path>, modules: map<Path, SymbolId>,
                         synth: map<string, SymbolId>, es: seq<DirectEdge>, name: string, id: SymbolId)
    requires BelongsFrom(children, done, modules, synth, es) && name !in synth
    ensures BelongsFrom(children, done, modules, synth[name := id], es)
  {
    hide SyntheticModuleName, BelongsEdge;
    assert forall q :: q in done ==> ModuleFrom(modules, synth[name := id], q) == ModuleFrom(modules, synth, q);
  }

  lemma BelongsFromStep(children: map<Path, seq<SymbolId>>, done: set<Path>, modules: map<Path, SymbolId>,
                        synth: map<string, SymbolId>, es: seq<DirectEdge>, p: Path, owner: SymbolId,
                        es2: seq<DirectEdge>)
    requires BelongsFrom(children, done, modules, synth, es)
    requires p in children && p !in done && ModuleFrom(modules, synth, p) == Some(owner)
    requires forall e :: e in es2 <==> e in es || (e.from in children[p] && e == BelongsEdge(e.from, owner, p))
    ensures BelongsFrom(children, done + {p}, modules, synth, es2)
  {
    hide SyntheticModuleName, ModuleFrom;
  }

  /** A BelongsTo edge for every symbol, minting a Module where the name has none yet. */
  method EmitBelongs(g: SymbolGraph, children: map<Path, seq<SymbolId>>, modules: map<Path, SymbolId>,
                     best: map<string, Path>, seeds: map<string, SymbolId>)
    returns (synth: map<string, SymbolId>, ghost ins: seq<SymbolNode>, ghost es: seq<DirectEdge>)
    requires WellFormed(g.Value())
    requires ModuleTable(g.nodes, seeds)
    requires ContainerTable(g.nodes, modules)
    requires BestTable(children.Keys, modules, best)
    requires KidsIn(g.nodes, children)
    modifies g
    ensures WellFormed(g.Value()) && Grows(old(g.Value()), ins, g.Value())
    ensures ModulesFrom(old(g.nodes), modules, best, ins)
    ensures ModuleTable(g.nodes, synth)
    ensures g.Value().store == PutAll(old(g.Value().store), es)
    ensures BelongsFrom(children, children.Keys, modules, synth, es)
  {
    hide Select, SyntheticModuleName, RepresentativeScore, PutAll, Evaluate, StoreOk, NameIndexed,
         QualifiedIndexed, ModuleTable, ContainerTable, ModulesFrom, Grows, KidsIn, UniqueIds, IsChild,
         IsContainer, NodesOk, BelongsEdge, BelongsFrom;
    synth, ins, es := seeds, [], [];
    PutAllNone(g.Value().store);
    var rest := children.Keys;
    GrowsRefl(g.Value());
    ModulesFromNone(g.nodes, modules, best);
    assert children.Keys - rest == {};
    BelongsFromNone(children, modules, synth);
    while rest != {}
      invariant rest <= children.Keys
      invariant WellFormed(g.Value()) && Grows(old(g.Value()), ins, g.Value())
      invariant ModulesFrom(old(g.nodes), modules, best, ins)
      invariant ModuleTable(g.nodes, synth)
      invariant forall m :: m in seeds ==> m in synth
      invariant g.Value().store == PutAll(old(g.Value().store), es)
      invariant BelongsFrom(children, children.Keys - rest, modules, synth, es)
      decreases rest
    {
      var p :| p in rest;
      var owner;
      if p in modules {
        owner := modules[p];
      } else {
        var name := SyntheticModuleName(p);
        if name !in synth {
          ghost var before := g.Value();
          var node := ModuleNode(name, best[name]);
          ghost var k;
          owner, k := g.InsertNode(node);
          GrowsStep(old(g.Value()), ins, before, node, k);
          ModuleTableInserted(before, node, k, synth);
          ModulesFromSnoc(old(g.Value()), ins, before, modules, best, synth, name, owner);
          ins := ins + [node.(id := owner)];
          BelongsFromSynth(children, children.Keys - rest, modules, synth, es, name, owner);
          synth := synth[name := owner];
        }
        owner := synth[name];
      }
      OwnerIsContainer(old(g.Value()), ins, g.Value(), modules, synth, p, owner);
      KidsStay(old(g.Value()), ins, g.Value(), children);
      ghost var linked := g.Value();
      ghost var earlier := es;
      es := EmitBelongsOf(g, children[p], p, owner, es, old(g.Value().store));
      BelongsFromStep(children, children.Keys - rest, modules, synth, earlier, p, owner, es);
      assert children.Keys - (rest - {p}) == children.Keys - rest + {p};
      GrowsStore(old(g.Value()), ins, linked, g.Value());
      rest := rest - {p};
    }
    assert children.Keys - rest == children.Keys;
  }

  lemma ModuleTableInserted(g: Graph, node: SymbolNode, k: nat, t: map<string, SymbolId>)
    requires k <= |g.nodes| && ModuleTable(g.nodes, t) && node.name !in t && node.kind.Module?
    ensures ModuleTable(WithNode(g, node, k).nodes, t[node.name := g.nextId])
  {
    hide Select, Pushed;
    var n := node.(id := g.nextId);
    forall m
      ensures NamedModule(WithNode(g, node, k).nodes, m) ==
              if m == node.name then Some(g.nextId) else NamedModule(g.nodes, m)
    {
      SelectInserted(ModuleNamed(m), g.nodes, n, k);
    }
  }

  lemma ModulesFromNone(ns: seq<SymbolNode>, modules: map<Path, SymbolId>, best: map<string, Path>)
    ensures ModulesFrom(ns, modules, best, [])
  {
  }

  lemma ModulesFromSnoc(g: Graph, ins: seq<SymbolNode>, g1: Graph, modules: map<Path, SymbolId>,
                        best: map<string, Path>, synth: map<string, SymbolId>, name: string, id: SymbolId)
    requires NodesOk(g.nodes, g.nextId) && Grows(g, ins, g1) && ModulesFrom(g.nodes, modules, best, ins)
    requires ModuleTable(g1.nodes, synth) && name !in synth && name in best
    requires best[name] !in modules && SyntheticModuleName(best[name]) == name
    ensures ModulesFrom(g.nodes, modules, best, ins + [ModuleNode(name, best[name]).(id := id)])
  {
    hide Select, IndexAll, IndexAllQualified, SyntheticModuleName;
    SelectMembers(ModuleNamed(name), g1.nodes);
    assert NamedModule(g1.nodes, name).None?;
    assert forall n :: n in ins ==> n.name != name;
    GrowsSelect(g, ins, g1, ModuleNamed(name));
  }

  /** The owner is a live container, so it is none of the symbols and both ends of the new edges exist. */
  lemma OwnerIsContainer(g: Graph, ins: seq<SymbolNode>, g2: Graph, modules: map<Path, SymbolId>,
                         synth: map<string, SymbolId>, p: Path, owner: SymbolId)
    requires WellFormed(g) && WellFormed(g2) && Grows(g, ins, g2)
    requires ContainerTable(g.nodes, modules) && ModuleTable(g2.nodes, synth)
    requires ModuleFrom(modules, synth, p) == Some(owner)
    ensures owner in Ids(g2.nodes)
    ensures forall n :: n in g2.nodes && n.id == owner ==> IsContainer(n)
  {
    hide Select, SyntheticModuleName, IndexAll, IndexAllQualified, StoreOk, NameIndexed, QualifiedIndexed;
    var c: SymbolNode;
    if p in modules {
      var cs := Select(ContainerAt(p), g.nodes);
      SelectMembers(ContainerAt(p), g.nodes);
      c := cs[|cs| - 1];
      assert c in cs;
    } else {
      var cs := Select(ModuleNamed(SyntheticModuleName(p)), g2.nodes);
      SelectMembers(ModuleNamed(SyntheticModuleName(p)), g2.nodes);
      c := cs[0];
      assert c in cs;
    }
    assert c in g2.nodes && c.id == owner && IsContainer(c);
    forall n | n in g2.nodes && n.id == owner ensures IsContainer(n) {
      UniqueIdsMeanSameNode(g2.nodes, n, c);
    }
  }

  method EmitBelongsOf(g: SymbolGraph, kids: seq<SymbolId>, p: Path, owner: SymbolId,
                       ghost es0: seq<DirectEdge>, ghost store0: EdgeStore)
    returns (ghost es: seq<DirectEdge>)
    requires WellFormed(g.Value()) && owner in Ids(g.nodes)
    requires forall n :: n in g.nodes && n.id == owner ==> IsContainer(n)
    requires forall c :: c in kids ==> exists n :: n in g.nodes && n.id == c && IsChild(n)
    requires g.Value().store == PutAll(store0, es0)
    modifies g`edges, g`edgeSet
    ensures WellFormed(g.Value())
    ensures g.Value() == old(g.Value()).(store := PutAll(store0, es))
    ensures forall e :: e in es <==> e in es0 || (e.from in kids && e == BelongsEdge(e.from, owner, p))
  {
    hide Select, PutAll, Put, Evaluate;
    es := es0;
    for j := 0 to |kids|
      invariant WellFormed(g.Value())
      invariant g.Value() == old(g.Value()).(store := PutAll(store0, es))
      invariant forall e :: e in es <==> e in es0 || (e.from in kids[..j] && e == BelongsEdge(e.from, owner, p))
    {
      assert kids[j] in kids;
      if kids[j] != owner {
        var e := BelongsEdge(kids[j], owner, p);
        assert kids[j] in Ids(g.nodes);
        EndpointsKnown(g.Value(), e);
        var _ := g.InsertEdge(e);
        PutAllOne(store0, es, e);
        es := es + [e];
      } else {
        assert false;
      }
    }
  }

  // ------------------------------------------------------------ putting the phases together

  lemma AppendedDistinct(a: seq<SymbolNode>, b: seq<SymbolNode>)
    requires forall n :: n in a ==> n.kind.File?
    requires forall n :: n in b ==> n.kind.Module?
    requires DistinctFiles(a) && DistinctModules(b)
    ensures DistinctFiles(a + b) && DistinctModules(a + b)
  {
    var c := a + b;
    forall i, j | 0 <= i < j < |c|
      ensures c[i].kind.File? && c[j].kind.File? ==> c[i].file != c[j].file
      ensures c[i].kind.Module? && c[j].kind.Module? ==> c[i].name != c[j].name
    {
      assert if i < |a| then c[i] in a else c[i] == b[i - |a|] && c[i] in b;
      assert if j < |a| then c[j] in a else c[j] == b[j - |a|] && c[j] in b;
    }
  }

  /** Selections by file and by child are the same before and after Modules were inserted, and so on. */
  lemma LookupsAfter(g: Graph, insF: seq<SymbolNode>, g1: Graph, insM: seq<SymbolNode>, g3: Graph)
    requires WellFormed(g) && WellFormed(g1) && Grows(g, insF, g1) && Grows(g1, insM, g3)
    requires forall n :: n in insF ==> n.kind.File?
    requires forall n :: n in insM ==> n.kind.Module?
    ensures forall p :: ChildrenOf(g3.nodes, p) == ChildrenOf(g.nodes, p)
    ensures forall p :: FileOf(g3.nodes, p) == FileOf(g1.nodes, p)
    ensures forall p :: RealModuleOf(g1.nodes, p) == RealModuleOf(g.nodes, p)
    ensures forall m :: NamedModule(g1.nodes, m) == NamedModule(g.nodes, m)
    ensures ChildPaths(g3.nodes) == ChildPaths(g.nodes)
  {
    hide Select, IdsOf, IndexAll, IndexAllQualified, WellFormed;
    WellFormedNodes(g);
    WellFormedNodes(g1);
    forall p
      ensures ChildrenOf(g3.nodes, p) == ChildrenOf(g.nodes, p)
      ensures FileOf(g3.nodes, p) == FileOf(g1.nodes, p)
      ensures RealModuleOf(g1.nodes, p) == RealModuleOf(g.nodes, p)
    {
      GrowsSelect(g, insF, g1, ChildAt(p));
      GrowsSelect(g1, insM, g3, ChildAt(p));
      GrowsSelect(g1, insM, g3, FileAt(p));
      GrowsSelect(g, insF, g1, ContainerAt(p));
    }
    forall m ensures NamedModule(g1.nodes, m) == NamedModule(g.nodes, m) {
      GrowsSelect(g, insF, g1, ModuleNamed(m));
    }
    assert forall n :: n in g3.nodes && IsChild(n) <==> n in g.nodes && IsChild(n);
  }

  lemma WellFormedNodes(g: Graph)
    requires WellFormed(g)
    ensures NodesOk(g.nodes, g.nextId)
    ensures forall k :: k in g.store.edges ==> k in g.store.seen
  {
  }

  ghost predicate BestTable(paths: set<Path>, modules: map<Path, SymbolId>, best: map<string, Path>) {
    && (forall p :: p in paths && p !in modules ==> SyntheticModuleName(p) in best)
    && (forall m :: m in best ==> best[m] in paths && best[m] !in modules && SyntheticModuleName(best[m]) == m)
    && (forall m, p :: m in best && p in paths && p !in modules && SyntheticModuleName(p) == m ==>
          RepresentativeScore(p) <= RepresentativeScore(best[m]))
  }

  lemma MintedByTables(g: Graph, insF: seq<SymbolNode>, g1: Graph, insM: seq<SymbolNode>,
                       children: map<Path, seq<SymbolId>>, modules: map<Path, SymbolId>, files: map<Path, SymbolId>,
                       best: map<string, Path>)
    requires ChildrenTable(g.nodes, children) && ContainerTable(g.nodes, modules) && FileTable(g.nodes, files)
    requires forall n :: n in insF ==> n == FileNode(n.file).(id := n.id) && n.file in children.Keys && n.file !in files
    requires ModulesFrom(g1.nodes, modules, best, insM) && BestTable(children.Keys, modules, best)
    requires forall m :: NamedModule(g1.nodes, m) == NamedModule(g.nodes, m)
    ensures forall n :: n in insF + insM ==> MintedFile(g.nodes, n) || MintedModule(g.nodes, n)
  {
    hide Select, SyntheticModuleName, RepresentativeScore;
    forall n | n in insM ensures MintedModule(g.nodes, n) {
      assert Unhoused(g.nodes, n.file);
    }
  }

  lemma Assemble(g: Graph, insF: seq<SymbolNode>, g1: Graph, insM: seq<SymbolNode>, g3: Graph,
                 esC: seq<DirectEdge>, esB: seq<DirectEdge>,
                 children: map<Path, seq<SymbolId>>, modules: map<Path, SymbolId>, files: map<Path, SymbolId>,
                 fileIds: map<Path, SymbolId>, best: map<string, Path>, synth: map<string, SymbolId>)
    requires WellFormed(g) && WellFormed(g1) && Grows(g, insF, g1) && Grows(g1, insM, g3)
    requires ChildrenTable(g.nodes, children) && ContainerTable(g.nodes, modules) && FileTable(g.nodes, files)
    requires forall n :: n in insF ==> n == FileNode(n.file).(id := n.id) && n.file in children.Keys && n.file !in files
    requires DistinctFiles(insF)
    requires children.Keys <= fileIds.Keys && FileTable(g1.nodes, fileIds)
    requires ModulesFrom(g1.nodes, modules, best, insM) && BestTable(children.Keys, modules, best)
    requires ModuleTable(g3.nodes, synth)
    requires forall e :: e in esC <==>
               e.evidenceFile in children && e.to in children[e.evidenceFile]
               && e == ContainsEdge(fileIds[e.evidenceFile], e.to, e.evidenceFile)
    requires BelongsFrom(children, children.Keys, modules, synth, esB)
    requires g3.store == PutAll(PutAll(g.store, esC), esB)
    ensures StructuredBy(g, insF + insM, esC + esB, g3)
  {
    hide Select, SyntheticModuleName, RepresentativeScore, IdsOf, PutAll, WellFormed, Evaluate, IndexAll,
         IndexAllQualified, ChildPaths, ChildrenOf, FileOf, ModuleOf, RealModuleOf, NamedModule, MintedFile,
         MintedModule, IsContains, IsBelongs, Grows, BestTable;
    assert forall n :: n in insF ==> n.kind.File?;
    assert forall n :: n in insM ==> n.kind.Module?;
    GrowsTrans(g, insF, g1, insM, g3);
    LookupsAfter(g, insF, g1, insM, g3);
    MintedByTables(g, insF, g1, insM, children, modules, files, best);
    AppendedDistinct(insF, insM);
    assert ContainerTable(g1.nodes, modules);
    forall p ensures ModuleOf(g3.nodes, p) == ModuleFrom(modules, synth, p) {
      ModuleLookupStable(g1, insM, g3, modules, best, synth, p);
    }
    PutAllConcat(g.store, esC, esB);
    EdgesOfTables(g3.nodes, children, fileIds, modules, synth, esC, esB);
  }

  lemma EdgesOfTables(ns: seq<SymbolNode>, children: map<Path, seq<SymbolId>>, fileIds: map<Path, SymbolId>,
                      modules: map<Path, SymbolId>, synth: map<string, SymbolId>,
                      esC: seq<DirectEdge>, esB: seq<DirectEdge>)
    requires ChildrenTable(ns, children)
    requires children.Keys <= fileIds.Keys && FileTable(ns, fileIds)
    requires forall p :: ModuleOf(ns, p) == ModuleFrom(modules, synth, p)
    requires forall e :: e in esC <==>
               e.evidenceFile in children && e.to in children[e.evidenceFile]
               && e == ContainsEdge(fileIds[e.evidenceFile], e.to, e.evidenceFile)
    requires BelongsFrom(children, children.Keys, modules, synth, esB)
    ensures forall e :: e in esC + esB <==> IsContains(ns, e) || IsBelongs(ns, e)
  {
    hide Select, SyntheticModuleName, Evaluate, ModuleOf, ModuleFrom, FileOf;
    forall p, c | c in ChildrenOf(ns, p) ensures p in children && children[p] == ChildrenOf(ns, p) {
      SelectMembers(ChildAt(p), ns);
      var kids := Select(ChildAt(p), ns);
      var i :| 0 <= i < |kids| && ChildrenOf(ns, p)[i] == c;
      assert kids[i] in kids;
      assert IsChild(kids[i]) && kids[i].file == p;
    }
  }

  lemma ContainsNeedsNoSelfCheck(g: Graph, children: map<Path, seq<SymbolId>>, g1: Graph, ins: seq<SymbolNode>,
                                 fileIds: map<Path, SymbolId>)
    requires WellFormed(g) && WellFormed(g1) && Grows(g, ins, g1)
    requires ChildrenTable(g.nodes, children) && FileTable(g1.nodes, fileIds) && children.Keys <= fileIds.Keys
    ensures KidsIn(g1.nodes, children)
    ensures forall p :: p in children ==> fileIds[p] in Ids(g1.nodes) && fileIds[p] !in children[p]
    ensures forall p, c :: p in children && c in children[p] ==> c in Ids(g1.nodes)
  {
    hide Select, IndexAll, IndexAllQualified, StoreOk, NameIndexed, QualifiedIndexed;
    ChildrenExist(g.nodes, children);
    KidsStay(g, ins, g1, children);
    forall p | p in children ensures fileIds[p] in Ids(g1.nodes) && fileIds[p] !in children[p] {
      assert FileOf(g1.nodes, p) == Some(fileIds[p]);
      FileNodeLive(g1.nodes, p);
    }
  }

  lemma ChildrenExist(ns: seq<SymbolNode>, children: map<Path, seq<SymbolId>>)
    requires ChildrenTable(ns, children)
    ensures KidsIn(ns, children)
  {
    hide Select;
    forall p, c | p in children && c in children[p] ensures exists n :: n in ns && n.id == c && IsChild(n) {
      SelectMembers(ChildAt(p), ns);
      var kids := Select(ChildAt(p), ns);
      var i :| 0 <= i < |kids| && children[p][i] == c;
      assert kids[i] in kids;
    }
  }

  lemma FileNodeLive(ns: seq<SymbolNode>, p: Path)
    requires UniqueIds(ns) && FileOf(ns, p).Some?
    ensures FileOf(ns, p).value in Ids(ns)
    ensures forall n :: n in ns && n.id == FileOf(ns, p).value ==> n.kind.File?
  {
    hide Select;
    var files := Select(FileAt(p), ns);
    SelectMembers(FileAt(p), ns);
    var f := files[|files| - 1];
    assert f in files;
    forall n | n in ns && n.id == f.id ensures n.kind.File? {
      UniqueIdsMeanSameNode(ns, n, f);
    }
  }

  lemma ContainersAfterFiles(g: Graph, ins: seq<SymbolNode>, g1: Graph, modules: map<Path, SymbolId>)
    requires WellFormed(g) && Grows(g, ins, g1) && ContainerTable(g.nodes, modules)
    requires forall n :: n in ins ==> n == FileNode(n.file).(id := n.id)
    ensures ContainerTable(g1.nodes, modules)
  {
    hide Select, IndexAll, IndexAllQualified, StoreOk, NameIndexed, QualifiedIndexed;
    forall p ensures RealModuleOf(g1.nodes, p) == RealModuleOf(g.nodes, p) {
      GrowsSelect(g, ins, g1, ContainerAt(p));
    }
  }

  lemma StructuredWitness(g: Graph, ins: seq<SymbolNode>, es: seq<DirectEdge>, g2: Graph)
    requires StructuredBy(g, ins, es, g2)
    ensures Structured(g, g2)
  {
  }

  /** structural_pass: File nodes, Contains edges, Modules, BelongsTo edges, in that order. */
  method StructuralPass(g: SymbolGraph)
    requires WellFormed(g.Value())
    modifies g
    ensures WellFormed(g.Value()) && Structured(old(g.Value()), g.Value())
  {
    hide WellFormed, Grows, ChildrenTable, ContainerTable, FileTable, ModuleTable, ModulesFrom, BestTable,
         Structured, StructuredBy, PutAll, KidsIn, FileNode, ContainsEdge, BelongsEdge, ModuleFrom, Ids;
    ghost var start := g.Value();
    var children, modules, files := ScanNodes(g.nodes);
    var fileIds;
    ghost var insF;
    fileIds, insF := InsertFiles(g, children.Keys, files);
    ghost var filed := g.Value();
    ContainsNeedsNoSelfCheck(start, children, filed, insF, fileIds);
    ghost var esC := EmitContains(g, children, fileIds);
    ghost var linked := g.Value();
    var best := BestFiles(children.Keys, modules);
    var seeds := SeedModules(g.nodes);
    ContainersAfterFiles(start, insF, filed, modules);
    var synth;
    ghost var insM, esB;
    synth, insM, esB := EmitBelongs(g, children, modules, best, seeds);
    GrowsStoreLeft(filed, linked, insM, g.Value());
    Assemble(start, insF, filed, insM, g.Value(), esC, esB, children, modules, files, fileIds, best, synth);
    StructuredWitness(start, insF + insM, esC + esB, g.Value());
  }
}
