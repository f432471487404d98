/**
  The derive stages in the order a rebuild runs them: structural_pass, resolve_references,
  derive_inherits.  Re-running them on their own output must not inflate the graph.
 */
module DeriveStages {
  import opened Symbols
  import opened NodeQueries
  import opened SymbolGraphs
  import opened Enclosing
  import opened Resolution
  import opened StructuralPasses
  import opened ResolvePasses

  // ------------------------------------------------------------ derive_inherits

  /** Languages where `extends` is inheritance. */
  predicate IsJvmFile(p: Path) {
    Lower(Extension(p)) == "java" || Lower(Extension(p)) == "kt"
  }

  function InheritsEdge(e: DirectEdge): DirectEdge {
    NewEdge(e.from, e.to, Inherits, NameResolved, Evaluate(Inherits, NameResolved), e.evidenceFile)
  }

  predicate IsJvmExtends(s: EdgeStore, k: EdgeKey) {
    k in s.edges && k.kind.Extends? && IsJvmFile(s.edges[k].evidenceFile)
  }

  ghost predicate IsInherits(s: EdgeStore, e: DirectEdge) {
    var k := EdgeKey(e.from, e.to, EdgeKind.Extends);
    IsJvmExtends(s, k) && e == InheritsEdge(s.edges[k])
  }

  ghost predicate InheritedBy(g: Graph, es: seq<DirectEdge>, g2: Graph) {
    && (forall e :: e in es <==> IsInherits(g.store, e))
    && g2 == g.(store := PutAll(g.store, es))
  }

  ghost predicate Inherited(g: Graph, g2: Graph) {
    exists es :: InheritedBy(g, es, g2)
  }

  ghost predicate KeysMatch(s: EdgeStore) {
    forall k :: k in s.edges ==> KeyOf(s.edges[k]) == k && k in s.seen
  }

  method DeriveInherits(g: SymbolGraph)
    requires WellFormed(g.Value())
    modifies g`edges, g`edgeSet
    ensures WellFormed(g.Value()) && Inherited(old(g.Value()), g.Value())
  {
    hide IsJvmFile, Evaluate, PutAll, Put, NameIndexed, QualifiedIndexed, NodesOk;
    ghost var start := g.Value();
    var existing := set k | k in g.edges && k.kind.Extends? && IsJvmFile(g.edges[k].evidenceFile);
    var rest := existing;
    var sources := g.edges;
    ghost var es := [];
    PutAllNone(start.store);
    while rest != {}
      invariant rest <= existing
      invariant WellFormed(g.Value())
      invariant g.Value() == start.(store := PutAll(start.store, es))
      invariant forall e :: e in es <==> IsInherits(start.store, e) && EdgeKey(e.from, e.to, EdgeKind.Extends) !in rest
      decreases rest
    {
      var k :| k in rest;
      var e := InheritsEdge(sources[k]);
      ExtendsEndsKnown(start, k, e, g.Value());
      PutAllOne(start.store, es, e);
      var _ := g.InsertEdge(e);
      es := es + [e];
      rest := rest - {k};
    }
    assert InheritedBy(start, es, g.Value());
  }

  lemma ExtendsEndsKnown(g: Graph, k: EdgeKey, e: DirectEdge, g1: Graph)
    requires WellFormed(g) && IsJvmExtends(g.store, k) && e == InheritsEdge(g.store.edges[k]) && g1.nodes == g.nodes
    ensures Known(g1, e)
    ensures k == EdgeKey(e.from, e.to, EdgeKind.Extends) && IsInherits(g.store, e)
  {
    hide IsJvmFile, Evaluate;
    GetNodeFinds(g.nodes, e.from);
    GetNodeFinds(g.nodes, e.to);
  }

  lemma InheritedKeepsExtends(g: Graph, g2: Graph)
    requires KeysMatch(g.store) && Inherited(g, g2)
    ensures KeysMatch(g2.store)
    ensures forall k :: IsJvmExtends(g2.store, k) <==> IsJvmExtends(g.store, k)
    ensures forall k :: IsJvmExtends(g.store, k) ==> k in g2.store.edges && g2.store.edges[k] == g.store.edges[k]
  {
    hide IsJvmFile, Evaluate, PutAll;
    var es: seq<DirectEdge> :| InheritedBy(g, es, g2);
    PutAllEffect(g.store, es);
  }

  /**
    Afterwards there is an Inherits edge exactly where there was one before or where a Java or
    Kotlin file extends; nothing else changed.
   */
  lemma InheritsExactly(g: Graph, g2: Graph, from: SymbolId, to: SymbolId)
    requires WellFormed(g) && Inherited(g, g2)
    ensures EdgeKey(from, to, Inherits) in g2.store.edges <==>
              EdgeKey(from, to, Inherits) in g.store.edges || IsJvmExtends(g.store, EdgeKey(from, to, EdgeKind.Extends))
    ensures g2.nodes == g.nodes
    ensures forall k: EdgeKey :: !k.kind.Inherits? ==>
              (k in g2.store.edges <==> k in g.store.edges) &&
                (k in g.store.edges ==> g2.store.edges[k] == g.store.edges[k])
  {
    hide IsJvmFile, Evaluate, PutAll, NodesOk, NameIndexed, QualifiedIndexed;
    var es: seq<DirectEdge> :| InheritedBy(g, es, g2);
    PutAllEffect(g.store, es);
    var k := EdgeKey(from, to, EdgeKind.Extends);
    if IsJvmExtends(g.store, k) {
      var e := InheritsEdge(g.store.edges[k]);
      assert IsInherits(g.store, e);
      PutPresent(g, es, e);
    }
  }

  ghost predicate InheritsClosed(s: EdgeStore) {
    KeysMatch(s) && forall e :: IsInherits(s, e) ==> KeyOf(e) in s.seen
  }

  lemma InheritedIsClosed(g: Graph, g2: Graph)
    requires KeysMatch(g.store) && Inherited(g, g2)
    ensures InheritsClosed(g2.store)
  {
    hide IsJvmFile, Evaluate, PutAll;
    var es: seq<DirectEdge> :| InheritedBy(g, es, g2);
    PutAllEffect(g.store, es);
    InheritedKeepsExtends(g, g2);
    forall e | IsInherits(g2.store, e) ensures KeyOf(e) in g2.store.seen {
      assert IsInherits(g.store, e);
    }
  }

  lemma InheritsClosedUnchanged(g: Graph, g2: Graph)
    requires InheritsClosed(g.store) && Inherited(g, g2)
    ensures g2 == g
  {
    hide IsJvmFile, Evaluate, PutAll;
    var es: seq<DirectEdge> :| InheritedBy(g, es, g2);
    PutAllSeen(g.store, es);
  }

  // ------------------------------------------------------------ one rebuild

  /** `g2` is a possible outcome of the three stages on `g` with the same sources. */
  ghost predicate DeriveRun(g: Graph, src: Sources, g2: Graph) {
    exists a, b :: RunThrough(g, src, a, b, g2)
  }

  ghost predicate RunThrough(g: Graph, src: Sources, a: Graph, b: Graph, g2: Graph) {
    Structured(g, a) && Resolved(a, src, b) && Inherited(b, g2)
  }

  method RunDeriveStages(g: SymbolGraph, src: Sources)
    requires WellFormed(g.Value())
    modifies g
    ensures WellFormed(g.Value()) && DeriveRun(old(g.Value()), src, g.Value())
  {
    hide WellFormed, Structured, Resolved, Inherited;
    ghost var start := g.Value();
    StructuralPass(g);
    ghost var a := g.Value();
    ResolveReferences(g, src);
    ghost var b := g.Value();
    DeriveInherits(g);
    assert RunThrough(start, src, a, b, g.Value());
  }

  // ------------------------------------------------------------ what a run keeps

  ghost predicate Sound(g: Graph) {
    NodesOk(g.nodes, g.nextId) && KeysMatch(g.store)
  }

  lemma PutAllKeysMatch(s: EdgeStore, es: seq<DirectEdge>)
    requires KeysMatch(s)
    ensures KeysMatch(PutAll(s, es))
  {
    hide PutAll;
    PutAllEffect(s, es);
    assert forall k :: k in PutAll(s, es).edges && k !in s.edges ==> KeyOf(PutAll(s, es).edges[k]) == k;
  }

  lemma StructuredSound(g: Graph, g2: Graph)
    requires Sound(g) && Structured(g, g2)
    ensures Sound(g2)
  {
    hide PutAll, Housed, IsContains, IsBelongs, DistinctFiles, DistinctModules, MintedFile, MintedModule, KeysMatch;
    var ins: seq<SymbolNode>, es: seq<DirectEdge> :| StructuredBy(g, ins, es, g2);
    GrowsNodesOk(g, ins, g2);
    PutAllKeysMatch(g.store, es);
  }

  lemma ResolvedSound(g: Graph, src: Sources, g2: Graph)
    requires Sound(g) && Resolved(g, src, g2)
    ensures Sound(g2)
    ensures g.store.seen <= g2.store.seen
  {
    hide PutAll, Minted, StubTable, BarrelTable, Served, Emission, KeysMatch;
    var ins: seq<SymbolNode>, stubs: map<string, SymbolId>, barrels: map<Path, SymbolId> :|
        ResolvedBy(g, src, ins, stubs, barrels, g2);
    GrowsNodesOk(g, ins, g2);
    PutAllKeysMatch(g.store, Emission(g.nodes, stubs, barrels, src));
    PutAllEffect(g.store, Emission(g.nodes, stubs, barrels, src));
  }

  lemma InheritedSound(g: Graph, g2: Graph)
    requires Sound(g) && Inherited(g, g2)
    ensures Sound(g2) && g2.nodes == g.nodes && g2.nextId == g.nextId
    ensures g.store.seen <= g2.store.seen
  {
    hide PutAll, IsInherits, NodesOk;
    var es: seq<DirectEdge> :| InheritedBy(g, es, g2);
    PutAllKeysMatch(g.store, es);
    PutAllEffect(g.store, es);
  }

  // ------------------------------------------------------------ structural_pass after resolution

  /** Stubs and barrels do not disturb the File and Module lookups of files that define symbols. */
  lemma StillHoused(g: Graph, src: Sources, g2: Graph)
    requires Sound(g) && Resolved(g, src, g2) && Housed(g.nodes)
    ensures Housed(g2.nodes)
    ensures ChildPaths(g2.nodes) == ChildPaths(g.nodes)
  {
    hide Select, PutAll, Emission, StubTable, BarrelTable, Served, NeedsStub, NeedsBarrel, DistinctMinted,
         IndexAll, IndexAllQualified, SyntheticModuleName;
    var ins: seq<SymbolNode>, stubs: map<string, SymbolId>, barrels: map<Path, SymbolId> :|
        ResolvedBy(g, src, ins, stubs, barrels, g2);
    MintedKinds(g.nodes, src, ins);
    assert forall n :: n in g2.nodes && IsChild(n) <==> n in g.nodes && IsChild(n);
    forall p | p in ChildPaths(g.nodes) ensures FileOf(g2.nodes, p).Some? && ModuleOf(g2.nodes, p).Some? {
      ModuleUndisturbed(g, ins, g2, p);
      FileNodesStay(g, ins, g2, p);
    }
  }

  lemma MintedKinds(ns: seq<SymbolNode>, src: Sources, ins: seq<SymbolNode>)
    requires Minted(ns, src, ins)
    ensures forall n :: n in ins ==> (n.kind.ExternalPackage? && n.file == []) || (n.kind.File? && n.spanStart == 0)
    ensures forall n :: n in ins ==> n.visibility == Unknown
  {
    hide Select, NeedsStub, NeedsBarrel;
  }

  lemma ModuleUndisturbed(g: Graph, ins: seq<SymbolNode>, g2: Graph, p: Path)
    requires NodesOk(g.nodes, g.nextId) && Grows(g, ins, g2)
    requires forall n :: n in ins ==> n.kind.ExternalPackage? || n.kind.File?
    ensures ModuleOf(g2.nodes, p) == ModuleOf(g.nodes, p)
    ensures ChildrenOf(g2.nodes, p) == ChildrenOf(g.nodes, p) || exists n :: n in ins && IsChild(n)
  {
    hide Select, SyntheticModuleName, IndexAll, IndexAllQualified, IdsOf;
    GrowsSelect(g, ins, g2, ContainerAt(p));
    GrowsSelect(g, ins, g2, ModuleNamed(SyntheticModuleName(p)));
    if forall n :: n in ins ==> !IsChild(n) {
      GrowsSelect(g, ins, g2, ChildAt(p));
    }
  }

  lemma FileNodesStay(g: Graph, ins: seq<SymbolNode>, g2: Graph, p: Path)
    requires NodesOk(g.nodes, g.nextId) && Grows(g, ins, g2) && FileOf(g.nodes, p).Some?
    ensures FileOf(g2.nodes, p).Some?
  {
    hide Select, IndexAll, IndexAllQualified;
    SelectMembers(FileAt(p), g.nodes);
    SelectMembers(FileAt(p), g2.nodes);
    var files := Select(FileAt(p), g.nodes);
    assert files[0] in files;
    assert files[0] in Select(FileAt(p), g2.nodes);
  }

  /** On a housed graph structural_pass inserts no node. */
  lemma HousedStaysPut(g: Graph, g2: Graph)
    requires Housed(g.nodes) && Structured(g, g2)
    ensures g2 == g.(store := g2.store)
  {
    hide Housed, IsContains, IsBelongs, MintedFile, MintedModule, PutAll;
    var ins: seq<SymbolNode>, es: seq<DirectEdge> :| StructuredBy(g, ins, es, g2);
    HousedMintsNothing(g, ins);
    GrowsNot(g, g2);
  }

  // ------------------------------------------------------------ no barrel: fixpoint after one run

  lemma NoBarrelTable(ins: seq<SymbolNode>, t: map<Path, SymbolId>)
    requires BarrelTable(ins, t) && forall n :: n in ins ==> !n.kind.File?
    ensures t == map[]
  {
    hide Select;
    forall f ensures f !in t {
      SelectMembers(FileAt(f), ins);
      NoMembers(Select(FileAt(f), ins));
    }
  }

  /** What resolution reads is the same after it inserted nothing but stubs. */
  lemma StubsKeepView(g: Graph, ins: seq<SymbolNode>, g2: Graph)
    requires NodesOk(g.nodes, g.nextId) && Grows(g, ins, g2)
    requires forall n :: n in ins ==> n.kind.ExternalPackage? && n.file == [] && n.visibility == Unknown
    ensures SameView(g.nodes, g2.nodes)
  {
    hide Select, IndexAll, IndexAllQualified;
    forall name ensures Select(Definition(name), g2.nodes) == Select(Definition(name), g.nodes) {
      GrowsSelect(g, ins, g2, Definition(name));
    }
    forall p ensures Select(PublicAt(p), g2.nodes) == Select(PublicAt(p), g.nodes) {
      GrowsSelect(g, ins, g2, PublicAt(p));
    }
    forall p | p != [] ensures Select(DefinedAt(p), g2.nodes) == Select(DefinedAt(p), g.nodes) {
      GrowsSelect(g, ins, g2, DefinedAt(p));
    }
  }

  /** A graph on which resolution has nothing to do. */
  ghost predicate ResolutionClosed(g: Graph, src: Sources) {
    exists stubs ::
      && StubTable(g.nodes, stubs)
      && Served(g.nodes, stubs, map[], src, src.refs)
      && AllSeen(g.store, Emission(g.nodes, stubs, map[], src))
  }

  lemma ResolvedIsClosed(g: Graph, src: Sources, g2: Graph)
    requires Sound(g) && Anchored(src) && Resolved(g, src, g2) && !MintsBarrel(g, src)
    ensures ResolutionClosed(g2, src)
  {
    hide Select, PutAll, NeedsStub, NeedsBarrel, EnclosingSymbol, Emission, StubTable, BarrelTable, IndexAll,
         IndexAllQualified, SameView, Grows;
    var ins: seq<SymbolNode>, stubs: map<string, SymbolId>, barrels: map<Path, SymbolId> :|
        ResolvedBy(g, src, ins, stubs, barrels, g2);
    MintedKinds(g.nodes, src, ins);
    assert forall n :: n in ins ==> !MintedBarrel(g.nodes, src, n);
    NoBarrelTable(ins, barrels);
    StubsKeepView(g, ins, g2);
    SameViewEmission(g.nodes, g2.nodes, stubs, barrels, src);
    forall r | r in src.refs
      ensures NeedsStub(g2.nodes, src, r) ==> r.name in stubs
      ensures !NeedsBarrel(g2.nodes, src, r)
    {
      SameViewNeeds(g.nodes, g2.nodes, src, r);
    }
    PutAllEffect(g.store, Emission(g.nodes, stubs, barrels, src));
  }

  lemma StubTableUnique(ns: seq<SymbolNode>, a: map<string, SymbolId>, b: map<string, SymbolId>)
    requires StubTable(ns, a) && StubTable(ns, b)
    ensures a == b
  {
    hide Select;
    assert forall m :: (if m in a then Some(a[m]) else None) == FirstId(Select(ExternalNamed(m), ns));
    assert forall m :: (if m in b then Some(b[m]) else None) == FirstId(Select(ExternalNamed(m), ns));
    assert a.Keys == b.Keys;
  }

  lemma ResolutionClosedUnchanged(g: Graph, src: Sources, g2: Graph)
    requires Sound(g) && ResolutionClosed(g, src) && Resolved(g, src, g2)
    ensures g2 == g
  {
    hide Select, PutAll, NeedsStub, NeedsBarrel, EnclosingSymbol, Emission, StubTable, BarrelTable, IndexAll,
         IndexAllQualified, Grows;
    var stubs: map<string, SymbolId> :|
      StubTable(g.nodes, stubs) && Served(g.nodes, stubs, map[], src, src.refs) &&
        AllSeen(g.store, Emission(g.nodes, stubs, map[], src));
    var ins: seq<SymbolNode>, stubs2: map<string, SymbolId>, barrels: map<Path, SymbolId> :|
        ResolvedBy(g, src, ins, stubs2, barrels, g2);
    forall n ensures n !in ins {
      if n in ins && MintedStub(g.nodes, src, n) {
        StubsAreKnown(g.nodes, stubs, n.name);
      }
    }
    NoMembers(ins);
    GrowsNot(g, g2);
    StubTableUnique(g.nodes, stubs, stubs2);
    NoBarrelTable(ins, barrels);
    PutAllSeen(g.store, Emission(g.nodes, stubs, map[], src));
  }

  lemma StubsAreKnown(ns: seq<SymbolNode>, stubs: map<string, SymbolId>, name: string)
    requires StubTable(ns, stubs)
    ensures name in stubs <==> Select(ExternalNamed(name), ns) != []
  {
    hide Select;
    assert FirstId(Select(ExternalNamed(name), ns)) == if name in stubs then Some(stubs[name]) else None;
  }

  /** Resolution stays closed, and structure stays closed, when only keys are added. */
  lemma ClosedMonotone(g: Graph, src: Sources, g2: Graph)
    requires g2 == g.(store := g2.store) && g.store.seen <= g2.store.seen
    ensures ResolutionClosed(g, src) ==> ResolutionClosed(g2, src)
    ensures StructurallyClosed(g) ==> StructurallyClosed(g2)
  {
    hide StubTable, Served, Emission, Housed, IsContains, IsBelongs;
    if ResolutionClosed(g, src) {
      var stubs: map<string, SymbolId> :|
        StubTable(g.nodes, stubs) && Served(g.nodes, stubs, map[], src, src.refs) &&
          AllSeen(g.store, Emission(g.nodes, stubs, map[], src));
      assert AllSeen(g2.store, Emission(g2.nodes, stubs, map[], src));
    }
  }

  /** With stubs only, the containment edges of the final node order are the ones already there. */
  lemma StubsKeepStructure(g: Graph, src: Sources, g2: Graph)
    requires Sound(g) && StructurallyClosed(g) && Resolved(g, src, g2) && !MintsBarrel(g, src)
    ensures StructurallyClosed(g2)
  {
    hide Select, PutAll, NeedsStub, NeedsBarrel, EnclosingSymbol, Emission, StubTable, BarrelTable, Served,
         SyntheticModuleName, IdsOf, Grows, KeysMatch, Housed, Evaluate;
    var ins: seq<SymbolNode>, stubs: map<string, SymbolId>, barrels: map<Path, SymbolId> :|
        ResolvedBy(g, src, ins, stubs, barrels, g2);
    StillHoused(g, src, g2);
    ResolvedSound(g, src, g2);
    MintedKinds(g.nodes, src, ins);
    assert forall n :: n in ins ==> !MintedBarrel(g.nodes, src, n);
    forall e | IsContains(g2.nodes, e) || IsBelongs(g2.nodes, e) ensures KeyOf(e) in g2.store.seen {
      StubsKeepContainment(g, ins, g2, e.evidenceFile);
      assert IsContains(g.nodes, e) || IsBelongs(g.nodes, e);
    }
  }

  lemma StubsKeepContainment(g: Graph, ins: seq<SymbolNode>, g2: Graph, p: Path)
    requires NodesOk(g.nodes, g.nextId) && Grows(g, ins, g2)
    requires forall n :: n in ins ==> n.kind.ExternalPackage? && n.file == []
    ensures FileOf(g2.nodes, p) == FileOf(g.nodes, p)
    ensures ModuleOf(g2.nodes, p) == ModuleOf(g.nodes, p)
    ensures ChildrenOf(g2.nodes, p) == ChildrenOf(g.nodes, p)
  {
    hide Select, SyntheticModuleName, IndexAll, IndexAllQualified, IdsOf;
    GrowsSelect(g, ins, g2, FileAt(p));
    GrowsSelect(g, ins, g2, ChildAt(p));
    ModuleUndisturbed(g, ins, g2, p);
  }

  /** All three stages have nothing left to do. */
  ghost predicate DeriveClosed(g: Graph, src: Sources) {
    Sound(g) && StructurallyClosed(g) && ResolutionClosed(g, src) && InheritsClosed(g.store)
  }

  lemma ClosedRunUnchanged(g: Graph, src: Sources, g2: Graph)
    requires DeriveClosed(g, src) && DeriveRun(g, src, g2)
    ensures g2 == g
  {
    hide Sound, StructurallyClosed, ResolutionClosed, InheritsClosed, Structured, Resolved, Inherited;
    var a, b :| RunThrough(g, src, a, b, g2);
    ClosedIsUnchanged(g, a);
    ResolutionClosedUnchanged(a, src, b);
    InheritsClosedUnchanged(b, g2);
  }

  lemma BarrelFreeRunCloses(g: Graph, src: Sources, a: Graph, b: Graph, g2: Graph)
    requires Sound(g) && Anchored(src) && RunThrough(g, src, a, b, g2) && !MintsBarrel(a, src)
    ensures DeriveClosed(g2, src)
  {
    hide NodesOk, KeysMatch, StructurallyClosed, ResolutionClosed, InheritsClosed, Structured, Resolved, Inherited,
         MintsBarrel;
    StructuredSound(g, a);
    StructuredIsClosed(g, a);
    ResolvedSound(a, src, b);
    StubsKeepStructure(a, src, b);
    ResolvedIsClosed(a, src, b);
    InheritedSound(b, g2);
    InheritedIsClosed(b, g2);
    InheritedOnlyStores(b, g2);
    ClosedMonotone(b, src, g2);
  }

  lemma InheritedOnlyStores(g: Graph, g2: Graph)
    requires Inherited(g, g2)
    ensures g2 == g.(store := g2.store)
  {
  }

  // ------------------------------------------------------------ with barrels: fixpoint after two runs

  lemma BarrelCovers(g: Graph, ins: seq<SymbolNode>, g2: Graph, barrels: map<Path, SymbolId>, file: Path, offset: u32)
    requires Grows(g, ins, g2) && BarrelTable(ins, barrels) && file in barrels
    requires forall n :: n in ins && n.kind.File? ==> n.spanStart == 0
    ensures EnclosingSymbol(g2.nodes, file, offset).Some?
  {
    hide Select, IndexAll, IndexAllQualified, EnclosingSymbol;
    var hits := Select(FileAt(file), ins);
    assert FirstId(hits) == Some(barrels[file]);
    SelectMembers(FileAt(file), ins);
    var n := hits[0];
    assert n in hits;
    assert StartsBefore(n, file, offset);
    EnclosingSymbolMeaning(g2.nodes, file, offset);
  }

  lemma EnclosingGrows(ns: seq<SymbolNode>, ns2: seq<SymbolNode>, file: Path, offset: u32)
    requires forall n :: n in ns ==> n in ns2
    ensures EnclosingSymbol(ns, file, offset).Some? ==> EnclosingSymbol(ns2, file, offset).Some?
  {
    hide EnclosingSymbol;
    EnclosingSymbolMeaning(ns, file, offset);
    EnclosingSymbolMeaning(ns2, file, offset);
  }

  /** After resolution every re-export that has something to re-export has a node to attach to. */
  lemma BarrelsServed(g: Graph, src: Sources, g2: Graph)
    requires Sound(g) && Resolved(g, src, g2)
    ensures !MintsBarrel(g2, src)
  {
    hide Select, PutAll, NeedsStub, EnclosingSymbol, Emission, StubTable, BarrelTable, IndexAll, IndexAllQualified,
         KeysMatch;
    var ins: seq<SymbolNode>, stubs: map<string, SymbolId>, barrels: map<Path, SymbolId> :|
        ResolvedBy(g, src, ins, stubs, barrels, g2);
    MintedKinds(g.nodes, src, ins);
    forall r | r in src.refs ensures !NeedsBarrel(g2.nodes, src, r) {
      if NeedsBarrel(g2.nodes, src, r) {
        GrowsSelect(g, ins, g2, PublicAt(ResolveSpecifier(src, r.file, r.name).value));
        EnclosingGrows(g.nodes, g2.nodes, r.file, r.offset);
        assert NeedsBarrel(g.nodes, src, r);
        BarrelCovers(g, ins, g2, barrels, r.file, r.offset);
      }
    }
  }

  lemma SecondRunMintsNoBarrel(g: Graph, src: Sources, a: Graph, b: Graph, g1: Graph, a2: Graph)
    requires Sound(g) && RunThrough(g, src, a, b, g1) && Structured(g1, a2)
    ensures Sound(g1) && !MintsBarrel(a2, src)
    ensures a2.nodes == b.nodes == g1.nodes
  {
    hide NodesOk, KeysMatch, Structured, Resolved, Inherited, MintsBarrel, Housed;
    StructuredSound(g, a);
    StructuredIsClosed(g, a);
    StillHoused(a, src, b);
    ResolvedSound(a, src, b);
    InheritedSound(b, g1);
    BarrelsServed(a, src, b);
    HousedStaysPut(g1, a2);
    SameNodesSameMint(b, a2, src);
  }

  lemma SameNodesSameMint(g: Graph, g2: Graph, src: Sources)
    requires g2.nodes == g.nodes
    ensures MintsBarrel(g2, src) == MintsBarrel(g, src)
  {
    hide NeedsBarrel;
  }

  lemma WellFormedSound(g: Graph)
    requires WellFormed(g)
    ensures Sound(g)
  {
  }

  // ------------------------------------------------------------ main results

  /**
    Decided on the input graph: every re-export that lacks an enclosing symbol is in a file for
    which structural_pass is about to create the File node.
   */
  ghost predicate BarrelFree(g: Graph, src: Sources) {
    forall r :: r in src.refs && NeedsBarrel(g.nodes, src, r) ==>
      r.file in ChildPaths(g.nodes) && FileOf(g.nodes, r.file).None?
  }

  /** File nodes span their file from its first byte. */
  ghost predicate FileNodesAtStart(g: Graph) {
    forall n :: n in g.nodes && n.kind.File? ==> n.spanStart == 0
  }

  lemma BarrelFreeDecidesMinting(g: Graph, src: Sources, a: Graph)
    requires WellFormed(g) && Structured(g, a)
    ensures BarrelFree(g, src) ==> !MintsBarrel(a, src)
    ensures FileNodesAtStart(g) && !MintsBarrel(a, src) ==> BarrelFree(g, src)
  {
    hide Select, PutAll, EnclosingSymbol, SyntheticModuleName, IsContains, IsBelongs, IdsOf, IndexAll,
         IndexAllQualified, StoreOk, NameIndexed, QualifiedIndexed, DistinctFiles, DistinctModules,
         RepresentativeScore, NamedModule, RealModuleOf;
    var ins: seq<SymbolNode>, es: seq<DirectEdge> :| StructuredBy(g, ins, es, a);
    forall r | r in src.refs
      ensures BarrelFree(g, src) ==> !NeedsBarrel(a.nodes, src, r)
      ensures FileNodesAtStart(g) && !NeedsBarrel(a.nodes, src, r) && NeedsBarrel(g.nodes, src, r) ==>
                r.file in ChildPaths(g.nodes) && FileOf(g.nodes, r.file).None?
    {
      SameReexports(g, ins, a, src, r);
      EnclosingGrows(g.nodes, a.nodes, r.file, r.offset);
      if NeedsBarrel(g.nodes, src, r) {
        if EnclosingSymbol(a.nodes, r.file, r.offset).Some? {
          MintedAtFile(g, ins, a, r.file, r.offset);
          if FileNodesAtStart(g) && FileOf(g.nodes, r.file).Some? {
            FileNodeEncloses(g, r.file, r.offset);
          }
        } else if r.file in ChildPaths(g.nodes) && FileOf(g.nodes, r.file).None? {
          NewFileEncloses(g, ins, a, r.file, r.offset);
        }
      }
    }
  }

  lemma SameReexports(g: Graph, ins: seq<SymbolNode>, a: Graph, src: Sources, r: RawReference)
    requires NodesOk(g.nodes, g.nextId) && Grows(g, ins, a)
    requires forall n :: n in ins ==> n.kind.File? || n.kind.Module?
    ensures Reexported(a.nodes, src, r) == Reexported(g.nodes, src, r)
  {
    hide Select, IndexAll, IndexAllQualified;
    if ResolveSpecifier(src, r.file, r.name).Some? {
      GrowsSelect(g, ins, a, PublicAt(ResolveSpecifier(src, r.file, r.name).value));
    }
  }

  /** If only the grown graph encloses the offset, a node was minted in that file, which therefore defines symbols. */
  lemma MintedAtFile(g: Graph, ins: seq<SymbolNode>, a: Graph, file: Path, offset: u32)
    requires Grows(g, ins, a)
    requires forall n :: n in ins ==> n.file in ChildPaths(g.nodes)
    requires EnclosingSymbol(g.nodes, file, offset).None? && EnclosingSymbol(a.nodes, file, offset).Some?
    ensures file in ChildPaths(g.nodes)
  {
    hide Select, EnclosingSymbol, IndexAll, IndexAllQualified, ChildPaths;
    EnclosingSymbolMeaning(g.nodes, file, offset);
    EnclosingSymbolMeaning(a.nodes, file, offset);
    var n :| n in a.nodes && StartsBefore(n, file, offset);
    assert n in ins;
  }

  lemma FileNodeEncloses(g: Graph, file: Path, offset: u32)
    requires FileNodesAtStart(g) && FileOf(g.nodes, file).Some?
    ensures EnclosingSymbol(g.nodes, file, offset).Some?
  {
    hide Select, EnclosingSymbol;
    SelectMembers(FileAt(file), g.nodes);
    var n := Select(FileAt(file), g.nodes)[0];
    assert n in Select(FileAt(file), g.nodes);
    assert StartsBefore(n, file, offset);
    EnclosingSymbolMeaning(g.nodes, file, offset);
  }

  lemma NewFileEncloses(g: Graph, ins: seq<SymbolNode>, a: Graph, file: Path, offset: u32)
    requires Grows(g, ins, a) && Housed(a.nodes)
    requires forall n :: n in ins && n.kind.File? ==> n.spanStart == 0
    requires file in ChildPaths(g.nodes) && FileOf(g.nodes, file).None?
    ensures EnclosingSymbol(a.nodes, file, offset).Some?
  {
    hide Select, EnclosingSymbol, IndexAll, IndexAllQualified, ModuleOf;
    assert file in ChildPaths(a.nodes);
    SelectMembers(FileAt(file), a.nodes);
    SelectMembers(FileAt(file), g.nodes);
    var n := Select(FileAt(file), a.nodes)[0];
    assert n in Select(FileAt(file), a.nodes);
    assert n !in Select(FileAt(file), g.nodes);
    assert StartsBefore(n, file, offset);
    EnclosingSymbolMeaning(a.nodes, file, offset);
  }

  /** A run that mints no barrel reaches the fixpoint: the second run changes nothing at all. */
  lemma FixpointAfterOneRun(g: Graph, src: Sources, g1: Graph, g2: Graph)
    requires WellFormed(g) && Anchored(src) && BarrelFree(g, src)
    requires DeriveRun(g, src, g1) && DeriveRun(g1, src, g2)
    ensures g2 == g1
  {
    hide WellFormed, Structured, Resolved, Inherited, BarrelFree, Anchored, MintsBarrel, DeriveClosed, Sound;
    var a, b :| RunThrough(g, src, a, b, g1);
    WellFormedSound(g);
    BarrelFreeDecidesMinting(g, src, a);
    BarrelFreeRunCloses(g, src, a, b, g1);
    ClosedRunUnchanged(g1, src, g2);
  }

  /** Whatever the graph and the sources, the fixpoint is reached after at most two runs. */
  lemma FixpointAfterTwoRuns(g: Graph, src: Sources, g1: Graph, g2: Graph, g3: Graph)
    requires WellFormed(g) && Anchored(src)
    requires DeriveRun(g, src, g1) && DeriveRun(g1, src, g2) && DeriveRun(g2, src, g3)
    ensures g3 == g2
  {
    hide WellFormed, Structured, Resolved, Inherited, Anchored, MintsBarrel, DeriveClosed, Sound;
    var a, b :| RunThrough(g, src, a, b, g1);
    var a2, b2 :| RunThrough(g1, src, a2, b2, g2);
    WellFormedSound(g);
    SecondRunMintsNoBarrel(g, src, a, b, g1, a2);
    BarrelFreeRunCloses(g1, src, a2, b2, g2);
    ClosedRunUnchanged(g2, src, g3);
  }

  ghost predicate DeriveRuns(gs: seq<Graph>, src: Sources) {
    forall i :: 0 <= i < |gs| - 1 ==> DeriveRun(gs[i], src, gs[i + 1])
  }

  /** No edge ratchet: over any number of rebuilds with the same sources the graph stops changing. */
  lemma NoRatchet(gs: seq<Graph>, src: Sources, i: nat)
    requires 2 <= i < |gs|
    requires WellFormed(gs[0]) && Anchored(src) && DeriveRuns(gs, src)
    ensures gs[i] == gs[2]
    ensures BarrelFree(gs[0], src) ==> gs[i] == gs[1]
  {
    hide WellFormed, DeriveRun, BarrelFree, Anchored;
    assert DeriveRun(gs[0], src, gs[1]) && DeriveRun(gs[1], src, gs[2]);
    if BarrelFree(gs[0], src) {
      FixpointAfterOneRun(gs[0], src, gs[1], gs[2]);
    }
    if i > 2 {
      NoRatchet(gs, src, i - 1);
      assert DeriveRun(gs[i - 1], src, gs[i]);
      FixpointAfterTwoRuns(gs[0], src, gs[1], gs[2], gs[i]);
    }
  }

  // ------------------------------------------------------------ one run is not enough with a barrel

  /**
    A barrel minted for a file that also imports an unknown name: the first run drops the import
    for want of an enclosing symbol, the second finds the barrel and mints a stub.
   */
  lemma BarrelLeavesWork(g: Graph, src: Sources, a: Graph, b: Graph, g1: Graph, g2: Graph, r: RawReference,
                         q: RawReference)
    requires WellFormed(g) && RunThrough(g, src, a, b, g1) && DeriveRun(g1, src, g2)
    requires r in src.refs && NeedsBarrel(a.nodes, src, r)
    requires q in src.refs && q.file == r.file && (q.kind.RefImport? || q.kind.RefImplements?)
    requires !IsInternalName(src, q.name) && forall n :: n in g1.nodes ==> n.name != q.name
    ensures g2 != g1
  {
    hide WellFormed, Structured, Inherited, NodesOk, KeysMatch, NeedsBarrel, EnclosingSymbol, Select, PutAll,
         Emission, StubTable, BarrelTable, Grows, IsInternalName, MintsBarrel;
    var a2, b2 :| RunThrough(g1, src, a2, b2, g2);
    WellFormedSound(g);
    SecondRunMintsNoBarrel(g, src, a, b, g1, a2);
    BarrelNowEncloses(a, src, b, r, q.offset);
    SelectNone(Definition(q.name), a2.nodes);
    assert NeedsStub(a2.nodes, src, q);
    var ins: seq<SymbolNode>, stubs: map<string, SymbolId>, barrels: map<Path, SymbolId> :|
        ResolvedBy(a2, src, ins, stubs, barrels, b2);
    StubsAreKnown(b2.nodes, stubs, q.name);
    InheritedOnlyStores(b2, g2);
    SelectNone(ExternalNamed(q.name), g1.nodes);
  }

  lemma BarrelNowEncloses(g: Graph, src: Sources, g2: Graph, r: RawReference, offset: u32)
    requires Resolved(g, src, g2) && r in src.refs && NeedsBarrel(g.nodes, src, r)
    ensures EnclosingSymbol(g2.nodes, r.file, offset).Some?
  {
    hide NeedsBarrel, NeedsStub, EnclosingSymbol, PutAll, Emission, StubTable, BarrelTable, Grows, DistinctMinted;
    var ins: seq<SymbolNode>, stubs: map<string, SymbolId>, barrels: map<Path, SymbolId> :|
        ResolvedBy(g, src, ins, stubs, barrels, g2);
    MintedKinds(g.nodes, src, ins);
    BarrelCovers(g, ins, g2, barrels, r.file, offset);
  }

  // A library file and a barrel that re-exports it and also imports an external package.
  const LIB: Path := ["x.ts"]
  const BARREL: Path := ["index.ts"]
  const LIB_FUNCTION := SymbolNode(0, Function, "f", "f", LIB, 0, 1, Public)
  const BARREL_GRAPH := Graph([LIB_FUNCTION], EdgeStore(map[], {}), 1, map["f" := [0]], map[])
  const REEXPORT := RawReference(BARREL, "./x", RefReexportAll, 0)
  const EXTERNAL_IMPORT := RawReference(BARREL, "react", RefImport, 20)
  const BARREL_SOURCES := Sources([REEXPORT, EXTERNAL_IMPORT], [], map[LIB := 10, BARREL := 40],
                                  map[(BARREL, "./x") := LIB])

  lemma BarrelGraphWellFormed()
    ensures WellFormed(BARREL_GRAPH) && Anchored(BARREL_SOURCES)
  {
    assert LIB_FUNCTION in BARREL_GRAPH.nodes;
  }

  lemma ReactIsExternal()
    ensures !IsInternalName(BARREL_SOURCES, "react")
  {
    hide LastDot;
    StemStartsAs("x.ts", 'x');
    StemStartsAs("index.ts", 'i');
    assert "x.ts"[0] == 'x' && "index.ts"[0] == 'i' && "react"[0] == 'r';
  }

  lemma StemStartsAs(name: string, c: char)
    requires name != "" && name != ".." && name[0] == c
    ensures FileStem([name]).Some? && FileStem([name]).value != [] && FileStem([name]).value[0] == c
  {
    hide LastDot;
    var dot := LastDot(name);
  }

  /** On this input the second run adds a node, so one run is not a fixpoint. */
  lemma OneRunIsNotAlwaysEnough(g1: Graph, g2: Graph)
    requires DeriveRun(BARREL_GRAPH, BARREL_SOURCES, g1) && DeriveRun(g1, BARREL_SOURCES, g2)
    ensures g2 != g1
  {
    hide Structured, Resolved, Inherited, WellFormed, NeedsBarrel, NeedsStub, IsInternalName;
    var a, b :| RunThrough(BARREL_GRAPH, BARREL_SOURCES, a, b, g1);
    BarrelGraphWellFormed();
    ReactIsExternal();
    BarrelGraphStructured(a);
    BarrelGraphResolved(a, b);
    InheritedOnlyStores(b, g1);
    assert REEXPORT in BARREL_SOURCES.refs && EXTERNAL_IMPORT in BARREL_SOURCES.refs;
    BarrelLeavesWork(BARREL_GRAPH, BARREL_SOURCES, a, b, g1, g2, REEXPORT, EXTERNAL_IMPORT);
  }

  lemma BarrelGraphStructured(a: Graph)
    requires Structured(BARREL_GRAPH, a)
    ensures forall n :: n in a.nodes ==> n.file == LIB && n.name != "react"
    ensures NeedsBarrel(a.nodes, BARREL_SOURCES, REEXPORT)
  {
    hide Select, PutAll, EnclosingSymbol, IsContains, IsBelongs, IdsOf, IndexAll, IndexAllQualified, DistinctFiles,
         DistinctModules, RepresentativeScore, NamedModule, RealModuleOf, FileOf, Housed;
    var ins: seq<SymbolNode>, es: seq<DirectEdge> :| StructuredBy(BARREL_GRAPH, ins, es, a);
    assert BARREL_GRAPH.nodes[0] == LIB_FUNCTION;
    assert ChildPaths(BARREL_GRAPH.nodes) == {LIB};
    assert FileName(LIB) == Some("x.ts") && "x.ts"[0] != "react"[0];
    LibModuleName();
    assert "root"[1] != "react"[1];
    SelectMembers(PublicAt(LIB), a.nodes);
    assert LIB_FUNCTION in a.nodes && LIB_FUNCTION in Select(PublicAt(LIB), a.nodes);
    assert LIB != BARREL by { assert "x.ts"[0] != "index.ts"[0]; }
    EnclosingSymbolMeaning(a.nodes, BARREL, 0);
  }

  lemma LibModuleName()
    ensures SyntheticModuleName(LIB) == "root"
  {
    assert "x.ts"[0] != "crates"[0];
    assert IndexOf(LIB, "crates").None?;
  }

  lemma BarrelGraphResolved(a: Graph, b: Graph)
    requires Resolved(a, BARREL_SOURCES, b)
    requires forall n :: n in a.nodes ==> n.file == LIB && n.name != "react"
    ensures forall n :: n in b.nodes ==> n.name != "react"
  {
    hide Select, PutAll, EnclosingSymbol, Emission, StubTable, BarrelTable, Served, DistinctMinted, IndexAll,
         IndexAllQualified, IsInternalName, Candidates, Reexported;
    var ins: seq<SymbolNode>, stubs: map<string, SymbolId>, barrels: map<Path, SymbolId> :|
        ResolvedBy(a, BARREL_SOURCES, ins, stubs, barrels, b);
    assert LIB != BARREL by { assert "x.ts"[0] != "index.ts"[0]; }
    EnclosingSymbolMeaning(a.nodes, BARREL, 20);
    assert FileName(BARREL) == Some("index.ts") && "index.ts"[0] != "react"[0];
    forall n | n in ins ensures n.name != "react" {
      if MintedStub(a.nodes, BARREL_SOURCES, n) {
        var r :| r in BARREL_SOURCES.refs && r.name == n.name && NeedsStub(a.nodes, BARREL_SOURCES, r);
        assert r != EXTERNAL_IMPORT;
        assert "./x"[0] != "react"[0];
      }
    }
  }
}
