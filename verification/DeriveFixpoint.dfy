/** Exactly when one run of the derive stages is a fixpoint although it minted barrels. */
module DeriveFixpoint {
  import opened Symbols
  import opened NodeQueries
  import opened SymbolGraphs
  import opened StructuralPasses
  import opened Enclosing
  import opened Resolution
  import opened ResolvePasses
  import opened DeriveStages

  /** The second run changes nothing if and only if the first output has nothing left to derive. */
  lemma FixpointIffClosed(g: Graph, src: Sources, g1: Graph, g2: Graph)
    requires WellFormed(g) && Anchored(src) && DeriveRun(g, src, g1) && DeriveRun(g1, src, g2)
    ensures g2 == g1 <==> DeriveClosed(g1, src)
  {
    hide WellFormed, Structured, Resolved, Inherited, Anchored, MintsBarrel, DeriveClosed, Sound;
    var a, b :| RunThrough(g, src, a, b, g1);
    var a2, b2 :| RunThrough(g1, src, a2, b2, g2);
    WellFormedSound(g);
    SecondRunMintsNoBarrel(g, src, a, b, g1, a2);
    BarrelFreeRunCloses(g1, src, a2, b2, g2);
    if DeriveClosed(g1, src) {
      ClosedRunUnchanged(g1, src, g2);
    }
  }

  // ------------------------------------------------------------ what a barrel can disturb

  /** The run mints a File node for `f`; `a` is the graph its resolution starts from. */
  ghost predicate BarrelAt(a: Graph, src: Sources, f: Path) {
    exists r :: r in src.refs && r.file == f && NeedsBarrel(a.nodes, src, r)
  }

  /** A barrel File node is called so. */
  ghost predicate BarrelNamed(a: Graph, src: Sources, name: string) {
    exists f :: BarrelAt(a, src, f) && BarrelNode(src, f).name == name
  }

  /** The table of external-package stubs of a graph. */
  ghost function Stubs(ns: seq<SymbolNode>): map<string, SymbolId> {
    var names := set n | n in ns && n.kind.ExternalPackage? :: n.name;
    map m | m in names :: (match FirstId(Select(ExternalNamed(m), ns)) case Some(id) => id case None => 0)
  }

  /** Resolving `q` again mints no stub and inserts no edge. */
  ghost predicate RefQuiet(g: Graph, src: Sources, q: RawReference) {
    && (NeedsStub(g.nodes, src, q) ==> q.name in Stubs(g.nodes))
    && AllSeen(g.store, RefEdges(g.nodes, Stubs(g.nodes), map[], src, q))
  }

  ghost predicate ImportQuiet(g: Graph, src: Sources, ni: NamedImport) {
    AllSeen(g.store, ImportEdges(g.nodes, src, ni))
  }

  /** The symbols of `f` are contained in what is now its File node. */
  ghost predicate FileQuiet(g: Graph, f: Path) {
    forall id :: id in ChildrenOf(g.nodes, f) ==>
      FileOf(g.nodes, f).Some? && EdgeKey(FileOf(g.nodes, f).value, id, Contains) in g.store.seen
  }

  /**
    Only the files that got a barrel matter, and names that a barrel bears: what is referenced or
    imported there is linked already, and symbols there are contained in the barrel already.
   */
  ghost predicate NoWorkLeft(a: Graph, src: Sources, g1: Graph) {
    && (forall q :: q in src.refs && (BarrelAt(a, src, q.file) || BarrelNamed(a, src, q.name)) ==> RefQuiet(g1, src, q))
    && (forall ni :: ni in src.imports && (BarrelAt(a, src, ni.file) || BarrelNamed(a, src, ni.imported)) ==>
          ImportQuiet(g1, src, ni))
    && (forall f :: BarrelAt(a, src, f) ==> FileQuiet(g1, f))
  }

  // ------------------------------------------------------------ the stub table

  lemma StubsTable(ns: seq<SymbolNode>)
    ensures StubTable(ns, Stubs(ns))
  {
    hide Select;
    forall m ensures FirstId(Select(ExternalNamed(m), ns)) == if m in Stubs(ns) then Some(Stubs(ns)[m]) else None {
      SelectMembers(ExternalNamed(m), ns);
      var found := Select(ExternalNamed(m), ns);
      if found != [] {
        assert found[0] in found;
      } else {
        assert forall n :: n in ns && n.kind.ExternalPackage? && n.name == m ==> n in found;
      }
    }
  }

  // ------------------------------------------------------------ emitted edges, one source at a time

  lemma {:induction false} AllRefEdgesMembers(ns: seq<SymbolNode>, stubs: map<string, SymbolId>,
                                              barrels: map<Path, SymbolId>, src: Sources, refs: seq<RawReference>)
    ensures forall e :: e in AllRefEdges(ns, stubs, barrels, src, refs) <==>
              exists q :: q in refs && e in RefEdges(ns, stubs, barrels, src, q)
  {
    hide RefEdges;
    if refs != [] {
      var rest, last := refs[..|refs| - 1], refs[|refs| - 1];
      AllRefEdgesMembers(ns, stubs, barrels, src, rest);
      assert refs == rest + [last];
    }
  }

  lemma {:induction false} AllImportEdgesMembers(ns: seq<SymbolNode>, src: Sources, imports: seq<NamedImport>)
    ensures forall e :: e in AllImportEdges(ns, src, imports) <==>
              exists ni :: ni in imports && e in ImportEdges(ns, src, ni)
  {
    hide ImportEdges;
    if imports != [] {
      var rest, last := imports[..|imports| - 1], imports[|imports| - 1];
      AllImportEdgesMembers(ns, src, rest);
      assert imports == rest + [last];
    }
  }

  /** All of an emission is seen iff what each reference and each import emits is. */
  lemma EmissionSeen(s: EdgeStore, ns: seq<SymbolNode>, stubs: map<string, SymbolId>, barrels: map<Path, SymbolId>,
                     src: Sources)
    requires src.refs != []
    ensures AllSeen(s, Emission(ns, stubs, barrels, src)) <==>
              (forall q :: q in src.refs ==> AllSeen(s, RefEdges(ns, stubs, barrels, src, q)))
              && (forall ni :: ni in src.imports ==> AllSeen(s, ImportEdges(ns, src, ni)))
  {
    hide RefEdges, ImportEdges, AllRefEdges, AllImportEdges;
    AllRefEdgesMembers(ns, stubs, barrels, src, src.refs);
    AllImportEdgesMembers(ns, src, src.imports);
    var es := Emission(ns, stubs, barrels, src);
    if AllSeen(s, es) {
      forall q | q in src.refs ensures AllSeen(s, RefEdges(ns, stubs, barrels, src, q)) {
        assert forall e :: e in RefEdges(ns, stubs, barrels, src, q) ==> e in es;
      }
      forall ni | ni in src.imports ensures AllSeen(s, ImportEdges(ns, src, ni)) {
        assert forall e :: e in ImportEdges(ns, src, ni) ==> e in es;
      }
    }
  }

  // ------------------------------------------------------------ what a barrel does not disturb

  /** Away from barrels, what a name and a file resolve to is as before the run. */
  lemma UntouchedView(a: Graph, ins: seq<SymbolNode>, b: Graph, src: Sources, file: Path, name: string, target: Path)
    requires NodesOk(a.nodes, a.nextId) && Grows(a, ins, b) && Minted(a.nodes, src, ins)
    requires file != [] && !BarrelAt(a, src, file) && !BarrelNamed(a, src, name)
    ensures Select(DefinedAt(file), b.nodes) == Select(DefinedAt(file), a.nodes)
    ensures Select(Definition(name), b.nodes) == Select(Definition(name), a.nodes)
    ensures Select(PublicAt(target), b.nodes) == Select(PublicAt(target), a.nodes)
  {
    hide Select, NeedsBarrel, NeedsStub, IndexAll, IndexAllQualified;
    MintedKinds(a.nodes, src, ins);
    forall n | n in ins ensures n.file != file && !Matches(Definition(name), n) {
      if MintedBarrel(a.nodes, src, n) {
        assert BarrelAt(a, src, n.file);
      }
    }
    GrowsSelect(a, ins, b, DefinedAt(file));
    GrowsSelect(a, ins, b, Definition(name));
    GrowsSelect(a, ins, b, PublicAt(target));
  }

  lemma SameSight(ns: seq<SymbolNode>, ns2: seq<SymbolNode>, stubs: map<string, SymbolId>,
                  barrels: map<Path, SymbolId>, src: Sources, q: RawReference)
    requires Select(DefinedAt(q.file), ns2) == Select(DefinedAt(q.file), ns)
    requires Select(Definition(q.name), ns2) == Select(Definition(q.name), ns)
    requires var spec := ResolveSpecifier(src, q.file, q.name);
             spec.Some? ==> Select(PublicAt(spec.value), ns2) == Select(PublicAt(spec.value), ns)
    ensures NeedsStub(ns2, src, q) == NeedsStub(ns, src, q) && NeedsBarrel(ns2, src, q) == NeedsBarrel(ns, src, q)
    ensures RefEdges(ns2, stubs, barrels, src, q) == RefEdges(ns, stubs, barrels, src, q)
  {
    hide Select, EnclosingIn, SortByStart, ToSpans, PickTargets, Links, IsInternalName, IdsOf, ImportTarget;
    assert EnclosingSymbol(ns2, q.file, q.offset) == EnclosingSymbol(ns, q.file, q.offset);
  }

  lemma SameImportSight(ns: seq<SymbolNode>, ns2: seq<SymbolNode>, src: Sources, ni: NamedImport)
    requires Select(DefinedAt(ni.file), ns2) == Select(DefinedAt(ni.file), ns)
    requires Select(Definition(ni.imported), ns2) == Select(Definition(ni.imported), ns)
    ensures ImportEdges(ns2, src, ni) == ImportEdges(ns, src, ni)
  {
    hide Select, EnclosingIn, SortByStart, ToSpans, Links, IdsOf;
    assert EnclosingSymbol(ns2, ni.file, ni.offset) == EnclosingSymbol(ns, ni.file, ni.offset);
  }

  // ------------------------------------------------------------ both directions

  lemma ChildrenHaveFile(g: Graph, f: Path, id: SymbolId)
    requires StructurallyClosed(g) && id in ChildrenOf(g.nodes, f)
    ensures FileOf(g.nodes, f).Some? && EdgeKey(FileOf(g.nodes, f).value, id, Contains) in g.store.seen
  {
    hide Select, FileOf, ModuleOf;
    IdsOfSelected(ChildAt(f), g.nodes);
    assert f in ChildPaths(g.nodes);
    var e := ContainsEdge(FileOf(g.nodes, f).value, id, f);
    assert IsContains(g.nodes, e);
  }

  lemma ClosedLeavesNothing(a: Graph, src: Sources, g1: Graph)
    requires DeriveClosed(g1, src)
    ensures NoWorkLeft(a, src, g1)
  {
    hide Sound, StructurallyClosed, InheritsClosed, StubTable, Emission, RefEdges, ImportEdges, NeedsStub, NeedsBarrel,
         Stubs, ChildrenOf, FileOf;
    var stubs: map<string, SymbolId> :|
        StubTable(g1.nodes, stubs) && Served(g1.nodes, stubs, map[], src, src.refs) &&
        AllSeen(g1.store, Emission(g1.nodes, stubs, map[], src));
    StubsTable(g1.nodes);
    StubTableUnique(g1.nodes, stubs, Stubs(g1.nodes));
    if src.refs != [] {
      EmissionSeen(g1.store, g1.nodes, stubs, map[], src);
    }
    forall f, id | BarrelAt(a, src, f) && id in ChildrenOf(g1.nodes, f)
      ensures FileOf(g1.nodes, f).Some? && EdgeKey(FileOf(g1.nodes, f).value, id, Contains) in g1.store.seen
    {
      ChildrenHaveFile(g1, f, id);
    }
  }

  /** A reference away from barrels emits again what the run has just emitted. */
  lemma UntouchedRef(a: Graph, src: Sources, ins: seq<SymbolNode>, stubs: map<string, SymbolId>,
                     barrels: map<Path, SymbolId>, b: Graph, q: RawReference)
    requires Sound(a) && Anchored(src) && ResolvedBy(a, src, ins, stubs, barrels, b)
    requires q in src.refs && !BarrelAt(a, src, q.file) && !BarrelNamed(a, src, q.name)
    ensures NeedsStub(b.nodes, src, q) ==> q.name in stubs
    ensures AllSeen(b.store, RefEdges(b.nodes, stubs, map[], src, q))
  {
    hide Select, Grows, Minted, StubTable, BarrelTable, RefEdges, ImportEdges, NeedsStub, NeedsBarrel, Emission,
         BarrelNamed, KeysMatch, PutAll;
    var spec := ResolveSpecifier(src, q.file, q.name);
    UntouchedView(a, ins, b, src, q.file, q.name, if spec.Some? then spec.value else []);
    SameSight(a.nodes, b.nodes, stubs, map[], src, q);
    RefEdgesStable(a.nodes, stubs, map[], stubs, barrels, src, q);
    var es := Emission(a.nodes, stubs, barrels, src);
    PutAllEffect(a.store, es);
    assert AllSeen(b.store, es);
    EmissionSeen(b.store, a.nodes, stubs, barrels, src);
  }

  lemma UntouchedImport(a: Graph, src: Sources, ins: seq<SymbolNode>, stubs: map<string, SymbolId>,
                        barrels: map<Path, SymbolId>, b: Graph, ni: NamedImport)
    requires Sound(a) && Anchored(src) && ResolvedBy(a, src, ins, stubs, barrels, b) && src.refs != []
    requires ni in src.imports && !BarrelAt(a, src, ni.file) && !BarrelNamed(a, src, ni.imported)
    ensures AllSeen(b.store, ImportEdges(b.nodes, src, ni))
  {
    hide Select, Grows, Minted, StubTable, BarrelTable, RefEdges, ImportEdges, Served, Emission, BarrelAt,
         BarrelNamed, KeysMatch, PutAll;
    UntouchedView(a, ins, b, src, ni.file, ni.imported, []);
    SameImportSight(a.nodes, b.nodes, src, ni);
    var es := Emission(a.nodes, stubs, barrels, src);
    PutAllEffect(a.store, es);
    assert AllSeen(b.store, es);
    EmissionSeen(b.store, a.nodes, stubs, barrels, src);
  }

  lemma NothingLeftResolves(a: Graph, src: Sources, b: Graph, g1: Graph)
    requires Sound(a) && Anchored(src) && Resolved(a, src, b)
    requires g1.nodes == b.nodes && b.store.seen <= g1.store.seen && NoWorkLeft(a, src, g1) && !MintsBarrel(b, src)
    ensures ResolutionClosed(g1, src)
  {
    hide Sound, Anchored, StubTable, BarrelTable, Grows, Minted, PutAll, Emission, RefEdges, ImportEdges, NeedsStub,
         NeedsBarrel, Stubs, FileQuiet, BarrelAt, BarrelNamed;
    var ins: seq<SymbolNode>, stubs: map<string, SymbolId>, barrels: map<Path, SymbolId> :|
        ResolvedBy(a, src, ins, stubs, barrels, b);
    StubsTable(b.nodes);
    StubTableUnique(b.nodes, stubs, Stubs(b.nodes));
    forall q | q in src.refs
      ensures NeedsStub(g1.nodes, src, q) ==> q.name in stubs
      ensures AllSeen(g1.store, RefEdges(g1.nodes, stubs, map[], src, q))
    {
      if !BarrelAt(a, src, q.file) && !BarrelNamed(a, src, q.name) {
        UntouchedRef(a, src, ins, stubs, barrels, b, q);
      } else {
        assert RefQuiet(g1, src, q);
      }
    }
    NoEmission(g1.nodes, stubs, src);
    if src.refs != [] {
      forall ni | ni in src.imports ensures AllSeen(g1.store, ImportEdges(g1.nodes, src, ni)) {
        if !BarrelAt(a, src, ni.file) && !BarrelNamed(a, src, ni.imported) {
          UntouchedImport(a, src, ins, stubs, barrels, b, ni);
        } else {
          assert ImportQuiet(g1, src, ni);
        }
      }
      EmissionSeen(g1.store, g1.nodes, stubs, map[], src);
    }
    assert Served(g1.nodes, stubs, map[], src, src.refs);
  }

  lemma NoEmission(ns: seq<SymbolNode>, stubs: map<string, SymbolId>, src: Sources)
    ensures src.refs == [] ==> Emission(ns, stubs, map[], src) == []
  {
  }

  /** Where no barrel was minted the containment edges are those of the graph before. */
  lemma ContainmentElsewhere(a: Graph, src: Sources, ins: seq<SymbolNode>, b: Graph, f: Path)
    requires NodesOk(a.nodes, a.nextId) && Grows(a, ins, b) && Minted(a.nodes, src, ins)
    ensures ChildrenOf(b.nodes, f) == ChildrenOf(a.nodes, f) && ModuleOf(b.nodes, f) == ModuleOf(a.nodes, f)
    ensures !BarrelAt(a, src, f) ==> FileOf(b.nodes, f) == FileOf(a.nodes, f)
  {
    hide Select, NeedsBarrel, NeedsStub, IndexAll, IndexAllQualified, IdsOf, ModuleOf;
    MintedKinds(a.nodes, src, ins);
    assert forall n :: n in ins ==> !IsChild(n);
    ModuleUndisturbed(a, ins, b, f);
    if !BarrelAt(a, src, f) {
      forall n | n in ins ensures !Matches(FileAt(f), n) {
        if MintedBarrel(a.nodes, src, n) {
          assert BarrelAt(a, src, n.file);
        }
      }
      GrowsSelect(a, ins, b, FileAt(f));
    }
  }

  lemma NothingLeftStructure(a: Graph, src: Sources, b: Graph, g1: Graph)
    requires Sound(a) && StructurallyClosed(a) && Resolved(a, src, b)
    requires g1.nodes == b.nodes && b.store.seen <= g1.store.seen && NoWorkLeft(a, src, g1)
    ensures StructurallyClosed(g1)
  {
    hide Select, StubTable, BarrelTable, Served, Grows, Minted, PutAll, Emission, RefQuiet, ImportQuiet, BarrelAt,
         BarrelNamed, KeysMatch, Housed, FileOf, ModuleOf, ChildrenOf, Evaluate;
    var ins: seq<SymbolNode>, stubs: map<string, SymbolId>, barrels: map<Path, SymbolId> :|
        ResolvedBy(a, src, ins, stubs, barrels, b);
    StillHoused(a, src, b);
    ResolvedSound(a, src, b);
    forall e | IsContains(g1.nodes, e) || IsBelongs(g1.nodes, e) ensures KeyOf(e) in g1.store.seen {
      var f := e.evidenceFile;
      ContainmentElsewhere(a, src, ins, b, f);
      if IsContains(g1.nodes, e) && BarrelAt(a, src, f) {
        assert FileQuiet(g1, f);
      } else {
        assert IsContains(a.nodes, e) || IsBelongs(a.nodes, e);
      }
    }
  }

  /**
    Exactly when one run is enough.  For any graph and sources, `a` being the graph after
    structural_pass: the second run changes nothing if and only if the first left no work in the
    files that got a barrel and at the names of their barrels.
   */
  lemma OneRunIsEnoughIff(g: Graph, src: Sources, a: Graph, b: Graph, g1: Graph, g2: Graph)
    requires WellFormed(g) && Anchored(src) && RunThrough(g, src, a, b, g1) && DeriveRun(g1, src, g2)
    ensures g2 == g1 <==> NoWorkLeft(a, src, g1)
  {
    hide WellFormed, Anchored, Structured, Resolved, Inherited, MintsBarrel, NoWorkLeft, NodesOk, KeysMatch,
         StructurallyClosed, ResolutionClosed, InheritsClosed;
    assert DeriveRun(g, src, g1);
    FixpointIffClosed(g, src, g1, g2);
    if DeriveClosed(g1, src) {
      ClosedLeavesNothing(a, src, g1);
    }
    if NoWorkLeft(a, src, g1) {
      WellFormedSound(g);
      StructuredSound(g, a);
      StructuredIsClosed(g, a);
      ResolvedSound(a, src, b);
      InheritedSound(b, g1);
      InheritedIsClosed(b, g1);
      BarrelsServed(a, src, b);
      NothingLeftResolves(a, src, b, g1);
      NothingLeftStructure(a, src, b, g1);
    }
  }

  /** File nodes that span their file from its start enclose every reference, so a barrel file defines no symbols. */
  lemma BarrelFilesDefineNothing(g: Graph, src: Sources, a: Graph, f: Path)
    requires WellFormed(g) && FileNodesAtStart(g) && Structured(g, a) && BarrelAt(a, src, f)
    ensures f !in ChildPaths(a.nodes)
  {
    hide Select, PutAll, EnclosingSymbol, SyntheticModuleName, IsContains, IsBelongs, IdsOf, IndexAll,
         IndexAllQualified, StoreOk, NameIndexed, QualifiedIndexed, DistinctFiles, DistinctModules,
         RepresentativeScore, ModuleOf, FileOf, ChildPaths;
    var ins: seq<SymbolNode>, es: seq<DirectEdge> :| StructuredBy(g, ins, es, a);
    var r :| r in src.refs && r.file == f && NeedsBarrel(a.nodes, src, r);
    assert FileNodesAtStart(a);
    if f in ChildPaths(a.nodes) {
      FileNodeEncloses(a, f, r.offset);
    }
  }
}
