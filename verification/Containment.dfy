/** What structural_pass leaves around each symbol, with the kinds, names and scores written out. */
module Containment {
  import opened Symbols
  import opened NodeQueries
  import opened SymbolGraphs
  import opened StructuralPasses

  /** A symbol anchored in a file that is neither a file, nor a container, nor documentation. */
  predicate Anchored(n: SymbolNode) {
    && n.file != []
    && n.kind != File && n.kind != Module && n.kind != Namespace && n.kind != DocComment && n.kind != DocSection
  }

  predicate Container(n: SymbolNode, p: Path) {
    n.file == p && (n.kind == Module || n.kind == Namespace)
  }

  /** The module name of a path: the component after the first `crates`, else the directory, else `root`. */
  ghost predicate NamedAfter(name: string, p: Path) {
    if exists i :: 0 <= i < |p| - 1 && p[i] == "crates" && "crates" !in p[..i]
    then exists i :: 0 <= i < |p| - 1 && p[i] == "crates" && "crates" !in p[..i] && name == p[i + 1]
    else if |p| >= 2 && p[|p| - 2] != ".." then name == p[|p| - 2]
    else name == "root"
  }

  lemma SyntheticNameMeaning(p: Path, name: string)
    ensures NamedAfter(name, p) <==> name == SyntheticModuleName(p)
  {
    var crate := IndexOf(p, "crates");
    if crate.Some? {
      forall i | 0 <= i < |p| - 1 && p[i] == "crates" && "crates" !in p[..i] ensures i == crate.value {
      }
    }
  }

  /** Tests and examples come last; `src` and entry files come first. */
  function Weight(p: Path): int {
    (if "tests" in p || "test" in p || "__tests__" in p || "fixtures" in p || "testdata" in p || "benches" in p ||
        "examples" in p then -20 else 0)
    + (if "src" in p then 10 else 0)
    + (if p != [] && (p[|p| - 1] == "lib.rs" || p[|p| - 1] == "main.rs" || p[|p| - 1] == "mod.rs" ||
                      p[|p| - 1] == "index.ts" || p[|p| - 1] == "index.js" || p[|p| - 1] == "__init__.py")
       then 5 else 0)
  }

  lemma ScoreMeaning(p: Path)
    ensures RepresentativeScore(p) == Weight(p)
  {
    assert TestDirectories == ["tests", "test", "__tests__", "fixtures", "testdata", "benches", "examples"];
    assert EntryFiles == ["lib.rs", "main.rs", "mod.rs", "index.ts", "index.js", "__init__.py"];
  }

  // ------------------------------------------------------------ symbols

  /** The edge of the pass between two ids: certain, without age, evidenced in `p`. */
  predicate Certain(e: DirectEdge, p: Path) {
    e.origin == CompilerDerived && e.confidence == 0.99 && e.evidenceFile == p && e.createdAtEpoch == 0 &&
    e.staleEvidenceCount == 0
  }

  lemma FileOfMeaning(ns: seq<SymbolNode>, p: Path)
    ensures FileOf(ns, p).Some? ==> exists f :: f in ns && f.id == FileOf(ns, p).value && f.kind == File && f.file == p
  {
    hide Select;
    SelectMembers(FileAt(p), ns);
    var files := Select(FileAt(p), ns);
    if files != [] {
      assert files[|files| - 1] in files;
    }
  }

  /** The container of a file is its own one, or else the Module named after its path. */
  lemma ModuleOfMeaning(ns: seq<SymbolNode>, p: Path)
    requires p != []
    ensures ModuleOf(ns, p).Some? ==>
              exists m :: m in ns && m.id == ModuleOf(ns, p).value &&
                (Container(m, p) ||
                 (m.kind == Module && NamedAfter(m.name, p) && forall c :: c in ns ==> !Container(c, p)))
  {
    hide Select, SyntheticModuleName, NamedAfter;
    SyntheticNameMeaning(p, SyntheticModuleName(p));
    SelectMembers(ContainerAt(p), ns);
    SelectMembers(ModuleNamed(SyntheticModuleName(p)), ns);
    var own, named := Select(ContainerAt(p), ns), Select(ModuleNamed(SyntheticModuleName(p)), ns);
    if own != [] {
      assert own[|own| - 1] in own;
    } else {
      forall c | c in ns ensures !Container(c, p) {
        assert c !in own;
      }
      if named != [] {
        assert named[0] in named;
      }
    }
  }

  /**
    Every anchored symbol, methods and variants included, is contained in a File node of its path and
    belongs to the container of its path, or without one to the Module named after the path.
   */
  lemma EverySymbolIsContained(g: Graph, g2: Graph, n: SymbolNode)
    requires WellFormed(g) && Structured(g, g2) && n in g.nodes && n.file != []
    requires n.kind != File && n.kind != Module && n.kind != Namespace && n.kind != DocComment && n.kind != DocSection
    ensures exists f :: f in g2.nodes && f.kind == File && f.file == n.file &&
              EdgeKey(f.id, n.id, Contains) in g2.store.edges
    ensures exists m :: m in g2.nodes && EdgeKey(n.id, m.id, BelongsTo) in g2.store.edges &&
              (Container(m, n.file) ||
               (m.kind == Module && NamedAfter(m.name, n.file) && forall c :: c in g2.nodes ==> !Container(c, n.file)))
  {
    hide Structured, WellFormed, FileOf, ModuleOf, NamedAfter;
    ContainmentIsComplete(g, g2, n);
    FileOfMeaning(g2.nodes, n.file);
    ModuleOfMeaning(g2.nodes, n.file);
  }

  lemma ChildrenMeaning(ns: seq<SymbolNode>, p: Path)
    ensures forall id :: id in ChildrenOf(ns, p) <==> exists n :: n in ns && n.id == id && n.file == p && Anchored(n)
  {
    hide Select;
    IdsOfSelected(ChildAt(p), ns);
    assert forall n :: n in ns && Matches(ChildAt(p), n) <==> n in ns && n.file == p && Anchored(n);
  }

  lemma NewEdgeIsDue(g: Graph, g2: Graph, k: EdgeKey)
    requires Structured(g, g2) && k in g2.store.edges && k !in g.store.edges
    ensures KeyOf(g2.store.edges[k]) == k
    ensures IsContains(g2.nodes, g2.store.edges[k]) || IsBelongs(g2.nodes, g2.store.edges[k])
  {
    hide PutAll, Grows, IsContains, IsBelongs, MintedFile, MintedModule, Housed, DistinctFiles, DistinctModules;
    var ins: seq<SymbolNode>, es: seq<DirectEdge> :| StructuredBy(g, ins, es, g2);
    PutAllEffect(g.store, es);
    assert g2.store.edges[k] in es;
  }

  lemma ChildIsOld(g: Graph, g2: Graph, p: Path, id: nat)
    requires Structured(g, g2) && id in ChildrenOf(g2.nodes, p)
    ensures exists n :: n in g.nodes && n.id == id && n.file == p && Anchored(n)
  {
    hide PutAll, Grows, IsContains, IsBelongs, MintedFile, MintedModule, Housed, DistinctFiles, DistinctModules,
         ChildrenOf;
    var ins: seq<SymbolNode>, es: seq<DirectEdge> :| StructuredBy(g, ins, es, g2);
    ChildrenMeaning(g2.nodes, p);
    var n :| n in g2.nodes && n.id == id && n.file == p && Anchored(n);
    AnchoredAreOld(g, ins, g2, n);
  }

  /** Files, containers, documentation and symbols without a file get no such edge, and there are no others. */
  lemma OnlySymbolsAreContained(g: Graph, g2: Graph, k: EdgeKey)
    requires WellFormed(g) && Structured(g, g2) && k in g2.store.edges && k !in g.store.edges
    ensures k.kind == Contains || k.kind == BelongsTo
    ensures k.kind == Contains ==>
              exists f, n :: f in g2.nodes && n in g.nodes && f.id == k.from && n.id == k.to &&
                f.kind == File && f.file == n.file && Anchored(n) && Certain(g2.store.edges[k], n.file)
    ensures k.kind == BelongsTo ==>
              exists n, m :: n in g.nodes && m in g2.nodes && n.id == k.from && m.id == k.to &&
                (m.kind == Module || m.kind == Namespace) && Anchored(n) && Certain(g2.store.edges[k], n.file)
  {
    hide Structured, WellFormed, FileOf, ModuleOf, ChildrenOf, NamedAfter;
    NewEdgeIsDue(g, g2, k);
    var p := g2.store.edges[k].evidenceFile;
    ChildIsOld(g, g2, p, if k.kind.Contains? then k.to else k.from);
    FileOfMeaning(g2.nodes, p);
    ModuleOfMeaning(g2.nodes, p);
  }

  lemma AnchoredAreOld(g: Graph, ins: seq<SymbolNode>, g2: Graph, n: SymbolNode)
    requires Grows(g, ins, g2) && forall m :: m in ins ==> MintedFile(g.nodes, m) || MintedModule(g.nodes, m)
    requires n in g2.nodes && Anchored(n)
    ensures n in g.nodes
  {
    hide Select, IndexAll, IndexAllQualified, Representative, NamedModule, FileOf, ChildPaths;
  }

  // ------------------------------------------------------------ the nodes the pass adds

  /** A path with symbols and without a container. */
  ghost predicate Loose(g: Graph, p: Path) {
    (exists n :: n in g.nodes && n.file == p && Anchored(n)) && forall c :: c in g.nodes ==> !Container(c, p)
  }

  lemma LooseMeaning(g: Graph, p: Path)
    requires p != []
    ensures Loose(g, p) <==> Unhoused(g.nodes, p)
  {
    hide Select;
    SelectMembers(ContainerAt(p), g.nodes);
    var own := Select(ContainerAt(p), g.nodes);
    if Loose(g, p) {
      forall c ensures c !in own {
      }
      NoMembers(own);
    }
    if own == [] {
      forall c | c in g.nodes ensures !Container(c, p) {
        assert c !in own;
      }
    }
  }

  /**
    A new node is a File named after its path, where symbols had none, or a Module named after the
    best placed of the paths that share its name and have no container.
   */
  lemma NewNodesAreContainers(g: Graph, g2: Graph, n: SymbolNode, q: Path)
    requires WellFormed(g) && Structured(g, g2) && n in g2.nodes && n !in g.nodes
    ensures n.spanStart == 0 && n.spanEnd == 0 && n.qualifiedName == n.name && n.visibility == Unknown && n.file != []
    ensures n.kind == File || n.kind == Module
    ensures n.kind == File ==>
              && n.name == (if n.file[|n.file| - 1] == ".." then "unknown" else n.file[|n.file| - 1])
              && (exists m :: m in g.nodes && m.file == n.file && Anchored(m))
              && forall m :: m in g.nodes && m.file == n.file ==> m.kind != File
    ensures n.kind == Module ==>
              && NamedAfter(n.name, n.file) && Loose(g, n.file)
              && (forall m :: m in g.nodes && m.name == n.name ==> m.kind != Module)
              && (q != [] && Loose(g, q) && NamedAfter(n.name, q) ==> Weight(q) <= Weight(n.file))
  {
    hide PutAll, Select, StoreOk, NameIndexed, QualifiedIndexed, IndexAll, IndexAllQualified, DistinctFiles,
         DistinctModules, Housed, IsContains, IsBelongs, SyntheticModuleName, NamedAfter, RepresentativeScore, Weight,
         Unhoused, Loose;
    var ins: seq<SymbolNode>, es: seq<DirectEdge> :| StructuredBy(g, ins, es, g2);
    assert n in ins;
    if MintedFile(g.nodes, n) {
      SelectMembers(FileAt(n.file), g.nodes);
      forall m | m in g.nodes && m.file == n.file ensures m.kind != File {
        assert m !in Select(FileAt(n.file), g.nodes);
      }
    } else {
      assert MintedModule(g.nodes, n);
      UnhousedAnchored(g.nodes, n.file);
      LooseMeaning(g, n.file);
      SyntheticNameMeaning(n.file, n.name);
      SelectMembers(ModuleNamed(n.name), g.nodes);
      forall m | m in g.nodes && m.name == n.name ensures m.kind != Module {
        assert m !in Select(ModuleNamed(n.name), g.nodes);
      }
      if q != [] && Loose(g, q) && NamedAfter(n.name, q) {
        LooseMeaning(g, q);
        SyntheticNameMeaning(q, n.name);
        ScoreMeaning(q);
        ScoreMeaning(n.file);
      }
    }
  }

  lemma UnhousedAnchored(ns: seq<SymbolNode>, p: Path)
    requires Unhoused(ns, p)
    ensures p != []
  {
    hide Select;
  }
}
