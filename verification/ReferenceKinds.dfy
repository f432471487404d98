/** Which edges references become, kind by kind, in terms of the graph before and after the pass. */
module ReferenceKinds {
  import opened Symbols
  import opened NodeQueries
  import opened SymbolGraphs
  import opened Enclosing
  import opened Resolution
  import opened ResolvePasses
  import opened DeriveStages
  import opened DeriveFixpoint
  import opened DeriveInput

  /** A node a reference to `name` may mean: of that name, and not a stand-in for an external package. */
  predicate Bears(ns: seq<SymbolNode>, n: SymbolNode, name: string) {
    n in ns && n.name == name && n.kind != ExternalPackage
  }

  /** The pair is linked afterwards; if it was not before, by an edge evidenced in `file`. */
  ghost predicate Linked(g: Graph, g2: Graph, from: SymbolId, to: SymbolId, kind: EdgeKind, file: Path) {
    var k := EdgeKey(from, to, kind);
    k in g2.store.seen && (k !in g.store.seen ==> k in g2.store.edges && g2.store.edges[k].evidenceFile == file)
  }

  // ------------------------------------------------------------ evidence

  /** The symbol an offset is attributed to lies in that file. */
  lemma EnclosingInFile(ns: seq<SymbolNode>, file: Path, offset: u32)
    requires EnclosingSymbol(ns, file, offset).Some?
    ensures exists n :: n in ns && n.id == EnclosingSymbol(ns, file, offset).value && n.file == file
  {
    hide EnclosingSymbol;
    EnclosingSymbolMeaning(ns, file, offset);
  }

  lemma RefEdgeEvidence(a: Graph, stubs: map<string, SymbolId>, barrels: map<Path, SymbolId>, src: Sources,
                        q: RawReference, e: DirectEdge)
    requires e in RefEdges(a.nodes, stubs, barrels, src, q)
    ensures e.evidenceFile == q.file
    ensures EnclosingSymbol(a.nodes, q.file, q.offset) == Some(e.from) ||
            (NeedsBarrel(a.nodes, src, q) && q.file in barrels && e.from == barrels[q.file])
  {
    hide Select, EnclosingSymbol, PickTargets, Links, IdsOf, ImportTarget, NeedsStub, Evaluate;
    if q.kind.RefReexportAll? {
      LinksEndpoints(ReexportSource(a.nodes, barrels, q).value, IdsOf(Reexported(a.nodes, src, q)), Imports,
                     NameResolved, q.file);
    } else {
      var srcId := EnclosingSymbol(a.nodes, q.file, q.offset).value;
      var picked := PickTargets(Candidates(a.nodes, q.name), srcId, q.file,
                                ImportTarget(src, src.imports, q.file, q.name));
      LinksEndpoints(srcId, picked.0, ToEdgeKind(q.kind), picked.1, q.file);
    }
  }

  lemma ImportEdgeEvidence(a: Graph, src: Sources, ni: NamedImport, e: DirectEdge)
    requires e in ImportEdges(a.nodes, src, ni)
    ensures e.evidenceFile == ni.file && EnclosingSymbol(a.nodes, ni.file, ni.offset) == Some(e.from)
  {
    hide Select, EnclosingSymbol, Links, IdsOf;
    LinksEndpoints(EnclosingSymbol(a.nodes, ni.file, ni.offset).value,
                   IdsOf(Select(DefinedAt(ResolveSpecifier(src, ni.file, ni.spec).value),
                                Candidates(a.nodes, ni.imported))),
                   Imports, NameResolved, ni.file);
  }

  /** An emitted edge comes from a reference or from a named import. */
  lemma EmittedBy(a: Graph, stubs: map<string, SymbolId>, barrels: map<Path, SymbolId>, src: Sources, e: DirectEdge)
    requires e in Emission(a.nodes, stubs, barrels, src)
    ensures (exists q :: q in src.refs && e in RefEdges(a.nodes, stubs, barrels, src, q))
            || (exists ni :: ni in src.imports && e in ImportEdges(a.nodes, src, ni))
  {
    hide RefEdges, ImportEdges, AllRefEdges, AllImportEdges;
    AllRefEdgesMembers(a.nodes, stubs, barrels, src, src.refs);
    AllImportEdgesMembers(a.nodes, src, src.imports);
  }

  /** An edge that starts at a node of the input graph is evidenced in that node's file. */
  lemma EvidenceIsOwnFile(a: Graph, src: Sources, ins: seq<SymbolNode>, stubs: map<string, SymbolId>,
                          barrels: map<Path, SymbolId>, b: Graph, e: DirectEdge, n: SymbolNode)
    requires NodesOk(a.nodes, a.nextId) && ResolvedBy(a, src, ins, stubs, barrels, b)
    requires e in Emission(a.nodes, stubs, barrels, src) && n in a.nodes && n.id == e.from
    ensures e.evidenceFile == n.file
  {
    hide Select, Emission, PutAll, RefEdges, ImportEdges, NeedsBarrel, Minted, Served, StubTable, EnclosingSymbol,
         BarrelTable, Grows;
    EmittedBy(a, stubs, barrels, src, e);
    if q :| q in src.refs && e in RefEdges(a.nodes, stubs, barrels, src, q) {
      RefEdgeEvidence(a, stubs, barrels, src, q, e);
      if EnclosingSymbol(a.nodes, q.file, q.offset) != Some(e.from) {
        BarrelIdsAreNew(a, ins, b, barrels, q.file);
      } else {
        EnclosingInFile(a.nodes, q.file, q.offset);
        var m :| m in a.nodes && m.id == e.from && m.file == q.file;
        UniqueIdsMeanSameNode(a.nodes, m, n);
      }
    } else {
      var ni :| ni in src.imports && e in ImportEdges(a.nodes, src, ni);
      ImportEdgeEvidence(a, src, ni, e);
      EnclosingInFile(a.nodes, ni.file, ni.offset);
      var m :| m in a.nodes && m.id == e.from && m.file == ni.file;
      UniqueIdsMeanSameNode(a.nodes, m, n);
    }
  }

  lemma BarrelIdsAreNew(a: Graph, ins: seq<SymbolNode>, b: Graph, barrels: map<Path, SymbolId>, f: Path)
    requires Grows(a, ins, b) && BarrelTable(ins, barrels) && f in barrels
    ensures barrels[f] >= a.nextId
    ensures exists n :: n in b.nodes && n.id == barrels[f] && n.kind.File? && n.file == f
  {
    hide Select, IndexAll, IndexAllQualified;
    var hits := Select(FileAt(f), ins);
    SelectMembers(FileAt(f), ins);
    assert FirstId(hits) == Some(barrels[f]);
    assert hits[0] in hits;
    var i :| 0 <= i < |ins| && ins[i] == hits[0];
  }

  /** What a key that was emitted means for the outcome. */
  lemma EmittedIsLinked(a: Graph, src: Sources, ins: seq<SymbolNode>, stubs: map<string, SymbolId>,
                        barrels: map<Path, SymbolId>, b: Graph, k: EdgeKey, n: SymbolNode)
    requires NodesOk(a.nodes, a.nextId) && ResolvedBy(a, src, ins, stubs, barrels, b)
    requires exists e :: e in Emission(a.nodes, stubs, barrels, src) && KeyOf(e) == k
    requires KeysMatch(a.store) && n in a.nodes && n.id == k.from
    ensures Linked(a, b, k.from, k.to, k.kind, n.file)
  {
    hide Select, Emission, Minted, Served, StubTable, BarrelTable, Grows, ResolvedBy;
    var es := Emission(a.nodes, stubs, barrels, src);
    StoreOfOutcome(a, src, ins, stubs, barrels, b);
    PutAllEffect(a.store, es);
    if k !in a.store.seen {
      assert k in b.store.edges && b.store.edges[k] in es;
      EvidenceIsOwnFile(a, src, ins, stubs, barrels, b, b.store.edges[k], n);
    }
  }

  lemma StoreOfOutcome(a: Graph, src: Sources, ins: seq<SymbolNode>, stubs: map<string, SymbolId>,
                       barrels: map<Path, SymbolId>, b: Graph)
    requires ResolvedBy(a, src, ins, stubs, barrels, b)
    ensures b.store == PutAll(a.store, Emission(a.nodes, stubs, barrels, src)) && Grows(a, ins, b)
    ensures StubTable(b.nodes, stubs) && BarrelTable(ins, barrels) && Minted(a.nodes, src, ins)
    ensures Served(a.nodes, stubs, barrels, src, src.refs)
  {
    hide Grows, Minted, StubTable, BarrelTable, Served, Emission, PutAll;
  }

  // ------------------------------------------------------------ what a reference becomes

  lemma LinkedTarget(srcId: SymbolId, targets: seq<SymbolId>, kind: EdgeKind, origin: AnalysisOrigin, file: Path,
                     id: SymbolId)
    requires id in targets && id != srcId
    ensures exists e :: e in Links(srcId, targets, kind, origin, file) && KeyOf(e) == EdgeKey(srcId, id, kind)
  {
    hide Links, Evaluate;
    var all := Links(srcId, targets, kind, origin, file);
    var s := EdgeStore(map[], set e | e in all :: KeyOf(e));
    LinksSeen(s, srcId, targets, kind, origin, file);
    assert AllSeen(s, all);
    assert EdgeKey(srcId, id, kind) in s.seen;
  }

  lemma Emitted(a: Graph, stubs: map<string, SymbolId>, barrels: map<Path, SymbolId>, src: Sources, q: RawReference,
                k: EdgeKey)
    requires q in src.refs && exists e :: e in RefEdges(a.nodes, stubs, barrels, src, q) && KeyOf(e) == k
    ensures exists e :: e in Emission(a.nodes, stubs, barrels, src) && KeyOf(e) == k
  {
    hide RefEdges, ImportEdges, AllRefEdges, AllImportEdges;
    AllRefEdgesMembers(a.nodes, stubs, barrels, src, src.refs);
    var e :| e in RefEdges(a.nodes, stubs, barrels, src, q) && KeyOf(e) == k;
    assert e in AllRefEdges(a.nodes, stubs, barrels, src, src.refs);
  }

  // ------------------------------------------------------------ what a name means where it is used

  /** `n` is not the referencing symbol itself. */
  predicate Other(ns: seq<SymbolNode>, s: SymbolId, name: string, n: SymbolNode) {
    Bears(ns, n, name) && n.id != s
  }

  predicate SameDirectory(p: Path, q: Path) {
    if p == [] || q == [] then p == q else p[..|p| - 1] == q[..|q| - 1]
  }

  ghost predicate SoleNearby(ns: seq<SymbolNode>, s: SymbolId, name: string, file: Path, n: SymbolNode) {
    && Other(ns, s, name, n) && SameDirectory(n.file, file)
    && forall m :: Other(ns, s, name, m) && SameDirectory(m.file, file) ==> m == n
  }

  ghost predicate SoleQualified(ns: seq<SymbolNode>, s: SymbolId, name: string, n: SymbolNode) {
    && Other(ns, s, name, n) && n.qualifiedName != ""
    && forall m :: Other(ns, s, name, m) && m.qualifiedName != "" ==> m == n
  }

  ghost predicate SoleAtAll(ns: seq<SymbolNode>, s: SymbolId, name: string, n: SymbolNode) {
    Other(ns, s, name, n) && forall m :: Other(ns, s, name, m) ==> m == n
  }

  predicate Binds(src: Sources, ni: NamedImport, file: Path, name: string) {
    ni.file == file && ni.local == name && (file, ni.spec) in src.specifiers
  }

  /** Import `i` binds `name` in the file to a symbol of `target`, and no later one rebinds it. */
  ghost predicate LastBinding(src: Sources, imports: seq<NamedImport>, file: Path, name: string, target: Path, i: nat) {
    && i < |imports| && Binds(src, imports[i], file, name) && src.specifiers[(file, imports[i].spec)] == target
    && forall j :: i < j < |imports| ==> !Binds(src, imports[j], file, name)
  }

  ghost predicate ImportedFrom(src: Sources, file: Path, name: string, target: Path) {
    exists i :: LastBinding(src, src.imports, file, name, target, i)
  }

  lemma {:induction false} ImportTargetMeaning(src: Sources, imports: seq<NamedImport>, file: Path, name: string)
    returns (i: nat)
    ensures ImportTarget(src, imports, file, name).None? ==>
              forall j :: 0 <= j < |imports| ==> !Binds(src, imports[j], file, name)
    ensures ImportTarget(src, imports, file, name).Some? ==>
              LastBinding(src, imports, file, name, ImportTarget(src, imports, file, name).value, i)
  {
    i := 0;
    if imports != [] {
      i := |imports| - 1;
      if !Binds(src, imports[i], file, name) {
        var rest := imports[..i];
        assert ImportTarget(src, imports, file, name) == ImportTarget(src, rest, file, name);
        assert forall j :: 0 <= j < |rest| ==> imports[j] == rest[j];
        i := ImportTargetMeaning(src, rest, file, name);
      }
    }
  }

  lemma ImportedFromMeaning(src: Sources, file: Path, name: string, target: Path)
    ensures ImportedFrom(src, file, name, target) <==> ImportTarget(src, src.imports, file, name) == Some(target)
  {
    hide ImportTarget;
    var i := ImportTargetMeaning(src, src.imports, file, name);
    if j :| LastBinding(src, src.imports, file, name, target, j) {
      assert i == j;
    }
  }

  /**
    What `name` means in `file`, inside `s`: the definitions in the file itself; without one, the sole
    definition in the directory; else the sole one with a qualified name; else those of the file it is
    imported from; else the sole one there is.  Never `s` itself, never a stand-in for a package.
   */
  ghost predicate Means(ns: seq<SymbolNode>, src: Sources, s: SymbolId, file: Path, name: string, n: SymbolNode) {
    Other(ns, s, name, n) &&
    if exists m :: Other(ns, s, name, m) && m.file == file then n.file == file
    else if exists m :: SoleNearby(ns, s, name, file, m) then SoleNearby(ns, s, name, file, n)
    else if exists m :: SoleQualified(ns, s, name, m) then SoleQualified(ns, s, name, n)
    else if exists m, t :: Other(ns, s, name, m) && ImportedFrom(src, file, name, t) && m.file == t
    then ImportedFrom(src, file, name, n.file)
    else SoleAtAll(ns, s, name, n)
  }

  /** Who bears the name, as lists of candidates. */
  lemma OthersMeaning(ns: seq<SymbolNode>, s: SymbolId, name: string)
    ensures forall n :: n in Candidates(ns, name) <==> Bears(ns, n, name)
    ensures forall n :: n in Select(Except(s), Candidates(ns, name)) <==> Other(ns, s, name, n)
  {
    hide Select;
    SelectMembers(Definition(name), ns);
    SelectMembers(Except(s), Candidates(ns, name));
  }

  lemma NearbyMeaning(ns: seq<SymbolNode>, s: SymbolId, name: string, file: Path, n: SymbolNode)
    ensures Sole(InDirectory(Parent(file)), Select(Except(s), Candidates(ns, name)), n) <==>
              SoleNearby(ns, s, name, file, n)
  {
    hide Candidates, Select;
    OthersMeaning(ns, s, name);
    var near := InDirectory(Parent(file));
    assert forall m: SymbolNode :: Matches(near, m) <==> SameDirectory(m.file, file);
  }

  lemma QualifiedMeaning(ns: seq<SymbolNode>, s: SymbolId, name: string, n: SymbolNode)
    ensures Sole(Qualified, Select(Except(s), Candidates(ns, name)), n) <==> SoleQualified(ns, s, name, n)
  {
    hide Candidates, Select;
    OthersMeaning(ns, s, name);
  }

  lemma AtAllMeaning(ns: seq<SymbolNode>, s: SymbolId, name: string, n: SymbolNode)
    requires UniqueIds(ns)
    ensures var others := Select(Except(s), Candidates(ns, name));
            (|others| == 1 && others[0] == n) <==> SoleAtAll(ns, s, name, n)
  {
    hide Select;
    SelectUnique(Definition(name), ns);
    SelectUnique(Except(s), Candidates(ns, name));
    OthersMeaning(ns, s, name);
    var others := Select(Except(s), Candidates(ns, name));
    SoleIsSelected(Except(s), Candidates(ns, name));
    if |others| == 1 {
      assert others[0] in others;
    }
    if SoleAtAll(ns, s, name, n) {
      forall m | m in Candidates(ns, name) && m.id != s ensures m == n {
        assert Other(ns, s, name, m);
      }
      assert n in Candidates(ns, name);
      assert Sole(Except(s), Candidates(ns, name), n);
    }
  }

  lemma CandidatesUnique(ns: seq<SymbolNode>, name: string)
    requires UniqueIds(ns)
    ensures UniqueIds(Candidates(ns, name))
  {
    hide Select;
    SelectUnique(Definition(name), ns);
  }

  /** Without a definition in the file itself, in the words of the tiers. */
  lemma TierPicked(ns: seq<SymbolNode>, src: Sources, s: SymbolId, file: Path, name: string)
    requires UniqueIds(ns) && forall m :: Other(ns, s, name, m) ==> m.file != file
    ensures var target := ImportTarget(src, src.imports, file, name);
            var picked := PickTargets(Candidates(ns, name), s, file, target).0;
            if exists n :: SoleNearby(ns, s, name, file, n) then
              exists n :: SoleNearby(ns, s, name, file, n) && picked == [n.id]
            else if exists n :: SoleQualified(ns, s, name, n) then
              exists n :: SoleQualified(ns, s, name, n) && picked == [n.id]
            else if target.Some? && exists n :: Other(ns, s, name, n) && n.file == target.value then
              forall id :: id in picked <==> exists n :: Other(ns, s, name, n) && n.id == id && n.file == target.value
            else
              if exists n :: SoleAtAll(ns, s, name, n) then exists n :: SoleAtAll(ns, s, name, n) && picked == [n.id]
              else picked == []
  {
    hide Candidates, Select, PickTargets, SoleNearby, SoleQualified, SoleAtAll, ImportTarget, Sole;
    var candidates, target := Candidates(ns, name), ImportTarget(src, src.imports, file, name);
    OthersMeaning(ns, s, name);
    CandidatesUnique(ns, name);
    TiersInOrder(candidates, s, file, target);
    forall n
      ensures Sole(InDirectory(Parent(file)), Select(Except(s), candidates), n) <==> SoleNearby(ns, s, name, file, n)
      ensures Sole(Qualified, Select(Except(s), candidates), n) <==> SoleQualified(ns, s, name, n)
      ensures (|Select(Except(s), candidates)| == 1 && Select(Except(s), candidates)[0] == n) <==>
                SoleAtAll(ns, s, name, n)
    {
      NearbyMeaning(ns, s, name, file, n);
      QualifiedMeaning(ns, s, name, n);
      AtAllMeaning(ns, s, name, n);
    }
    var others := Select(Except(s), candidates);
    if |others| == 1 {
      assert SoleAtAll(ns, s, name, others[0]);
    }
  }

  lemma SolesAgree(ns: seq<SymbolNode>, s: SymbolId, name: string, file: Path, n: SymbolNode, m: SymbolNode)
    ensures SoleNearby(ns, s, name, file, n) ==>
              Other(ns, s, name, n) && (SoleNearby(ns, s, name, file, m) ==> m == n)
    ensures SoleQualified(ns, s, name, n) ==> Other(ns, s, name, n) && (SoleQualified(ns, s, name, m) ==> m == n)
    ensures SoleAtAll(ns, s, name, n) ==> Other(ns, s, name, n) && (SoleAtAll(ns, s, name, m) ==> m == n)
  {
    hide SameDirectory, Other;
  }

  /** A definition in the file itself shadows all others. */
  lemma MeantHere(ns: seq<SymbolNode>, src: Sources, s: SymbolId, file: Path, name: string, n: SymbolNode)
    requires exists m :: Other(ns, s, name, m) && m.file == file
    ensures Means(ns, src, s, file, name, n) <==> Other(ns, s, name, n) && n.file == file
  {
    hide Other, SoleNearby, SoleQualified, SoleAtAll, ImportedFrom;
  }

  lemma MeantNearby(ns: seq<SymbolNode>, src: Sources, s: SymbolId, file: Path, name: string, one: SymbolNode,
                    n: SymbolNode)
    requires (forall m :: Other(ns, s, name, m) ==> m.file != file) && SoleNearby(ns, s, name, file, one)
    ensures Means(ns, src, s, file, name, n) <==> n == one
  {
    hide Other, SoleQualified, SoleAtAll, ImportedFrom, SameDirectory;
  }

  lemma MeantQualified(ns: seq<SymbolNode>, src: Sources, s: SymbolId, file: Path, name: string, one: SymbolNode,
                       n: SymbolNode)
    requires forall m :: Other(ns, s, name, m) ==> m.file != file
    requires (forall m :: !SoleNearby(ns, s, name, file, m)) && SoleQualified(ns, s, name, one)
    ensures Means(ns, src, s, file, name, n) <==> n == one
  {
    hide Other, SoleNearby, SoleAtAll, ImportedFrom;
  }

  lemma MeantImported(ns: seq<SymbolNode>, src: Sources, s: SymbolId, file: Path, name: string, target: Option<Path>,
                      n: SymbolNode)
    requires forall m :: Other(ns, s, name, m) ==> m.file != file
    requires forall m :: !SoleNearby(ns, s, name, file, m) && !SoleQualified(ns, s, name, m)
    requires forall t :: ImportedFrom(src, file, name, t) <==> target == Some(t)
    ensures Means(ns, src, s, file, name, n) <==>
              if target.Some? && exists m :: Other(ns, s, name, m) && m.file == target.value
              then Other(ns, s, name, n) && n.file == target.value
              else SoleAtAll(ns, s, name, n)
  {
    hide Other, SoleNearby, SoleQualified, ImportedFrom;
    if target.Some? {
      if m :| Other(ns, s, name, m) && m.file == target.value {
        assert ImportedFrom(src, file, name, m.file);
      }
    }
  }

  /** The targets picked are those the name means. */
  lemma PickedIffMeant(ns: seq<SymbolNode>, src: Sources, s: SymbolId, file: Path, name: string, id: SymbolId)
    requires UniqueIds(ns)
    ensures id in PickTargets(Candidates(ns, name), s, file, ImportTarget(src, src.imports, file, name)).0 <==>
              exists n :: Means(ns, src, s, file, name, n) && n.id == id
  {
    hide Candidates, PickTargets, SoleNearby, SoleQualified, SoleAtAll, ImportTarget, ImportedFrom, Means, Other;
    var candidates, target := Candidates(ns, name), ImportTarget(src, src.imports, file, name);
    if exists m :: Other(ns, s, name, m) && m.file == file {
      OthersHere(ns, s, name, file, target, id);
      forall n ensures Means(ns, src, s, file, name, n) <==> Other(ns, s, name, n) && n.file == file {
        MeantHere(ns, src, s, file, name, n);
      }
    } else {
      TierPicked(ns, src, s, file, name);
      if one :| SoleNearby(ns, s, name, file, one) {
        forall n ensures Means(ns, src, s, file, name, n) <==> n == one {
          MeantNearby(ns, src, s, file, name, one, n);
        }
        forall m ensures SoleNearby(ns, s, name, file, m) ==> m == one {
          SolesAgree(ns, s, name, file, one, m);
        }
      } else if one :| SoleQualified(ns, s, name, one) {
        forall n ensures Means(ns, src, s, file, name, n) <==> n == one {
          MeantQualified(ns, src, s, file, name, one, n);
        }
        forall m ensures SoleQualified(ns, s, name, m) ==> m == one {
          SolesAgree(ns, s, name, file, one, m);
        }
      } else {
        LastTiers(ns, src, s, file, name, id);
      }
    }
  }

  lemma OthersHere(ns: seq<SymbolNode>, s: SymbolId, name: string, file: Path, target: Option<Path>, id: SymbolId)
    requires exists m :: Other(ns, s, name, m) && m.file == file
    ensures id in PickTargets(Candidates(ns, name), s, file, target).0 <==>
              exists n :: Other(ns, s, name, n) && n.file == file && n.id == id
  {
    hide Candidates, PickTargets, Select;
    OthersMeaning(ns, s, name);
    SameFileWins(Candidates(ns, name), s, file, target);
  }

  lemma LastTiers(ns: seq<SymbolNode>, src: Sources, s: SymbolId, file: Path, name: string, id: SymbolId)
    requires UniqueIds(ns) && forall m :: Other(ns, s, name, m) ==> m.file != file
    requires forall m :: !SoleNearby(ns, s, name, file, m) && !SoleQualified(ns, s, name, m)
    ensures id in PickTargets(Candidates(ns, name), s, file, ImportTarget(src, src.imports, file, name)).0 <==>
              exists n :: Means(ns, src, s, file, name, n) && n.id == id
  {
    hide Candidates, PickTargets, SoleNearby, SoleQualified, SoleAtAll, ImportTarget, ImportedFrom, Means, Other;
    var target := ImportTarget(src, src.imports, file, name);
    TierPicked(ns, src, s, file, name);
    forall t ensures ImportedFrom(src, file, name, t) <==> target == Some(t) {
      ImportedFromMeaning(src, file, name, t);
    }
    forall n
      ensures Means(ns, src, s, file, name, n) <==>
                if target.Some? && exists m :: Other(ns, s, name, m) && m.file == target.value
                then Other(ns, s, name, n) && n.file == target.value
                else SoleAtAll(ns, s, name, n)
    {
      MeantImported(ns, src, s, file, name, target, n);
    }
    if one :| SoleAtAll(ns, s, name, one) {
      forall m ensures SoleAtAll(ns, s, name, m) ==> m == one {
        SolesAgree(ns, s, name, file, one, m);
      }
    }
  }

  // ------------------------------------------------------------ forwards: what a reference links

  lemma MeantIsEmitted(a: Graph, stubs: map<string, SymbolId>, barrels: map<Path, SymbolId>, src: Sources,
                       r: RawReference, s: SymbolId, n: SymbolNode)
    requires UniqueIds(a.nodes) && !r.kind.RefReexportAll?
    requires EnclosingSymbol(a.nodes, r.file, r.offset) == Some(s) && Means(a.nodes, src, s, r.file, r.name, n)
    ensures exists e ::
              e in RefEdges(a.nodes, stubs, barrels, src, r) && KeyOf(e) == EdgeKey(s, n.id, ToEdgeKind(r.kind))
  {
    hide Candidates, EnclosingSymbol, PickTargets, Links, IdsOf, ImportTarget, NeedsStub, SoleNearby, SoleQualified,
         SoleAtAll, ImportedFrom;
    var target := ImportTarget(src, src.imports, r.file, r.name);
    PickedIffMeant(a.nodes, src, s, r.file, r.name, n.id);
    OthersMeaning(a.nodes, s, r.name);
    var picked := PickTargets(Candidates(a.nodes, r.name), s, r.file, target);
    LinkedTarget(s, picked.0, ToEdgeKind(r.kind), picked.1, r.file, n.id);
  }

  /**
    A reference inside `s` links it to each definition its name means: a call by Calls, an import by
    Imports, an extends clause by Extends, an implements clause by Implements, and the use of a type or
    of a value by References.
   */
  lemma ReferenceLinks(g: Graph, src: Sources, g2: Graph, r: RawReference, s: SymbolId, n: SymbolNode)
    requires WellFormed(g) && Resolved(g, src, g2) && r in src.refs
    requires EnclosingSymbol(g.nodes, r.file, r.offset) == Some(s) && Means(g.nodes, src, s, r.file, r.name, n)
    ensures r.kind == RefCall ==> Linked(g, g2, s, n.id, Calls, r.file)
    ensures r.kind == RefImport ==> Linked(g, g2, s, n.id, Imports, r.file)
    ensures r.kind == RefExtends ==> Linked(g, g2, s, n.id, EdgeKind.Extends, r.file)
    ensures r.kind == RefImplements ==> Linked(g, g2, s, n.id, EdgeKind.Implements, r.file)
    ensures r.kind == RefTypeUse ==> Linked(g, g2, s, n.id, References, r.file)
    ensures r.kind == RefValue ==> Linked(g, g2, s, n.id, References, r.file)
  {
    hide EnclosingSymbol, ResolvedBy, Means, Linked, WellFormed, RefEdges;
    WellFormedSound(g);
    var ins: seq<SymbolNode>, stubs: map<string, SymbolId>, barrels: map<Path, SymbolId> :|
        ResolvedBy(g, src, ins, stubs, barrels, g2);
    if !r.kind.RefReexportAll? {
      var k := EdgeKey(s, n.id, ToEdgeKind(r.kind));
      MeantIsEmitted(g, stubs, barrels, src, r, s, n);
      Emitted(g, stubs, barrels, src, r, k);
      EnclosingInFile(g.nodes, r.file, r.offset);
      var m :| m in g.nodes && m.id == s && m.file == r.file;
      EmittedIsLinked(g, src, ins, stubs, barrels, g2, k, m);
    }
  }

  /** The symbols `export * from` re-exports: public, and neither files, containers, packages nor documentation. */
  predicate ExportedFrom(ns: seq<SymbolNode>, n: SymbolNode, target: Path) {
    && n in ns && n.file == target && target != [] && n.visibility == Public
    && n.kind != File && n.kind != Module && n.kind != Namespace && n.kind != ExternalPackage
    && n.kind != DocComment && n.kind != DocSection
  }

  lemma ReexportedMeaning(ns: seq<SymbolNode>, src: Sources, r: RawReference)
    ensures forall id :: id in IdsOf(Reexported(ns, src, r)) <==>
              (r.file, r.name) in src.specifiers &&
                exists n :: ExportedFrom(ns, n, src.specifiers[(r.file, r.name)]) && n.id == id
  {
    hide Select;
    if (r.file, r.name) in src.specifiers {
      var target := src.specifiers[(r.file, r.name)];
      IdsOfSelected(PublicAt(target), ns);
      assert forall n :: (n in ns && Matches(PublicAt(target), n)) <==> ExportedFrom(ns, n, target);
    }
  }

  /** A wildcard re-export imports every exported symbol of its target, from its symbol or from the file's File node. */
  lemma WildcardLinks(g: Graph, src: Sources, g2: Graph, r: RawReference, n: SymbolNode)
    requires WellFormed(g) && Resolved(g, src, g2) && r in src.refs && r.kind == RefReexportAll
    requires (r.file, r.name) in src.specifiers && ExportedFrom(g.nodes, n, src.specifiers[(r.file, r.name)])
    ensures exists from ::
              && (EnclosingSymbol(g.nodes, r.file, r.offset) == Some(from) ||
                  exists m :: m in g2.nodes && m.id == from && m.kind == File && m.file == r.file)
              && (from == n.id || EdgeKey(from, n.id, Imports) in g2.store.seen)
  {
    hide Select, EnclosingSymbol, ResolvedBy, WellFormed, Links, IdsOf, ExportedFrom, Reexported;
    var ins: seq<SymbolNode>, stubs: map<string, SymbolId>, barrels: map<Path, SymbolId> :|
        ResolvedBy(g, src, ins, stubs, barrels, g2);
    StoreOfOutcome(g, src, ins, stubs, barrels, g2);
    ReexportedMeaning(g.nodes, src, r);
    NothingReexported(g.nodes, src, r);
    assert n.id in IdsOf(Reexported(g.nodes, src, r));
    var from := ReexportSource(g.nodes, barrels, r);
    assert from.Some?;
    if EnclosingSymbol(g.nodes, r.file, r.offset).None? {
      BarrelIdsAreNew(g, ins, g2, barrels, r.file);
    }
    if from.value != n.id {
      LinkedTarget(from.value, IdsOf(Reexported(g.nodes, src, r)), Imports, NameResolved, r.file, n.id);
      var k := EdgeKey(from.value, n.id, Imports);
      Emitted(g, stubs, barrels, src, r, k);
      PutAllEffect(g.store, Emission(g.nodes, stubs, barrels, src));
    }
  }

  /** A named import links its symbol to the definitions of that name in the file its specifier resolves to. */
  lemma NamedImportLinks(g: Graph, src: Sources, g2: Graph, ni: NamedImport, s: SymbolId, n: SymbolNode)
    requires WellFormed(g) && Resolved(g, src, g2) && ni in src.imports && src.refs != []
    requires EnclosingSymbol(g.nodes, ni.file, ni.offset) == Some(s) && n.id != s
    requires (ni.file, ni.spec) in src.specifiers && Bears(g.nodes, n, ni.imported)
    requires n.file == src.specifiers[(ni.file, ni.spec)]
    ensures Linked(g, g2, s, n.id, Imports, ni.file)
  {
    hide Select, EnclosingSymbol, ResolvedBy, WellFormed, Links, IdsOf, Linked, RefEdges, AllRefEdges, AllImportEdges;
    WellFormedSound(g);
    var ins: seq<SymbolNode>, stubs: map<string, SymbolId>, barrels: map<Path, SymbolId> :|
        ResolvedBy(g, src, ins, stubs, barrels, g2);
    var targets := Select(DefinedAt(n.file), Candidates(g.nodes, ni.imported));
    SelectMembers(Definition(ni.imported), g.nodes);
    SelectMembers(DefinedAt(n.file), Candidates(g.nodes, ni.imported));
    IdsOfMembers(targets);
    LinkedTarget(s, IdsOf(targets), Imports, NameResolved, ni.file, n.id);
    AllImportEdgesMembers(g.nodes, src, src.imports);
    EnclosingInFile(g.nodes, ni.file, ni.offset);
    var m :| m in g.nodes && m.id == s && m.file == ni.file;
    EmittedIsLinked(g, src, ins, stubs, barrels, g2, EdgeKey(s, n.id, Imports), m);
  }

  // ------------------------------------------------------------ stand-ins for external packages

  /** Nothing in the project bears the name, and it is neither part of a path nor the stem of a file. */
  ghost predicate Unknown(ns: seq<SymbolNode>, src: Sources, name: string) {
    && (forall n :: !Bears(ns, n, name))
    && (forall p :: p in src.lengths ==> name !in p && FileStem(p) != Some(name))
  }

  lemma UnknownNeedsStub(ns: seq<SymbolNode>, src: Sources, r: RawReference)
    ensures NeedsStub(ns, src, r) <==>
              (r.kind == RefImport || r.kind == RefImplements) &&
                EnclosingSymbol(ns, r.file, r.offset).Some? && Unknown(ns, src, r.name)
  {
    hide Select, EnclosingSymbol, FileStem;
    SelectMembers(Definition(r.name), ns);
    if forall n :: !Bears(ns, n, r.name) {
      forall n ensures n !in Candidates(ns, r.name) {
        assert !Bears(ns, n, r.name);
      }
      NoMembers(Candidates(ns, r.name));
    }
    if Candidates(ns, r.name) == [] {
      forall n ensures !Bears(ns, n, r.name) {
        assert n !in Candidates(ns, r.name);
      }
    }
  }

  /** A stand-in for an external package called `name`. */
  predicate StandsFor(g: Graph, n: SymbolNode, name: string) {
    n in g.nodes && n.kind == ExternalPackage && n.name == name
  }

  lemma StubIsStandIn(b: Graph, stubs: map<string, SymbolId>, name: string)
    requires StubTable(b.nodes, stubs) && name in stubs
    ensures exists n :: StandsFor(b, n, name) && n.id == stubs[name]
  {
    hide Select;
    var hits := Select(ExternalNamed(name), b.nodes);
    SelectMembers(ExternalNamed(name), b.nodes);
    assert FirstId(hits) == Some(stubs[name]);
    assert hits[0] in hits;
  }

  /** An import or implements clause of an unknown name is linked to a stand-in, under its own kind. */
  lemma UnknownNameLinks(g: Graph, src: Sources, g2: Graph, r: RawReference, s: SymbolId)
    requires WellFormed(g) && Resolved(g, src, g2) && r in src.refs
    requires EnclosingSymbol(g.nodes, r.file, r.offset) == Some(s) && Unknown(g.nodes, src, r.name)
    ensures r.kind == RefImport ==>
              exists n :: StandsFor(g2, n, r.name) && EdgeKey(s, n.id, Imports) in g2.store.seen
    ensures r.kind == RefImplements ==>
              exists n :: StandsFor(g2, n, r.name) && EdgeKey(s, n.id, EdgeKind.Implements) in g2.store.seen
  {
    hide Select, EnclosingSymbol, ResolvedBy, WellFormed, Unknown, StandsFor, IsInternalName;
    var ins: seq<SymbolNode>, stubs: map<string, SymbolId>, barrels: map<Path, SymbolId> :|
        ResolvedBy(g, src, ins, stubs, barrels, g2);
    UnknownNeedsStub(g.nodes, src, r);
    StoreOfOutcome(g, src, ins, stubs, barrels, g2);
    if r.kind == RefImport || r.kind == RefImplements {
      var kind := ToEdgeKind(r.kind);
      var e := NewEdge(s, stubs[r.name], kind, SyntaxMatched, Evaluate(kind, SyntaxMatched), r.file);
      assert RefEdges(g.nodes, stubs, barrels, src, r) == [e];
      assert e in [e] && KeyOf(e) == EdgeKey(s, stubs[r.name], kind);
      Emitted(g, stubs, barrels, src, r, KeyOf(e));
      PutAllEffect(g.store, Emission(g.nodes, stubs, barrels, src));
      StubIsStandIn(g2, stubs, r.name);
    }
  }

  /** Only unknown names that are imported or implemented get a new stand-in, one each. */
  lemma NewStandIns(g: Graph, src: Sources, g2: Graph, n: SymbolNode, m: SymbolNode)
    requires WellFormed(g) && Resolved(g, src, g2)
    requires StandsFor(g2, n, n.name) && n !in g.nodes
    ensures n.file == [] && forall l :: !StandsFor(g, l, n.name)
    ensures exists r :: r in src.refs && r.name == n.name && (r.kind == RefImport || r.kind == RefImplements) &&
              EnclosingSymbol(g.nodes, r.file, r.offset).Some? && Unknown(g.nodes, src, r.name)
    ensures StandsFor(g2, m, n.name) ==> m == n
  {
    hide Select, EnclosingSymbol, WellFormed, Unknown, NeedsStub, NeedsBarrel, Emission, PutAll, StubTable, BarrelTable,
         Served, IndexAll, IndexAllQualified;
    var ins: seq<SymbolNode>, stubs: map<string, SymbolId>, barrels: map<Path, SymbolId> :|
        ResolvedBy(g, src, ins, stubs, barrels, g2);
    MintedKinds(g.nodes, src, ins);
    assert MintedStub(g.nodes, src, n);
    var r :| r in src.refs && r.name == n.name && NeedsStub(g.nodes, src, r);
    UnknownNeedsStub(g.nodes, src, r);
    SelectMembers(ExternalNamed(n.name), g.nodes);
    forall l ensures !StandsFor(g, l, n.name) {
      assert l !in Select(ExternalNamed(n.name), g.nodes);
    }
    if StandsFor(g2, m, n.name) {
      assert m in ins;
      var i :| 0 <= i < |ins| && ins[i] == n;
      var j :| 0 <= j < |ins| && ins[j] == m;
    }
  }

  // ------------------------------------------------------------ backwards: where a new edge stems from

  /** A reference of this kind inside `k.from` means `k.to`, or names a package that `k.to` stands for. */
  ghost predicate StemsFrom(g: Graph, src: Sources, g2: Graph, kind: ReferenceKind, k: EdgeKey) {
    exists r :: r in src.refs && r.kind == kind && EnclosingSymbol(g.nodes, r.file, r.offset) == Some(k.from) &&
      ((exists n :: Means(g.nodes, src, k.from, r.file, r.name, n) && n.id == k.to) ||
       ((kind == RefImport || kind == RefImplements) && Unknown(g.nodes, src, r.name) &&
        exists n :: StandsFor(g2, n, r.name) && n.id == k.to))
  }

  /** A wildcard re-export of an exported symbol, from its own symbol or from the File node of its file. */
  ghost predicate StemsFromWildcard(g: Graph, src: Sources, g2: Graph, k: EdgeKey) {
    exists r :: r in src.refs && r.kind == RefReexportAll && (r.file, r.name) in src.specifiers &&
      (exists n :: ExportedFrom(g.nodes, n, src.specifiers[(r.file, r.name)]) && n.id == k.to) &&
      (EnclosingSymbol(g.nodes, r.file, r.offset) == Some(k.from) ||
       exists m :: m in g2.nodes && m.id == k.from && m.kind == File && m.file == r.file)
  }

  ghost predicate StemsFromNamedImport(g: Graph, src: Sources, k: EdgeKey) {
    exists ni :: ni in src.imports && (ni.file, ni.spec) in src.specifiers &&
      EnclosingSymbol(g.nodes, ni.file, ni.offset) == Some(k.from) &&
      exists n :: Bears(g.nodes, n, ni.imported) && n.file == src.specifiers[(ni.file, ni.spec)] && n.id == k.to
  }

  lemma WildcardEdgeStems(g: Graph, src: Sources, ins: seq<SymbolNode>, stubs: map<string, SymbolId>,
                          barrels: map<Path, SymbolId>, g2: Graph, q: RawReference, e: DirectEdge)
    requires ResolvedBy(g, src, ins, stubs, barrels, g2) && q in src.refs && q.kind == RefReexportAll
    requires e in RefEdges(g.nodes, stubs, barrels, src, q)
    ensures e.kind == Imports && StemsFromWildcard(g, src, g2, KeyOf(e))
  {
    hide Select, EnclosingSymbol, ResolvedBy, Links, IdsOf, ExportedFrom, Reexported;
    StoreOfOutcome(g, src, ins, stubs, barrels, g2);
    ReexportedMeaning(g.nodes, src, q);
    NothingReexported(g.nodes, src, q);
    var from := ReexportSource(g.nodes, barrels, q);
    LinksEndpoints(from.value, IdsOf(Reexported(g.nodes, src, q)), Imports, NameResolved, q.file);
    if EnclosingSymbol(g.nodes, q.file, q.offset).None? {
      BarrelIdsAreNew(g, ins, g2, barrels, q.file);
    }
  }

  lemma NamedEdgeStems(g: Graph, src: Sources, stubs: map<string, SymbolId>, barrels: map<Path, SymbolId>, g2: Graph,
                       q: RawReference, e: DirectEdge)
    requires UniqueIds(g.nodes) && Candidates(g.nodes, q.name) != []
    requires q in src.refs && q.kind != RefReexportAll && e in RefEdges(g.nodes, stubs, barrels, src, q)
    ensures e.kind == ToEdgeKind(q.kind) && StemsFrom(g, src, g2, q.kind, KeyOf(e))
  {
    hide Candidates, EnclosingSymbol, Links, IdsOf, PickTargets, ImportTarget, NeedsStub, Means, Unknown, StandsFor,
         Evaluate, ToEdgeKind;
    var s := EnclosingSymbol(g.nodes, q.file, q.offset).value;
    var picked := PickTargets(Candidates(g.nodes, q.name), s, q.file, ImportTarget(src, src.imports, q.file, q.name));
    LinksEndpoints(s, picked.0, ToEdgeKind(q.kind), picked.1, q.file);
    PickedIffMeant(g.nodes, src, s, q.file, q.name, e.to);
  }

  lemma StandInEdgeStems(g: Graph, src: Sources, stubs: map<string, SymbolId>, barrels: map<Path, SymbolId>, g2: Graph,
                         q: RawReference, e: DirectEdge)
    requires StubTable(g2.nodes, stubs) && Candidates(g.nodes, q.name) == []
    requires q in src.refs && q.kind != RefReexportAll && e in RefEdges(g.nodes, stubs, barrels, src, q)
    ensures e.kind == ToEdgeKind(q.kind) && StemsFrom(g, src, g2, q.kind, KeyOf(e))
  {
    hide Candidates, EnclosingSymbol, Links, IdsOf, PickTargets, ImportTarget, NeedsStub, Means, Unknown, StandsFor,
         Evaluate, ToEdgeKind, StubTable;
    UnknownNeedsStub(g.nodes, src, q);
    StubIsStandIn(g2, stubs, q.name);
  }

  lemma ReferenceEdgeStems(g: Graph, src: Sources, ins: seq<SymbolNode>, stubs: map<string, SymbolId>,
                           barrels: map<Path, SymbolId>, g2: Graph, q: RawReference, e: DirectEdge)
    requires UniqueIds(g.nodes) && ResolvedBy(g, src, ins, stubs, barrels, g2)
    requires q in src.refs && q.kind != RefReexportAll && e in RefEdges(g.nodes, stubs, barrels, src, q)
    ensures e.kind == ToEdgeKind(q.kind) && StemsFrom(g, src, g2, q.kind, KeyOf(e))
  {
    hide Candidates, RefEdges, ResolvedBy, StemsFrom, ToEdgeKind, StubTable, BarrelTable, Grows, Minted, Served;
    StoreOfOutcome(g, src, ins, stubs, barrels, g2);
    if Candidates(g.nodes, q.name) != [] {
      NamedEdgeStems(g, src, stubs, barrels, g2, q, e);
    } else {
      StandInEdgeStems(g, src, stubs, barrels, g2, q, e);
    }
  }

  lemma NamedImportEdgeStems(g: Graph, src: Sources, ni: NamedImport, e: DirectEdge)
    requires ni in src.imports && e in ImportEdges(g.nodes, src, ni)
    ensures e.kind == Imports && StemsFromNamedImport(g, src, KeyOf(e))
  {
    hide Select, EnclosingSymbol, Links, IdsOf;
    var target := src.specifiers[(ni.file, ni.spec)];
    var targets := Select(DefinedAt(target), Candidates(g.nodes, ni.imported));
    SelectMembers(Definition(ni.imported), g.nodes);
    SelectMembers(DefinedAt(target), Candidates(g.nodes, ni.imported));
    IdsOfMembers(targets);
    LinksEndpoints(EnclosingSymbol(g.nodes, ni.file, ni.offset).value, IdsOf(targets), Imports, NameResolved, ni.file);
    var n :| n in targets && n.id == e.to;
    assert Bears(g.nodes, n, ni.imported);
  }

  /**
    Nothing else is linked: a new Calls edge stems from a call, Extends from an extends clause,
    Implements from an implements clause, References from the use of a type or value, and Imports from
    an import, a wildcard re-export or a named import.  There are no new edges of other kinds.
   */
  lemma NewEdgesStem(g: Graph, src: Sources, g2: Graph, k: EdgeKey)
    requires WellFormed(g) && Resolved(g, src, g2) && k in g2.store.seen && k !in g.store.seen
    ensures k.kind == Calls ==> StemsFrom(g, src, g2, RefCall, k)
    ensures k.kind == EdgeKind.Extends ==> StemsFrom(g, src, g2, RefExtends, k)
    ensures k.kind == EdgeKind.Implements ==> StemsFrom(g, src, g2, RefImplements, k)
    ensures k.kind == References ==>
              StemsFrom(g, src, g2, RefTypeUse, k) || StemsFrom(g, src, g2, RefValue, k)
    ensures k.kind == Imports ==>
              StemsFrom(g, src, g2, RefImport, k) || StemsFromWildcard(g, src, g2, k) || StemsFromNamedImport(g, src, k)
    ensures k.kind in {Calls, EdgeKind.Extends, EdgeKind.Implements, References, Imports}
  {
    hide WellFormed, StemsFrom, StemsFromWildcard, StemsFromNamedImport, ResolvedBy, Emission, PutAll, Grows, Minted,
         StubTable, BarrelTable, Served;
    WellFormedParts(g);
    var ins: seq<SymbolNode>, stubs: map<string, SymbolId>, barrels: map<Path, SymbolId> :|
        ResolvedBy(g, src, ins, stubs, barrels, g2);
    StoreOfOutcome(g, src, ins, stubs, barrels, g2);
    PutAllEffect(g.store, Emission(g.nodes, stubs, barrels, src));
    var e :| e in Emission(g.nodes, stubs, barrels, src) && KeyOf(e) == k;
    var from := EmittedStems(g, src, ins, stubs, barrels, g2, e);
  }

  /** What an emitted edge stems from: a reference of some kind, or a named import. */
  lemma EmittedStems(g: Graph, src: Sources, ins: seq<SymbolNode>, stubs: map<string, SymbolId>,
                     barrels: map<Path, SymbolId>, g2: Graph, e: DirectEdge) returns (from: Option<ReferenceKind>)
    requires UniqueIds(g.nodes) && ResolvedBy(g, src, ins, stubs, barrels, g2)
    requires e in Emission(g.nodes, stubs, barrels, src)
    ensures from.None? ==> e.kind == Imports && StemsFromNamedImport(g, src, KeyOf(e))
    ensures from == Some(RefReexportAll) ==> e.kind == Imports && StemsFromWildcard(g, src, g2, KeyOf(e))
    ensures from.Some? && from.value != RefReexportAll ==>
              e.kind == ToEdgeKind(from.value) && StemsFrom(g, src, g2, from.value, KeyOf(e))
  {
    hide ResolvedBy, RefEdges, ImportEdges, StemsFrom, StemsFromWildcard, StemsFromNamedImport, Emission, ToEdgeKind;
    EmittedBy(g, stubs, barrels, src, e);
    if q :| q in src.refs && e in RefEdges(g.nodes, stubs, barrels, src, q) {
      from := Some(q.kind);
      if q.kind == RefReexportAll {
        WildcardEdgeStems(g, src, ins, stubs, barrels, g2, q, e);
      } else {
        ReferenceEdgeStems(g, src, ins, stubs, barrels, g2, q, e);
      }
    } else {
      from := None;
      var ni :| ni in src.imports && e in ImportEdges(g.nodes, src, ni);
      NamedImportEdgeStems(g, src, ni, e);
    }
  }

  // ------------------------------------------------------------ what new edges are worth

  predicate Fresh(e: DirectEdge) {
    e.createdAtEpoch == 0 && e.staleEvidenceCount == 0
  }

  /** The confidence of a resolved reference by its kind; names matched by syntax alone are worth less. */
  predicate Scored(e: DirectEdge) {
    match e.origin
    case NameResolved =>
      e.confidence == if e.kind == Imports then 0.8075 else if e.kind == References then 0.76 else 0.855
    case SyntaxMatched =>
      e.confidence == if e.kind == Imports then 0.7225 else if e.kind == References then 0.68 else 0.765
    case _ => false
  }

  lemma {:induction false} LinksScored(srcId: SymbolId, targets: seq<SymbolId>, kind: EdgeKind, origin: AnalysisOrigin,
                                       file: Path)
    requires kind in {Calls, EdgeKind.Extends, EdgeKind.Implements, References, Imports}
    requires origin == NameResolved || origin == SyntaxMatched
    ensures forall e :: e in Links(srcId, targets, kind, origin, file) ==> Fresh(e) && Scored(e)
  {
    if targets != [] {
      LinksScored(srcId, targets[1..], kind, origin, file);
    }
  }

  lemma PickedOrigin(candidates: seq<SymbolNode>, srcId: SymbolId, file: Path, target: Option<Path>)
    ensures var origin := PickTargets(candidates, srcId, file, target).1;
            origin == NameResolved || origin == SyntaxMatched
  {
    hide Select;
  }

  lemma StubEdgeScored(srcId: SymbolId, id: SymbolId, kind: EdgeKind, file: Path)
    requires kind in {Calls, EdgeKind.Extends, EdgeKind.Implements, References, Imports}
    ensures var e := NewEdge(srcId, id, kind, SyntaxMatched, Evaluate(kind, SyntaxMatched), file); Fresh(e) && Scored(e)
  {
  }

  lemma RefEdgesScored(a: Graph, stubs: map<string, SymbolId>, barrels: map<Path, SymbolId>, src: Sources,
                       q: RawReference)
    ensures forall e :: e in RefEdges(a.nodes, stubs, barrels, src, q) ==> Fresh(e) && Scored(e)
  {
    hide Candidates, EnclosingSymbol, PickTargets, Links, IdsOf, ImportTarget, NeedsStub, Evaluate, Scored, Fresh,
         Reexported;
    if q.kind.RefReexportAll? {
      if ReexportSource(a.nodes, barrels, q).Some? {
        LinksScored(ReexportSource(a.nodes, barrels, q).value, IdsOf(Reexported(a.nodes, src, q)), Imports,
                    NameResolved, q.file);
      }
    } else if EnclosingSymbol(a.nodes, q.file, q.offset).Some? {
      var s, target := EnclosingSymbol(a.nodes, q.file, q.offset).value, ImportTarget(src, src.imports, q.file, q.name);
      var picked := PickTargets(Candidates(a.nodes, q.name), s, q.file, target);
      PickedOrigin(Candidates(a.nodes, q.name), s, q.file, target);
      LinksScored(s, picked.0, ToEdgeKind(q.kind), picked.1, q.file);
      if q.name in stubs {
        StubEdgeScored(s, stubs[q.name], ToEdgeKind(q.kind), q.file);
      }
    }
  }

  lemma ImportEdgesScored(a: Graph, src: Sources, ni: NamedImport)
    ensures forall e :: e in ImportEdges(a.nodes, src, ni) ==> Fresh(e) && Scored(e)
  {
    hide Select, EnclosingSymbol, Links, IdsOf, Scored, Fresh;
    if EnclosingSymbol(a.nodes, ni.file, ni.offset).Some? && (ni.file, ni.spec) in src.specifiers {
      LinksScored(EnclosingSymbol(a.nodes, ni.file, ni.offset).value,
                  IdsOf(Select(DefinedAt(src.specifiers[(ni.file, ni.spec)]), Candidates(a.nodes, ni.imported))),
                  Imports, NameResolved, ni.file);
    }
  }

  /** New edges start fresh, with the confidence of their kind and origin. */
  lemma NewEdgesScored(g: Graph, src: Sources, g2: Graph, k: EdgeKey)
    requires WellFormed(g) && Resolved(g, src, g2) && k in g2.store.edges && k !in g.store.edges
    ensures Fresh(g2.store.edges[k]) && Scored(g2.store.edges[k])
  {
    hide ResolvedBy, WellFormed, RefEdges, ImportEdges, Fresh, Scored;
    var ins: seq<SymbolNode>, stubs: map<string, SymbolId>, barrels: map<Path, SymbolId> :|
        ResolvedBy(g, src, ins, stubs, barrels, g2);
    StoreOfOutcome(g, src, ins, stubs, barrels, g2);
    PutAllEffect(g.store, Emission(g.nodes, stubs, barrels, src));
    var e := g2.store.edges[k];
    EmittedBy(g, stubs, barrels, src, e);
    if q :| q in src.refs && e in RefEdges(g.nodes, stubs, barrels, src, q) {
      RefEdgesScored(g, stubs, barrels, src, q);
    } else {
      var ni :| ni in src.imports && e in ImportEdges(g.nodes, src, ni);
      ImportEdgesScored(g, src, ni);
    }
  }

  // ------------------------------------------------------------ new nodes

  /** A wildcard re-export in the file has something to re-export and no symbol to do it from. */
  ghost predicate Unattached(g: Graph, src: Sources, f: Path) {
    exists r :: r in src.refs && r.kind == RefReexportAll && r.file == f && (r.file, r.name) in src.specifiers &&
      EnclosingSymbol(g.nodes, r.file, r.offset).None? &&
      exists n :: ExportedFrom(g.nodes, n, src.specifiers[(r.file, r.name)])
  }

  /** A new node stands for a package, or is the one File node of such a file, from its first byte to its last. */
  lemma NewNodes(g: Graph, src: Sources, g2: Graph, n: SymbolNode, m: SymbolNode)
    requires WellFormed(g) && Resolved(g, src, g2) && n in g2.nodes && n !in g.nodes
    ensures n.kind == ExternalPackage || n.kind == File
    ensures n.visibility == Visibility.Unknown && n.qualifiedName == n.name && n.spanStart == 0
    ensures n.kind == ExternalPackage ==> n.file == [] && n.spanEnd == 0
    ensures n.kind == File ==>
              && Unattached(g, src, n.file)
              && n.spanEnd == (if n.file in src.lengths then src.lengths[n.file] % 4294967296 else 0)
              && n.name == (if n.file == [] || n.file[|n.file| - 1] == ".." then "module" else n.file[|n.file| - 1])
              && (m in g2.nodes && m !in g.nodes && m.kind == File && m.file == n.file ==> m == n)
  {
    hide Select, EnclosingSymbol, NameIndexed, QualifiedIndexed, StoreOk, NeedsStub, Emission, PutAll, StubTable,
         BarrelTable, Served, IndexAll, IndexAllQualified, Reexported, ExportedFrom;
    var ins: seq<SymbolNode>, stubs: map<string, SymbolId>, barrels: map<Path, SymbolId> :|
        ResolvedBy(g, src, ins, stubs, barrels, g2);
    MintedKinds(g.nodes, src, ins);
    assert n in ins;
    if n.kind == File {
      assert MintedBarrel(g.nodes, src, n);
      var r :| r in src.refs && r.file == n.file && NeedsBarrel(g.nodes, src, r);
      SomethingReexported(g.nodes, src, r);
      if m in g2.nodes && m !in g.nodes && m.kind == File && m.file == n.file {
        var i :| 0 <= i < |ins| && ins[i] == n;
        var j :| 0 <= j < |ins| && ins[j] == m;
      }
    }
  }

  lemma SomethingReexported(ns: seq<SymbolNode>, src: Sources, r: RawReference)
    requires Reexported(ns, src, r) != []
    ensures (r.file, r.name) in src.specifiers && exists n :: ExportedFrom(ns, n, src.specifiers[(r.file, r.name)])
  {
    hide Select, ExportedFrom;
    ReexportedMeaning(ns, src, r);
    var id := IdsOf(Reexported(ns, src, r))[0];
    assert id in IdsOf(Reexported(ns, src, r));
  }
}
