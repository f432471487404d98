/**
  How raw references become edges: candidate ranking, re-export expansion, import bindings.
  Everything here is a function of the node order the pass started from and of the stub and
  barrel nodes it has minted.
 */
module Resolution {
  import opened Symbols
  import opened NodeQueries
  import opened Enclosing

  datatype ReferenceKind =
    RefCall | RefImport | RefExtends | RefImplements | RefTypeUse | RefValue | RefReexportAll

  function ToEdgeKind(k: ReferenceKind): EdgeKind {
    match k
    case RefCall => Calls
    case RefImport => Imports
    case RefExtends => EdgeKind.Extends
    case RefImplements => EdgeKind.Implements
    case RefTypeUse => References
    case RefValue => References
    case RefReexportAll => Imports
  }

  datatype RawReference = RawReference(file: Path, name: string, kind: ReferenceKind, offset: u32)

  datatype NamedImport = NamedImport(file: Path, imported: string, local: string, spec: string, offset: u32)

  /**
    What one source tree yields: the references and named imports of every file, the length of
    every file, and the file each module specifier resolves to.
   */
  datatype Sources = Sources(
    refs: seq<RawReference>,
    imports: seq<NamedImport>,
    lengths: map<Path, nat>,
    specifiers: map<(Path, string), Path>
  )

  function ResolveSpecifier(src: Sources, file: Path, spec: string): Option<Path> {
    if (file, spec) in src.specifiers then Some(src.specifiers[(file, spec)]) else None
  }

  /** A file stem or path component of the project; such a name is never an external package. */
  predicate IsInternalName(src: Sources, name: string) {
    exists p :: p in src.lengths.Keys && (name in p || FileStem(p) == Some(name))
  }

  /** The file `name` is imported from in `file`; a later binding replaces an earlier one. */
  function ImportTarget(src: Sources, imports: seq<NamedImport>, file: Path, name: string): Option<Path> {
    if imports == [] then None
    else
      var ni := imports[|imports| - 1];
      if ni.file == file && ni.local == name && ResolveSpecifier(src, ni.file, ni.spec).Some?
      then ResolveSpecifier(src, ni.file, ni.spec)
      else ImportTarget(src, imports[..|imports| - 1], file, name)
  }

  function Candidates(ns: seq<SymbolNode>, name: string): seq<SymbolNode> {
    Select(Definition(name), ns)
  }

  function PickTargets(candidates: seq<SymbolNode>, srcId: SymbolId, refFile: Path, target: Option<Path>)
    : (seq<SymbolId>, AnalysisOrigin)
  {
    var others := Select(Except(srcId), candidates);
    var sameFile := Select(DefinedAt(refFile), others);
    if sameFile != [] then (IdsOf(sameFile), NameResolved)
    else
      var sameDir := Select(InDirectory(Parent(refFile)), others);
      if |sameDir| == 1 then (IdsOf(sameDir), NameResolved)
      else
        var qualified := Select(Qualified, others);
        if |qualified| == 1 then (IdsOf(qualified), NameResolved)
        else
          var imported := if target.Some? then Select(DefinedAt(target.value), others) else [];
          if imported != [] then (IdsOf(imported), NameResolved)
          else if |others| == 1 then (IdsOf(others), SyntaxMatched)
          else ([], SyntaxMatched)
  }

  ghost predicate IsCandidate(candidates: seq<SymbolNode>, srcId: SymbolId, id: SymbolId) {
    id != srcId && exists n :: n in candidates && n.id == id
  }

  /** Every chosen target is a candidate other than the source. */
  lemma PickTargetsAreCandidates(candidates: seq<SymbolNode>, srcId: SymbolId, refFile: Path, target: Option<Path>)
    ensures forall id :: id in PickTargets(candidates, srcId, refFile, target).0 ==> IsCandidate(candidates, srcId, id)
  {
    hide Select;
    var others := Select(Except(srcId), candidates);
    SelectMembers(Except(srcId), candidates);
    IdsOfMembers(others);
    IdsOfSelected(DefinedAt(refFile), others);
    IdsOfSelected(InDirectory(Parent(refFile)), others);
    IdsOfSelected(Qualified, others);
    if target.Some? {
      IdsOfSelected(DefinedAt(target.value), others);
    }
  }

  /** When the referencing file defines the name itself, those definitions and no others are chosen. */
  lemma SameFileWins(candidates: seq<SymbolNode>, srcId: SymbolId, refFile: Path, target: Option<Path>)
    requires exists n :: n in candidates && n.id != srcId && n.file == refFile
    ensures PickTargets(candidates, srcId, refFile, target).1 == NameResolved
    ensures forall id :: id in PickTargets(candidates, srcId, refFile, target).0 <==>
              exists n :: n in candidates && n.id == id && id != srcId && n.file == refFile
  {
    hide Select;
    var others := Select(Except(srcId), candidates);
    SelectMembers(Except(srcId), candidates);
    SelectMembers(DefinedAt(refFile), others);
    IdsOfSelected(DefinedAt(refFile), others);
  }

  ghost predicate DefinedIn(candidates: seq<SymbolNode>, ids: seq<SymbolId>, file: Path) {
    forall id :: id in ids ==> exists n :: n in candidates && n.id == id && n.file == file
  }

  /**
    No noisy fan-out: several targets at once only inside one file, the referencing file or the
    file the name is imported from; the low-confidence tier links only a globally unique candidate.
   */
  lemma NoNoisyFanOut(candidates: seq<SymbolNode>, srcId: SymbolId, refFile: Path, target: Option<Path>)
    ensures var r := PickTargets(candidates, srcId, refFile, target);
            (|r.0| > 1 ==>
               r.1 == NameResolved &&
               (DefinedIn(candidates, r.0, refFile) || (target.Some? && DefinedIn(candidates, r.0, target.value))))
            && (r.0 != [] && r.1 == SyntaxMatched ==> |Select(Except(srcId), candidates)| == 1)
  {
    hide Select;
    var others := Select(Except(srcId), candidates);
    SelectMembers(Except(srcId), candidates);
    IdsOfSelected(DefinedAt(refFile), others);
    if target.Some? {
      IdsOfSelected(DefinedAt(target.value), others);
    }
  }

  /** `n` is the only one of `ns` that `q` selects. */
  ghost predicate Sole(q: NodeQuery, ns: seq<SymbolNode>, n: SymbolNode) {
    n in ns && Matches(q, n) && forall m :: m in ns && Matches(q, m) ==> m == n
  }

  lemma SoleIsSelected(q: NodeQuery, ns: seq<SymbolNode>)
    requires UniqueIds(ns)
    ensures |Select(q, ns)| == 1 <==> exists n :: Sole(q, ns, n)
    ensures forall n :: Sole(q, ns, n) ==> Select(q, ns) == [n]
  {
    hide Select;
    var chosen := Select(q, ns);
    SelectMembers(q, ns);
    SelectUnique(q, ns);
    if |chosen| == 1 {
      assert chosen[0] in chosen;
      assert forall m :: m in chosen ==> m == chosen[0];
      assert Sole(q, ns, chosen[0]);
    }
    forall n | Sole(q, ns, n) ensures chosen == [n] {
      assert n in chosen;
      forall i | 0 <= i < |chosen| ensures chosen[i] == n {
        assert chosen[i] in chosen;
      }
      assert |chosen| > 1 ==> chosen[0].id != chosen[1].id;
    }
  }

  /**
    Without a definition in the referencing file: the sole candidate of its directory, else the sole
    candidate with a qualified name, else those of the file the name is imported from, else the sole
    candidate at all, at the lower confidence; an ambiguous name links nothing.
   */
  lemma TiersInOrder(candidates: seq<SymbolNode>, srcId: SymbolId, refFile: Path, target: Option<Path>)
    requires UniqueIds(candidates)
    requires forall n :: n in candidates && n.id != srcId ==> n.file != refFile
    ensures var others := Select(Except(srcId), candidates);
            var r := PickTargets(candidates, srcId, refFile, target);
            var near := InDirectory(Parent(refFile));
            if exists n :: Sole(near, others, n) then
              r.1 == NameResolved && exists n :: Sole(near, others, n) && r.0 == [n.id]
            else if exists n :: Sole(Qualified, others, n) then
              r.1 == NameResolved && exists n :: Sole(Qualified, others, n) && r.0 == [n.id]
            else if target.Some? && exists n :: n in others && n.file == target.value then
              r.1 == NameResolved && forall id :: id in r.0 <==>
                exists n :: n in others && n.id == id && n.file == target.value
            else r.1 == SyntaxMatched && if |others| == 1 then r.0 == [others[0].id] else r.0 == []
  {
    hide Select;
    var others := Select(Except(srcId), candidates);
    var near := InDirectory(Parent(refFile));
    SelectMembers(Except(srcId), candidates);
    SelectUnique(Except(srcId), candidates);
    SelectMembers(DefinedAt(refFile), others);
    NoMembers(Select(DefinedAt(refFile), others));
    SoleIsSelected(near, others);
    SoleIsSelected(Qualified, others);
    if target.Some? {
      SelectMembers(DefinedAt(target.value), others);
      IdsOfSelected(DefinedAt(target.value), others);
      if forall n :: n in others ==> n.file != target.value {
        NoMembers(Select(DefinedAt(target.value), others));
      }
    }
  }

  // ------------------------------------------------------------ emitted edges

  function Links(srcId: SymbolId, targets: seq<SymbolId>, kind: EdgeKind, origin: AnalysisOrigin,
                 file: Path): seq<DirectEdge> {
    if targets == [] then []
    else
      (if targets[0] == srcId then [] else [NewEdge(srcId, targets[0], kind, origin, Evaluate(kind, origin), file)])
      + Links(srcId, targets[1..], kind, origin, file)
  }

  /** The exported symbols of the file a wildcard re-export names. */
  function Reexported(ns: seq<SymbolNode>, src: Sources, r: RawReference): seq<SymbolNode> {
    match ResolveSpecifier(src, r.file, r.name)
    case None => []
    case Some(target) => Select(PublicAt(target), ns)
  }

  /** A re-export with something to re-export but no symbol of its file to attach to. */
  predicate NeedsBarrel(ns: seq<SymbolNode>, src: Sources, r: RawReference) {
    r.kind.RefReexportAll? && Reexported(ns, src, r) != [] && EnclosingSymbol(ns, r.file, r.offset).None?
  }

  /** An import or implements reference to a name the project neither defines nor uses as a module name. */
  predicate NeedsStub(ns: seq<SymbolNode>, src: Sources, r: RawReference) {
    && (r.kind.RefImport? || r.kind.RefImplements?)
    && EnclosingSymbol(ns, r.file, r.offset).Some?
    && Candidates(ns, r.name) == []
    && !IsInternalName(src, r.name)
  }

  function ReexportSource(ns: seq<SymbolNode>, barrels: map<Path, SymbolId>, r: RawReference): Option<SymbolId> {
    match EnclosingSymbol(ns, r.file, r.offset)
    case Some(id) => Some(id)
    case None => if r.file in barrels then Some(barrels[r.file]) else None
  }

  function RefEdges(ns: seq<SymbolNode>, stubs: map<string, SymbolId>, barrels: map<Path, SymbolId>,
                    src: Sources, r: RawReference): seq<DirectEdge>
  {
    if r.kind.RefReexportAll? then
      if Reexported(ns, src, r) == [] then []
      else match ReexportSource(ns, barrels, r)
           case None => []
           case Some(srcId) => Links(srcId, IdsOf(Reexported(ns, src, r)), Imports, NameResolved, r.file)
    else
      match EnclosingSymbol(ns, r.file, r.offset)
      case None => []
      case Some(srcId) =>
        if Candidates(ns, r.name) != [] then
          var picked := PickTargets(Candidates(ns, r.name), srcId, r.file,
                                    ImportTarget(src, src.imports, r.file, r.name));
          Links(srcId, picked.0, ToEdgeKind(r.kind), picked.1, r.file)
        else if NeedsStub(ns, src, r) && r.name in stubs then
          [NewEdge(srcId, stubs[r.name], ToEdgeKind(r.kind), SyntaxMatched, Evaluate(ToEdgeKind(r.kind), SyntaxMatched),
                   r.file)]
        else []
  }

  function ImportEdges(ns: seq<SymbolNode>, src: Sources, ni: NamedImport): seq<DirectEdge> {
    match ResolveSpecifier(src, ni.file, ni.spec)
    case None => []
    case Some(target) =>
      var targets := Select(DefinedAt(target), Candidates(ns, ni.imported));
      if targets == [] then []
      else match EnclosingSymbol(ns, ni.file, ni.offset)
           case None => []
           case Some(srcId) => Links(srcId, IdsOf(targets), Imports, NameResolved, ni.file)
  }

  function AllRefEdges(ns: seq<SymbolNode>, stubs: map<string, SymbolId>, barrels: map<Path, SymbolId>,
                       src: Sources, refs: seq<RawReference>): seq<DirectEdge>
  {
    if refs == [] then []
    else AllRefEdges(ns, stubs, barrels, src, refs[..|refs| - 1]) + RefEdges(ns, stubs, barrels, src, refs[|refs| - 1])
  }

  function AllImportEdges(ns: seq<SymbolNode>, src: Sources, imports: seq<NamedImport>): seq<DirectEdge> {
    if imports == [] then []
    else AllImportEdges(ns, src, imports[..|imports| - 1]) + ImportEdges(ns, src, imports[|imports| - 1])
  }

  /** Without any reference the pass returns before it looks at the imports. */
  function Emission(ns: seq<SymbolNode>, stubs: map<string, SymbolId>, barrels: map<Path, SymbolId>,
                    src: Sources): seq<DirectEdge> {
    if src.refs == [] then []
    else AllRefEdges(ns, stubs, barrels, src, src.refs) + AllImportEdges(ns, src, src.imports)
  }

  // ------------------------------------------------------------ stability of the emission

  ghost predicate Served(ns: seq<SymbolNode>, stubs: map<string, SymbolId>, barrels: map<Path, SymbolId>,
                         src: Sources, refs: seq<RawReference>)
  {
    forall r :: r in refs ==>
      (NeedsStub(ns, src, r) ==> r.name in stubs) && (NeedsBarrel(ns, src, r) ==> r.file in barrels)
  }

  ghost predicate Agree<K, V>(small: map<K, V>, big: map<K, V>) {
    forall k :: k in small ==> k in big && big[k] == small[k]
  }

  lemma {:induction false} AllRefEdgesStable(ns: seq<SymbolNode>, stubs: map<string, SymbolId>,
                                             barrels: map<Path, SymbolId>, stubs2: map<string, SymbolId>,
                                             barrels2: map<Path, SymbolId>, src: Sources, refs: seq<RawReference>)
    requires Served(ns, stubs, barrels, src, refs)
    requires Agree(stubs, stubs2) && Agree(barrels, barrels2)
    ensures Served(ns, stubs2, barrels2, src, refs)
    ensures AllRefEdges(ns, stubs2, barrels2, src, refs) == AllRefEdges(ns, stubs, barrels, src, refs)
  {
    if refs != [] {
      var rest, r := refs[..|refs| - 1], refs[|refs| - 1];
      assert refs == rest + [r];
      AllRefEdgesStable(ns, stubs, barrels, stubs2, barrels2, src, rest);
      RefEdgesStable(ns, stubs, barrels, stubs2, barrels2, src, r);
    }
  }

  lemma RefEdgesStable(ns: seq<SymbolNode>, stubs: map<string, SymbolId>, barrels: map<Path, SymbolId>,
                       stubs2: map<string, SymbolId>, barrels2: map<Path, SymbolId>, src: Sources, r: RawReference)
    requires NeedsStub(ns, src, r) ==> r.name in stubs
    requires NeedsBarrel(ns, src, r) ==> r.file in barrels
    requires Agree(stubs, stubs2) && Agree(barrels, barrels2)
    ensures RefEdges(ns, stubs2, barrels2, src, r) == RefEdges(ns, stubs, barrels, src, r)
  {
    hide Select, EnclosingSymbol, PickTargets, Links, IsInternalName, IdsOf;
  }

  /** What the emission reads of the node order. */
  ghost predicate SameView(ns: seq<SymbolNode>, ns2: seq<SymbolNode>) {
    && (forall name :: Select(Definition(name), ns2) == Select(Definition(name), ns))
    && (forall p :: Select(PublicAt(p), ns2) == Select(PublicAt(p), ns))
    && (forall p :: p != [] ==> Select(DefinedAt(p), ns2) == Select(DefinedAt(p), ns))
  }

  /** Reference and import sites are in real files. */
  ghost predicate Anchored(src: Sources) {
    && (forall r :: r in src.refs ==> r.file != [])
    && (forall ni :: ni in src.imports ==> ni.file != [])
  }

  lemma SameViewNeeds(ns: seq<SymbolNode>, ns2: seq<SymbolNode>, src: Sources, r: RawReference)
    requires SameView(ns, ns2) && r.file != []
    ensures EnclosingSymbol(ns2, r.file, r.offset) == EnclosingSymbol(ns, r.file, r.offset)
    ensures NeedsStub(ns2, src, r) == NeedsStub(ns, src, r)
    ensures NeedsBarrel(ns2, src, r) == NeedsBarrel(ns, src, r)
    ensures Reexported(ns2, src, r) == Reexported(ns, src, r)
  {
    hide Select, EnclosingIn, SortByStart, ToSpans, IsInternalName;
  }

  lemma SameViewRefEdges(ns: seq<SymbolNode>, ns2: seq<SymbolNode>, stubs: map<string, SymbolId>,
                         barrels: map<Path, SymbolId>, src: Sources, r: RawReference)
    requires SameView(ns, ns2) && r.file != []
    ensures RefEdges(ns2, stubs, barrels, src, r) == RefEdges(ns, stubs, barrels, src, r)
  {
    hide Select, EnclosingSymbol, PickTargets, Links, IsInternalName, IdsOf, Reexported, NeedsStub, ImportTarget;
    SameViewNeeds(ns, ns2, src, r);
  }

  lemma SameViewImportEdges(ns: seq<SymbolNode>, ns2: seq<SymbolNode>, src: Sources, ni: NamedImport)
    requires SameView(ns, ns2) && ni.file != []
    ensures ImportEdges(ns2, src, ni) == ImportEdges(ns, src, ni)
  {
    hide Select, EnclosingIn, SortByStart, ToSpans, Links, IdsOf;
    assert EnclosingSymbol(ns2, ni.file, ni.offset) == EnclosingSymbol(ns, ni.file, ni.offset);
  }

  lemma {:induction false} SameViewAllRefs(ns: seq<SymbolNode>, ns2: seq<SymbolNode>, stubs: map<string, SymbolId>,
                                           barrels: map<Path, SymbolId>, src: Sources, refs: seq<RawReference>)
    requires SameView(ns, ns2) && forall r :: r in refs ==> r.file != []
    ensures AllRefEdges(ns2, stubs, barrels, src, refs) == AllRefEdges(ns, stubs, barrels, src, refs)
  {
    if refs != [] {
      var rest, r := refs[..|refs| - 1], refs[|refs| - 1];
      assert refs == rest + [r];
      SameViewAllRefs(ns, ns2, stubs, barrels, src, rest);
      SameViewRefEdges(ns, ns2, stubs, barrels, src, r);
    }
  }

  lemma {:induction false} SameViewAllImports(ns: seq<SymbolNode>, ns2: seq<SymbolNode>, src: Sources,
                                              imports: seq<NamedImport>)
    requires SameView(ns, ns2) && forall ni :: ni in imports ==> ni.file != []
    ensures AllImportEdges(ns2, src, imports) == AllImportEdges(ns, src, imports)
  {
    if imports != [] {
      var rest, ni := imports[..|imports| - 1], imports[|imports| - 1];
      assert imports == rest + [ni];
      SameViewAllImports(ns, ns2, src, rest);
      SameViewImportEdges(ns, ns2, src, ni);
    }
  }

  lemma SameViewEmission(ns: seq<SymbolNode>, ns2: seq<SymbolNode>, stubs: map<string, SymbolId>,
                         barrels: map<Path, SymbolId>, src: Sources)
    requires SameView(ns, ns2) && Anchored(src)
    ensures Emission(ns2, stubs, barrels, src) == Emission(ns, stubs, barrels, src)
  {
    SameViewAllRefs(ns, ns2, stubs, barrels, src, src.refs);
    SameViewAllImports(ns, ns2, src, src.imports);
  }

  // ------------------------------------------------------------ endpoints

  lemma {:induction false} LinksEndpoints(srcId: SymbolId, targets: seq<SymbolId>, kind: EdgeKind,
                                          origin: AnalysisOrigin, file: Path)
    ensures forall e :: e in Links(srcId, targets, kind, origin, file) ==>
              e.from == srcId && e.to in targets && e.to != srcId && e.kind == kind && e.origin == origin &&
                e.evidenceFile == file
  {
    if targets != [] {
      LinksEndpoints(srcId, targets[1..], kind, origin, file);
      assert targets == [targets[0]] + targets[1..];
    }
  }
}
