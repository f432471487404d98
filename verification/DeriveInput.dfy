/**
  One run of the derive stages against a second one, decided before the first: which references and
  imports of a file without a File node the new one comes to enclose, and what they would link.
 */
module DeriveInput {
  import opened Symbols
  import opened NodeQueries
  import opened SymbolGraphs
  import opened StructuralPasses
  import opened Enclosing
  import opened Resolution
  import opened ResolvePasses
  import opened DeriveStages
  import opened DeriveFixpoint

  // ------------------------------------------------------------ a span put before all others

  /**
    A span from 0 to `end`, put before spans that start later, encloses the offset: it covers it and is
    no wider than the narrowest that does, or nothing else covers it and none starts before it either.
   */
  predicate Overtakes(end: u32, s: seq<Span>, offset: u32) {
    match Narrowest(s, offset)
    case Some(y) => offset <= end && end <= y.end - y.start
    case None => offset <= end || LastStarting(s, offset).None?
  }

  lemma {:induction false} LastStartingAfter(x: Span, s: seq<Span>, offset: u32)
    requires x.start == 0
    ensures LastStarting([x] + s, offset) ==
            if LastStarting(s, offset).Some? then LastStarting(s, offset) else Some(x)
  {
    if s == [] {
      assert [x] + s == [x] && [x][..0] == [];
    } else {
      assert ([x] + s)[..|s|] == [x] + s[..|s| - 1];
      LastStartingAfter(x, s[..|s| - 1], offset);
    }
  }

  lemma FirstSpanEncloses(x: Span, s: seq<Span>, offset: u32)
    requires x.start == 0
    ensures EnclosingIn([x] + s, offset) == if Overtakes(x.end, s, offset) then Some(x.id) else EnclosingIn(s, offset)
  {
    LastStartingAfter(x, s, offset);
    assert ([x] + s)[1..] == s;
  }

  lemma {:induction false} SortedFirst(before: seq<Span>, x: Span, after: seq<Span>)
    requires forall y :: y in before || y in after ==> x.start < y.start
    ensures SortByStart(before + [x] + after) == [x] + SortByStart(before + after)
  {
    if before == [] {
      assert before + [x] + after == [x] + after && before + after == after;
      assert ([x] + after)[1..] == after;
      SortByStartSorts(after);
      if after != [] {
        assert SortByStart(after) != [] ==> SortByStart(after)[0] in SortByStart(after);
      }
    } else {
      assert (before + [x] + after)[1..] == before[1..] + [x] + after;
      assert (before + after)[1..] == before[1..] + after;
      SortedFirst(before[1..], x, after);
      var rest := SortByStart(before[1..] + after);
      assert ([x] + rest)[1..] == rest;
      assert before[0] in before;
    }
  }

  lemma {:induction false} ToSpansConcat(a: seq<SymbolNode>, b: seq<SymbolNode>)
    ensures ToSpans(a + b) == ToSpans(a) + ToSpans(b)
  {
    assert forall i :: 0 <= i < |a + b| ==> ToSpans(a + b)[i] == (ToSpans(a) + ToSpans(b))[i];
  }

  /** The only new node among those of a file. */
  lemma OneNewNode(ms: seq<SymbolNode>, bound: nat, n: SymbolNode)
    returns (before: seq<SymbolNode>, after: seq<SymbolNode>)
    requires UniqueIds(ms) && n in ms && n.id >= bound && forall m :: m in ms && m.id >= bound ==> m == n
    ensures ms == before + [n] + after && Select(Below(bound), ms) == before + after
  {
    hide Select;
    var k :| 0 <= k < |ms| && ms[k] == n;
    before, after := ms[..k], ms[k + 1..];
    assert ms == before + [n] + after;
    SelectConcat(Below(bound), before + [n], after);
    SelectSnoc(Below(bound), before, n);
    SelectAll(Below(bound), before);
    SelectAll(Below(bound), after);
  }

  lemma SortedWithNode(before: seq<SymbolNode>, n: SymbolNode, after: seq<SymbolNode>)
    requires forall m :: m in before + after ==> n.spanStart < m.spanStart
    ensures SortByStart(ToSpans(before + [n] + after)) == [SpanOf(n)] + SortByStart(ToSpans(before + after))
  {
    hide SortByStart, ToSpans;
    var b, a := ToSpans(before), ToSpans(after);
    ToSpansConcat(before + [n], after);
    ToSpansConcat(before, [n]);
    ToSpansConcat(before, after);
    assert ToSpans([n]) == [SpanOf(n)];
    forall y | y in b || y in a ensures SpanOf(n).start < y.start {
      ToSpansMembers(before);
      ToSpansMembers(after);
    }
    SortedFirst(b, SpanOf(n), a);
  }

  lemma {:induction false} SelectSwapped(q: NodeQuery, r: NodeQuery, ns: seq<SymbolNode>)
    ensures Select(q, Select(r, ns)) == Select(r, Select(q, ns))
  {
    if ns != [] {
      SelectSwapped(q, r, ns[1..]);
      var qs, rs := Select(q, ns[1..]), Select(r, ns[1..]);
      SelectConcat(q, [ns[0]], rs);
      SelectConcat(r, [ns[0]], qs);
      SelectOne(q, ns[0]);
      SelectOne(r, ns[0]);
      assert [] + rs == rs && [] + qs == qs && [] + Select(q, rs) == Select(q, rs);
    }
  }

  lemma SelectOne(q: NodeQuery, n: SymbolNode)
    ensures Select(q, [n]) == if Matches(q, n) then [n] else []
  {
    assert [n][1..] == [];
  }

  /** A new node from byte 0 goes before the older spans of its file, which all start later. */
  lemma SpansWithFile(ns: seq<SymbolNode>, ns2: seq<SymbolNode>, bound: nat, file: Path, n: SymbolNode)
    requires Select(Below(bound), ns2) == ns && UniqueIds(ns2)
    requires n in ns2 && n.file == file && n.id >= bound && n.spanStart == 0
    requires forall m :: m in ns2 && m.file == file && m.id >= bound ==> m == n
    requires forall m :: m in ns && m.file == file ==> m.spanStart > 0
    ensures SpansOf(ns2, file) == [SpanOf(n)] + SpansOf(ns, file)
  {
    hide Select, SortByStart, ToSpans;
    var ms := Select(DefinedAt(file), ns2);
    SelectMembers(DefinedAt(file), ns2);
    SelectMembers(DefinedAt(file), ns);
    SelectUnique(DefinedAt(file), ns2);
    var before, after := OneNewNode(ms, bound, n);
    SelectSwapped(DefinedAt(file), Below(bound), ns2);
    SortedWithNode(before, n, after);
  }

  // ------------------------------------------------------------ what the new File node comes to enclose

  /** The File node minted for `f` becomes the symbol that encloses the offset. */
  predicate Overtaken(a: Graph, src: Sources, f: Path, offset: u32) {
    Overtakes(BarrelNode(src, f).spanEnd, SpansOf(a.nodes, f), offset)
  }

  /** The barrel of `f` is the only new node of that file. */
  lemma BarrelOf(a: Graph, src: Sources, ins: seq<SymbolNode>, stubs: map<string, SymbolId>,
                 barrels: map<Path, SymbolId>, b: Graph, f: Path) returns (n: SymbolNode)
    requires Sound(a) && Anchored(src) && ResolvedBy(a, src, ins, stubs, barrels, b) && BarrelAt(a, src, f)
    ensures f in barrels && n == BarrelNode(src, f).(id := barrels[f])
    ensures n in b.nodes && n.id >= a.nextId && forall m :: m in ins && m.file == f ==> m == n
  {
    hide Select, Emission, PutAll, StubTable, KeysMatch, NeedsBarrel, NeedsStub, IndexAll, IndexAllQualified;
    MintedKinds(a.nodes, src, ins);
    var r :| r in src.refs && r.file == f && NeedsBarrel(a.nodes, src, r);
    assert r.file in barrels;
    var hits := Select(FileAt(f), ins);
    SelectMembers(FileAt(f), ins);
    assert FirstId(hits) == Some(barrels[f]);
    n := hits[0];
    assert n in hits;
    var i :| 0 <= i < |ins| && ins[i] == n;
    forall m | m in ins && m.file == f ensures m == n {
      var j :| 0 <= j < |ins| && ins[j] == m;
    }
  }

  /** Nothing in the file starts at byte 0, or the re-export would have had a symbol to attach to. */
  lemma BarrelFileStartsLater(a: Graph, src: Sources, f: Path)
    requires BarrelAt(a, src, f)
    ensures forall m :: m in a.nodes && m.file == f ==> m.spanStart > 0
  {
    hide EnclosingSymbol, Reexported;
    var r :| r in src.refs && r.file == f && NeedsBarrel(a.nodes, src, r);
    EnclosingSymbolMeaning(a.nodes, f, r.offset);
    forall m | m in a.nodes && m.file == f ensures m.spanStart > 0 {
      assert !StartsBefore(m, f, r.offset);
    }
  }

  lemma BarrelEncloses(a: Graph, src: Sources, ins: seq<SymbolNode>, stubs: map<string, SymbolId>,
                       barrels: map<Path, SymbolId>, b: Graph, f: Path, offset: u32)
    requires Sound(a) && Anchored(src) && ResolvedBy(a, src, ins, stubs, barrels, b) && BarrelAt(a, src, f)
    ensures f in barrels
    ensures EnclosingSymbol(b.nodes, f, offset) ==
            if Overtaken(a, src, f, offset) then Some(barrels[f]) else EnclosingSymbol(a.nodes, f, offset)
  {
    hide Select, SpansOf, EnclosingIn, Overtakes, Emission, PutAll, StubTable, BarrelTable, KeysMatch, BarrelAt,
         Minted, Served, IndexAll, IndexAllQualified;
    var n := BarrelOf(a, src, ins, stubs, barrels, b, f);
    BarrelFileStartsLater(a, src, f);
    SpansWithFile(a.nodes, b.nodes, a.nextId, f, n);
    FirstSpanEncloses(SpanOf(n), SpansOf(a.nodes, f), offset);
  }

  // ------------------------------------------------------------ what the new File node is linked to by the run

  /** A re-export of `f` that has no other symbol to attach to re-exports `id`. */
  ghost predicate BarrelLinks(a: Graph, src: Sources, f: Path, id: SymbolId) {
    exists r :: r in src.refs && r.file == f && NeedsBarrel(a.nodes, src, r) &&
      id in IdsOf(Reexported(a.nodes, src, r))
  }

  lemma {:induction false} LinksSeen(s: EdgeStore, srcId: SymbolId, targets: seq<SymbolId>, kind: EdgeKind,
                                     origin: AnalysisOrigin, file: Path)
    ensures AllSeen(s, Links(srcId, targets, kind, origin, file)) <==>
              forall id :: id in targets && id != srcId ==> EdgeKey(srcId, id, kind) in s.seen
  {
    if targets != [] {
      LinksSeen(s, srcId, targets[1..], kind, origin, file);
      assert targets == [targets[0]] + targets[1..];
      var first := if targets[0] == srcId then []
                   else [NewEdge(srcId, targets[0], kind, origin, Evaluate(kind, origin), file)];
      SeenConcat(s, first, Links(srcId, targets[1..], kind, origin, file));
      assert targets[0] != srcId ==> first[0] in first && KeyOf(first[0]) == EdgeKey(srcId, targets[0], kind);
      assert forall id :: id in targets <==> id == targets[0] || id in targets[1..];
    }
  }

  lemma SeenConcat(s: EdgeStore, a: seq<DirectEdge>, b: seq<DirectEdge>)
    ensures AllSeen(s, a + b) <==> AllSeen(s, a) && AllSeen(s, b)
  {
    assert forall e :: e in a + b <==> e in a || e in b;
  }

  /** An edge a reference emits starts at an old node, or at the barrel its re-export needed. */
  lemma RefEdgesFrom(a: Graph, stubs: map<string, SymbolId>, barrels: map<Path, SymbolId>, src: Sources,
                     q: RawReference, e: DirectEdge)
    requires e in RefEdges(a.nodes, stubs, barrels, src, q)
    ensures e.from in Ids(a.nodes) ||
            (NeedsBarrel(a.nodes, src, q) && q.file in barrels && e.from == barrels[q.file] && e.kind.Imports? &&
             e.to in IdsOf(Reexported(a.nodes, src, q)))
  {
    hide Select, EnclosingSymbol, PickTargets, Links, IdsOf, ImportTarget, NeedsStub, Evaluate, Ids;
    if EnclosingSymbol(a.nodes, q.file, q.offset).Some? {
      EnclosingSymbolLives(a.nodes, q.file, q.offset);
    }
    if q.kind.RefReexportAll? {
      LinksEndpoints(ReexportSource(a.nodes, barrels, q).value, IdsOf(Reexported(a.nodes, src, q)), Imports,
                     NameResolved, q.file);
    } else {
      var srcId := EnclosingSymbol(a.nodes, q.file, q.offset).value;
      var picked := PickTargets(Candidates(a.nodes, q.name), srcId, q.file,
                                ImportTarget(src, src.imports, q.file, q.name));
      LinksEndpoints(srcId, picked.0, ToEdgeKind(q.kind), picked.1, q.file);
    }
  }

  lemma ImportEdgesFrom(a: Graph, src: Sources, ni: NamedImport, e: DirectEdge)
    requires e in ImportEdges(a.nodes, src, ni)
    ensures e.from in Ids(a.nodes)
  {
    hide Select, EnclosingSymbol, Links, IdsOf, Ids;
    EnclosingSymbolLives(a.nodes, ni.file, ni.offset);
    LinksEndpoints(EnclosingSymbol(a.nodes, ni.file, ni.offset).value,
                   IdsOf(Select(DefinedAt(ResolveSpecifier(src, ni.file, ni.spec).value),
                                Candidates(a.nodes, ni.imported))),
                   Imports, NameResolved, ni.file);
  }

  /** The ends of the edges of `a` are old nodes. */
  ghost predicate OldEnds(a: Graph) {
    forall k :: k in a.store.seen ==> k.from < a.nextId
  }

  /** An edge of the run that starts at a new node comes from a reference. */
  lemma EmittedByReference(a: Graph, stubs: map<string, SymbolId>, barrels: map<Path, SymbolId>, src: Sources,
                           e: DirectEdge)
    requires e in Emission(a.nodes, stubs, barrels, src) && e.from !in Ids(a.nodes)
    ensures exists q :: q in src.refs && e in RefEdges(a.nodes, stubs, barrels, src, q)
  {
    hide RefEdges, ImportEdges, AllRefEdges, AllImportEdges;
    AllRefEdgesMembers(a.nodes, stubs, barrels, src, src.refs);
    AllImportEdgesMembers(a.nodes, src, src.imports);
    if e in AllImportEdges(a.nodes, src, src.imports) {
      var ni :| ni in src.imports && e in ImportEdges(a.nodes, src, ni);
      ImportEdgesFrom(a, src, ni, e);
    }
  }

  lemma NewIdsAreNew(a: Graph, id: SymbolId)
    requires Sound(a) && id >= a.nextId
    ensures id !in Ids(a.nodes)
  {
  }

  lemma BarrelsDiffer(a: Graph, ins: seq<SymbolNode>, b: Graph, barrels: map<Path, SymbolId>, f: Path, f2: Path)
    requires Grows(a, ins, b) && BarrelTable(ins, barrels) && f in barrels && f2 in barrels && barrels[f] == barrels[f2]
    ensures f == f2
  {
    hide Select, IndexAll, IndexAllQualified;
    var hits, hits2 := Select(FileAt(f), ins), Select(FileAt(f2), ins);
    assert FirstId(hits) == Some(barrels[f]) && FirstId(hits2) == Some(barrels[f2]);
    SelectMembers(FileAt(f), ins);
    SelectMembers(FileAt(f2), ins);
    assert hits[0] in hits && hits2[0] in hits2;
    var i :| 0 <= i < |ins| && ins[i] == hits[0];
    var j :| 0 <= j < |ins| && ins[j] == hits2[0];
  }

  lemma ReexportSeen(a: Graph, src: Sources, stubs: map<string, SymbolId>, barrels: map<Path, SymbolId>, s: EdgeStore,
                     r: RawReference, id: SymbolId)
    requires Sound(a) && NeedsBarrel(a.nodes, src, r) && r.file in barrels && barrels[r.file] >= a.nextId
    requires AllSeen(s, RefEdges(a.nodes, stubs, barrels, src, r)) && id in IdsOf(Reexported(a.nodes, src, r))
    ensures EdgeKey(barrels[r.file], id, Imports) in s.seen
  {
    hide Select, EnclosingSymbol, Links, IdsOf, KeysMatch;
    LinksSeen(s, barrels[r.file], IdsOf(Reexported(a.nodes, src, r)), Imports, NameResolved, r.file);
    SelectedLive(PublicAt(ResolveSpecifier(src, r.file, r.name).value), a.nodes);
    NewIdsAreNew(a, barrels[r.file]);
  }

  /** The keys that start at the barrel of `f` after the run are those of its re-exports. */
  lemma BarrelKeys(a: Graph, src: Sources, ins: seq<SymbolNode>, stubs: map<string, SymbolId>,
                   barrels: map<Path, SymbolId>, b: Graph, f: Path, k: EdgeKey)
    requires Sound(a) && OldEnds(a) && Anchored(src) && ResolvedBy(a, src, ins, stubs, barrels, b)
    requires BarrelAt(a, src, f) && f in barrels && k.from == barrels[f]
    ensures k in b.store.seen <==> k.kind.Imports? && BarrelLinks(a, src, f, k.to)
  {
    hide Select, EnclosingSymbol, NeedsBarrel, NeedsStub, StubTable, Grows, Minted, KeysMatch, Emission, PutAll,
         RefEdges, ImportEdges, Reexported, IdsOf;
    var n := BarrelOf(a, src, ins, stubs, barrels, b, f);
    var es := Emission(a.nodes, stubs, barrels, src);
    PutAllEffect(a.store, es);
    if k in b.store.seen {
      var e :| e in es && KeyOf(e) == k;
      NewIdsAreNew(a, k.from);
      EmittedByReference(a, stubs, barrels, src, e);
      var q :| q in src.refs && e in RefEdges(a.nodes, stubs, barrels, src, q);
      RefEdgesFrom(a, stubs, barrels, src, q, e);
      BarrelsDiffer(a, ins, b, barrels, f, q.file);
    }
    if k.kind.Imports? && BarrelLinks(a, src, f, k.to) {
      var r :| r in src.refs && r.file == f && NeedsBarrel(a.nodes, src, r) &&
               k.to in IdsOf(Reexported(a.nodes, src, r));
      EmissionSeen(b.store, a.nodes, stubs, barrels, src);
      assert AllSeen(b.store, es);
      ReexportSeen(a, src, stubs, barrels, b.store, r, k.to);
    }
  }

  // ------------------------------------------------------------ what the second run would add

  /** What the reference picks when the new File node of its file is its source. */
  function PickedByBarrel(a: Graph, src: Sources, q: RawReference): seq<SymbolId> {
    PickTargets(Candidates(a.nodes, q.name), a.nextId, q.file, ImportTarget(src, src.imports, q.file, q.name)).0
  }

  /** The reference links nothing but what a re-export of its file links already, and needs no stub. */
  ghost predicate RefCovered(a: Graph, src: Sources, q: RawReference) {
    if q.kind.RefReexportAll? then
      forall id :: id in IdsOf(Reexported(a.nodes, src, q)) ==> BarrelLinks(a, src, q.file, id)
    else if Candidates(a.nodes, q.name) != [] then
      forall id :: id in PickedByBarrel(a, src, q) ==> ToEdgeKind(q.kind).Imports? && BarrelLinks(a, src, q.file, id)
    else
      (q.kind.RefImport? || q.kind.RefImplements?) ==> IsInternalName(src, q.name)
  }

  ghost predicate ImportCovered(a: Graph, src: Sources, ni: NamedImport) {
    var target := ResolveSpecifier(src, ni.file, ni.spec);
    target.Some? ==>
      forall id :: id in IdsOf(Select(DefinedAt(target.value), Candidates(a.nodes, ni.imported))) ==>
        BarrelLinks(a, src, ni.file, id)
  }

  /** The outcome `g1` of a run that resolved `a` to `b`. */
  ghost predicate Outcome(a: Graph, src: Sources, ins: seq<SymbolNode>, stubs: map<string, SymbolId>,
                          barrels: map<Path, SymbolId>, b: Graph, g1: Graph) {
    && Sound(a) && OldEnds(a) && Anchored(src) && ResolvedBy(a, src, ins, stubs, barrels, b)
    && g1.nodes == b.nodes && b.store.seen <= g1.store.seen
    && forall k: EdgeKey :: !k.kind.Inherits? ==> (k in g1.store.seen <==> k in b.store.seen)
  }

  /** No minted node bears a name that is not a barrel's, and none is exported. */
  lemma NamesUntouched(a: Graph, src: Sources, ins: seq<SymbolNode>, stubs: map<string, SymbolId>,
                       barrels: map<Path, SymbolId>, b: Graph, name: string, target: Path)
    requires Sound(a) && ResolvedBy(a, src, ins, stubs, barrels, b) && !BarrelNamed(a, src, name)
    ensures Select(Definition(name), b.nodes) == Select(Definition(name), a.nodes)
    ensures Select(PublicAt(target), b.nodes) == Select(PublicAt(target), a.nodes)
  {
    hide Select, NeedsBarrel, NeedsStub, IndexAll, IndexAllQualified, Emission, PutAll, StubTable, BarrelTable,
         KeysMatch;
    MintedKinds(a.nodes, src, ins);
    forall n | n in ins ensures !Matches(Definition(name), n) {
      if MintedBarrel(a.nodes, src, n) {
        assert BarrelAt(a, src, n.file);
      }
    }
    GrowsSelect(a, ins, b, Definition(name));
    GrowsSelect(a, ins, b, PublicAt(target));
  }

  /** A source that is not a candidate picks like any other such source. */
  lemma PickedByNew(candidates: seq<SymbolNode>, x: SymbolId, y: SymbolId, file: Path, target: Option<Path>)
    requires forall n :: n in candidates ==> n.id != x && n.id != y
    ensures PickTargets(candidates, x, file, target) == PickTargets(candidates, y, file, target)
  {
    hide Select;
    SelectAll(Except(x), candidates);
    SelectAll(Except(y), candidates);
  }

  /** From the barrel only imports of what is re-exported have been linked. */
  lemma LinksFromBarrel(a: Graph, src: Sources, ins: seq<SymbolNode>, stubs: map<string, SymbolId>,
                        barrels: map<Path, SymbolId>, b: Graph, g1: Graph, f: Path, targets: seq<SymbolId>,
                        kind: EdgeKind, origin: AnalysisOrigin)
    requires Outcome(a, src, ins, stubs, barrels, b, g1) && BarrelAt(a, src, f) && !kind.Inherits?
    requires forall id :: id in targets ==> id in Ids(a.nodes)
    ensures f in barrels
    ensures AllSeen(g1.store, Links(barrels[f], targets, kind, origin, f)) <==>
              forall id :: id in targets ==> kind.Imports? && BarrelLinks(a, src, f, id)
  {
    hide ResolvedBy, Sound, OldEnds, Links, BarrelAt, BarrelLinks, Ids;
    var n := BarrelOf(a, src, ins, stubs, barrels, b, f);
    NewIdsAreNew(a, barrels[f]);
    LinksSeen(g1.store, barrels[f], targets, kind, origin, f);
    forall id | id in targets
      ensures EdgeKey(barrels[f], id, kind) in g1.store.seen <==> kind.Imports? && BarrelLinks(a, src, f, id)
    {
      BarrelKeys(a, src, ins, stubs, barrels, b, f, EdgeKey(barrels[f], id, kind));
    }
  }

  lemma StubIsExternal(ns: seq<SymbolNode>, name: string)
    requires name in Stubs(ns)
    ensures exists n :: n in ns && n.id == Stubs(ns)[name] && n.kind.ExternalPackage?
  {
    hide Select, Stubs;
    StubsTable(ns);
    SelectMembers(ExternalNamed(name), ns);
    var hits := Select(ExternalNamed(name), ns);
    assert FirstId(hits) == Some(Stubs(ns)[name]);
    assert hits[0] in hits;
  }

  /** A stub is never what a barrel re-exports. */
  lemma StubNotLinked(a: Graph, src: Sources, b: Graph, ins: seq<SymbolNode>, f: Path, name: string)
    requires Grows(a, ins, b) && name in Stubs(b.nodes)
    ensures !BarrelLinks(a, src, f, Stubs(b.nodes)[name])
  {
    hide Select, Stubs, NeedsBarrel, IdsOf, IndexAll, IndexAllQualified;
    var id := Stubs(b.nodes)[name];
    StubIsExternal(b.nodes, name);
    var n :| n in b.nodes && n.id == id && n.kind.ExternalPackage?;
    forall r | r in src.refs && NeedsBarrel(a.nodes, src, r) ensures id !in IdsOf(Reexported(a.nodes, src, r)) {
      ReexportedExported(a.nodes, src, r);
      if id in IdsOf(Reexported(a.nodes, src, r)) {
        var m :| m in a.nodes && IsExported(m) && m.id == id;
        UniqueIdsMeanSameNode(b.nodes, m, n);
      }
    }
  }

  lemma ReexportedExported(ns: seq<SymbolNode>, src: Sources, r: RawReference)
    ensures forall id :: id in IdsOf(Reexported(ns, src, r)) ==> exists m :: m in ns && IsExported(m) && m.id == id
    ensures forall id :: id in IdsOf(Reexported(ns, src, r)) ==> id in Ids(ns)
  {
    hide Select;
    var target := ResolveSpecifier(src, r.file, r.name);
    if target.Some? {
      IdsOfSelected(PublicAt(target.value), ns);
    }
  }

  /** With the barrel as its source the reference needs no stub and emits seen keys iff it is covered. */
  lemma OvertakenRef(a: Graph, src: Sources, ins: seq<SymbolNode>, stubs: map<string, SymbolId>,
                     barrels: map<Path, SymbolId>, b: Graph, g1: Graph, q: RawReference)
    requires Outcome(a, src, ins, stubs, barrels, b, g1) && BarrelAt(a, src, q.file) && !BarrelNamed(a, src, q.name)
    requires q.file in barrels && EnclosingSymbol(b.nodes, q.file, q.offset) == Some(barrels[q.file])
    ensures RefQuiet(g1, src, q) <==> RefCovered(a, src, q)
  {
    hide Select, EnclosingSymbol, PickTargets, Links, IdsOf, ImportTarget, IsInternalName, Evaluate, Ids, Stubs,
         ResolvedBy, Sound, OldEnds, BarrelAt, BarrelNamed, BarrelLinks;
    var f, B := q.file, barrels[q.file];
    var spec := ResolveSpecifier(src, f, q.name);
    NamesUntouched(a, src, ins, stubs, barrels, b, q.name, if spec.Some? then spec.value else []);
    if q.kind.RefReexportAll? {
      var targets := IdsOf(Reexported(a.nodes, src, q));
      ReexportedExported(a.nodes, src, q);
      NothingReexported(a.nodes, src, q);
      LinksFromBarrel(a, src, ins, stubs, barrels, b, g1, f, targets, Imports, NameResolved);
    } else if Candidates(a.nodes, q.name) != [] {
      var target := ImportTarget(src, src.imports, f, q.name);
      CandidatesAreOld(a, src, ins, stubs, barrels, b, f, q.name);
      PickedByNew(Candidates(a.nodes, q.name), B, a.nextId, f, target);
      var picked := PickTargets(Candidates(a.nodes, q.name), a.nextId, f, target);
      CandidatesLive(a.nodes, q.name, a.nextId, f, target);
      LinksFromBarrel(a, src, ins, stubs, barrels, b, g1, f, picked.0, ToEdgeKind(q.kind), picked.1);
      assert RefEdges(g1.nodes, Stubs(g1.nodes), map[], src, q) ==
             Links(B, picked.0, ToEdgeKind(q.kind), picked.1, f);
      assert PickedByBarrel(a, src, q) == picked.0;
      assert RefQuiet(g1, src, q) <==>
               forall id :: id in picked.0 ==> ToEdgeKind(q.kind).Imports? && BarrelLinks(a, src, f, id);
      assert RefCovered(a, src, q) <==>
               forall id :: id in picked.0 ==> ToEdgeKind(q.kind).Imports? && BarrelLinks(a, src, f, id);
    } else if NeedsStub(b.nodes, src, q) && q.name in Stubs(b.nodes) {
      var kind := ToEdgeKind(q.kind);
      var e := NewEdge(B, Stubs(b.nodes)[q.name], kind, SyntaxMatched, Evaluate(kind, SyntaxMatched), f);
      OneStub(a, src, ins, stubs, barrels, b, g1, f, q.name, kind);
      assert RefEdges(g1.nodes, Stubs(g1.nodes), map[], src, q) == [e];
      assert e in [e] && KeyOf(e) == EdgeKey(B, Stubs(b.nodes)[q.name], kind);
    }
  }

  lemma NothingReexported(ns: seq<SymbolNode>, src: Sources, q: RawReference)
    ensures Reexported(ns, src, q) == [] ==> IdsOf(Reexported(ns, src, q)) == []
  {
  }

  lemma CandidatesAreOld(a: Graph, src: Sources, ins: seq<SymbolNode>, stubs: map<string, SymbolId>,
                         barrels: map<Path, SymbolId>, b: Graph, f: Path, name: string)
    requires Sound(a) && Anchored(src) && ResolvedBy(a, src, ins, stubs, barrels, b) && BarrelAt(a, src, f)
    ensures f in barrels
    ensures forall n :: n in Candidates(a.nodes, name) ==> n.id != barrels[f] && n.id != a.nextId
  {
    hide Select, ResolvedBy, KeysMatch, BarrelAt;
    var n := BarrelOf(a, src, ins, stubs, barrels, b, f);
    SelectMembers(Definition(name), a.nodes);
  }

  lemma OneStub(a: Graph, src: Sources, ins: seq<SymbolNode>, stubs: map<string, SymbolId>,
                barrels: map<Path, SymbolId>, b: Graph, g1: Graph, f: Path, name: string, kind: EdgeKind)
    requires Outcome(a, src, ins, stubs, barrels, b, g1) && BarrelAt(a, src, f) && !kind.Inherits?
    requires name in Stubs(b.nodes)
    ensures f in barrels && EdgeKey(barrels[f], Stubs(b.nodes)[name], kind) !in g1.store.seen
  {
    hide Select, Stubs, Grows, Minted, StubTable, BarrelTable, Served, Emission, PutAll, Sound, OldEnds, BarrelAt,
         BarrelLinks;
    var n := BarrelOf(a, src, ins, stubs, barrels, b, f);
    StubNotLinked(a, src, b, ins, f, name);
    BarrelKeys(a, src, ins, stubs, barrels, b, f, EdgeKey(barrels[f], Stubs(b.nodes)[name], kind));
  }

  /** A reference that keeps its enclosing symbol emits again what the run has just emitted. */
  lemma KeptRef(a: Graph, src: Sources, ins: seq<SymbolNode>, stubs: map<string, SymbolId>,
                barrels: map<Path, SymbolId>, b: Graph, g1: Graph, q: RawReference)
    requires Outcome(a, src, ins, stubs, barrels, b, g1) && q in src.refs && !BarrelNamed(a, src, q.name)
    requires EnclosingSymbol(a.nodes, q.file, q.offset).Some?
    requires EnclosingSymbol(b.nodes, q.file, q.offset) == EnclosingSymbol(a.nodes, q.file, q.offset)
    ensures RefQuiet(g1, src, q)
  {
    hide Select, Grows, Minted, StubTable, BarrelTable, RefEdges, ImportEdges, NeedsStub, Emission, PutAll, Stubs,
         BarrelNamed, Sound, OldEnds, EnclosingSymbol, Reexported;
    StubsTable(b.nodes);
    StubTableUnique(b.nodes, stubs, Stubs(b.nodes));
    SameRefEdges(a, src, ins, stubs, barrels, b, q);
    RefEdgesStable(a.nodes, stubs, map[], stubs, barrels, src, q);
    var es := Emission(a.nodes, stubs, barrels, src);
    PutAllEffect(a.store, es);
    assert AllSeen(b.store, es);
    EmissionSeen(b.store, a.nodes, stubs, barrels, src);
  }

  lemma SameRefEdges(a: Graph, src: Sources, ins: seq<SymbolNode>, stubs: map<string, SymbolId>,
                     barrels: map<Path, SymbolId>, b: Graph, q: RawReference)
    requires Sound(a) && ResolvedBy(a, src, ins, stubs, barrels, b) && !BarrelNamed(a, src, q.name)
    requires EnclosingSymbol(b.nodes, q.file, q.offset) == EnclosingSymbol(a.nodes, q.file, q.offset)
    ensures NeedsStub(b.nodes, src, q) == NeedsStub(a.nodes, src, q)
    ensures RefEdges(b.nodes, stubs, map[], src, q) == RefEdges(a.nodes, stubs, map[], src, q)
  {
    hide Select, EnclosingSymbol, PickTargets, Links, IsInternalName, IdsOf, ImportTarget, ResolvedBy, BarrelNamed,
         Sound;
    var spec := ResolveSpecifier(src, q.file, q.name);
    NamesUntouched(a, src, ins, stubs, barrels, b, q.name, if spec.Some? then spec.value else []);
  }

  lemma KeepsUnlessOvertaken(a: Graph, src: Sources, f: Path, offset: u32)
    requires !Overtaken(a, src, f, offset)
    ensures EnclosingSymbol(a.nodes, f, offset).Some?
  {
    hide SpansOf, Narrowest, LastStarting;
  }

  lemma RefQuietIff(a: Graph, src: Sources, ins: seq<SymbolNode>, stubs: map<string, SymbolId>,
                    barrels: map<Path, SymbolId>, b: Graph, g1: Graph, q: RawReference)
    requires Outcome(a, src, ins, stubs, barrels, b, g1) && q in src.refs
    requires BarrelAt(a, src, q.file) && !BarrelNamed(a, src, q.name)
    ensures RefQuiet(g1, src, q) <==> (Overtaken(a, src, q.file, q.offset) ==> RefCovered(a, src, q))
  {
    hide ResolvedBy, Sound, OldEnds, EnclosingSymbol, Overtaken, RefQuiet, RefCovered, BarrelAt, BarrelNamed;
    BarrelEncloses(a, src, ins, stubs, barrels, b, q.file, q.offset);
    if Overtaken(a, src, q.file, q.offset) {
      OvertakenRef(a, src, ins, stubs, barrels, b, g1, q);
    } else {
      KeepsUnlessOvertaken(a, src, q.file, q.offset);
      KeptRef(a, src, ins, stubs, barrels, b, g1, q);
    }
  }

  lemma OvertakenImport(a: Graph, src: Sources, ins: seq<SymbolNode>, stubs: map<string, SymbolId>,
                        barrels: map<Path, SymbolId>, b: Graph, g1: Graph, ni: NamedImport)
    requires Outcome(a, src, ins, stubs, barrels, b, g1)
    requires BarrelAt(a, src, ni.file) && !BarrelNamed(a, src, ni.imported)
    requires ni.file in barrels && EnclosingSymbol(b.nodes, ni.file, ni.offset) == Some(barrels[ni.file])
    ensures ImportQuiet(g1, src, ni) <==> ImportCovered(a, src, ni)
  {
    hide Select, EnclosingSymbol, Links, IdsOf, ResolvedBy, Sound, OldEnds, BarrelAt, BarrelNamed, BarrelLinks;
    NamesUntouched(a, src, ins, stubs, barrels, b, ni.imported, []);
    var spec := ResolveSpecifier(src, ni.file, ni.spec);
    if spec.Some? {
      var targets := Select(DefinedAt(spec.value), Candidates(a.nodes, ni.imported));
      TargetsAreOld(a.nodes, spec.value, ni.imported);
      LinksFromBarrel(a, src, ins, stubs, barrels, b, g1, ni.file, IdsOf(targets), Imports, NameResolved);
      assert targets == [] ==> IdsOf(targets) == [];
    }
  }

  lemma TargetsAreOld(ns: seq<SymbolNode>, target: Path, name: string)
    ensures forall id :: id in IdsOf(Select(DefinedAt(target), Candidates(ns, name))) ==> id in Ids(ns)
  {
    hide Select;
    SelectMembers(Definition(name), ns);
    IdsOfSelected(DefinedAt(target), Candidates(ns, name));
  }

  lemma KeptImport(a: Graph, src: Sources, ins: seq<SymbolNode>, stubs: map<string, SymbolId>,
                   barrels: map<Path, SymbolId>, b: Graph, g1: Graph, ni: NamedImport)
    requires Outcome(a, src, ins, stubs, barrels, b, g1) && ni in src.imports && src.refs != []
    requires !BarrelNamed(a, src, ni.imported)
    requires EnclosingSymbol(b.nodes, ni.file, ni.offset) == EnclosingSymbol(a.nodes, ni.file, ni.offset)
    ensures ImportQuiet(g1, src, ni)
  {
    hide Select, Grows, Minted, StubTable, BarrelTable, RefEdges, Served, Emission, PutAll, BarrelNamed, Sound, OldEnds,
         EnclosingSymbol, Links, IdsOf;
    NamesUntouched(a, src, ins, stubs, barrels, b, ni.imported, []);
    var es := Emission(a.nodes, stubs, barrels, src);
    PutAllEffect(a.store, es);
    assert AllSeen(b.store, es);
    EmissionSeen(b.store, a.nodes, stubs, barrels, src);
    assert ImportEdges(b.nodes, src, ni) == ImportEdges(a.nodes, src, ni);
  }

  lemma ImportQuietIff(a: Graph, src: Sources, ins: seq<SymbolNode>, stubs: map<string, SymbolId>,
                       barrels: map<Path, SymbolId>, b: Graph, g1: Graph, ni: NamedImport)
    requires Outcome(a, src, ins, stubs, barrels, b, g1) && ni in src.imports
    requires BarrelAt(a, src, ni.file) && !BarrelNamed(a, src, ni.imported)
    ensures ImportQuiet(g1, src, ni) <==> (Overtaken(a, src, ni.file, ni.offset) ==> ImportCovered(a, src, ni))
  {
    hide ResolvedBy, Sound, OldEnds, EnclosingSymbol, Overtaken, ImportQuiet, ImportCovered, BarrelNamed;
    BarrelEncloses(a, src, ins, stubs, barrels, b, ni.file, ni.offset);
    if Overtaken(a, src, ni.file, ni.offset) {
      OvertakenImport(a, src, ins, stubs, barrels, b, g1, ni);
    } else {
      KeptImport(a, src, ins, stubs, barrels, b, g1, ni);
    }
  }

  // ------------------------------------------------------------ decided before references are resolved

  /** No reference and no named import uses the name of a File node about to be minted. */
  ghost predicate NamesSpared(a: Graph, src: Sources) {
    && (forall q :: q in src.refs ==> !BarrelNamed(a, src, q.name))
    && (forall ni :: ni in src.imports ==> !BarrelNamed(a, src, ni.imported))
  }

  /**
    Whatever a File node about to be minted comes to enclose links nothing but what the re-exports of
    its file link anyway, and imports or implements no unknown name.
   */
  ghost predicate Covered(a: Graph, src: Sources) {
    && (forall q :: q in src.refs && BarrelAt(a, src, q.file) && Overtaken(a, src, q.file, q.offset) ==>
          RefCovered(a, src, q))
    && (forall ni :: ni in src.imports && BarrelAt(a, src, ni.file) && Overtaken(a, src, ni.file, ni.offset) ==>
          ImportCovered(a, src, ni))
  }

  lemma StructuredOldEnds(g: Graph, a: Graph)
    requires WellFormed(g) && Structured(g, a)
    ensures OldEnds(a)
  {
    hide Select, PutAll, NameIndexed, QualifiedIndexed, ModuleOf, DistinctFiles, DistinctModules, MintedFile,
         MintedModule, Housed, Evaluate, IndexAll, IndexAllQualified, IdsOf;
    var ins: seq<SymbolNode>, es: seq<DirectEdge> :| StructuredBy(g, ins, es, a);
    PutAllEffect(g.store, es);
    GrowsNodesOk(g, ins, a);
    forall e | e in es ensures e.from < a.nextId {
      SelectMembers(FileAt(e.evidenceFile), a.nodes);
      IdsOfSelected(ChildAt(e.evidenceFile), a.nodes);
      var files := Select(FileAt(e.evidenceFile), a.nodes);
      if IsContains(a.nodes, e) {
        assert files[|files| - 1] in files;
      }
    }
  }

  lemma InheritedSeen(b: Graph, g1: Graph)
    requires Inherited(b, g1)
    ensures g1.nodes == b.nodes && b.store.seen <= g1.store.seen
    ensures forall k: EdgeKey :: !k.kind.Inherits? ==> (k in g1.store.seen <==> k in b.store.seen)
  {
    hide PutAll, IsJvmFile, Evaluate;
    var es: seq<DirectEdge> :| InheritedBy(b, es, g1);
    PutAllEffect(b.store, es);
  }

  lemma NoChildrenInBarrels(g: Graph, src: Sources, a: Graph, ins: seq<SymbolNode>, stubs: map<string, SymbolId>,
                            barrels: map<Path, SymbolId>, b: Graph, g1: Graph, f: Path)
    requires WellFormed(g) && FileNodesAtStart(g) && Structured(g, a) && BarrelAt(a, src, f)
    requires Outcome(a, src, ins, stubs, barrels, b, g1)
    ensures FileQuiet(g1, f)
  {
    hide Select, Structured, StubTable, BarrelTable, Served, Grows, Minted, PutAll, Emission, BarrelAt, WellFormed,
         OldEnds, KeysMatch, IdsOf, FileOf, FileNodesAtStart;
    BarrelFilesDefineNothing(g, src, a, f);
    ContainmentElsewhere(a, src, ins, b, f);
    IdsOfSelected(ChildAt(f), a.nodes);
    assert ChildrenOf(g1.nodes, f) == ChildrenOf(a.nodes, f);
  }

  /**
    When one run is enough, decided before references are resolved, `a` being the graph after
    structural_pass.  File nodes start at byte 0, and no reference uses the name of a barrel's File node.
   */
  lemma OneRunIsEnoughBefore(g: Graph, src: Sources, a: Graph, b: Graph, g1: Graph, g2: Graph)
    requires WellFormed(g) && Anchored(src) && FileNodesAtStart(g)
    requires RunThrough(g, src, a, b, g1) && DeriveRun(g1, src, g2) && NamesSpared(a, src)
    ensures g2 == g1 <==> Covered(a, src)
  {
    hide WellFormed, Sound, Structured, Inherited, ResolvedBy, OldEnds, RefQuiet, ImportQuiet, FileQuiet, RefCovered,
         ImportCovered, BarrelAt, BarrelNamed, Overtaken, FileNodesAtStart, MintsBarrel, DeriveRun, Anchored;
    OneRunIsEnoughIff(g, src, a, b, g1, g2);
    WellFormedSound(g);
    StructuredSound(g, a);
    StructuredOldEnds(g, a);
    InheritedSeen(b, g1);
    var ins: seq<SymbolNode>, stubs: map<string, SymbolId>, barrels: map<Path, SymbolId> :|
        ResolvedBy(a, src, ins, stubs, barrels, b);
    forall q | q in src.refs && BarrelAt(a, src, q.file)
      ensures RefQuiet(g1, src, q) <==> (Overtaken(a, src, q.file, q.offset) ==> RefCovered(a, src, q))
    {
      RefQuietIff(a, src, ins, stubs, barrels, b, g1, q);
    }
    forall ni | ni in src.imports && BarrelAt(a, src, ni.file)
      ensures ImportQuiet(g1, src, ni) <==> (Overtaken(a, src, ni.file, ni.offset) ==> ImportCovered(a, src, ni))
    {
      ImportQuietIff(a, src, ins, stubs, barrels, b, g1, ni);
    }
    forall f | BarrelAt(a, src, f) ensures FileQuiet(g1, f) {
      NoChildrenInBarrels(g, src, a, ins, stubs, barrels, b, g1, f);
    }
  }
}
