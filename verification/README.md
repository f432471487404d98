# CoreGraph, verified

A Dafny model of the parts of CoreGraph whose correctness is hardest to see: the symbol graph and
the passes that rewrite it in place, the multi-project daemon, the depth-labelled traversal, and
five small algorithms with simple specifications. `dafny verify dfyconfig.toml` checks all of it.

## How it is built

- **Graph maintenance** (`Symbols`, `NodeQueries`, `SymbolGraph`, `StructuralPass`, `Enclosing`,
  `Resolution`, `ResolvePass`, `DeriveStages`, `DeriveFixpoint`, `DeriveInput`, `Reclassify`,
  `FileRemoval`, `Reindex`, `ReindexProperties`, `ReindexRepeat`, `ReindexAmbiguous`,
  `ReindexSettled`, `Confidence`, and what all this means in terms of kinds, names and numbers:
  `Containment`, `ReferenceKinds`, `JvmInherits`, `NarrowedMatches`, `ReindexCapture`). The class `SymbolGraph` carries the node list, the edges, the
  separate set of seen keys, both name indexes and the id counter. Each pass is a method with the source's loops and tables, proved to produce an outcome of a relation on
  graph values (`Structured`, `Resolved`, `Inherited`, `Reclassified`, `ReindexedBy`). The passes
  are nondeterministic where the storage is: a new node takes any place in the iteration order,
  edges are visited in any order, ties are broken either way. The theorems about the relations
  hold for every choice.
- **Project manager** (`ProjectTable`, `ProjectManager`, `ProjectProtocol`, `ProjectRuns`,
  `ProjectAccess`, `ProjectAccounting`, `ProjectDrift`, `ProjectDisk`, `ProjectStaleRead`, `ProjectPersistence`,
  `ProjectLoss`). One function and one method per critical section; threads are program counters, a
  graph is its version number, a run is any interleaving of critical sections with callers that
  mutate, mark and release, with the clock and with the Gone collector.
- **Traversal** (`Traversal`, `TraversalResults`, `TraversalMeaning`) against shortest paths.
- **Small algorithms** (`Levenshtein`, `Base64` with `Base64Layout`, `Scrubber` with `ScrubberLaws`,
  `DiffEdit`, `Lines`, `LineCol` with `Characters`, on `Bytes` and `Utf8`).

## What the proofs found

Where the code does something its documentation or a natural reading does not say, the model
follows the code and a lemma says exactly when the expected property holds.

- *Derive stages.* One run is a fixpoint iff it leaves no work in the files for which it mints a
  barrel File node, or at the names of those nodes (`OneRunIsEnoughIff`): a reference there may find
  an enclosing symbol only afterwards (`OneRunIsNotAlwaysEnough`). `OneRunIsEnoughBefore` says which
  references those are before any is resolved. Two runs always suffice. The
  remark at crates/extractor/src/lib.rs:2382-2387 about one extra Contains edge on the second run no
  longer applies: the pass is exactly idempotent.
- *retain_edges* does not clear the keys of the edges it drops, so a narrowed StringMatch key stays
  seen: inserting that edge again answers true while the edge is absent (`CoarseMatchStaysAway`).
  That is the only way a true answer comes without the edge (`TrueAnswerMeansPresent`).
- *Fast reindex.* "Dropped" does not always mean that the symbol vanished: an edge is also dropped
  when four nodes outside the file bear its name, because the lookups are capped at four hits
  (`DroppedExactly`). One pass settles a file iff every symbol an edge finds is found again
  under its own names (`OnePassSettlesIff`); a call moves on the second pass when two symbols of one
  qualified name have different bare names (`CallMovesOnSecondPass`). From then on nothing moves. A
  pass that only renames and ages means a settled file, and conversely (`RenamesIffSettled`).
- *Confidence* converts the stale count to a signed 32-bit exponent, so it decays only below 2^31.
- *release* and *mark_dirty* look their entry up by path. A stale eviction or an unload of a held
  graph leaves the counters as they are but detaches the graph from its path (`DisciplineIsExact`);
  the counter of a replacement drifts exactly when a release meant for the detached graph hits it
  (`CounterIsExactIff`), and then it can be evicted under its own caller (`BusyReloadDrifts`).
- *Clean means saved.* A clean graph need not be the one on disk: a victim that was picked twice, or
  was replaced or unloaded since, may be written late, over the snapshot that another thread has
  just read to restore the path (`CleanIsNotAlwaysSaved`), or under a clean replacement. Those late
  writes, and the Gone collector, which changes graphs without marking them, when it meets a clean
  graph, are the only steps that can break the agreement, and `DiskAgreesIff` says exactly when each
  does. Failed writes and evictions of held graphs never do.
- *Persist-then-free.* A version lost by an eviction need not be younger than its victim's persist:
  it may have been created before by a caller that had not marked it yet (`LostDespitePersist`), or
  belong to a graph that had replaced the victim. The promise holds iff at the persist the path is
  unloaded, or the version loaded there is written, or is on disk already (`PersistBoundExact`), in
  particular whenever the victim is still loaded and nobody is changing it
  (`LostAfterQuietPersist`). In every case the lost version is no older than the picking of the
  victims (`OnlyNewVersionsAreLost`), if writes succeed, dirty victims stay at their path until
  written, held graphs are not evicted without a guard and the collector meets no clean graph.
- *Traversal.* Excluding stale edges means excluding every edge not of the very latest epoch; an
  aggregated edge keeps the depth of the first centre that found it, which is the least iff no later
  centre is nearer (`AggregatedDepthIsLeastIff`), always with one hop.
- *Scrubber.* A newline right after a backslash inside a string or character literal becomes a
  space; every other newline survives.

## Model

| member | source | states |
|---|---|---|
| SymbolGraphs.SymbolGraph.InsertNode | crates/graph/src/symbol_graph.rs:154-191 | a node gets the next id, never used before, some place in the iteration order and an entry at the end of its index lists; well-formedness is kept |
| SymbolGraphs.SymbolGraph.InsertEdge | crates/graph/src/symbol_graph.rs:249-267 | false exactly for an unknown endpoint; a key already seen changes nothing and still answers true; otherwise the edge is added |
| SymbolGraphs.SymbolGraph.RemoveNode | crates/graph/src/symbol_graph.rs:634-703 | the node, its incident edges and keys and its index entries go, a missing id is a no-op, nothing dangles |
| SymbolGraphs.SymbolGraph.RetainEdges | crates/graph/src/symbol_graph.rs:340-359 | drops the edges that fail the predicate and leaves the set of seen keys as it was |
| SymbolGraphs.WithNodeWellFormed | crates/graph/src/symbol_graph.rs:154-191 | insertion at any place keeps ids unique and both name indexes exact |
| SymbolGraphs.WithoutNodeWellFormed | crates/graph/src/symbol_graph.rs:634-703 | removal leaves no dangling edge, key or index entry; exactly that id is gone |
| SymbolGraphs.PutAllEffect | crates/graph/src/symbol_graph.rs:249-267 | of several insertions under one key the first wins; old edges are never overwritten; every key inserted is seen |
| StructuralPasses.StructuralPass | crates/extractor/src/lib.rs:763-941 | the loops over the live graph and their tables produce an outcome of the relation Structured; what that means for each kind of node is stated by the Containment lemmas |
| StructuralPasses.StructuralPassIdempotent | crates/extractor/src/lib.rs:763-941 | for every graph, a second run returns the very same graph: nodes, edges, keys, indexes and id counter |
| StructuralPasses.StructuralPassOnlyAdds | crates/extractor/src/lib.rs:763-941 | old nodes keep their order, old edges are untouched, new nodes are File or Module, new edges Contains or BelongsTo, and no symbol changes its place |
| StructuralPasses.ContainmentIsComplete | crates/extractor/src/lib.rs:763-941 | every contained symbol gets its edge from the File of its path and to the module of its path; the kinds are written out in Containment.EverySymbolIsContained |
| StructuralPasses.ContainmentIsUnique | crates/extractor/src/lib.rs:763-941 | a new Contains edge into a symbol starts at the File of its path and a new BelongsTo edge out of it ends at the module of its path, so a graph without such edges gets exactly one of each |
| StructuralPasses.StructuredIsClosed | crates/extractor/src/lib.rs:763-941 | after a run every path of a symbol has its File and module, and every containment edge due is present |
| Containment.EverySymbolIsContained | crates/extractor/src/lib.rs:763-941 | every symbol with a file that is no File, Module, Namespace, DocComment or DocSection is contained in a File node of its path and belongs to the container of its path, or without one to the Module named after the path |
| Containment.OnlySymbolsAreContained | crates/extractor/src/lib.rs:777-811 | nodes of those five kinds and nodes without a file get neither edge, and there are no other new edges; each new one is certain (0.99) and evidenced in the symbol's file |
| Containment.NewNodesAreContainers | crates/extractor/src/lib.rs:707-757 | a new node is the File of a path with symbols, named after its last component, or a Module named after the component behind crates, the directory or root, placed at the best weighted of the paths that share the name: tests and examples -20, src +10, entry files +5 |
| Enclosing.EnclosingSymbolMeaning | crates/extractor/src/lib.rs:2293-2314 | some symbol encloses an offset iff one of the file starts at or before it; the answer is the narrowest span that covers the offset, or if none does the symbol that starts last |
| Resolution.PickTargetsAreCandidates | crates/extractor/src/lib.rs:2196-2284 | targets are candidates other than the referencing symbol |
| Resolution.SameFileWins | crates/extractor/src/lib.rs:2205-2214 | definitions in the referencing file are chosen, all of them and nothing else |
| Resolution.TiersInOrder | crates/extractor/src/lib.rs:2216-2283 | otherwise the sole candidate of the directory, then the sole qualified one, then those of the imported file, then a sole candidate at lower confidence; ambiguous names link nothing |
| Resolution.NoNoisyFanOut | crates/extractor/src/lib.rs:2182-2195 | several targets at once only within one file, the referencing or the imported one; the low tier links only a globally unique candidate |
| ResolvePasses.ResolveReferences | crates/extractor/src/lib.rs:1814-2179 | the pass that mints nodes while it links, against tables built at its start, produces an outcome of Resolved; what each reference becomes is stated by the ReferenceKinds lemmas |
| ResolvePasses.StubsOnlyImported | crates/extractor/src/lib.rs:1854-1867 | no new edge reaches an external-package stub except Imports and Implements, also on a graph that already holds stubs |
| ReferenceKinds.PickedIffMeant | crates/extractor/src/lib.rs:2196-2284 | the targets picked are exactly what the name means there: definitions in the file, else the sole one of the directory, else the sole qualified one, else those of the file it is imported from, else the sole one at all, never the referencing symbol or a package stand-in |
| ReferenceKinds.ReferenceLinks | crates/extractor/src/lib.rs:60-78 | in every outcome a call leaves a Calls edge to each definition it means, an import Imports, extends Extends, implements Implements, the use of a type or value References; a new edge is evidenced in the referencing file |
| ReferenceKinds.NewEdgesStem | crates/extractor/src/lib.rs:1814-2179 | conversely each new edge stems from a reference of that very kind, Imports also from a wildcard re-export or a named import, and there are no new edges of other kinds |
| ReferenceKinds.WildcardLinks | crates/extractor/src/lib.rs:2001-2046 | a wildcard re-export imports every public symbol of its target that is no File, Module, Namespace, package or documentation, from its own symbol or from the File node of its file |
| ReferenceKinds.NamedImportLinks | crates/extractor/src/lib.rs:2126-2178 | a named import links its symbol by Imports to the definitions of that name in the file its specifier resolves to |
| ReferenceKinds.UnknownNameLinks | crates/extractor/src/lib.rs:2082-2123 | an import or implements clause of a name nothing bears, and no path component or file stem is, leads to a package stand-in under its own kind |
| ReferenceKinds.NewStandIns | crates/extractor/src/lib.rs:2082-2123 | only such names get a new stand-in, one each, without a file |
| ReferenceKinds.NewEdgesScored | crates/graph/src/edge_evaluator.rs:9-43 | new edges are fresh and worth 0.855 for calls, extends and implements, 0.8075 for imports and 0.76 for references, or 0.765, 0.7225 and 0.68 when matched by syntax alone |
| ReferenceKinds.NewNodes | crates/extractor/src/lib.rs:2009-2029 | every other new node is the one File node of a file whose re-export had nothing to attach to, from byte 0 to its length modulo 2^32 |
| DeriveStages.DeriveInherits | crates/extractor/src/lib.rs:953-979 | the loop adds an Inherits edge for each Extends edge evidenced in a Java or Kotlin file |
| DeriveStages.InheritsExactly | crates/extractor/src/lib.rs:943-979 | Inherits holds exactly where it held or a Java or Kotlin file extends; nothing else changes |
| JvmInherits.InheritsInJvmSources | crates/extractor/src/lib.rs:953-979 | the same with the file names spelled out: the evidence is <stem>.java or <stem>.kt in any case; a new Inherits edge has that evidence and confidence 0.855 |
| DeriveStages.RunDeriveStages | crates/extractor/src/lib.rs:694-696 | the three stages in sequence on the live graph |
| DeriveStages.BarrelFreeDecidesMinting | crates/extractor/src/lib.rs:2001-2030 | a condition on the graph before the run decides whether the run mints a barrel File node (both ways when File nodes start at byte 0) |
| DeriveStages.FixpointAfterOneRun | crates/extractor/src/lib.rs:2391-2397 | a corollary for callers: if no barrel is minted, a second run with the same sources changes nothing at all |
| DeriveFixpoint.FixpointIffClosed | crates/extractor/src/lib.rs:2391-2397 | for every graph and sources, a second run changes nothing iff the first output is closed under the three stages |
| DeriveFixpoint.OneRunIsEnoughIff | crates/extractor/src/lib.rs:2001-2030 | that is so iff, in the files that got a barrel and at the names of their barrels, each reference needs no new stub and emits only seen keys, each named import emits only seen keys, and the symbols of such a file are contained already |
| DeriveInput.OneRunIsEnoughBefore | crates/extractor/src/lib.rs:2001-2030 | the same decided before references are resolved, for File nodes from byte 0 and barrel names that no reference uses: every reference and import that a File node about to be minted comes to enclose links only what the re-exports of its file link anyway, and imports or implements no unknown name |
| DeriveInput.BarrelEncloses | crates/extractor/src/lib.rs:2293-2314 | which symbol encloses an offset of a barrel file afterwards: the new File node iff it overtakes the spans that were there, else the same as before |
| DeriveInput.BarrelKeys | crates/extractor/src/lib.rs:2001-2030 | the keys that start at a new barrel are exactly the Imports keys of the re-exports of its file that had nothing else to attach to |
| DeriveFixpoint.BarrelFilesDefineNothing | crates/extractor/src/lib.rs:2001-2030 | when File nodes start at byte 0 the part about contained symbols is void: a file that gets a barrel has none |
| DeriveStages.FixpointAfterTwoRuns | crates/extractor/src/lib.rs:2391-2397 | with barrels, for every graph and sources, the third run changes nothing |
| DeriveStages.NoRatchet | crates/extractor/src/lib.rs:2391-2397 | over any number of rebuilds the graph equals the second one, and the first one if no barrel was minted |
| DeriveStages.SecondRunMintsNoBarrel | crates/extractor/src/lib.rs:2001-2030 | whatever the first run minted, the second run needs no barrel |
| DeriveStages.BarrelLeavesWork | crates/extractor/src/lib.rs:2001-2030 | a barrel file that also imports an unknown name makes the second run change the graph: the first had no enclosing symbol for that import |
| DeriveStages.OneRunIsNotAlwaysEnough | crates/extractor/src/lib.rs:2001-2030 | a concrete project of two files on which one run is not a fixpoint |
| Reclassify.ReclassifyStringMatch | crates/extractor/src/lib.rs:984-1022 | each StringMatch edge between two enum variants or two API paths is replaced by its narrow kind, in any iteration order |
| Reclassify.NoCoarseMatchLeft | crates/extractor/src/lib.rs:984-1022 | afterwards no StringMatch edge joins two enum variants or two API path literals |
| Reclassify.MatchedPairsUnchanged | crates/extractor/src/lib.rs:984-1022 | the pairs linked by one of the three match kinds are the same as before |
| Reclassify.OtherEdgesUntouched | crates/extractor/src/lib.rs:984-1022 | every edge that is neither narrowed nor of a narrow kind is exactly as before |
| NarrowedMatches.MatchesNarrowByKind | crates/extractor/src/lib.rs:984-1022 | two enum variants get EnumValueMatch, two string literals starting with api_path:: get ApiPathMatch, with the evidence and origin of the replaced edge and three quarters of the origin's worth; other matches stay |
| Reclassify.ReclassifyIdempotent | crates/extractor/src/lib.rs:984-1022 | a second run changes nothing |
| Reclassify.CoarseMatchStaysAway | crates/graph/src/symbol_graph.rs:340-359 | retain_edges leaves the key seen, so inserting the coarse edge again answers true and adds nothing |
| Reclassify.TrueAnswerMeansPresent | crates/graph/src/symbol_graph.rs:249-267 | after inserting between known nodes the edge is present iff its key was not seen with its edge gone; always so on well-formed graphs for kinds other than StringMatch |
| Reindex.ReindexFile | crates/cli/src/dispatch.rs:1521-1745 | capture, remove, re-extract, re-link on the live graph give an outcome of ReindexedBy with its seven counters; captured = staled + dropped |
| Reindex.CaptureEdges | crates/cli/src/dispatch.rs:1572-1624 | exactly the edges with one end in the file, evidence elsewhere and a named end, each once |
| ReindexProperties.FileGone | crates/cli/src/dispatch.rs:1626-1629 | removing the file's nodes takes exactly the edges and keys that touch it and the file's entries of each index list, in order |
| ReindexProperties.ReindexFrame | crates/cli/src/dispatch.rs:1521-1745 | nodes of other files keep their order; edges that touch the file neither before nor after are identical; the file holds exactly the fresh symbols |
| ReindexProperties.RelinkedFaithfully | crates/cli/src/dispatch.rs:1659-1732 | each edge at the file is a copy of a captured one: outside end, direction, kind, origin, confidence, evidence and epoch kept, a same-named node of the file, stale count one higher up to saturation |
| ReindexProperties.RelinkMeaning | crates/cli/src/dispatch.rs:1660-1690 | which symbol an edge goes to, decided before the call: the first extracted bearer of the qualified name, else of the bare name, unless four outside nodes bear it |
| ReindexProperties.DroppedExactly | crates/cli/src/dispatch.rs:1649-1732 | an edge is re-linked iff that symbol exists, else dropped: gone name, or four outside bearers that hide it from the capped lookup |
| ReindexProperties.NothingDropped | crates/cli/src/dispatch.rs:1649-1732 | nothing is dropped when every captured name is still defined in the file and at most four nodes bear it |
| ReindexCapture.CapturedEdgesAreListed | crates/cli/src/dispatch.rs:1572-1624 | an edge of any kind and either direction is carried over iff it is evidenced elsewhere and joins a named symbol of the file to a symbol of another file |
| ReindexCapture.SuccessorMeaning | crates/cli/src/dispatch.rs:1660-1690 | the new symbol is the first with the old qualified name unless four nodes of other files bear it, else the first with the bare name under the same limit |
| ReindexCapture.CrossFileEdgeKept | crates/cli/src/dispatch.rs:1690-1732 | such an edge is there afterwards at that symbol, in the same direction and of the same kind |
| ReindexCapture.CopiesAgeByOne | crates/cli/src/dispatch.rs:1690-1732 | edges at the file are copies from before, one step staler up to 4294967295, and evidenced elsewhere |
| ReindexCapture.TelemetryCounts | crates/cli/src/dispatch.rs:1521-1745 | the counters are the nodes of the file before and after, the edges evidenced in it, the edges carried over whose symbol has a successor and those whose symbol has none |
| ReindexCapture.MissingFileCounts | crates/cli/src/dispatch.rs:1521-1745 | for a missing file nothing is inserted and everything carried over is dropped |
| ReindexRepeat.OnePassSettles | crates/cli/src/dispatch.rs:1484-1487 | a corollary for callers: one pass settles a file in which symbols of one qualified name share their bare name, overloads included |
| ReindexRepeat.OnePassSettlesIff | crates/cli/src/dispatch.rs:1484-1487 | for every graph and extraction, one pass settles the file iff every symbol that a captured edge finds is what the lookups of its own two names find; decided on the input graph and the extraction |
| ReindexRepeat.RelinkedPresent | crates/cli/src/dispatch.rs:1690-1732 | a captured edge whose lookup finds a symbol is in the graph afterwards, at that symbol |
| ReindexAmbiguous.OnePassDoesNotSettle | crates/cli/src/dispatch.rs:1660-1690 | a call into a file where two symbols of different bare names share a qualified name: one pass does not settle it |
| ReindexAmbiguous.CallMovesOnSecondPass | crates/cli/src/dispatch.rs:1660-1690 | there the first pass links the call to the second symbol by its bare name and the second pass to the first by the qualified one |
| ReindexRepeat.TwoPassesSettle | crates/cli/src/dispatch.rs:1484-1487 | two passes settle every file, also with ambiguous qualified names |
| ReindexRepeat.SettledPass | crates/cli/src/dispatch.rs:1521-1745 | a pass over a settled graph drops nothing, only renames the file's ids and ages its edges by exactly one |
| ReindexSettled.RenamesIffSettled | crates/cli/src/dispatch.rs:1521-1745 | a pass over an unchanged file only renames its ids and ages its edges by one iff the graph is settled |
| ReindexSettled.SecondPassRenamesIff | crates/cli/src/dispatch.rs:1484-1487 | of two passes the second only renames and ages iff every symbol a captured edge finds in the first is found again under its own names, decided on the input graph and the extraction |
| ReindexRepeat.RepeatedReindex | crates/cli/src/dispatch.rs:1521-1745 | n passes: one common renaming, no edge lost or gained, each file edge aged by exactly n up to saturation |
| ReindexRepeat.ConfidenceAfterPasses | crates/core/src/edge.rs:284-289 | after n passes the confidence of a file edge is its baseline times 0.7 to the old count plus n |
| Confidence.DecaysPerStaleFile | crates/core/src/edge.rs:284-289 | each stale step multiplies confidence by 0.7, below 2^31 steps |
| Confidence.DecayHoldsBelowSignBit | crates/core/src/edge.rs:286-289 | confidence stays at or below the baseline iff the count is below 2^31; from there the signed exponent raises it |
| Confidence.ConfidenceByStaleFiles | crates/core/src/edge.rs:145-289 | 0.99, 0.95, 0.85, 0.6, 0.4 or 0.2 by origin without stale files, times 0.7 for each of up to 2147483647, above that value again from there on |
| ProjectManagers.ProjectManager.constructor | crates/cli/src/project_manager.rs:139-149 | an empty daemon, in order |
| ProjectManagers.ProjectManager.GetOrBegin | crates/cli/src/project_manager.rs:203-234 | first critical section of a load: a hit iff the path is loaded and not to be rebuilt, and then its access time is now and it is last in the LRU list; otherwise the path is not loaded and is loading, under the gate it had or a new one |
| ProjectManagers.ProjectManager.FinishLoad | crates/cli/src/project_manager.rs:248-294 | second critical section: gate opened, graph installed with one caller and dirty unless restored, the victims of the count cap picked |
| ProjectManagers.ProjectManager.PickOldest | crates/cli/src/project_manager.rs:277-292 | the loop over the LRU list picks the first idle projects other than the one just loaded, as many as the cap is exceeded by |
| ProjectManagers.ProjectManager.Release | crates/cli/src/project_manager.rs:354-360 | decrements, 0 to 2^64 - 1, the counter of whatever entry the path holds now |
| ProjectManagers.ProjectManager.MarkDirty | crates/cli/src/project_manager.rs:366-373 | marks whatever entry the path holds now dirty and sets its build time to now |
| ProjectManagers.ProjectManager.Unload | crates/cli/src/project_manager.rs:376-381 | drops the project whatever its activity and tells whether it was loaded |
| ProjectManagers.ProjectManager.PickExpired | crates/cli/src/project_manager.rs:387-401 | exactly the projects idle for at least the timeout |
| ProjectManagers.ProjectManager.PersistEntry | crates/cli/src/project_manager.rs:415-433 | a clean entry is skipped, a successful write stores version and build time and clears the flag, a failed one changes nothing |
| ProjectManagers.ProjectManager.RemoveVictims | crates/cli/src/project_manager.rs:449-467 | the removal section looks each path up again and drops what is still evictable, counting the removals |
| ProjectManagers.ProjectManager.QuiesceAndRemove | crates/cli/src/project_manager.rs:441-467 | every victim persisted, with any outcomes, then the removal section |
| ProjectManagers.ProjectManager.EnforceByteBudget | crates/cli/src/project_manager.rs:310-351 | without interleaving the loop ends within a nonzero budget or with every project busy; it removed only idle projects, oldest first, and touched no other entry |
| ProjectManagers.TotalIsSum | crates/cli/src/project_manager.rs:310-351 | the total compared with the budget is the sum of the sizes of the loaded graphs |
| ProjectManagers.ProjectManager.InstallAndEvict | crates/cli/src/project_manager.rs:248-302 | after a load without interleaving the count is within the cap or every project is busy, likewise the bytes; the new project stays; only idle projects left |
| ProjectTable.CapEvictsOldest | crates/cli/src/project_manager.rs:272-293 | a victim of the cap is idle, and every idle project accessed earlier, other than the new one, is a victim too |
| ProjectTable.RemovedEffect | crates/cli/src/project_manager.rs:449-467 | removal takes exactly the evictable victims and nothing else of the table |
| ProjectTable.AccessedLruOk | crates/cli/src/project_manager.rs:586-589 | moving the accessed project to the end keeps the list a permutation ordered by access time |
| ProjectProtocol.InvStep | crates/cli/src/project_manager.rs:191-302 | every critical section of every thread, callers and clock included, keeps the singleflight invariant and the shape of the table |
| ProjectProtocol.FlightStep | crates/cli/src/project_manager.rs:203-270 | one builder per loading path, loaded and loading disjoint, waiters' gates open or being built, kept by each step |
| ProjectRuns.RunIsSafe | crates/cli/src/project_manager.rs:191-302 | every state of every interleaving satisfies the invariant and the LRU order |
| ProjectRuns.SingleflightHolds | crates/cli/src/project_manager.rs:223-260 | in every run: a path is loading iff a thread builds it, at most one thread does, it is not loaded, and no waiter waits for nobody |
| ProjectRuns.FinishNeverOverwrites | crates/cli/src/project_manager.rs:248-270 | in every run a finished build adds its own fresh entry, or nothing, and never replaces a loaded one |
| ProjectRuns.RunEvictsOldest | crates/cli/src/project_manager.rs:272-293 | in every run the cap's victims are idle, never the new project, and nobody idle is older |
| ProjectAccess.ListedByLastServed | crates/cli/src/project_manager.rs:215-220 | in every run the LRU list is ordered by the step that last handed each graph to a caller, hit or finished load |
| ProjectAccess.AccessTimeIsLastServed | crates/cli/src/project_manager.rs:215-220 | in every run each loaded project was served, and its access time is the time of the step that last did |
| ProjectAccess.CapTakesLeastRecentlyServed | crates/cli/src/project_manager.rs:272-293 | in every run the cap takes no more than are loaded beyond it, none busy or just loaded, each last served before every idle project that stays; if fewer, no other idle one is left |
| ProjectAccess.SweptWereNotServed | crates/cli/src/project_manager.rs:387-401 | in every run the sweeper picks idle projects that no step has served within the timeout |
| ProjectAccess.RemovedWereNotServed | crates/cli/src/project_manager.rs:449-467 | what an eviction removes is idle at that moment, and for the sweeper still unserved within the timeout |
| ProjectAccounting.AccountedStep | crates/cli/src/project_manager.rs:216-220 | a disciplined step keeps every counter equal to the unreleased loads of its entry and every held graph loaded |
| ProjectAccounting.DisciplineIsExact | crates/cli/src/project_manager.rs:206-214 | a step keeps every held graph the loaded one of its path iff its stale eviction or unload, if any, hits a graph nobody holds; the counters survive the step itself either way |
| ProjectAccounting.CountersExact | crates/cli/src/project_manager.rs:354-360 | in every disciplined run all counters are exact throughout |
| ProjectAccounting.HeldGraphsStay | crates/cli/src/project_manager.rs:310-351 | in every disciplined run no eviction, by count, bytes or idle time, takes a graph from a caller |
| ProjectAccounting.ReleaseNeverWraps | crates/cli/src/project_manager.rs:354-360 | in every disciplined run a release finds a positive counter |
| ProjectAccounting.ReleaseByPath | crates/cli/src/project_manager.rs:354-360 | release finds the entry by path: the loaded counter stays exact iff the released entry is the loaded one |
| ProjectDrift.CounterLaw | crates/cli/src/project_manager.rs:354-360 | in every run, disciplined or not, a loaded counter is its unreleased loads minus the releases meant for another entry of its path, modulo 2^64 |
| ProjectDrift.CounterIsExactIff | crates/cli/src/project_manager.rs:354-360 | in every run a loaded counter equals its unreleased loads iff the releases so far meant for another entry of its path are a multiple of 2^64; in fewer than 2^64 steps, iff there was none |
| ProjectAccounting.BusyReloadDrifts | crates/cli/src/project_manager.rs:206-214 | after a stale rebuild under a caller and that caller's release, the replacement counts as idle while its own caller holds it |
| ProjectDisk.CleanMeansSaved | crates/cli/src/project_manager.rs:366-433 | in every run that meets the exact condition of DiskAgreesIff at each step, a clean loaded graph nobody is changing has the version of its snapshot; nothing is asked of stale evictions, unloads or the success of writes |
| ProjectDisk.DiskAgreesIff | crates/cli/src/project_manager.rs:366-433 | for every step of daemon or caller: clean graphs agree with the disk and restored reads are current afterwards iff a detached write finds at its path no clean graph of another version and no reader of another version, and the Gone collector meets no clean loaded graph |
| ProjectDisk.DetachedPersist | crates/cli/src/project_manager.rs:415-448 | writing a dirty victim that left its path keeps both iff the graph loaded there is unsaved anyway or has that very version, and so has whatever a thread restoring that path has read |
| ProjectDisk.CollectorBreaksAgreement | crates/cli/src/project_manager.rs:499-513 | the Gone collector keeps the agreement iff it meets no clean loaded graph |
| ProjectStaleRead.CleanMeansSavedIff | crates/cli/src/project_manager.rs:366-433 | the condition in observable terms: in every run that met it so far, the next step meets it iff afterwards every clean unchanged graph is the one on disk, and so is every graph restored next |
| ProjectStaleRead.WriteUnderReader | crates/cli/src/project_manager.rs:415-448 | a detached write after another thread has read an older snapshot of the path: the graph restored next is clean and not what the disk holds |
| ProjectStaleRead.CleanIsNotAlwaysSaved | crates/cli/src/project_manager.rs:366-467 | a run from the empty daemon that ends so, although callers hold and mark, every eviction is guarded and every write succeeds: two sweepers pick one victim, and the second writes it after it was reloaded from the first one's snapshot |
| ProjectPersistence.FaithfulStep | crates/cli/src/project_manager.rs:366-467 | every careful step keeps clean entries equal to their snapshots and every picked victim saved, waiting to be saved, or new |
| ProjectPersistence.OnlyNewVersionsAreLost | crates/cli/src/project_manager.rs:436-467 | in every careful run an evicted graph is held by nobody and is on disk if clean; a dirty one is on disk or newer than the picking of the victims, whatever its persist met |
| ProjectLoss.LostAfterQuietPersist | crates/cli/src/project_manager.rs:436-467 | in every run, careful or not: if the victim was still loaded and nobody was changing it when it was persisted, and that one write did not fail, no later eviction of its path loses a version older than that persist, provided no detached write or collector takes a saved version from a loaded graph or its reader |
| ProjectLoss.LostAfterPersist | crates/cli/src/project_manager.rs:436-467 | the same for every persist that meets its path unloaded, writes the version loaded there, or writes nothing while that version is on disk |
| ProjectLoss.PersistSaves | crates/cli/src/project_manager.rs:415-433 | that condition before the write holds iff right after it nothing older is loaded unsaved at the path, for every enabled persist |
| ProjectLoss.OlderVersionCanBeLost | crates/cli/src/project_manager.rs:436-467 | where the condition fails, a continuation is built that persists the rest, drains the callers and evicts a version older than the persist that is not on disk |
| ProjectLoss.PersistBoundExact | crates/cli/src/project_manager.rs:436-467 | in every careful run: the condition holds at a persist iff no careful continuation loses a version of that path older than the persist |
| ProjectPersistence.FailedWriteLosesGraph | crates/cli/src/project_manager.rs:411-433 | a failed write does not hold the eviction back: the dirty graph goes, the old snapshot stays |
| ProjectPersistence.LostDespitePersist | crates/cli/src/project_manager.rs:436-467 | a version created before its victim was written can be lost: revive, change, write skipped as clean, mark, release, remove |
| Traversal.BreadthFirst | crates/cli/src/render.rs:343-389 | for any depth and filter, each passing edge is listed as often as the graph has it iff it is found within the hops; written out in TraversalMeaning.ListedMeansInReach |
| Traversal.Expand | crates/cli/src/render.rs:347-359 | one frontier vertex: its passing edges in graph order, its new neighbours once each |
| Traversal.NextLayer | crates/cli/src/render.rs:343-365 | the vertices first met from the vertices at distance k are exactly those at distance k + 1 |
| Traversal.NothingBeyond | crates/cli/src/render.rs:361-363 | stopping at an empty frontier is sound: no vertex lies beyond an empty layer |
| TraversalResults.BfsEdgesFiltered | crates/cli/src/render.rs:322-409 | incoming and outgoing lists: exact as above and ordered for display |
| TraversalResults.SortCorrect | crates/cli/src/render.rs:391-407 | the display order permutes, orders by depth then kind, and keeps equal ranks in order |
| TraversalResults.KindOrder | crates/cli/src/render.rs:411-441 | no two kinds tie; behaviour before containment before documentation before Resolves |
| TraversalResults.OnlyLatestEpochIsFresh | crates/cli/src/render.rs:334-341 | excluding stale edges keeps exactly the edges of the latest epoch |
| TraversalResults.ListedIffFound | crates/cli/src/render.rs:322-409 | an edge is listed under a depth iff it passes and its near end is one step closer |
| TraversalMeaning.ListedMeansInReach | crates/cli/src/render.rs:343-389 | an edge is listed under depth d, as often as the graph has it, iff it is confident and fresh enough, d is 1 or between 1 and the depth asked for, and shortest paths of such edges from the centre to its start (for incoming edges, back to its end) have d - 1 edges |
| TraversalMeaning.OneHopTouchesCentre | crates/cli/src/render.rs:343-369 | depth 0 or 1 lists exactly the edges at the centre |
| TraversalMeaning.DisplayOrder | crates/cli/src/render.rs:391-441 | in display order depth never decreases and within a depth the twenty kinds follow one list, from Calls to Resolves |
| TraversalResults.OneDepthEach | crates/cli/src/render.rs:351-358 | no edge is listed under two depths |
| TraversalResults.DeeperListsMore | crates/cli/src/render.rs:343-389 | a deeper query lists all of a shallower one, and more only beyond its depth |
| TraversalResults.WeakerFilterListsMore | crates/cli/src/render.rs:317-321 | a lower confidence floor or admitting stale edges hides nothing and puts nothing deeper |
| TraversalResults.IncomingIsReversedOutgoing | crates/cli/src/render.rs:367-389 | the incoming list is the outgoing list of the reversed graph |
| TraversalResults.BfsEdgesAggregated | crates/cli/src/render.rs:277-315 | one entry per (from, to, kind) of the union over the centres, as the first centre that finds it lists it, ordered for display |
| TraversalMeaning.AggregatedMeansInReach | crates/cli/src/render.rs:277-315 | several centres: listed entries are in reach of the first centre that reaches an edge of their key, every edge in reach has an entry of its key, and no key has two |
| TraversalResults.AggregatedDepthIsLeastIff | crates/cli/src/render.rs:291-302 | for every graph and list of centres: the depth of an aggregated edge is the least over the centres iff no centre after the first that finds it is strictly nearer to a passing edge of its key |
| TraversalResults.OneHopIsAlwaysLeast | crates/cli/src/render.rs:291-302 | with one hop it always is |
| TraversalResults.FirstCentreNotNearest | crates/cli/src/render.rs:291-302 | a literal case where that depth is not the least: two centres on a chain of three |
| Levenshtein.Distance | crates/core/src/text.rs:9-34 | the loops over two swapped rows compute the recursive edit distance |
| Levenshtein.FillRow | crates/core/src/text.rs:22-31 | one row of the table from the previous one, and its least entry |
| Levenshtein.DistanceBounded | crates/graph/src/symbol_graph.rs:17-52 | the early-exit variant is exact, or answers cutoff + 1 when the distance exceeds the cutoff |
| Levenshtein.RowBelow | crates/graph/src/symbol_graph.rs:33-48 | every row has an entry no larger than the distance, which is why the early exit is sound |
| Levenshtein.ScriptsCostAtLeast | crates/core/src/text.rs:3-9 | no edit script from one string to the other costs less than the distance |
| Levenshtein.CheapestScript | crates/core/src/text.rs:3-9 | some edit script costs exactly the distance |
| Levenshtein.ZeroIffEqual | crates/core/src/text.rs:9-34 | distance zero iff equal |
| Levenshtein.Symmetric | crates/core/src/text.rs:9-34 | symmetry |
| Levenshtein.Triangle | crates/core/src/text.rs:9-34 | triangle inequality |
| Levenshtein.LengthBounds | crates/core/src/text.rs:9-34 | between the length difference and the longer length |
| Base64.EncodeCursor | crates/cli/src/render.rs:81-108 | the index loop and its tail produce the digit string of the specification |
| Base64.DecodeCursor | crates/cli/src/render.rs:110-153 | the padding filter, the loop over groups of four and its tail, with every early exit, decode as specified |
| Base64.StripPadding | crates/cli/src/render.rs:121 | the filter drops the padding bytes and keeps the others in order |
| Base64.RoundTrip | crates/cli/src/render.rs:81-153 | decoding an encoding gives the bytes back, for every byte string |
| Base64.EncodedShape | crates/cli/src/render.rs:81-108 | only URL-safe digits, unpadded, ceiling of 4n/3 of them |
| Base64.EncodeAfterDecode | crates/cli/src/render.rs:81-153 | encoding a decoding gives the string back iff it is URL-safe, not of length 1 mod 4 and has zero trailing bits |
| Base64.DecodeFailsIff | crates/cli/src/render.rs:110-153 | decoding fails iff a digit it reads is in neither alphabet; a lone last digit is not read |
| Base64Layout.Alphabets | crates/cli/src/render.rs:81-120 | digit by digit, the URL-safe alphabet is written and both alphabets are read, nothing else |
| Base64Layout.GroupLayout | crates/cli/src/render.rs:81-108 | three bytes go to four digits, most significant bits first |
| Base64Layout.TailLayout | crates/cli/src/render.rs:98-107 | one or two last bytes go to two or three digits with zero low bits |
| Base64Layout.PaddingIsSkipped | crates/cli/src/render.rs:110-121 | the equals sign is skipped wherever it stands, every other byte is read as a digit |
| Scrubber.BlankCommentsAndStrings | crates/extractor/src/kotlin.rs:348-473 | the scanner loop writes Scrub(Code, source), whose meaning is stated by the ScrubberLaws, or falls back to the source when that is not UTF-8 |
| Scrubber.Scan | crates/extractor/src/kotlin.rs:364-467 | one turn of the loop, branch by branch, is one step of the specification |
| Scrubber.EachByte | crates/extractor/src/kotlin.rs:364-467 | what each byte becomes: kept in code unless it opens something, else a space or a kept newline, swallowed bytes a space |
| ScrubberLaws.LineComment | crates/extractor/src/kotlin.rs:367-408 | // up to the first newline becomes spaces and scanning goes on after it; without one to the end (UnendedLineComment) |
| ScrubberLaws.StringLiteral | crates/extractor/src/kotlin.rs:428-441 | a string up to its first unescaped quote becomes spaces and scanning goes on after it |
| ScrubberLaws.CharLiteral | crates/extractor/src/kotlin.rs:453-467 | the same for a character literal |
| ScrubberLaws.UnendedLiteral | crates/extractor/src/kotlin.rs:428-467 | a literal that nothing ends runs to the end, a last lone backslash included |
| ScrubberLaws.RawString | crates/extractor/src/kotlin.rs:442-452 | a raw string up to the first three quotes becomes spaces, escapes mean nothing in it; without them to the end (UnendedRawString) |
| ScrubberLaws.BlockComment | crates/extractor/src/kotlin.rs:409-427 | a block comment ends where the comments nested in it have ended |
| ScrubberLaws.UnendedBlockComment | crates/extractor/src/kotlin.rs:409-427 | a comment without a closing delimiter runs to the end |
| ScrubberLaws.UnendedOuterComment | crates/extractor/src/kotlin.rs:409-427 | so does one that closes only the comments nested in it |
| ScrubberLaws.CodeKept | crates/extractor/src/kotlin.rs:367-399 | a byte that opens nothing is kept and scanning goes on in code |
| Scrubber.OnlyBlanks | crates/extractor/src/kotlin.rs:339-347 | each output byte is the input byte or a space; no newline is made up |
| Scrubber.NewlinesSurvive | crates/extractor/src/kotlin.rs:428-464 | a newline is lost iff it follows a backslash the scanner meets inside a string or character literal |
| Scrubber.FallbackUnreachable | crates/extractor/src/kotlin.rs:469-472 | valid UTF-8 in gives valid UTF-8 out |
| Scrubber.ScrubTwice | crates/extractor/src/kotlin.rs:348-473 | scrubbing twice is scrubbing once |
| DiffEdit.DiffEdit | crates/extractor/src/incremental.rs:132-170 | the edit rebuilds new from old, bounds are ordered, no single contiguous edit leaves more bytes alone, the points are those of the offsets and the start point is the same in both revisions |
| DiffEdit.GreedyIsTightest | crates/extractor/src/incremental.rs:136-154 | taking the longest prefix first, then the longest suffix of the rest, is optimal over all single edits |
| DiffEdit.UnchangedEdit | crates/extractor/src/incremental.rs:136-154 | equal revisions give the empty edit at the end |
| Lines.ByteToPoint | crates/extractor/src/incremental.rs:172-189 | row is the number of newlines before the clamped offset, column the bytes since the last one |
| Lines.PointsOrdered | crates/extractor/src/incremental.rs:172-189 | points grow with the offset |
| Lines.PointsInjective | crates/extractor/src/incremental.rs:172-189 | and strictly so within the text |
| Lines.LineOfByte | crates/cli/src/render.rs:16-19 | one plus the newlines before the clamped offset |
| LineCol.ResolveLineCol | crates/core/src/span.rs:14-33 | snapped offset, newline count and UTF-16 column fit in 32 bits and are those of the specification; every slice is at character boundaries |
| LineCol.LineTextValid | crates/core/src/span.rs:23-29 | the line start is a boundary, so the second snapping never moves it and the line text is valid UTF-8 |
| Characters.ValidByCharacters | crates/core/src/span.rs:23-33 | text is valid iff it is empty or a character of one to four bytes before valid text, and its UTF-16 length is two for a character of four bytes and one for each other |
| Characters.ValidStarts | crates/core/src/span.rs:23-33 | valid text starts with such a character |
| Characters.PositionInLine | crates/core/src/span.rs:14-33 | within a line the position is the number of newlines before it and the UTF-16 width of what was read of it; the byte column is its length |
| LineCol.StrictOnBoundaries | crates/core/src/span.rs:14-33 | on character boundaries later offsets have strictly later positions |
| LineCol.Monotone | crates/core/src/span.rs:14-33 | for all offsets, inside characters or past the end, positions never decrease |
| LineCol.LinesAgree | crates/core/src/span.rs:22-23 | the line equals the row of byte_to_point and line_of_byte minus one at every offset |

## Left out

- Storage: petgraph slots, path interning, id_map, evidence_index, value_index, bloom filters and update timestamps; a new node's place in the iteration order is arbitrary instead.
- Node status, the Gone cemetery, `insert_node_preserving_id`, `bump_stale_evidence` and fuzzy lookup do not take part in the modelled passes.
- Extraction, reference lists, named imports and module-specifier resolution are arbitrary fixed values, the same on every run over the same sources.
- Paths are lists of components; which of two equally scored files a synthetic module is placed at is left open.
- Texts are byte strings, as the modelled code treats them; confidences are reals, so f32 and f64 rounding is not modelled; the edge-kind discriminant is the kind itself.
- Other passes of a build (type relationships, mentions, markdown, stack-graphs, mediators) and `build_graph_incremental`'s own bookkeeping.
- DeriveStages.NoRatchet: takes references and imports to sit in named files, as file walking guarantees.
- ReindexRepeat.ConfidenceAfterPasses: stops at 2^31 stale steps, where the code's exponent turns negative.
- Project manager: paths are canonical already, `persist_entry` is one step (the graph's read lock is held while it writes and the flag is cleared after), the clock is a natural number, heap sizes are an arbitrary function of the version, and interleaved byte-budget rounds pick any idle entry they had noted.
- ProjectManagers.ProjectManager.EnforceByteBudget: the bound on the total is stated without interleaving; with interleaving the loop's rounds are steps of the protocol.
- DeriveInput.OneRunIsEnoughBefore: takes no reference or named import to use the name of a barrel's File node, such as `index.ts`; `DeriveFixpoint.OneRunIsEnoughIff` covers those on the outcome of the first run.
- ProjectLoss.PersistBoundExact: takes evictions whose remaining victims are clean or still loaded, so that the continuation stays careful, and not the shutdown pass, which removes nothing.
- Fewer than 2^64 callers hold one graph at a time, so a load's increment does not wrap in the protocol; the methods themselves wrap.
- Progress: that a waiter is eventually woken or a load eventually ends is not stated, only that no waiter waits for a load nobody performs.
- `should_auto_stop` measures a drained daemon from its start time, so no claim about "no query for auto_stop" is made; `status` and `persist_all_dirty`'s count are plain reads.
- Scrubber.Scan: the nesting counter is unbounded, while the source's 32-bit counter would overflow after 2^32 nested openings.
- Sorting and string functions of the standard library are specified (stable, ordering, permuting), not implemented as the library does.
- `pick_center_index` and `multi_def_note`: selections over one list, each clear from its own body.
- Rendering, cursors' JSON, token estimates, path-trust labels, IPC, process management, HTTP, configuration and viewers: plumbing around the modelled core.
- `extract_enum_entries` and `body_end_offset`: byte-as-char and line-end assumptions that only hold for some inputs.
