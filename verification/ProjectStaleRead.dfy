/** A detached write under a thread that restores the same path, and what becomes of it. */
module ProjectStaleRead {
  import opened Symbols
  import opened ProjectTable
  import opened ProjectManagers
  import opened ProjectProtocol
  import opened ProjectRuns
  import opened ProjectAccounting
  import opened ProjectDrift
  import opened ProjectDisk

  /** The thread installs the graph it has read from the snapshot. */
  function Restore(w: World, u: ThreadId, cap: nat): Action
    requires PcOf(w, u).Building? && PcOf(w, u).read.Some?
  {
    Finish(u, Some(FromSnapshot(PcOf(w, u).read.value)), cap)
  }

  /** At `p` a clean graph nobody is changing is loaded, and the disk does not have its version. */
  ghost predicate DisagreesAt(w: World, p: ProjectPath) {
    && p in w.m.projects && w.m.projects[p] in w.m.entries
    && !w.m.entries[w.m.projects[p]].dirty && w.mutating[w.m.projects[p]] == 0
    && !Stored(w.m, p, w.m.projects[p])
  }

  lemma AgreementMeans(w: World)
    requires TableOk(w.m)
    ensures Agreement(w) <==> forall p :: !DisagreesAt(w, p)
  {
    LoadedHaveEntries(w.m);
    hide TableOk, Stored;
    if forall p :: !DisagreesAt(w, p) {
      forall p | p in w.m.projects ensures Unsaved(w, w.m.projects[p]) || Stored(w.m, p, w.m.projects[p]) {
        assert !DisagreesAt(w, p);
      }
    }
  }

  /** Ids not handed out yet have no callers. */
  ghost predicate FreshUnused(w: World) {
    forall e :: e !in w.m.entries ==> w.held[e] == 0 && w.mutating[e] == 0
  }

  /** A restored graph is clean, so it agrees with the disk if and only if the version read is still there. */
  lemma RestoreAgrees(w: World, u: ThreadId, cap: nat)
    requires Inv(w) && TableOk(w.m) && FreshUnused(w) && PcOf(w, u).Building? && PcOf(w, u).read.Some?
    ensures Enabled(w, Restore(w, u, cap))
    ensures var p := PcOf(w, u).path;
            DisagreesAt(Apply(w, Restore(w, u, cap)), p) <==>
            !(p in w.m.snapshots && w.m.snapshots[p].version == PcOf(w, u).read.value.version)
  {
    hide Inv, TableOk, CapVictims, Forget;
    BuilderIsAlone(w, u);
  }

  /**
    A victim written after it left its path, while another thread has read an older snapshot of that
    path: the graph restored next is clean and not what the disk holds.
   */
  lemma WriteUnderReader(w: World, t: ThreadId, u: ThreadId, cap: nat)
    requires Inv(w) && TableOk(w.m) && FreshUnused(w) && Enabled(w, PersistNext(t, true))
    requires PcOf(w, u).Building? && PcOf(w, u).read.Some? && PcOf(w, u).path == NextVictim(w, t).path
    requires w.m.entries[NextVictim(w, t).entry].dirty
    requires PcOf(w, u).read.value.version != w.m.entries[NextVictim(w, t).entry].version
    ensures var after := After(w, [PersistNext(t, true), Restore(w, u, cap)]);
            after.Some? && DisagreesAt(after.value, PcOf(w, u).path)
  {
    hide Inv, TableOk, Apply, Enabled, FreshUnused, DisagreesAt;
    var a, w1 := PersistNext(t, true), Apply(w, PersistNext(t, true));
    EnabledPersist(w, t, true);
    PersistThreads(w, t, true, u);
    PersistSnapshots(w, t, true);
    FreshUnusedStep(w, a);
    InvStep(w, a);
    InvTable(w1);
    RestoreAgrees(w1, u, cap);
    AfterTwo(w, a, Restore(w, u, cap));
  }

  // ------------------------------------------------------------ in every run

  lemma OnlyEntriesChange(w: World, a: Action, e: EntryId)
    requires TableOk(w.m) && Enabled(w, a) && e !in w.m.entries && w.mutating[e] == 0
    ensures Apply(w, a).mutating[e] == 0
  {
    hide TableOk, Lookup, MustRebuild, CapVictims, LoadEnded, Installed, Removed, Persisted, Released, MarkedDirty,
         Changed, Dropped, Evictable, DistinctPaths, LoadedAs;
  }

  lemma FreshUnusedStep(w: World, a: Action)
    requires Inv(w) && FreshUnused(w) && Enabled(w, a)
    ensures FreshUnused(Apply(w, a))
  {
    hide Inv, TableOk, Apply, Enabled;
    InvTable(w);
    forall e | e !in Apply(w, a).m.entries ensures Apply(w, a).held[e] == 0 && Apply(w, a).mutating[e] == 0 {
      CallersGrow(w, a, e);
      OnlyEntriesChange(w, a, e);
    }
  }

  lemma {:induction false} RunFreshUnused(ws: seq<World>, steps: seq<Action>, i: nat)
    requires IsRun(ws, steps) && i <= |steps|
    ensures FreshUnused(ws[i])
  {
    hide Safe, TableOk, Inv, Enabled, Apply, FreshUnused;
    if i == 0 {
      NobodyAtStart();
    } else {
      RunFreshUnused(ws, steps, i - 1);
      RunIsSafe(ws, steps, i - 1);
      SafeInv(ws[i - 1]);
      FreshUnusedStep(ws[i - 1], steps[i - 1]);
    }
  }

  lemma NobodyAtStart()
    ensures FreshUnused(Start)
  {
  }

  /** Whoever restores next, the table and the disk agree at its path. */
  ghost predicate RestoresAgree(w: World)
    requires TableOk(w.m)
  {
    forall u, cap: nat :: PcOf(w, u).Building? && PcOf(w, u).read.Some? ==>
      Enabled(w, Restore(w, u, cap)) && !DisagreesAt(Apply(w, Restore(w, u, cap)), PcOf(w, u).path)
  }

  lemma WarmIffRestoresAgree(w: World)
    requires Inv(w) && TableOk(w.m) && FreshUnused(w)
    ensures Warm(w) <==> RestoresAgree(w)
  {
    hide Inv, TableOk, Enabled, Apply, FreshUnused, DisagreesAt;
    forall u, cap: nat | PcOf(w, u).Building? && PcOf(w, u).read.Some?
      ensures Enabled(w, Restore(w, u, cap))
      ensures DisagreesAt(Apply(w, Restore(w, u, cap)), PcOf(w, u).path) <==>
              !(PcOf(w, u).path in w.m.snapshots &&
                w.m.snapshots[PcOf(w, u).path].version == PcOf(w, u).read.value.version)
    {
      RestoreAgrees(w, u, cap);
    }
    if RestoresAgree(w) {
      forall u | PcOf(w, u).Building? && PcOf(w, u).read.Some?
        ensures PcOf(w, u).path in w.m.snapshots
        ensures w.m.snapshots[PcOf(w, u).path].version == PcOf(w, u).read.value.version
      {
        assert !DisagreesAt(Apply(w, Restore(w, u, 0)), PcOf(w, u).path);
      }
    }
  }

  /**
    In every run whose steps so far spared clean graphs and readers: the next step does so if and only
    if afterwards every clean graph agrees with the disk, and so does every graph that is restored next.
   */
  lemma CleanMeansSavedIff(ws: seq<World>, steps: seq<Action>, i: nat)
    requires IsRun(ws, steps) && i < |steps|
    requires forall k :: 0 <= k < i ==> SparesClean(ws[k], steps[k]) && SparesReaders(ws[k], steps[k])
    ensures TableOk(ws[i + 1].m)
    ensures var w2 := ws[i + 1];
            SparesClean(ws[i], steps[i]) && SparesReaders(ws[i], steps[i]) <==>
            (forall p :: !DisagreesAt(w2, p)) && RestoresAgree(w2)
  {
    hide Safe, TableOk, Inv, Enabled, Apply, FreshUnused, SparesClean, SparesReaders, Agreement, Warm, DisagreesAt,
         RestoresAgree;
    RunAgreesUpTo(ws, steps, i);
    RunIsSafe(ws, steps, i + 1);
    SafeInv(ws[i + 1]);
    InvTable(ws[i + 1]);
    DiskAgreesIff(ws[i], steps[i]);
    RunFreshUnused(ws, steps, i + 1);
    WarmIffRestoresAgree(ws[i + 1]);
    AgreementMeans(ws[i + 1]);
  }

  // ------------------------------------------------------------ a run that ends so

  const P := "p"
  const V := Victim(P, 1)
  const S0 := Snapshot(0, 0)

  /** Every step can be taken, evicts no held graph without a guard, and every write succeeds. */
  ghost predicate UnfailingPath(w: World, steps: seq<Action>)
    decreases |steps|
  {
    steps == [] ||
    (TableOk(w.m) && Enabled(w, steps[0]) && Disciplined(w, steps[0]) && (steps[0].PersistNext? ==> steps[0].ok)
     && UnfailingPath(Apply(w, steps[0]), steps[1..]))
  }

  ghost predicate Takes(w: World, a: Action) {
    Inv(w) && FreshUnused(w) && TableOk(w.m) && Enabled(w, a) && Disciplined(w, a) && (a.PersistNext? ==> a.ok)
  }

  lemma {:induction false} TakeOne(w: World, steps: seq<Action>, w1: World, a: Action)
    requires UnfailingPath(w, steps) && After(w, steps) == Some(w1) && Takes(w1, a)
    ensures TableOk(w1.m) && Enabled(w1, a)
    ensures UnfailingPath(w, steps + [a]) && After(w, steps + [a]) == Some(Apply(w1, a))
    decreases |steps|
  {
    hide TableOk, Enabled, Apply, Disciplined, Inv, FreshUnused;
    if steps == [] {
      AfterOne(w, a);
      assert [a][1..] == [] && [] + [a] == [a];
    } else {
      assert (steps + [a])[1..] == steps[1..] + [a];
      TakeOne(Apply(w, steps[0]), steps[1..], w1, a);
    }
  }

  lemma OneMore(w: World, steps: seq<Action>, w1: World, a: Action) returns (path: seq<Action>, w2: World)
    requires UnfailingPath(w, steps) && After(w, steps) == Some(w1) && Takes(w1, a)
    ensures TableOk(w1.m) && Enabled(w1, a) && path == steps + [a] && w2 == Apply(w1, a)
    ensures UnfailingPath(w, path) && After(w, path) == Some(w2)
  {
    hide TableOk, Enabled, Apply, Disciplined, Inv, FreshUnused, UnfailingPath, After;
    TakeOne(w, steps, w1, a);
    path, w2 := steps + [a], Apply(w1, a);
  }

  /** The graph `e` of `P` as its callers and the disk see it, and what the two evictors and the caller do. */
  ghost predicate Scene(w: World, e: ProjectEntry, loaded: bool, saved: Option<Snapshot>, callers: nat, changing: nat,
                        first: Pc, second: Pc, caller: Pc) {
    && Inv(w) && FreshUnused(w) && TableOk(w.m)
    && 1 in w.m.entries && w.m.entries[1] == e && w.m.now == 0
    && (if loaded then P in w.m.projects && w.m.projects[P] == 1 else P !in w.m.projects)
    && (if saved.Some? then P in w.m.snapshots && w.m.snapshots[P] == saved.value else P !in w.m.snapshots)
    && (caller.Building? || P !in w.m.loading)
    && w.held[1] == callers && w.mutating[1] == changing
    && PcOf(w, 1) == first && PcOf(w, 2) == second && PcOf(w, 3) == caller
  }

  function Entry(version: nat, active: usize, dirty: bool): ProjectEntry {
    ProjectEntry(P, version, active, 0, 0, dirty)
  }

  function Sweeper(next: nat): Pc {
    Evicting([V], next, WhenIdleFor(0), Done, 1)
  }

  lemma Advances(w: World, a: Action)
    requires Inv(w) && FreshUnused(w) && TableOk(w.m) && Enabled(w, a)
    ensures Inv(Apply(w, a)) && FreshUnused(Apply(w, a)) && TableOk(Apply(w, a).m)
  {
    hide Inv, FreshUnused, TableOk, Enabled, Apply;
    InvStep(w, a);
    InvTable(Apply(w, a));
    FreshUnusedStep(w, a);
  }

  lemma Begins(w: World)
    requires w == Start
    ensures Takes(w, LookUp(0, P, Never, false))
    ensures var w2 := Apply(w, LookUp(0, P, Never, false));
            && Inv(w2) && FreshUnused(w2) && TableOk(w2.m) && PcOf(w2, 0) == Building(P, 0, None)
            && w2.m == Initial.(loading := map[P := 0], nextId := 1)
            && w2.held == multiset{} && w2.mutating == multiset{}
            && PcOf(w2, 1) == Ready && PcOf(w2, 2) == Ready && PcOf(w2, 3) == Ready
  {
    StartIsSafe();
    NobodyAtStart();
    hide Inv, FreshUnused, Singleflight, VictimsKnown, LruOk, DistinctVictims;
    SafeInv(w);
    Advances(w, LookUp(0, P, Never, false));
  }

  lemma Builds(w: World)
    requires Inv(w) && FreshUnused(w) && TableOk(w.m) && PcOf(w, 0) == Building(P, 0, None)
    requires w.m == Initial.(loading := map[P := 0], nextId := 1)
    requires w.held == multiset{} && w.mutating == multiset{}
    requires PcOf(w, 1) == Ready && PcOf(w, 2) == Ready && PcOf(w, 3) == Ready
    ensures Takes(w, Finish(0, Some(FromSource(0)), 9))
    ensures var w2 := Apply(w, Finish(0, Some(FromSource(0)), 9));
            Scene(w2, Entry(0, 1, true), true, None, 1, 0, Ready, Ready, Ready) && w2.m.nextVersion == 1
  {
    hide Inv, FreshUnused, TableOk, CapVictims, Forget;
    Advances(w, Finish(0, Some(FromSource(0)), 9));
  }

  lemma Releases(w: World, v: nat, saved: Option<Snapshot>, first: Pc, second: Pc)
    requires Scene(w, Entry(v, 1, true), true, saved, 1, 0, first, second, Ready)
    ensures Takes(w, Release(1))
    ensures Scene(Apply(w, Release(1)), Entry(v, 0, true), true, saved, 0, 0, first, second, Ready)
    ensures Apply(w, Release(1)).m.nextVersion == w.m.nextVersion
  {
    hide Inv, FreshUnused, TableOk;
    Advances(w, Release(1));
  }

  lemma Picks(w: World, t: ThreadId, first: Pc)
    requires Scene(w, Entry(0, 0, true), true, None, 0, 0, first, Ready, Ready)
    requires w.m.nextVersion == 1 && (t == 2 || (t == 1 && first == Ready))
    ensures Takes(w, Sweep(t, 0, [V]))
    ensures var w2 := Apply(w, Sweep(t, 0, [V]));
            && w2.m.nextVersion == 1
            && Scene(w2, Entry(0, 0, true), true, None, 0, 0, if t == 1 then Sweeper(0) else first,
                     if t == 2 then Sweeper(0) else Ready, Ready)
  {
    hide Inv, FreshUnused, TableOk;
    Advances(w, Sweep(t, 0, [V]));
  }

  lemma Persists(w: World)
    requires Scene(w, Entry(0, 0, true), true, None, 0, 0, Sweeper(0), Sweeper(0), Ready)
    ensures Takes(w, PersistNext(1, true))
    ensures var w2 := Apply(w, PersistNext(1, true));
            && w2.m.nextVersion == w.m.nextVersion
            && Scene(w2, Entry(0, 0, false), true, Some(S0), 0, 0, Sweeper(1), Sweeper(0), Ready)
  {
    hide Inv, FreshUnused, TableOk;
    Advances(w, PersistNext(1, true));
  }

  lemma Hits(w: World)
    requires Scene(w, Entry(0, 0, false), true, Some(S0), 0, 0, Sweeper(1), Sweeper(0), Ready)
    ensures Takes(w, LookUp(3, P, Never, false))
    ensures var w2 := Apply(w, LookUp(3, P, Never, false));
            && w2.m.nextVersion == w.m.nextVersion
            && Scene(w2, Entry(0, 1, false), true, Some(S0), 1, 0, Sweeper(1), Sweeper(0), Ready)
  {
    hide Inv, FreshUnused, TableOk, Forget;
    Advances(w, LookUp(3, P, Never, false));
  }

  lemma Mutates(w: World)
    requires Scene(w, Entry(0, 1, false), true, Some(S0), 1, 0, Sweeper(1), Sweeper(0), Ready)
    requires w.m.nextVersion == 1
    ensures Takes(w, Mutate(1, true))
    ensures Scene(Apply(w, Mutate(1, true)), Entry(1, 1, false), true, Some(S0), 1, 1, Sweeper(1), Sweeper(0), Ready)
  {
    hide Inv, FreshUnused, TableOk;
    Advances(w, Mutate(1, true));
  }

  lemma Marks(w: World)
    requires Scene(w, Entry(1, 1, false), true, Some(S0), 1, 1, Sweeper(1), Sweeper(0), Ready)
    ensures Takes(w, MarkDirty(1))
    ensures Scene(Apply(w, MarkDirty(1)), Entry(1, 1, true), true, Some(S0), 1, 0, Sweeper(1), Sweeper(0), Ready)
  {
    hide Inv, FreshUnused, TableOk;
    Advances(w, MarkDirty(1));
  }

  lemma Removes(w: World)
    requires Scene(w, Entry(1, 0, true), true, Some(S0), 0, 0, Sweeper(1), Sweeper(0), Ready)
    ensures Takes(w, RemoveNow(1))
    ensures Scene(Apply(w, RemoveNow(1)), Entry(1, 0, true), false, Some(S0), 0, 0, Ready, Sweeper(0), Ready)
  {
    hide Inv, FreshUnused, TableOk, Removed, IsVictim;
    Advances(w, RemoveNow(1));
    ListedVictim([V], V);
    RemovedEffect(w.m, [V], WhenIdleFor(0));
  }

  lemma Reloads(w: World)
    requires Scene(w, Entry(1, 0, true), false, Some(S0), 0, 0, Ready, Sweeper(0), Ready)
    ensures Takes(w, LookUp(3, P, Never, false))
    ensures var w2 := Apply(w, LookUp(3, P, Never, false));
            Scene(w2, Entry(1, 0, true), false, Some(S0), 0, 0, Ready, Sweeper(0), Building(P, w.m.nextId, None))
  {
    hide Inv, FreshUnused, TableOk, Forget;
    Advances(w, LookUp(3, P, Never, false));
  }

  lemma Reads(w: World, gate: GateId)
    requires Scene(w, Entry(1, 0, true), false, Some(S0), 0, 0, Ready, Sweeper(0), Building(P, gate, None))
    ensures Takes(w, ReadSnapshot(3))
    ensures Scene(Apply(w, ReadSnapshot(3)), Entry(1, 0, true), false, Some(S0), 0, 0, Ready, Sweeper(0),
                  Building(P, gate, Some(S0)))
  {
    hide Inv, FreshUnused, TableOk;
    Advances(w, ReadSnapshot(3));
  }

  const LOAD := LookUp(0, P, Never, false)
  const BUILD := Finish(0, Some(FromSource(0)), 9)
  const HIT := LookUp(3, P, Never, false)
  const RESTORE := Finish(3, Some(FromSnapshot(S0)), 9)

  /** A caller loads and releases; two sweepers pick the idle graph and the first one writes it. */
  const OPENING := [LOAD, BUILD, Release(1), Sweep(1, 0, [V]), Sweep(2, 0, [V]), PersistNext(1, true)]

  /** A caller revives the graph, changes, marks and releases it, and the first sweeper removes it. */
  const CHANGE := [HIT, Mutate(1, true), MarkDirty(1), Release(1), RemoveNow(1)]

  /** The same caller loads again and reads the snapshot; the second sweeper writes its victim; the load ends. */
  const RELOAD := [HIT, ReadSnapshot(3), PersistNext(2, true), RESTORE]

  lemma Opens() returns (w: World)
    ensures UnfailingPath(Start, OPENING) && After(Start, OPENING) == Some(w)
    ensures Scene(w, Entry(0, 0, false), true, Some(S0), 0, 0, Sweeper(1), Sweeper(0), Ready) && w.m.nextVersion == 1
  {
    hide Takes, Scene, Apply, Enabled, TableOk, UnfailingPath, After;
    NoStep(Start);
    var path;
    path, w := [], Start;
    Begins(Start);
    path, w := OneMore(Start, path, w, LOAD);
    Builds(w);
    path, w := OneMore(Start, path, w, BUILD);
    Releases(w, 0, None, Ready, Ready);
    path, w := OneMore(Start, path, w, Release(1));
    Picks(w, 1, Ready);
    path, w := OneMore(Start, path, w, Sweep(1, 0, [V]));
    Picks(w, 2, Sweeper(0));
    path, w := OneMore(Start, path, w, Sweep(2, 0, [V]));
    Persists(w);
    path, w := OneMore(Start, path, w, PersistNext(1, true));
    assert path == OPENING;
  }

  lemma NoStep(w: World)
    ensures UnfailingPath(w, []) && After(w, []) == Some(w)
  {
  }

  lemma Changes(w: World) returns (w2: World)
    requires Scene(w, Entry(0, 0, false), true, Some(S0), 0, 0, Sweeper(1), Sweeper(0), Ready) && w.m.nextVersion == 1
    ensures UnfailingPath(w, CHANGE) && After(w, CHANGE) == Some(w2)
    ensures Scene(w2, Entry(1, 0, true), false, Some(S0), 0, 0, Ready, Sweeper(0), Ready)
  {
    hide Takes, Scene, Apply, Enabled, TableOk, UnfailingPath, After;
    NoStep(w);
    var path;
    path, w2 := [], w;
    Hits(w2);
    path, w2 := OneMore(w, path, w2, HIT);
    Mutates(w2);
    path, w2 := OneMore(w, path, w2, Mutate(1, true));
    Marks(w2);
    path, w2 := OneMore(w, path, w2, MarkDirty(1));
    Releases(w2, 1, Some(S0), Sweeper(1), Sweeper(0));
    path, w2 := OneMore(w, path, w2, Release(1));
    Removes(w2);
    path, w2 := OneMore(w, path, w2, RemoveNow(1));
    assert path == CHANGE;
  }

  /** The second sweeper writes version 1 after the loader has read version 0. */
  lemma WritesLate(w: World, gate: GateId)
    requires Scene(w, Entry(1, 0, true), false, Some(S0), 0, 0, Ready, Sweeper(0), Building(P, gate, Some(S0)))
    ensures Takes(w, PersistNext(2, true)) && Takes(Apply(w, PersistNext(2, true)), RESTORE)
    ensures DisagreesAt(Apply(Apply(w, PersistNext(2, true)), RESTORE), P)
  {
    hide Inv, FreshUnused, TableOk, DisagreesAt, CapVictims;
    Advances(w, PersistNext(2, true));
    RestoreAgrees(Apply(w, PersistNext(2, true)), 3, 9);
  }

  lemma Ends(w: World) returns (w2: World)
    requires Scene(w, Entry(1, 0, true), false, Some(S0), 0, 0, Ready, Sweeper(0), Ready)
    ensures UnfailingPath(w, RELOAD) && After(w, RELOAD) == Some(w2) && DisagreesAt(w2, P)
  {
    hide Takes, Scene, Apply, Enabled, TableOk, UnfailingPath, After, DisagreesAt;
    NoStep(w);
    var path;
    path, w2 := [], w;
    Reloads(w2);
    path, w2 := OneMore(w, path, w2, HIT);
    Reads(w2, w.m.nextId);
    path, w2 := OneMore(w, path, w2, ReadSnapshot(3));
    WritesLate(w2, w.m.nextId);
    path, w2 := OneMore(w, path, w2, PersistNext(2, true));
    path, w2 := OneMore(w, path, w2, RESTORE);
    assert path == RELOAD;
  }

  lemma {:induction false} PathAppend(w: World, steps: seq<Action>, w1: World, more: seq<Action>)
    requires UnfailingPath(w, steps) && After(w, steps) == Some(w1) && UnfailingPath(w1, more)
    ensures UnfailingPath(w, steps + more) && After(w, steps + more) == After(w1, more)
    decreases |steps|
  {
    hide TableOk, Enabled, Apply, Disciplined;
    if steps == [] {
      assert steps + more == more;
    } else {
      assert (steps + more)[1..] == steps[1..] + more;
      PathAppend(Apply(w, steps[0]), steps[1..], w1, more);
    }
  }

  /**
    From the empty daemon: callers hold what they change and mark before they release, no held graph is
    evicted or unloaded without a guard and every write succeeds, and yet a clean graph nobody is
    changing ends up loaded in a version other than the one on disk.
   */
  lemma CleanIsNotAlwaysSaved()
    ensures UnfailingPath(Start, OPENING + CHANGE + RELOAD)
    ensures var after := After(Start, OPENING + CHANGE + RELOAD);
            after.Some? && DisagreesAt(after.value, P)
  {
    hide Scene, UnfailingPath, After, DisagreesAt;
    var w1 := Opens();
    var w2 := Changes(w1);
    var w3 := Ends(w2);
    PathAppend(Start, OPENING, w1, CHANGE);
    PathAppend(Start, OPENING + CHANGE, w2, RELOAD);
  }
}
