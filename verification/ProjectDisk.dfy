/**
  What is on disk: when a clean loaded graph agrees with its snapshot, whatever callers hold and
  whichever writes fail.
 */
module ProjectDisk {
  import opened Symbols
  import opened ProjectTable
  import opened ProjectManagers
  import opened ProjectProtocol
  import opened ProjectRuns
  import opened ProjectAccounting

  /** The snapshot of `p` holds the current version of `e`. */
  predicate Stored(m: Manager, p: ProjectPath, e: EntryId) {
    p in m.snapshots && e in m.entries && m.snapshots[p].version == m.entries[e].version
  }

  /** Some caller still owes the entry a `mark_dirty`, or it is marked. */
  predicate Unsaved(w: World, e: EntryId) {
    e in w.m.entries && (w.m.entries[e].dirty || w.mutating[e] > 0)
  }

  /** A clean entry with no mutator in between agrees with its snapshot. */
  ghost predicate Agreement(w: World) {
    forall p :: p in w.m.projects ==> Unsaved(w, w.m.projects[p]) || Stored(w.m, p, w.m.projects[p])
  }

  /** The snapshot a thread read for its build has the version that is still on disk. */
  ghost predicate Warm(w: World) {
    forall t :: PcOf(w, t).Building? && PcOf(w, t).read.Some? ==>
      PcOf(w, t).path in w.m.snapshots && w.m.snapshots[PcOf(w, t).path].version == PcOf(w, t).read.value.version
  }

  function NextVictim(w: World, t: ThreadId): Victim
    requires PcOf(w, t).Evicting? && PcOf(w, t).next < |PcOf(w, t).victims|
  {
    PcOf(w, t).victims[PcOf(w, t).next]
  }

  // ------------------------------------------------------------ which steps keep disk and table together

  /** A dirty victim that is no longer the loaded graph of its path is written to the snapshot of that path. */
  predicate WritesDetached(w: World, t: ThreadId, ok: bool)
    requires TableOk(w.m) && Enabled(w, PersistNext(t, ok))
  {
    ok && w.m.entries[NextVictim(w, t).entry].dirty && !LoadedAs(w.m, NextVictim(w, t))
  }

  /** Whoever is restoring `p` and has read its snapshot has read this version. */
  ghost predicate ReadersHave(w: World, p: ProjectPath, version: nat) {
    forall u :: PcOf(w, u).Building? && PcOf(w, u).path == p && PcOf(w, u).read.Some? ==>
      PcOf(w, u).read.value.version == version
  }

  /** A detached write repeats the version that a thread restoring that path has read. */
  ghost predicate SparesReaders(w: World, a: Action)
    requires TableOk(w.m) && Enabled(w, a)
  {
    a.PersistNext? && WritesDetached(w, a.t, a.ok) ==>
      ReadersHave(w, NextVictim(w, a.t).path, w.m.entries[NextVictim(w, a.t).entry].version)
  }

  /**
    A detached write finds at its path an unsaved graph, or one of the very version written; the Gone
    collector, which changes graphs without marking them, meets no clean loaded graph.
   */
  predicate SparesClean(w: World, a: Action)
    requires TableOk(w.m) && Enabled(w, a)
  {
    match a
    case PersistNext(t, ok) =>
      var v := NextVictim(w, t);
      WritesDetached(w, t, ok) && v.path in w.m.projects ==>
        Unsaved(w, w.m.projects[v.path]) || EntryAt(w.m, v.path).version == w.m.entries[v.entry].version
    case CollectGone(e) => LoadedAs(w.m, Victim(w.m.entries[e].path, e)) ==> Unsaved(w, e)
    case _ => true
  }

  /**
    The same for every saved graph, clean or not: a detached write does not replace the saved version
    of the loaded graph by another.
   */
  predicate SparesSaved(w: World, a: Action)
    requires TableOk(w.m) && Enabled(w, a)
  {
    match a
    case PersistNext(t, ok) =>
      var v := NextVictim(w, t);
      WritesDetached(w, t, ok) && v.path in w.m.projects && Stored(w.m, v.path, w.m.projects[v.path]) ==>
        EntryAt(w.m, v.path).version == w.m.entries[v.entry].version
    case CollectGone(e) => LoadedAs(w.m, Victim(w.m.entries[e].path, e)) ==> Unsaved(w, e)
    case _ => true
  }

  lemma SparesSavedSparesClean(w: World, a: Action)
    requires Agreement(w) && TableOk(w.m) && Enabled(w, a) && SparesSaved(w, a)
    ensures SparesClean(w, a)
  {
    hide TableOk, Stored, Unsaved;
  }

  // ------------------------------------------------------------ one path, one step

  /** What a step that spares saved graphs does to the one at `p`: saved, new and unsaved, or waiting as before. */
  ghost predicate PathProgress(w: World, w2: World, p: ProjectPath) {
    p in w2.m.projects ==>
      var e := w2.m.projects[p];
      || Stored(w2.m, p, e)
      || (e in w2.m.entries && w2.m.entries[e].version >= w.m.nextVersion && Unsaved(w2, e))
      || (p in w.m.projects && w.m.projects[p] == e && e in w.m.entries && !Stored(w.m, p, e)
          && e in w2.m.entries && w2.m.entries[e].version == w.m.entries[e].version
          && (w.m.entries[e].dirty ==> w2.m.entries[e].dirty) && (Unsaved(w, e) ==> Unsaved(w2, e)))
  }

  /** Steps that touch neither versions, nor dirty flags, nor snapshots, and load nothing. */
  lemma QuietProgress(w: World, w2: World, p: ProjectPath)
    requires TableOk(w.m) && w2.m.snapshots == w.m.snapshots && w2.mutating == w.mutating
    requires p in w2.m.projects ==> p in w.m.projects && w2.m.projects[p] == w.m.projects[p]
    requires forall e :: e in w.m.entries ==>
               e in w2.m.entries && w2.m.entries[e].version == w.m.entries[e].version &&
                 w2.m.entries[e].dirty == w.m.entries[e].dirty
    ensures PathProgress(w, w2, p)
  {
  }

  lemma LookupProgress(w: World, t: ThreadId, p: ProjectPath, policy: RefreshPolicy, newer: bool, q: ProjectPath)
    requires TableOk(w.m) && Enabled(w, LookUp(t, p, policy, newer))
    ensures PathProgress(w, Apply(w, LookUp(t, p, policy, newer)), q)
  {
    hide PathProgress, Forget, TableOk;
    LoadedHaveEntries(w.m);
    QuietProgress(w, Apply(w, LookUp(t, p, policy, newer)), q);
  }

  lemma WarmRead(w: World, t: ThreadId, result: Option<BuiltGraph>, cap: nat)
    requires TableOk(w.m) && Warm(w) && Enabled(w, Finish(t, result, cap))
    ensures PcOf(w, t).Building?
    ensures result.Some? && result.value.FromSnapshot? ==>
              PcOf(w, t).path in w.m.snapshots &&
                w.m.snapshots[PcOf(w, t).path].version == result.value.snapshot.version
  {
  }

  lemma FreshProgress(w: World, w2: World, p: ProjectPath)
    requires p in w2.m.projects && w2.m.projects[p] in w2.m.entries
    requires Stored(w2.m, p, w2.m.projects[p])
             || (w2.m.entries[w2.m.projects[p]].version >= w.m.nextVersion && Unsaved(w2, w2.m.projects[p]))
    ensures PathProgress(w, w2, p)
  {
  }

  lemma FinishProgress(w: World, t: ThreadId, result: Option<BuiltGraph>, cap: nat, q: ProjectPath)
    requires Inv(w) && Warm(w) && Enabled(w, Finish(t, result, cap))
    ensures PathProgress(w, Apply(w, Finish(t, result, cap)), q)
  {
    hide Forget, Inv, TableOk, CapVictims, Warm, PathProgress;
    InvTable(w);
    WarmRead(w, t, result, cap);
    BuilderIsAlone(w, t);
    LoadedHaveEntries(w.m);
    var w2 := Apply(w, Finish(t, result, cap));
    if result.Some? && q == PcOf(w, t).path {
      FreshProgress(w, w2, q);
    } else {
      QuietProgress(w, w2, q);
    }
  }

  lemma EnabledPersist(w: World, t: ThreadId, ok: bool)
    requires TableOk(w.m) && Enabled(w, PersistNext(t, ok))
    ensures PcOf(w, t).Evicting? && PcOf(w, t).next < |PcOf(w, t).victims| && NextVictim(w, t).entry in w.m.entries
  {
  }

  lemma VictimKnown(w: World, t: ThreadId)
    requires Inv(w) && PcOf(w, t).Evicting? && PcOf(w, t).next < |PcOf(w, t).victims|
    ensures KnownVictim(w.m, NextVictim(w, t))
  {
    hide Inv, KnownVictim;
    KnownPc(w, t);
    assert NextVictim(w, t) in PcOf(w, t).victims;
  }

  lemma PersistProgress(w: World, t: ThreadId, ok: bool, q: ProjectPath)
    requires TableOk(w.m) && Enabled(w, PersistNext(t, ok)) && SparesSaved(w, PersistNext(t, ok))
    requires KnownVictim(w.m, NextVictim(w, t))
    ensures PathProgress(w, Apply(w, PersistNext(t, ok)), q)
  {
    hide TableOk;
    LoadedHaveEntries(w.m);
    if q in w.m.projects {
      CurrentOfPath(w.m, q);
    }
  }

  lemma RemoveProgress(w: World, t: ThreadId, q: ProjectPath)
    requires TableOk(w.m) && Enabled(w, RemoveNow(t))
    ensures PathProgress(w, Apply(w, RemoveNow(t)), q)
  {
    hide PathProgress, Forget, TableOk, Removed, IsVictim;
    LoadedHaveEntries(w.m);
    RemovedEffect(w.m, PcOf(w, t).victims, PcOf(w, t).guard);
    QuietProgress(w, Apply(w, RemoveNow(t)), q);
  }

  /** A changed graph gets a new version; while it is loaded somebody owes it a mark. */
  lemma ChangeProgress(w: World, a: Action, q: ProjectPath)
    requires TableOk(w.m) && Enabled(w, a) && (a.Mutate? || a.CollectGone?) && SparesSaved(w, a)
    ensures PathProgress(w, Apply(w, a), q)
  {
    hide PathProgress, TableOk;
    LoadedHaveEntries(w.m);
    var w2 := Apply(w, a);
    if q in w.m.projects && w.m.projects[q] == a.entry {
      CurrentOfPath(w.m, q);
      FreshProgress(w, w2, q);
    } else {
      OtherProgress(w, w2, q, a.entry);
    }
  }

  lemma OtherProgress(w: World, w2: World, p: ProjectPath, e: EntryId)
    requires TableOk(w.m) && w2.m.projects == w.m.projects && w2.m.snapshots == w.m.snapshots
    requires forall o :: o in w.m.entries && o != e ==>
               o in w2.m.entries && w2.m.entries[o] == w.m.entries[o] && w2.mutating[o] == w.mutating[o]
    requires p in w.m.projects ==> w.m.projects[p] != e
    ensures PathProgress(w, w2, p)
  {
  }

  /** The mark lands on whatever graph is loaded at the path of the mutated one, and makes it dirty. */
  lemma MarkProgress(w: World, e: EntryId, q: ProjectPath)
    requires TableOk(w.m) && Enabled(w, MarkDirty(e))
    ensures PathProgress(w, Apply(w, MarkDirty(e)), q)
  {
    hide TableOk;
    LoadedHaveEntries(w.m);
    if q in w.m.projects {
      CurrentOfPath(w.m, q);
    }
    if w.m.entries[e].path in w.m.projects {
      CurrentOfPath(w.m, w.m.entries[e].path);
    }
  }

  lemma StepProgress(w: World, a: Action, q: ProjectPath)
    requires Inv(w) && Warm(w) && Enabled(w, a) && SparesSaved(w, a)
    ensures PathProgress(w, Apply(w, a), q)
  {
    hide PathProgress, Inv, TableOk, Warm, Forget, CapVictims, Evictable, Lookup, LoadEnded, Installed,
         Removed, Persisted, Stored, WritesDetached;
    InvTable(w);
    LoadedHaveEntries(w.m);
    match a {
      case LookUp(t, p, policy, newer) => LookupProgress(w, t, p, policy, newer, q);
      case Finish(t, result, cap) => FinishProgress(w, t, result, cap, q);
      case PersistNext(t, ok) =>
        VictimKnown(w, t);
        PersistProgress(w, t, ok, q);
      case RemoveNow(t) => RemoveProgress(w, t, q);
      case Mutate(_, _) => ChangeProgress(w, a, q);
      case CollectGone(_) => ChangeProgress(w, a, q);
      case MarkDirty(e) => MarkProgress(w, e, q);
      case _ => QuietProgress(w, Apply(w, a), q);
    }
  }

  // ------------------------------------------------------------ the snapshots

  lemma LoadKeepsSnapshots(m: Manager, p: ProjectPath, policy: RefreshPolicy, newer: bool, gate: GateId,
                           result: Option<BuiltGraph>)
    requires TableOk(m)
    ensures Lookup(m, p, policy, newer).0.snapshots == m.snapshots
    ensures LoadEnded(m, p, gate).snapshots == m.snapshots
    ensures result.Some? ==> Installed(LoadEnded(m, p, gate), p, result.value).snapshots == m.snapshots
  {
    hide TableOk, Forget, NewEntry;
  }

  lemma RemovalKeepsSnapshots(m: Manager, victims: seq<Victim>, guard: Guard)
    requires TableOk(m)
    ensures Removed(m, victims, guard).0.snapshots == m.snapshots
  {
    hide TableOk, Removed, IsVictim, Evictable;
    RemovedEffect(m, victims, guard);
  }

  lemma OnlyPersistWrites(w: World, a: Action)
    requires TableOk(w.m) && Enabled(w, a) && !a.PersistNext?
    ensures Apply(w, a).m.snapshots == w.m.snapshots
  {
    if a.LookUp? || a.Finish? || a.RemoveNow? {
      hide TableOk, Lookup, LoadEnded, Installed, CapVictims, Removed, MustRebuild;
      if a.LookUp? {
        LoadKeepsSnapshots(w.m, a.path, a.policy, a.newer, 0, None);
      } else if a.Finish? {
        LoadKeepsSnapshots(w.m, PcOf(w, a.t).path, Never, false, PcOf(w, a.t).gate, a.result);
      } else {
        RemovalKeepsSnapshots(w.m, PcOf(w, a.t).victims, PcOf(w, a.t).guard);
      }
    } else {
      hide TableOk, Forget, Evictable, DistinctPaths, LoadedAs, Decremented;
    }
  }

  /** No eviction, and no end of a load, makes a thread a builder. */
  lemma OthersStayBuilders(w: World, a: Action, t: ThreadId)
    requires TableOk(w.m) && Enabled(w, a) && PcOf(Apply(w, a), t).Building?
    requires a.Finish? || a.Sweep? || a.ShutDown? || a.NoteLoaded? || a.Choose? || a.StopBudget? || a.PersistNext? ||
             a.RemoveNow?
    ensures PcOf(Apply(w, a), t) == PcOf(w, t)
  {
    hide TableOk, CapVictims, Removed, Persisted, LoadEnded, Installed, DistinctPaths, Evictable, LoadedAs;
  }

  lemma BuilderUnmoved(w: World, a: Action, t: ThreadId)
    requires TableOk(w.m) && Enabled(w, a) && PcOf(Apply(w, a), t).Building? && PcOf(Apply(w, a), t).read.Some?
    ensures PcOf(w, t).Building? && PcOf(w, t).path == PcOf(Apply(w, a), t).path
    ensures PcOf(w, t).read == PcOf(Apply(w, a), t).read
            || (PcOf(w, t).path in w.m.snapshots && PcOf(Apply(w, a), t).read.value == w.m.snapshots[PcOf(w, t).path])
  {
    if a.LookUp? || a.ReadSnapshot? {
      hide TableOk, Lookup, MustRebuild;
    } else {
      hide TableOk, Apply, Enabled;
      if a.Release? || a.Mutate? || a.MarkDirty? || a.Unload? || a.Tick? || a.CollectGone? {
        ThreadsStay(w, a);
      } else {
        OthersStayBuilders(w, a, t);
      }
    }
  }

  /** The other threads are where they were, and the evictor still is one. */
  lemma PersistThreads(w: World, t: ThreadId, ok: bool, u: ThreadId)
    requires TableOk(w.m) && Enabled(w, PersistNext(t, ok))
    ensures PcOf(Apply(w, PersistNext(t, ok)), u).Building? <==> PcOf(w, u).Building?
    ensures PcOf(w, u).Building? ==> PcOf(Apply(w, PersistNext(t, ok)), u) == PcOf(w, u)
  {
    hide TableOk, Persisted;
  }

  /** What a write leaves on disk. */
  lemma PersistSnapshots(w: World, t: ThreadId, ok: bool)
    requires TableOk(w.m) && Enabled(w, PersistNext(t, ok))
    ensures var v := NextVictim(w, t);
            var m2 := Apply(w, PersistNext(t, ok)).m;
            && (forall p :: p != v.path ==>
                  (p in m2.snapshots <==> p in w.m.snapshots) &&
                  (p in w.m.snapshots ==> m2.snapshots[p] == w.m.snapshots[p]))
            && (if ok && w.m.entries[v.entry].dirty
                then v.path in m2.snapshots && m2.snapshots[v.path].version == w.m.entries[v.entry].version
                else m2 == w.m)
  {
    hide TableOk;
  }

  /** A builder works on a path that is not loaded, so only a detached write can spoil what it has read. */
  lemma PersistKeepsWarm(w: World, t: ThreadId, ok: bool)
    requires Inv(w) && Warm(w) && Enabled(w, PersistNext(t, ok))
    ensures Warm(Apply(w, PersistNext(t, ok))) <==> SparesReaders(w, PersistNext(t, ok))
  {
    hide Inv, TableOk, Apply, Enabled;
    InvTable(w);
    EnabledPersist(w, t, ok);
    PersistSnapshots(w, t, ok);
    forall u
      ensures PcOf(Apply(w, PersistNext(t, ok)), u).Building? <==> PcOf(w, u).Building?
      ensures PcOf(w, u).Building? ==> PcOf(Apply(w, PersistNext(t, ok)), u) == PcOf(w, u)
      ensures PcOf(w, u).Building? ==> PcOf(w, u).path !in w.m.projects
    {
      PersistThreads(w, t, ok, u);
      if PcOf(w, u).Building? {
        BuilderIsAlone(w, u);
      }
    }
  }

  /** What builders have read stays true if and only if no detached write puts another version in its place. */
  lemma WarmStep(w: World, a: Action)
    requires Inv(w) && Warm(w) && Enabled(w, a)
    ensures Warm(Apply(w, a)) <==> SparesReaders(w, a)
  {
    hide Inv, TableOk, Apply, Enabled;
    InvTable(w);
    if a.PersistNext? {
      PersistKeepsWarm(w, a.t, a.ok);
    } else {
      var w2 := Apply(w, a);
      OnlyPersistWrites(w, a);
      forall t | PcOf(w2, t).Building? && PcOf(w2, t).read.Some?
        ensures PcOf(w2, t).path in w2.m.snapshots
        ensures w2.m.snapshots[PcOf(w2, t).path].version == PcOf(w2, t).read.value.version
      {
        BuilderUnmoved(w, a, t);
      }
    }
  }

  // ------------------------------------------------------------ the agreement

  lemma ProgressAgrees(w: World, w2: World)
    requires Agreement(w) && forall p :: PathProgress(w, w2, p)
    ensures Agreement(w2)
  {
    forall p | p in w2.m.projects ensures Unsaved(w2, w2.m.projects[p]) || Stored(w2.m, p, w2.m.projects[p]) {
      assert PathProgress(w, w2, p);
    }
  }

  /** Of the loaded graphs only the victim is touched, and of the snapshots only that of its path. */
  lemma PersistElsewhere(w: World, t: ThreadId, ok: bool, p: ProjectPath)
    requires TableOk(w.m) && Enabled(w, PersistNext(t, ok)) && KnownVictim(w.m, NextVictim(w, t))
    requires p in w.m.projects && !LoadedAs(w.m, NextVictim(w, t))
    ensures var w2 := Apply(w, PersistNext(t, ok));
            && w2.m.projects == w.m.projects
            && (Unsaved(w2, w.m.projects[p]) <==> Unsaved(w, w.m.projects[p]))
            && w.m.projects[p] in w.m.entries && w.m.projects[p] in w2.m.entries
            && w2.m.entries[w.m.projects[p]] == w.m.entries[w.m.projects[p]]
            && (p != NextVictim(w, t).path ==>
                  (Stored(w2.m, p, w.m.projects[p]) <==> Stored(w.m, p, w.m.projects[p])))
  {
    hide TableOk;
    CurrentOfPath(w.m, p);
  }

  lemma PersistKeepsAgreement(w: World, t: ThreadId, ok: bool)
    requires Inv(w) && Agreement(w) && Enabled(w, PersistNext(t, ok))
    ensures Agreement(Apply(w, PersistNext(t, ok))) <==> SparesClean(w, PersistNext(t, ok))
  {
    hide Inv, TableOk, Apply, Enabled, Unsaved, KnownVictim;
    InvTable(w);
    EnabledPersist(w, t, ok);
    VictimKnown(w, t);
    PersistSnapshots(w, t, ok);
    var a, w2, v := PersistNext(t, ok), Apply(w, PersistNext(t, ok)), NextVictim(w, t);
    if WritesDetached(w, t, ok) {
      forall p | p in w.m.projects
        ensures w2.m.projects == w.m.projects && w.m.projects[p] in w.m.entries && w.m.projects[p] in w2.m.entries
        ensures Unsaved(w2, w.m.projects[p]) <==> Unsaved(w, w.m.projects[p])
        ensures w2.m.entries[w.m.projects[p]] == w.m.entries[w.m.projects[p]]
        ensures p != v.path ==> (Stored(w2.m, p, w.m.projects[p]) <==> Stored(w.m, p, w.m.projects[p]))
      {
        PersistElsewhere(w, t, ok, p);
      }
      PersistTable(w, t, ok);
    } else {
      forall p ensures PathProgress(w, w2, p) {
        PersistProgress(w, t, ok, p);
      }
      ProgressAgrees(w, w2);
    }
  }

  lemma PersistTable(w: World, t: ThreadId, ok: bool)
    requires TableOk(w.m) && Enabled(w, PersistNext(t, ok))
    ensures Apply(w, PersistNext(t, ok)).m.projects == w.m.projects
  {
    hide TableOk;
  }

  /** The Gone collector keeps the agreement if and only if it meets no clean loaded graph. */
  lemma CollectorBreaksAgreement(w: World, e: EntryId)
    requires TableOk(w.m) && Agreement(w) && e in w.m.entries
    ensures Agreement(Apply(w, CollectGone(e))) <==>
            (LoadedAs(w.m, Victim(w.m.entries[e].path, e)) ==> Unsaved(w, e))
  {
    var w2 := Apply(w, CollectGone(e));
    var p := w.m.entries[e].path;
    forall q | q in w.m.projects && w.m.projects[q] != e
      ensures Unsaved(w2, w2.m.projects[q]) || Stored(w2.m, q, w2.m.projects[q])
    {
      assert Unsaved(w, w.m.projects[q]) || Stored(w.m, q, w.m.projects[q]);
    }
    if LoadedAs(w.m, Victim(p, e)) {
      assert p in w2.m.projects && !Stored(w2.m, p, e);
    }
  }

  lemma AgreementStep(w: World, a: Action)
    requires Inv(w) && Agreement(w) && Warm(w) && Enabled(w, a)
    ensures Agreement(Apply(w, a)) <==> SparesClean(w, a)
  {
    hide Inv, TableOk, Apply, Enabled, Agreement, Warm, PathProgress, Unsaved, WritesDetached, LoadedAs;
    InvTable(w);
    if a.PersistNext? {
      PersistKeepsAgreement(w, a.t, a.ok);
    } else if a.CollectGone? {
      CollectedKnown(w, a.entry);
      CollectorBreaksAgreement(w, a.entry);
    } else {
      forall p ensures PathProgress(w, Apply(w, a), p) {
        StepProgress(w, a, p);
      }
      ProgressAgrees(w, Apply(w, a));
    }
  }

  lemma CollectedKnown(w: World, e: EntryId)
    requires TableOk(w.m) && Enabled(w, CollectGone(e))
    ensures e in w.m.entries
  {
  }

  /**
    Exactly when a step of the daemon or of a caller keeps clean graphs equal to their snapshots and
    restored reads current.  Only two steps can fail: a write of a victim that was replaced at its
    path or unloaded, and a collector that meets a clean graph.
   */
  lemma DiskAgreesIff(w: World, a: Action)
    requires Inv(w) && Agreement(w) && Warm(w) && Enabled(w, a)
    ensures Agreement(Apply(w, a)) && Warm(Apply(w, a)) <==> SparesClean(w, a) && SparesReaders(w, a)
  {
    hide Inv, TableOk, Apply, Enabled, Agreement, Warm, SparesClean, SparesReaders;
    AgreementStep(w, a);
    WarmStep(w, a);
  }

  /**
    Writing a dirty victim that is no longer the loaded graph of its path: the graph loaded there must
    be unsaved anyway or have the very version written, and so must what a restoring thread has read.
   */
  lemma DetachedPersist(w: World, t: ThreadId)
    requires Inv(w) && Agreement(w) && Warm(w) && Enabled(w, PersistNext(t, true))
    requires w.m.entries[NextVictim(w, t).entry].dirty && !LoadedAs(w.m, NextVictim(w, t))
    ensures var v := NextVictim(w, t);
            var w2 := Apply(w, PersistNext(t, true));
            Agreement(w2) && Warm(w2) <==>
            && (v.path in w.m.projects ==>
                  Unsaved(w, w.m.projects[v.path]) ||
                  EntryAt(w.m, v.path).version == w.m.entries[v.entry].version)
            && (forall u :: PcOf(w, u).Building? && PcOf(w, u).path == v.path && PcOf(w, u).read.Some? ==>
                  PcOf(w, u).read.value.version == w.m.entries[v.entry].version)
  {
    hide Inv, TableOk, Apply, Agreement, Warm;
    DiskAgreesIff(w, PersistNext(t, true));
  }

  // ------------------------------------------------------------ runs

  /** Nothing is asked of callers, of stale evictions and unloads, or of the success of writes. */
  ghost predicate SparingRun(ws: seq<World>, steps: seq<Action>) {
    IsRun(ws, steps) &&
    forall i :: 0 <= i < |steps| ==> SparesClean(ws[i], steps[i]) && SparesReaders(ws[i], steps[i])
  }

  lemma StartAgrees()
    ensures Agreement(Start) && Warm(Start)
  {
  }

  lemma {:induction false} RunAgreesUpTo(ws: seq<World>, steps: seq<Action>, i: nat)
    requires IsRun(ws, steps) && i <= |steps|
    requires forall k :: 0 <= k < i ==> SparesClean(ws[k], steps[k]) && SparesReaders(ws[k], steps[k])
    ensures Agreement(ws[i]) && Warm(ws[i]) && Inv(ws[i]) && TableOk(ws[i].m)
  {
    hide Safe, Enabled, Apply, Agreement, Warm, Inv, TableOk, SparesClean, SparesReaders;
    RunIsSafe(ws, steps, i);
    SafeInv(ws[i]);
    if i == 0 {
      StartAgrees();
    } else {
      RunAgreesUpTo(ws, steps, i - 1);
      DiskAgreesIff(ws[i - 1], steps[i - 1]);
    }
  }

  /** In such runs a clean loaded graph nobody is changing is, version for version, its snapshot. */
  lemma CleanMeansSaved(ws: seq<World>, steps: seq<Action>, i: nat, p: ProjectPath)
    requires SparingRun(ws, steps) && i < |ws| && p in ws[i].m.projects
    ensures TableOk(ws[i].m)
    ensures !EntryAt(ws[i].m, p).dirty && ws[i].mutating[ws[i].m.projects[p]] == 0 ==>
              p in ws[i].m.snapshots && ws[i].m.snapshots[p].version == EntryAt(ws[i].m, p).version
  {
    hide Safe, Inv, SparesClean, SparesReaders, Enabled, Apply;
    RunAgreesUpTo(ws, steps, i);
  }
}
