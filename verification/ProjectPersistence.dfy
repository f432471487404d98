/** Persist-then-free: which versions an eviction can lose. */
module ProjectPersistence {
  import opened Symbols
  import opened ProjectTable
  import opened ProjectManagers
  import opened ProjectProtocol
  import opened ProjectRuns
  import opened ProjectAccounting
  import opened ProjectDisk

  /** If `p` is loaded, its version is on disk or was created at or after `stamp`. */
  ghost predicate Kept(m: Manager, p: ProjectPath, stamp: nat) {
    p in m.projects ==>
      Stored(m, p, m.projects[p]) || (m.projects[p] in m.entries && m.entries[m.projects[p]].version >= stamp)
  }

  ghost predicate Pending(m: Manager, v: Victim) {
    LoadedAs(m, v) && v.entry in m.entries && m.entries[v.entry].dirty
  }

  /** Victims already persisted are kept; the others are kept or still waiting to be written. */
  ghost predicate PcStamped(w: World, pc: Pc) {
    match pc
    case Evicting(victims, next, _, then_, stamp) =>
      then_ != KeepAll ==>
        forall i :: 0 <= i < |victims| ==> Kept(w.m, victims[i].path, stamp) || (i >= next && Pending(w.m, victims[i]))
    case Scanning(noted, stamp) =>
      forall v :: v in noted ==> Kept(w.m, v.path, stamp) || (LoadedAs(w.m, v) && Unsaved(w, v.entry))
    case _ => true
  }

  ghost predicate Stamped(w: World) {
    forall t :: PcStamped(w, PcOf(w, t))
  }

  /**
    Disciplined; a dirty victim is written successfully and is still the loaded graph of its path; the
    Gone collector, which changes graphs without marking them, meets no clean loaded graph.
   */
  predicate Careful(w: World, a: Action)
    requires TableOk(w.m) && Enabled(w, a)
  {
    Disciplined(w, a) &&
    match a
    case PersistNext(t, ok) =>
      var v := NextVictim(w, t);
      w.m.entries[v.entry].dirty ==> ok && LoadedAs(w.m, v)
    case CollectGone(e) => LoadedAs(w.m, Victim(w.m.entries[e].path, e)) ==> Unsaved(w, e)
    case _ => true
  }

  /** Careful steps spare what is on disk and what was read from it. */
  lemma CarefulSpares(w: World, a: Action)
    requires TableOk(w.m) && Enabled(w, a) && Careful(w, a)
    ensures SparesSaved(w, a) && SparesClean(w, a) && SparesReaders(w, a)
  {
    hide TableOk, Disciplined, Stored, Unsaved, ReadersHave;
  }

  ghost predicate Faithful(w: World) {
    Accounted(w) && Agreement(w) && Warm(w) && Stamped(w)
  }

  // ------------------------------------------------------------ one path, one step

  lemma KeptMoves(w: World, w2: World, p: ProjectPath, stamp: nat)
    requires PathProgress(w, w2, p) && Kept(w.m, p, stamp) && stamp <= w.m.nextVersion
    ensures Kept(w2.m, p, stamp)
  {
  }

  lemma PendingMoves(w: World, w2: World, v: Victim, stamp: nat)
    requires PathProgress(w, w2, v.path) && Pending(w.m, v) && stamp <= w.m.nextVersion
    ensures Kept(w2.m, v.path, stamp) || Pending(w2.m, v)
  {
  }

  lemma UnsavedMoves(w: World, w2: World, v: Victim, stamp: nat)
    requires PathProgress(w, w2, v.path) && LoadedAs(w.m, v) && Unsaved(w, v.entry) && stamp <= w.m.nextVersion
    ensures Kept(w2.m, v.path, stamp) || (LoadedAs(w2.m, v) && Unsaved(w2, v.entry))
  {
  }

  // ------------------------------------------------------------ the four parts of the invariant

  /** A thread that did not move: what it picked is kept, or waits as before. */
  lemma PcStampedMoves(w: World, w2: World, pc: Pc)
    requires PcStamped(w, pc) && PcKnown(w.m, pc) && forall p :: PathProgress(w, w2, p)
    ensures PcStamped(w2, pc)
  {
    hide Kept, Pending, PathProgress, Unsaved, LoadedAs, KnownVictim;
    if pc.Evicting? && pc.then_ != KeepAll {
      forall i | 0 <= i < |pc.victims|
        ensures Kept(w2.m, pc.victims[i].path, pc.stamp) || (i >= pc.next && Pending(w2.m, pc.victims[i]))
      {
        assert PathProgress(w, w2, pc.victims[i].path);
        if Kept(w.m, pc.victims[i].path, pc.stamp) {
          KeptMoves(w, w2, pc.victims[i].path, pc.stamp);
        } else {
          PendingMoves(w, w2, pc.victims[i], pc.stamp);
        }
      }
    } else if pc.Scanning? {
      forall v | v in pc.noted ensures Kept(w2.m, v.path, pc.stamp) || (LoadedAs(w2.m, v) && Unsaved(w2, v.entry)) {
        assert PathProgress(w, w2, v.path);
        if Kept(w.m, v.path, pc.stamp) {
          KeptMoves(w, w2, v.path, pc.stamp);
        } else {
          UnsavedMoves(w, w2, v, pc.stamp);
        }
      }
    }
  }

  /** An idle loaded graph is on disk or dirty. */
  lemma IdleIsSaved(w: World, v: Victim, stamp: nat)
    requires Agreement(w) && Accounted(w) && LoadedAs(w.m, v) && v.entry in w.m.entries &&
             w.m.entries[v.entry].active == 0
    ensures Kept(w.m, v.path, stamp) || Pending(w.m, v)
  {
    assert w.mutating[v.entry] <= w.held[v.entry];
  }

  lemma IdleVictimsStamped(w: World, pc: Pc)
    requires Agreement(w) && Accounted(w) && pc.Evicting? && pc.next == 0
    requires forall v ::
               v in pc.victims ==> LoadedAs(w.m, v) && v.entry in w.m.entries && w.m.entries[v.entry].active == 0
    ensures PcStamped(w, pc)
  {
    hide Agreement, Accounted, Kept, Pending, LoadedAs;
    forall i | 0 <= i < |pc.victims|
      ensures Kept(w.m, pc.victims[i].path, pc.stamp) || Pending(w.m, pc.victims[i])
    {
      assert pc.victims[i] in pc.victims;
      IdleIsSaved(w, pc.victims[i], pc.stamp);
    }
  }

  lemma NotedStamped(w: World, noted: seq<Victim>, stamp: nat)
    requires Agreement(w) && forall v :: v in noted ==> LoadedAs(w.m, v)
    ensures PcStamped(w, Scanning(noted, stamp))
  {
    hide Unsaved;
  }

  lemma ChosenStamped(w: World, noted: seq<Victim>, stamp: nat, v: Victim)
    requires PcStamped(w, Scanning(noted, stamp)) && Accounted(w) && v in noted
    requires v.entry in w.m.entries && w.m.entries[v.entry].active == 0
    ensures PcStamped(w, Evicting([v], 0, WhenIdle, BackToBudget, stamp))
  {
    assert w.mutating[v.entry] <= w.held[v.entry];
  }

  lemma PersistedStamped(w: World, t: ThreadId, ok: bool)
    requires Inv(w) && Stamped(w) && Enabled(w, PersistNext(t, ok)) && Careful(w, PersistNext(t, ok))
    requires forall p :: PathProgress(w, Apply(w, PersistNext(t, ok)), p)
    ensures PcStamped(Apply(w, PersistNext(t, ok)), PcOf(w, t).(next := PcOf(w, t).next + 1))
  {
    hide Inv, TableOk, PathProgress, Stamped, PcKnown;
    InvTable(w);
    KnownPc(w, t);
    StampedAt(w, t);
    var w2 := Apply(w, PersistNext(t, ok));
    var pc := PcOf(w, t);
    PcStampedMoves(w, w2, pc);
    var v := pc.victims[pc.next];
    if w.m.entries[v.entry].dirty {
      assert Kept(w2.m, v.path, pc.stamp);
    } else {
      assert !Pending(w2.m, v);
    }
  }

  lemma StampedAt(w: World, t: ThreadId)
    requires Stamped(w)
    ensures PcStamped(w, PcOf(w, t))
  {
  }

  lemma InstalledStamped(w2: World, p: ProjectPath, cap: nat)
    requires TableOk(w2.m) && Agreement(w2) && Accounted(w2)
    ensures PcStamped(w2, Evicting(CapVictims(w2.m, p, cap), 0, WhenIdle, BackToBudget, w2.m.nextVersion))
  {
    hide Agreement, Accounted, PcStamped, TableOk, Oldest;
    OldestAreIdle(w2.m, w2.m.lru, p, Excess(w2.m, cap));
    LoadedHaveEntries(w2.m);
    IdleVictimsStamped(w2, Evicting(CapVictims(w2.m, p, cap), 0, WhenIdle, BackToBudget, w2.m.nextVersion));
  }

  lemma SweepStamped(w: World, timeout: nat, victims: seq<Victim>)
    requires TableOk(w.m) && Agreement(w) && Accounted(w)
    requires forall v :: v in victims ==> LoadedAs(w.m, v) && Evictable(w.m, v.path, WhenIdleFor(timeout))
    ensures PcStamped(w, Evicting(victims, 0, WhenIdleFor(timeout), Done, w.m.nextVersion))
  {
    hide Agreement, Accounted, PcStamped, TableOk;
    LoadedHaveEntries(w.m);
    IdleVictimsStamped(w, Evicting(victims, 0, WhenIdleFor(timeout), Done, w.m.nextVersion));
  }

  lemma SamePcStamped(w: World, w2: World, pc: Pc)
    requires PcStamped(w, pc) && w2.m == w.m && w2.mutating == w.mutating
    ensures PcStamped(w2, pc)
  {
  }

  /** Loads, the end of a removal and the end of a budget round leave the thread without victims. */
  lemma MovedOn(w: World, a: Action, t: ThreadId)
    requires TableOk(w.m) && Enabled(w, a)
    requires a.LookUp? || a.ReadSnapshot? || a.StopBudget? || a.RemoveNow? || a.ShutDown?
    ensures PcOf(Apply(w, a), t) == PcOf(w, t) || PcStamped(Apply(w, a), PcOf(Apply(w, a), t))
  {
    hide TableOk, Lookup, MustRebuild, Removed, DistinctPaths, LoadedAs, Kept, Pending, Unsaved;
  }

  lemma MovedFinish(w: World, u: ThreadId, result: Option<BuiltGraph>, cap: nat, t: ThreadId)
    requires TableOk(w.m) && Enabled(w, Finish(u, result, cap))
    requires var w2 := Apply(w, Finish(u, result, cap)); TableOk(w2.m) && Agreement(w2) && Accounted(w2)
    ensures var w2 := Apply(w, Finish(u, result, cap)); PcOf(w2, t) == PcOf(w, t) || PcStamped(w2, PcOf(w2, t))
  {
    hide TableOk, Agreement, Accounted, CapVictims, LoadEnded, Installed, Kept, Pending, Unsaved;
    var w2 := Apply(w, Finish(u, result, cap));
    if result.Some? && t == u {
      InstalledStamped(w2, PcOf(w, u).path, cap);
    }
  }

  lemma MovedPick(w: World, a: Action, t: ThreadId)
    requires TableOk(w.m) && Agreement(w) && Accounted(w) && Stamped(w) && Enabled(w, a)
    requires a.Sweep? || a.NoteLoaded? || a.Choose?
    ensures PcOf(Apply(w, a), t) == PcOf(w, t) || PcStamped(Apply(w, a), PcOf(Apply(w, a), t))
  {
    hide TableOk, Agreement, Accounted, Stamped, PcStamped, DistinctPaths, Evictable, LoadedAs;
    var w2 := Apply(w, a);
    if t == a.t {
      if a.Sweep? {
        SweepStamped(w, a.timeout, a.victims);
      } else if a.NoteLoaded? {
        NotedStamped(w, a.noted, w.m.nextVersion);
      } else {
        StampedAt(w, t);
        ChosenStamped(w, PcOf(w, t).noted, PcOf(w, t).stamp, a.victim);
      }
      SamePcStamped(w, w2, PcOf(w2, t));
    }
  }

  lemma MovedPersist(w: World, u: ThreadId, ok: bool, t: ThreadId)
    requires Inv(w) && Stamped(w) && TableOk(w.m) && Enabled(w, PersistNext(u, ok)) && Careful(w, PersistNext(u, ok))
    requires forall p :: PathProgress(w, Apply(w, PersistNext(u, ok)), p)
    ensures var w2 := Apply(w, PersistNext(u, ok)); PcOf(w2, t) == PcOf(w, t) || PcStamped(w2, PcOf(w2, t))
  {
    hide Inv, TableOk, Stamped, PathProgress, PcStamped, Persisted, Careful;
    PersistedStamped(w, u, ok);
  }

  /** The thread that moved picked or persisted something; everybody else is where it was. */
  lemma MovedStamped(w: World, a: Action, t: ThreadId)
    requires Inv(w) && TableOk(w.m) && Faithful(w) && Enabled(w, a) && Careful(w, a)
    requires TableOk(Apply(w, a).m) && Agreement(Apply(w, a)) && Accounted(Apply(w, a))
    requires forall p :: PathProgress(w, Apply(w, a), p)
    ensures PcOf(Apply(w, a), t) == PcOf(w, t) || PcStamped(Apply(w, a), PcOf(Apply(w, a), t))
  {
    hide Inv, TableOk, Agreement, Accounted, Warm, Stamped, PathProgress, PcStamped, Apply, Enabled, Careful;
    match a {
      case Finish(u, result, cap) => MovedFinish(w, u, result, cap, t);
      case Sweep(_, _, _) => MovedPick(w, a, t);
      case NoteLoaded(_, _) => MovedPick(w, a, t);
      case Choose(_, _) => MovedPick(w, a, t);
      case PersistNext(u, ok) => MovedPersist(w, u, ok, t);
      case _ =>
        if a.LookUp? || a.ReadSnapshot? || a.StopBudget? || a.RemoveNow? || a.ShutDown? {
          MovedOn(w, a, t);
        } else {
          ThreadsStay(w, a);
        }
    }
  }

  lemma FaithfulStep(w: World, a: Action)
    requires Inv(w) && Faithful(w) && Enabled(w, a) && Careful(w, a)
    ensures Faithful(Apply(w, a))
  {
    hide Inv, TableOk, Agreement, Accounted, Warm, Apply, Enabled, PcStamped, PathProgress;
    InvTable(w);
    var w2 := Apply(w, a);
    InvStep(w, a);
    InvTable(w2);
    AccountedStep(w, a);
    CarefulSpares(w, a);
    forall p ensures PathProgress(w, w2, p) {
      StepProgress(w, a, p);
    }
    DiskAgreesIff(w, a);
    forall t ensures PcStamped(w2, PcOf(w2, t)) {
      MovedStamped(w, a, t);
      KnownPc(w, t);
      PcStampedMoves(w, w2, PcOf(w, t));
    }
  }

  // ------------------------------------------------------------ runs

  ghost predicate CarefulRun(ws: seq<World>, steps: seq<Action>) {
    IsRun(ws, steps) && forall i :: 0 <= i < |steps| ==> Careful(ws[i], steps[i])
  }

  lemma StartFaithful()
    ensures Faithful(Start)
  {
  }

  lemma {:induction false} RunIsFaithful(ws: seq<World>, steps: seq<Action>, i: nat)
    requires CarefulRun(ws, steps) && i < |ws|
    ensures Faithful(ws[i]) && Inv(ws[i]) && TableOk(ws[i].m)
  {
    hide Safe, Enabled, Apply, Faithful, Careful, Inv;
    RunIsSafe(ws, steps, i);
    SafeInv(ws[i]);
    if i == 0 {
      StartFaithful();
    } else {
      RunIsFaithful(ws, steps, i - 1);
      FaithfulStep(ws[i - 1], steps[i - 1]);
    }
  }

  /**
    What an eviction removes, nobody holds; a clean graph is on disk, and any graph is on disk unless
    it was created after the evictor picked its victims (`stamp` is the next version at that moment).
   */
  lemma OnlyNewVersionsAreLost(ws: seq<World>, steps: seq<Action>, i: nat, t: ThreadId, p: ProjectPath)
    requires CarefulRun(ws, steps) && i < |steps| && steps[i] == RemoveNow(t)
    requires p in ws[i].m.projects && p !in ws[i + 1].m.projects
    ensures PcOf(ws[i], t).Evicting? && ws[i].m.projects[p] in ws[i].m.entries
    ensures var e := ws[i].m.projects[p];
            && ws[i].held[e] == 0
            && (!ws[i].m.entries[e].dirty ==> Stored(ws[i + 1].m, p, e))
            && (Stored(ws[i + 1].m, p, e) || ws[i].m.entries[e].version >= PcOf(ws[i], t).stamp)
  {
    hide Inv, TableOk, Removed;
    RunIsFaithful(ws, steps, i);
    var w, pc := ws[i], PcOf(ws[i], t);
    assert ws[i + 1] == Apply(w, steps[i]);
    RemovedEffect(w.m, pc.victims, pc.guard);
    LoadedHaveEntries(w.m);
    RemovedWasKept(w, t, p);
  }

  lemma RemovedWasKept(w: World, t: ThreadId, p: ProjectPath)
    requires TableOk(w.m) && Faithful(w) && PcOf(w, t).Evicting? && PcOf(w, t).then_ != KeepAll
    requires PcOf(w, t).next == |PcOf(w, t).victims| && IsVictim(PcOf(w, t).victims, p) && Idle(w.m, p)
    ensures Kept(w.m, p, PcOf(w, t).stamp) && w.held[w.m.projects[p]] == 0
    ensures !EntryAt(w.m, p).dirty ==> Stored(w.m, p, w.m.projects[p])
  {
    hide TableOk, Kept, Pending, Warm, Stored;
    LoadedHaveEntries(w.m);
    StampedAt(w, t);
    var v :| v in PcOf(w, t).victims && v.path == p;
    assert w.mutating[w.m.projects[p]] <= w.held[w.m.projects[p]];
  }

  // ------------------------------------------------------------ where care is needed

  /** A failed write does not hold an eviction back: the dirty graph goes and the old snapshot stays. */
  lemma FailedWriteLosesGraph(w: World, t: ThreadId, v: Victim)
    requires TableOk(w.m) && PcOf(w, t).Evicting? && PcOf(w, t).victims == [v] && PcOf(w, t).next == 0
    requires PcOf(w, t).guard.WhenIdle? && PcOf(w, t).then_ != KeepAll
    requires LoadedAs(w.m, v) && w.m.entries[v.entry].dirty && w.m.entries[v.entry].active == 0
    ensures var after := After(w, [PersistNext(t, false), RemoveNow(t)]);
            after.Some? && v.path !in after.value.m.projects && after.value.m.snapshots == w.m.snapshots
  {
    hide TableOk, Forget;
    LoadedHaveEntries(w.m);
    var a0, a1 := PersistNext(t, false), RemoveNow(t);
    var w1 := Apply(w, a0);
    assert w1.m == w.m;
    RemoveOne(w1.m, v);
    assert [a0, a1][1..] == [a1] && [a1][1..] == [];
    assert After(Apply(w1, a1), []) == Some(Apply(w1, a1));
    assert After(w1, [a1]) == Some(Apply(w1, a1));
  }

  /**
    Even a careful run may lose a version created before its victim was written: a caller revives the
    clean victim, changes it, the evictor finds it still clean and writes nothing, the caller marks and
    releases it, and the guard sees an idle graph.
   */
  lemma LostDespitePersist(w: World, t: ThreadId, u: ThreadId, v: Victim)
    requires TableOk(w.m) && Accounted(w) && PcOf(w, u).Ready? && t != u
    requires PcOf(w, t) == Evicting([v], 0, WhenIdle, Done, w.m.nextVersion)
    requires LoadedAs(w.m, v) && !w.m.entries[v.entry].dirty && w.m.entries[v.entry].active == 0
    ensures var revive := [LookUp(u, v.path, Never, false), Mutate(v.entry, true)];
            var persist := [PersistNext(t, true), MarkDirty(v.entry)];
            var revived, after := After(w, revive), After(w, revive + persist + [Release(v.entry), RemoveNow(t)]);
            && revived.Some? && after.Some? && v.path !in after.value.m.projects
            && v.entry in revived.value.m.entries && v.entry in after.value.m.entries
            && after.value.m.entries[v.entry].version == revived.value.m.entries[v.entry].version
            && !Stored(after.value.m, v.path, v.entry)
  {
    hide TableOk, Enabled, Apply, Accounted, After, LoadedAs, Stored, Removed;
    var revive := [LookUp(u, v.path, Never, false), Mutate(v.entry, true)];
    var persist := [PersistNext(t, true), MarkDirty(v.entry)];
    Revived(w, t, u, v);
    var w2 := After(w, revive).value;
    SkippedAndMarked(w2, t, v);
    var w4 := After(w2, persist).value;
    ReleasedAndRemoved(w4, t, v, w.m.nextVersion);
    AfterAppend(w, revive, persist);
    AfterAppend(w, revive + persist, [Release(v.entry), RemoveNow(t)]);
  }

  lemma HitByCaller(w: World, u: ThreadId, v: Victim)
    requires TableOk(w.m) && Accounted(w) && PcOf(w, u).Ready?
    requires LoadedAs(w.m, v) && !w.m.entries[v.entry].dirty && w.m.entries[v.entry].active == 0
    ensures var a := LookUp(u, v.path, Never, false);
            && Enabled(w, a)
            && var w1 := Apply(w, a);
               && TableOk(w1.m) && LoadedAs(w1.m, v) && v.entry in w1.m.entries && w1.threads == w.threads[u := Ready]
               && !w1.m.entries[v.entry].dirty && w1.m.entries[v.entry].active == 1
               && w1.held[v.entry] == 1 && w1.mutating[v.entry] == 0
  {
    hide TableOk, Forget;
    LoadedHaveEntries(w.m);
    LookupEvolves(w.m, v.path, Never, false);
  }

  lemma ChangedByCaller(w: World, v: Victim)
    requires TableOk(w.m) && LoadedAs(w.m, v) && v.entry in w.m.entries
    requires !w.m.entries[v.entry].dirty && w.m.entries[v.entry].active == 1
    requires w.held[v.entry] == 1 && w.mutating[v.entry] == 0
    ensures var a := Mutate(v.entry, true);
            && Enabled(w, a)
            && var w1 := Apply(w, a);
               && TableOk(w1.m) && LoadedAs(w1.m, v) && v.entry in w1.m.entries && w1.threads == w.threads
               && !w1.m.entries[v.entry].dirty && w1.m.entries[v.entry].active == 1
               && w1.held[v.entry] == 1 && w1.mutating[v.entry] == 1 && !Stored(w1.m, v.path, v.entry)
  {
    hide TableOk;
    ChangedEvolves(w.m, v.entry);
    SnapshotsPast(w.m);
  }

  lemma Revived(w: World, t: ThreadId, u: ThreadId, v: Victim)
    requires TableOk(w.m) && Accounted(w) && PcOf(w, u).Ready? && t != u
    requires LoadedAs(w.m, v) && !w.m.entries[v.entry].dirty && w.m.entries[v.entry].active == 0
    ensures var after := After(w, [LookUp(u, v.path, Never, false), Mutate(v.entry, true)]);
            && after.Some? && TableOk(after.value.m) && PcOf(after.value, t) == PcOf(w, t)
            && LoadedAs(after.value.m, v) && v.entry in after.value.m.entries
            && !after.value.m.entries[v.entry].dirty && after.value.m.entries[v.entry].active == 1
            && after.value.held[v.entry] == 1 && after.value.mutating[v.entry] == 1
            && !Stored(after.value.m, v.path, v.entry)
  {
    hide TableOk, After, Apply, Enabled, Accounted, LoadedAs, Stored;
    HitByCaller(w, u, v);
    ChangedByCaller(Apply(w, LookUp(u, v.path, Never, false)), v);
    AfterTwo(w, LookUp(u, v.path, Never, false), Mutate(v.entry, true));
  }

  lemma SnapshotsPast(m: Manager)
    requires TableOk(m)
    ensures forall p :: p in m.snapshots ==> m.snapshots[p].version < m.nextVersion
  {
  }

  lemma SkippedAndMarked(w: World, t: ThreadId, v: Victim)
    requires TableOk(w.m) && LoadedAs(w.m, v) && !w.m.entries[v.entry].dirty && w.m.entries[v.entry].active == 1
    requires PcOf(w, t).Evicting? && PcOf(w, t).victims == [v] && PcOf(w, t).next == 0
    requires w.held[v.entry] == 1 && w.mutating[v.entry] == 1 && !Stored(w.m, v.path, v.entry)
    ensures var after := After(w, [PersistNext(t, true), MarkDirty(v.entry)]);
            && after.Some? && TableOk(after.value.m) && PcOf(after.value, t) == PcOf(w, t).(next := 1)
            && LoadedAs(after.value.m, v) && after.value.m.entries[v.entry].active == 1
            && after.value.held[v.entry] == 1 && after.value.mutating[v.entry] == 0
            && after.value.m.entries[v.entry].version == w.m.entries[v.entry].version
            && !Stored(after.value.m, v.path, v.entry)
  {
    hide TableOk, After;
    LoadedHaveEntries(w.m);
    CurrentOfPath(w.m, v.path);
    EntryTables(w.m, v.path);
    AfterTwo(w, PersistNext(t, true), MarkDirty(v.entry));
  }

  lemma ReleasedAndRemoved(w: World, t: ThreadId, v: Victim, stamp: nat)
    requires TableOk(w.m) && LoadedAs(w.m, v) && w.m.entries[v.entry].active == 1
    requires PcOf(w, t) == Evicting([v], 1, WhenIdle, Done, stamp)
    requires w.held[v.entry] == 1 && w.mutating[v.entry] == 0 && !Stored(w.m, v.path, v.entry)
    ensures var after := After(w, [Release(v.entry), RemoveNow(t)]);
            && after.Some? && v.path !in after.value.m.projects && v.entry in after.value.m.entries
            && after.value.m.entries[v.entry].version == w.m.entries[v.entry].version
            && !Stored(after.value.m, v.path, v.entry)
  {
    hide TableOk, After, Forget;
    LoadedHaveEntries(w.m);
    CurrentOfPath(w.m, v.path);
    EntryTables(w.m, v.path);
    RemoveOne(Released(w.m, v.path), v);
    AfterTwo(w, Release(v.entry), RemoveNow(t));
  }
}
