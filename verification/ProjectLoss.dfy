/** Which versions an eviction can lose, measured from the moment a victim was persisted. */
module ProjectLoss {
  import opened Symbols
  import opened ProjectTable
  import opened ProjectManagers
  import opened ProjectProtocol
  import opened ProjectRuns
  import opened ProjectAccounting
  import opened ProjectDisk
  import opened ProjectPersistence

  /**
    Decided before the write, which takes place if the victim is dirty and the disk is `ok`: nothing is
    loaded at the victim's path, or what is written is the version loaded there, or nothing is written
    and that version is on disk already.
   */
  predicate SavedByPersist(w: World, t: ThreadId, ok: bool)
    requires TableOk(w.m) && Enabled(w, PersistNext(t, ok))
  {
    var v := NextVictim(w, t);
    v.path in w.m.projects ==>
      if ok && w.m.entries[v.entry].dirty then EntryAt(w.m, v.path).version == w.m.entries[v.entry].version
      else Stored(w.m, v.path, w.m.projects[v.path])
  }

  /** In particular a victim still loaded and not being changed is saved, unless its write fails. */
  lemma UnchangedVictimIsSaved(w: World, t: ThreadId, ok: bool)
    requires TableOk(w.m) && Enabled(w, PersistNext(t, ok)) && Agreement(w)
    requires var v := NextVictim(w, t);
             LoadedAs(w.m, v) && w.mutating[v.entry] == 0 && (w.m.entries[v.entry].dirty ==> ok)
    ensures SavedByPersist(w, t, ok)
  {
    hide TableOk;
  }

  /** After the write, nothing older is loaded unsaved at that path, if and only if the condition held before. */
  lemma PersistSaves(w: World, t: ThreadId, ok: bool)
    requires TableOk(w.m) && Enabled(w, PersistNext(t, ok))
    ensures SavedByPersist(w, t, ok) <==>
            Kept(Apply(w, PersistNext(t, ok)).m, NextVictim(w, t).path, w.m.nextVersion)
  {
    var v := NextVictim(w, t);
    if v.path in w.m.projects {
      CurrentOfPath(w.m, v.path);
    }
  }

  // ------------------------------------------------------------ sufficiency, with or without careful callers

  lemma KeptStep(w: World, a: Action, p: ProjectPath, stamp: nat)
    requires Inv(w) && Warm(w) && Enabled(w, a) && SparesSaved(w, a)
    requires Kept(w.m, p, stamp) && stamp <= w.m.nextVersion
    ensures Kept(Apply(w, a).m, p, stamp) && stamp <= Apply(w, a).m.nextVersion
  {
    hide Inv, TableOk, SparesSaved, Enabled, Apply, Kept, Warm, PathProgress;
    InvTable(w);
    StepProgress(w, a, p);
    KeptMoves(w, Apply(w, a), p, stamp);
    TableStep(w, a);
    VersionsGrow(w.m, Apply(w, a).m);
  }

  lemma VersionsGrow(m: Manager, m2: Manager)
    requires Evolves(m, m2)
    ensures m2.nextVersion >= m.nextVersion
  {
    hide TableOk;
  }

  /** Until step `i` no detached write replaces what a thread has read to restore its path. */
  ghost predicate ReadersSpared(ws: seq<World>, steps: seq<Action>, i: nat)
    requires IsRun(ws, steps) && i <= |steps|
  {
    forall k :: 0 <= k < i ==> SparesReaders(ws[k], steps[k])
  }

  /** Between steps `j` and `i` neither a detached write nor the collector takes a saved version from a loaded graph. */
  ghost predicate SavedSpared(ws: seq<World>, steps: seq<Action>, j: nat, i: nat)
    requires IsRun(ws, steps) && i <= |steps|
  {
    forall k :: j < k < i ==> SparesSaved(ws[k], steps[k])
  }

  lemma {:induction false} RunIsWarm(ws: seq<World>, steps: seq<Action>, i: nat)
    requires IsRun(ws, steps) && i <= |steps| && ReadersSpared(ws, steps, i)
    ensures Warm(ws[i]) && Inv(ws[i]) && TableOk(ws[i].m)
  {
    hide Safe, Enabled, Apply, Warm, Inv, TableOk, SparesReaders;
    RunIsSafe(ws, steps, i);
    SafeInv(ws[i]);
    if i == 0 {
      StartAgrees();
    } else {
      RunIsWarm(ws, steps, i - 1);
      WarmStep(ws[i - 1], steps[i - 1]);
    }
  }

  /** What is on disk, or newer than the write of step `j`, stays so as long as its path is loaded. */
  lemma {:induction false} KeptSince(ws: seq<World>, steps: seq<Action>, j: nat, i: nat)
    requires IsRun(ws, steps) && j < i <= |steps| && steps[j].PersistNext?
    requires ReadersSpared(ws, steps, i) && SavedSpared(ws, steps, j, i)
    requires SavedByPersist(ws[j], steps[j].t, steps[j].ok)
    ensures Kept(ws[i].m, NextVictim(ws[j], steps[j].t).path, ws[j].m.nextVersion)
    ensures ws[j].m.nextVersion <= ws[i].m.nextVersion
    decreases i
  {
    hide Warm, Inv, TableOk, SparesSaved, SparesReaders, Enabled, Apply, Kept, SavedByPersist, Evolves;
    RunIsWarm(ws, steps, i - 1);
    RunIsWarm(ws, steps, j);
    EnabledPersist(ws[j], steps[j].t, steps[j].ok);
    if i == j + 1 {
      PersistSaves(ws[j], steps[j].t, steps[j].ok);
      TableStep(ws[j], steps[j]);
      VersionsGrow(ws[j].m, ws[i].m);
    } else {
      KeptSince(ws, steps, j, i - 1);
      KeptStep(ws[i - 1], steps[i - 1], NextVictim(ws[j], steps[j].t).path, ws[j].m.nextVersion);
    }
  }

  /** The step evicts `p` and with it a version older than `stamp` that is not on disk. */
  ghost predicate LosesOlder(w: World, a: Action, p: ProjectPath, stamp: nat)
    requires TableOk(w.m) && Enabled(w, a)
  {
    && a.RemoveNow? && p in w.m.projects && p !in Apply(w, a).m.projects
    && EntryAt(w.m, p).version < stamp && !Stored(Apply(w, a).m, p, w.m.projects[p])
  }

  lemma KeptNotLost(w: World, a: Action, p: ProjectPath, stamp: nat)
    requires TableOk(w.m) && Enabled(w, a) && Kept(w.m, p, stamp)
    ensures !LosesOlder(w, a, p, stamp)
  {
    hide TableOk, Removed, IsVictim, Evictable;
    LoadedHaveEntries(w.m);
    if a.RemoveNow? {
      RemovedEffect(w.m, PcOf(w, a.t).victims, PcOf(w, a.t).guard);
    }
  }

  /**
    A version lost by an eviction was created after the persist of the victim at its path, in whichever
    eviction that persist and this removal happen.  Only that one write has to succeed, and nothing is
    asked of stale evictions and unloads.
   */
  lemma LostAfterPersist(ws: seq<World>, steps: seq<Action>, j: nat, i: nat)
    requires IsRun(ws, steps) && j < i < |steps| && steps[j].PersistNext?
    requires ReadersSpared(ws, steps, i) && SavedSpared(ws, steps, j, i)
    requires SavedByPersist(ws[j], steps[j].t, steps[j].ok)
    ensures !LosesOlder(ws[i], steps[i], NextVictim(ws[j], steps[j].t).path, ws[j].m.nextVersion)
  {
    hide Warm, Inv, TableOk, SparesSaved, SparesReaders, Apply, Kept, SavedByPersist, LosesOlder;
    RunIsWarm(ws, steps, i);
    KeptSince(ws, steps, j, i);
    KeptNotLost(ws[i], steps[i], NextVictim(ws[j], steps[j].t).path, ws[j].m.nextVersion);
  }

  /** So it is whenever the victim was still loaded and nobody was changing it when it was persisted. */
  lemma LostAfterQuietPersist(ws: seq<World>, steps: seq<Action>, j: nat, i: nat)
    requires IsRun(ws, steps) && j < i < |steps| && steps[j].PersistNext?
    requires ReadersSpared(ws, steps, i) && SavedSpared(ws, steps, j, i)
    requires forall k :: 0 <= k < j ==> SparesClean(ws[k], steps[k])
    requires var v := NextVictim(ws[j], steps[j].t);
             LoadedAs(ws[j].m, v) && ws[j].mutating[v.entry] == 0 && (ws[j].m.entries[v.entry].dirty ==> steps[j].ok)
    ensures !LosesOlder(ws[i], steps[i], NextVictim(ws[j], steps[j].t).path, ws[j].m.nextVersion)
  {
    hide Inv, TableOk, Apply, LosesOlder, SavedByPersist, Agreement, Warm, SparesSaved, SparesReaders, SparesClean;
    RunAgreesUpTo(ws, steps, j);
    UnchangedVictimIsSaved(ws[j], steps[j].t, steps[j].ok);
    LostAfterPersist(ws, steps, j, i);
  }

  // ------------------------------------------------------------ careful continuations

  ghost predicate CarefulPath(w: World, steps: seq<Action>)
    decreases |steps|
  {
    steps == [] ||
    (TableOk(w.m) && Enabled(w, steps[0]) && Careful(w, steps[0]) && CarefulPath(Apply(w, steps[0]), steps[1..]))
  }

  lemma {:induction false} CarefulPathEnds(w: World, steps: seq<Action>)
    requires CarefulPath(w, steps)
    ensures After(w, steps).Some?
    decreases |steps|
  {
    hide TableOk, Enabled, Apply, Careful;
    if steps != [] {
      CarefulPathEnds(Apply(w, steps[0]), steps[1..]);
    }
  }

  lemma {:induction false} CarefulPathAppend(w: World, steps: seq<Action>, more: seq<Action>)
    requires CarefulPath(w, steps) && After(w, steps).Some? && CarefulPath(After(w, steps).value, more)
    ensures CarefulPath(w, steps + more) && After(w, steps + more) == After(After(w, steps).value, more)
    decreases |steps|
  {
    hide TableOk, Enabled, Apply, Careful;
    if steps == [] {
      assert steps + more == more;
    } else {
      assert (steps + more)[1..] == steps[1..] + more;
      CarefulPathAppend(Apply(w, steps[0]), steps[1..], more);
    }
  }

  lemma CarefulPathOne(w: World, a: Action)
    requires TableOk(w.m) && Enabled(w, a) && Careful(w, a)
    ensures CarefulPath(w, [a]) && After(w, [a]) == Some(Apply(w, a))
  {
    hide TableOk, Enabled, Apply, Careful;
    AfterOne(w, a);
    assert [a][1..] == [];
  }

  lemma FaithfulWarm(w: World)
    requires Faithful(w)
    ensures Warm(w)
  {
    hide Warm;
  }

  lemma {:induction false} KeptAlong(w: World, steps: seq<Action>, p: ProjectPath, stamp: nat)
    requires Inv(w) && Faithful(w) && CarefulPath(w, steps) && Kept(w.m, p, stamp) && stamp <= w.m.nextVersion
    ensures After(w, steps).Some? && Kept(After(w, steps).value.m, p, stamp)
    decreases |steps|
  {
    hide Inv, Faithful, TableOk, Enabled, Apply, Careful, Kept;
    if steps != [] {
      InvStep(w, steps[0]);
      FaithfulStep(w, steps[0]);
      CarefulSpares(w, steps[0]);
      FaithfulWarm(w);
      KeptStep(w, steps[0], p, stamp);
      KeptAlong(Apply(w, steps[0]), steps[1..], p, stamp);
    }
  }

  // ------------------------------------------------------------ necessity: how the older version gets lost

  ghost predicate SameTimes(m: Manager, m2: Manager) {
    m2.entries.Keys == m.entries.Keys
    && forall e :: e in m.entries ==> m2.entries[e].lastQuery == m.entries[e].lastQuery
  }

  /** The table is the same, except that entries other than `c` and paths other than `p` may have been saved. */
  ghost predicate SavedElsewhere(w: World, w2: World, p: ProjectPath, c: EntryId) {
    && w2.m == w.m.(entries := w2.m.entries, snapshots := w2.m.snapshots)
    && w2.held == w.held && w2.mutating == w.mutating
    && w2.m.entries.Keys == w.m.entries.Keys
    && (c in w.m.entries ==> w2.m.entries[c] == w.m.entries[c])
    && SameTimes(w.m, w2.m)
    && (p in w2.m.snapshots <==> p in w.m.snapshots)
    && (p in w.m.snapshots ==> w2.m.snapshots[p] == w.m.snapshots[p])
  }

  /** The victims still to be written can be: each is clean, or loaded, and none is `c` or at `p`. */
  ghost predicate RestWritable(w: World, t: ThreadId, p: ProjectPath, c: EntryId) {
    && PcOf(w, t).Evicting? && PcOf(w, t).next <= |PcOf(w, t).victims|
    && forall i :: PcOf(w, t).next <= i < |PcOf(w, t).victims| ==>
         var v := PcOf(w, t).victims[i];
         && v.entry in w.m.entries && v.path != p && v.entry != c
         && (w.m.entries[v.entry].dirty ==> LoadedAs(w.m, v))
  }

  lemma PersistOneMore(w: World, t: ThreadId, p: ProjectPath, c: EntryId)
    requires TableOk(w.m) && RestWritable(w, t, p, c) && PcOf(w, t).next < |PcOf(w, t).victims|
    ensures var a := PersistNext(t, true);
            && Enabled(w, a) && Careful(w, a)
            && TableOk(Apply(w, a).m) && SavedElsewhere(w, Apply(w, a), p, c)
            && RestWritable(Apply(w, a), t, p, c)
            && PcOf(Apply(w, a), t) == PcOf(w, t).(next := PcOf(w, t).next + 1)
  {
    hide TableOk;
    PersistedOk(w.m, NextVictim(w, t), true);
  }

  lemma SavedElsewhereTrans(w: World, w1: World, w2: World, p: ProjectPath, c: EntryId)
    requires SavedElsewhere(w, w1, p, c) && SavedElsewhere(w1, w2, p, c)
    ensures SavedElsewhere(w, w2, p, c)
  {
  }

  /** The evictor writes the rest of its victims. */
  lemma {:induction false} PersistRest(w: World, t: ThreadId, p: ProjectPath, c: EntryId)
    returns (steps: seq<Action>, w2: World)
    requires TableOk(w.m) && RestWritable(w, t, p, c)
    ensures CarefulPath(w, steps) && After(w, steps) == Some(w2)
    ensures TableOk(w2.m) && SavedElsewhere(w, w2, p, c)
    ensures PcOf(w2, t) == PcOf(w, t).(next := |PcOf(w, t).victims|)
    decreases |PcOf(w, t).victims| - PcOf(w, t).next
  {
    hide TableOk, Enabled, Apply, Careful, CarefulPath, After;
    if PcOf(w, t).next == |PcOf(w, t).victims| {
      steps, w2 := [], w;
      NoSteps(w);
    } else {
      var a := PersistNext(t, true);
      PersistOneMore(w, t, p, c);
      CarefulPathOne(w, a);
      var more;
      more, w2 := PersistRest(Apply(w, a), t, p, c);
      CarefulPathAppend(w, [a], more);
      steps := [a] + more;
      SavedElsewhereTrans(w, Apply(w, a), w2, p, c);
    }
  }

  lemma NoSteps(w: World)
    ensures CarefulPath(w, []) && After(w, []) == Some(w)
  {
  }

  /** Only the entry `c` differs, and neither in version nor in access time. */
  ghost predicate OnlyCallersLeft(w: World, w2: World, c: EntryId) {
    && w2.threads == w.threads && w2.m == w.m.(entries := w2.m.entries)
    && c in w.m.entries && c in w2.m.entries && w2.m.entries == w.m.entries[c := w2.m.entries[c]]
    && w2.m.entries[c].version == w.m.entries[c].version
    && w2.m.entries[c].lastQuery == w.m.entries[c].lastQuery
  }

  /** A loaded entry whose callers are counted. */
  ghost predicate CountedEntry(w: World, c: EntryId) {
    IsCurrent(w.m, c) && w.m.entries[c].active == w.held[c] && w.mutating[c] <= w.held[c]
  }

  lemma MarkOne(w: World, c: EntryId)
    requires TableOk(w.m) && CountedEntry(w, c) && w.mutating[c] > 0
    ensures var a := MarkDirty(c);
            && Enabled(w, a) && Careful(w, a) && TableOk(Apply(w, a).m)
            && CountedEntry(Apply(w, a), c) && OnlyCallersLeft(w, Apply(w, a), c)
            && Apply(w, a).held[c] == w.held[c] && Apply(w, a).mutating[c] == w.mutating[c] - 1
  {
    hide TableOk;
    EntryTables(w.m, w.m.entries[c].path);
  }

  lemma ReleaseOne(w: World, c: EntryId)
    requires TableOk(w.m) && CountedEntry(w, c) && w.mutating[c] == 0 && w.held[c] > 0
    ensures var a := Release(c);
            && Enabled(w, a) && Careful(w, a) && TableOk(Apply(w, a).m)
            && CountedEntry(Apply(w, a), c) && OnlyCallersLeft(w, Apply(w, a), c)
            && Apply(w, a).held[c] == w.held[c] - 1 && Apply(w, a).mutating[c] == 0
  {
    hide TableOk;
    EntryTables(w.m, w.m.entries[c].path);
  }

  lemma OnlyCallersTrans(w: World, w1: World, w2: World, c: EntryId)
    requires OnlyCallersLeft(w, w1, c) && OnlyCallersLeft(w1, w2, c)
    ensures OnlyCallersLeft(w, w2, c)
  {
  }

  /** Every caller of `c` marks what it changed and releases. */
  lemma {:induction false} DrainCallers(w: World, c: EntryId) returns (steps: seq<Action>, w2: World)
    requires TableOk(w.m) && CountedEntry(w, c)
    ensures CarefulPath(w, steps) && After(w, steps) == Some(w2)
    ensures TableOk(w2.m) && OnlyCallersLeft(w, w2, c) && w2.m.entries[c].active == 0
    decreases w.held[c] + w.mutating[c]
  {
    hide TableOk, Enabled, Apply, Careful, CarefulPath, After, IsCurrent;
    CurrentIsEntry(w.m, c);
    if w.held[c] == 0 {
      steps, w2 := [], w;
      NoSteps(w);
    } else {
      var a := if w.mutating[c] > 0 then MarkDirty(c) else Release(c);
      if w.mutating[c] > 0 {
        MarkOne(w, c);
      } else {
        ReleaseOne(w, c);
      }
      CarefulPathOne(w, a);
      var more;
      more, w2 := DrainCallers(Apply(w, a), c);
      CarefulPathAppend(w, [a], more);
      steps := [a] + more;
      OnlyCallersTrans(w, Apply(w, a), w2, c);
    }
  }

  lemma CurrentIsEntry(m: Manager, c: EntryId)
    requires IsCurrent(m, c)
    ensures c in m.entries
  {
  }

  /** Time passes until the guard of the evictor lets the idle graph go. */
  lemma WaitAndRemove(w: World, t: ThreadId, p: ProjectPath, c: EntryId, stamp: nat) returns (wait: Action)
    requires TableOk(w.m) && LruOk(w.m) && LoadedAs(w.m, Victim(p, c)) && c in w.m.entries && w.m.entries[c].active == 0
    requires PcOf(w, t).Evicting? && PcOf(w, t).next == |PcOf(w, t).victims| && PcOf(w, t).then_ != KeepAll
    requires IsVictim(PcOf(w, t).victims, p) && !Stored(w.m, p, c) && w.m.entries[c].version < stamp
    ensures CarefulPath(w, [wait]) && After(w, [wait]).Some?
    ensures var w2 := After(w, [wait]).value;
            TableOk(w2.m) && Enabled(w2, RemoveNow(t)) && LosesOlder(w2, RemoveNow(t), p, stamp)
  {
    hide TableOk, Removed, IsVictim, CarefulPath, After;
    var pc := PcOf(w, t);
    wait := Tick(if pc.guard.WhenIdle? then 0 else pc.guard.timeout);
    CarefulPathOne(w, wait);
    var w2 := Apply(w, wait);
    TickEvolves(w.m, wait.elapsed);
    AccessedBefore(w.m, p);
    RemovedEffect(w2.m, pc.victims, pc.guard);
  }

  lemma AccessedBefore(m: Manager, p: ProjectPath)
    requires TableOk(m) && LruOk(m) && p in m.projects
    ensures EntryAt(m, p).lastQuery <= m.now
  {
  }

  // ------------------------------------------------------------ exactness

  /** Every victim after the next one can be written carefully: it is clean, or still the loaded graph of its path. */
  predicate CanFinish(w: World, t: ThreadId)
    requires PcOf(w, t).Evicting?
  {
    forall i :: PcOf(w, t).next < i < |PcOf(w, t).victims| ==>
      var v := PcOf(w, t).victims[i];
      v.entry in w.m.entries && w.m.entries[v.entry].dirty ==> LoadedAs(w.m, v)
  }

  lemma SkippedPersist(w: World, t: ThreadId)
    requires Safe(w) && TableOk(w.m) && Enabled(w, PersistNext(t, true)) && Careful(w, PersistNext(t, true))
    requires !SavedByPersist(w, t, true) && CanFinish(w, t)
    ensures var p := NextVictim(w, t).path;
            var w1 := Apply(w, PersistNext(t, true));
            && p in w.m.projects && w1 == At(w, t, PcOf(w, t).(next := PcOf(w, t).next + 1))
            && RestWritable(w1, t, p, w.m.projects[p])
            && IsVictim(PcOf(w, t).victims, p)
  {
    hide TableOk, Inv, LruOk, KnownVictim;
    var pc, v := PcOf(w, t), NextVictim(w, t);
    SafeInv(w);
    KnownPc(w, t);
    assert v in pc.victims;
    CurrentOfPath(w.m, v.path);
    forall i | pc.next < i < |pc.victims|
      ensures pc.victims[i].entry in w.m.entries && pc.victims[i].path != v.path
      ensures pc.victims[i].entry != w.m.projects[v.path]
    {
      assert pc.victims[i] in pc.victims;
      KnownEntry(w.m, pc.victims[i]);
    }
  }

  lemma KnownEntry(m: Manager, v: Victim)
    requires KnownVictim(m, v)
    ensures v.entry in m.entries && m.entries[v.entry].path == v.path
  {
  }

  lemma StillLru(m: Manager, m2: Manager)
    requires TableOk(m) && LruOk(m) && TableOk(m2)
    requires m2.projects == m.projects && m2.lru == m.lru && m2.now == m.now
    requires forall p :: p in m.projects ==> EntryAt(m2, p).lastQuery == EntryAt(m, p).lastQuery
    ensures LruOk(m2)
  {
  }

  /** Where the condition fails, a careful continuation of the same eviction loses a version older than the write. */
  lemma OlderVersionCanBeLost(w: World, t: ThreadId) returns (more: seq<Action>)
    requires Safe(w) && Faithful(w) && TableOk(w.m) && PcOf(w, t).Evicting? && PcOf(w, t).then_ != KeepAll
    requires Enabled(w, PersistNext(t, true)) && Careful(w, PersistNext(t, true)) && CanFinish(w, t)
    requires !SavedByPersist(w, t, true)
    ensures LosesAfter(Apply(w, PersistNext(t, true)), more, RemoveNow(t), NextVictim(w, t).path, w.m.nextVersion)
  {
    hide TableOk, LruOk, Inv, Apply, Careful, CarefulPath, After, Faithful, SavedByPersist, CanFinish,
         LosesOlder, RestWritable, IsVictim, DistinctVictims;
    var p, stamp := NextVictim(w, t).path, w.m.nextVersion;
    SafeInv(w);
    SkippedPersist(w, t);
    UnsavedCurrent(w, t);
    var c := w.m.projects[p];
    var w1 := Apply(w, PersistNext(t, true));
    var rest, w2 := PersistRest(w1, t, p, c);
    CountedStill(w, w1, w2, p, c);
    var drain, w3 := DrainCallers(w2, c);
    DrainedLru(w, w2, w3, p, c);
    var wait := WaitAndRemove(w3, t, p, c, stamp);
    CarefulPathAppend(w1, rest, drain);
    CarefulPathAppend(w1, rest + drain, [wait]);
    more := rest + drain + [wait];
  }

  lemma UnsavedCurrent(w: World, t: ThreadId)
    requires TableOk(w.m) && Faithful(w) && Enabled(w, PersistNext(t, true)) && Careful(w, PersistNext(t, true))
    requires !SavedByPersist(w, t, true)
    ensures var p := NextVictim(w, t).path;
            var c := w.m.projects[p];
            && p in w.m.projects && c in w.m.entries && CountedEntry(w, c) && w.m.entries[c].path == p
            && !Stored(w.m, p, c) && w.m.entries[c].version < w.m.nextVersion
  {
    hide Agreement, Warm, Stamped;
    CurrentOfPath(w.m, NextVictim(w, t).path);
  }

  lemma CountedStill(w: World, w1: World, w2: World, p: ProjectPath, c: EntryId)
    requires TableOk(w.m) && p in w.m.projects && w.m.projects[p] == c && CountedEntry(w, c) && !Stored(w.m, p, c)
    requires w1.m == w.m && w1.held == w.held && w1.mutating == w.mutating && SavedElsewhere(w1, w2, p, c)
    ensures CountedEntry(w2, c) && !Stored(w2.m, p, c)
  {
    hide TableOk;
  }

  lemma DrainedLru(w: World, w2: World, w3: World, p: ProjectPath, c: EntryId)
    requires TableOk(w.m) && LruOk(w.m) && TableOk(w3.m) && p in w.m.projects && w.m.projects[p] == c
    requires w2.m == w.m.(entries := w2.m.entries, snapshots := w2.m.snapshots) && !Stored(w2.m, p, c)
    requires SameTimes(w.m, w2.m) && OnlyCallersLeft(w2, w3, c)
    ensures LruOk(w3.m) && LoadedAs(w3.m, Victim(p, c)) && !Stored(w3.m, p, c)
  {
    LoadedHaveEntries(w.m);
    StillLru(w.m, w3.m);
  }

  // ------------------------------------------------------------ the law

  /** A careful continuation `more` and the removal `b` after it lose a version of `p` older than `stamp`. */
  ghost predicate LosesAfter(w: World, more: seq<Action>, b: Action, p: ProjectPath, stamp: nat) {
    && CarefulPath(w, more) && After(w, more).Some?
    && var w2 := After(w, more).value;
       TableOk(w2.m) && Enabled(w2, b) && LosesOlder(w2, b, p, stamp)
  }

  /**
    In every careful run, at every persist of an eviction that can finish: no careful continuation loses
    a version of that path older than the persist if and only if the condition holds: the victim's path
    is not loaded, or its loaded version is the one written, or is on disk.
   */
  lemma PersistBoundExact(ws: seq<World>, steps: seq<Action>, i: nat, t: ThreadId)
    requires CarefulRun(ws, steps) && i < |ws| && TableOk(ws[i].m)
    requires PcOf(ws[i], t).Evicting? && PcOf(ws[i], t).then_ != KeepAll && CanFinish(ws[i], t)
    requires Enabled(ws[i], PersistNext(t, true)) && Careful(ws[i], PersistNext(t, true))
    ensures SavedByPersist(ws[i], t, true) <==>
            forall more, b ::
              !LosesAfter(Apply(ws[i], PersistNext(t, true)), more, b, NextVictim(ws[i], t).path, ws[i].m.nextVersion)
  {
    hide TableOk, Inv, Safe, Faithful, Apply, Careful, CarefulPath, After, SavedByPersist, CanFinish,
         LosesOlder, Kept, LosesAfter;
    var w, a := ws[i], PersistNext(t, true);
    var w1, p, stamp := Apply(w, a), NextVictim(w, t).path, w.m.nextVersion;
    RunIsFaithful(ws, steps, i);
    RunIsSafe(ws, steps, i);
    if SavedByPersist(w, t, true) {
      PersistSaves(w, t, true);
      InvStep(w, a);
      FaithfulStep(w, a);
      TableStep(w, a);
      VersionsGrow(w.m, w1.m);
      forall more, b ensures !LosesAfter(w1, more, b, p, stamp) {
        NeverLost(w1, more, b, p, stamp);
      }
    } else {
      var more := OlderVersionCanBeLost(w, t);
      assert LosesAfter(w1, more, RemoveNow(t), p, stamp);
    }
  }

  lemma NeverLost(w: World, more: seq<Action>, b: Action, p: ProjectPath, stamp: nat)
    requires Inv(w) && Faithful(w) && Kept(w.m, p, stamp) && stamp <= w.m.nextVersion
    ensures !LosesAfter(w, more, b, p, stamp)
  {
    hide Inv, Faithful, TableOk, Enabled, Apply, Careful, CarefulPath, After, LosesOlder, Kept;
    if CarefulPath(w, more) {
      KeptAlong(w, more, p, stamp);
      var w2 := After(w, more).value;
      if TableOk(w2.m) && Enabled(w2, b) {
        KeptNotLost(w2, b, p, stamp);
      }
    }
  }
}
