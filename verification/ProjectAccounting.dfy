/** Whether `active_queries` counts the callers of an entry, and which graphs an eviction can take from a caller. */
module ProjectAccounting {
  import opened Symbols
  import opened ProjectTable
  import opened ProjectManagers
  import opened ProjectProtocol
  import opened ProjectRuns

  ghost predicate IsCurrent(m: Manager, e: EntryId) {
    e in m.entries && LoadedAs(m, Victim(m.entries[e].path, e))
  }

  /** Every counter equals the number of unreleased loads. */
  ghost predicate Counted(w: World) {
    forall e :: e in w.m.entries ==> w.m.entries[e].active == w.held[e]
  }

  /** Every held graph is the loaded one of its path. */
  ghost predicate HoldersCurrent(w: World) {
    forall e :: w.held[e] > 0 ==> IsCurrent(w.m, e)
  }

  ghost predicate Accounted(w: World) {
    Counted(w) && HoldersCurrent(w) && forall e :: w.mutating[e] <= w.held[e]
  }

  /** The path of the action is not loaded, or nobody holds the graph that is about to be thrown away. */
  predicate NobodyHolds(w: World, p: ProjectPath) {
    p in w.m.projects ==> w.held[w.m.projects[p]] == 0
  }

  /** The two removals without a guard, stale eviction and `unload`, hit only idle projects. */
  predicate Disciplined(w: World, a: Action) {
    match a
    case LookUp(_, p, policy, newer) => MustRebuild(policy, newer) ==> NobodyHolds(w, p)
    case Unload(p) => NobodyHolds(w, p)
    case _ => true
  }

  // ------------------------------------------------------------ steps

  /** Callers stay the same and nobody loses the graph it holds. */
  lemma AccountedFrame(w: World, w2: World)
    requires Accounted(w) && w2.held == w.held && w2.mutating == w.mutating
    requires w2.m.entries.Keys == w.m.entries.Keys
    requires forall e :: e in w.m.entries ==>
               w2.m.entries[e].active == w.m.entries[e].active && w2.m.entries[e].path == w.m.entries[e].path
    requires forall p :: p in w.m.projects && w.held[w.m.projects[p]] > 0 ==>
               p in w2.m.projects && w2.m.projects[p] == w.m.projects[p]
    ensures Accounted(w2)
  {
    assert forall e :: IsCurrent(w.m, e) && w.held[e] > 0 ==> IsCurrent(w2.m, e);
  }

  /** One more caller of the loaded entry `e`, counted. */
  lemma AccountedHit(w: World, w2: World, e: EntryId)
    requires Accounted(w) && TableOk(w.m) && IsCurrent(w2.m, e)
    requires w2.held == w.held + multiset{e} && w2.mutating == w.mutating && w2.m.projects == w.m.projects
    requires e in w.m.entries && w2.m.entries == w.m.entries[e := w2.m.entries[e]]
    requires w.held[e] < USIZE_MAX
    requires w2.m.entries[e].active == Incremented(w.m.entries[e].active) && w2.m.entries[e].path == w.m.entries[e].path
    ensures Accounted(w2)
  {
    assert forall e' :: IsCurrent(w.m, e') ==> IsCurrent(w2.m, e');
  }

  lemma CurrentAfterInstall(m: Manager, m2: Manager, e: EntryId, entry: ProjectEntry, o: EntryId)
    requires e !in m.entries && entry.path !in m.projects
    requires m2.entries == m.entries[e := entry] && m2.projects == m.projects[entry.path := e]
    requires o == e || IsCurrent(m, o)
    ensures IsCurrent(m2, o)
  {
  }

  /** A fresh entry with its one caller; its path was not loaded. */
  lemma AccountedInstall(w: World, w2: World, e: EntryId, entry: ProjectEntry)
    requires Accounted(w) && e !in w.m.entries && entry.path !in w.m.projects && entry.active == 1
    requires w2.m.entries == w.m.entries[e := entry] && w2.m.projects == w.m.projects[entry.path := e]
    requires w2.held == w.held + multiset{e} && w2.mutating == w.mutating
    ensures Accounted(w2)
  {
    hide IsCurrent;
    assert w.held[e] == 0 by {
      FreshUnheld(w, e);
    }
    forall o | w2.held[o] > 0 ensures IsCurrent(w2.m, o) {
      CurrentAfterInstall(w.m, w2.m, e, entry, o);
    }
    assert forall o :: o in w2.m.entries ==> w2.m.entries[o].active == w2.held[o];
  }

  lemma FreshUnheld(w: World, e: EntryId)
    requires Accounted(w) && e !in w.m.entries
    ensures w.held[e] == 0
  {
    assert !IsCurrent(w.m, e);
  }

  /** One caller of the loaded entry `e` fewer, counted. */
  lemma AccountedRelease(w: World, w2: World, e: EntryId)
    requires Accounted(w) && w.held[e] > w.mutating[e]
    requires TableOk(w.m) && e in w.m.entries
    requires w2 == w.(m := Released(w.m, w.m.entries[e].path), held := w.held - multiset{e})
    ensures Accounted(w2)
  {
    assert IsCurrent(w.m, e);
    assert forall e' :: IsCurrent(w.m, e') ==> IsCurrent(w2.m, e');
  }

  lemma AccountedMutating(w: World, mutating: multiset<EntryId>)
    requires Accounted(w) && forall e :: mutating[e] <= w.held[e]
    ensures Accounted(w.(mutating := mutating))
  {
    hide IsCurrent;
  }

  lemma AccountedDrop(w: World, w2: World, p: ProjectPath)
    requires Accounted(w) && NobodyHolds(w, p) && w2.held == w.held && w2.mutating == w.mutating
    requires w2.m.entries == w.m.entries && w2.m.projects == w.m.projects - {p}
    ensures Accounted(w2)
  {
    hide Accounted;
    AccountedFrame(w, w2);
  }

  lemma AccountedLookup(w: World, t: ThreadId, p: ProjectPath, policy: RefreshPolicy, newer: bool)
    requires Accounted(w) && TableOk(w.m) && Enabled(w, LookUp(t, p, policy, newer))
    requires Disciplined(w, LookUp(t, p, policy, newer))
    ensures Accounted(Apply(w, LookUp(t, p, policy, newer)))
  {
    hide Accounted, Forget, TableOk;
    var w2 := Apply(w, LookUp(t, p, policy, newer));
    LoadedHaveEntries(w.m);
    if Lookup(w.m, p, policy, newer).1.Hit? {
      CurrentOfPath(w.m, p);
      AccountedHit(w, w2, w.m.projects[p]);
    } else if p in w.m.projects {
      AccountedDrop(w, w2, p);
    } else {
      AccountedFrame(w, w2);
    }
  }

  lemma CurrentOfPath(m: Manager, p: ProjectPath)
    requires TableOk(m) && p in m.projects
    ensures IsCurrent(m, m.projects[p]) && m.entries[m.projects[p]].path == p
  {
  }

  lemma AccountedFinish(w: World, t: ThreadId, result: Option<BuiltGraph>, cap: nat)
    requires Accounted(w) && Inv(w) && Enabled(w, Finish(t, result, cap))
    ensures Accounted(Apply(w, Finish(t, result, cap)))
  {
    hide Accounted, Forget, Inv, TableOk, CapVictims;
    InvTable(w);
    BuilderIsAlone(w, t);
    var w2 := Apply(w, Finish(t, result, cap));
    if result.None? {
      AccountedFrame(w, w2);
    } else {
      AccountedInstall(w, w2, w.m.nextId, w2.m.entries[w.m.nextId]);
    }
  }

  lemma BuilderIsAlone(w: World, t: ThreadId)
    requires Inv(w) && PcOf(w, t).Building?
    ensures PcOf(w, t).path !in w.m.projects && w.m.nextId !in w.m.entries
  {
    hide VictimsKnown;
  }

  /** The revive guard is enough: an entry whose counter is positive stays. */
  lemma AccountedRemoval(w: World, w2: World, victims: seq<Victim>, guard: Guard)
    requires Accounted(w) && TableOk(w.m) && w2.held == w.held && w2.mutating == w.mutating
    requires w2.m == Removed(w.m, victims, guard).0
    ensures Accounted(w2)
  {
    hide Removed, IsVictim;
    RemovedEffect(w.m, victims, guard);
    AccountedFrame(w, w2);
  }

  lemma AccountedEntryStep(w: World, a: Action)
    requires Accounted(w) && Inv(w) && Enabled(w, a) && (a.Release? || a.Mutate? || a.MarkDirty? || a.CollectGone?)
    ensures Accounted(Apply(w, a))
  {
    hide Accounted, Inv, TableOk;
    InvTable(w);
    LoadedHaveEntries(w.m);
    var w2 := Apply(w, a);
    if a.Release? {
      AccountedRelease(w, w2, a.entry);
    } else {
      var w1 := w2.(mutating := w.mutating);
      AccountedFrame(w, w1);
      MutatingWithinHeld(w);
      AccountedMutating(w1, w2.mutating);
    }
  }

  lemma MutatingWithinHeld(w: World)
    requires Accounted(w)
    ensures forall e :: w.mutating[e] <= w.held[e]
  {
  }

  lemma AccountedStep(w: World, a: Action)
    requires Inv(w) && Accounted(w) && Enabled(w, a) && Disciplined(w, a)
    ensures Accounted(Apply(w, a))
  {
    hide Accounted, Inv, TableOk, CapVictims, Forget, Evictable, Lookup, LoadEnded, Installed, Removed;
    InvTable(w);
    match a {
      case LookUp(t, p, policy, newer) => AccountedLookup(w, t, p, policy, newer);
      case Finish(t, result, cap) => AccountedFinish(w, t, result, cap);
      case RemoveNow(t) =>
        if PcOf(w, t).then_.KeepAll? {
          AccountedFrame(w, Apply(w, a));
        } else {
          AccountedRemoval(w, Apply(w, a), PcOf(w, t).victims, PcOf(w, t).guard);
        }
      case Unload(p) => AccountedDrop(w, Apply(w, a), p);
      case Release(_) => AccountedEntryStep(w, a);
      case Mutate(_, _) => AccountedEntryStep(w, a);
      case MarkDirty(_) => AccountedEntryStep(w, a);
      case CollectGone(_) => AccountedEntryStep(w, a);
      case _ => AccountedFrame(w, Apply(w, a));
    }
  }

  /**
    From a state with exact counters, a step keeps every held graph loaded if and only if it is
    disciplined; the counters themselves survive even the step that is not.
   */
  lemma DisciplineIsExact(w: World, a: Action)
    requires Inv(w) && Accounted(w) && Enabled(w, a)
    ensures HoldersCurrent(Apply(w, a)) <==> Disciplined(w, a)
    ensures Counted(Apply(w, a))
  {
    hide Accounted, HoldersCurrent, Counted, Inv, TableOk, Forget;
    InvTable(w);
    if Disciplined(w, a) {
      AccountedStep(w, a);
      AccountedParts(Apply(w, a));
    } else {
      AccountedParts(w);
      var p := a.path;
      var e := w.m.projects[p];
      LoadedHaveEntries(w.m);
      CurrentOfPath(w.m, p);
      HolderLosesGraph(Apply(w, a), e, p);
      SameCounters(w, Apply(w, a));
    }
  }

  lemma AccountedParts(w: World)
    requires Accounted(w)
    ensures Counted(w) && HoldersCurrent(w)
  {
  }

  lemma SameCounters(w: World, w2: World)
    requires Counted(w) && w2.m.entries == w.m.entries && w2.held == w.held
    ensures Counted(w2)
  {
  }

  lemma HolderLosesGraph(w: World, e: EntryId, p: ProjectPath)
    requires w.held[e] > 0 && e in w.m.entries && w.m.entries[e].path == p && p !in w.m.projects
    ensures !HoldersCurrent(w)
  {
    assert !IsCurrent(w.m, e);
  }

  // ------------------------------------------------------------ runs

  ghost predicate DisciplinedRun(ws: seq<World>, steps: seq<Action>) {
    IsRun(ws, steps) && forall i :: 0 <= i < |steps| ==> Disciplined(ws[i], steps[i])
  }

  /** In disciplined runs the counters are exact throughout. */
  lemma {:induction false} CountersExact(ws: seq<World>, steps: seq<Action>, i: nat)
    requires DisciplinedRun(ws, steps) && i < |ws|
    ensures Accounted(ws[i])
  {
    hide Safe, Enabled, Apply, Accounted, Disciplined;
    if i == 0 {
      StartAccounted();
    } else {
      CountersExact(ws, steps, i - 1);
      RunIsSafe(ws, steps, i - 1);
      SafeInv(ws[i - 1]);
      AccountedStep(ws[i - 1], steps[i - 1]);
    }
  }

  lemma SafeInv(w: World)
    requires Safe(w)
    ensures Inv(w) && TableOk(w.m) && LruOk(w.m)
  {
    hide LruOk, Singleflight, VictimsKnown;
  }

  lemma StartAccounted()
    ensures Accounted(Start)
  {
  }

  /**
    In disciplined runs no eviction, by count, bytes or idle time, takes a graph from a caller: what
    is held before a step is still loaded after it unless this very step released it.
   */
  lemma HeldGraphsStay(ws: seq<World>, steps: seq<Action>, i: nat, e: EntryId)
    requires DisciplinedRun(ws, steps) && i < |steps| && ws[i].held[e] > 0
    ensures IsCurrent(ws[i].m, e) && ws[i].m.entries[e].active == ws[i].held[e]
    ensures IsCurrent(ws[i + 1].m, e) || steps[i] == Release(e)
  {
    CountersExact(ws, steps, i);
    CountersExact(ws, steps, i + 1);
    assert ws[i + 1] == Apply(ws[i], steps[i]);
    HeldOnlyReleased(ws[i], steps[i], e);
  }

  lemma HeldOnlyReleased(w: World, a: Action, e: EntryId)
    requires TableOk(w.m) && Enabled(w, a) && w.held[e] > 0
    ensures Apply(w, a).held[e] > 0 || a == Release(e)
  {
    hide TableOk, CapVictims, Forget, Evictable, Lookup, LoadEnded, Installed, Removed, Persisted, Released,
         MarkedDirty, Changed;
  }

  /** No decrement wraps: a caller that releases finds its own entry with a positive counter. */
  lemma ReleaseNeverWraps(ws: seq<World>, steps: seq<Action>, i: nat, e: EntryId)
    requires DisciplinedRun(ws, steps) && i < |steps| && steps[i] == Release(e)
    ensures e in ws[i].m.entries && ws[i].m.entries[e].active > 0
    ensures e in ws[i + 1].m.entries && ws[i + 1].m.entries[e].active == ws[i].m.entries[e].active - 1
  {
    hide TableOk;
    assert Enabled(ws[i], steps[i]);
    CountersExact(ws, steps, i);
    assert IsCurrent(ws[i].m, e);
    assert ws[i + 1] == Apply(ws[i], steps[i]);
  }

  // ------------------------------------------------------------ what goes wrong without the discipline

  /**
    `release` looks its entry up by path, so a caller of a discarded graph decrements the counter of
    the replacement: that counter stays exact if and only if the released entry is the loaded one.
   */
  lemma ReleaseByPath(w: World, e: EntryId, c: EntryId)
    requires TableOk(w.m) && Enabled(w, Release(e))
    requires c in w.m.entries && LoadedAs(w.m, Victim(w.m.entries[e].path, c))
    requires w.m.entries[c].active == w.held[c] && w.held[c] <= USIZE_MAX
    ensures Apply(w, Release(e)).m.entries[c].active == Apply(w, Release(e)).held[c] <==> c == e
  {
  }

  /** A stale lookup drops the loaded graph and starts to build it again. */
  lemma StaleBegin(w: World, t: ThreadId, p: ProjectPath)
    requires Inv(w) && p in w.m.projects && PcOf(w, t).Ready?
    ensures var a := LookUp(t, p, IfStale, true);
            && Enabled(w, a)
            && var w1 := Apply(w, a);
               && Inv(w1) && TableOk(w1.m) && w1.m.entries == w.m.entries && w1.held == w.held &&
               w1.mutating == w.mutating
               && p !in w1.m.projects && w1.m.nextId == w.m.nextId + 1
               && PcOf(w1, t) == Building(p, w.m.nextId, None)
  {
    hide Inv, TableOk, Forget;
    InvTable(w);
    NotLoading(w, p);
    InvStep(w, LookUp(t, p, IfStale, true));
    InvTable(Apply(w, LookUp(t, p, IfStale, true)));
  }

  lemma FreshFinish(w: World, t: ThreadId, p: ProjectPath, gate: GateId, built: nat, cap: nat)
    requires Inv(w) && PcOf(w, t) == Building(p, gate, None) && w.m.nextId !in w.m.entries && TableOk(w.m)
    ensures var a := Finish(t, Some(FromSource(built)), cap);
            && Enabled(w, a)
            && var w2 := Apply(w, a);
               && Inv(w2) && TableOk(w2.m) && p in w2.m.projects && w2.m.projects[p] == w.m.nextId
               && w2.m.nextId - 1 in w2.m.entries && w2.m.entries[w.m.nextId].active == 1
               && (forall e :: e in w.m.entries ==> e in w2.m.entries && w2.m.entries[e] == w.m.entries[e])
               && w2.held == w.held + multiset{w.m.nextId} && w2.mutating == w.mutating
  {
    hide Inv, TableOk, Forget, CapVictims;
    InvStep(w, Finish(t, Some(FromSource(built)), cap));
    InvTable(Apply(w, Finish(t, Some(FromSource(built)), cap)));
  }

  /**
    Rebuilding a stale graph while one caller holds it: once that caller releases, the replacement
    counts as idle although its own caller still holds it, and any eviction may take it.
   */
  lemma BusyReloadDrifts(w: World, t: ThreadId, p: ProjectPath, built: nat, cap: nat)
    requires Inv(w) && Accounted(w) && p in w.m.projects && PcOf(w, t).Ready?
    requires w.held[w.m.projects[p]] > w.mutating[w.m.projects[p]]
    ensures var steps := [LookUp(t, p, IfStale, true), Finish(t, Some(FromSource(built)), cap),
                          Release(w.m.projects[p])];
            var after := After(w, steps);
            && after.Some? && TableOk(after.value.m) && Idle(after.value.m, p)
            && after.value.held[after.value.m.projects[p]] == 1
  {
    hide Inv, TableOk, CapVictims, Forget, Accounted, Lookup, Installed, LoadEnded;
    var e := w.m.projects[p];
    InvTable(w);
    LoadedHaveEntries(w.m);
    CurrentOfPath(w.m, p);
    FreshIds(w);
    var a0, a1, a2 := LookUp(t, p, IfStale, true), Finish(t, Some(FromSource(built)), cap), Release(e);
    StaleBegin(w, t, p);
    var w1 := Apply(w, a0);
    FreshFinish(w1, t, p, w.m.nextId, built, cap);
    var w2 := Apply(w1, a1);
    InvStep(w2, a2);
    InvTable(Apply(w2, a2));
    AfterTwo(w, a0, a1);
    AfterOne(w2, a2);
    AfterAppend(w, [a0, a1], [a2]);
    assert [a0, a1] + [a2] == [a0, a1, a2];
  }

  lemma NotLoading(w: World, p: ProjectPath)
    requires Inv(w) && p in w.m.projects
    ensures p !in w.m.loading
  {
    hide VictimsKnown;
  }

  lemma FreshIds(w: World)
    requires Inv(w) && Accounted(w)
    ensures forall e :: e >= w.m.nextId ==> e !in w.m.entries && w.held[e] == 0
  {
    hide Singleflight, VictimsKnown;
    forall e | e >= w.m.nextId ensures w.held[e] == 0 {
      FreshUnheld(w, e);
    }
  }
}
