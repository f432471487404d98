/**
  Age, measured by the run itself: a project is as old as the step that last handed its graph to a
  caller.  Eviction by count and by idle time goes by that age.
 */
module ProjectAccess {
  import opened Symbols
  import opened ProjectTable
  import opened ProjectManagers
  import opened ProjectProtocol
  import opened ProjectRuns
  import opened ProjectAccounting

  /** The step hands the graph now loaded at `p` to one more caller. */
  predicate Serves(w: World, w2: World, p: ProjectPath) {
    p in w2.m.projects && w2.held[w2.m.projects[p]] > w.held[w2.m.projects[p]]
  }

  /** The latest of the first `i` steps that served `p`, or -1. */
  function LastServed(ws: seq<World>, i: nat, p: ProjectPath): (r: int)
    requires i < |ws|
    ensures -1 <= r < i
    ensures r >= 0 ==> Serves(ws[r], ws[r + 1], p)
    ensures forall k :: r < k < i ==> !Serves(ws[k], ws[k + 1], p)
  {
    if i == 0 then -1
    else if Serves(ws[i - 1], ws[i], p) then i - 1
    else LastServed(ws, i - 1, p)
  }

  /** `p` stands before `q`. */
  ghost predicate InOrder(s: seq<ProjectPath>, p: ProjectPath, q: ProjectPath) {
    exists a, b :: 0 <= a < b < |s| && s[a] == p && s[b] == q
  }

  lemma ForgetInOrder(s: seq<ProjectPath>, x: ProjectPath, p: ProjectPath, q: ProjectPath)
    requires InOrder(Forget(s, x), p, q)
    ensures InOrder(s, p, q) && p != x && q != x
  {
    hide Forget, Position;
    var r := Forget(s, x);
    var a, b :| 0 <= a < b < |r| && r[a] == p && r[b] == q;
    assert r[a] in r && r[b] in r;
    PositionsIncrease(s, x, a, b);
    ForgetPositions(s, x, a);
    ForgetPositions(s, x, b);
  }

  lemma AccessInOrder(s: seq<ProjectPath>, x: ProjectPath, p: ProjectPath, q: ProjectPath)
    requires InOrder(RecordAccess(s, x), p, q)
    ensures p != x && (q == x || InOrder(s, p, q))
  {
    hide Forget;
    var f := Forget(s, x);
    var a, b :| 0 <= a < b < |f| + 1 && (f + [x])[a] == p && (f + [x])[b] == q;
    assert f[a] in f;
    if b < |f| {
      ForgetInOrder(s, x, p, q);
    }
  }

  lemma {:induction false} RemovedInOrder(m: Manager, victims: seq<Victim>, guard: Guard, p: ProjectPath,
                                          q: ProjectPath)
    requires TableOk(m) && InOrder(Removed(m, victims, guard).0.lru, p, q)
    ensures InOrder(m.lru, p, q)
    decreases victims
  {
    hide TableOk, Evictable, Forget, InOrder;
    if victims != [] {
      var v := victims[0].path;
      if Evictable(m, v, guard) {
        DroppedTable(m, v);
        RemovedInOrder(Dropped(m, v), victims[1..], guard, p, q);
        ForgetInOrder(m.lru, v, p, q);
      } else {
        RemovedInOrder(m, victims[1..], guard, p, q);
      }
    }
  }

  // ------------------------------------------------------------ one step

  /** The list afterwards, for two paths in order: the later one was served, or both kept their order. */
  ghost predicate KeepsOrder(w: World, w2: World, p: ProjectPath, q: ProjectPath) {
    InOrder(w2.m.lru, p, q) ==> !Serves(w, w2, p) && (Serves(w, w2, q) || InOrder(w.m.lru, p, q))
  }

  /** The access time of a loaded path: now if it was served, else as it was. */
  ghost predicate KeepsTime(w: World, w2: World, p: ProjectPath) {
    p in w2.m.projects && w2.m.projects[p] in w2.m.entries ==>
      var time := w2.m.entries[w2.m.projects[p]].lastQuery;
      if Serves(w, w2, p) then time == w.m.now
      else p in w.m.projects && w.m.projects[p] in w.m.entries && time == w.m.entries[w.m.projects[p]].lastQuery
  }

  lemma HitAges(w: World, a: Action, p: ProjectPath, q: ProjectPath)
    requires TableOk(w.m) && Enabled(w, a) && a.LookUp?
    ensures KeepsOrder(w, Apply(w, a), p, q) && KeepsTime(w, Apply(w, a), p)
  {
    hide InOrder, Forget;
    var w2 := Apply(w, a);
    if InOrder(w2.m.lru, p, q) {
      if a.path in w.m.projects && !MustRebuild(a.policy, a.newer) {
        AccessInOrder(w.m.lru, a.path, p, q);
      } else if a.path in w.m.projects {
        ForgetInOrder(w.m.lru, a.path, p, q);
      }
    }
  }

  lemma InstallAges(w: World, a: Action, p: ProjectPath, q: ProjectPath)
    requires TableOk(w.m) && Enabled(w, a) && a.Finish?
    ensures KeepsOrder(w, Apply(w, a), p, q) && KeepsTime(w, Apply(w, a), p)
  {
    hide InOrder, Forget, CapVictims;
    var w2 := Apply(w, a);
    if InOrder(w2.m.lru, p, q) && a.result.Some? {
      AccessInOrder(w.m.lru, PcOf(w, a.t).path, p, q);
    }
  }

  lemma RemovalAges(w: World, a: Action, p: ProjectPath, q: ProjectPath)
    requires TableOk(w.m) && Enabled(w, a) && (a.RemoveNow? || a.Unload?)
    ensures KeepsOrder(w, Apply(w, a), p, q) && KeepsTime(w, Apply(w, a), p)
  {
    hide InOrder, Forget, Removed, Evictable, IsVictim;
    var w2 := Apply(w, a);
    if a.RemoveNow? {
      RemovedEffect(w.m, PcOf(w, a.t).victims, PcOf(w, a.t).guard);
    }
    if InOrder(w2.m.lru, p, q) {
      if a.Unload? {
        ForgetInOrder(w.m.lru, a.path, p, q);
      } else if w2.m.lru != w.m.lru {
        RemovedInOrder(w.m, PcOf(w, a.t).victims, PcOf(w, a.t).guard, p, q);
      }
    }
  }

  /** Steps after which the same entries are loaded, accessed when they were, and held by no more callers. */
  lemma SameAges(w: World, w2: World, p: ProjectPath, q: ProjectPath)
    requires TableOk(w.m) && w2.m.lru == w.m.lru && w2.m.projects == w.m.projects
    requires forall e :: e in w.m.entries ==>
               e in w2.m.entries && w2.m.entries[e].lastQuery == w.m.entries[e].lastQuery
    requires forall e :: w2.held[e] <= w.held[e]
    ensures KeepsOrder(w, w2, p, q) && KeepsTime(w, w2, p)
  {
    hide InOrder, TableOk;
    LoadedHaveEntries(w.m);
  }

  lemma EntriesKept(w: World, a: Action)
    requires TableOk(w.m) && Enabled(w, a)
    requires a.PersistNext? || a.Release? || a.Mutate? || a.MarkDirty? || a.CollectGone?
    ensures Apply(w, a).m.lru == w.m.lru && Apply(w, a).m.projects == w.m.projects
    ensures forall e :: e in w.m.entries ==>
              e in Apply(w, a).m.entries && Apply(w, a).m.entries[e].lastQuery == w.m.entries[e].lastQuery
    ensures forall e :: Apply(w, a).held[e] <= w.held[e]
  {
    hide TableOk;
    LoadedHaveEntries(w.m);
  }

  lemma EntryStepAges(w: World, a: Action, p: ProjectPath, q: ProjectPath)
    requires TableOk(w.m) && Enabled(w, a)
    requires a.PersistNext? || a.Release? || a.Mutate? || a.MarkDirty? || a.CollectGone?
    ensures KeepsOrder(w, Apply(w, a), p, q) && KeepsTime(w, Apply(w, a), p)
  {
    hide TableOk, KeepsOrder, KeepsTime, Apply, Enabled;
    EntriesKept(w, a);
    SameAges(w, Apply(w, a), p, q);
  }

  /** The other steps move a thread or the clock. */
  lemma ThreadStepAges(w: World, a: Action, p: ProjectPath, q: ProjectPath)
    requires TableOk(w.m) && Enabled(w, a)
    requires a.ReadSnapshot? || a.Sweep? || a.ShutDown? || a.NoteLoaded? || a.Choose? || a.StopBudget? || a.Tick?
    ensures KeepsOrder(w, Apply(w, a), p, q) && KeepsTime(w, Apply(w, a), p)
  {
    hide InOrder, Evictable, DistinctPaths, LoadedAs, TableOk;
    LoadedHaveEntries(w.m);
  }

  lemma StepAges(w: World, a: Action, p: ProjectPath, q: ProjectPath)
    requires TableOk(w.m) && Enabled(w, a)
    ensures KeepsOrder(w, Apply(w, a), p, q) && KeepsTime(w, Apply(w, a), p)
  {
    hide *;
    if a.LookUp? {
      HitAges(w, a, p, q);
    } else if a.Finish? {
      InstallAges(w, a, p, q);
    } else if a.RemoveNow? || a.Unload? {
      RemovalAges(w, a, p, q);
    } else if a.PersistNext? || a.Release? || a.Mutate? || a.MarkDirty? || a.CollectGone? {
      EntryStepAges(w, a, p, q);
    } else {
      ThreadStepAges(w, a, p, q);
    }
  }

  // ------------------------------------------------------------ every run

  /** The list is ordered by the step that last served each path. */
  lemma {:induction false} ListedByLastServed(ws: seq<World>, steps: seq<Action>, i: nat, p: ProjectPath,
                                              q: ProjectPath)
    requires IsRun(ws, steps) && i < |ws| && InOrder(ws[i].m.lru, p, q)
    ensures LastServed(ws, i, p) < LastServed(ws, i, q)
  {
    hide Serves, InOrder, Enabled, Apply, TableOk;
    if i == 0 {
      NothingInOrder(p, q);
    } else {
      StepAges(ws[i - 1], steps[i - 1], p, q);
      if InOrder(ws[i - 1].m.lru, p, q) {
        ListedByLastServed(ws, steps, i - 1, p, q);
      }
    }
  }

  lemma NothingInOrder(p: ProjectPath, q: ProjectPath)
    ensures !InOrder(Start.m.lru, p, q)
  {
  }

  /** Every loaded project was served, and its access time is the time of the step that last did. */
  lemma {:induction false} AccessTimeIsLastServed(ws: seq<World>, steps: seq<Action>, i: nat, p: ProjectPath)
    requires IsRun(ws, steps) && i < |ws| && p in ws[i].m.projects
    ensures TableOk(ws[i].m)
    ensures LastServed(ws, i, p) >= 0 && EntryAt(ws[i].m, p).lastQuery == ws[LastServed(ws, i, p)].m.now
  {
    hide Serves, Enabled, Apply, TableOk;
    RunTable(ws, steps, i);
    LoadedHaveEntries(ws[i].m);
    if i > 0 {
      StepAges(ws[i - 1], steps[i - 1], p, p);
      if !Serves(ws[i - 1], ws[i], p) {
        AccessTimeIsLastServed(ws, steps, i - 1, p);
      }
    }
  }

  lemma RunTable(ws: seq<World>, steps: seq<Action>, i: nat)
    requires IsRun(ws, steps) && i < |ws|
    ensures TableOk(ws[i].m)
  {
    hide Safe, TableOk, Inv;
    RunIsSafe(ws, steps, i);
    SafeInv(ws[i]);
    InvTable(ws[i]);
  }

  // ------------------------------------------------------------ what age decides

  lemma Behind(lru: seq<ProjectPath>, p: ProjectPath, q: ProjectPath)
    requires p in lru && q in lru && p != q
    ensures InOrder(lru, p, q) || InOrder(lru, q, p)
  {
    var a :| 0 <= a < |lru| && lru[a] == p;
    var b :| 0 <= b < |lru| && lru[b] == q;
    assert a < b || b < a;
  }

  /** An idle project that stays, other than the new one, stands behind every victim. */
  lemma VictimsStandFirst(m: Manager, loaded: ProjectPath, cap: nat, v: Victim, q: ProjectPath)
    requires TableOk(m) && LruOk(m) && v in CapVictims(m, loaded, cap)
    requires q in m.projects && q != loaded && m.entries[m.projects[q]].active == 0
    requires !IsVictim(CapVictims(m, loaded, cap), q)
    ensures InOrder(m.lru, v.path, q)
  {
    hide TableOk, Oldest, IsVictim, NoDuplicates;
    var over := Excess(m, cap);
    OldestAreIdle(m, m.lru, loaded, over);
    ListedVictim(CapVictims(m, loaded, cap), v);
    if !InOrder(m.lru, v.path, q) {
      Behind(m.lru, v.path, q);
      var a, b :| 0 <= a < b < |m.lru| && m.lru[a] == q && m.lru[b] == v.path;
      OldestSkipsNone(m, m.lru, loaded, over, a, b);
      assert false;
    }
  }

  /**
    The count cap, in every run: it takes no more projects than are loaded beyond the cap, none that is
    busy or just loaded, and each of them was last served before every idle project that stays.  If it
    takes fewer, no other idle project is left.
   */
  lemma CapTakesLeastRecentlyServed(ws: seq<World>, steps: seq<Action>, i: nat, t: ThreadId, built: BuiltGraph,
                                    cap: nat, v: Victim, q: ProjectPath)
    requires IsRun(ws, steps) && i < |steps| && steps[i] == Finish(t, Some(built), cap)
    ensures PcOf(ws[i + 1], t).Evicting?
    ensures var m, victims, loaded := ws[i + 1].m, PcOf(ws[i + 1], t).victims, PcOf(ws[i], t).path;
            && TableOk(m) && |victims| <= (if |m.projects| > cap then |m.projects| - cap else 0)
            && (v in victims ==>
                  v.path in m.projects && v.path != loaded && m.entries[m.projects[v.path]].active == 0)
            && (q in m.projects && q != loaded && m.entries[m.projects[q]].active == 0 && !IsVictim(victims, q) ==>
                  |victims| + cap >= |m.projects| &&
                  (v in victims ==> LastServed(ws, i + 1, v.path) < LastServed(ws, i + 1, q)))
  {
    hide Inv, LruOk, Oldest, Installed, IsVictim, TableOk, Serves, InOrder;
    RunIsSafe(ws, steps, i + 1);
    RunTable(ws, steps, i + 1);
    assert ws[i + 1] == Apply(ws[i], steps[i]);
    var m, loaded := ws[i + 1].m, PcOf(ws[i], t).path;
    LoadedHaveEntries(m);
    OldestAreIdle(m, m.lru, loaded, Excess(m, cap));
    if q in m.projects && q != loaded && m.entries[m.projects[q]].active == 0
       && !IsVictim(CapVictims(m, loaded, cap), q) {
      LruLists(m, q);
      if |CapVictims(m, loaded, cap)| < Excess(m, cap) {
        OldestExhausts(m, m.lru, loaded, Excess(m, cap), q);
      }
      if v in CapVictims(m, loaded, cap) {
        VictimsStandFirst(m, loaded, cap, v, q);
        ListedByLastServed(ws, steps, i + 1, v.path, q);
      }
    }
  }

  lemma LruLists(m: Manager, p: ProjectPath)
    requires TableOk(m) && LruOk(m) && p in m.projects
    ensures p in m.lru
  {
  }

  /** The clock never runs back. */
  lemma {:induction false} ClockGrows(ws: seq<World>, steps: seq<Action>, k: nat, i: nat)
    requires IsRun(ws, steps) && k <= i < |ws|
    ensures ws[k].m.now <= ws[i].m.now
    decreases i
  {
    hide Enabled, Apply, TableOk;
    if k < i {
      ClockGrows(ws, steps, k, i - 1);
      StepClock(ws[i - 1], steps[i - 1]);
    }
  }

  lemma StepClock(w: World, a: Action)
    requires TableOk(w.m) && Enabled(w, a)
    ensures w.m.now <= Apply(w, a).m.now
  {
    hide TableOk, Evictable, DistinctPaths, LoadedAs, Forget, CapVictims, IsVictim, Removed;
    if a.RemoveNow? {
      RemovedEffect(w.m, PcOf(w, a.t).victims, PcOf(w, a.t).guard);
    }
  }

  /** What stands in the table served within `timeout` is not old enough. */
  lemma ServedWithin(ws: seq<World>, steps: seq<Action>, i: nat, p: ProjectPath, timeout: nat, k: nat)
    requires IsRun(ws, steps) && i < |ws| && p in ws[i].m.projects && TableOk(ws[i].m)
    requires ws[i].m.now >= EntryAt(ws[i].m, p).lastQuery + timeout
    requires k < i && Serves(ws[k], ws[k + 1], p)
    ensures ws[k].m.now + timeout <= ws[i].m.now
  {
    hide IsRun, TableOk;
    AccessTimeIsLastServed(ws, steps, i, p);
    ClockGrows(ws, steps, k, LastServed(ws, i, p));
  }

  /** The sweeper, in every run: it picks idle projects that no step has served within the timeout. */
  lemma SweptWereNotServed(ws: seq<World>, steps: seq<Action>, i: nat, t: ThreadId, timeout: nat,
                           victims: seq<Victim>, v: Victim, k: nat)
    requires IsRun(ws, steps) && i < |steps| && steps[i] == Sweep(t, timeout, victims) && v in victims
    ensures v.path in ws[i].m.projects && v.entry == ws[i].m.projects[v.path] && v.entry in ws[i].m.entries
    ensures ws[i].m.entries[v.entry].active == 0
    ensures k < i && Serves(ws[k], ws[k + 1], v.path) ==> ws[k].m.now + timeout <= ws[i].m.now
  {
    hide TableOk, Serves;
    RunTable(ws, steps, i);
    LoadedHaveEntries(ws[i].m);
    assert Enabled(ws[i], steps[i]);
    if k < i && Serves(ws[k], ws[k + 1], v.path) {
      ServedWithin(ws, steps, i, v.path, timeout, k);
    }
  }

  /** And what it removes, later, is still idle and still unserved for as long: a late query revives a victim. */
  lemma RemovedWereNotServed(ws: seq<World>, steps: seq<Action>, i: nat, t: ThreadId, p: ProjectPath, k: nat)
    requires IsRun(ws, steps) && i < |steps| && steps[i] == RemoveNow(t)
    requires p in ws[i].m.projects && p !in ws[i + 1].m.projects
    ensures PcOf(ws[i], t).Evicting? && ws[i].m.projects[p] in ws[i].m.entries
    ensures ws[i].m.entries[ws[i].m.projects[p]].active == 0
    ensures PcOf(ws[i], t).guard.WhenIdleFor? && k < i && Serves(ws[k], ws[k + 1], p) ==>
              ws[k].m.now + PcOf(ws[i], t).guard.timeout <= ws[i].m.now
  {
    hide TableOk, Removed, IsVictim, Serves;
    RunTable(ws, steps, i);
    LoadedHaveEntries(ws[i].m);
    assert Enabled(ws[i], steps[i]) && ws[i + 1] == Apply(ws[i], steps[i]);
    var pc := PcOf(ws[i], t);
    RemovedEffect(ws[i].m, pc.victims, pc.guard);
    if pc.guard.WhenIdleFor? && k < i && Serves(ws[k], ws[k + 1], p) {
      ServedWithin(ws, steps, i, p, pc.guard.timeout, k);
    }
  }
}
