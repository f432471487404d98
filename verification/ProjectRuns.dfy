/** Safety of every run of the project manager: singleflight, LRU order, counting of callers. */
module ProjectRuns {
  import opened Symbols
  import opened ProjectTable
  import opened ProjectManagers
  import opened ProjectProtocol

  /** Any interleaving of critical sections from the empty daemon; the table keeps its shape at every step. */
  ghost predicate IsRun(ws: seq<World>, steps: seq<Action>) {
    && |ws| == |steps| + 1 && ws[0] == Start
    && forall i ::
      0 <= i < |steps| ==> TableOk(ws[i].m) && Enabled(ws[i], steps[i]) && ws[i + 1] == Apply(ws[i], steps[i])
  }

  /** The state after `steps`, if each of them can be taken. */
  ghost function After(w: World, steps: seq<Action>): Option<World>
    decreases |steps|
  {
    if steps == [] then Some(w)
    else if TableOk(w.m) && Enabled(w, steps[0]) then After(Apply(w, steps[0]), steps[1..])
    else None
  }

  lemma {:induction false} AfterAppend(w: World, steps: seq<Action>, more: seq<Action>)
    requires After(w, steps).Some?
    ensures After(w, steps + more) == After(After(w, steps).value, more)
    decreases |steps|
  {
    hide TableOk, Enabled, Apply;
    if steps == [] {
      assert steps + more == more;
    } else {
      assert (steps + more)[1..] == steps[1..] + more;
      AfterAppend(Apply(w, steps[0]), steps[1..], more);
    }
  }

  lemma AfterOne(w: World, a: Action)
    requires TableOk(w.m) && Enabled(w, a)
    ensures After(w, [a]) == Some(Apply(w, a))
  {
    hide TableOk, Enabled, Apply;
    assert [a][1..] == [];
    assert After(Apply(w, a), []) == Some(Apply(w, a));
  }

  lemma AfterTwo(w: World, a: Action, b: Action)
    requires TableOk(w.m) && Enabled(w, a) && TableOk(Apply(w, a).m) && Enabled(Apply(w, a), b)
    ensures After(w, [a, b]) == Some(Apply(Apply(w, a), b))
  {
    hide TableOk, Enabled, Apply, After;
    AfterOne(w, a);
    AfterOne(Apply(w, a), b);
    AfterAppend(w, [a], [b]);
    assert [a] + [b] == [a, b];
  }

  /** No evictor has two victims at one path. */
  ghost predicate DistinctVictims(w: World) {
    forall t :: PcOf(w, t).Evicting? ==> DistinctPaths(PcOf(w, t).victims)
  }

  ghost predicate Safe(w: World) {
    Inv(w) && LruOk(w.m) && DistinctVictims(w)
  }

  // ------------------------------------------------------------ the list stays ordered

  /** Steps that leave the loaded projects and their access times alone. */
  lemma SameTimesLruOk(m: Manager, m2: Manager)
    requires TableOk(m) && LruOk(m) && TableOk(m2)
    requires m2.projects == m.projects && m2.lru == m.lru && m2.now >= m.now
    requires forall e :: e in m.entries ==> e in m2.entries && m2.entries[e].lastQuery == m.entries[e].lastQuery
    ensures LruOk(m2)
  {
    assert forall p :: p in m.projects ==> EntryAt(m2, p).lastQuery == EntryAt(m, p).lastQuery;
  }

  lemma LookupLruOk(m: Manager, p: ProjectPath, policy: RefreshPolicy, newer: bool)
    requires TableOk(m) && LruOk(m)
    ensures TableOk(Lookup(m, p, policy, newer).0) && LruOk(Lookup(m, p, policy, newer).0)
  {
    hide LruOk, Forget;
    var (m2, outcome) := Lookup(m, p, policy, newer);
    LookupEvolves(m, p, policy, newer);
    if outcome.Hit? {
      assert m2.projects.Keys == m.projects.Keys + {p};
      AccessedLruOk(m, p, m2);
    } else if p in m.projects {
      DroppedLruOk(m, p);
      SameTimesLruOk(Dropped(m, p), m2);
    } else {
      SameTimesLruOk(m, m2);
    }
  }

  lemma FinishLruOk(m: Manager, p: ProjectPath, gate: GateId, result: Option<BuiltGraph>)
    requires TableOk(m) && LruOk(m) && gate < m.nextId
    requires result.Some? && result.value.FromSnapshot? ==> result.value.snapshot.version < m.nextVersion
    ensures TableOk(LoadEnded(m, p, gate)) && LruOk(LoadEnded(m, p, gate))
    ensures result.Some? ==>
              TableOk(Installed(LoadEnded(m, p, gate), p, result.value)) &&
                LruOk(Installed(LoadEnded(m, p, gate), p, result.value))
  {
    hide LruOk, Installed;
    LoadEvolves(m, p, gate, result);
    SameTimesLruOk(m, LoadEnded(m, p, gate));
    if result.Some? {
      InstalledOk(m, p, gate, result.value);
    }
  }

  lemma EntryStepLruOk(m: Manager, p: ProjectPath)
    requires TableOk(m) && LruOk(m)
    ensures LruOk(Released(m, p)) && LruOk(MarkedDirty(m, p))
  {
    hide LruOk, Evolves;
    EntryStepEvolves(m, p);
    EntryTables(m, p);
    SameTimesLruOk(m, Released(m, p));
    SameTimesLruOk(m, MarkedDirty(m, p));
  }

  lemma EntryTables(m: Manager, p: ProjectPath)
    requires TableOk(m)
    ensures TableOk(Released(m, p)) && TableOk(MarkedDirty(m, p))
  {
    hide TableOk;
    EntryStepEvolves(m, p);
  }

  lemma ChangedLruOk(m: Manager, e: EntryId)
    requires TableOk(m) && LruOk(m) && e in m.entries
    ensures TableOk(Changed(m, e)) && LruOk(Changed(m, e))
  {
    hide LruOk, TableOk;
    ChangedEvolves(m, e);
    SameTimesLruOk(m, Changed(m, e));
  }

  lemma LruStep(w: World, a: Action)
    requires Inv(w) && LruOk(w.m) && Enabled(w, a)
    ensures TableOk(Apply(w, a).m) && LruOk(Apply(w, a).m)
  {
    hide Inv, TableOk, LruOk, CapVictims, Forget, Evictable, Lookup, LoadEnded, Installed, Removed, Persisted,
         Released, MarkedDirty, Changed, Dropped;
    InvTable(w);
    TableStep(w, a);
    match a {
      case LookUp(t, p, policy, newer) => LookupLruOk(w.m, p, policy, newer);
      case Finish(t, result, cap) =>
        BuilderGate(w, t);
        FinishLruOk(w.m, PcOf(w, t).path, PcOf(w, t).gate, result);
      case PersistNext(t, ok) =>
        PersistedOk(w.m, PcOf(w, t).victims[PcOf(w, t).next], ok);
        SameDecisions(w.m, Persisted(w.m, PcOf(w, t).victims[PcOf(w, t).next], ok));
      case RemoveNow(t) => RemovedLruOk(w.m, PcOf(w, t).victims, PcOf(w, t).guard);
      case Release(e) => EntryStepLruOk(w.m, w.m.entries[e].path);
      case Mutate(e, _) => ChangedLruOk(w.m, e);
      case MarkDirty(e) => EntryStepLruOk(w.m, w.m.entries[e].path);
      case CollectGone(e) => ChangedLruOk(w.m, e);
      case Unload(p) => DroppedLruOk(w.m, p);
      case Tick(elapsed) => SameTimesLruOk(w.m, w.m.(now := w.m.now + elapsed));
      case _ =>
    }
  }

  lemma CapVictimsDistinct(m: Manager, p: ProjectPath, cap: nat)
    requires TableOk(m) && LruOk(m)
    ensures DistinctPaths(CapVictims(m, p, cap))
  {
    hide Oldest;
    LruNoDuplicates(m);
    OldestDistinct(m, m.lru, p, Excess(m, cap));
  }

  lemma FinishPicksDistinct(w: World, u: ThreadId, result: Option<BuiltGraph>, cap: nat, t: ThreadId)
    requires TableOk(w.m) && DistinctVictims(w) && Enabled(w, Finish(u, result, cap))
    requires TableOk(Apply(w, Finish(u, result, cap)).m) && LruOk(Apply(w, Finish(u, result, cap)).m)
    requires PcOf(Apply(w, Finish(u, result, cap)), t).Evicting?
    ensures DistinctPaths(PcOf(Apply(w, Finish(u, result, cap)), t).victims)
  {
    hide TableOk, LruOk, CapVictims, Forget, LoadEnded, Installed, DistinctPaths;
    if t != u {
      assert PcOf(w, t).Evicting?;
    } else if result.Some? {
      CapVictimsDistinct(Apply(w, Finish(u, result, cap)).m, PcOf(w, u).path, cap);
    }
  }

  /** Steps of callers, of the clock and of the collector move no thread. */
  lemma ThreadsStay(w: World, a: Action)
    requires TableOk(w.m) && Enabled(w, a)
    requires a.Release? || a.Mutate? || a.MarkDirty? || a.Unload? || a.Tick? || a.CollectGone?
    ensures Apply(w, a).threads == w.threads
  {
    hide TableOk, Released, MarkedDirty, Changed, Dropped;
  }

  /** A thread that goes on with an eviction keeps its victims; the other moves leave eviction. */
  lemma EvictorsKeep(w: World, a: Action, t: ThreadId)
    requires TableOk(w.m) && Enabled(w, a) && PcOf(Apply(w, a), t).Evicting?
    requires a.LookUp? || a.ReadSnapshot? || a.NoteLoaded? || a.StopBudget? || a.PersistNext? || a.RemoveNow?
    ensures PcOf(w, t).Evicting? && PcOf(Apply(w, a), t).victims == PcOf(w, t).victims
  {
    hide TableOk, Lookup, Persisted, Removed, MustRebuild, LoadedAs;
  }

  /** Victims are picked from a map or from the list, once each, and never added to. */
  lemma VictimsStayDistinct(w: World, a: Action, t: ThreadId)
    requires TableOk(w.m) && DistinctVictims(w) && Enabled(w, a) && PcOf(Apply(w, a), t).Evicting?
    requires TableOk(Apply(w, a).m) && LruOk(Apply(w, a).m)
    ensures DistinctPaths(PcOf(Apply(w, a), t).victims)
  {
    hide DistinctPaths;
    if a.Finish? {
      FinishPicksDistinct(w, a.t, a.result, a.cap, t);
    } else if a.Sweep? || a.ShutDown? || a.Choose? {
      hide TableOk, LruOk, Evictable, LoadedAs;
      assert PcOf(w, t).Evicting? ==> DistinctPaths(PcOf(w, t).victims);
      if a.Choose? {
        OneVictimDistinct(a.victim);
      }
    } else {
      hide Apply, Enabled, TableOk, LruOk;
      if a.Release? || a.Mutate? || a.MarkDirty? || a.Unload? || a.Tick? || a.CollectGone? {
        ThreadsStay(w, a);
      } else {
        EvictorsKeep(w, a, t);
      }
      assert PcOf(w, t).Evicting?;
    }
  }

  lemma OneVictimDistinct(v: Victim)
    ensures DistinctPaths([v])
  {
  }

  lemma SafeStep(w: World, a: Action)
    requires Safe(w) && Enabled(w, a)
    ensures Safe(Apply(w, a))
  {
    hide Inv, TableOk, LruOk, Apply, Enabled, DistinctPaths;
    InvTable(w);
    InvStep(w, a);
    LruStep(w, a);
    forall t | PcOf(Apply(w, a), t).Evicting? ensures DistinctPaths(PcOf(Apply(w, a), t).victims) {
      VictimsStayDistinct(w, a, t);
    }
  }

  /** Every state of every run is safe. */
  lemma {:induction false} RunIsSafe(ws: seq<World>, steps: seq<Action>, i: nat)
    requires IsRun(ws, steps) && i < |ws|
    ensures Safe(ws[i])
  {
    hide Safe, Enabled, Apply;
    if i == 0 {
      StartIsSafe();
    } else {
      RunIsSafe(ws, steps, i - 1);
      SafeStep(ws[i - 1], steps[i - 1]);
    }
  }

  lemma StartIsSafe()
    ensures Safe(Start)
  {
  }

  // ------------------------------------------------------------ singleflight, read off the invariant

  /**
    In every reachable state: a path is loading iff some thread builds it, never two threads; it is
    then not loaded; and whoever waits has an open gate or waits for a thread that is building.
   */
  lemma SingleflightHolds(ws: seq<World>, steps: seq<Action>, i: nat, p: ProjectPath, t: ThreadId, u: ThreadId)
    requires IsRun(ws, steps) && i < |ws|
    ensures p in ws[i].m.loading <==> exists b :: BuildsPath(ws[i], b, p)
    ensures BuildsPath(ws[i], t, p) && BuildsPath(ws[i], u, p) ==> t == u
    ensures !(p in ws[i].m.loading && p in ws[i].m.projects)
    ensures PcOf(ws[i], t).Waiting? ==>
              PcOf(ws[i], t).gate in ws[i].m.doneGates || exists b :: BuildsPath(ws[i], b, PcOf(ws[i], t).path)
  {
    RunIsSafe(ws, steps, i);
  }

  /** A build that ends never replaces a loaded graph: it adds its own fresh entry, or nothing. */
  lemma FinishNeverOverwrites(ws: seq<World>, steps: seq<Action>, i: nat, t: ThreadId, result: Option<BuiltGraph>,
                              cap: nat)
    requires IsRun(ws, steps) && i < |steps| && steps[i] == Finish(t, result, cap)
    ensures var p := PcOf(ws[i], t).path;
            && p !in ws[i].m.projects
            && (result.None? ==> ws[i + 1].m.projects == ws[i].m.projects)
            && (result.Some? ==>
                ws[i + 1].m.projects == ws[i].m.projects[p := ws[i].m.nextId] && ws[i].m.nextId !in ws[i].m.entries)
  {
    hide Singleflight, VictimsKnown, LruOk, CapVictims, Forget;
    RunIsSafe(ws, steps, i);
    BuilderNotLoaded(ws[i], t);
    assert ws[i + 1] == Apply(ws[i], steps[i]);
  }

  lemma BuilderNotLoaded(w: World, t: ThreadId)
    requires Singleflight(w) && PcOf(w, t).Building?
    ensures PcOf(w, t).path !in w.m.projects
  {
  }

  /** The count cap in any run: victims are idle, not the graph just loaded, and nobody idle is older. */
  lemma RunEvictsOldest(ws: seq<World>, steps: seq<Action>, i: nat, t: ThreadId, built: BuiltGraph, cap: nat,
                        v: Victim, q: ProjectPath)
    requires IsRun(ws, steps) && i < |steps| && steps[i] == Finish(t, Some(built), cap)
    requires PcOf(ws[i + 1], t).Evicting? && v in PcOf(ws[i + 1], t).victims
    ensures TableOk(ws[i + 1].m) && Idle(ws[i + 1].m, v.path) && v.path != PcOf(ws[i], t).path
    ensures var m := ws[i + 1].m;
            q in m.projects && q != PcOf(ws[i], t).path && Idle(m, q) &&
            EntryAt(m, q).lastQuery < EntryAt(m, v.path).lastQuery ==>
              IsVictim(PcOf(ws[i + 1], t).victims, q)
  {
    hide Inv, LruOk, CapVictims, Installed, IsVictim, TableOk, Idle;
    RunIsSafe(ws, steps, i + 1);
    InvTable(ws[i + 1]);
    assert ws[i + 1] == Apply(ws[i], steps[i]);
    CapEvictsOldest(ws[i + 1].m, PcOf(ws[i], t).path, cap, v, q);
  }
}
