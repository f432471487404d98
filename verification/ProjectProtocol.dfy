/**
  The project manager as a concurrent protocol: threads step through the critical sections of the
  table in any order, callers hold, mutate and release graphs in between.
 */
module ProjectProtocol {
  import opened Symbols
  import opened ProjectTable
  import opened ProjectManagers

  type ThreadId = nat

  /** What an evictor does after its removal section; a shutdown persists and removes nothing. */
  datatype Continuation = BackToBudget | Done | KeepAll

  datatype Pc =
    | Ready
    | Waiting(path: ProjectPath, policy: RefreshPolicy, gate: GateId)
    | Building(path: ProjectPath, gate: GateId, read: Option<Snapshot>)
    | Evicting(victims: seq<Victim>, next: nat, guard: Guard, then_: Continuation, stamp: nat)
    | Budgeting
    | Scanning(noted: seq<Victim>, stamp: nat)

  /**
    `held` counts the unreleased successful loads of each entry, `mutating` how many of those
    callers changed the graph and have not marked it dirty yet.
   */
  datatype World = World(m: Manager, threads: map<ThreadId, Pc>, held: multiset<EntryId>, mutating: multiset<EntryId>)

  const Start := World(Initial, map[], multiset{}, multiset{})

  function PcOf(w: World, t: ThreadId): Pc {
    if t in w.threads then w.threads[t] else Ready
  }

  function At(w: World, t: ThreadId, pc: Pc): World {
    w.(threads := w.threads[t := pc])
  }

  datatype Action =
    | LookUp(t: ThreadId, path: ProjectPath, policy: RefreshPolicy, newer: bool)
    | ReadSnapshot(t: ThreadId)
    | Finish(t: ThreadId, result: Option<BuiltGraph>, cap: nat)
    | Sweep(t: ThreadId, timeout: nat, victims: seq<Victim>)
    | ShutDown(t: ThreadId, victims: seq<Victim>)
    | NoteLoaded(t: ThreadId, noted: seq<Victim>)
    | Choose(t: ThreadId, victim: Victim)
    | StopBudget(t: ThreadId)
    | PersistNext(t: ThreadId, ok: bool)
    | RemoveNow(t: ThreadId)
    | Release(entry: EntryId)
    | Mutate(entry: EntryId, first: bool)
    | MarkDirty(entry: EntryId)
    | Unload(path: ProjectPath)
    | Tick(elapsed: nat)
    | CollectGone(entry: EntryId)

  predicate LoadedAs(m: Manager, v: Victim) {
    v.path in m.projects && m.projects[v.path] == v.entry
  }

  /**
    When a critical section can run.  A hit finds room for one more caller: each unreleased load is
    somebody's, and there are never 2^64 of them for one graph.
   */
  predicate Enabled(w: World, a: Action)
    requires TableOk(w.m)
  {
    match a
    case LookUp(t, p, policy, newer) =>
      var pc := PcOf(w, t);
      && (pc.Ready? || (pc.Waiting? && pc.path == p && pc.policy == policy && pc.gate in w.m.doneGates))
      && (p in w.m.projects && !MustRebuild(policy, newer) ==> w.held[w.m.projects[p]] < USIZE_MAX)
    case ReadSnapshot(t) => PcOf(w, t).Building? && PcOf(w, t).path in w.m.snapshots
    case Finish(t, result, _) =>
      var pc := PcOf(w, t);
      pc.Building? && (result.Some? && result.value.FromSnapshot? ==> pc.read == Some(result.value.snapshot))
    case Sweep(t, timeout, victims) =>
      && PcOf(w, t).Ready? && DistinctPaths(victims)
      && forall v :: v in victims ==> LoadedAs(w.m, v) && Evictable(w.m, v.path, WhenIdleFor(timeout))
    case ShutDown(t, victims) =>
      PcOf(w, t).Ready? && DistinctPaths(victims) && forall v :: v in victims ==> LoadedAs(w.m, v)
    case NoteLoaded(t, noted) => PcOf(w, t).Budgeting? && forall v :: v in noted ==> LoadedAs(w.m, v)
    case Choose(t, v) =>
      var pc := PcOf(w, t);
      pc.Scanning? && v in pc.noted && v.entry in w.m.entries && w.m.entries[v.entry].active == 0
    case StopBudget(t) => PcOf(w, t).Budgeting? || PcOf(w, t).Scanning?
    case PersistNext(t, _) =>
      var pc := PcOf(w, t);
      pc.Evicting? && pc.next < |pc.victims| && pc.victims[pc.next].entry in w.m.entries
    case RemoveNow(t) => var pc := PcOf(w, t); pc.Evicting? && pc.next == |pc.victims|
    case Release(e) => e in w.m.entries && w.held[e] > w.mutating[e]
    case Mutate(e, first) => e in w.m.entries && if first then w.mutating[e] < w.held[e] else w.mutating[e] > 0
    case MarkDirty(e) => e in w.m.entries && w.mutating[e] > 0
    case Unload(_) => true
    case Tick(_) => true
    case CollectGone(e) => e in w.m.entries
  }

  /** The graph of `e` becomes a new version. */
  function Changed(m: Manager, e: EntryId): Manager
    requires e in m.entries
  {
    m.(entries := m.entries[e := m.entries[e].(version := m.nextVersion)], nextVersion := m.nextVersion + 1)
  }

  function Apply(w: World, a: Action): World
    requires TableOk(w.m) && Enabled(w, a)
  {
    match a
    case LookUp(t, p, policy, newer) =>
      var (m, outcome) := Lookup(w.m, p, policy, newer);
      (match outcome
       case Hit(e) => At(w, t, Ready).(m := m, held := w.held + multiset{e})
       case Wait(gate) => At(w, t, Waiting(p, policy, gate)).(m := m)
       case Load(gate) => At(w, t, Building(p, gate, None)).(m := m))
    case ReadSnapshot(t) =>
      var pc := PcOf(w, t);
      At(w, t, pc.(read := Some(w.m.snapshots[pc.path])))
    case Finish(t, result, cap) =>
      var pc := PcOf(w, t);
      var ended := LoadEnded(w.m, pc.path, pc.gate);
      if result.None? then At(w, t, Ready).(m := ended)
      else AfterInstall(w, t, pc.path, Installed(ended, pc.path, result.value), cap)
    case Sweep(t, timeout, victims) => At(w, t, Evicting(victims, 0, WhenIdleFor(timeout), Done, w.m.nextVersion))
    case ShutDown(t, victims) => At(w, t, Evicting(victims, 0, WhenIdle, KeepAll, w.m.nextVersion))
    case NoteLoaded(t, noted) => At(w, t, Scanning(noted, w.m.nextVersion))
    case Choose(t, v) => At(w, t, Evicting([v], 0, WhenIdle, BackToBudget, PcOf(w, t).stamp))
    case StopBudget(t) => At(w, t, Ready)
    case PersistNext(t, ok) =>
      var pc := PcOf(w, t);
      At(w, t, pc.(next := pc.next + 1)).(m := Persisted(w.m, pc.victims[pc.next], ok))
    case RemoveNow(t) =>
      var pc := PcOf(w, t);
      if pc.then_.KeepAll? then At(w, t, Ready)
      else At(w, t, if pc.then_.BackToBudget? then Budgeting else Ready).(m := Removed(w.m, pc.victims, pc.guard).0)
    case Release(e) => w.(m := Released(w.m, w.m.entries[e].path), held := w.held - multiset{e})
    case Mutate(e, first) =>
      w.(m := Changed(w.m, e), mutating := if first then w.mutating + multiset{e} else w.mutating)
    case MarkDirty(e) => w.(m := MarkedDirty(w.m, w.m.entries[e].path), mutating := w.mutating - multiset{e})
    case Unload(p) => w.(m := Dropped(w.m, p))
    case Tick(elapsed) => w.(m := w.m.(now := w.m.now + elapsed))
    case CollectGone(e) => w.(m := Changed(w.m, e))
  }

  /** The loader keeps its graph and goes on to evict the count cap's victims. */
  function AfterInstall(w: World, t: ThreadId, p: ProjectPath, m: Manager, cap: nat): World {
    var victims := if TableOk(m) then CapVictims(m, p, cap) else [];
    At(w, t, Evicting(victims, 0, WhenIdle, BackToBudget, m.nextVersion))
    .(m := m, held := w.held + multiset{w.m.nextId})
  }

  // ------------------------------------------------------------ singleflight

  ghost predicate BuildsPath(w: World, t: ThreadId, p: ProjectPath) {
    PcOf(w, t).Building? && PcOf(w, t).path == p
  }

  /** Every critical section keeps this: one builder per loading path, no path both loaded and loading. */
  ghost predicate Singleflight(w: World) {
    && (forall t ::
        PcOf(w, t).Building? ==> PcOf(w, t).path in w.m.loading && w.m.loading[PcOf(w, t).path] == PcOf(w, t).gate)
    && (forall p :: p in w.m.loading ==> exists t :: BuildsPath(w, t, p))
    && (forall t, u, p :: BuildsPath(w, t, p) && BuildsPath(w, u, p) ==> t == u)
    && (forall p :: p in w.m.loading ==> p !in w.m.projects)
    && (forall p :: p in w.m.loading ==> w.m.loading[p] !in w.m.doneGates)
    && (forall p, q :: p in w.m.loading && q in w.m.loading && p != q ==> w.m.loading[p] != w.m.loading[q])
    && (forall t :: PcOf(w, t).Waiting? ==>
          PcOf(w, t).gate in w.m.doneGates
          || (PcOf(w, t).path in w.m.loading && w.m.loading[PcOf(w, t).path] == PcOf(w, t).gate))
  }

  predicate KnownVictim(m: Manager, v: Victim) {
    v.entry in m.entries && m.entries[v.entry].path == v.path
  }

  /** What a thread remembers was handed out before: victims are entries, stamps and snapshots are past versions. */
  ghost predicate PcKnown(m: Manager, pc: Pc) {
    match pc
    case Building(_, _, read) => read.Some? ==> read.value.version < m.nextVersion
    case Evicting(victims, next, _, _, stamp) =>
      next <= |victims| && stamp <= m.nextVersion && forall v :: v in victims ==> KnownVictim(m, v)
    case Scanning(noted, stamp) => stamp <= m.nextVersion && forall v :: v in noted ==> KnownVictim(m, v)
    case _ => true
  }

  ghost predicate VictimsKnown(w: World) {
    forall t :: PcKnown(w.m, PcOf(w, t))
  }

  ghost predicate Inv(w: World) {
    TableOk(w.m) && Singleflight(w) && VictimsKnown(w)
  }

  // ------------------------------------------------------------ the table keeps its shape

  /** Entries stay in the arena under their path; ids and versions only grow. */
  ghost predicate Evolves(m: Manager, m2: Manager) {
    && TableOk(m2)
    && (forall e :: e in m.entries ==> e in m2.entries && m2.entries[e].path == m.entries[e].path)
    && m2.nextVersion >= m.nextVersion && m2.nextId >= m.nextId
  }

  lemma LookupEvolves(m: Manager, p: ProjectPath, policy: RefreshPolicy, newer: bool)
    requires TableOk(m)
    ensures Evolves(m, Lookup(m, p, policy, newer).0)
    ensures Lookup(m, p, policy, newer).1.Load? ==> Lookup(m, p, policy, newer).1.gate == m.nextId
    ensures Lookup(m, p, policy, newer).1.Hit? ==> Lookup(m, p, policy, newer).1.entry in m.entries
  {
    hide Forget;
  }

  lemma DroppedEvolves(m: Manager, p: ProjectPath)
    requires TableOk(m)
    ensures Evolves(m, Dropped(m, p))
  {
    hide Forget;
  }

  lemma LoadEvolves(m: Manager, p: ProjectPath, gate: GateId, result: Option<BuiltGraph>)
    requires TableOk(m) && gate < m.nextId
    requires result.Some? && result.value.FromSnapshot? ==> result.value.snapshot.version < m.nextVersion
    ensures Evolves(m, LoadEnded(m, p, gate))
    ensures result.Some? ==> Evolves(m, Installed(LoadEnded(m, p, gate), p, result.value))
  {
    hide Forget;
  }

  lemma PersistedEvolves(m: Manager, v: Victim, ok: bool)
    requires TableOk(m) && v.entry in m.entries
    ensures Evolves(m, Persisted(m, v, ok))
  {
  }

  lemma RemovedEvolves(m: Manager, victims: seq<Victim>, guard: Guard)
    requires TableOk(m)
    ensures Evolves(m, Removed(m, victims, guard).0)
  {
    hide Removed, Evictable;
    RemovedEffect(m, victims, guard);
  }

  lemma EntryStepEvolves(m: Manager, p: ProjectPath)
    requires TableOk(m)
    ensures Evolves(m, Released(m, p)) && Evolves(m, MarkedDirty(m, p))
  {
  }

  lemma ChangedEvolves(m: Manager, e: EntryId)
    requires TableOk(m) && e in m.entries
    ensures Evolves(m, Changed(m, e))
  {
  }

  lemma TickEvolves(m: Manager, elapsed: nat)
    requires TableOk(m)
    ensures Evolves(m, m) && Evolves(m, m.(now := m.now + elapsed))
  {
  }

  lemma BuilderGate(w: World, t: ThreadId)
    requires Inv(w) && PcOf(w, t).Building?
    ensures PcOf(w, t).gate < w.m.nextId
    ensures PcOf(w, t).read.Some? ==> PcOf(w, t).read.value.version < w.m.nextVersion
  {
  }

  lemma TableStep(w: World, a: Action)
    requires Inv(w) && Enabled(w, a)
    ensures Evolves(w.m, Apply(w, a).m)
  {
    hide Inv, TableOk, Singleflight, VictimsKnown, Evolves, CapVictims, Forget, Evictable, Lookup, LoadEnded,
         Installed, Removed, Persisted, Released, MarkedDirty, Changed, Dropped;
    InvTable(w);
    TickEvolves(w.m, 0);
    match a {
      case LookUp(t, p, policy, newer) => LookupEvolves(w.m, p, policy, newer);
      case Finish(t, result, cap) =>
        BuilderGate(w, t);
        LoadEvolves(w.m, PcOf(w, t).path, PcOf(w, t).gate, result);
      case PersistNext(t, ok) => PersistedEvolves(w.m, PcOf(w, t).victims[PcOf(w, t).next], ok);
      case RemoveNow(t) => RemovedEvolves(w.m, PcOf(w, t).victims, PcOf(w, t).guard);
      case Release(e) => EntryStepEvolves(w.m, w.m.entries[e].path);
      case Mutate(e, _) => ChangedEvolves(w.m, e);
      case MarkDirty(e) => EntryStepEvolves(w.m, w.m.entries[e].path);
      case CollectGone(e) => ChangedEvolves(w.m, e);
      case Unload(p) => DroppedEvolves(w.m, p);
      case Tick(elapsed) => TickEvolves(w.m, elapsed);
      case _ =>
    }
  }

  lemma InvTable(w: World)
    requires Inv(w)
    ensures TableOk(w.m)
  {
  }

  lemma InvFlight(w: World)
    requires Inv(w)
    ensures Singleflight(w)
  {
  }

  // ------------------------------------------------------------ singleflight is kept

  predicate SameFlight(pc: Pc, pc2: Pc) {
    && (pc.Building? <==> pc2.Building?) && (pc.Building? ==> pc2.path == pc.path && pc2.gate == pc.gate)
    && (pc.Waiting? <==> pc2.Waiting?) && (pc.Waiting? ==> pc2 == pc)
  }

  /** Steps that start or end no load. */
  lemma FlightFrame(w: World, w2: World)
    requires Singleflight(w)
    requires w2.m.loading == w.m.loading && w2.m.doneGates == w.m.doneGates && w2.m.projects.Keys <= w.m.projects.Keys
    requires forall t :: SameFlight(PcOf(w, t), PcOf(w2, t))
    ensures Singleflight(w2)
  {
    assert forall t, p :: BuildsPath(w2, t, p) <==> BuildsPath(w, t, p);
  }

  /** One thread moves to a program counter outside any load. */
  lemma ThreadFrame(w: World, t: ThreadId, pc: Pc, m: Manager)
    requires Singleflight(w) && SameFlight(PcOf(w, t), pc)
    requires m.loading == w.m.loading && m.doneGates == w.m.doneGates && m.projects.Keys <= w.m.projects.Keys
    ensures Singleflight(At(w, t, pc).(m := m))
  {
    hide Singleflight;
    FlightFrame(w, At(w, t, pc).(m := m));
  }

  lemma FlightOnly(w: World, w2: World)
    requires Singleflight(w) && w2.threads == w.threads
    requires w2.m.loading == w.m.loading && w2.m.doneGates == w.m.doneGates && w2.m.projects.Keys <= w.m.projects.Keys
    ensures Singleflight(w2)
  {
    hide Singleflight;
    assert forall t :: PcOf(w2, t) == PcOf(w, t);
    FlightFrame(w, w2);
  }

  lemma FlightIgnoresCallers(w: World, held: multiset<EntryId>, mutating: multiset<EntryId>)
    requires Singleflight(w)
    ensures Singleflight(w.(held := held, mutating := mutating))
  {
    hide Singleflight;
    FlightOnly(w, w.(held := held, mutating := mutating));
  }

  /** A thread that was not building joins the queue of a load in progress. */
  lemma FlightWait(w: World, t: ThreadId, p: ProjectPath, policy: RefreshPolicy, m: Manager)
    requires Singleflight(w) && !PcOf(w, t).Building? && p in m.loading
    requires m.loading == w.m.loading && m.doneGates == w.m.doneGates && m.projects.Keys <= w.m.projects.Keys
    ensures Singleflight(At(w, t, Waiting(p, policy, m.loading[p])).(m := m))
  {
    var w2 := At(w, t, Waiting(p, policy, m.loading[p])).(m := m);
    assert forall u :: u != t ==> PcOf(w2, u) == PcOf(w, u);
    assert forall u, q :: BuildsPath(w2, u, q) <==> BuildsPath(w, u, q);
  }

  lemma BuildersAfterBegin(w: World, t: ThreadId, p: ProjectPath, m: Manager)
    requires !PcOf(w, t).Building?
    ensures var w2 := At(w, t, Building(p, w.m.nextId, None)).(m := m);
            && PcOf(w2, t) == Building(p, w.m.nextId, None) && (forall u :: u != t ==> PcOf(w2, u) == PcOf(w, u))
            && forall u, q :: BuildsPath(w2, u, q) <==> (if u == t then q == p else BuildsPath(w, u, q))
  {
  }

  /** A thread that was not building starts the load of a path that is neither loaded nor loading. */
  lemma FlightBegin(w: World, t: ThreadId, p: ProjectPath, m: Manager)
    requires Singleflight(w) && TableOk(w.m) && !PcOf(w, t).Building? && p !in w.m.loading
    requires m.loading == w.m.loading[p := w.m.nextId] && m.doneGates == w.m.doneGates
    requires m.projects.Keys <= w.m.projects.Keys - {p}
    ensures Singleflight(At(w, t, Building(p, w.m.nextId, None)).(m := m))
  {
    hide At;
    var w2 := At(w, t, Building(p, w.m.nextId, None)).(m := m);
    BuildersAfterBegin(w, t, p, m);
    assert w.m.nextId !in w.m.doneGates && w2.m == m;
    assert forall q :: q in w.m.loading ==> w.m.loading[q] != w.m.nextId;
    assert forall u, q :: BuildsPath(w, u, q) ==> q in w.m.loading;
    hide TableOk, BuildsPath;
    forall q | q in m.loading ensures exists u :: BuildsPath(w2, u, q) {
      if q == p {
        assert BuildsPath(w2, t, p);
      } else {
        var u :| BuildsPath(w, u, q);
        assert BuildsPath(w2, u, q);
      }
    }
  }

  /** The builder opens its gate; it may put its own path, and no other, among the loaded projects. */
  lemma FlightEnd(w: World, t: ThreadId, pc: Pc, m: Manager)
    requires Singleflight(w) && PcOf(w, t).Building? && !pc.Building? && !pc.Waiting?
    requires m.loading == w.m.loading - {PcOf(w, t).path} && m.doneGates == w.m.doneGates + {PcOf(w, t).gate}
    requires m.projects.Keys <= w.m.projects.Keys + {PcOf(w, t).path}
    ensures PcOf(w, t).path !in w.m.projects
    ensures Singleflight(At(w, t, pc).(m := m))
  {
    var p, gate := PcOf(w, t).path, PcOf(w, t).gate;
    var w2 := At(w, t, pc).(m := m);
    assert BuildsPath(w, t, p);
    assert forall u :: u != t ==> PcOf(w2, u) == PcOf(w, u);
    assert forall u, q :: BuildsPath(w2, u, q) <==> u != t && BuildsPath(w, u, q);
    forall q | q in m.loading ensures exists u :: BuildsPath(w2, u, q) {
      var u :| BuildsPath(w, u, q);
      assert BuildsPath(w2, u, q);
    }
    assert forall u :: PcOf(w2, u).Building? ==> BuildsPath(w2, u, PcOf(w2, u).path);
  }

  /** A thread that is not building leaves the queue. */
  lemma FlightLeave(w: World, t: ThreadId, pc: Pc, m: Manager)
    requires Singleflight(w) && !PcOf(w, t).Building? && !pc.Building? && !pc.Waiting?
    requires m.loading == w.m.loading && m.doneGates == w.m.doneGates && m.projects.Keys <= w.m.projects.Keys
    ensures Singleflight(At(w, t, pc).(m := m))
  {
    var w2 := At(w, t, pc).(m := m);
    assert forall u :: u != t ==> PcOf(w2, u) == PcOf(w, u);
    assert forall u, q :: BuildsPath(w2, u, q) <==> BuildsPath(w, u, q);
  }

  lemma LookupFlight(m: Manager, p: ProjectPath, policy: RefreshPolicy, newer: bool)
    requires TableOk(m)
    ensures var (m2, outcome) := Lookup(m, p, policy, newer);
            && m2.doneGates == m.doneGates && m2.projects.Keys <= m.projects.Keys
            && (!outcome.Load? ==> m2.loading == m.loading)
            && (outcome.Wait? ==> p in m.loading && outcome.gate == m.loading[p])
            && (outcome.Load? ==> p !in m.loading && p !in m2.projects)
            && (outcome.Load? ==> m2.loading == m.loading[p := m.nextId] && outcome.gate == m.nextId)
  {
    hide Forget;
  }

  lemma InstalledKeys(m: Manager, p: ProjectPath, built: BuiltGraph)
    ensures Installed(m, p, built).loading == m.loading && Installed(m, p, built).doneGates == m.doneGates
    ensures Installed(m, p, built).projects.Keys == m.projects.Keys + {p}
  {
    hide Forget;
  }

  /** Callers, `unload`, the clock and the Gone collector leave every load alone. */
  lemma FlightOther(w: World, a: Action)
    requires Inv(w) && Enabled(w, a)
    requires a.Release? || a.Mutate? || a.MarkDirty? || a.Unload? || a.Tick? || a.CollectGone?
    ensures Singleflight(Apply(w, a))
  {
    hide Inv, TableOk, Singleflight, Forget;
    InvTable(w);
    InvFlight(w);
    FlightOnly(w, Apply(w, a));
  }

  lemma FlightStep(w: World, a: Action)
    requires Inv(w) && Enabled(w, a)
    ensures Singleflight(Apply(w, a))
  {
    hide TableOk, Singleflight, VictimsKnown, CapVictims, Forget, Evictable, Lookup, Removed, Installed;
    var m := w.m;
    match a {
      case LookUp(t, p, policy, newer) =>
        LookupFlight(m, p, policy, newer);
        var (m2, outcome) := Lookup(m, p, policy, newer);
        match outcome {
          case Hit(e) =>
            var w1 := At(w, t, Ready).(m := m2);
            FlightLeave(w, t, Ready, m2);
            FlightIgnoresCallers(w1, w.held + multiset{e}, w.mutating);
          case Wait(gate) => FlightWait(w, t, p, policy, m2);
          case Load(gate) => FlightBegin(w, t, p, m2);
        }
      case Finish(t, result, cap) =>
        var pc := PcOf(w, t);
        var ended := LoadEnded(m, pc.path, pc.gate);
        if result.None? {
          FlightEnd(w, t, Ready, ended);
        } else {
          var m2 := Installed(ended, pc.path, result.value);
          var chosen := if TableOk(m2) then CapVictims(m2, pc.path, cap) else [];
          var pc2 := Evicting(chosen, 0, WhenIdle, BackToBudget, m2.nextVersion);
          InstalledKeys(ended, pc.path, result.value);
          FlightEnd(w, t, pc2, m2);
          FlightIgnoresCallers(At(w, t, pc2).(m := m2), w.held + multiset{m.nextId}, w.mutating);
        }
      case ReadSnapshot(t) => ThreadFrame(w, t, PcOf(w, t).(read := Some(m.snapshots[PcOf(w, t).path])), m);
      case Sweep(t, timeout, victims) =>
        ThreadFrame(w, t, Evicting(victims, 0, WhenIdleFor(timeout), Done, m.nextVersion), m);
      case ShutDown(t, victims) => ThreadFrame(w, t, Evicting(victims, 0, WhenIdle, KeepAll, m.nextVersion), m);
      case NoteLoaded(t, noted) => ThreadFrame(w, t, Scanning(noted, m.nextVersion), m);
      case Choose(t, v) => ThreadFrame(w, t, Evicting([v], 0, WhenIdle, BackToBudget, PcOf(w, t).stamp), m);
      case StopBudget(t) => ThreadFrame(w, t, Ready, m);
      case PersistNext(t, ok) =>
        var pc := PcOf(w, t);
        ThreadFrame(w, t, pc.(next := pc.next + 1), Persisted(m, pc.victims[pc.next], ok));
      case RemoveNow(t) =>
        var pc := PcOf(w, t);
        RemovedEffect(m, pc.victims, pc.guard);
        var m2 := Removed(m, pc.victims, pc.guard).0;
        if pc.then_.KeepAll? {
          ThreadFrame(w, t, Ready, m);
        } else {
          ThreadFrame(w, t, if pc.then_.BackToBudget? then Budgeting else Ready, m2);
        }
      case _ => FlightOther(w, a);
    }
  }

  // ------------------------------------------------------------ what threads remember stays known

  lemma KnownKept(m: Manager, m2: Manager, pc: Pc)
    requires Evolves(m, m2) && PcKnown(m, pc)
    ensures PcKnown(m2, pc)
  {
  }

  lemma KnownPc(w: World, t: ThreadId)
    requires Inv(w)
    ensures PcKnown(w.m, PcOf(w, t))
  {
  }

  lemma LoadedKnown(m: Manager, victims: seq<Victim>)
    requires TableOk(m) && forall v :: v in victims ==> LoadedAs(m, v)
    ensures forall v :: v in victims ==> KnownVictim(m, v)
  {
  }

  lemma InstalledVictimsKnown(m: Manager, p: ProjectPath, cap: nat)
    requires TableOk(m)
    ensures PcKnown(m, Evicting(CapVictims(m, p, cap), 0, WhenIdle, BackToBudget, m.nextVersion))
  {
    OldestAreIdle(m, m.lru, p, Excess(m, cap));
  }

  /** The builder's victims are loaded graphs. */
  lemma FinishKnown(w: World, t: ThreadId, result: Option<BuiltGraph>, cap: nat)
    requires TableOk(w.m) && Enabled(w, Finish(t, result, cap))
    requires TableOk(Apply(w, Finish(t, result, cap)).m)
    ensures PcKnown(Apply(w, Finish(t, result, cap)).m, PcOf(Apply(w, Finish(t, result, cap)), t))
  {
    hide CapVictims, Forget, Evictable, Lookup, Installed, LoadEnded, Removed, Persisted, TableOk, KnownVictim;
    InstalledVictimsKnown(Apply(w, Finish(t, result, cap)).m, PcOf(w, t).path, cap);
  }

  /** A thread about to evict, and one that wrote a victim or read a snapshot, remembers known things. */
  lemma EvictorKnown(w: World, a: Action, t: ThreadId)
    requires TableOk(w.m) && PcKnown(w.m, PcOf(w, t)) && Enabled(w, a) && Evolves(w.m, Apply(w, a).m)
    requires a.ReadSnapshot? || a.Sweep? || a.ShutDown? || a.NoteLoaded? || a.Choose? || a.PersistNext?
    ensures a.t == t ==> PcKnown(Apply(w, a).m, PcOf(Apply(w, a), t))
  {
    hide Persisted, TableOk, KnownVictim, LoadedAs, Evolves;
    match a {
      case ReadSnapshot(u) => SnapshotPast(w.m, PcOf(w, u).path);
      case Sweep(u, _, victims) => LoadedKnown(w.m, victims);
      case ShutDown(u, victims) => LoadedKnown(w.m, victims);
      case NoteLoaded(u, noted) => LoadedKnown(w.m, noted);
      case PersistNext(u, ok) => KnownKept(w.m, Apply(w, a).m, PcOf(w, t));
      case _ =>
    }
  }

  /** The thread that moved remembers known things; the others are where they were. */
  lemma MovedKnown(w: World, a: Action, t: ThreadId)
    requires Inv(w) && Enabled(w, a) && Evolves(w.m, Apply(w, a).m)
    ensures PcOf(Apply(w, a), t) == PcOf(w, t) || PcKnown(Apply(w, a).m, PcOf(Apply(w, a), t))
  {
    hide Inv, CapVictims, Forget, Evictable, Lookup, Installed, LoadEnded, Removed, Persisted, TableOk, Released,
         MarkedDirty, Changed, Dropped, DistinctPaths, MustRebuild, KnownVictim, LoadedAs, Evolves;
    InvTable(w);
    KnownPc(w, t);
    EvolvedTable(w.m, Apply(w, a).m);
    if a.Finish? {
      FinishKnown(w, a.t, a.result, a.cap);
    } else if a.ReadSnapshot? || a.Sweep? || a.ShutDown? || a.NoteLoaded? || a.Choose? || a.PersistNext? {
      EvictorKnown(w, a, t);
    }
  }

  lemma EvolvedTable(m: Manager, m2: Manager)
    requires Evolves(m, m2)
    ensures TableOk(m2)
  {
    hide TableOk;
  }

  lemma SnapshotPast(m: Manager, p: ProjectPath)
    requires TableOk(m) && p in m.snapshots
    ensures m.snapshots[p].version < m.nextVersion
  {
  }

  lemma KnownStep(w: World, a: Action)
    requires Inv(w) && Enabled(w, a)
    ensures VictimsKnown(Apply(w, a))
  {
    hide Inv, TableOk, Apply, Enabled, PcKnown, Evolves;
    TableStep(w, a);
    InvTable(w);
    forall t ensures PcKnown(Apply(w, a).m, PcOf(Apply(w, a), t)) {
      MovedKnown(w, a, t);
      KnownPc(w, t);
      KnownKept(w.m, Apply(w, a).m, PcOf(w, t));
    }
  }

  /** Every critical section of every thread keeps the invariant. */
  lemma InvStep(w: World, a: Action)
    requires Inv(w) && Enabled(w, a)
    ensures Inv(Apply(w, a))
  {
    hide TableOk, Apply, Enabled, Singleflight, VictimsKnown;
    TableStep(w, a);
    FlightStep(w, a);
    KnownStep(w, a);
  }
}
