/** The project manager object: one method per critical section, and the eviction loops. */
module ProjectManagers {
  import opened Symbols
  import opened ProjectTable

  function PersistedAll(m: Manager, victims: seq<Victim>, oks: seq<bool>): Manager
    requires |oks| == |victims| && forall v :: v in victims ==> v.entry in m.entries
    decreases victims
  {
    if victims == [] then m
    else
      assert victims[0] in victims;
      PersistedAll(Persisted(m, victims[0], oks[0]), victims[1..], oks[1..])
  }

  /** Persisting changes dirty flags and snapshots, nothing an eviction decision depends on. */
  ghost predicate SameButPersisted(m: Manager, m2: Manager) {
    && m2 == m.(entries := m2.entries, snapshots := m2.snapshots)
    && m2.entries.Keys == m.entries.Keys
    && forall e :: e in m.entries ==> m2.entries[e] == m.entries[e].(dirty := m2.entries[e].dirty)
  }

  lemma PersistedOk(m: Manager, v: Victim, ok: bool)
    requires TableOk(m) && v.entry in m.entries
    ensures TableOk(Persisted(m, v, ok)) && SameButPersisted(m, Persisted(m, v, ok))
  {
  }

  lemma SameButPersistedTrans(m: Manager, m1: Manager, m2: Manager)
    requires SameButPersisted(m, m1) && SameButPersisted(m1, m2)
    ensures SameButPersisted(m, m2)
  {
  }

  lemma SameDecisions(m: Manager, m2: Manager)
    requires TableOk(m) && TableOk(m2) && SameButPersisted(m, m2)
    ensures forall p :: Idle(m2, p) <==> Idle(m, p)
    ensures LruOk(m) ==> LruOk(m2)
  {
    assert forall p :: p in m.projects ==>
      EntryAt(m2, p).active == EntryAt(m, p).active && EntryAt(m2, p).lastQuery == EntryAt(m, p).lastQuery;
  }

  lemma {:induction false} PersistedAllOk(m: Manager, victims: seq<Victim>, oks: seq<bool>)
    requires |oks| == |victims| && forall v :: v in victims ==> v.entry in m.entries
    requires TableOk(m)
    ensures TableOk(PersistedAll(m, victims, oks)) && SameButPersisted(m, PersistedAll(m, victims, oks))
    decreases victims
  {
    if victims != [] {
      assert victims[0] in victims;
      PersistedOk(m, victims[0], oks[0]);
      PersistedAllOk(Persisted(m, victims[0], oks[0]), victims[1..], oks[1..]);
      SameButPersistedTrans(m, Persisted(m, victims[0], oks[0]), PersistedAll(m, victims, oks));
    }
  }

  // ------------------------------------------------------------ byte budget

  /** Summed heap bytes of the listed projects; `bytes` gives the size of each graph version. */
  function TotalBytes(m: Manager, lru: seq<ProjectPath>, bytes: nat -> nat): nat
    requires TableOk(m)
  {
    if lru == [] then 0
    else TotalBytes(m, lru[..|lru| - 1], bytes)
         + if lru[|lru| - 1] in m.projects then bytes(EntryAt(m, lru[|lru| - 1]).version) else 0
  }

  /** It is a sum: nothing for no project, the bytes of its version for one, and additive. */
  lemma {:induction false} TotalIsSum(m: Manager, a: seq<ProjectPath>, b: seq<ProjectPath>, p: ProjectPath,
                                      bytes: nat -> nat)
    requires TableOk(m)
    ensures TotalBytes(m, [], bytes) == 0
    ensures p in m.projects ==> TotalBytes(m, [p], bytes) == bytes(m.entries[m.projects[p]].version)
    ensures TotalBytes(m, a + b, bytes) == TotalBytes(m, a, bytes) + TotalBytes(m, b, bytes)
  {
    assert [p][..0] == [];
    if b == [] {
      assert a + b == a;
    } else {
      TotalIsSum(m, a, b[..|b| - 1], p, bytes);
      assert (a + b)[..|a + b| - 1] == a + b[..|b| - 1];
    }
  }

  ghost predicate AllBusy(m: Manager)
    requires TableOk(m)
  {
    forall p :: p in m.projects ==> EntryAt(m, p).active > 0
  }

  function KeepOnly(lru: seq<ProjectPath>, keep: set<ProjectPath>): seq<ProjectPath> {
    if lru == [] then []
    else (if lru[0] in keep then [lru[0]] else []) + KeepOnly(lru[1..], keep)
  }

  lemma {:induction false} KeepOnlyAll(lru: seq<ProjectPath>, keep: set<ProjectPath>)
    requires forall p :: p in lru ==> p in keep
    ensures KeepOnly(lru, keep) == lru
  {
    if lru != [] {
      assert lru == [lru[0]] + lru[1..];
      KeepOnlyAll(lru[1..], keep);
    }
  }

  lemma {:induction false} KeepOnlyMembers(lru: seq<ProjectPath>, keep: set<ProjectPath>)
    ensures forall p :: p in KeepOnly(lru, keep) <==> p in lru && p in keep
  {
    if lru != [] {
      assert lru == [lru[0]] + lru[1..];
      KeepOnlyMembers(lru[1..], keep);
    }
  }

  lemma {:induction false} ForgetKeepOnly(lru: seq<ProjectPath>, keep: set<ProjectPath>, p: ProjectPath)
    ensures Forget(KeepOnly(lru, keep), p) == KeepOnly(lru, keep - {p})
  {
    if lru != [] {
      var x, rest, after := lru[0], KeepOnly(lru[1..], keep), KeepOnly(lru[1..], keep - {p});
      ForgetKeepOnly(lru[1..], keep, p);
      assert KeepOnly(lru, keep) == (if x in keep then [x] else []) + rest;
      assert KeepOnly(lru, keep - {p}) == (if x in keep - {p} then [x] else []) + after;
      if x in keep {
        assert ([x] + rest)[1..] == rest;
        assert Forget([x] + rest, p) == (if x == p then [] else [x]) + after;
      } else {
        assert [] + rest == rest && [] + after == after;
      }
    }
  }

  function FirstIdle(m: Manager, lru: seq<ProjectPath>): (r: Option<ProjectPath>)
    requires TableOk(m)
    ensures r.Some? ==> r.value in lru && Idle(m, r.value)
    ensures r.None? ==> forall p :: p in lru ==> !Idle(m, p)
  {
    if lru == [] then None
    else
      assert lru == [lru[0]] + lru[1..];
      if Idle(m, lru[0]) then Some(lru[0]) else FirstIdle(m, lru[1..])
  }

  /** In the original list, everything still kept before the first idle project is busy. */
  lemma {:induction false} FirstIdleIsOldest(m: Manager, lru: seq<ProjectPath>, keep: set<ProjectPath>, i: nat, j: nat)
    requires TableOk(m) && NoDuplicates(lru) && i < j < |lru|
    requires FirstIdle(m, KeepOnly(lru, keep)) == Some(lru[j])
    ensures lru[i] in keep ==> !Idle(m, lru[i])
  {
    var rest := KeepOnly(lru[1..], keep);
    KeepOnlyMembers(lru[1..], keep);
    if lru[0] in keep {
      assert KeepOnly(lru, keep) == [lru[0]] + rest;
      assert ([lru[0]] + rest)[1..] == rest;
      if i > 0 && !Idle(m, lru[0]) {
        FirstIdleIsOldest(m, lru[1..], keep, i - 1, j - 1);
      }
    } else if i > 0 {
      assert KeepOnly(lru, keep) == rest;
      FirstIdleIsOldest(m, lru[1..], keep, i - 1, j - 1);
    }
  }

  /**
    What an eviction pass may do to `m`: it removes only idle projects, and among the idle ones the
    oldest first; a project that stays keeps its entry, its graph and its callers.
   */
  ghost predicate EvictedOldestIdle(m: Manager, m2: Manager)
    requires TableOk(m) && TableOk(m2)
  {
    && (forall p :: p in m2.projects ==> p in m.projects && m2.projects[p] == m.projects[p])
    && (forall p :: p in m.projects && p !in m2.projects ==> Idle(m, p))
    && (forall e :: e in m.entries ==> e in m2.entries && m2.entries[e] == m.entries[e].(dirty := m2.entries[e].dirty))
    && m2.lru == KeepOnly(m.lru, m2.projects.Keys)
    && (forall i, j ::
        0 <= i < j < |m.lru| && m.lru[j] !in m2.projects && Idle(m, m.lru[i]) ==> m.lru[i] !in m2.projects)
  }

  lemma NothingEvicted(m: Manager)
    requires TableOk(m) && LruOk(m)
    ensures EvictedOldestIdle(m, m)
  {
    KeepOnlyAll(m.lru, m.projects.Keys);
  }

  /** Evicting the first idle project keeps the pass oldest-first. */
  lemma OneMoreEvicted(m: Manager, m1: Manager, m1': Manager, p: ProjectPath)
    requires TableOk(m) && TableOk(m1) && TableOk(m1') && LruOk(m) && LruOk(m1)
    requires EvictedOldestIdle(m, m1) && FirstIdle(m1, m1.lru) == Some(p)
    requires SameButPersisted(m1, m1')
    ensures TableOk(Dropped(m1', p)) && EvictedOldestIdle(m, Dropped(m1', p))
  {
    hide Forget, KeepOnly, FirstIdle, NoDuplicates, LruOk, TableOk;
    var m2 := Dropped(m1', p);
    ForgetKeepOnly(m.lru, m1.projects.Keys, p);
    assert m2.projects.Keys == m1.projects.Keys - {p};
    assert p in m1.lru && Idle(m1, p);
    SameIdle(m, m1);
    LruNoDuplicates(m);
    DroppedTable(m1', p);
    forall i, j | 0 <= i < j < |m.lru| && m.lru[j] !in m2.projects && Idle(m, m.lru[i])
      ensures m.lru[i] !in m2.projects
    {
      if m.lru[j] == p {
        FirstIdleIsOldest(m1, m.lru, m1.projects.Keys, i, j);
      }
    }
  }

  lemma SameIdle(m: Manager, m1: Manager)
    requires TableOk(m) && TableOk(m1) && EvictedOldestIdle(m, m1)
    ensures forall p :: p in m1.projects ==> (Idle(m1, p) <==> Idle(m, p))
  {
  }

  lemma OldestStep(m: Manager, lru: seq<ProjectPath>, loaded: ProjectPath, over: nat, found: seq<Victim>)
    requires TableOk(m) && lru != [] && over > 0
    ensures found + Oldest(m, lru, loaded, over) ==
            if lru[0] != loaded && Idle(m, lru[0])
            then found + [Victim(lru[0], m.projects[lru[0]])] + Oldest(m, lru[1..], loaded, over - 1)
            else found + Oldest(m, lru[1..], loaded, over)
  {
    hide TableOk;
    LoadedHaveEntries(m);
  }

  // ------------------------------------------------------------ the object

  class ProjectManager {
    var entries: map<EntryId, ProjectEntry>
    var projects: map<ProjectPath, EntryId>
    var loading: map<ProjectPath, GateId>
    var doneGates: set<GateId>
    var lru: seq<ProjectPath>
    var snapshots: map<ProjectPath, Snapshot>
    var now: nat
    var nextId: nat
    var nextVersion: nat

    ghost function State(): Manager
      reads this
    {
      Manager(entries, projects, loading, doneGates, lru, snapshots, now, nextId, nextVersion)
    }

    constructor ()
      ensures State() == Initial && TableOk(State()) && LruOk(State())
    {
      entries, projects, loading, doneGates, lru, snapshots, now, nextId, nextVersion :=
        map[], map[], map[], {}, [], map[], 0, 0, 0;
    }

    /** First critical section: hit, or drop the stale entry and join or start a load. */
    method GetOrBegin(p: ProjectPath, policy: RefreshPolicy, newer: bool) returns (outcome: Outcome)
      requires TableOk(State())
      modifies this
      ensures (State(), outcome) == Lookup(old(State()), p, policy, newer)
      ensures outcome.Hit? <==> old(p in projects) && !(policy == IfStale && newer)
      ensures outcome.Hit? ==>
                && p in projects && outcome.entry == projects[p] && outcome.entry in entries
                && entries[outcome.entry].lastQuery == now
                && lru != [] && lru[|lru| - 1] == p && p !in lru[..|lru| - 1]
      ensures !outcome.Hit? ==> p !in projects && p in loading && outcome.gate == loading[p]
      ensures outcome.Wait? <==> !outcome.Hit? && old(p in loading)
      ensures !outcome.Hit? && old(p in projects) ==> p !in lru
    {
      if p in projects {
        if policy.IfStale? && newer {
          projects := projects - {p};
          lru := Forget(lru, p);
        } else {
          var e := projects[p];
          entries := entries[e := entries[e].(lastQuery := now, active := Incremented(entries[e].active))];
          lru := Forget(lru, p) + [p];
          return Hit(e);
        }
      }
      if p in loading {
        return Wait(loading[p]);
      }
      var gate := nextId;
      nextId := nextId + 1;
      loading := loading[p := gate];
      return Load(gate);
    }

    /** Second critical section: open the gate, install the graph, pick the victims of the count cap. */
    method FinishLoad(p: ProjectPath, gate: GateId, result: Option<BuiltGraph>, cap: nat)
      returns (id: Option<EntryId>, victims: seq<Victim>)
      requires TableOk(State()) && gate < nextId
      requires result.Some? && result.value.FromSnapshot? ==> result.value.snapshot.version < nextVersion
      modifies this
      ensures TableOk(State())
      ensures result.None? ==> State() == LoadEnded(old(State()), p, gate) && id == None && victims == []
      ensures result.Some? ==>
                && State() == Installed(LoadEnded(old(State()), p, gate), p, result.value)
                && id == Some(old(nextId)) && victims == CapVictims(State(), p, cap)
                && p in projects && projects[p] == old(nextId) && old(nextId) in entries
                && entries[old(nextId)].active == 1 && entries[old(nextId)].lastQuery == now
                && (entries[old(nextId)].dirty <==> result.value.FromSource?)
    {
      hide TableOk, Forget, Oldest, Installed;
      InstalledTable(State(), p, gate, result);
      loading := loading - {p};
      doneGates := doneGates + {gate};
      if result.None? {
        return None, [];
      }
      var e := Install(p, result.value);
      victims := PickOldest(p, if |projects| > cap then |projects| - cap else 0);
      return Some(e), victims;
    }

    method Install(p: ProjectPath, built: BuiltGraph) returns (e: EntryId)
      modifies this
      ensures State() == Installed(old(State()), p, built) && e == old(nextId)
      ensures p in projects && projects[p] == e && e in entries
      ensures entries[e].active == 1 && entries[e].lastQuery == now && (entries[e].dirty <==> built.FromSource?)
      ensures entries[e].version == (if built.FromSource? then old(nextVersion) else built.snapshot.version)
      ensures entries[e].builtAt == (if built.FromSource? then built.builtAt else built.snapshot.builtAt)
      ensures lru != [] && lru[|lru| - 1] == p && p !in lru[..|lru| - 1]
    {
      hide Forget;
      e := nextId;
      var entry := match built
        case FromSource(at) => ProjectEntry(p, nextVersion, 1, now, at, true)
        case FromSnapshot(s) => ProjectEntry(p, s.version, 1, now, s.builtAt, false);
      entries := entries[e := entry];
      projects := projects[p := e];
      lru := Forget(lru, p) + [p];
      nextId := nextId + 1;
      nextVersion := nextVersion + 1;
    }

    method PickOldest(loaded: ProjectPath, over: nat) returns (victims: seq<Victim>)
      requires TableOk(State())
      ensures victims == Oldest(State(), lru, loaded, over)
    {
      hide TableOk;
      victims := [];
      var i := 0;
      while i < |lru|
        invariant i <= |lru| && |victims| <= over
        invariant Oldest(State(), lru, loaded, over) == victims + Oldest(State(), lru[i..], loaded, over - |victims|)
      {
        if |victims| >= over {
          assert Oldest(State(), lru[i..], loaded, 0) == [];
          assert victims + [] == victims;
          break;
        }
        var p := lru[i];
        LoadedHaveEntries(State());
        assert lru[i..][1..] == lru[i + 1..];
        OldestStep(State(), lru[i..], loaded, over - |victims|, victims);
        if p != loaded && p in projects && entries[projects[p]].active == 0 {
          victims := victims + [Victim(p, projects[p])];
        }
        i := i + 1;
      }
      if i == |lru| {
        assert Oldest(State(), lru[i..], loaded, over - |victims|) == [];
        assert victims + [] == victims;
      }
    }

    method Release(p: ProjectPath)
      requires TableOk(State())
      modifies this`entries
      ensures TableOk(State()) && State() == Released(old(State()), p)
      ensures p in projects ==>
                var active := old(entries)[projects[p]].active;
                entries[projects[p]].active == if active == 0 then 0xFFFF_FFFF_FFFF_FFFF else active - 1
    {
      if p in projects {
        var e := projects[p];
        entries := entries[e := entries[e].(active := Decremented(entries[e].active))];
      }
    }

    method MarkDirty(p: ProjectPath)
      requires TableOk(State())
      modifies this`entries
      ensures TableOk(State()) && State() == MarkedDirty(old(State()), p)
      ensures p in projects ==> entries[projects[p]].dirty && entries[projects[p]].builtAt == now
    {
      if p in projects {
        var e := projects[p];
        entries := entries[e := entries[e].(dirty := true, builtAt := now)];
      }
    }

    method Unload(p: ProjectPath) returns (wasLoaded: bool)
      requires TableOk(State())
      modifies this`projects, this`lru
      ensures TableOk(State()) && State() == Dropped(old(State()), p)
      ensures wasLoaded == old(p in projects)
    {
      lru := Forget(lru, p);
      wasLoaded := p in projects;
      projects := projects - {p};
    }

    /** The projects idle for at least `timeout`, in no particular order. */
    method PickExpired(timeout: nat) returns (victims: seq<Victim>)
      requires TableOk(State())
      ensures forall v :: v in victims <==>
                v.path in projects && v.entry == projects[v.path] &&
                  entries[v.entry].active == 0 && now >= entries[v.entry].lastQuery + timeout
    {
      victims := [];
      var rest := projects.Keys;
      while rest != {}
        invariant rest <= projects.Keys
        invariant forall v :: v in victims <==>
                    v.path in projects && v.path !in rest && v.entry == projects[v.path] &&
                      Evictable(State(), v.path, WhenIdleFor(timeout))
        decreases rest
      {
        var p :| p in rest;
        var entry := entries[projects[p]];
        if entry.active == 0 && now >= entry.lastQuery + timeout {
          victims := victims + [Victim(p, projects[p])];
        }
        rest := rest - {p};
      }
    }

    method PersistEntry(v: Victim, ok: bool)
      requires v.entry in entries
      modifies this`entries, this`snapshots
      ensures State() == Persisted(old(State()), v, ok)
      ensures ok && old(entries)[v.entry].dirty ==>
                && v.entry in entries && !entries[v.entry].dirty && v.path in snapshots
                && snapshots[v.path] == Snapshot(old(entries)[v.entry].version, old(entries)[v.entry].builtAt)
      ensures !(ok && old(entries)[v.entry].dirty) ==> entries == old(entries) && snapshots == old(snapshots)
    {
      var entry := entries[v.entry];
      if !entry.dirty {
        return;
      }
      if ok {
        snapshots := snapshots[v.path := Snapshot(entry.version, entry.builtAt)];
        entries := entries[v.entry := entry.(dirty := false)];
      }
    }

    /** Last critical section of an eviction: removes the victims that are still evictable. */
    method RemoveVictims(victims: seq<Victim>, guard: Guard) returns (removed: nat)
      requires TableOk(State())
      modifies this`projects, this`lru
      ensures TableOk(State()) && (State(), removed) == Removed(old(State()), victims, guard)
    {
      hide TableOk, Forget;
      removed := 0;
      for i := 0 to |victims|
        invariant TableOk(State())
        invariant Removed(old(State()), victims, guard) ==
                  (Removed(State(), victims[i..], guard).0, removed + Removed(State(), victims[i..], guard).1)
      {
        var p := victims[i].path;
        assert victims[i..][0] == victims[i] && victims[i..][1..] == victims[i + 1..];
        LoadedHaveEntries(State());
        DroppedTable(State(), p);
        if p in projects {
          var entry := entries[projects[p]];
          if entry.active == 0 && (guard.WhenIdle? || now >= entry.lastQuery + guard.timeout) {
            projects := projects - {p};
            lru := Forget(lru, p);
            removed := removed + 1;
          }
        }
      }
    }

    /** Persist each victim, off the lock and with any outcome, then remove the ones still evictable. */
    method QuiesceAndRemove(victims: seq<Victim>, guard: Guard) returns (removed: nat, ghost oks: seq<bool>)
      requires TableOk(State()) && forall v :: v in victims ==> v.entry in entries
      modifies this`entries, this`snapshots, this`projects, this`lru
      ensures |oks| == |victims| && TableOk(State())
      ensures TableOk(PersistedAll(old(State()), victims, oks))
      ensures (State(), removed) == Removed(PersistedAll(old(State()), victims, oks), victims, guard)
    {
      hide TableOk, Persisted, Removed;
      oks := [];
      for i := 0 to |victims|
        invariant |oks| == i && TableOk(State())
        invariant forall v :: v in victims ==> v.entry in entries
        invariant State() == PersistedAll(old(State()), victims[..i], oks)
      {
        var ok: bool := *;
        assert victims[i] in victims;
        PersistedOk(State(), victims[i], ok);
        PersistedSnoc(old(State()), victims[..i], oks, victims[i], ok);
        assert victims[..i + 1] == victims[..i] + [victims[i]];
        PersistEntry(victims[i], ok);
        oks := oks + [ok];
      }
      assert victims[..|victims|] == victims;
      removed := RemoveVictims(victims, guard);
    }

    /** Evicts the oldest idle project until the total is within a nonzero budget or every project is busy. */
    method EnforceByteBudget(budget: nat, bytes: nat -> nat)
      requires TableOk(State()) && LruOk(State())
      modifies this`entries, this`snapshots, this`projects, this`lru
      ensures TableOk(State()) && LruOk(State())
      ensures EvictedOldestIdle(old(State()), State())
      ensures budget == 0 ==> State() == old(State())
      ensures budget != 0 ==> TotalBytes(State(), lru, bytes) <= budget || AllBusy(State())
    {
      hide TableOk, LruOk, Evictable, EvictedOldestIdle, Removed, PersistedAll, TotalBytes;
      NothingEvicted(State());
      if budget == 0 {
        return;
      }
      while true
        invariant TableOk(State()) && LruOk(State())
        invariant EvictedOldestIdle(old(State()), State())
        decreases |projects|
      {
        var total := SumBytes(bytes);
        if total <= budget {
          return;
        }
        var victim := FindIdle();
        if victim.None? {
          NoneIdle(State());
          return;
        }
        var p := victim.value;
        ghost var before := State();
        VictimLoaded(before, p);
        var removed;
        ghost var oks;
        removed, oks := QuiesceAndRemove([Victim(p, projects[p])], WhenIdle);
        OneVictimRemoved(before, p, oks);
        OneMoreEvicted(old(State()), before, PersistedAll(before, [Victim(p, before.projects[p])], oks), p);
      }
    }

    method FindIdle() returns (victim: Option<ProjectPath>)
      requires TableOk(State())
      ensures victim == FirstIdle(State(), lru)
    {
      for i := 0 to |lru|
        invariant FirstIdle(State(), lru) == FirstIdle(State(), lru[i..])
      {
        assert lru[i..][1..] == lru[i + 1..];
        if lru[i] in projects && entries[projects[lru[i]]].active == 0 {
          return Some(lru[i]);
        }
      }
      return None;
    }

    method SumBytes(bytes: nat -> nat) returns (total: nat)
      requires TableOk(State())
      ensures total == TotalBytes(State(), lru, bytes)
    {
      total := 0;
      for i := 0 to |lru|
        invariant total == TotalBytes(State(), lru[..i], bytes)
      {
        assert lru[..i + 1][..i] == lru[..i];
        if lru[i] in projects {
          total := total + bytes(entries[projects[lru[i]]].version);
        }
      }
      assert lru[..|lru|] == lru;
    }

    /** The tail of a load with no other thread in between: cap, then budget. */
    method InstallAndEvict(p: ProjectPath, gate: GateId, built: BuiltGraph, cap: nat, budget: nat, bytes: nat -> nat)
      returns (entry: EntryId)
      requires TableOk(State()) && LruOk(State()) && gate < nextId
      requires built.FromSnapshot? ==> built.snapshot.version < nextVersion
      modifies this
      ensures TableOk(State()) && LruOk(State())
      ensures p in projects && projects[p] == entry && entries[entry].active == 1
      ensures |projects| <= cap || AllBusy(State())
      ensures budget != 0 ==> TotalBytes(State(), lru, bytes) <= budget || AllBusy(State())
      ensures forall q :: q in old(projects) && q != p && q !in projects ==> old(Idle(State(), q))
    {
      hide TableOk, LruOk, EvictedOldestIdle, Removed, PersistedAll, TotalBytes, CapVictims, LoadEnded, Installed,
           AllBusy, Idle;
      ghost var start := State();
      var found, victims := FinishLoad(p, gate, Some(built), cap);
      ghost var installed := State();
      InstalledOk(start, p, gate, built);
      CapVictimsLoaded(installed, p, cap);
      var removed;
      ghost var oks;
      removed, oks := QuiesceAndRemove(victims, WhenIdle);
      ghost var capped := State();
      CapReached(installed, p, cap, oks, capped);
      EnforceByteBudget(budget, bytes);
      entry := found.value;
      BudgetKeepsCap(start, installed, p, cap, capped, State());
    }
  }

  // ------------------------------------------------------------ facts about the loops

  lemma {:induction false} PersistedSnoc(m: Manager, victims: seq<Victim>, oks: seq<bool>, v: Victim, ok: bool)
    requires TableOk(m) && |oks| == |victims| && v.entry in m.entries
    requires forall w :: w in victims ==> w.entry in m.entries
    ensures v.entry in PersistedAll(m, victims, oks).entries
    ensures PersistedAll(m, victims + [v], oks + [ok]) == Persisted(PersistedAll(m, victims, oks), v, ok)
    decreases victims
  {
    hide TableOk, Persisted;
    PersistedAllOk(m, victims, oks);
    if victims == [] {
      assert victims + [v] == [v] && oks + [ok] == [ok];
      assert [v][1..] == [] && [ok][1..] == [];
    } else {
      assert victims[0] in victims;
      assert (victims + [v])[1..] == victims[1..] + [v] && (oks + [ok])[1..] == oks[1..] + [ok];
      PersistedOk(m, victims[0], oks[0]);
      PersistedSnoc(Persisted(m, victims[0], oks[0]), victims[1..], oks[1..], v, ok);
    }
  }

  lemma NoneIdle(m: Manager)
    requires TableOk(m) && LruOk(m) && FirstIdle(m, m.lru).None?
    ensures AllBusy(m)
  {
    hide FirstIdle;
  }

  lemma VictimLoaded(m: Manager, p: ProjectPath)
    requires TableOk(m) && Idle(m, p)
    ensures p in m.projects && m.projects[p] in m.entries
  {
  }

  lemma LoadedHaveEntries(m: Manager)
    requires TableOk(m)
    ensures forall p :: p in m.projects ==> m.projects[p] in m.entries
  {
  }

  lemma RemoveOne(m: Manager, v: Victim)
    requires TableOk(m) && Idle(m, v.path)
    ensures TableOk(Dropped(m, v.path)) && Removed(m, [v], WhenIdle) == (Dropped(m, v.path), 1)
  {
    hide TableOk, Idle, Forget;
    DroppedTable(m, v.path);
    assert [v][1..] == [];
    assert Removed(Dropped(m, v.path), [], WhenIdle) == (Dropped(m, v.path), 0);
  }

  /** With nobody in between, the one victim is still idle and is removed. */
  lemma OneVictimRemoved(m: Manager, p: ProjectPath, oks: seq<bool>)
    requires TableOk(m) && LruOk(m) && Idle(m, p) && |oks| == 1
    ensures var v := Victim(p, m.projects[p]);
            var m1 := PersistedAll(m, [v], oks);
            && TableOk(m1) && SameButPersisted(m, m1)
            && Removed(m1, [v], WhenIdle) == (Dropped(m1, p), 1)
            && LruOk(Dropped(m1, p)) && |Dropped(m1, p).projects| < |m.projects|
  {
    hide PersistedAll, LruOk, Removed, Forget;
    var v := Victim(p, m.projects[p]);
    PersistedAllOk(m, [v], oks);
    var m1 := PersistedAll(m, [v], oks);
    SameDecisions(m, m1);
    RemoveOne(m1, v);
    DroppedLruOk(m1, p);
    assert Dropped(m1, p).projects.Keys == m1.projects.Keys - {p};
    assert |Dropped(m1, p).projects| == |m1.projects| - 1;
  }

  lemma InstalledTable(m: Manager, p: ProjectPath, gate: GateId, result: Option<BuiltGraph>)
    requires TableOk(m) && gate < m.nextId
    requires result.Some? && result.value.FromSnapshot? ==> result.value.snapshot.version < m.nextVersion
    ensures TableOk(LoadEnded(m, p, gate))
    ensures result.Some? ==> TableOk(Installed(LoadEnded(m, p, gate), p, result.value))
  {
    hide Forget;
  }

  /** The loaded projects other than `p` and their entries are the same. */
  ghost predicate OthersKept(m: Manager, m2: Manager, p: ProjectPath)
    requires TableOk(m) && TableOk(m2)
  {
    forall q :: q != p ==>
      && (q in m2.projects <==> q in m.projects)
      && (q in m.projects ==> m2.projects[q] == m.projects[q] && EntryAt(m2, q) == EntryAt(m, q))
  }

  lemma InstalledOthers(m: Manager, p: ProjectPath, gate: GateId, built: BuiltGraph)
    requires TableOk(m) && gate < m.nextId
    requires TableOk(Installed(LoadEnded(m, p, gate), p, built))
    ensures OthersKept(m, Installed(LoadEnded(m, p, gate), p, built), p)
  {
    hide Forget, NewEntry;
  }

  lemma InstalledOk(m: Manager, p: ProjectPath, gate: GateId, built: BuiltGraph)
    requires TableOk(m) && LruOk(m) && gate < m.nextId
    requires built.FromSnapshot? ==> built.snapshot.version < m.nextVersion
    ensures var m2 := Installed(LoadEnded(m, p, gate), p, built);
            && TableOk(m2) && LruOk(m2)
            && p in m2.projects && m2.projects[p] == m.nextId && EntryAt(m2, p).active == 1
            && OthersKept(m, m2, p)
  {
    hide LruOk, Forget, OthersKept;
    var m1 := LoadEnded(m, p, gate);
    var m2 := Installed(m1, p, built);
    InstalledTable(m, p, gate, Some(built));
    InstalledOthers(m, p, gate, built);
    LruOfTable(m, m1);
    assert m2.projects.Keys == m1.projects.Keys + {p};
    OthersTimes(m, m2, p);
    AccessedLruOk(m1, p, m2);
  }

  lemma OthersTimes(m: Manager, m2: Manager, p: ProjectPath)
    requires TableOk(m) && TableOk(m2) && OthersKept(m, m2, p)
    ensures forall q ::
              q in m.projects && q != p ==> q in m2.projects && EntryAt(m2, q).lastQuery == EntryAt(m, q).lastQuery
  {
  }

  lemma LruOfTable(m: Manager, m1: Manager)
    requires TableOk(m) && LruOk(m) && TableOk(m1)
    requires m1.entries == m.entries && m1.projects == m.projects && m1.lru == m.lru && m1.now == m.now
    ensures LruOk(m1)
  {
    assert forall p :: p in m.projects ==> EntryAt(m1, p) == EntryAt(m, p);
  }

  lemma CapVictimsLoaded(m: Manager, p: ProjectPath, cap: nat)
    requires TableOk(m)
    ensures forall v :: v in CapVictims(m, p, cap) ==> v.entry in m.entries
  {
    OldestAreIdle(m, m.lru, p, Excess(m, cap));
  }

  predicate DistinctPaths(victims: seq<Victim>) {
    forall i, j :: 0 <= i < j < |victims| ==> victims[i].path != victims[j].path
  }

  lemma {:induction false} OldestDistinct(m: Manager, lru: seq<ProjectPath>, loaded: ProjectPath, over: nat)
    requires TableOk(m) && NoDuplicates(lru)
    ensures DistinctPaths(Oldest(m, lru, loaded, over))
  {
    if lru != [] && over > 0 {
      if lru[0] != loaded && Idle(m, lru[0]) {
        OldestDistinct(m, lru[1..], loaded, over - 1);
        OldestAreIdle(m, lru[1..], loaded, over - 1);
        var rest := Oldest(m, lru[1..], loaded, over - 1);
        assert Oldest(m, lru, loaded, over) == [Victim(lru[0], m.projects[lru[0]])] + rest;
        forall j | 0 <= j < |rest| ensures rest[j].path != lru[0] {
          assert rest[j] in rest && rest[j].path in lru[1..];
        }
      } else {
        OldestDistinct(m, lru[1..], loaded, over);
        assert Oldest(m, lru, loaded, over) == Oldest(m, lru[1..], loaded, over);
      }
    }
  }

  /** Removing idle victims of distinct paths removes every one of them. */
  lemma {:induction false} AllVictimsRemoved(m: Manager, victims: seq<Victim>)
    requires TableOk(m)
    requires forall v :: v in victims ==> Idle(m, v.path)
    requires DistinctPaths(victims)
    ensures Removed(m, victims, WhenIdle).1 == |victims|
    decreases victims
  {
    if victims != [] {
      assert victims[0] in victims;
      var m1 := Dropped(m, victims[0].path);
      forall v | v in victims[1..] ensures Idle(m1, v.path) {
        var j :| 0 <= j < |victims[1..]| && victims[1..][j] == v;
        assert victims[j + 1] == v && v in victims;
      }
      AllVictimsRemoved(m1, victims[1..]);
    }
  }

  /** After the cap's victims left, the count is within the cap or every project is busy. */
  lemma CapReached(m: Manager, p: ProjectPath, cap: nat, oks: seq<bool>, m2: Manager)
    requires TableOk(m) && LruOk(m) && p in m.projects && EntryAt(m, p).active == 1
    requires |oks| == |CapVictims(m, p, cap)| && forall v :: v in CapVictims(m, p, cap) ==> v.entry in m.entries
    requires TableOk(PersistedAll(m, CapVictims(m, p, cap), oks))
    requires m2 == Removed(PersistedAll(m, CapVictims(m, p, cap), oks), CapVictims(m, p, cap), WhenIdle).0
    ensures TableOk(m2) && LruOk(m2)
    ensures |m2.projects| <= cap || AllBusy(m2)
    ensures forall q :: q in m2.projects ==> q in m.projects && m2.projects[q] == m.projects[q]
    ensures forall q :: q in m.projects && q !in m2.projects ==> Idle(m, q) && q != p
    ensures forall e :: e in m.entries ==> e in m2.entries && m2.entries[e].active == m.entries[e].active
  {
    hide LruOk, PersistedAll, Removed, Oldest;
    var victims := CapVictims(m, p, cap);
    var m1 := PersistedAll(m, victims, oks);
    PersistedAllOk(m, victims, oks);
    SameDecisions(m, m1);
    LruNoDuplicates(m);
    OldestAreIdle(m, m.lru, p, Excess(m, cap));
    OldestDistinct(m, m.lru, p, Excess(m, cap));
    AllVictimsRemoved(m1, victims);
    RemovedEffect(m1, victims, WhenIdle);
    RemovedLruOk(m1, victims, WhenIdle);
    if |victims| < Excess(m, cap) {
      forall q | q in m2.projects ensures EntryAt(m2, q).active > 0 {
        if q != p && Idle(m, q) {
          OldestExhausts(m, m.lru, p, Excess(m, cap), q);
        }
      }
    }
  }

  lemma LruNoDuplicates(m: Manager)
    requires TableOk(m) && LruOk(m)
    ensures NoDuplicates(m.lru) && forall p :: p in m.lru <==> p in m.projects
  {
  }

  lemma BudgetKeepsCap(m0: Manager, m: Manager, p: ProjectPath, cap: nat, m2: Manager, m3: Manager)
    requires TableOk(m0) && TableOk(m) && TableOk(m2) && TableOk(m3)
    requires p in m.projects && EntryAt(m, p).active == 1
    requires OthersKept(m0, m, p)
    requires |m2.projects| <= cap || AllBusy(m2)
    requires forall q :: q in m2.projects ==> q in m.projects && m2.projects[q] == m.projects[q]
    requires forall q :: q in m.projects && q !in m2.projects ==> Idle(m, q) && q != p
    requires forall e :: e in m.entries ==> e in m2.entries && m2.entries[e].active == m.entries[e].active
    requires EvictedOldestIdle(m2, m3)
    ensures p in m3.projects && m3.projects[p] == m.projects[p] && m3.entries[m3.projects[p]].active == 1
    ensures |m3.projects| <= cap || AllBusy(m3)
    ensures forall q :: q in m0.projects && q != p && q !in m3.projects ==> Idle(m0, q)
  {
    hide KeepOnly, TableOk;
    LoadedHaveEntries(m0);
    LoadedHaveEntries(m);
    LoadedHaveEntries(m2);
    SubmapSize(m3.projects, m2.projects);
    forall q | q in m0.projects && q != p && q !in m3.projects ensures Idle(m0, q) {
      assert if q in m2.projects then Idle(m2, q) else Idle(m, q);
    }
  }

  lemma SubmapSize(a: map<ProjectPath, EntryId>, b: map<ProjectPath, EntryId>)
    requires forall p :: p in a ==> p in b
    ensures |a| <= |b|
  {
    SubsetSize(a.Keys, b.Keys);
  }

  lemma {:induction false} SubsetSize(a: set<ProjectPath>, b: set<ProjectPath>)
    requires a <= b
    ensures |a| <= |b|
  {
    if a != {} {
      var x :| x in a;
      SubsetSize(a - {x}, b - {x});
    }
  }
}
