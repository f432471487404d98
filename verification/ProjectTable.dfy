/**
  The shared table of the multi-project daemon and its critical sections.

  Entries are shared objects: they live in an arena and outlive their place in `projects` while a
  caller or an evictor still refers to them.  A graph is represented by its version number.
 */
module ProjectTable {
  type ProjectPath = string
  type EntryId = nat
  type GateId = nat

  const USIZE_MAX: nat := 0xFFFF_FFFF_FFFF_FFFF

  /** An atomic counter; it wraps in both directions. */
  type usize = n: nat | n <= 0xFFFF_FFFF_FFFF_FFFF

  datatype ProjectEntry = ProjectEntry(
    path: ProjectPath,
    version: nat,
    active: usize,
    lastQuery: nat,
    builtAt: nat,
    dirty: bool
  )

  datatype Snapshot = Snapshot(version: nat, builtAt: nat)

  /** What a build closure returns: a graph built from source, or the snapshot it restored. */
  datatype BuiltGraph = FromSource(builtAt: nat) | FromSnapshot(snapshot: Snapshot)

  datatype RefreshPolicy = IfStale | Never

  datatype Victim = Victim(path: ProjectPath, entry: EntryId)

  /** When a victim may still be removed: idle, and for the sweeper idle long enough. */
  datatype Guard = WhenIdle | WhenIdleFor(timeout: nat)

  datatype Manager = Manager(
    entries: map<EntryId, ProjectEntry>,
    projects: map<ProjectPath, EntryId>,
    loading: map<ProjectPath, GateId>,
    doneGates: set<GateId>,
    lru: seq<ProjectPath>,
    snapshots: map<ProjectPath, Snapshot>,
    now: nat,
    nextId: nat,
    nextVersion: nat
  )

  datatype Outcome = Hit(entry: EntryId) | Wait(gate: GateId) | Load(gate: GateId)

  const Initial := Manager(map[], map[], map[], {}, [], map[], 0, 0, 0)

  /** Every loaded path refers to an entry of that path; ids and versions were handed out before. */
  predicate TableOk(m: Manager) {
    && (forall p :: p in m.projects ==> m.projects[p] in m.entries && m.entries[m.projects[p]].path == p)
    && (forall e :: e in m.entries ==> e < m.nextId && m.entries[e].version < m.nextVersion)
    && (forall p :: p in m.loading ==> m.loading[p] < m.nextId)
    && (forall g :: g in m.doneGates ==> g < m.nextId)
    && (forall p :: p in m.snapshots ==> m.snapshots[p].version < m.nextVersion)
  }

  function EntryAt(m: Manager, p: ProjectPath): ProjectEntry
    requires TableOk(m) && p in m.projects
  {
    m.entries[m.projects[p]]
  }

  function Forget(lru: seq<ProjectPath>, p: ProjectPath): (r: seq<ProjectPath>)
    ensures forall q :: q in r <==> q in lru && q != p
    ensures p !in lru ==> r == lru
  {
    if lru == [] then []
    else
      assert lru == [lru[0]] + lru[1..];
      (if lru[0] == p then [] else [lru[0]]) + Forget(lru[1..], p)
  }

  function RecordAccess(lru: seq<ProjectPath>, p: ProjectPath): seq<ProjectPath> {
    Forget(lru, p) + [p]
  }

  function Incremented(n: usize): usize {
    if n == USIZE_MAX then 0 else n + 1
  }

  function Decremented(n: usize): usize {
    if n == 0 then USIZE_MAX else n - 1
  }

  function Touched(m: Manager, p: ProjectPath): Manager
    requires TableOk(m) && p in m.projects
  {
    var e := m.projects[p];
    var entry := m.entries[e];
    m.(entries := m.entries[e := entry.(lastQuery := m.now, active := Incremented(entry.active))],
       lru := RecordAccess(m.lru, p))
  }

  function Dropped(m: Manager, p: ProjectPath): Manager {
    m.(projects := m.projects - {p}, lru := Forget(m.lru, p))
  }

  function MustRebuild(policy: RefreshPolicy, newer: bool): bool {
    policy.IfStale? && newer
  }

  /** The first critical section of a load; `newer` tells whether the source tree changed since the build. */
  function Lookup(m: Manager, p: ProjectPath, policy: RefreshPolicy, newer: bool): (Manager, Outcome)
    requires TableOk(m)
  {
    if p in m.projects && !MustRebuild(policy, newer) then (Touched(m, p), Hit(m.projects[p]))
    else
      var m1 := if p in m.projects then Dropped(m, p) else m;
      if p in m1.loading then (m1, Wait(m1.loading[p]))
      else (m1.(loading := m1.loading[p := m1.nextId], nextId := m1.nextId + 1), Load(m1.nextId))
  }

  function LoadEnded(m: Manager, p: ProjectPath, gate: GateId): Manager {
    m.(loading := m.loading - {p}, doneGates := m.doneGates + {gate})
  }

  function NewEntry(m: Manager, p: ProjectPath, built: BuiltGraph): ProjectEntry {
    match built
    case FromSource(at) => ProjectEntry(p, m.nextVersion, 1, m.now, at, true)
    case FromSnapshot(s) => ProjectEntry(p, s.version, 1, m.now, s.builtAt, false)
  }

  function Installed(m: Manager, p: ProjectPath, built: BuiltGraph): Manager {
    m.(entries := m.entries[m.nextId := NewEntry(m, p, built)],
       projects := m.projects[p := m.nextId],
       lru := RecordAccess(m.lru, p),
       nextId := m.nextId + 1,
       nextVersion := m.nextVersion + 1)
  }

  predicate Idle(m: Manager, p: ProjectPath)
    requires TableOk(m)
  {
    p in m.projects && EntryAt(m, p).active == 0
  }

  /** The first `over` idle projects of `lru`, never `loaded` itself. */
  function Oldest(m: Manager, lru: seq<ProjectPath>, loaded: ProjectPath, over: nat): seq<Victim>
    requires TableOk(m)
  {
    if lru == [] || over == 0 then []
    else if lru[0] != loaded && Idle(m, lru[0])
    then [Victim(lru[0], m.projects[lru[0]])] + Oldest(m, lru[1..], loaded, over - 1)
    else Oldest(m, lru[1..], loaded, over)
  }

  function Excess(m: Manager, cap: nat): nat {
    if |m.projects| > cap then |m.projects| - cap else 0
  }

  function CapVictims(m: Manager, loaded: ProjectPath, cap: nat): seq<Victim>
    requires TableOk(m)
  {
    Oldest(m, m.lru, loaded, Excess(m, cap))
  }

  function Evictable(m: Manager, p: ProjectPath, guard: Guard): bool
    requires TableOk(m)
  {
    Idle(m, p) && (guard.WhenIdle? || m.now >= EntryAt(m, p).lastQuery + guard.timeout)
  }

  /** Writes the snapshot of a dirty entry; a clean one is skipped, a failed write leaves it dirty. */
  function Persisted(m: Manager, v: Victim, ok: bool): Manager
    requires v.entry in m.entries
  {
    var entry := m.entries[v.entry];
    if !entry.dirty || !ok then m
    else m.(entries := m.entries[v.entry := entry.(dirty := false)],
            snapshots := m.snapshots[v.path := Snapshot(entry.version, entry.builtAt)])
  }

  /** The revive guard looks the path up again: whatever entry is there now is removed if evictable. */
  function Removed(m: Manager, victims: seq<Victim>, guard: Guard): (r: (Manager, nat))
    requires TableOk(m)
    ensures TableOk(r.0)
    decreases victims
  {
    if victims == [] then (m, 0)
    else if Evictable(m, victims[0].path, guard) then
      var (m1, n) := Removed(Dropped(m, victims[0].path), victims[1..], guard);
      (m1, n + 1)
    else Removed(m, victims[1..], guard)
  }

  function Released(m: Manager, p: ProjectPath): Manager
    requires TableOk(m)
  {
    if p !in m.projects then m
    else
      var e := m.projects[p];
      m.(entries := m.entries[e := m.entries[e].(active := Decremented(m.entries[e].active))])
  }

  function MarkedDirty(m: Manager, p: ProjectPath): Manager
    requires TableOk(m)
  {
    if p !in m.projects then m
    else
      var e := m.projects[p];
      m.(entries := m.entries[e := m.entries[e].(dirty := true, builtAt := m.now)])
  }

  // ------------------------------------------------------------ order of the LRU list

  predicate NoDuplicates<T(==)>(s: seq<T>) {
    forall i, j :: 0 <= i < j < |s| ==> s[i] != s[j]
  }

  /** Duplicate-free, exactly the loaded projects, ordered by last access, none in the future. */
  ghost predicate LruOk(m: Manager)
    requires TableOk(m)
  {
    && NoDuplicates(m.lru)
    && (forall p :: p in m.lru <==> p in m.projects)
    && (forall i, j :: 0 <= i < j < |m.lru| ==> EntryAt(m, m.lru[i]).lastQuery <= EntryAt(m, m.lru[j]).lastQuery)
    && (forall p :: p in m.projects ==> EntryAt(m, p).lastQuery <= m.now)
  }

  /** Where each element of `Forget(lru, p)` sits in `lru`. */
  ghost function Position(lru: seq<ProjectPath>, p: ProjectPath, i: nat): nat
    decreases |lru|
  {
    if lru == [] then 0
    else if lru[0] == p then 1 + Position(lru[1..], p, i)
    else if i == 0 then 0
    else 1 + Position(lru[1..], p, i - 1)
  }

  lemma {:induction false} ForgetPositions(lru: seq<ProjectPath>, p: ProjectPath, i: nat)
    requires i < |Forget(lru, p)|
    ensures Position(lru, p, i) < |lru| && lru[Position(lru, p, i)] == Forget(lru, p)[i]
    ensures i + 1 < |Forget(lru, p)| ==> Position(lru, p, i) < Position(lru, p, i + 1)
  {
    if lru[0] == p {
      ForgetPositions(lru[1..], p, i);
    } else if i > 0 {
      ForgetPositions(lru[1..], p, i - 1);
    } else if |Forget(lru, p)| > 1 {
      ForgetPositions(lru[1..], p, 0);
    }
  }

  lemma {:induction false} PositionsIncrease(lru: seq<ProjectPath>, p: ProjectPath, i: nat, j: nat)
    requires i < j < |Forget(lru, p)|
    ensures Position(lru, p, i) < Position(lru, p, j)
  {
    ForgetPositions(lru, p, j - 1);
    if i < j - 1 {
      PositionsIncrease(lru, p, i, j - 1);
    }
  }

  lemma ForgetNoDuplicates(lru: seq<ProjectPath>, p: ProjectPath)
    requires NoDuplicates(lru)
    ensures NoDuplicates(Forget(lru, p))
  {
    var r := Forget(lru, p);
    forall i, j | 0 <= i < j < |r| ensures r[i] != r[j] {
      PositionsIncrease(lru, p, i, j);
      ForgetPositions(lru, p, i);
      ForgetPositions(lru, p, j);
    }
  }

  lemma DroppedTable(m: Manager, p: ProjectPath)
    requires TableOk(m)
    ensures TableOk(Dropped(m, p))
    ensures forall q :: q in Dropped(m, p).projects <==> q in m.projects && q != p
    ensures forall q :: q in Dropped(m, p).projects ==> EntryAt(Dropped(m, p), q) == EntryAt(m, q)
  {
    hide Forget;
  }

  lemma ForgetKeepsOrder(m: Manager, p: ProjectPath, i: nat, j: nat)
    requires TableOk(m) && LruOk(m) && i < j < |Forget(m.lru, p)|
    ensures Forget(m.lru, p)[i] in m.projects && Forget(m.lru, p)[j] in m.projects
    ensures EntryAt(m, Forget(m.lru, p)[i]).lastQuery <= EntryAt(m, Forget(m.lru, p)[j]).lastQuery
  {
    hide TableOk, Forget, Position;
    PositionsIncrease(m.lru, p, i, j);
    ForgetPositions(m.lru, p, i);
    ForgetPositions(m.lru, p, j);
  }

  /** Dropping a project keeps the order of the others. */
  lemma DroppedLruOk(m: Manager, p: ProjectPath)
    requires TableOk(m) && LruOk(m)
    ensures TableOk(Dropped(m, p)) && LruOk(Dropped(m, p))
  {
    hide Forget, NoDuplicates, TableOk;
    var m1 := Dropped(m, p);
    DroppedTable(m, p);
    ForgetNoDuplicates(m.lru, p);
    forall i, j | 0 <= i < j < |m1.lru|
      ensures EntryAt(m1, m1.lru[i]).lastQuery <= EntryAt(m1, m1.lru[j]).lastQuery
    {
      ForgetKeepsOrder(m, p, i, j);
    }
  }

  /** The project accessed now goes to the end of the list. */
  lemma AccessedLruOk(m: Manager, p: ProjectPath, m2: Manager)
    requires TableOk(m) && LruOk(m) && TableOk(m2)
    requires m2.now == m.now && m2.lru == RecordAccess(m.lru, p)
    requires m2.projects.Keys == m.projects.Keys + {p}
    requires EntryAt(m2, p).lastQuery == m.now
    requires forall q :: q in m.projects && q != p ==> EntryAt(m2, q).lastQuery == EntryAt(m, q).lastQuery
    ensures LruOk(m2)
  {
    hide Forget, TableOk;
    ForgetNoDuplicates(m.lru, p);
    var r := Forget(m.lru, p);
    assert forall q :: q in m2.lru <==> q in r || q == p;
    forall i, j | 0 <= i < j < |m2.lru|
      ensures m2.lru[i] != m2.lru[j]
      ensures EntryAt(m2, m2.lru[i]).lastQuery <= EntryAt(m2, m2.lru[j]).lastQuery
    {
      assert r[i] in r;
      if j < |r| {
        assert r[j] in r;
        ForgetKeepsOrder(m, p, i, j);
      }
    }
  }

  // ------------------------------------------------------------ who is evicted

  ghost predicate IsVictim(victims: seq<Victim>, p: ProjectPath) {
    exists v :: v in victims && v.path == p
  }

  /** Victims are idle projects other than the one just loaded, at most `over` of them. */
  lemma {:induction false} OldestAreIdle(m: Manager, lru: seq<ProjectPath>, loaded: ProjectPath, over: nat)
    requires TableOk(m)
    ensures |Oldest(m, lru, loaded, over)| <= over
    ensures forall v :: v in Oldest(m, lru, loaded, over) ==>
              v.path in lru && v.path != loaded && Idle(m, v.path) && v.entry == m.projects[v.path]
  {
    if lru != [] && over > 0 {
      assert lru == [lru[0]] + lru[1..];
      if lru[0] != loaded && Idle(m, lru[0]) {
        OldestAreIdle(m, lru[1..], loaded, over - 1);
      } else {
        OldestAreIdle(m, lru[1..], loaded, over);
      }
    }
  }

  /** No idle project that comes before a victim is passed over. */
  lemma {:induction false} OldestSkipsNone(m: Manager, lru: seq<ProjectPath>, loaded: ProjectPath, over: nat, i: nat,
                                           j: nat)
    requires TableOk(m) && NoDuplicates(lru) && i < j < |lru|
    requires IsVictim(Oldest(m, lru, loaded, over), lru[j])
    requires lru[i] != loaded && Idle(m, lru[i])
    ensures IsVictim(Oldest(m, lru, loaded, over), lru[i])
  {
    var all := Oldest(m, lru, loaded, over);
    var v :| v in all && v.path == lru[j];
    if lru[0] != loaded && Idle(m, lru[0]) {
      var rest := Oldest(m, lru[1..], loaded, over - 1);
      assert all == [Victim(lru[0], m.projects[lru[0]])] + rest;
      if i == 0 {
        assert all[0] in all;
      } else {
        assert v in rest;
        OldestSkipsNone(m, lru[1..], loaded, over - 1, i - 1, j - 1);
        var w :| w in rest && w.path == lru[i];
        assert w in all;
      }
    } else {
      assert all == Oldest(m, lru[1..], loaded, over);
      OldestSkipsNone(m, lru[1..], loaded, over, i - 1, j - 1);
    }
  }

  /** Fewer victims than asked for means that every other idle project is a victim. */
  lemma {:induction false} OldestExhausts(m: Manager, lru: seq<ProjectPath>, loaded: ProjectPath, over: nat,
                                          p: ProjectPath)
    requires TableOk(m) && |Oldest(m, lru, loaded, over)| < over
    requires p in lru && p != loaded && Idle(m, p)
    ensures IsVictim(Oldest(m, lru, loaded, over), p)
  {
    var all := Oldest(m, lru, loaded, over);
    assert lru == [lru[0]] + lru[1..];
    if lru[0] != loaded && Idle(m, lru[0]) {
      var rest := Oldest(m, lru[1..], loaded, over - 1);
      assert all == [Victim(lru[0], m.projects[lru[0]])] + rest;
      if p == lru[0] {
        assert all[0] in all;
      } else {
        OldestExhausts(m, lru[1..], loaded, over - 1, p);
        var w :| w in rest && w.path == p;
        assert w in all;
      }
    } else {
      OldestExhausts(m, lru[1..], loaded, over, p);
    }
  }

  /**
    The count cap evicts by age: a victim is idle, and every idle project other than the one just
    loaded that was accessed strictly earlier than a victim is a victim too.
   */
  lemma CapEvictsOldest(m: Manager, loaded: ProjectPath, cap: nat, v: Victim, q: ProjectPath)
    requires TableOk(m) && LruOk(m) && v in CapVictims(m, loaded, cap)
    ensures Idle(m, v.path) && v.path != loaded
    ensures q in m.projects && q != loaded && Idle(m, q) && EntryAt(m, q).lastQuery < EntryAt(m, v.path).lastQuery ==>
              IsVictim(CapVictims(m, loaded, cap), q)
  {
    hide TableOk, Oldest, IsVictim, NoDuplicates;
    var over := Excess(m, cap);
    OldestAreIdle(m, m.lru, loaded, over);
    if q in m.projects && q != loaded && Idle(m, q) && EntryAt(m, q).lastQuery < EntryAt(m, v.path).lastQuery {
      var j :| 0 <= j < |m.lru| && m.lru[j] == v.path;
      var i :| 0 <= i < |m.lru| && m.lru[i] == q;
      ListedVictim(CapVictims(m, loaded, cap), v);
      OldestSkipsNone(m, m.lru, loaded, over, i, j);
    }
  }

  lemma ListedVictim(victims: seq<Victim>, v: Victim)
    requires v in victims
    ensures IsVictim(victims, v.path)
  {
  }

  // ------------------------------------------------------------ removal

  lemma NoVictims()
    ensures forall q :: !IsVictim([], q)
  {
  }

  lemma VictimsSplit(victims: seq<Victim>)
    requires victims != []
    ensures forall q :: IsVictim(victims, q) <==> q == victims[0].path || IsVictim(victims[1..], q)
  {
    assert victims == [victims[0]] + victims[1..];
    assert victims[0] in victims;
  }

  /** Only evictable projects leave, with their place in the list; entries and snapshots are untouched. */
  lemma {:induction false} RemovedEffect(m: Manager, victims: seq<Victim>, guard: Guard)
    requires TableOk(m)
    ensures var r := Removed(m, victims, guard);
            && r.0 == m.(projects := r.0.projects, lru := r.0.lru)
            && (forall p :: p in r.0.projects ==> p in m.projects && r.0.projects[p] == m.projects[p])
            && (forall p :: p in m.projects && p !in r.0.projects ==> Evictable(m, p, guard) && IsVictim(victims, p))
            && (forall p :: p in m.projects && IsVictim(victims, p) && Evictable(m, p, guard) ==> p !in r.0.projects)
            && |r.0.projects| + r.1 == |m.projects|
    decreases victims
  {
    hide IsVictim, Forget, TableOk;
    if victims == [] {
      NoVictims();
    } else {
      var p, rest := victims[0].path, victims[1..];
      VictimsSplit(victims);
      if Evictable(m, p, guard) {
        var m1 := Dropped(m, p);
        DroppedTable(m, p);
        assert m1.projects.Keys == m.projects.Keys - {p};
        assert |m1.projects| == |m.projects| - 1;
        assert forall q :: q in m1.projects ==> (Evictable(m1, q, guard) <==> Evictable(m, q, guard));
        RemovedEffect(m1, rest, guard);
      } else {
        RemovedEffect(m, rest, guard);
      }
    }
  }

  lemma {:induction false} RemovedLruOk(m: Manager, victims: seq<Victim>, guard: Guard)
    requires TableOk(m) && LruOk(m)
    ensures LruOk(Removed(m, victims, guard).0)
    decreases victims
  {
    hide LruOk, TableOk, Evictable, Dropped;
    if victims != [] {
      if Evictable(m, victims[0].path, guard) {
        DroppedLruOk(m, victims[0].path);
        RemovedLruOk(Dropped(m, victims[0].path), victims[1..], guard);
      } else {
        RemovedLruOk(m, victims[1..], guard);
      }
    }
  }
}
