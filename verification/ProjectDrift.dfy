/** What `active_queries` counts in any run, disciplined or not. */
module ProjectDrift {
  import opened Symbols
  import opened ProjectTable
  import opened ProjectManagers
  import opened ProjectProtocol
  import opened ProjectRuns
  import opened ProjectAccounting

  const MODULUS: nat := USIZE_MAX + 1

  /** The action releases another entry of the path where `c` is loaded, so `c` is decremented in its place. */
  predicate Misses(w: World, a: Action, c: EntryId) {
    a.Release? && a.entry != c && a.entry in w.m.entries && LoadedAs(w.m, Victim(w.m.entries[a.entry].path, c))
  }

  function MissCount(ws: seq<World>, steps: seq<Action>, i: nat, c: EntryId): (r: nat)
    requires i <= |steps| && |ws| == |steps| + 1
    ensures r <= i
    ensures r == 0 <==> forall j :: 0 <= j < i ==> !Misses(ws[j], steps[j], c)
  {
    if i == 0 then 0 else MissCount(ws, steps, i - 1, c) + if Misses(ws[i - 1], steps[i - 1], c) then 1 else 0
  }

  // ------------------------------------------------------------ one step

  /** How one step moves the counter and the callers of an entry. */
  datatype Move = Up | Down | Missed | Still

  function MoveOf(w: World, a: Action, c: EntryId): Move
    requires TableOk(w.m) && Enabled(w, a)
  {
    if a.LookUp? && Lookup(w.m, a.path, a.policy, a.newer).1 == Hit(c) then Up
    else if a == Release(c) then Down
    else if Misses(w, a, c) then Missed
    else Still
  }

  ghost predicate Moves(w: World, w2: World, c: EntryId, move: Move) {
    && c in w.m.entries && c in w2.m.entries
    && w2.m.entries[c].active == (match move
         case Up => Incremented(w.m.entries[c].active)
         case Still => w.m.entries[c].active
         case _ => Decremented(w.m.entries[c].active))
    && w2.held[c] == w.held[c] as int + (match move case Up => 1 case Down => -1 case _ => 0)
  }

  lemma LookupMoves(w: World, a: Action, c: EntryId)
    requires Inv(w) && Enabled(w, a) && a.LookUp? && IsCurrent(Apply(w, a).m, c)
    ensures IsCurrent(w.m, c) && Moves(w, Apply(w, a), c, MoveOf(w, a, c))
  {
    hide Inv, Forget, TableOk;
    InvTable(w);
    LoadedHaveEntries(w.m);
  }

  lemma ReleaseMoves(w: World, e: EntryId, c: EntryId)
    requires Inv(w) && Enabled(w, Release(e)) && IsCurrent(Apply(w, Release(e)).m, c)
    ensures IsCurrent(w.m, c) && Moves(w, Apply(w, Release(e)), c, MoveOf(w, Release(e), c))
  {
    hide Inv, TableOk;
    InvTable(w);
    LoadedHaveEntries(w.m);
  }

  /** Steps that add no caller and leave every counter alone. */
  lemma StillMoves(w: World, w2: World, c: EntryId)
    requires IsCurrent(w2.m, c) && w2.held == w.held && w2.m.entries.Keys == w.m.entries.Keys
    requires forall e :: e in w.m.entries ==>
               w2.m.entries[e].active == w.m.entries[e].active && w2.m.entries[e].path == w.m.entries[e].path
    requires forall p :: p in w2.m.projects ==> p in w.m.projects && w2.m.projects[p] == w.m.projects[p]
    ensures IsCurrent(w.m, c) && Moves(w, w2, c, Still)
  {
  }

  lemma FinishMoves(w: World, t: ThreadId, result: Option<BuiltGraph>, cap: nat, c: EntryId)
    requires Inv(w) && Enabled(w, Finish(t, result, cap)) && IsCurrent(Apply(w, Finish(t, result, cap)).m, c)
    ensures var w2 := Apply(w, Finish(t, result, cap));
            if c in w.m.entries then IsCurrent(w.m, c) && Moves(w, w2, c, Still)
            else w2.m.entries[c].active == 1 && w2.held[c] == w.held[c] + 1
  {
    hide Inv, Forget, TableOk, CapVictims;
    InvTable(w);
    BuilderIsAlone(w, t);
  }

  lemma RemoveMoves(w: World, t: ThreadId, c: EntryId)
    requires Inv(w) && Enabled(w, RemoveNow(t)) && IsCurrent(Apply(w, RemoveNow(t)).m, c)
    ensures IsCurrent(w.m, c) && Moves(w, Apply(w, RemoveNow(t)), c, Still)
  {
    hide Inv, TableOk, Removed, IsVictim, Evictable;
    InvTable(w);
    RemovedEffect(w.m, PcOf(w, t).victims, PcOf(w, t).guard);
    StillMoves(w, Apply(w, RemoveNow(t)), c);
  }

  /** Steps that only move a thread. */
  lemma ThreadMoves(w: World, a: Action, c: EntryId)
    requires TableOk(w.m) && Enabled(w, a) && IsCurrent(Apply(w, a).m, c)
    requires a.ReadSnapshot? || a.Sweep? || a.ShutDown? || a.NoteLoaded? || a.Choose? || a.StopBudget?
    ensures IsCurrent(w.m, c) && Moves(w, Apply(w, a), c, MoveOf(w, a, c))
  {
    hide Moves, IsCurrent, TableOk, DistinctPaths, Evictable, LoadedAs;
    assert Apply(w, a).m == w.m;
    StillMoves(w, Apply(w, a), c);
  }

  lemma OtherMoves(w: World, a: Action, c: EntryId)
    requires TableOk(w.m) && Enabled(w, a) && IsCurrent(Apply(w, a).m, c)
    requires a.PersistNext? || a.Mutate? || a.MarkDirty? || a.Unload? || a.Tick? || a.CollectGone?
    ensures IsCurrent(w.m, c) && Moves(w, Apply(w, a), c, MoveOf(w, a, c))
  {
    hide Moves, IsCurrent, TableOk, Forget, LoadedAs;
    LoadedHaveEntries(w.m);
    if a.PersistNext? {
      PersistedOk(w.m, PcOf(w, a.t).victims[PcOf(w, a.t).next], a.ok);
      hide Persisted;
      StillMoves(w, Apply(w, a), c);
    } else {
      StillMoves(w, Apply(w, a), c);
    }
  }

  /** A loaded entry was loaded before the step, or the step installed it with its first caller. */
  lemma StepMoves(w: World, a: Action, c: EntryId)
    requires Inv(w) && TableOk(w.m) && Enabled(w, a) && IsCurrent(Apply(w, a).m, c)
    ensures if c in w.m.entries then IsCurrent(w.m, c) && Moves(w, Apply(w, a), c, MoveOf(w, a, c))
            else Apply(w, a).m.entries[c].active == 1 && Apply(w, a).held[c] == w.held[c] + 1
  {
    hide Inv, TableOk, Moves, IsCurrent, Apply, Enabled, MoveOf;
    match a {
      case LookUp(t, p, policy, newer) =>
        LookupMoves(w, a, c);
        CurrentHasEntry(w.m, c);
      case Finish(t, result, cap) =>
        FinishMoves(w, t, result, cap, c);
        NoCallerMoves(w, a, c);
      case Release(e) =>
        ReleaseMoves(w, e, c);
        CurrentHasEntry(w.m, c);
      case RemoveNow(t) =>
        RemoveMoves(w, t, c);
        NoCallerMoves(w, a, c);
        CurrentHasEntry(w.m, c);
      case _ =>
        if a.PersistNext? || a.Mutate? || a.MarkDirty? || a.Unload? || a.Tick? || a.CollectGone? {
          OtherMoves(w, a, c);
        } else {
          ThreadMoves(w, a, c);
        }
        CurrentHasEntry(w.m, c);
    }
  }

  lemma NoCallerMoves(w: World, a: Action, c: EntryId)
    requires TableOk(w.m) && Enabled(w, a) && (a.Finish? || a.RemoveNow?)
    ensures MoveOf(w, a, c) == Still
  {
  }

  lemma CurrentHasEntry(m: Manager, c: EntryId)
    requires IsCurrent(m, c)
    ensures c in m.entries
  {
  }

  // ------------------------------------------------------------ what is not there yet

  lemma CallersCountable(w: World, a: Action, c: EntryId)
    requires TableOk(w.m) && Enabled(w, a)
    requires w.held[c] <= USIZE_MAX && (c !in w.m.entries ==> w.held[c] == 0)
    ensures Apply(w, a).held[c] <= USIZE_MAX
  {
    hide Evolves, CapVictims, Evictable, Removed, Persisted, Released, MarkedDirty, Changed, Dropped;
    assert w.m.nextId !in w.m.entries;
    if a.LookUp? {
      var l := Lookup(w.m, a.path, a.policy, a.newer);
      assert l.1.Hit? ==>
               a.path in w.m.projects && !MustRebuild(a.policy, a.newer) && l.1.entry == w.m.projects[a.path];
    }
  }

  /** Nobody holds an id that has not been handed out. */
  lemma CallersGrow(w: World, a: Action, c: EntryId)
    requires Inv(w) && TableOk(w.m) && Enabled(w, a)
    ensures c in w.m.entries ==> c in Apply(w, a).m.entries
    ensures c !in Apply(w, a).m.entries && w.held[c] == 0 ==> Apply(w, a).held[c] == 0
  {
    hide Inv, TableOk, Evolves, CapVictims, Forget, Evictable, Removed, Persisted, Released, MarkedDirty, Changed,
         Dropped;
    TableStep(w, a);
    EvolvesKeeps(w.m, Apply(w, a).m, c);
    LoadedHaveEntries(w.m);
  }

  lemma EvolvesKeeps(m: Manager, m2: Manager, c: EntryId)
    requires Evolves(m, m2)
    ensures c in m.entries ==> c in m2.entries
  {
    hide TableOk;
  }

  lemma {:induction false} Callers(ws: seq<World>, steps: seq<Action>, i: nat, c: EntryId)
    requires IsRun(ws, steps) && i < |ws|
    ensures ws[i].held[c] <= USIZE_MAX
    ensures c !in ws[i].m.entries ==> ws[i].held[c] == 0 && MissCount(ws, steps, i, c) == 0
  {
    hide Safe, Enabled, Apply, TableOk, Misses;
    if i > 0 {
      Callers(ws, steps, i - 1, c);
      RunIsSafe(ws, steps, i - 1);
      SafeInv(ws[i - 1]);
      CallersGrow(ws[i - 1], steps[i - 1], c);
      CallersCountable(ws[i - 1], steps[i - 1], c);
      if c !in ws[i - 1].m.entries {
        NoMissYet(ws[i - 1], steps[i - 1], c);
      }
    }
  }

  lemma NoMissYet(w: World, a: Action, c: EntryId)
    requires TableOk(w.m) && c !in w.m.entries
    ensures !Misses(w, a, c)
  {
  }

  // ------------------------------------------------------------ the law of the counter

  /** A counter plus its misses is the number of its callers, up to a turn of the 64-bit counter. */
  ghost predicate Law(active: usize, misses: nat, held: nat) {
    exists turns: int :: Balanced(active, misses, held, turns)
  }

  predicate Balanced(active: usize, misses: nat, held: nat, turns: int) {
    active + misses == held + turns * MODULUS
  }

  lemma LawMoves(active: usize, misses: nat, held: nat, move: Move)
    requires Law(active, misses, held) && (move.Down? ==> held > 0)
    ensures move.Up? ==> Law(Incremented(active), misses, held + 1)
    ensures move.Down? ==> Law(Decremented(active), misses, held - 1)
    ensures move.Missed? ==> Law(Decremented(active), misses + 1, held)
  {
    var turns: int :| Balanced(active, misses, held, turns);
    assert Balanced(Incremented(active), misses, held + 1, if active == USIZE_MAX then turns - 1 else turns);
    if held > 0 {
      assert Balanced(Decremented(active), misses, held - 1, if active == 0 then turns + 1 else turns);
    }
    assert Balanced(Decremented(active), misses + 1, held, if active == 0 then turns + 1 else turns);
  }

  lemma MissRecorded(ws: seq<World>, steps: seq<Action>, i: nat, c: EntryId)
    requires IsRun(ws, steps) && i < |steps|
    ensures MissCount(ws, steps, i + 1, c) ==
            MissCount(ws, steps, i, c) + if MoveOf(ws[i], steps[i], c).Missed? then 1 else 0
  {
    hide TableOk, Lookup;
    HitIsNoRelease(ws[i], steps[i], c);
  }

  lemma HitIsNoRelease(w: World, a: Action, c: EntryId)
    requires TableOk(w.m) && Enabled(w, a)
    ensures MoveOf(w, a, c).Missed? <==> Misses(w, a, c)
  {
    hide TableOk, Lookup;
  }

  lemma DownHeld(w: World, a: Action, c: EntryId)
    requires TableOk(w.m) && Enabled(w, a) && MoveOf(w, a, c).Down?
    ensures w.held[c] > 0
  {
    hide TableOk, Lookup;
  }

  /** In every run, every loaded counter obeys the law. */
  lemma {:induction false} CounterLaw(ws: seq<World>, steps: seq<Action>, i: nat, c: EntryId)
    requires IsRun(ws, steps) && i < |ws| && IsCurrent(ws[i].m, c)
    ensures Law(ws[i].m.entries[c].active, MissCount(ws, steps, i, c), ws[i].held[c])
  {
    hide Safe, Enabled, Apply, TableOk, Misses, Law, MissCount, IsCurrent, MoveOf;
    if i == 0 {
      NothingAtStart(c);
    } else {
      var w, a := ws[i - 1], steps[i - 1];
      RunIsSafe(ws, steps, i - 1);
      SafeInv(w);
      StepMoves(w, a, c);
      Callers(ws, steps, i - 1, c);
      MissRecorded(ws, steps, i - 1, c);
      if c in w.m.entries {
        CounterLaw(ws, steps, i - 1, c);
        if MoveOf(w, a, c).Down? {
          DownHeld(w, a, c);
        }
        LawMoves(w.m.entries[c].active, MissCount(ws, steps, i - 1, c), w.held[c], MoveOf(w, a, c));
      } else {
        Callers(ws, steps, i, c);
        NoMoveYet(w, a, c);
        FirstCaller();
      }
    }
  }

  lemma NothingAtStart(c: EntryId)
    ensures !IsCurrent(Start.m, c)
  {
  }

  lemma FirstCaller()
    ensures Law(1, 0, 1)
  {
    assert Balanced(1, 0, 1, 0);
  }

  lemma NoMoveYet(w: World, a: Action, c: EntryId)
    requires TableOk(w.m) && Enabled(w, a) && c !in w.m.entries
    ensures !MoveOf(w, a, c).Missed?
  {
    hide Lookup;
  }

  lemma ModuloOfTurns(misses: nat, gap: int, turns: int)
    requires misses == gap + turns * MODULUS && -(MODULUS as int) < gap < MODULUS
    ensures gap == 0 <==> misses % MODULUS == 0
  {
    var quotient := misses / MODULUS;
    assert misses == quotient * MODULUS + misses % MODULUS;
    if misses % MODULUS == 0 {
      assert gap == (quotient - turns) * MODULUS;
    }
  }

  lemma LawIsExact(active: usize, misses: nat, held: nat)
    requires Law(active, misses, held) && held <= USIZE_MAX
    ensures active == held <==> misses % MODULUS == 0
  {
    var turns: int :| Balanced(active, misses, held, turns);
    ModuloOfTurns(misses, held - active, turns);
  }

  /**
    In any run, the counter of a loaded graph equals its unreleased loads if and only if the releases
    so far that were meant for another entry of its path are a multiple of 2^64: in fewer than 2^64
    steps, if and only if there was none.
   */
  lemma CounterIsExactIff(ws: seq<World>, steps: seq<Action>, i: nat, c: EntryId)
    requires IsRun(ws, steps) && i < |ws| && IsCurrent(ws[i].m, c)
    ensures ws[i].m.entries[c].active == ws[i].held[c] <==> MissCount(ws, steps, i, c) % MODULUS == 0
    ensures i <= USIZE_MAX ==>
              (ws[i].m.entries[c].active == ws[i].held[c] <==> forall j :: 0 <= j < i ==> !Misses(ws[j], steps[j], c))
  {
    hide IsRun, IsCurrent, Law, Misses;
    CurrentHasEntry(ws[i].m, c);
    RunShape(ws, steps);
    CounterLaw(ws, steps, i, c);
    Callers(ws, steps, i, c);
    LawIsExact(ws[i].m.entries[c].active, MissCount(ws, steps, i, c), ws[i].held[c]);
  }

  lemma RunShape(ws: seq<World>, steps: seq<Action>)
    requires IsRun(ws, steps)
    ensures |ws| == |steps| + 1
  {
    hide Enabled, Apply, TableOk;
  }
}
