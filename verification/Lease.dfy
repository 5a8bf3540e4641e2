/** The lease on one session path (internal/agent/session_lease.go), as the steps that threads
    of any number of processes interleave. */
module Lease {
  import opened Text

  /** Where a thread is in TryAcquireSessionLease or Release. Releasing has still to remove the
      info file, Removed to unlock, Unlocked to drop its owner entry. */
  datatype Pc = Idle | Claimed | Failing | Locked | Held | Releasing | Removed | Unlocked | Dead

  datatype Thread = Thread(process: nat, pc: Pc)

  /** owners holds the processes whose owner map has the path, lock the thread with the file
      lock, info the process the info file names. */
  datatype State = State(owners: set<nat>, lock: Option<nat>, info: Option<nat>, threads: seq<Thread>)

  /** ok = false is the failing file operation. */
  datatype Step =
    | Spawn(process: nat)
    | LoadOrStore(i: nat)
    | TryLock(i: nat, ok: bool)
    | DropFailed(i: nat)
    | SaveInfo(i: nat, ok: bool)
    | StartRelease(i: nat)
    | RemoveInfo(i: nat, ok: bool)
    | Unlock(i: nat)
    | DropOwner(i: nat)
    | Crash(process: nat)

  predicate At(s: State, i: nat, pc: Pc) {
    i < |s.threads| && s.threads[i].pc == pc
  }

  predicate Enabled(s: State, step: Step) {
    match step
    case Spawn(_) => true
    case LoadOrStore(i) => At(s, i, Idle)
    case TryLock(i, _) => At(s, i, Claimed)
    case DropFailed(i) => At(s, i, Failing)
    case SaveInfo(i, _) => At(s, i, Locked)
    case StartRelease(i) => At(s, i, Held)
    case RemoveInfo(i, _) => At(s, i, Releasing)
    case Unlock(i) => At(s, i, Removed)
    case DropOwner(i) => At(s, i, Unlocked)
    case Crash(_) => true
  }

  function Moved(threads: seq<Thread>, i: nat, pc: Pc): seq<Thread>
    requires i < |threads|
  {
    threads[i := threads[i].(pc := pc)]
  }

  function Killed(threads: seq<Thread>, process: nat): seq<Thread> {
    seq(|threads|, i requires 0 <= i < |threads| =>
      if threads[i].process == process then threads[i].(pc := Dead) else threads[i])
  }

  function Apply(s: State, step: Step): State
    requires Enabled(s, step)
  {
    match step
    case Spawn(process) => s.(threads := s.threads + [Thread(process, Idle)])
    case LoadOrStore(i) =>
      if s.threads[i].process in s.owners then s
      else s.(owners := s.owners + {s.threads[i].process}, threads := Moved(s.threads, i, Claimed))
    case TryLock(i, ok) =>
      if ok && s.lock.None? then s.(lock := Some(i), threads := Moved(s.threads, i, Locked))
      else s.(threads := Moved(s.threads, i, Failing))
    case SaveInfo(i, ok) =>
      if ok then s.(info := Some(s.threads[i].process), threads := Moved(s.threads, i, Held))
      else s.(threads := Moved(s.threads, i, Releasing))
    case StartRelease(i) => s.(threads := Moved(s.threads, i, Releasing))
    case RemoveInfo(i, ok) => s.(info := if ok then None else s.info, threads := Moved(s.threads, i, Removed))
    case Unlock(i) => s.(lock := None, threads := Moved(s.threads, i, Unlocked))
    case DropFailed(i) => s.(owners := s.owners - {s.threads[i].process}, threads := Moved(s.threads, i, Idle))
    case DropOwner(i) => s.(owners := s.owners - {s.threads[i].process}, threads := Moved(s.threads, i, Idle))
    case Crash(process) =>
      State(s.owners - {process},
            if s.lock.Some? && s.lock.value < |s.threads| && s.threads[s.lock.value].process == process then None
            else s.lock,
            s.info, Killed(s.threads, process))
  }

  predicate CanRun(s: State, steps: seq<Step>)
    decreases |steps|
  {
    steps == [] || (Enabled(s, steps[0]) && CanRun(Apply(s, steps[0]), steps[1..]))
  }

  function Run(s: State, steps: seq<Step>): State
    requires CanRun(s, steps)
    decreases |steps|
  {
    if steps == [] then s else Run(Apply(s, steps[0]), steps[1..])
  }

  lemma {:induction false} RunAppend(s: State, steps: seq<Step>, step: Step)
    requires CanRun(s, steps) && Enabled(Run(s, steps), step)
    ensures CanRun(s, steps + [step]) && Run(s, steps + [step]) == Apply(Run(s, steps), step)
    decreases |steps|
  {
    hide Enabled, Apply;
    if steps == [] {
      assert [step][1..] == [];
      assert [] + [step] == [step];
    } else {
      RunAppend(Apply(s, steps[0]), steps[1..], step);
      assert (steps + [step])[1..] == steps[1..] + [step];
    }
  }

  /** The shared state as the two operations change it, one step after another. */
  class LeaseState {
    var owners: set<nat>
    var lock: Option<nat>
    var info: Option<nat>
    var threads: seq<Thread>

    function Value(): State
      reads this
    {
      State(owners, lock, info, threads)
    }

    /** Steps of other threads may come first in a run; here the call runs alone. lockOk and
        infoOk say whether the two file operations work. */
    method TryAcquireSessionLease(i: nat, lockOk: bool, infoOk: bool) returns (acquired: bool, ghost steps: seq<Step>)
      requires At(Value(), i, Idle)
      modifies this
      ensures CanRun(old(Value()), steps) && Value() == Run(old(Value()), steps)
      ensures acquired <==> old(threads[i].process) !in old(owners) && old(lock).None? && lockOk && infoOk
      ensures At(Value(), i, if acquired then Held else Idle)
      ensures !acquired ==> owners == old(owners) && lock == old(lock)
    {
      ghost var start := Value();
      var me := threads[i].process;
      steps := [LoadOrStore(i)];
      assert CanRun(start, []) && Run(start, []) == start;
      hide CanRun, Run;
      RunAppend(start, [], LoadOrStore(i));
      assert [] + steps == steps;
      if me in owners {
        return false, steps;
      }
      owners, threads := owners + {me}, Moved(threads, i, Claimed);
      assert Value() == Run(start, steps);
      RunAppend(start, steps, TryLock(i, lockOk));
      steps := steps + [TryLock(i, lockOk)];
      if !lockOk || lock.Some? {
        threads := Moved(threads, i, Failing);
        RunAppend(start, steps, DropFailed(i));
        steps := steps + [DropFailed(i)];
        owners, threads := owners - {me}, Moved(threads, i, Idle);
        return false, steps;
      }
      lock, threads := Some(i), Moved(threads, i, Locked);
      RunAppend(start, steps, SaveInfo(i, infoOk));
      steps := steps + [SaveInfo(i, infoOk)];
      if infoOk {
        info, threads := Some(me), Moved(threads, i, Held);
        return true, steps;
      }
      threads := Moved(threads, i, Releasing);
      steps := ReleaseSteps(i, start, steps);
      acquired := false;
    }

    /** The body of Release: info file, file lock, owner entry, in that order. */
    method ReleaseSteps(i: nat, ghost start: State, ghost before: seq<Step>) returns (ghost steps: seq<Step>)
      requires At(Value(), i, Releasing) && CanRun(start, before) && Value() == Run(start, before)
      modifies this
      ensures CanRun(start, steps) && Value() == Run(start, steps)
      ensures At(Value(), i, Idle) && |threads| == |old(threads)| && threads[i].process == old(threads[i].process)
      ensures owners == old(owners) - {old(threads[i].process)} && lock.None? && info.None?
    {
      hide CanRun, Run;
      RunAppend(start, before, RemoveInfo(i, true));
      steps := before + [RemoveInfo(i, true)];
      info, threads := None, Moved(threads, i, Removed);
      RunAppend(start, steps, Unlock(i));
      steps := steps + [Unlock(i)];
      lock, threads := None, Moved(threads, i, Unlocked);
      RunAppend(start, steps, DropOwner(i));
      steps := steps + [DropOwner(i)];
      owners, threads := owners - {threads[i].process}, Moved(threads, i, Idle);
    }

    method Release(i: nat) returns (ghost steps: seq<Step>)
      requires At(Value(), i, Held)
      modifies this
      ensures CanRun(old(Value()), steps) && Value() == Run(old(Value()), steps)
      ensures At(Value(), i, Idle) && owners == old(owners) - {old(threads[i].process)} && lock.None? && info.None?
    {
      ghost var start := Value();
      assert CanRun(start, []) && Run(start, []) == start;
      hide CanRun, Run;
      RunAppend(start, [], StartRelease(i));
      assert [] + [StartRelease(i)] == [StartRelease(i)];
      threads := Moved(threads, i, Releasing);
      steps := ReleaseSteps(i, start, [StartRelease(i)]);
    }
  }

  // ----- the invariant -----

  predicate HasLock(pc: Pc) {
    pc.Locked? || pc.Held? || pc.Releasing? || pc.Removed?
  }

  predicate HasEntry(pc: Pc) {
    pc.Claimed? || pc.Failing? || HasLock(pc) || pc.Unlocked?
  }

  predicate InProgress(s: State, i: int) {
    0 <= i < |s.threads| && HasEntry(s.threads[i].pc)
  }

  predicate LockExact(s: State) {
    (s.lock.Some? ==> s.lock.value < |s.threads|) &&
    forall i {:trigger s.threads[i]} :: 0 <= i < |s.threads| ==> (HasLock(s.threads[i].pc) <==> s.lock == Some(i))
  }

  /** Each process with an entry has exactly one call in progress. */
  ghost predicate EntriesExact(s: State) {
    (forall i :: InProgress(s, i) ==> s.threads[i].process in s.owners) &&
    (forall p :: p in s.owners ==> exists i :: InProgress(s, i) && s.threads[i].process == p) &&
    (forall i, j :: InProgress(s, i) && InProgress(s, j) && s.threads[i].process == s.threads[j].process ==> i == j)
  }

  predicate HeldNamed(s: State) {
    forall i {:trigger s.threads[i]} ::
      0 <= i < |s.threads| && s.threads[i].pc.Held? ==> s.info == Some(s.threads[i].process)
  }

  ghost predicate Inv(s: State) {
    LockExact(s) && EntriesExact(s) && HeldNamed(s)
  }

  lemma LockStep(s: State, step: Step)
    requires LockExact(s) && Enabled(s, step)
    ensures LockExact(Apply(s, step))
  {
  }

  /** Thread i moves on: a call that starts brings its entry, one that ends takes it away. */
  lemma EntriesMoved(s: State, s': State, i: nat, pc: Pc)
    requires EntriesExact(s) && i < |s.threads| && s'.threads == Moved(s.threads, i, pc)
    requires var p := s.threads[i].process;
      if InProgress(s, i) == HasEntry(pc) then s'.owners == s.owners
      else if HasEntry(pc) then p !in s.owners && s'.owners == s.owners + {p}
      else s'.owners == s.owners - {p}
    ensures EntriesExact(s')
  {
    hide HasEntry;
    assert forall j :: j != i ==> InProgress(s', j) == InProgress(s, j);
    assert InProgress(s', i) == HasEntry(pc);
    assert forall j :: 0 <= j < |s.threads| ==> s'.threads[j].process == s.threads[j].process;
    forall p | p in s'.owners ensures exists j :: InProgress(s', j) && s'.threads[j].process == p {
      if p in s.owners {
        var j :| InProgress(s, j) && s.threads[j].process == p;
        assert InProgress(s', j);
      } else {
        assert InProgress(s', i);
      }
    }
  }

  lemma EntriesCrash(s: State, process: nat)
    requires EntriesExact(s)
    ensures EntriesExact(Apply(s, Crash(process)))
  {
    var s' := Apply(s, Crash(process));
    assert forall j :: InProgress(s', j) <==> InProgress(s, j) && s.threads[j].process != process;
    hide HasEntry;
    forall p | p in s'.owners ensures exists j :: InProgress(s', j) && s'.threads[j].process == p {
      var j :| InProgress(s, j) && s.threads[j].process == p;
      assert InProgress(s', j);
    }
  }

  lemma EntriesSpawn(s: State, s': State, process: nat)
    requires EntriesExact(s) && s'.owners == s.owners && s'.threads == s.threads + [Thread(process, Idle)]
    ensures EntriesExact(s')
  {
    var n := |s.threads|;
    assert !HasEntry(s'.threads[n].pc);
    hide HasEntry;
    assert forall j :: InProgress(s, j) ==> InProgress(s', j) && s'.threads[j] == s.threads[j];
    assert forall j :: InProgress(s', j) ==> InProgress(s, j) && s'.threads[j] == s.threads[j];
    hide InProgress;
    forall p | p in s'.owners ensures exists j :: InProgress(s', j) && s'.threads[j].process == p {
      var j :| InProgress(s, j) && s.threads[j].process == p;
      assert InProgress(s', j);
    }
  }

  lemma EntriesStep(s: State, step: Step)
    requires EntriesExact(s) && Enabled(s, step)
    ensures EntriesExact(Apply(s, step))
  {
    var s' := Apply(s, step);
    hide EntriesExact;
    match step
    case Spawn(process) => EntriesSpawn(s, s', process);
    case Crash(process) => EntriesCrash(s, process);
    case LoadOrStore(i) =>
      if s.threads[i].process !in s.owners {
        EntriesMoved(s, s', i, Claimed);
      }
    case TryLock(i, _) => EntriesMoved(s, s', i, s'.threads[i].pc);
    case DropFailed(i) => EntriesMoved(s, s', i, Idle);
    case SaveInfo(i, _) => EntriesMoved(s, s', i, s'.threads[i].pc);
    case StartRelease(i) => EntriesMoved(s, s', i, Releasing);
    case RemoveInfo(i, _) => EntriesMoved(s, s', i, Removed);
    case Unlock(i) => EntriesMoved(s, s', i, Unlocked);
    case DropOwner(i) => EntriesMoved(s, s', i, Idle);
  }

  lemma NamedStep(s: State, step: Step)
    requires LockExact(s) && HeldNamed(s) && Enabled(s, step)
    ensures HeldNamed(Apply(s, step))
  {
  }

  lemma {:induction false} RunInv(s: State, steps: seq<Step>)
    requires Inv(s) && CanRun(s, steps)
    ensures Inv(Run(s, steps))
    decreases |steps|
  {
    hide LockExact, EntriesExact, HeldNamed, Enabled, Apply;
    if steps != [] {
      LockStep(s, steps[0]);
      EntriesStep(s, steps[0]);
      NamedStep(s, steps[0]);
      RunInv(Apply(s, steps[0]), steps[1..]);
    }
  }

  /** Before any process uses the path; an info file may be left over from a crash. */
  function Fresh(info: Option<nat>): State {
    State({}, None, info, [])
  }

  /** In every interleaving, crashes and failing file operations included: two threads never
      have the lease, and a held lease is the one the info file names. */
  lemma OneLease(info: Option<nat>, steps: seq<Step>, i: nat, j: nat)
    requires CanRun(Fresh(info), steps)
    requires var s := Run(Fresh(info), steps);
      i < |s.threads| && j < |s.threads| && HasLock(s.threads[i].pc) && HasLock(s.threads[j].pc)
    ensures i == j
    ensures var s := Run(Fresh(info), steps); s.threads[i].pc.Held? ==> s.info == Some(s.threads[i].process)
  {
    RunInv(Fresh(info), steps);
  }

  /** In every interleaving a process's owner entry is there exactly while one of its calls is
      in progress or its lease is held: a failed acquire leaves none. */
  lemma NoStrayEntry(info: Option<nat>, steps: seq<Step>, p: nat)
    requires CanRun(Fresh(info), steps)
    ensures var s := Run(Fresh(info), steps);
      p in s.owners <==> exists i :: InProgress(s, i) && s.threads[i].process == p
    ensures var s := Run(Fresh(info), steps);
      forall i, j :: InProgress(s, i) && InProgress(s, j) && s.threads[i].process == s.threads[j].process ==> i == j
  {
    RunInv(Fresh(info), steps);
  }

  /** When nothing is in progress, or everyone crashed, the path can be leased again. */
  lemma FreeAgain(info: Option<nat>, steps: seq<Step>)
    requires CanRun(Fresh(info), steps)
    requires var s := Run(Fresh(info), steps); forall i :: !InProgress(s, i)
    ensures var s := Run(Fresh(info), steps); s.owners == {} && s.lock.None?
  {
    RunInv(Fresh(info), steps);
    var s := Run(Fresh(info), steps);
    if s.lock.Some? {
      assert InProgress(s, s.lock.value);
    }
  }
}
