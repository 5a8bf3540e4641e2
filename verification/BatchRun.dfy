/** executeBatch: its loops follow a schedule of the machine, so what is proved of every schedule
    holds of them, and then come the loop guards. Calls launched together end in any order. */
module BatchRun {
  import opened Text
  import opened Conversation
  import opened Batch
  import opened LoopGuards

  lemma {:induction false} ScheduleAppend<W(!new)>(e: Env<W>, s: State<W>, steps: seq<Step>, step: Step)
    requires Schedule(e, s, steps) && Enabled(e, Reached(e, s, steps), step)
    ensures Schedule(e, s, steps + [step]) && Reached(e, s, steps + [step]) == Apply(e, Reached(e, s, steps), step)
    decreases |steps|
  {
    hide Enabled, Apply;
    if steps == [] {
      assert [step][1..] == [];
      assert [] + [step] == [step];
    } else {
      ScheduleAppend(e, Apply(e, s, steps[0]), steps[1..], step);
      assert (steps + [step])[1..] == steps[1..] + [step];
    }
  }

  class Batcher<W(!new)> {
    const e: Env<W>
    const start: W
    /** The context is cancelled from this look at it on; None for never. */
    const cancelAt: Option<nat>
    const guards: Guards
    const outcomes: array<Outcome>
    const results: array<string>
    /** The calls launched and not ended yet. */
    var running: set<nat>
    var looks: nat
    var world: W
    var ledger: Ledger
    var cancelled: bool
    ghost var s: State<W>
    ghost var steps: seq<Step>

    constructor (reg: Registry, calls: seq<ToolCall>, exec: (nat, W, Ledger, bool) -> (W, Outcome), world: W,
                 cancelAt: Option<nat>, guards: Guards)
      ensures Tracks() && s == Init(e, world) && steps == [] && start == world && this.cancelAt == cancelAt
      ensures fresh(outcomes) && fresh(results) && this.guards == guards
      ensures e.reg == reg && e.calls == calls && e.exec == exec
    {
      var batches := PartitionToolCalls(reg, calls);
      this.e := Env(reg, calls, batches, exec);
      this.start, this.cancelAt, this.guards, this.world, this.ledger := world, cancelAt, guards, world, map[];
      this.running, this.cancelled, this.looks := {}, false, 0;
      this.outcomes := new Outcome[|calls|](_ => Outcome("", "", false));
      this.results := new string[|calls|](_ => "");
      this.s, this.steps := Init(Env(reg, calls, batches, exec), world), [];
      new;
      InitInv(e, world);
      assert RunningSet(s) == {};
    }

    /** s is the state that the schedule so far has reached; without a cancellation planned it
        holds none. */
    ghost predicate OnSchedule()
      reads this`s, this`steps
    {
      ValidEnv(e) && Inv(e, s) && Schedule(e, Init(e, start), steps) && s == Reached(e, Init(e, start), steps) &&
      (cancelAt.None? ==> forall k :: 0 <= k < |steps| ==> steps[k] != Cancel)
    }

    /** The fields are those of s. */
    ghost predicate Matches()
      reads this, outcomes, results
    {
      results.Length == outcomes.Length == |s.slots| == |e.calls| && world == s.world && ledger == s.ledger &&
      cancelled == s.cancelled && !s.ended && (cancelAt.None? ==> !cancelled) && running == RunningSet(s) &&
      forall j ::
        0 <= j < |s.slots| && s.slots[j].Ran? ==> outcomes[j] == s.slots[j].result && results[j] == outcomes[j].output
    }

    ghost predicate Tracks()
      reads this, outcomes, results
    {
      OnSchedule() && Matches()
    }

    ghost method Take(step: Step)
      requires OnSchedule() && Enabled(e, s, step) && (cancelAt.None? ==> step != Cancel)
      modifies this`s, this`steps
      ensures OnSchedule() && s == Apply(e, old(s), step)
    {
      hide Apply, Inv, ValidEnv, Init;
      ScheduleAppend(e, Init(e, start), steps, step);
      StepInv(e, s, step);
      s, steps := Apply(e, s, step), steps + [step];
    }

    /** ctx.Err() != nil. */
    method Look() returns (stop: bool)
      requires Tracks()
      modifies this`looks, this`cancelled, this`s, this`steps
      ensures Tracks() && stop == cancelled && (old(cancelled) ==> cancelled)
      ensures s == if cancelled then old(s).(cancelled := true) else old(s)
    {
      hide OnSchedule;
      if !cancelled && cancelAt.Some? && looks >= cancelAt.value {
        Take(Cancel);
        cancelled := true;
      }
      looks := looks + 1;
      stop := cancelled;
    }

    method StartCall(i: nat)
      requires Tracks() && !cancelled && s.seg < |e.batches| && i == s.next < e.batches[s.seg].end
      requires if e.batches[s.seg].parallel then |running| < MAX_PARALLEL else running == {}
      modifies this`s, this`steps, this`running
      ensures Tracks() && running == old(running) + {i} && s.seg == old(s.seg) && s.next == i + 1
    {
      TakeLaunch();
      hide OnSchedule, RunningSet;
      running := running + {i};
    }

    ghost method TakeLaunch()
      requires OnSchedule() && !s.ended && !s.cancelled && s.seg < |e.batches| && s.next < e.batches[s.seg].end
      requires if e.batches[s.seg].parallel then |RunningSet(s)| < MAX_PARALLEL else RunningSet(s) == {}
      modifies this`s, this`steps
      ensures OnSchedule() && RunningSet(s) == RunningSet(old(s)) + {old(s).next}
      ensures old(s).next < |old(s).slots|
      ensures s == old(s).(slots := old(s).slots[old(s).next := Running], next := old(s).next + 1)
    {
      assert ValidEnv(e) && Inv(e, s);
      hide OnSchedule, ValidEnv, Inv, RunningSet, Enabled, Apply;
      CanLaunch(e, s);
      LaunchRuns(e, s);
      Take(Launch);
    }

    /** One of the running calls ends. */
    method EndCall()
      requires Tracks() && running != {}
      modifies this, outcomes, results
      ensures Tracks() && running < old(running) && |running| + 1 == |old(running)|
      ensures s.seg == old(s.seg) && s.next == old(s.next) && cancelled == old(cancelled)
    {
      hide OnSchedule;
      var i :| i in running;
      FinishRuns(e, s, i);
      hide AnyRunning;
      var (w, outcome) := e.exec(i, world, ledger, cancelled);
      Take(Finish(i));
      Record(i, w, outcome);
      running := running - {i};
    }

    /** While calls run some of them end, and the context may be cancelled. */
    method EndSome()
      requires Tracks()
      modifies this, outcomes, results
      ensures Tracks() && running <= old(running) && |running| <= |old(running)|
      ensures s.seg == old(s.seg) && s.next == old(s.next)
    {
      hide Tracks;
      var n: nat := *;
      while n > 0 && running != {}
        invariant Tracks() && running <= old(running) && |running| <= |old(running)|
        invariant s.seg == old(s.seg) && s.next == old(s.next)
        decreases n
      {
        var _ := Look();
        EndCall();
        n := n - 1;
      }
    }

    method Record(i: nat, w: W, outcome: Outcome)
      requires i < results.Length == outcomes.Length
      modifies this`world, this`ledger, outcomes, results
      ensures world == w && ledger == old(ledger)[i := outcome] && outcomes[i] == outcome &&
        results[i] == outcome.output
      ensures forall j ::
        0 <= j < results.Length && j != i ==> outcomes[j] == old(outcomes[j]) && results[j] == old(results[j])
    {
      outcomes[i], results[i] := outcome, outcome.output;
      world, ledger := w, ledger[i := outcome];
    }

    /** Runs call i to its end; the context may be cancelled meanwhile. */
    method RunCall(i: nat)
      requires Tracks() && !cancelled && running == {} && s.seg < |e.batches| && i == s.next < e.batches[s.seg].end
      modifies this, outcomes, results
      ensures Tracks() && running == {} && s.seg == old(s.seg) && s.next == i + 1
    {
      hide Tracks;
      StartCall(i);
      var _ := Look();
      EndCall();
    }

    /** markCancelled: every call from here on gets the cancelled result. */
    method MarkCancelled(from: nat)
      requires Tracks() && cancelled && running == {} && from == s.next
      modifies this, outcomes, results
      ensures Done() && s.cancelled && cancelAt.Some?
    {
      Idle(s);
      assert forall k :: 0 <= k < |s.slots| ==> if k < from then s.slots[k].Ran? else s.slots[k].Waiting?;
      assert from <= results.Length && Enabled(e, s, Abort);
      hide OnSchedule, CANCELLED, RunningSet, AnyRunning;
      FillCancelled(from);
      Take(Abort);
      SkippedResults(s, outcomes[..], from);
      SameOutputs(outcomes[..], results[..]);
    }

    method FillCancelled(from: nat)
      requires from <= results.Length == outcomes.Length
      modifies outcomes, results
      ensures forall k :: 0 <= k < outcomes.Length ==> outcomes[k] == if k < from then old(outcomes[k]) else CANCELLED
      ensures forall k ::
        0 <= k < results.Length ==> results[k] == if k < from then old(results[k]) else CANCELLED.output
    {
      hide CANCELLED;
      for j := from to results.Length
        invariant forall k :: from <= k < j ==> outcomes[k] == CANCELLED && results[k] == CANCELLED.output
        invariant forall k :: 0 <= k < from ==> outcomes[k] == old(outcomes[k]) && results[k] == old(results[k])
      {
        outcomes[j], results[j] := CANCELLED, CANCELLED.output;
      }
    }

    /** The batch is over: the outcomes are those of an ended schedule, and the results their
        texts. */
    ghost predicate Done()
      reads this, outcomes, results
    {
      OnSchedule() && s.ended && outcomes[..] == Results(s) && world == s.world && results[..] == Outputs(Results(s)) &&
      outcomes.Length == results.Length == |e.calls|
    }

    /** A batch that was not cut short ends with the guards; they may add to its first result. */
    method ExecuteBatch() returns (marked: bool)
      requires Tracks() && s == Init(e, start) && guards.reg == e.reg
      modifies this, outcomes, results, guards
      ensures OnSchedule() && s.ended && outcomes[..] == Results(s) && world == s.world
      ensures results.Length == |e.calls| == |Results(s)|
      ensures marked ==> s.cancelled && results[..] == Outputs(Results(s))
      ensures marked ==> guards.Storm() == old(guards.Storm()) && guards.Reading() == old(guards.Reading())
      ensures !marked ==> guards.Storm() == Advance(old(guards.Storm()), StormSignature(Round(e.calls, Results(s))))
      ensures !marked ==>
        guards.Reading() == Advance(old(guards.Reading()), ReadSignature(guards.t, e.reg, Round(e.calls, Results(s))))
      ensures !marked ==>
        results[..] == Guarded(guards.t, guards.Storm(), guards.Reading(), Round(e.calls, Results(s)))
      ensures cancelAt.None? ==> !marked
      ensures cancelAt.None? && ReadersPure(e) ==> (world, outcomes[..]) == Sequential(e, start, |e.calls|)
    {
      hide ValidEnv, Inv, Init, Schedule, Reached, ReadersPure, Sequential;
      hide StormSignature, ReadSignature, Advance, Guarded;
      marked := RunAll();
      if !marked {
        guards.Apply(e.calls, outcomes[..], results);
      }
    }

    method RunAll() returns (marked: bool)
      requires Tracks() && s == Init(e, start)
      modifies this, outcomes, results
      ensures Done() && (marked ==> s.cancelled && cancelAt.Some?)
      ensures cancelAt.None? && ReadersPure(e) ==> (world, outcomes[..]) == Sequential(e, start, |e.calls|)
    {
      marked := RunSegments();
      if cancelAt.None? && ReadersPure(e) {
        SchedulesAgree(e, start, steps);
      }
    }

    method RunSegments() returns (marked: bool)
      requires Tracks() && s == Init(e, start)
      modifies this, outcomes, results
      ensures Done() && (marked ==> s.cancelled && cancelAt.Some?)
    {
      NoneRunning(e, start);
      hide ValidEnv, Init, Schedule, Reached;
      var k := 0;
      marked := false;
      while k < |e.batches| && !marked
        invariant k <= |e.batches| && marked == s.ended && (marked ==> s.cancelled && cancelAt.Some?)
        invariant if marked then Done() else Tracks() && k == s.seg && running == {} && s.next == EndOf(e.batches, k)
      {
        var stop := Look();
        if stop {
          SegmentBounds(e, s);
          MarkCancelled(e.batches[k].start);
          marked := true;
        } else {
          marked := RunSegment(k);
        }
        k := k + 1;
      }
      if !marked {
        AllRan(e, s);
        Take(Complete);
        assert outcomes[..] == Results(s);
        SameOutputs(outcomes[..], results[..]);
      }
    }

    method RunSegment(k: nat) returns (ended: bool)
      requires Tracks() && !cancelled && k == s.seg < |e.batches| && running == {} && s.next == EndOf(e.batches, k)
      modifies this, outcomes, results
      ensures ended == s.ended && (ended ==> s.cancelled && cancelAt.Some?)
      ensures
        if ended then Done()
        else Tracks() && s.seg == k + 1 && running == {} && s.next == EndOf(e.batches, k + 1)
    {
      hide ValidEnv, Init, Schedule, Reached, Inv;
      var batch := e.batches[k];
      SegmentBounds(e, s);
      var i, stop := batch.start, false;
      if batch.parallel && batch.end - batch.start > 1 {
        i := RunParallel(batch.start, batch.end);
        stop := Look();
      } else {
        while i < batch.end && !stop
          invariant batch.start <= i <= batch.end && Tracks() && stop == cancelled && running == {} && s.seg == k &&
            s.next == i
          decreases batch.end - i, if stop then 0 else 1
        {
          stop := Look();
          if !stop {
            RunCall(i);
            i := i + 1;
            stop := Look();
          }
        }
      }
      if stop {
        MarkCancelled(i);
        return true;
      }
      Idle(s);
      Take(NextSegment);
      ended := false;
    }

    /** runParallel: launches calls, at most eight at a time, until the context is cancelled, waits
        for them, and says how far it came. */
    method RunParallel(from: nat, end: nat) returns (ranUntil: nat)
      requires Tracks() && running == {} && s.seg < |e.batches| && e.batches[s.seg].parallel
      requires from == s.next <= end == e.batches[s.seg].end
      modifies this, outcomes, results
      ensures Tracks() && running == {} && s.seg == old(s.seg) && from <= ranUntil == s.next <= end
      ensures ranUntil == end || cancelled
    {
      hide ValidEnv, Init, Schedule, Reached, Inv, Tracks;
      ranUntil := from;
      var stop := false;
      while ranUntil < end && !stop
        invariant from <= ranUntil == s.next <= end && Tracks() && s.seg == old(s.seg)
        invariant (stop ==> cancelled) && |running| <= MAX_PARALLEL
        decreases end - ranUntil, if stop then 0 else 1
      {
        EndSome();
        stop := Look();
        if !stop {
          stop := AwaitSlot();
        }
        if !stop {
          StartCall(ranUntil);
          ranUntil := ranUntil + 1;
        }
      }
      Wait();
    }

    /** The semaphore: a free place, or the cancellation. */
    method AwaitSlot() returns (stop: bool)
      requires Tracks()
      modifies this, outcomes, results
      ensures Tracks() && running <= old(running) && s.seg == old(s.seg) && s.next == old(s.next)
      ensures if stop then cancelled else !cancelled && |running| < MAX_PARALLEL
      ensures |running| <= |old(running)|
    {
      hide Tracks;
      while |running| >= MAX_PARALLEL
        invariant Tracks() && running <= old(running) && |running| <= |old(running)|
        invariant s.seg == old(s.seg) && s.next == old(s.next)
        decreases |running|
      {
        stop := Look();
        if stop {
          return;
        }
        EndCall();
      }
      stop := Look();
    }

    method Wait()
      requires Tracks()
      modifies this, outcomes, results
      ensures Tracks() && running == {} && s.seg == old(s.seg) && s.next == old(s.next)
      ensures old(cancelled) ==> cancelled
    {
      hide Tracks;
      while running != {}
        invariant Tracks() && s.seg == old(s.seg) && s.next == old(s.next) && (old(cancelled) ==> cancelled)
        decreases |running|
      {
        var _ := Look();
        EndCall();
      }
    }
  }

  lemma Idle<W(!new)>(s: State<W>)
    requires RunningSet(s) == {}
    ensures !AnyRunning(s)
  {
    forall j: nat | j < |s.slots| ensures !s.slots[j].Running? {
      assert j in RunningSet(s) <==> s.slots[j].Running?;
    }
  }

  lemma CanLaunch<W(!new)>(e: Env<W>, s: State<W>)
    requires ValidEnv(e) && Inv(e, s) && !s.ended && !s.cancelled
    requires s.seg < |e.batches| && s.next < e.batches[s.seg].end
    requires if e.batches[s.seg].parallel then |RunningSet(s)| < MAX_PARALLEL else RunningSet(s) == {}
    ensures Enabled(e, s, Launch)
  {
    hide ValidEnv, Inv;
    NextInRange(e, s);
    if RunningSet(s) == {} {
      Idle(s);
    }
    hide RunningSet, AnyRunning;
  }

  lemma LaunchRuns<W(!new)>(e: Env<W>, s: State<W>)
    requires Enabled(e, s, Launch)
    ensures s.next < |s.slots| && Apply(e, s, Launch) == s.(slots := s.slots[s.next := Running], next := s.next + 1)
    ensures RunningSet(Apply(e, s, Launch)) == RunningSet(s) + {s.next}
  {
  }

  lemma FinishRuns<W(!new)>(e: Env<W>, s: State<W>, i: nat)
    requires Enabled(e, s, Finish(i))
    ensures RunningSet(Apply(e, s, Finish(i))) == RunningSet(s) - {i}
  {
  }

  lemma SameOutputs(outcomes: seq<Outcome>, results: seq<string>)
    requires |results| == |outcomes| && forall k :: 0 <= k < |results| ==> results[k] == outcomes[k].output
    ensures results == Outputs(outcomes)
  {
  }

  lemma SkippedResults<W(!new)>(s: State<W>, results: seq<Outcome>, from: nat)
    requires |results| == |s.slots|
    requires forall k :: 0 <= k < |results| ==>
      if k < from then s.slots[k].Ran? && results[k] == s.slots[k].result
      else s.slots[k].Skipped? && results[k] == CANCELLED
    ensures results == Results(s)
  {
    hide CANCELLED;
  }

  lemma NoneRunning<W(!new)>(e: Env<W>, world: W)
    ensures !AnyRunning(Init(e, world)) && Init(e, world).seg == 0 && Init(e, world).next == 0 && !Init(e, world).ended
  {
  }

  lemma NextInRange<W(!new)>(e: Env<W>, s: State<W>)
    requires ValidEnv(e) && Inv(e, s) && s.seg < |e.batches| && s.next < e.batches[s.seg].end
    ensures s.next < |s.slots|
  {
    SegmentBounds(e, s);
  }

  lemma AllRan<W(!new)>(e: Env<W>, s: State<W>)
    requires ValidEnv(e) && Inv(e, s) && s.seg == |e.batches|
    ensures forall j :: 0 <= j < |s.slots| ==> s.slots[j].Ran?
  {
    TilesEnd(e.reg, e.calls, e.batches, |e.calls|);
  }
}
