/** How a run of the turn loop ends, read off the outside events alone: the counters are counts of
    events, and each stop has its exact condition. */
module StopTheory {
  import opened Text
  import opened Conversation
  import opened Maintenance
  import opened RunLoop
  import opened RunLoopTheory

  // ----- events -----

  /** The stream broke. */
  predicate BrokeOff(t: Turn) {
    t.reply.StreamError?
  }

  /** The model called tools. */
  predicate Called(t: Turn) {
    t.reply.Answer? && t.reply.calls != []
  }

  /** It answered, and the host is not ready for an answer. */
  predicate Blocked(t: Turn) {
    t.reply.Answer? && t.reply.calls == [] && t.readiness != ""
  }

  /** It answered nothing visible. */
  predicate Blank(t: Turn) {
    t.reply.Answer? && t.reply.calls == [] && t.readiness == "" && !Visible(t.reply.text)
  }

  /** It gave an answer. */
  predicate Spoken(t: Turn) {
    t.reply.Answer? && t.reply.calls == [] && t.readiness == "" && Visible(t.reply.text)
  }

  // ----- counts over the first n turns -----

  function Answers(script: seq<Turn>, n: nat): nat
    requires n <= |script|
  {
    if n == 0 then 0 else Answers(script, n - 1) + if BrokeOff(script[n - 1]) then 0 else 1
  }

  function Blocks(script: seq<Turn>, n: nat): nat
    requires n <= |script|
  {
    if n == 0 then 0 else Blocks(script, n - 1) + if Blocked(script[n - 1]) then 1 else 0
  }

  /** Blank answers since the last tool calls. */
  function Blanks(script: seq<Turn>, n: nat): nat
    requires n <= |script|
  {
    if n == 0 || Called(script[n - 1]) then 0
    else Blanks(script, n - 1) + if Blank(script[n - 1]) then 1 else 0
  }

  /** BrokeOff streams in a row at the end. */
  function Breaks(script: seq<Turn>, n: nat): nat
    requires n <= |script|
  {
    if n == 0 || !BrokeOff(script[n - 1]) then 0 else Breaks(script, n - 1) + 1
  }

  predicate ToolsUsed(script: seq<Turn>, n: nat)
    requires n <= |script|
  {
    exists k :: 0 <= k < n && Called(script[k])
  }

  /** Tool calls used up the limit at turn k. */
  predicate SpendsLimit(cfg: Config, script: seq<Turn>, k: nat)
    requires k < |script|
  {
    Called(script[k]) && cfg.maxSteps > 0 && Answers(script, k + 1) >= cfg.maxSteps
  }

  predicate LimitSpent(cfg: Config, script: seq<Turn>, n: nat)
    requires n <= |script|
  {
    exists k :: 0 <= k < n && SpendsLimit(cfg, script, k)
  }

  /** An answer that looks like a handoff nobody acted on. */
  predicate LooksIdle(script: seq<Turn>, k: nat)
    requires k < |script|
  {
    Spoken(script[k]) && script[k].nudge
  }

  /** The host nudges, once, before any tool was used. */
  predicate Nudges(cfg: Config, script: seq<Turn>, n: nat)
    requires n < |script|
  {
    cfg.handoff && LooksIdle(script, n) && !ToolsUsed(script, n) &&
    forall k :: 0 <= k < n ==> !LooksIdle(script, k)
  }

  /** All steers queued before turn n is over, in order of arrival. */
  function Arrived(queue: seq<string>, script: seq<Turn>, n: nat): seq<string>
    requires n <= |script|
  {
    if n == 0 then queue
    else Arrived(queue, script, n - 1) + script[n - 1].steersBefore + script[n - 1].steersDuring
  }

  /** How many of them the model has been given: each turn takes the oldest one waiting. */
  function Taken(queue: seq<string>, script: seq<Turn>, n: nat): nat
    requires n <= |script|
  {
    if n == 0 then 0
    else
      var t := Taken(queue, script, n - 1);
      t + if t < |Arrived(queue, script, n - 1) + script[n - 1].steersBefore| then 1 else 0
  }

  // ----- what ends a run at turn n -----

  predicate StreamFails(script: seq<Turn>, n: nat)
    requires n < |script|
  {
    BrokeOff(script[n]) && (!script[n].reply.interrupted || Breaks(script, n) >= MAX_STREAM_RECOVERIES)
  }

  predicate ReadinessFails(script: seq<Turn>, n: nat)
    requires n < |script|
  {
    Blocked(script[n]) && Blocks(script, n + 1) >= MAX_FINAL_READINESS_BLOCKS
  }

  predicate BlankFails(script: seq<Turn>, n: nat)
    requires n < |script|
  {
    Blank(script[n]) && Blanks(script, n + 1) >= MAX_EMPTY_FINAL_BLOCKS
  }

  predicate Finishes(cfg: Config, queue: seq<string>, script: seq<Turn>, n: nat)
    requires n < |script|
  {
    Spoken(script[n]) && !Nudges(cfg, script, n) && Taken(queue, script, n + 1) == |Arrived(queue, script, n + 1)|
  }

  predicate CallsTooLate(cfg: Config, script: seq<Turn>, n: nat)
    requires n < |script|
  {
    Called(script[n]) && LimitSpent(cfg, script, n)
  }

  predicate CancelsCalls(cfg: Config, script: seq<Turn>, n: nat)
    requires n < |script|
  {
    Called(script[n]) && !LimitSpent(cfg, script, n) && script[n].cancelled
  }

  /** The limit is used up without a grace round, in front of turn n. */
  predicate OutOfBudget(cfg: Config, script: seq<Turn>, n: nat)
    requires n <= |script|
  {
    cfg.maxSteps > 0 && Answers(script, n) >= cfg.maxSteps && !LimitSpent(cfg, script, n)
  }

  /** Turn n is started and ends the run this way. */
  predicate EndsAs(cfg: Config, queue: seq<string>, script: seq<Turn>, n: nat, stop: Stop)
    requires n < |script|
  {
    match stop
    case StreamFailed => StreamFails(script, n)
    case ReadinessFailed => ReadinessFails(script, n)
    case EmptyFinal => BlankFails(script, n)
    case FinalAnswer => Finishes(cfg, queue, script, n)
    case PausedInGrace => CallsTooLate(cfg, script, n)
    case Cancelled => CancelsCalls(cfg, script, n)
    case PausedOnBudget => false
  }

  predicate GoesOn(cfg: Config, queue: seq<string>, script: seq<Turn>, n: nat)
    requires n < |script|
  {
    !OutOfBudget(cfg, script, n) && !StreamFails(script, n) && !ReadinessFails(script, n) && !BlankFails(script, n) &&
    !Finishes(cfg, queue, script, n) && !CallsTooLate(cfg, script, n) && !CancelsCalls(cfg, script, n)
  }

  // ----- the states of a run -----

  function StateAt(cfg: Config, s: RunState, script: seq<Turn>, n: nat): RunState
    requires n <= |script|
  {
    if n == 0 then s else Iterate(cfg, StateAt(cfg, s, script, n - 1), script[n - 1]).next
  }

  /** The loop's variables and the queue are these counts. */
  predicate Counted(cfg: Config, queue: seq<string>, script: seq<Turn>, n: nat, s: RunState)
    requires n <= |script|
  {
    s.n.step == Answers(script, n) && s.n.readinessBlocks == Blocks(script, n) &&
    s.n.emptyBlocks == Blanks(script, n) && s.n.recoveries == Breaks(script, n) &&
    s.n.usedTool == ToolsUsed(script, n) &&
    s.n.grace == LimitSpent(cfg, script, n) && NudgesCounted(cfg, script, n, s.n.nudges) &&
    Taken(queue, script, n) <= |Arrived(queue, script, n)| &&
    s.queue == Arrived(queue, script, n)[Taken(queue, script, n)..]
  }

  /** Whether the one nudge is spent matters only while no tool was used. */
  predicate NudgesCounted(cfg: Config, script: seq<Turn>, n: nat, nudges: nat)
    requires n <= |script|
  {
    cfg.handoff && !ToolsUsed(script, n) ==>
      (nudges >= MAX_HANDOFF_NUDGES <==> exists k :: 0 <= k < n && LooksIdle(script, k))
  }

  lemma StartCounted(cfg: Config, log: Log, queue: seq<string>, g: Gauge, input: string, script: seq<Turn>)
    ensures Counted(cfg, queue, script, 0, Start(log, queue, g, input))
  {
  }

  /** The queue around one turn. */
  lemma QueueStep(cfg: Config, queue: seq<string>, script: seq<Turn>, n: nat, s: RunState)
    requires n < |script| && Counted(cfg, queue, script, n, s)
    ensures var t, c := script[n], AtCall(cfg, s, script[n]);
      Taken(queue, script, n + 1) <= |Arrived(queue, script, n + 1)| &&
      c.queue + t.steersDuring == Arrived(queue, script, n + 1)[Taken(queue, script, n + 1)..] && c.n == s.n
  {
    hide Answers, Blocks, Blanks, Breaks, NudgesCounted;
    var t, a, k := script[n], Arrived(queue, script, n), Taken(queue, script, n);
    assert s.queue + t.steersBefore == (a + t.steersBefore)[k..];
    if s.queue + t.steersBefore != [] {
      assert (a + t.steersBefore)[k..][1..] == (a + t.steersBefore)[k + 1..];
      assert (a + t.steersBefore)[k + 1..] + t.steersDuring == (a + t.steersBefore + t.steersDuring)[k + 1..];
    } else {
      assert (a + t.steersBefore)[k..] + t.steersDuring == (a + t.steersBefore + t.steersDuring)[k..];
    }
  }

  predicate NudgeDue(cfg: Config, n: Counters, t: Turn) {
    cfg.handoff && !n.usedTool && n.nudges < MAX_HANDOFF_NUDGES && t.nudge
  }

  /** The stop of one iteration, by the loop's variables. */
  lemma IterationStops(cfg: Config, s: RunState, t: Turn)
    ensures var stop, q := Iterate(cfg, s, t).stop, AtCall(cfg, s, t).queue + t.steersDuring;
      (stop == Some(StreamFailed) <==>
        BrokeOff(t) && (!t.reply.interrupted || s.n.recoveries >= MAX_STREAM_RECOVERIES)) &&
      (stop == Some(ReadinessFailed) <==> Blocked(t) && s.n.readinessBlocks + 1 >= MAX_FINAL_READINESS_BLOCKS) &&
      (stop == Some(EmptyFinal) <==> Blank(t) && s.n.emptyBlocks + 1 >= MAX_EMPTY_FINAL_BLOCKS) &&
      (stop == Some(FinalAnswer) <==> Spoken(t) && q == [] && !NudgeDue(cfg, s.n, t)) &&
      (stop == Some(PausedInGrace) <==> Called(t) && s.n.grace) &&
      (stop == Some(Cancelled) <==> Called(t) && !s.n.grace && t.cancelled) &&
      stop != Some(PausedOnBudget)
  {
    hide Maintained, ToolResults, Visible;
  }

  /** The loop's variables after an iteration that goes on. */
  predicate CountsOn(cfg: Config, n: Counters, t: Turn, m: Counters) {
    m.step == n.step + (if BrokeOff(t) then 0 else 1) &&
    m.readinessBlocks == n.readinessBlocks + (if Blocked(t) then 1 else 0) &&
    m.emptyBlocks == (if Called(t) then 0 else n.emptyBlocks + (if Blank(t) then 1 else 0)) &&
    m.recoveries == (if BrokeOff(t) then n.recoveries + 1 else 0) &&
    m.usedTool == (n.usedTool || Called(t)) &&
    m.grace == (n.grace || (Called(t) && cfg.maxSteps > 0 && n.step + 1 >= cfg.maxSteps)) &&
    m.nudges == n.nudges + (if Spoken(t) && NudgeDue(cfg, n, t) then 1 else 0)
  }

  lemma IterationCounts(cfg: Config, s: RunState, t: Turn)
    requires Iterate(cfg, s, t).stop.None?
    ensures CountsOn(cfg, s.n, t, Iterate(cfg, s, t).next.n)
    ensures Iterate(cfg, s, t).next.queue == AtCall(cfg, s, t).queue + t.steersDuring
  {
    hide AtCall, CountsOn, AfterAnswer, AfterCalls, AfterStreamError;
    CallKeepsCounters(cfg, s, t);
    var c := AtCall(cfg, s, t);
    if t.reply.StreamError? {
      BrokenCounts(cfg, c.(queue := c.queue + t.steersDuring), t);
    } else if t.reply.calls == [] {
      AnswerCounts(cfg, AnsweredState(cfg, s, t), s.n, t);
    } else {
      CallCounts(cfg, AnsweredState(cfg, s, t), s.n, t);
    }
  }

  lemma CallKeepsCounters(cfg: Config, s: RunState, t: Turn)
    ensures AtCall(cfg, s, t).n == s.n
  {
  }

  lemma BrokenCounts(cfg: Config, s: RunState, t: Turn)
    requires t.reply.StreamError? && AfterStreamError(cfg, s, t.reply).stop.None?
    ensures CountsOn(cfg, s.n, t, AfterStreamError(cfg, s, t.reply).next.n)
    ensures AfterStreamError(cfg, s, t.reply).next.queue == s.queue
  {
  }

  lemma AnswerCounts(cfg: Config, s: RunState, n: Counters, t: Turn)
    requires t.reply.Answer? && t.reply.calls == [] && s.n == n.(recoveries := 0)
    requires AfterAnswer(cfg, s, t).stop.None?
    ensures CountsOn(cfg, n, t, AfterAnswer(cfg, s, t).next.n) && AfterAnswer(cfg, s, t).next.queue == s.queue
  {
    hide Maintained, Visible;
  }

  lemma CallCounts(cfg: Config, s: RunState, n: Counters, t: Turn)
    requires t.reply.Answer? && t.reply.calls != [] && s.n == n.(recoveries := 0)
    requires AfterCalls(cfg, s, t).stop.None?
    ensures CountsOn(cfg, n, t, AfterCalls(cfg, s, t).next.n) && AfterCalls(cfg, s, t).next.queue == s.queue
  {
    hide Maintained, ToolResults, Visible;
  }

  lemma CountedStep(cfg: Config, queue: seq<string>, script: seq<Turn>, n: nat, s: RunState)
    requires n < |script| && Counted(cfg, queue, script, n, s) && Iterate(cfg, s, script[n]).stop.None?
    ensures Counted(cfg, queue, script, n + 1, Iterate(cfg, s, script[n]).next)
  {
    hide Iterate, AtCall, Called, Blocked, Blank, BrokeOff, Spoken;
    IterationCounts(cfg, s, script[n]);
    QueueStep(cfg, queue, script, n, s);
    Kinds(script[n]);
    NudgesStep(cfg, script, n, s.n);
    hide Arrived, Taken, NudgesCounted, NudgeDue;
    assert LimitSpent(cfg, script, n + 1) <==> LimitSpent(cfg, script, n) || SpendsLimit(cfg, script, n);
    assert ToolsUsed(script, n + 1) <==> ToolsUsed(script, n) || Called(script[n]);
  }

  lemma NudgesStep(cfg: Config, script: seq<Turn>, n: nat, c: Counters)
    requires n < |script| && c.usedTool == ToolsUsed(script, n) && NudgesCounted(cfg, script, n, c.nudges)
    ensures NudgesCounted(cfg, script, n + 1,
                          c.nudges + if Spoken(script[n]) && NudgeDue(cfg, c, script[n]) then 1 else 0)
  {
    hide Called, Spoken;
    if cfg.handoff && !ToolsUsed(script, n + 1) {
      assert !ToolsUsed(script, n);
      assert (exists k :: 0 <= k < n + 1 && LooksIdle(script, k)) <==>
        (exists k :: 0 <= k < n && LooksIdle(script, k)) || LooksIdle(script, n);
    }
  }

  lemma Kinds(t: Turn)
    ensures Called(t) ==> !BrokeOff(t) && !Spoken(t) && !Blank(t) && !Blocked(t)
    ensures Spoken(t) ==> !BrokeOff(t) && !Blank(t) && !Blocked(t)
    ensures Blank(t) ==> !BrokeOff(t) && !Blocked(t)
    ensures Blocked(t) ==> !BrokeOff(t)
    ensures Called(t) || Spoken(t) || Blank(t) || Blocked(t) || BrokeOff(t)
  {
  }

  /** A counted state ends its turn exactly as the counts say. */
  lemma TurnEndsAs(cfg: Config, queue: seq<string>, script: seq<Turn>, n: nat, s: RunState, stop: Stop)
    requires n < |script| && Counted(cfg, queue, script, n, s)
    ensures Iterate(cfg, s, script[n]).stop == Some(stop) <==> EndsAs(cfg, queue, script, n, stop)
  {
    hide Iterate, AtCall, Called, Blocked, Blank, BrokeOff, Spoken;
    IterationStops(cfg, s, script[n]);
    QueueStep(cfg, queue, script, n, s);
    Kinds(script[n]);
  }

  // ----- whole runs -----

  lemma {:induction false} CountedThroughout(cfg: Config, queue: seq<string>, s: RunState, script: seq<Turn>, n: nat)
    requires n <= |script| && Counted(cfg, queue, script, 0, s)
    requires forall k :: 0 <= k < n ==> GoesOn(cfg, queue, script, k)
    ensures Counted(cfg, queue, script, n, StateAt(cfg, s, script, n))
    ensures forall k :: 0 <= k < n ==> Iterate(cfg, StateAt(cfg, s, script, k), script[k]).stop.None?
    decreases n
  {
    hide Counted, Iterate, GoesOn;
    if n > 0 {
      CountedThroughout(cfg, queue, s, script, n - 1);
      OnIfGoesOn(cfg, queue, script, n - 1, StateAt(cfg, s, script, n - 1));
      CountedStep(cfg, queue, script, n - 1, StateAt(cfg, s, script, n - 1));
    }
  }

  lemma OnIfGoesOn(cfg: Config, queue: seq<string>, script: seq<Turn>, n: nat, s: RunState)
    requires n < |script| && Counted(cfg, queue, script, n, s) && GoesOn(cfg, queue, script, n)
    ensures Iterate(cfg, s, script[n]).stop.None?
  {
    hide Counted, Iterate, StreamFails, ReadinessFails, BlankFails, Finishes, CallsTooLate, CancelsCalls, OutOfBudget;
    var stop := Iterate(cfg, s, script[n]).stop;
    if stop.Some? {
      TurnEndsAs(cfg, queue, script, n, s, stop.value);
    }
  }

  lemma GoingIsInBudget(cfg: Config, queue: seq<string>, script: seq<Turn>, n: nat, s: RunState)
    requires n <= |script| && Counted(cfg, queue, script, n, s)
    ensures Going(cfg, s.n) <==> !OutOfBudget(cfg, script, n)
  {
  }

  /** The run takes its first n turns and stands where they lead. */
  lemma {:induction false} RunReaches(cfg: Config, s: RunState, script: seq<Turn>, n: nat)
    requires n <= |script|
    requires forall k :: 0 <= k < n ==>
      Going(cfg, StateAt(cfg, s, script, k).n) && Iterate(cfg, StateAt(cfg, s, script, k), script[k]).stop.None?
    ensures RunFrom(cfg, s, script) == RunFrom(cfg, StateAt(cfg, s, script, n), script[n..])
    ensures |CallLogs(cfg, s, script)| == n + |CallLogs(cfg, StateAt(cfg, s, script, n), script[n..])|
    decreases n
  {
    hide Iterate, AtCall, Going;
    if n > 0 {
      RunReaches(cfg, s, script, n - 1);
      var before := StateAt(cfg, s, script, n - 1);
      assert script[n - 1..][0] == script[n - 1] && script[n - 1..][1..] == script[n..];
    } else {
      assert script[0..] == script;
    }
  }

  /** Every turn before n goes on. */
  predicate AllGoOn(cfg: Config, queue: seq<string>, script: seq<Turn>, n: nat)
    requires n <= |script|
  {
    forall k :: 0 <= k < n ==> GoesOn(cfg, queue, script, k)
  }

  lemma ReachesCounted(cfg: Config, queue: seq<string>, s: RunState, script: seq<Turn>, n: nat)
    requires n <= |script| && Counted(cfg, queue, script, 0, s) && AllGoOn(cfg, queue, script, n)
    ensures Counted(cfg, queue, script, n, StateAt(cfg, s, script, n))
    ensures RunFrom(cfg, s, script) == RunFrom(cfg, StateAt(cfg, s, script, n), script[n..])
    ensures |CallLogs(cfg, s, script)| == n + |CallLogs(cfg, StateAt(cfg, s, script, n), script[n..])|
  {
    hide Counted, Iterate, Going, OutOfBudget, RunFrom, CallLogs;
    CountedThroughout(cfg, queue, s, script, n);
    forall k | 0 <= k < n ensures Going(cfg, StateAt(cfg, s, script, k).n) {
      CountedThroughout(cfg, queue, s, script, k);
      GoingIsInBudget(cfg, queue, script, k, StateAt(cfg, s, script, k));
      assert GoesOn(cfg, queue, script, k);
    }
    RunReaches(cfg, s, script, n);
  }

  /** Turn n ends the run with this stop, in the turn or, out of budget, in front of it. */
  predicate EndsAt(cfg: Config, queue: seq<string>, script: seq<Turn>, n: nat, stop: Stop)
    requires n <= |script|
  {
    AllGoOn(cfg, queue, script, n) &&
    if stop.PausedOnBudget? then OutOfBudget(cfg, script, n)
    else n < |script| && !OutOfBudget(cfg, script, n) && EndsAs(cfg, queue, script, n, stop)
  }

  /** One way a run ends, if turn n ends it so. */
  lemma EndGives(cfg: Config, queue: seq<string>, s: RunState, script: seq<Turn>, n: nat, stop: Stop)
    requires n <= |script| && Counted(cfg, queue, script, 0, s) && EndsAt(cfg, queue, script, n, stop)
    ensures RunFrom(cfg, s, script).stop == Some(stop)
    ensures |CallLogs(cfg, s, script)| == if stop.PausedOnBudget? then n else n + 1
    ensures RunFrom(cfg, s, script).next ==
      if stop.PausedOnBudget? then StateAt(cfg, s, script, n) else StateAt(cfg, s, script, n + 1)
  {
    hide Counted, Iterate, AtCall, OutOfBudget, EndsAs, Going;
    ReachesCounted(cfg, queue, s, script, n);
    var now := StateAt(cfg, s, script, n);
    GoingIsInBudget(cfg, queue, script, n, now);
    if !stop.PausedOnBudget? {
      TurnEndsAs(cfg, queue, script, n, now, stop);
      assert script[n..][0] == script[n];
    }
  }

  lemma GoesOnToTheEnd(cfg: Config, queue: seq<string>, s: RunState, script: seq<Turn>)
    requires Counted(cfg, queue, script, 0, s) && AllGoOn(cfg, queue, script, |script|)
    requires !OutOfBudget(cfg, script, |script|)
    ensures RunFrom(cfg, s, script).stop == None && |CallLogs(cfg, s, script)| == |script|
  {
    hide Counted, Iterate, AtCall, OutOfBudget, Going;
    ReachesCounted(cfg, queue, s, script, |script|);
    GoingIsInBudget(cfg, queue, script, |script|, StateAt(cfg, s, script, |script|));
    assert script[|script|..] == [];
  }

  /** Some turn ends the run, or none does. */
  lemma {:induction false} SomeEnd(cfg: Config, queue: seq<string>, script: seq<Turn>, n: nat)
    returns (end: Option<(nat, Stop)>)
    requires n <= |script| && AllGoOn(cfg, queue, script, n)
    ensures end.Some? ==> end.value.0 <= |script| && EndsAt(cfg, queue, script, end.value.0, end.value.1)
    ensures end.None? ==> AllGoOn(cfg, queue, script, |script|) && !OutOfBudget(cfg, script, |script|)
    decreases |script| - n
  {
    hide OutOfBudget, StreamFails, ReadinessFails, BlankFails, Finishes, CallsTooLate, CancelsCalls;
    if OutOfBudget(cfg, script, n) {
      return Some((n, PausedOnBudget));
    } else if n == |script| {
      return None;
    } else if GoesOn(cfg, queue, script, n) {
      end := SomeEnd(cfg, queue, script, n + 1);
    } else if StreamFails(script, n) {
      return Some((n, StreamFailed));
    } else if ReadinessFails(script, n) {
      return Some((n, ReadinessFailed));
    } else if BlankFails(script, n) {
      return Some((n, EmptyFinal));
    } else if Finishes(cfg, queue, script, n) {
      return Some((n, FinalAnswer));
    } else if CallsTooLate(cfg, script, n) {
      return Some((n, PausedInGrace));
    } else {
      return Some((n, Cancelled));
    }
  }

  /** A run stops in a certain way if and only if all turns before some turn go on and that turn
      ends so, and goes on if and only if all do; and the provider is called once per started
      turn, never after the one that ends the run. */
  lemma StopsExactly(cfg: Config, log: Log, queue: seq<string>, g: Gauge, input: string, script: seq<Turn>, stop: Stop)
    ensures var s := Start(log, queue, g, input);
      (RunFrom(cfg, s, script).stop == Some(stop) <==>
        exists n: nat :: n <= |script| && EndsAt(cfg, queue, script, n, stop)) &&
      (RunFrom(cfg, s, script).stop == None <==>
        AllGoOn(cfg, queue, script, |script|) && !OutOfBudget(cfg, script, |script|)) &&
      (forall n: nat :: n <= |script| && EndsAt(cfg, queue, script, n, stop) ==>
        |CallLogs(cfg, s, script)| == if stop.PausedOnBudget? then n else n + 1)
  {
    hide Counted, Start, RunFrom, CallLogs, EndsAt, AllGoOn, OutOfBudget;
    var s := Start(log, queue, g, input);
    StartCounted(cfg, log, queue, g, input, script);
    NoneYet(cfg, queue, script);
    forall n: nat | n <= |script| && EndsAt(cfg, queue, script, n, stop)
      ensures RunFrom(cfg, s, script).stop == Some(stop)
      ensures |CallLogs(cfg, s, script)| == if stop.PausedOnBudget? then n else n + 1
    {
      EndGives(cfg, queue, s, script, n, stop);
    }
    if AllGoOn(cfg, queue, script, |script|) && !OutOfBudget(cfg, script, |script|) {
      GoesOnToTheEnd(cfg, queue, s, script);
    }
    var end := SomeEnd(cfg, queue, script, 0);
    if end.Some? {
      EndGives(cfg, queue, s, script, end.value.0, end.value.1);
    } else {
      GoesOnToTheEnd(cfg, queue, s, script);
    }
  }

  lemma NoneYet(cfg: Config, queue: seq<string>, script: seq<Turn>)
    ensures AllGoOn(cfg, queue, script, 0)
  {
  }
}
