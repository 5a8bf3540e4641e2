/** What every run of the turn loop keeps, and when it ends. */
module RunLoopTheory {
  import opened Text
  import opened Conversation
  import opened Compaction
  import opened CompactionTheory
  import opened Maintenance
  import opened MaintenanceTheory
  import opened RunLoop

  // ----- the provider only ever sees paired logs -----

  lemma MaintainedKeepsPairing(u: Upkeep, g: Gauge, log: Log, tokens: nat)
    requires Paired(log)
    ensures Paired(Maintained(u, g, log, tokens).log)
  {
    hide SweepLog, CompactLog, PassOutcome;
    SweepKeepsPairing(SweepOf(u, Snip), log);
    SweepKeepsPairing(SweepOf(u, Prune), log);
    var pruned := SweepLog(SweepOf(u, Prune), log);
    CompactKeepsPairing(PassOf(u, tokens >= u.policy.forceAt), pruned);
  }

  lemma PlainMessagePaired(log: Log, m: Message)
    requires Paired(log) && !m.role.Tool?
    ensures ScanFrom(BALANCED, log + [m]) == Expect(CallIds(Opens(m)))
    ensures Paired(log + [m]) <==> Opens(m) == []
  {
    ScanConcat(BALANCED, log, [m]);
    assert [m][1..] == [];
    assert ScanFrom(BALANCED, [m]) == ScanOne(BALANCED, m);
  }

  /** An assistant turn followed by one result per call, in call order, is paired. */
  lemma BatchPaired(log: Log, text: string, calls: seq<ToolCall>, results: nat -> string)
    requires Paired(log)
    ensures Paired(log + [AssistantMessage(text, calls)] + ToolResults(calls, results))
  {
    var m, tail := AssistantMessage(text, calls), ToolResults(calls, results);
    PlainMessagePaired(log, m);
    ScanConcat(BALANCED, log + [m], tail);
    ScanDischarges(CallIds(calls), tail);
    assert tail[|calls|..] == [];
    assert forall k :: 0 <= k < |calls| ==> tail[k] == ToolMessage(calls[k], results(k));
  }

  lemma CallSeesPaired(cfg: Config, s: RunState, t: Turn)
    requires Paired(s.log)
    ensures Paired(AtCall(cfg, s, t).log)
  {
    var queue := s.queue + t.steersBefore;
    if queue != [] {
      PlainMessagePaired(s.log, Say(cfg, SteerPrompt(queue[0])));
    }
  }

  /** The model calls tools although this is the grace round. */
  predicate CallsInGrace(n: Counters, t: Turn) {
    n.grace && t.reply.Answer? && t.reply.calls != []
  }

  /** The guard of the one exit that stores calls and does not run them. */
  lemma PausesExactly(cfg: Config, s: RunState, t: Turn)
    ensures Iterate(cfg, s, t).stop == Some(PausedInGrace) <==> CallsInGrace(s.n, t)
  {
    hide Maintained, ToolResults;
  }

  /** Every iteration leaves the log paired, save the one that gets calls in the grace round. */
  lemma IterationPairing(cfg: Config, s: RunState, t: Turn)
    requires Paired(s.log)
    ensures Paired(AtCall(cfg, s, t).log)
    ensures Paired(Iterate(cfg, s, t).next.log) <==> !CallsInGrace(s.n, t)
  {
    PausesExactly(cfg, s, t);
    hide Maintained;
    CallSeesPaired(cfg, s, t);
    var log := AtCall(cfg, s, t).log;
    if t.reply.StreamError? {
      var partialLog := if Visible(t.reply.text) then log + [AssistantMessage(t.reply.text, [])] else log;
      PlainMessagePaired(log, AssistantMessage(t.reply.text, []));
      PlainMessagePaired(partialLog, Say(cfg, StreamRecovery(Visible(t.reply.text), t.reply.partialTool)));
    } else {
      PlainMessagePaired(log, AssistantMessage(t.reply.text, t.reply.calls));
      if t.reply.calls == [] {
        AnswerPairing(cfg, AnsweredState(cfg, s, t), t);
      } else {
        BatchPaired(log, t.reply.text, t.reply.calls, t.results);
        CallsPairing(cfg, AnsweredState(cfg, s, t), t);
      }
    }
  }

  function AnsweredState(cfg: Config, s: RunState, t: Turn): RunState
    requires t.reply.Answer?
  {
    var c := AtCall(cfg, s, t);
    c.(queue := c.queue + t.steersDuring, n := c.n.(recoveries := 0),
       log := c.log + [AssistantMessage(t.reply.text, t.reply.calls)])
  }

  lemma AnswerPairing(cfg: Config, s: RunState, t: Turn)
    requires t.reply.Answer? && Paired(s.log)
    ensures Paired(AfterAnswer(cfg, s, t).next.log) && AfterAnswer(cfg, s, t).stop != Some(PausedInGrace)
  {
    hide Maintained;
    MaintainedKeepsPairing(t.upkeep, s.gauge, s.log, t.reply.tokens);
    forall prompt: Prompt
      ensures Paired(Maintained(t.upkeep, s.gauge, s.log + [Say(cfg, prompt)], t.reply.tokens).log)
    {
      PlainMessagePaired(s.log, Say(cfg, prompt));
      MaintainedKeepsPairing(t.upkeep, s.gauge, s.log + [Say(cfg, prompt)], t.reply.tokens);
    }
  }

  lemma CallsPairing(cfg: Config, s: RunState, t: Turn)
    requires t.reply.Answer? && Paired(s.log + ToolResults(t.reply.calls, t.results))
    requires !Paired(s.log)
    ensures Paired(AfterCalls(cfg, s, t).next.log) <==> AfterCalls(cfg, s, t).stop != Some(PausedInGrace)
  {
    hide Maintained;
    var log := s.log + ToolResults(t.reply.calls, t.results);
    MaintainedKeepsPairing(t.upkeep, s.gauge, log, t.reply.tokens);
    PlainMessagePaired(Maintained(t.upkeep, s.gauge, log, t.reply.tokens).log, Say(cfg, GraceNudge));
  }

  /** The session's logs at the provider calls, one per iteration. */
  function CallLogs(cfg: Config, s: RunState, script: seq<Turn>): seq<Log>
    decreases |script|
  {
    if script == [] || !Going(cfg, s.n) then []
    else
      var r := Iterate(cfg, s, script[0]);
      [AtCall(cfg, s, script[0]).log] + if r.stop.Some? then [] else CallLogs(cfg, r.next, script[1..])
  }

  /** State and events of the last iteration that the run starts, if it starts any. */
  function LastIteration(cfg: Config, s: RunState, script: seq<Turn>): Option<(RunState, Turn)>
    decreases |script|
  {
    if script == [] || !Going(cfg, s.n) then None
    else
      var r := Iterate(cfg, s, script[0]);
      var later := if r.stop.Some? then None else LastIteration(cfg, r.next, script[1..]);
      if later.Some? then later else Some((s, script[0]))
  }

  predicate EndsInGraceCalls(cfg: Config, s: RunState, script: seq<Turn>) {
    var last := LastIteration(cfg, s, script);
    last.Some? && CallsInGrace(last.value.0.n, last.value.1)
  }

  lemma {:induction false} RunSeesPaired(cfg: Config, s: RunState, script: seq<Turn>)
    requires Paired(s.log)
    ensures forall k :: 0 <= k < |CallLogs(cfg, s, script)| ==> Paired(CallLogs(cfg, s, script)[k])
    ensures Paired(RunFrom(cfg, s, script).next.log) <==> !EndsInGraceCalls(cfg, s, script)
    decreases |script|
  {
    hide Iterate, AtCall, Paired, CallsInGrace;
    if script != [] && Going(cfg, s.n) {
      IterationPairing(cfg, s, script[0]);
      PausesExactly(cfg, s, script[0]);
      var r := Iterate(cfg, s, script[0]);
      if r.stop.None? {
        RunSeesPaired(cfg, r.next, script[1..]);
      }
    }
  }

  /** From a paired log, whatever the model, the tools, the user and the summarizer do: the
      session's log is paired at every provider call, and the run leaves it paired if and only
      if its last iteration does not get calls in the grace round. */
  lemma ProviderSeesPaired(cfg: Config, log: Log, queue: seq<string>, g: Gauge, input: string, script: seq<Turn>)
    requires Paired(log)
    ensures var s := Start(log, queue, g, input);
      (forall k :: 0 <= k < |CallLogs(cfg, s, script)| ==> Paired(CallLogs(cfg, s, script)[k])) &&
      (Paired(RunFrom(cfg, s, script).next.log) <==> !EndsInGraceCalls(cfg, s, script))
  {
    PlainMessagePaired(log, UserMessage(input));
    RunSeesPaired(cfg, Start(log, queue, g, input), script);
  }

  /** After such an end the session's log stays broken: it still is at the next turn's first
      provider call, where only the adapter's repair of the request answers the calls. */
  lemma GracePauseBreaksNextTurn(cfg: Config, s: RunState, t: Turn, next: Config, queue: seq<string>, input: string,
                                 u: Turn)
    requires Paired(s.log) && CallsInGrace(s.n, t)
    ensures var left := Iterate(cfg, s, t).next;
            !Paired(AtCall(next, Start(left.log, queue, left.gauge, input), u).log)
  {
    CallSeesPaired(cfg, s, t);
    var log := AtCall(cfg, s, t).log;
    var m, ask := AssistantMessage(t.reply.text, t.reply.calls), UserMessage(input);
    PlainMessagePaired(log, m);
    var left := Iterate(cfg, s, t).next;
    assert left.log == log + [m];
    ScanConcat(BALANCED, left.log, [ask]);
    assert ScanFrom(Expect(CallIds(m.calls)), [ask]) == ScanFrom(Broken, [ask][1..]) == Broken;
    var started := Start(left.log, queue, left.gauge, input);
    var steers := started.queue + u.steersBefore;
    if steers != [] {
      ScanConcat(BALANCED, started.log, [Say(next, SteerPrompt(steers[0]))]);
      ScanBroken([Say(next, SteerPrompt(steers[0]))]);
    }
  }

  // ----- the run ends -----

  function SteersIn(script: seq<Turn>): nat {
    if script == [] then 0
    else |script[0].steersBefore| + |script[0].steersDuring| + SteersIn(script[1..])
  }

  /** Counter values of a run that is still going. */
  predicate Live(cfg: Config, n: Counters) {
    n.readinessBlocks < MAX_FINAL_READINESS_BLOCKS && n.emptyBlocks < MAX_EMPTY_FINAL_BLOCKS &&
    n.recoveries <= MAX_STREAM_RECOVERIES && (n.grace ==> n.usedTool) && (!n.grace ==> n.step <= cfg.maxSteps)
  }

  /** Answers the run can still take: tool rounds, readiness and empty retries, steers. */
  function AnswersLeft(cfg: Config, s: RunState, steers: nat): int {
    (if s.n.grace then MAX_EMPTY_FINAL_BLOCKS - 1 - s.n.emptyBlocks
     else cfg.maxSteps - s.n.step + MAX_EMPTY_FINAL_BLOCKS - 1) +
    (MAX_FINAL_READINESS_BLOCKS - 1 - s.n.readinessBlocks) +
    2 * (|s.queue| + steers) + (if s.queue == [] then 1 else 0)
  }

  /** Provider calls the run can still make: each answer may be preceded by failed streams. */
  function CallsLeft(cfg: Config, s: RunState, steers: nat): int {
    (MAX_STREAM_RECOVERIES + 1) * AnswersLeft(cfg, s, steers) + MAX_STREAM_RECOVERIES - s.n.recoveries
  }

  /** Consuming one steer pays for the arrivals; with steers still queued it pays for one more
      iteration. */
  lemma SteersPay(cfg: Config, s: RunState, t: Turn, later: nat)
    ensures var c := AtCall(cfg, s, t); var d := c.(queue := c.queue + t.steersDuring);
      var before := AnswersLeft(cfg, s, |t.steersBefore| + |t.steersDuring| + later);
      d.n == s.n && AnswersLeft(cfg, d, later) <= before && (d.queue != [] ==> AnswersLeft(cfg, d, later) < before)
  {
  }

  lemma AnswerProgress(cfg: Config, s: RunState, t: Turn, later: nat)
    requires cfg.maxSteps > 0 && Live(cfg, s.n) && Going(cfg, s.n) && t.reply.Answer?
    requires AfterAnswer(cfg, s, t).stop.None?
    ensures var next := AfterAnswer(cfg, s, t).next;
      Live(cfg, next.n) && next.n.recoveries == s.n.recoveries &&
      AnswersLeft(cfg, next, later) <= AnswersLeft(cfg, s, later) &&
      (s.queue == [] ==> AnswersLeft(cfg, next, later) < AnswersLeft(cfg, s, later))
  {
    hide Maintained, Visible;
  }

  lemma CallsProgress(cfg: Config, s: RunState, t: Turn, later: nat)
    requires cfg.maxSteps > 0 && Live(cfg, s.n) && Going(cfg, s.n) && t.reply.Answer?
    requires AfterCalls(cfg, s, t).stop.None?
    ensures var next := AfterCalls(cfg, s, t).next;
      Live(cfg, next.n) && next.n.recoveries == s.n.recoveries &&
      AnswersLeft(cfg, next, later) < AnswersLeft(cfg, s, later)
  {
    hide Maintained, ToolResults;
  }

  lemma IterationProgress(cfg: Config, s: RunState, t: Turn, later: nat)
    requires cfg.maxSteps > 0 && Live(cfg, s.n) && Going(cfg, s.n)
    requires Iterate(cfg, s, t).stop.None?
    ensures var next := Iterate(cfg, s, t).next;
      Live(cfg, next.n) &&
      CallsLeft(cfg, next, later) < CallsLeft(cfg, s, |t.steersBefore| + |t.steersDuring| + later)
  {
    SteersPay(cfg, s, t, later);
    hide AtCall, AfterAnswer, AfterCalls;
    if t.reply.Answer? {
      var d := AnsweredState(cfg, s, t);
      if t.reply.calls == [] {
        AnswerProgress(cfg, d, t, later);
      } else {
        CallsProgress(cfg, d, t, later);
      }
    }
  }

  /** With a positive step limit a run ends within 4 * (maxSteps + 2 * steers + 6) provider
      calls, against any provider and any user who steers finitely often. */
  lemma {:induction false} RunEnds(cfg: Config, s: RunState, script: seq<Turn>)
    requires cfg.maxSteps > 0 && Live(cfg, s.n)
    requires |script| > CallsLeft(cfg, s, SteersIn(script))
    ensures RunFrom(cfg, s, script).stop.Some?
    decreases |script|
  {
    hide Iterate, CallsLeft;
    if Going(cfg, s.n) {
      assert CallsLeft(cfg, s, SteersIn(script)) >= 0 by { CallsLeftNatural(cfg, s, SteersIn(script)); }
      var t := script[0];
      if Iterate(cfg, s, t).stop.None? {
        IterationProgress(cfg, s, t, SteersIn(script[1..]));
        RunEnds(cfg, Iterate(cfg, s, t).next, script[1..]);
      }
    }
  }

  lemma CallsLeftNatural(cfg: Config, s: RunState, steers: nat)
    requires cfg.maxSteps > 0 && Live(cfg, s.n)
    ensures CallsLeft(cfg, s, steers) >= 0
  {
  }

  lemma TurnEnds(cfg: Config, log: Log, queue: seq<string>, g: Gauge, input: string, script: seq<Turn>)
    requires cfg.maxSteps > 0
    requires |script| >= 4 * (cfg.maxSteps + 2 * (|queue| + SteersIn(script)) + 6)
    ensures RunFrom(cfg, Start(log, queue, g, input), script).stop.Some?
  {
    RunEnds(cfg, Start(log, queue, g, input), script);
  }

  /** How many tool batches a run executes. */
  function Rounds(cfg: Config, s: RunState, script: seq<Turn>): nat
    decreases |script|
  {
    if script == [] || !Going(cfg, s.n) then 0
    else
      var t, r := script[0], Iterate(cfg, s, script[0]);
      (if t.reply.Answer? && t.reply.calls != [] && !s.n.grace then 1 else 0) +
      if r.stop.Some? then 0 else Rounds(cfg, r.next, script[1..])
  }

  /** A positive step limit bounds the executed tool batches. */
  lemma {:induction false} RoundsBounded(cfg: Config, s: RunState, script: seq<Turn>)
    requires cfg.maxSteps > 0 && (!s.n.grace ==> s.n.step <= cfg.maxSteps)
    ensures Rounds(cfg, s, script) <= if s.n.grace then 0 else cfg.maxSteps - s.n.step
    decreases |script|
  {
    hide Maintained;
    if script != [] && Going(cfg, s.n) {
      var r := Iterate(cfg, s, script[0]);
      if r.stop.None? {
        RoundsBounded(cfg, r.next, script[1..]);
      }
    }
  }
}
