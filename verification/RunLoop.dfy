/** The loop behind one user turn (internal/agent/agent.go, Run) and the maintenance it triggers
    between model calls (internal/agent/compact.go, maybeCompact). */
module RunLoop {
  import opened Text
  import opened Conversation
  import opened Compaction
  import opened Maintenance

  const MAX_FINAL_READINESS_BLOCKS := 3
  const MAX_EMPTY_FINAL_BLOCKS := 3
  const MAX_STREAM_RECOVERIES := 3
  const MAX_HANDOFF_NUDGES := 1

  // ----- maintenance between calls -----

  /** Latches of auto-compaction. */
  datatype Gauge = Gauge(stuck: bool, consecutive: nat, noticed: bool)

  /** Everything outside the agent that one maintenance step depends on. */
  datatype Upkeep = Upkeep(policy: Policy, strategy: string -> SnipStrategy, sweepArchive: Archive,
                           foldArchive: Archive, summary: Option<string>)

  function SweepOf(u: Upkeep, mode: Mode): Sweep {
    Sweep(u.policy, mode, u.sweepArchive, u.strategy)
  }

  function PassOf(u: Upkeep, force: bool): Pass {
    Pass(u.policy, force, u.foldArchive, u.summary)
  }

  datatype Kept = Kept(gauge: Gauge, log: Log)

  /** The fold step: a pass that reports no error counts towards the stuck latch. */
  function FoldStep(u: Upkeep, force: bool, g: Gauge, log: Log): Kept {
    var e := PassOf(u, force);
    if PassOutcome(e, log).ArchiveFailed? then Kept(g, log)
    else Kept(g.(consecutive := g.consecutive + 1, stuck := g.stuck || g.consecutive + 1 >= 2), CompactLog(e, log))
  }

  /** The log and the latches after maybeCompact; tokens is 0 when no usage is known. */
  function Maintained(u: Upkeep, g: Gauge, log: Log, tokens: nat): Kept {
    var p := u.policy;
    if p.contextWindow <= 0 || tokens == 0 then Kept(g, log)
    else if p.softAt <= tokens < p.snipAt && !g.noticed then Kept(g.(noticed := true), log)
    else if p.snipAt <= tokens < p.highAt then Kept(g, SweepLog(SweepOf(u, Snip), log))
    else if tokens < p.highAt then Kept(g.(consecutive := 0, stuck := false), log)
    else if g.stuck then Kept(g, log)
    else
      var force := tokens >= p.forceAt;
      var pruned := SweepLog(SweepOf(u, Prune), log);
      var saved := p.savedTokens(ContentBytes(log) - ContentBytes(pruned));
      if pruned != log && !force && tokens - saved < p.highAt then Kept(g, pruned)
      else FoldStep(u, force, g, pruned)
  }

  // ----- the loop -----

  /** The user-role texts the loop itself writes. */
  datatype Prompt = SteerPrompt(text: string) | StreamRecovery(visible: bool, partialTool: bool) |
    ReadinessRetry(reason: string) | EmptyFinalRetry | HandoffRetry | GraceNudge

  /** handoff says that the executor-handoff guard applies to this input. */
  datatype Config = Config(maxSteps: int, handoff: bool, render: Prompt -> string)

  datatype Reply =
    | StreamError(text: string, interrupted: bool, partialTool: bool)
    | Answer(text: string, calls: seq<ToolCall>, tokens: nat)

  /** What the outside world does during one iteration: steers queued before it and while the
      model streams, the model's reply, the readiness verdict (empty when ready), the tool
      results, a cancellation, and the upkeep environment. */
  datatype Turn = Turn(steersBefore: seq<string>, reply: Reply, steersDuring: seq<string>, readiness: string,
                       nudge: bool, results: nat -> string, cancelled: bool, upkeep: Upkeep)

  datatype Stop = StreamFailed | ReadinessFailed | EmptyFinal | FinalAnswer | PausedInGrace | Cancelled | PausedOnBudget

  /** The loop's local variables. */
  datatype Counters = Counters(step: nat, readinessBlocks: nat, emptyBlocks: nat, nudges: nat,
                               usedTool: bool, recoveries: nat, grace: bool)

  datatype RunState = RunState(log: Log, queue: seq<string>, gauge: Gauge, n: Counters)

  predicate Visible(text: string) {
    TrimSpace(text) != ""
  }

  /** The loop condition. */
  predicate Going(cfg: Config, n: Counters) {
    cfg.maxSteps <= 0 || n.step < cfg.maxSteps || n.grace
  }

  function Say(cfg: Config, prompt: Prompt): Message {
    UserMessage(cfg.render(prompt))
  }

  function ToolResults(calls: seq<ToolCall>, results: nat -> string): Log {
    seq(|calls|, i requires 0 <= i < |calls| => ToolMessage(calls[i], results(i)))
  }

  /** The state in which the provider is called: one queued steer has been consumed. */
  function AtCall(cfg: Config, s: RunState, t: Turn): RunState {
    var queue := s.queue + t.steersBefore;
    if queue == [] then s
    else s.(queue := queue[1..], log := s.log + [Say(cfg, SteerPrompt(queue[0]))])
  }

  function Upkept(s: RunState, t: Turn, tokens: nat): RunState {
    var kept := Maintained(t.upkeep, s.gauge, s.log, tokens);
    s.(log := kept.log, gauge := kept.gauge)
  }

  datatype Iteration = Iteration(next: RunState, stop: Option<Stop>)

  function Advance(s: RunState): Iteration {
    Iteration(s.(n := s.n.(step := s.n.step + 1)), None)
  }

  function AfterStreamError(cfg: Config, s: RunState, r: Reply): Iteration
    requires r.StreamError?
  {
    if r.interrupted && s.n.recoveries < MAX_STREAM_RECOVERIES then
      var partialLog := if Visible(r.text) then s.log + [AssistantMessage(r.text, [])] else s.log;
      Iteration(s.(n := s.n.(recoveries := s.n.recoveries + 1),
                   log := partialLog + [Say(cfg, StreamRecovery(Visible(r.text), r.partialTool))]), None)
    else Iteration(s, Some(StreamFailed))
  }

  /** Add a retry prompt, keep the window in shape, go on. */
  function Retry(cfg: Config, s: RunState, t: Turn, prompt: Prompt): Iteration
    requires t.reply.Answer?
  {
    Advance(Upkept(s.(log := s.log + [Say(cfg, prompt)]), t, t.reply.tokens))
  }

  /** The model answered without calling a tool. */
  function AfterAnswer(cfg: Config, s: RunState, t: Turn): Iteration
    requires t.reply.Answer?
  {
    if t.readiness != "" then
      var s' := s.(n := s.n.(readinessBlocks := s.n.readinessBlocks + 1));
      if s'.n.readinessBlocks >= MAX_FINAL_READINESS_BLOCKS then Iteration(s', Some(ReadinessFailed))
      else Retry(cfg, s', t, ReadinessRetry(t.readiness))
    else if !Visible(t.reply.text) then
      var s' := s.(n := s.n.(emptyBlocks := s.n.emptyBlocks + 1));
      if s'.n.emptyBlocks >= MAX_EMPTY_FINAL_BLOCKS then Iteration(s', Some(EmptyFinal))
      else Retry(cfg, s', t, EmptyFinalRetry)
    else if cfg.handoff && !s.n.usedTool && s.n.nudges < MAX_HANDOFF_NUDGES && t.nudge then
      Retry(cfg, s.(n := s.n.(nudges := s.n.nudges + 1)), t, HandoffRetry)
    else if s.queue != [] then Advance(s)
    else Iteration(Upkept(s, t, t.reply.tokens), Some(FinalAnswer))
  }

  /** The model called tools. */
  function AfterCalls(cfg: Config, s: RunState, t: Turn): Iteration
    requires t.reply.Answer?
  {
    var s' := s.(n := s.n.(emptyBlocks := 0, usedTool := true));
    if s.n.grace then Iteration(s', Some(PausedInGrace))
    else
      var done := s'.(log := s'.log + ToolResults(t.reply.calls, t.results));
      if t.cancelled then Iteration(done, Some(Cancelled))
      else
        var kept := Upkept(done, t, t.reply.tokens);
        if cfg.maxSteps > 0 && s.n.step + 1 >= cfg.maxSteps
        then Advance(kept.(n := kept.n.(grace := true), log := kept.log + [Say(cfg, GraceNudge)]))
        else Advance(kept)
  }

  /** One iteration of the loop body. */
  function Iterate(cfg: Config, s: RunState, t: Turn): Iteration {
    var c := AtCall(cfg, s, t);
    var d := c.(queue := c.queue + t.steersDuring);
    match t.reply
    case StreamError(_, _, _) => AfterStreamError(cfg, d, t.reply)
    case Answer(text, calls, _) =>
      var answered := d.(n := d.n.(recoveries := 0), log := d.log + [AssistantMessage(text, calls)]);
      if calls == [] then AfterAnswer(cfg, answered, t) else AfterCalls(cfg, answered, t)
  }

  /** Where a run stands after the given iterations: stopped, or still going (None). */
  function RunFrom(cfg: Config, s: RunState, script: seq<Turn>): Iteration
    decreases |script|
  {
    if !Going(cfg, s.n) then Iteration(s, Some(PausedOnBudget))
    else if script == [] then Iteration(s, None)
    else
      var r := Iterate(cfg, s, script[0]);
      if r.stop.Some? then r else RunFrom(cfg, r.next, script[1..])
  }

  function Start(log: Log, queue: seq<string>, gauge: Gauge, input: string): RunState {
    RunState(log + [UserMessage(input)], queue, gauge, Counters(0, 0, 0, 0, false, 0, false))
  }

  class Agent {
    const session: Session
    var steerQueue: seq<string>
    var stuck: bool
    var consecutive: nat
    var noticed: bool

    constructor (session: Session)
      ensures this.session == session && steerQueue == [] && GaugeNow() == Gauge(false, 0, false)
    {
      this.session := session;
      steerQueue, stuck, consecutive, noticed := [], false, 0, false;
    }

    function GaugeNow(): Gauge
      reads this
    {
      Gauge(stuck, consecutive, noticed)
    }

    method Steer(text: string)
      modifies this`steerQueue
      ensures steerQueue == old(steerQueue) + [text]
    {
      steerQueue := steerQueue + [text];
    }

    method ConsumeSteer() returns (text: Option<string>)
      modifies this`steerQueue
      ensures old(steerQueue) == [] ==> text == None && steerQueue == []
      ensures old(steerQueue) != [] ==> text == Some(old(steerQueue)[0]) && steerQueue == old(steerQueue)[1..]
    {
      if |steerQueue| == 0 {
        return None;
      }
      text := Some(steerQueue[0]);
      steerQueue := steerQueue[1..];
    }

    method MaybeCompact(u: Upkeep, tokens: nat)
      modifies this`stuck, this`consecutive, this`noticed, session`messages, session`version, session`rewriteVersion
      ensures Kept(GaugeNow(), session.messages) == Maintained(u, old(GaugeNow()), old(session.messages), tokens)
    {
      hide SweepLog, PassOutcome, SweepArchive, ContentBytes, Changed;
      var p := u.policy;
      if p.contextWindow <= 0 || tokens == 0 {
        return;
      }
      if tokens >= p.softAt && tokens < p.snipAt && !noticed {
        noticed := true;
        return;
      }
      if tokens >= p.snipAt && tokens < p.highAt {
        var _, _ := MaintainStaleToolResults(SweepOf(u, Snip), session);
        return;
      }
      if tokens < p.highAt {
        consecutive, stuck := 0, false;
        return;
      }
      if stuck {
        return;
      }
      var force := tokens >= p.forceAt;
      var stats, archiveError := MaintainStaleToolResults(SweepOf(u, Prune), session);
      if !archiveError && stats.results > 0 {
        if !force && tokens - p.savedTokens(stats.savedChars) < p.highAt {
          return;
        }
      }
      var err := Compact(PassOf(u, force), session);
      if err {
        return;
      }
      consecutive := consecutive + 1;
      if consecutive >= 2 {
        stuck := true;
      }
    }

    ghost function Now(n: Counters): RunState
      reads this, session
    {
      RunState(session.messages, steerQueue, GaugeNow(), n)
    }

    method ClearSteerQueue()
      modifies this`steerQueue
      ensures steerQueue == []
    {
      steerQueue := [];
    }

    /** Run: the iterations of one user turn until it stops or the script of outside events
        ends. Steers nobody consumed are dropped when it stops. */
    method Run(cfg: Config, input: string, script: seq<Turn>) returns (stop: Option<Stop>)
      modifies this, session`messages, session`version, session`rewriteVersion
      ensures var r := RunFrom(cfg, Start(old(session.messages), old(steerQueue), old(GaugeNow()), input), script);
        stop == r.stop && session.messages == r.next.log && GaugeNow() == r.next.gauge &&
        steerQueue == if stop.Some? then [] else r.next.queue
    {
      hide Iterate;
      ghost var s0 := Start(session.messages, steerQueue, GaugeNow(), input);
      session.Add(UserMessage(input));
      var n := Counters(0, 0, 0, 0, false, 0, false);
      for i := 0 to |script|
        invariant RunFrom(cfg, Now(n), script[i..]) == RunFrom(cfg, s0, script)
      {
        assert script[i..][0] == script[i] && script[i..][1..] == script[i + 1..];
        if !Going(cfg, n) {
          ClearSteerQueue();
          return Some(PausedOnBudget);
        }
        n, stop := LoopBody(cfg, n, script[i]);
        if stop.Some? {
          ClearSteerQueue();
          return;
        }
      }
      if Going(cfg, n) {
        return None;
      }
      ClearSteerQueue();
      stop := Some(PausedOnBudget);
    }

    method LoopBody(cfg: Config, n0: Counters, t: Turn) returns (n: Counters, stop: Option<Stop>)
      modifies this, session`messages, session`version, session`rewriteVersion
      ensures Iteration(Now(n), stop) == Iterate(cfg, old(Now(n0)), t)
    {
      hide AfterStreamError, AfterAnswer, AfterCalls;
      n := n0;
      steerQueue := steerQueue + t.steersBefore;
      var text := ConsumeSteer();
      if text.Some? {
        session.Add(Say(cfg, SteerPrompt(text.value)));
      }
      steerQueue := steerQueue + t.steersDuring;
      if t.reply.StreamError? {
        n, stop := OnStreamError(cfg, n, t.reply);
        return;
      }
      n := n.(recoveries := 0);
      session.Add(AssistantMessage(t.reply.text, t.reply.calls));
      if t.reply.calls == [] {
        n, stop := OnAnswer(cfg, n, t);
      } else {
        n, stop := OnCalls(cfg, n, t);
      }
    }

    method OnStreamError(cfg: Config, n0: Counters, r: Reply) returns (n: Counters, stop: Option<Stop>)
      requires r.StreamError?
      modifies this, session`messages, session`version, session`rewriteVersion
      ensures Iteration(Now(n), stop) == AfterStreamError(cfg, old(Now(n0)), r)
    {
      n := n0;
      if r.interrupted && n.recoveries < MAX_STREAM_RECOVERIES {
        n := n.(recoveries := n.recoveries + 1);
        if Visible(r.text) {
          session.Add(AssistantMessage(r.text, []));
        }
        session.Add(Say(cfg, StreamRecovery(Visible(r.text), r.partialTool)));
        return n, None;
      }
      return n, Some(StreamFailed);
    }

    method OnAnswer(cfg: Config, n0: Counters, t: Turn) returns (n: Counters, stop: Option<Stop>)
      requires t.reply.Answer?
      modifies this, session`messages, session`version, session`rewriteVersion
      ensures Iteration(Now(n), stop) == AfterAnswer(cfg, old(Now(n0)), t)
    {
      hide Maintained;
      n := n0;
      if t.readiness != "" {
        n := n.(readinessBlocks := n.readinessBlocks + 1);
        if n.readinessBlocks >= MAX_FINAL_READINESS_BLOCKS {
          return n, Some(ReadinessFailed);
        }
        session.Add(Say(cfg, ReadinessRetry(t.readiness)));
        MaybeCompact(t.upkeep, t.reply.tokens);
      } else if !Visible(t.reply.text) {
        n := n.(emptyBlocks := n.emptyBlocks + 1);
        if n.emptyBlocks >= MAX_EMPTY_FINAL_BLOCKS {
          return n, Some(EmptyFinal);
        }
        session.Add(Say(cfg, EmptyFinalRetry));
        MaybeCompact(t.upkeep, t.reply.tokens);
      } else if cfg.handoff && !n.usedTool && n.nudges < MAX_HANDOFF_NUDGES && t.nudge {
        n := n.(nudges := n.nudges + 1);
        session.Add(Say(cfg, HandoffRetry));
        MaybeCompact(t.upkeep, t.reply.tokens);
      } else if steerQueue == [] {
        MaybeCompact(t.upkeep, t.reply.tokens);
        return n, Some(FinalAnswer);
      }
      return n.(step := n.step + 1), None;
    }

    method OnCalls(cfg: Config, n0: Counters, t: Turn) returns (n: Counters, stop: Option<Stop>)
      requires t.reply.Answer?
      modifies this, session`messages, session`version, session`rewriteVersion
      ensures Iteration(Now(n), stop) == AfterCalls(cfg, old(Now(n0)), t)
    {
      hide Maintained, ToolResults;
      n := n0.(emptyBlocks := 0, usedTool := true);
      if n.grace {
        return n, Some(PausedInGrace);
      }
      StoreResults(t.reply.calls, t.results);
      if t.cancelled {
        return n, Some(Cancelled);
      }
      MaybeCompact(t.upkeep, t.reply.tokens);
      if cfg.maxSteps > 0 && n.step + 1 >= cfg.maxSteps {
        n := n.(grace := true);
        session.Add(Say(cfg, GraceNudge));
      }
      return n.(step := n.step + 1), None;
    }

    /** Appends the batch's results behind the assistant turn, in call order. */
    method StoreResults(calls: seq<ToolCall>, results: nat -> string)
      modifies session`messages, session`version
      ensures session.messages == old(session.messages) + ToolResults(calls, results)
    {
      for i := 0 to |calls|
        invariant session.messages == old(session.messages) + ToolResults(calls, results)[..i]
      {
        session.Add(ToolMessage(calls[i], results(i)));
        assert ToolResults(calls, results)[..i + 1] ==
          ToolResults(calls, results)[..i] + [ToolMessage(calls[i], results(i))];
      }
    }
  }
}
