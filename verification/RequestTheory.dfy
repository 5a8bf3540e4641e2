/** What the provider's requests carry during a run: the session's log after the repair. */
module RequestTheory {
  import opened Text
  import opened Conversation
  import opened RunLoop
  import opened RunLoopTheory
  import opened Normalize
  import opened NormalizeTheory
  import opened WiredTheory

  /** The model's calls come with arguments that are empty or valid. */
  predicate Usable(j: Json, t: Turn) {
    t.reply.Answer? ==> CallsFine(j, t.reply.calls)
  }

  lemma CallIsWired(j: Json, cfg: Config, s: RunState, t: Turn)
    requires Wired(j, s.log)
    ensures Wired(j, AtCall(cfg, s, t).log)
  {
    var queue := s.queue + t.steersBefore;
    if queue != [] {
      WiredPlain(j, s.log, Say(cfg, SteerPrompt(queue[0])));
    }
  }

  /** An iteration with usable calls - retries, steers, tool batches, snips, prunes and folds
      included - leaves a well-formed log well-formed, save in the grace round. */
  lemma IterationWired(j: Json, cfg: Config, s: RunState, t: Turn)
    requires Wired(j, s.log) && Usable(j, t)
    ensures Wired(j, AtCall(cfg, s, t).log)
    ensures Wired(j, Iterate(cfg, s, t).next.log) <==> !CallsInGrace(s.n, t)
  {
    hide Maintained, Wired;
    CallIsWired(j, cfg, s, t);
    var log := AtCall(cfg, s, t).log;
    if CallsInGrace(s.n, t) {
      WiredMeaning(j, s.log);
      IterationPairing(cfg, s, t);
      WiredMeaning(j, Iterate(cfg, s, t).next.log);
    } else if t.reply.StreamError? {
      StreamErrorWired(j, cfg, s, t);
    } else if t.reply.calls == [] {
      WiredPlain(j, log, AssistantMessage(t.reply.text, []));
      AnswerWired(j, cfg, AnsweredState(cfg, s, t), t);
    } else {
      WiredBatch(j, log, t.reply.text, t.reply.calls, t.results);
      CallsWired(j, cfg, AnsweredState(cfg, s, t), t);
    }
  }

  lemma StreamErrorWired(j: Json, cfg: Config, s: RunState, t: Turn)
    requires t.reply.StreamError? && Wired(j, AtCall(cfg, s, t).log)
    ensures Wired(j, Iterate(cfg, s, t).next.log)
  {
    hide Wired;
    var log := AtCall(cfg, s, t).log;
    var partialLog := if Visible(t.reply.text) then log + [AssistantMessage(t.reply.text, [])] else log;
    WiredPlain(j, log, AssistantMessage(t.reply.text, []));
    WiredPlain(j, partialLog, Say(cfg, StreamRecovery(Visible(t.reply.text), t.reply.partialTool)));
  }

  lemma AnswerWired(j: Json, cfg: Config, s: RunState, t: Turn)
    requires t.reply.Answer? && Wired(j, s.log)
    ensures Wired(j, AfterAnswer(cfg, s, t).next.log)
  {
    hide Maintained, Wired;
    WiredMaintained(j, t.upkeep, s.gauge, s.log, t.reply.tokens);
    forall prompt: Prompt
      ensures Wired(j, Maintained(t.upkeep, s.gauge, s.log + [Say(cfg, prompt)], t.reply.tokens).log)
    {
      WiredPlain(j, s.log, Say(cfg, prompt));
      WiredMaintained(j, t.upkeep, s.gauge, s.log + [Say(cfg, prompt)], t.reply.tokens);
    }
  }

  lemma CallsWired(j: Json, cfg: Config, s: RunState, t: Turn)
    requires t.reply.Answer? && !s.n.grace && Wired(j, s.log + ToolResults(t.reply.calls, t.results))
    ensures Wired(j, AfterCalls(cfg, s, t).next.log)
  {
    hide Maintained, Wired;
    var log := s.log + ToolResults(t.reply.calls, t.results);
    WiredMaintained(j, t.upkeep, s.gauge, log, t.reply.tokens);
    WiredPlain(j, Maintained(t.upkeep, s.gauge, log, t.reply.tokens).log, Say(cfg, GraceNudge));
  }

  lemma {:induction false} RunWired(j: Json, cfg: Config, s: RunState, script: seq<Turn>)
    requires Wired(j, s.log) && forall k :: 0 <= k < |script| ==> Usable(j, script[k])
    ensures forall k :: 0 <= k < |CallLogs(cfg, s, script)| ==> Wired(j, CallLogs(cfg, s, script)[k])
    ensures Wired(j, RunFrom(cfg, s, script).next.log) <==> !EndsInGraceCalls(cfg, s, script)
    decreases |script|
  {
    hide Iterate, AtCall, Wired, CallsInGrace, Usable;
    if script != [] && Going(cfg, s.n) {
      IterationWired(j, cfg, s, script[0]);
      PausesExactly(cfg, s, script[0]);
      var r := Iterate(cfg, s, script[0]);
      if r.stop.None? {
        RunWired(j, cfg, r.next, script[1..]);
      }
    }
  }

  /** From a well-formed log and with usable calls no request of a run needs any repair: each is
      the session's log as it stands. The log left behind is well-formed again if and only if
      the last iteration does not get calls in the grace round. */
  lemma RequestsAreTheLog(j: Json, cfg: Config, log: Log, queue: seq<string>, g: Gauge, input: string,
                          script: seq<Turn>)
    requires Wired(j, log) && forall k :: 0 <= k < |script| ==> Usable(j, script[k])
    ensures var s := Start(log, queue, g, input);
      (forall k :: 0 <= k < |CallLogs(cfg, s, script)| ==>
         Normalized(j, CallLogs(cfg, s, script)[k], true) == CallLogs(cfg, s, script)[k]) &&
      (Wired(j, RunFrom(cfg, s, script).next.log) <==> !EndsInGraceCalls(cfg, s, script))
  {
    hide Wired, Usable, Normalized;
    var s := Start(log, queue, g, input);
    WiredPlain(j, log, UserMessage(input));
    RunWired(j, cfg, s, script);
    hide CallLogs, RunFrom, EndsInGraceCalls;
    forall k | 0 <= k < |CallLogs(cfg, s, script)|
      ensures Normalized(j, CallLogs(cfg, s, script)[k], true) == CallLogs(cfg, s, script)[k]
    {
      RepairedStays(j, CallLogs(cfg, s, script)[k], true);
    }
  }

  lemma WiredBefore(j: Json, log: Log, m: Message)
    requires Wired(j, log + [m]) && m.role.User?
    ensures Wired(j, log)
  {
    hide Wired, Paired, Tag;
    WiredByTags(j, log);
    WiredByTags(j, log + [m]);
    TaggedCuts(log + [m], |log|, |log|);
    assert (log + [m])[..|log|] == log;
    ArgsStayFine(j, log + [m], log);
  }

  lemma WiredSinceCall(j: Json, cfg: Config, s: RunState, t: Turn)
    requires Wired(j, AtCall(cfg, s, t).log)
    ensures Wired(j, s.log)
  {
    hide Wired;
    var queue := s.queue + t.steersBefore;
    if queue != [] {
      WiredBefore(j, s.log, Say(cfg, SteerPrompt(queue[0])));
    }
  }

  lemma {:induction false} WiredFromThen(j: Json, cfg: Config, s: RunState, script: seq<Turn>, k: nat, l: nat)
    requires k <= l < |CallLogs(cfg, s, script)| && forall i :: 0 <= i < |script| ==> Usable(j, script[i])
    requires Wired(j, CallLogs(cfg, s, script)[k])
    ensures Wired(j, CallLogs(cfg, s, script)[l])
    decreases |script|
  {
    hide Iterate, AtCall, Wired, Usable;
    if k == 0 {
      WiredSinceCall(j, cfg, s, script[0]);
      RunWired(j, cfg, s, script);
    } else {
      WiredFromThen(j, cfg, Iterate(cfg, s, script[0]).next, script[1..], k - 1, l - 1);
    }
  }

  /** Whatever log a run starts from, every request is paired; and once one is the session's log
      as it stands, all later ones of the run are. */
  lemma EveryRequestIsPaired(j: Json, cfg: Config, s: RunState, script: seq<Turn>, k: nat, l: nat)
    requires SaneJson(j) && forall i :: 0 <= i < |script| ==> Usable(j, script[i])
    requires k <= l < |CallLogs(cfg, s, script)|
    ensures var logs := CallLogs(cfg, s, script);
      Paired(Normalized(j, logs[k], true)) &&
      (Normalized(j, logs[k], true) == logs[k] ==> Normalized(j, logs[l], true) == logs[l])
  {
    hide Normalized, Wired, Usable;
    var logs := CallLogs(cfg, s, script);
    SentIsPaired(j, logs[k]);
    SentIsPaired(j, logs[l]);
    if Wired(j, logs[k]) {
      WiredFromThen(j, cfg, s, script, k, l);
    }
  }

  /** The next turn after calls in the grace round: its first request answers each of the
      stored calls with a placeholder and is otherwise the session's log. */
  lemma GracePauseIsAnswered(j: Json, cfg: Config, s: RunState, t: Turn, next: Config, queue: seq<string>,
                             input: string, u: Turn)
    requires CallsInGrace(s.n, t) && Wired(j, AtCall(cfg, s, t).log)
    ensures var log, left := AtCall(cfg, s, t).log, Iterate(cfg, s, t).next;
      var asked := AtCall(next, Start(left.log, queue, left.gauge, input), u).log;
      var m := AssistantMessage(t.reply.text, t.reply.calls);
      |log| < |asked| && asked[..|log| + 1] == log + [m] &&
      Normalized(j, asked, true) ==
        log + [m.(calls := RepairArgs(j, m.calls))] + Placeholders(m.calls) + asked[|log| + 1..]
  {
    var log, left := AtCall(cfg, s, t).log, Iterate(cfg, s, t).next;
    var m, asked := AssistantMessage(t.reply.text, t.reply.calls),
                    AtCall(next, Start(left.log, queue, left.gauge, input), u).log;
    var rest := GraceAsks(cfg, s, t, next, queue, input, u);
    hide AtCall, Iterate, Start, Wired, Repair, NeedsNothing, Placeholders, RepairArgs;
    assert asked[..|log| + 1] == log + [m] && asked[|log| + 1..] == rest;
    DanglingTurnIsAnswered(j, log, m, rest);
    PlainStays(j, rest);
    DanglingNeedsRepair(j, log, m, rest);
  }

  /** The log of that request ends in the calls and then what the user and the host say. */
  lemma GraceAsks(cfg: Config, s: RunState, t: Turn, next: Config, queue: seq<string>, input: string, u: Turn)
    returns (rest: Log)
    requires CallsInGrace(s.n, t)
    ensures rest != [] && |rest| <= 2 && forall k :: 0 <= k < |rest| ==> rest[k].role.User?
    ensures var left := Iterate(cfg, s, t).next;
      AtCall(next, Start(left.log, queue, left.gauge, input), u).log ==
        AtCall(cfg, s, t).log + [AssistantMessage(t.reply.text, t.reply.calls)] + rest
  {
    var steers := queue + u.steersBefore;
    rest := if steers == [] then [UserMessage(input)] else [UserMessage(input), Say(next, SteerPrompt(steers[0]))];
    assert Iterate(cfg, s, t).next.log == AtCall(cfg, s, t).log + [AssistantMessage(t.reply.text, t.reply.calls)];
  }

  lemma PlainStays(j: Json, rest: Log)
    requires rest != [] && |rest| <= 2 && forall k :: 0 <= k < |rest| ==> rest[k].role.User?
    ensures Repair(j, rest, true) == rest
  {
    assert rest[1..] == [] || (rest[1..][1..] == [] && rest[1..][0] == rest[1]);
  }

  lemma DanglingNeedsRepair(j: Json, log: Log, m: Message, rest: Log)
    requires Wired(j, log) && Opens(m) != [] && rest != [] && rest[0].role.User?
    ensures !NeedsNothing(j, log + [m] + rest, true)
  {
    var all := log + [m] + rest;
    hide Opens, NeedsNothing, Wired, Paired;
    WiredMeaning(j, log);
    DanglingIsUnpaired(log, m, rest);
    WiredMeaning(j, all);
    if NeedsNothing(j, all, true) {
      FastIsWired(j, all);
    }
  }

  lemma DanglingIsUnpaired(log: Log, m: Message, rest: Log)
    requires Paired(log) && Opens(m) != [] && rest != [] && rest[0].role.User?
    ensures !Paired(log + [m] + rest)
  {
    PlainMessagePaired(log, m);
    ScanConcat(BALANCED, log + [m], rest);
    ScanBroken(rest[1..]);
    assert ScanOne(Expect(CallIds(Opens(m))), rest[0]) == Broken;
  }
}
