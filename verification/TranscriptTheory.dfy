/** What a run of the turn loop writes into the log, turn by turn, read off the outside events. */
module TranscriptTheory {
  import opened Text
  import opened Conversation
  import opened Maintenance
  import opened RunLoop
  import opened RunLoopTheory
  import opened StopTheory

  /** The oldest waiting steer, if any. */
  function Heard(cfg: Config, queue: seq<string>, script: seq<Turn>, n: nat): Log
    requires n < |script|
  {
    var waiting, k := Arrived(queue, script, n) + script[n].steersBefore, Taken(queue, script, n);
    if k < |waiting| then [Say(cfg, SteerPrompt(waiting[k]))] else []
  }

  /** What the model said: an answer with its calls, or the visible part of a broken stream. */
  function Said(script: seq<Turn>, n: nat): Log
    requires n < |script|
  {
    var t := script[n];
    if BrokeOff(t) then
      if StreamFails(script, n) || !Visible(t.reply.text) then [] else [AssistantMessage(t.reply.text, [])]
    else [AssistantMessage(t.reply.text, t.reply.calls)]
  }

  /** What follows in the same turn: the results, or the one prompt that asks for more. */
  function Followed(cfg: Config, script: seq<Turn>, n: nat): Log
    requires n < |script|
  {
    var t := script[n];
    if BrokeOff(t) && !StreamFails(script, n) then
      [Say(cfg, StreamRecovery(Visible(t.reply.text), t.reply.partialTool))]
    else if Blocked(t) && !ReadinessFails(script, n) then [Say(cfg, ReadinessRetry(t.readiness))]
    else if Blank(t) && !BlankFails(script, n) then [Say(cfg, EmptyFinalRetry)]
    else if Nudges(cfg, script, n) then [Say(cfg, HandoffRetry)]
    else if Called(t) && !LimitSpent(cfg, script, n) then ToolResults(t.reply.calls, t.results)
    else []
  }

  function Added(cfg: Config, queue: seq<string>, script: seq<Turn>, n: nat): Log
    requires n < |script|
  {
    Heard(cfg, queue, script, n) + Said(script, n) + Followed(cfg, script, n)
  }

  /** The turn ends with maintenance: a retry, a nudge, a final answer, or a batch that was not
      cancelled. */
  predicate Maintains(cfg: Config, queue: seq<string>, script: seq<Turn>, n: nat)
    requires n < |script|
  {
    var t := script[n];
    (Blocked(t) && !ReadinessFails(script, n)) || (Blank(t) && !BlankFails(script, n)) || Nudges(cfg, script, n) ||
    Finishes(cfg, queue, script, n) || (Called(t) && !LimitSpent(cfg, script, n) && !t.cancelled)
  }

  /** The batch uses up the limit, and the model is asked to conclude. */
  predicate BeginsGrace(cfg: Config, script: seq<Turn>, n: nat)
    requires n < |script|
  {
    SpendsLimit(cfg, script, n) && !LimitSpent(cfg, script, n) && !script[n].cancelled
  }

  function Grown(cfg: Config, queue: seq<string>, script: seq<Turn>, n: nat, s: RunState): Kept
    requires n < |script|
  {
    var t, log := script[n], s.log + Added(cfg, queue, script, n);
    if Maintains(cfg, queue, script, n) then Maintained(t.upkeep, s.gauge, log, t.reply.tokens) else Kept(s.gauge, log)
  }

  lemma HeardAtCall(cfg: Config, queue: seq<string>, script: seq<Turn>, n: nat, s: RunState)
    requires n < |script| && Counted(cfg, queue, script, n, s)
    ensures AtCall(cfg, s, script[n]).log == s.log + Heard(cfg, queue, script, n)
    ensures AtCall(cfg, s, script[n]).gauge == s.gauge && AtCall(cfg, s, script[n]).n == s.n
  {
    hide Answers, Blocks, Blanks, Breaks, NudgesCounted, LimitSpent, ToolsUsed;
    var t, a, k := script[n], Arrived(queue, script, n), Taken(queue, script, n);
    assert s.queue + t.steersBefore == (a + t.steersBefore)[k..];
  }

  /** The conditions in terms of the loop's variables. */
  lemma CountsAt(cfg: Config, queue: seq<string>, script: seq<Turn>, n: nat, s: RunState)
    requires n < |script| && Counted(cfg, queue, script, n, s)
    ensures var t := script[n];
      (BrokeOff(t) ==> (StreamFails(script, n) <==> !t.reply.interrupted || s.n.recoveries >= MAX_STREAM_RECOVERIES)) &&
      (Blocked(t) ==> (ReadinessFails(script, n) <==> s.n.readinessBlocks + 1 >= MAX_FINAL_READINESS_BLOCKS)) &&
      (Blank(t) ==> (BlankFails(script, n) <==> s.n.emptyBlocks + 1 >= MAX_EMPTY_FINAL_BLOCKS)) &&
      (Nudges(cfg, script, n) <==> Spoken(t) && NudgeDue(cfg, s.n, t)) &&
      (LimitSpent(cfg, script, n) <==> s.n.grace) &&
      (Called(t) ==> (SpendsLimit(cfg, script, n) <==> cfg.maxSteps > 0 && s.n.step + 1 >= cfg.maxSteps))
  {
    hide Called, Blocked, Blank, BrokeOff, Spoken, Arrived, Taken;
    Kinds(script[n]);
  }

  lemma BrokenSays(cfg: Config, queue: seq<string>, script: seq<Turn>, n: nat, s: RunState)
    requires n < |script| && Counted(cfg, queue, script, n, s) && BrokeOff(script[n])
    ensures Iterate(cfg, s, script[n]).next.log == s.log + Added(cfg, queue, script, n)
    ensures Iterate(cfg, s, script[n]).next.gauge == s.gauge
    ensures !Maintains(cfg, queue, script, n) && !BeginsGrace(cfg, script, n)
  {
    hide Counted, AtCall, Heard, Taken, Arrived, Visible, LimitSpent, Nudges;
    HeardAtCall(cfg, queue, script, n, s);
    CountsAt(cfg, queue, script, n, s);
    var heard, said, more := Heard(cfg, queue, script, n), Said(script, n), Followed(cfg, script, n);
    assert s.log + (heard + said + more) == s.log + heard + said + more;
  }

  lemma AnsweredSays(cfg: Config, queue: seq<string>, script: seq<Turn>, n: nat, s: RunState)
    requires n < |script| && Counted(cfg, queue, script, n, s) && !BrokeOff(script[n])
    ensures var a := AnsweredState(cfg, s, script[n]);
      a.log == s.log + Heard(cfg, queue, script, n) + Said(script, n) && a.gauge == s.gauge &&
      a.n == s.n.(recoveries := 0) &&
      (a.queue == [] <==> Taken(queue, script, n + 1) == |Arrived(queue, script, n + 1)|)
  {
    hide Counted, AtCall, Heard, Taken, Arrived, Visible;
    HeardAtCall(cfg, queue, script, n, s);
    QueueStep(cfg, queue, script, n, s);
  }

  lemma AnswerSays(cfg: Config, queue: seq<string>, script: seq<Turn>, n: nat, s: RunState)
    requires n < |script| && Counted(cfg, queue, script, n, s) && !BrokeOff(script[n]) && !Called(script[n])
    ensures Kept(Iterate(cfg, s, script[n]).next.gauge, Iterate(cfg, s, script[n]).next.log) ==
      Grown(cfg, queue, script, n, s)
    ensures !BeginsGrace(cfg, script, n)
  {
    hide Counted, AtCall, Maintained, Heard, Said, Taken, Arrived, Visible, LimitSpent, Nudges;
    hide ReadinessFails, BlankFails, Blanks, Blocks, SpendsLimit;
    AnsweredSays(cfg, queue, script, n, s);
    CountsAt(cfg, queue, script, n, s);
    Kinds(script[n]);
    var heard, said, more := Heard(cfg, queue, script, n), Said(script, n), Followed(cfg, script, n);
    var a := AnsweredState(cfg, s, script[n]);
    assert s.log + (heard + said + more) == a.log + more;
    assert a.log + [] == a.log;
    NotCalledNoGrace(cfg, script, n);
  }

  lemma NotCalledNoGrace(cfg: Config, script: seq<Turn>, n: nat)
    requires n < |script| && !Called(script[n])
    ensures !SpendsLimit(cfg, script, n)
  {
  }

  lemma CallsSay(cfg: Config, queue: seq<string>, script: seq<Turn>, n: nat, s: RunState)
    requires n < |script| && Counted(cfg, queue, script, n, s) && Called(script[n])
    ensures var kept, next := Grown(cfg, queue, script, n, s), Iterate(cfg, s, script[n]).next;
      next.gauge == kept.gauge &&
      next.log == kept.log + if BeginsGrace(cfg, script, n) then [Say(cfg, GraceNudge)] else []
  {
    hide Counted, AtCall, Maintained, Heard, Said, Taken, Arrived, Visible, LimitSpent, Nudges;
    hide SpendsLimit, ToolResults;
    AnsweredSays(cfg, queue, script, n, s);
    CountsAt(cfg, queue, script, n, s);
    Kinds(script[n]);
    var heard, said, more := Heard(cfg, queue, script, n), Said(script, n), Followed(cfg, script, n);
    assert s.log + (heard + said + more) == s.log + heard + said + more;
    assert heard + said + [] == heard + said;
    var kept := Grown(cfg, queue, script, n, s);
    assert kept.log + [] == kept.log;
  }

  /** From a counted state a turn adds exactly these messages, keeps the log in shape exactly in
      these cases, and asks to conclude last. */
  lemma TurnSays(cfg: Config, queue: seq<string>, script: seq<Turn>, n: nat, s: RunState)
    requires n < |script| && Counted(cfg, queue, script, n, s)
    ensures var kept, next := Grown(cfg, queue, script, n, s), Iterate(cfg, s, script[n]).next;
      next.gauge == kept.gauge &&
      next.log == kept.log + if BeginsGrace(cfg, script, n) then [Say(cfg, GraceNudge)] else []
  {
    hide Counted, Iterate, Added, Maintains, BeginsGrace, Called, BrokeOff;
    if BrokeOff(script[n]) {
      BrokenSays(cfg, queue, script, n, s);
    } else if Called(script[n]) {
      CallsSay(cfg, queue, script, n, s);
    } else {
      AnswerSays(cfg, queue, script, n, s);
    }
    var kept := Grown(cfg, queue, script, n, s);
    assert kept.log + [] == kept.log;
  }

  // ----- whole runs -----

  /** Log and latches before turn n of a run, by what each turn adds and where it maintains. */
  function KeptAt(cfg: Config, queue: seq<string>, script: seq<Turn>, start: Kept, n: nat): Kept
    requires n <= |script|
  {
    if n == 0 then start
    else
      var k, t := KeptAt(cfg, queue, script, start, n - 1), script[n - 1];
      var log := k.log + Added(cfg, queue, script, n - 1);
      var kept :=
        if Maintains(cfg, queue, script, n - 1) then Maintained(t.upkeep, k.gauge, log, t.reply.tokens)
        else Kept(k.gauge, log);
      if BeginsGrace(cfg, script, n - 1) then Kept(kept.gauge, kept.log + [Say(cfg, GraceNudge)]) else kept
  }

  lemma {:induction false} StatesKept(cfg: Config, queue: seq<string>, s: RunState, script: seq<Turn>, n: nat)
    requires n <= |script| && Counted(cfg, queue, script, 0, s)
    requires forall k :: 0 <= k < n - 1 ==> GoesOn(cfg, queue, script, k)
    ensures var now := StateAt(cfg, s, script, n);
      Kept(now.gauge, now.log) == KeptAt(cfg, queue, script, Kept(s.gauge, s.log), n)
    decreases n
  {
    hide Counted, Iterate, GoesOn, Added, Maintains, BeginsGrace, Maintained;
    if n > 0 {
      StatesKept(cfg, queue, s, script, n - 1);
      CountedThroughout(cfg, queue, s, script, n - 1);
      TurnSays(cfg, queue, script, n - 1, StateAt(cfg, s, script, n - 1));
      var kept := Grown(cfg, queue, script, n - 1, StateAt(cfg, s, script, n - 1));
      assert kept.log + [] == kept.log;
    }
  }

  /** Log and latches a run leaves: those after the last turn it started, each turn adding its
      messages and maintaining exactly where it should. */
  lemma RunLeaves(cfg: Config, log: Log, queue: seq<string>, g: Gauge, input: string, script: seq<Turn>, n: nat,
                  stop: Stop)
    requires n <= |script| && EndsAt(cfg, queue, script, n, stop)
    ensures var next := RunFrom(cfg, Start(log, queue, g, input), script).next;
      Kept(next.gauge, next.log) ==
        KeptAt(cfg, queue, script, Kept(g, log + [UserMessage(input)]), if stop.PausedOnBudget? then n else n + 1)
  {
    hide Counted, RunFrom, KeptAt, EndsAs, OutOfBudget;
    var s := Start(log, queue, g, input);
    StartCounted(cfg, log, queue, g, input, script);
    EndGives(cfg, queue, s, script, n, stop);
    StatesKept(cfg, queue, s, script, if stop.PausedOnBudget? then n else n + 1);
  }

  /** Behind a cancelled batch nothing happens any more: the log ends with the calls and one
      result for each, nothing is maintained and nobody is called again. */
  lemma CancelledRunEnds(cfg: Config, log: Log, queue: seq<string>, g: Gauge, input: string, script: seq<Turn>, n: nat)
    requires n < |script| && AllGoOn(cfg, queue, script, n) && !OutOfBudget(cfg, script, n)
    requires Called(script[n]) && !LimitSpent(cfg, script, n) && script[n].cancelled
    ensures var s, t := Start(log, queue, g, input), script[n];
      var before := KeptAt(cfg, queue, script, Kept(g, log + [UserMessage(input)]), n);
      RunFrom(cfg, s, script).stop == Some(Cancelled) && |CallLogs(cfg, s, script)| == n + 1 &&
      RunFrom(cfg, s, script).next.gauge == before.gauge &&
      RunFrom(cfg, s, script).next.log == before.log + Heard(cfg, queue, script, n) +
        [AssistantMessage(t.reply.text, t.reply.calls)] + ToolResults(t.reply.calls, t.results)
  {
    hide RunFrom, CallLogs, Start, AllGoOn, OutOfBudget, LimitSpent, Heard, Nudges, KeptAt, ToolResults;
    assert EndsAt(cfg, queue, script, n, Cancelled);
    StopsExactly(cfg, log, queue, g, input, script, Cancelled);
    RunLeaves(cfg, log, queue, g, input, script, n, Cancelled);
    KeptCancelled(cfg, queue, script, Kept(g, log + [UserMessage(input)]), n);
  }

  lemma KeptCancelled(cfg: Config, queue: seq<string>, script: seq<Turn>, start: Kept, n: nat)
    requires n < |script| && Called(script[n]) && !LimitSpent(cfg, script, n) && script[n].cancelled
    ensures var before, t := KeptAt(cfg, queue, script, start, n), script[n];
      KeptAt(cfg, queue, script, start, n + 1) == Kept(before.gauge,
        before.log + Heard(cfg, queue, script, n) + [AssistantMessage(t.reply.text, t.reply.calls)] +
        ToolResults(t.reply.calls, t.results))
  {
    hide LimitSpent, Heard, ToolResults, Maintained, Maintains, Added, BeginsGrace;
    CancelledAdds(cfg, queue, script, n);
    var before, t := KeptAt(cfg, queue, script, start, n), script[n];
    var heard, m := Heard(cfg, queue, script, n), [AssistantMessage(t.reply.text, t.reply.calls)];
    var results := ToolResults(t.reply.calls, t.results);
    assert before.log + (heard + m + results) == before.log + heard + m + results;
  }

  lemma CancelledAdds(cfg: Config, queue: seq<string>, script: seq<Turn>, n: nat)
    requires n < |script| && Called(script[n]) && !LimitSpent(cfg, script, n) && script[n].cancelled
    ensures var t := script[n];
      Added(cfg, queue, script, n) == Heard(cfg, queue, script, n) +
        [AssistantMessage(t.reply.text, t.reply.calls)] + ToolResults(t.reply.calls, t.results)
    ensures !Maintains(cfg, queue, script, n) && !BeginsGrace(cfg, script, n)
  {
    hide Heard, LimitSpent, ToolResults;
  }
}
