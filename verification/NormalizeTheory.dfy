/** What the repair guarantees: whatever is sent is paired, and a log that is sent unchanged is
    exactly a well-formed one. */
module NormalizeTheory {
  import opened Text
  import opened Conversation
  import opened Normalize

  predicate GroupWired(j: Json, calls: seq<ToolCall>, results: Log) {
    |calls| == |results| && forall k :: 0 <= k < |calls| ==>
      results[k].role.Tool? && results[k].toolCallId == calls[k].id && results[k].name == calls[k].name &&
      ArgsOk(j, calls[k])
  }

  /** Each turn with calls is followed by exactly its results, which carry its calls' names, and
      the arguments of every call are empty or valid. */
  predicate Wired(j: Json, log: Log)
    decreases |log|
  {
    log == [] ||
    (!log[0].role.Tool? &&
     var n := |Opens(log[0])|;
     n < |log| && GroupWired(j, Opens(log[0]), log[1..1 + n]) && Wired(j, log[1 + n..]))
  }

  /** Names and arguments, read off the log message by message. */
  ghost predicate Labelled(j: Json, log: Log) {
    forall a: nat, k: nat :: a < |log| && k < |Opens(log[a])| && a + 1 + k < |log| ==>
      log[a + 1 + k].name == Opens(log[a])[k].name && ArgsOk(j, Opens(log[a])[k])
  }

  // ----- what the repair produces -----

  lemma WiredCons(j: Json, m: Message, results: Log, rest: Log)
    requires !m.role.Tool? && GroupWired(j, Opens(m), results) && Wired(j, rest)
    ensures Wired(j, [m] + results + rest)
  {
    hide GroupWired;
    var log, n := [m] + results + rest, |Opens(m)|;
    assert |results| == n by { GroupSize(j, Opens(m), results); }
    assert log[1..1 + n] == results && log[1 + n..] == rest;
  }

  lemma GroupSize(j: Json, calls: seq<ToolCall>, results: Log)
    requires GroupWired(j, calls, results)
    ensures |results| == |calls|
  {
  }

  lemma RepairedGroup(j: Json, m: Message, avail: Log)
    requires SaneJson(j) && m.role.Assistant? && AllTools(avail)
    ensures var calls := BackfillNames(m.calls, avail);
      GroupWired(j, RepairArgs(j, calls), PairResults(calls, avail))
  {
    hide InterruptedText, NameFor;
    var calls := BackfillNames(m.calls, avail);
    forall k | 0 <= k < |calls| ensures var r := PairResults(calls, avail)[k];
      r.role.Tool? && r.toolCallId == calls[k].id && r.name == calls[k].name && ArgsOk(j, RepairArgs(j, calls)[k])
    {
      assert PairResults(calls, avail)[k] == Answer(calls, avail, k);
    }
  }

  lemma {:induction false} RepairIsWired(j: Json, log: Log)
    requires SaneJson(j)
    ensures Wired(j, Repair(j, log, true))
    decreases |log|
  {
    hide GroupWired, ToolRun, BackfillNames, PairResults, RepairArgs;
    if log != [] {
      var m := log[0];
      if Opens(m) != [] {
        var n := ToolRun(log[1..]);
        RepairIsWired(j, log[1 + n..]);
        RepairedGroup(j, m, log[1..1 + n]);
        var calls := BackfillNames(m.calls, log[1..1 + n]);
        var fixed := m.(calls := RepairArgs(j, calls));
        hide Wired;
        WiredCons(j, fixed, PairResults(calls, log[1..1 + n]), Repair(j, log[1 + n..], true));
      } else {
        RepairIsWired(j, log[1..]);
        if !m.role.Tool? {
          assert GroupWired(j, [], []) by { EmptyGroup(j); }
          hide Wired;
          WiredCons(j, m, [], Repair(j, log[1..], true));
          assert [m] + [] + Repair(j, log[1..], true) == [m] + Repair(j, log[1..], true);
        }
      }
    }
  }

  lemma EmptyGroup(j: Json)
    ensures GroupWired(j, [], [])
  {
  }

  lemma {:induction false} FastIsWired(j: Json, log: Log)
    requires NeedsNothing(j, log, true)
    ensures Wired(j, log)
    decreases |log|
  {
    hide ToolRun, TurnWellFormed, GroupWired;
    if log != [] {
      if Opens(log[0]) != [] {
        var n := ToolRun(log[1..]);
        FastIsWired(j, log[1 + n..]);
        assert forall k :: 0 <= k < n ==> log[1..1 + n][k] == log[1..][k];
        WellFormedIsWired(j, log[0].calls, log[1..1 + n]);
      } else {
        FastIsWired(j, log[1..]);
        EmptyGroup(j);
        assert log[1..1] == [];
      }
    }
  }

  lemma WellFormedIsWired(j: Json, calls: seq<ToolCall>, results: Log)
    requires TurnWellFormed(j, calls, results) && AllTools(results)
    ensures GroupWired(j, calls, results) && |calls| == |results|
  {
  }

  // ----- what the repair leaves alone -----

  lemma LastStep(results: Log, n: nat, id: string)
    requires 0 < n <= |results|
    ensures var r := results[n - 1];
      LastWith(results[..n], id) == (if r.toolCallId == id then Some(r) else LastWith(results[..n - 1], id)) &&
      NameFor(results[..n], id) ==
        (if r.toolCallId == id && r.name != "" then r.name else NameFor(results[..n - 1], id))
  {
    assert results[..n][..n - 1] == results[..n - 1] && results[..n][n - 1] == results[n - 1];
  }

  lemma {:induction false} OwnResult(calls: seq<ToolCall>, results: Log, k: nat, upTo: nat)
    requires IdDistinct(calls) && SameLabels(calls, results) && k < upTo <= |calls|
    ensures LastWith(results[..upTo], calls[k].id) == Some(results[k])
    ensures NameFor(results[..upTo], calls[k].id) == calls[k].name
    decreases upTo
  {
    hide LastWith, NameFor;
    LastStep(results, upTo, calls[k].id);
    assert results[upTo - 1].toolCallId == calls[upTo - 1].id && results[k].name == calls[k].name;
    if k < upTo - 1 {
      assert calls[k].id != calls[upTo - 1].id;
      OwnResult(calls, results, k, upTo - 1);
    } else {
      NoResult(calls, results, k, upTo - 1);
    }
  }

  lemma {:induction false} NoResult(calls: seq<ToolCall>, results: Log, k: nat, upTo: nat)
    requires IdDistinct(calls) && SameLabels(calls, results) && upTo <= k < |calls|
    ensures NameFor(results[..upTo], calls[k].id) == ""
    decreases upTo
  {
    if upTo > 0 {
      hide LastWith, NameFor;
      LastStep(results, upTo, calls[k].id);
      assert calls[upTo - 1].id != calls[k].id && results[upTo - 1].toolCallId == calls[upTo - 1].id;
      NoResult(calls, results, k, upTo - 1);
    }
  }

  /** A wired group is its own repair, for sending and for loading. */
  lemma WiredGroupStays(j: Json, m: Message, results: Log, wire: bool)
    requires m.role.Assistant? && GroupWired(j, m.calls, results)
    ensures RepairGroup(j, m, results, wire) == [m] + results
  {
    var calls := m.calls;
    OwnResults(calls, results);
    NamesStay(calls, results);
    assert RepairArgs(j, calls) == calls;
    hide IdDistinct, NameFor, FilledName, GroupWired, RepairArgs, LastWith, InterruptedText;
    assert BackfillNames(calls, results) == calls;
    AnswersStay(calls, results);
    NothingMissing(calls, results);
    hide BackfillNames, MissingCalls, PairResults;
    assert results + [] == results;
  }

  predicate SameLabels(calls: seq<ToolCall>, results: Log) {
    |calls| == |results| && forall l :: 0 <= l < |calls| ==>
      results[l].toolCallId == calls[l].id && results[l].name == calls[l].name
  }

  lemma OwnResults(calls: seq<ToolCall>, results: Log)
    requires SameLabels(calls, results)
    ensures IdDistinct(calls) ==> forall k :: 0 <= k < |calls| ==>
      LastWith(results, calls[k].id) == Some(results[k]) && NameFor(results, calls[k].id) == calls[k].name
  {
    assert results[..|calls|] == results;
    if IdDistinct(calls) {
      forall k | 0 <= k < |calls|
        ensures LastWith(results, calls[k].id) == Some(results[k]) && NameFor(results, calls[k].id) == calls[k].name
      {
        OwnResult(calls, results, k, |calls|);
      }
    }
  }

  lemma AnswersStay(calls: seq<ToolCall>, results: Log)
    requires SameLabels(calls, results)
    requires IdDistinct(calls) ==> forall k :: 0 <= k < |calls| ==> LastWith(results, calls[k].id) == Some(results[k])
    ensures PairResults(calls, results) == results
  {
    hide IdDistinct, LastWith, InterruptedText;
    forall k | 0 <= k < |calls| ensures Answer(calls, results, k) == results[k] {
    }
  }

  lemma NamesStay(calls: seq<ToolCall>, results: Log)
    requires |calls| == |results| && forall k :: 0 <= k < |calls| ==> results[k].name == calls[k].name
    requires IdDistinct(calls) ==> forall k :: 0 <= k < |calls| ==> NameFor(results, calls[k].id) == calls[k].name
    ensures forall k :: 0 <= k < |calls| ==> FilledName(calls, results, k) == calls[k].name
  {
    hide IdDistinct, NameFor;
  }

  lemma NothingMissing(calls: seq<ToolCall>, results: Log)
    requires |calls| == |results|
    requires IdDistinct(calls) ==> forall k :: 0 <= k < |calls| ==> LastWith(results, calls[k].id).Some?
    ensures MissingCalls(calls, results) == []
  {
    hide IdDistinct;
    if IdDistinct(calls) {
      AllAnswered(calls, results);
    }
  }

  lemma {:induction false} AllAnswered(calls: seq<ToolCall>, results: Log)
    requires forall k :: 0 <= k < |calls| ==> LastWith(results, calls[k].id).Some?
    ensures WithoutResult(calls, results) == []
  {
    hide LastWith;
    if calls != [] {
      AllAnswered(calls[1..], results);
    }
  }

  predicate AllTools(log: Log) {
    forall k :: 0 <= k < |log| ==> log[k].role.Tool?
  }

  lemma {:induction false} ToolRunExact(group: Log, rest: Log)
    requires AllTools(group) && (rest == [] || !rest[0].role.Tool?)
    ensures ToolRun(group + rest) == |group|
  {
    if group == [] {
      assert group + rest == rest;
    } else {
      assert (group + rest)[1..] == group[1..] + rest;
      ToolRunExact(group[1..], rest);
    }
  }

  /** In front of anything that does not begin with a tool message a wired log stays. */
  lemma {:induction false} WiredStays(j: Json, log: Log, rest: Log, wire: bool)
    requires Wired(j, log) && (rest == [] || !rest[0].role.Tool?)
    ensures Repair(j, log + rest, wire) == log + Repair(j, rest, wire)
    decreases |log|
  {
    hide GroupWired, RepairGroup, ToolRun, Repair, NeedsNothing;
    if log == [] {
      assert log + rest == rest && [] + Repair(j, rest, wire) == Repair(j, rest, wire);
    } else {
      var n := |Opens(log[0])|;
      WiredStays(j, log[1 + n..], rest, wire);
      WiredHeadStays(j, log, rest, n, wire);
      assert [log[0]] + log[1..1 + n] + log[1 + n..] == log;
      assert [log[0]] + log[1..1 + n] + (log[1 + n..] + Repair(j, rest, wire)) ==
             [log[0]] + log[1..1 + n] + log[1 + n..] + Repair(j, rest, wire);
    }
  }

  lemma WiredHeadStays(j: Json, log: Log, rest: Log, n: nat, wire: bool)
    requires log != [] && Wired(j, log) && n == |Opens(log[0])| && (rest == [] || !rest[0].role.Tool?)
    ensures n < |log| &&
      Repair(j, log + rest, wire) == [log[0]] + log[1..1 + n] + Repair(j, log[1 + n..] + rest, wire)
  {
    var all := log + rest;
    BehindHead(log, rest, n);
    assert all[0..] == all;
    if n > 0 {
      ToolRunOf(j, log, rest);
      assert GroupEnd(all, 0) == 1 + n;
      WiredGroupStays(j, log[0], log[1..1 + n], wire);
      hide GroupWired, RepairGroup, ToolRun, Repair, NeedsNothing, GroupEnd, TurnWellFormed;
      RepairAtCalls(j, all, 0, wire);
    } else {
      hide GroupWired, RepairGroup, ToolRun, Repair, NeedsNothing;
      RepairAtPlain(j, all, 0, wire);
      assert log[1..1] == [] && [log[0]] + [] == [log[0]];
    }
  }

  lemma WiredParts(j: Json, log: Log)
    requires log != [] && Wired(j, log)
    ensures var n := |Opens(log[0])|;
      n < |log| && AllTools(log[1..1 + n]) &&
      (log[1 + n..] == [] || !log[1 + n..][0].role.Tool?)
  {
  }

  lemma ToolRunOf(j: Json, log: Log, rest: Log)
    requires log != [] && Wired(j, log) && (rest == [] || !rest[0].role.Tool?)
    ensures ToolRun((log + rest)[1..]) == |Opens(log[0])|
  {
    WiredParts(j, log);
    hide Wired, ToolRun, Opens;
    var n := |Opens(log[0])|;
    var group, after := log[1..1 + n], log[1 + n..];
    HeadOf(after, rest);
    BehindHead(log, rest, n);
    ToolRunExact(group, after + rest);
  }

  lemma BehindHead(log: Log, rest: Log, n: nat)
    requires n < |log|
    ensures (log + rest)[1..] == log[1..1 + n] + (log[1 + n..] + rest)
    ensures (log + rest)[1..1 + n] == log[1..1 + n] && (log + rest)[1 + n..] == log[1 + n..] + rest
  {
  }

  lemma HeadOf(a: Log, b: Log)
    requires (a == [] || !a[0].role.Tool?) && (b == [] || !b[0].role.Tool?)
    ensures a + b == [] || !(a + b)[0].role.Tool?
  {
  }

  // ----- the main results -----

  /** Whatever the history, what is sent answers every call in call order and nothing else is a
      tool message; what is sent is the history itself if and only if that is well-formed; and
      repairing twice is repairing once. */
  lemma SentIsPaired(j: Json, log: Log)
    requires SaneJson(j)
    ensures Paired(Normalized(j, log, true)) && Wired(j, Normalized(j, log, true))
    ensures Normalized(j, log, true) == log <==> Wired(j, log)
    ensures Normalized(j, Normalized(j, log, true), true) == Normalized(j, log, true)
  {
    var out := Normalized(j, log, true);
    if NeedsNothing(j, log, true) {
      FastIsWired(j, log);
    } else {
      RepairIsWired(j, log);
    }
    hide NeedsNothing, Repair, Wired;
    WiredMeaning(j, out);
    RepairedStays(j, out, true);
    if Wired(j, log) {
      RepairedStays(j, log, true);
    }
  }

  /** Loading a well-formed session changes nothing. */
  lemma RepairedStays(j: Json, log: Log, wire: bool)
    requires Wired(j, log)
    ensures Normalized(j, log, wire) == log
  {
    hide Wired;
    WiredStays(j, log, [], wire);
    NothingToRepair(j, wire);
    assert log + [] == log;
  }

  /** Well-formed is: paired, with the calls' names on the results and usable arguments. */
  lemma {:induction false} WiredMeaning(j: Json, log: Log)
    ensures Wired(j, log) <==> Paired(log) && Labelled(j, log)
    decreases |log|
  {
    if log == [] {
    } else if log[0].role.Tool? {
      ScanBroken(log[1..]);
    } else {
      var n := |Opens(log[0])|;
      ScanDischarges(CallIds(Opens(log[0])), log[1..]);
      if n < |log| {
        assert log[1..][n..] == log[1 + n..];
        WiredMeaning(j, log[1 + n..]);
        hide Wired, Paired;
        GroupMeaning(j, log, n);
        LabelsSplit(j, log, n);
        hide Labelled, GroupWired;
        assert Wired(j, log) == (GroupWired(j, Opens(log[0]), log[1..1 + n]) && Wired(j, log[1 + n..])) by {
          WiredHead(j, log, n);
        }
      }
    }
  }

  lemma WiredHead(j: Json, log: Log, n: nat)
    requires log != [] && !log[0].role.Tool? && n == |Opens(log[0])| < |log|
    ensures Wired(j, log) == (GroupWired(j, Opens(log[0]), log[1..1 + n]) && Wired(j, log[1 + n..]))
  {
    hide GroupWired;
  }

  /** The labels of the group that message 0 opens. */
  predicate HeadLabelled(j: Json, log: Log, n: nat)
    requires log != [] && n == |Opens(log[0])| < |log|
  {
    forall k :: 0 <= k < n ==> log[1 + k].name == Opens(log[0])[k].name && ArgsOk(j, Opens(log[0])[k])
  }

  lemma GroupMeaning(j: Json, log: Log, n: nat)
    requires log != [] && n == |Opens(log[0])| < |log|
    ensures GroupWired(j, Opens(log[0]), log[1..1 + n]) <==>
      HeadLabelled(j, log, n) &&
      forall k :: 0 <= k < n ==> log[1..][k].role.Tool? && log[1..][k].toolCallId == CallIds(Opens(log[0]))[k]
  {
    hide ArgsOk;
    var calls, group, rest := Opens(log[0]), log[1..1 + n], log[1..];
    hide Opens;
    assert |group| == n;
    forall k | 0 <= k < n ensures group[k] == log[1 + k] && rest[k] == log[1 + k] {
    }
    if GroupWired(j, calls, group) {
      forall k | 0 <= k < n ensures rest[k].role.Tool? && rest[k].toolCallId == CallIds(calls)[k] {
        assert group[k].role.Tool?;
      }
      forall k | 0 <= k < n ensures log[1 + k].name == calls[k].name && ArgsOk(j, calls[k]) {
        assert group[k].name == calls[k].name;
      }
    }
    if
      HeadLabelled(j, log, n) &&
      forall k :: 0 <= k < n ==> rest[k].role.Tool? && rest[k].toolCallId == CallIds(calls)[k]
    {
      forall k | 0 <= k < n
        ensures group[k].role.Tool? && group[k].toolCallId == calls[k].id && group[k].name == calls[k].name &&
          ArgsOk(j, calls[k])
      {
        assert rest[k].role.Tool? && log[1 + k].name == calls[k].name;
      }
    }
  }

  /** Given that the group's members are tool messages, labels split at its end. */
  lemma LabelsSplit(j: Json, log: Log, n: nat)
    requires log != [] && n == |Opens(log[0])| < |log|
    ensures (forall k :: 0 <= k < n ==> log[1..][k].role.Tool?) ==>
      (Labelled(j, log) <==> HeadLabelled(j, log, n) && Labelled(j, log[1 + n..]))
  {
    hide ArgsOk;
    if forall k :: 0 <= k < n ==> log[1..][k].role.Tool? {
      forall k | 0 < k <= n ensures log[k].role.Tool? {
        assert log[k] == log[1..][k - 1];
      }
      if Labelled(j, log) {
        LabelsDown(j, log, n);
      }
      if HeadLabelled(j, log, n) && Labelled(j, log[1 + n..]) {
        LabelsUp(j, log, n);
      }
    }
    hide Labelled, HeadLabelled;
  }

  lemma LabelsDown(j: Json, log: Log, n: nat)
    requires log != [] && n == |Opens(log[0])| < |log| && Labelled(j, log)
    ensures HeadLabelled(j, log, n) && Labelled(j, log[1 + n..])
  {
    hide ArgsOk;
    var d, rest := 1 + n, log[1 + n..];
    forall a: nat, k: nat | a < |rest| && k < |Opens(rest[a])| && a + 1 + k < |rest|
      ensures rest[a + 1 + k].name == Opens(rest[a])[k].name && ArgsOk(j, Opens(rest[a])[k])
    {
      assert log[a + d] == rest[a] && log[(a + d) + 1 + k] == rest[a + 1 + k];
    }
    forall k | 0 <= k < n ensures log[1 + k].name == Opens(log[0])[k].name && ArgsOk(j, Opens(log[0])[k]) {
      assert log[0 + 1 + k] == log[1 + k];
    }
  }

  lemma LabelsUp(j: Json, log: Log, n: nat)
    requires log != [] && n == |Opens(log[0])| < |log| && forall k :: 0 < k <= n ==> log[k].role.Tool?
    requires HeadLabelled(j, log, n) && Labelled(j, log[1 + n..])
    ensures Labelled(j, log)
  {
    hide ArgsOk;
    var d, rest := 1 + n, log[1 + n..];
    forall a: nat, k: nat | a < |log| && k < |Opens(log[a])| && a + 1 + k < |log|
      ensures log[a + 1 + k].name == Opens(log[a])[k].name && ArgsOk(j, Opens(log[a])[k])
    {
      if a > n {
        assert rest[a - d] == log[a] && rest[(a - d) + 1 + k] == log[a + 1 + k];
      }
    }
  }

  /** A turn whose calls were stored and never run is sent with a placeholder for each call. */
  lemma DanglingTurnIsAnswered(j: Json, log: Log, m: Message, rest: Log)
    requires Wired(j, log) && Opens(m) != [] && (rest == [] || !rest[0].role.Tool?)
    ensures Repair(j, log + [m] + rest, true) ==
      log + [m.(calls := RepairArgs(j, m.calls))] + Placeholders(m.calls) + Repair(j, rest, true)
  {
    hide Wired, Repair, RepairGroup, Placeholders, RepairArgs, NeedsNothing;
    var tail := [m] + rest;
    assert log + [m] + rest == log + tail;
    WiredStays(j, log, tail, true);
    LoneTurn(j, m, rest);
  }

  lemma LoneTurn(j: Json, m: Message, rest: Log)
    requires Opens(m) != [] && (rest == [] || !rest[0].role.Tool?)
    ensures Repair(j, [m] + rest, true) ==
      [m.(calls := RepairArgs(j, m.calls))] + Placeholders(m.calls) + Repair(j, rest, true)
  {
    var tail := [m] + rest;
    assert tail[0..] == tail && tail[1..] == rest && ToolRun(rest) == 0;
    assert GroupEnd(tail, 0) == 1 && tail[1..1] == [];
    LoneGroup(j, m);
    hide Repair, RepairGroup, Placeholders, RepairArgs, NeedsNothing, GroupEnd, ToolRun;
    RepairAtCalls(j, tail, 0, true);
  }

  lemma LoneGroup(j: Json, m: Message)
    requires m.role.Assistant?
    ensures RepairGroup(j, m, [], true) == [m.(calls := RepairArgs(j, m.calls))] + Placeholders(m.calls)
  {
    hide IdDistinct, InterruptedText;
    assert BackfillNames(m.calls, []) == m.calls;
    assert PairResults(m.calls, []) == Placeholders(m.calls);
  }

  // ----- the turns survive -----

  /** A message without what the repair may change: the names and arguments of its calls. */
  function Core(m: Message): Message {
    m.(calls := seq(|m.calls|, k requires 0 <= k < |m.calls| => ToolCall(m.calls[k].id, "", "")))
  }

  /** The messages that are no tool results, in order. */
  function Turns(log: Log): Log {
    if log == [] then []
    else (if log[0].role.Tool? then [] else [Core(log[0])]) + Turns(log[1..])
  }

  lemma {:induction false} TurnsConcat(a: Log, b: Log)
    ensures Turns(a + b) == Turns(a) + Turns(b)
  {
    hide Core;
    if a == [] {
      assert a + b == b;
    } else {
      assert (a + b)[1..] == a[1..] + b && (a + b)[0] == a[0];
      TurnsConcat(a[1..], b);
    }
  }

  lemma {:induction false} NoTurns(log: Log)
    requires AllTools(log)
    ensures Turns(log) == []
  {
    if log != [] {
      NoTurns(log[1..]);
    }
  }

  lemma GroupTurns(j: Json, m: Message, avail: Log, wire: bool)
    requires m.role.Assistant? && AllTools(avail)
    ensures Turns(RepairGroup(j, m, avail, wire)) == [Core(m)]
  {
    hide InterruptedText, IdDistinct, NameFor, MissingCalls;
    var calls := BackfillNames(m.calls, avail);
    var fixed, results := m.(calls := RepairArgs(j, calls)),
      if wire then PairResults(calls, avail) else avail + Placeholders(MissingCalls(calls, avail));
    assert AllTools(results);
    NoTurns(results);
    assert Core(fixed) == Core(m);
    hide Core;
    assert ([fixed] + results)[1..] == results;
  }

  /** Neither repair drops, adds, reorders or rewords a turn. */
  lemma {:induction false} RepairKeepsTurns(j: Json, log: Log, wire: bool)
    ensures Turns(Repair(j, log, wire)) == Turns(log)
    decreases |log|
  {
    hide RepairGroup, ToolRun, Core, Repair, NeedsNothing, Turns, TurnWellFormed;
    if log == [] {
      NothingToRepair(j, wire);
    } else {
      assert log[0..] == log;
      if Opens(log[0]) != [] {
        var k := GroupEnd(log, 0);
        RepairKeepsTurns(j, log[k..], wire);
        RepairAtCalls(j, log, 0, wire);
        GroupIsTools(log);
        GroupTurns(j, log[0], log[1..k], wire);
        TurnsConcat(RepairGroup(j, log[0], log[1..k], wire), Repair(j, log[k..], wire));
        SplitTurns(log, k);
      } else {
        RepairKeepsTurns(j, log[1..], wire);
        RepairAtPlain(j, log, 0, wire);
        TurnsConcat(if log[0].role.Tool? && wire then [] else [log[0]], Repair(j, log[1..], wire));
        HeadTurns(log, wire);
      }
    }
  }

  lemma GroupIsTools(log: Log)
    requires log != []
    ensures var k := GroupEnd(log, 0); AllTools(log[1..k])
  {
    assert forall i :: 0 <= i < GroupEnd(log, 0) - 1 ==> log[1..GroupEnd(log, 0)][i] == log[1..][i];
  }

  lemma SplitTurns(log: Log, k: nat)
    requires 1 <= k <= |log| && !log[0].role.Tool? && AllTools(log[1..k])
    ensures Turns(log) == [Core(log[0])] + Turns(log[k..])
  {
    hide Core;
    TailTurns(log);
    hide Turns;
    NoTurns(log[1..k]);
    TurnsConcat(log[1..k], log[k..]);
    assert log[1..] == log[1..k] + log[k..];
    assert [] + Turns(log[k..]) == Turns(log[k..]);
  }

  lemma TailTurns(log: Log)
    requires log != []
    ensures Turns(log) == (if log[0].role.Tool? then [] else [Core(log[0])]) + Turns(log[1..])
  {
  }

  lemma HeadTurns(log: Log, wire: bool)
    requires log != []
    ensures Turns(log) == Turns(if log[0].role.Tool? && wire then [] else [log[0]]) + Turns(log[1..])
  {
    assert [log[0]][1..] == [];
  }
}
