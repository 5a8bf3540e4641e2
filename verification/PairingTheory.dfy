/** Which stored result answers which call after the repair. */
module PairingTheory {
  import opened Text
  import opened Conversation
  import opened Normalize
  import opened NormalizeTheory

  // ----- the repair goes turn by turn -----

  predicate StartsTurn(log: Log) {
    log == [] || !log[0].role.Tool?
  }

  lemma {:induction false} RunStops(log: Log, rest: Log)
    requires StartsTurn(rest)
    ensures ToolRun(log + rest) == ToolRun(log)
  {
    if log == [] {
      assert log + rest == rest;
    } else {
      assert (log + rest)[1..] == log[1..] + rest;
      RunStops(log[1..], rest);
    }
  }

  lemma Slices(a: Log, b: Log, n: nat)
    requires n < |a|
    ensures (a + b)[0] == a[0] && (a + b)[1..1 + n] == a[1..1 + n] && (a + b)[1 + n..] == a[1 + n..] + b
    ensures (a + b)[1..] == a[1..] + b
  {
  }

  lemma {:induction false} RepairConcat(j: Json, a: Log, b: Log, wire: bool)
    requires StartsTurn(b)
    ensures Repair(j, a + b, wire) == Repair(j, a, wire) + Repair(j, b, wire)
    decreases |a|
  {
    hide RepairGroup, StartsTurn, ToolRun, Opens;
    if a == [] {
      assert a + b == b;
    } else if Opens(a[0]) != [] {
      var n := ToolRun(a[1..]);
      RunStops(a[1..], b);
      Slices(a, b, n);
      RepairConcat(j, a[1 + n..], b, wire);
    } else {
      Slices(a, b, 0);
      RepairConcat(j, a[1..], b, wire);
    }
  }

  /** Where nothing is needed the repair changes nothing, so the fast path is one. */
  lemma {:induction false} NothingNeededStays(j: Json, log: Log, wire: bool)
    requires NeedsNothing(j, log, wire)
    ensures Repair(j, log, wire) == log
    decreases |log|
  {
    hide TurnWellFormed, RepairGroup, ToolRun, Opens;
    if log != [] {
      if Opens(log[0]) != [] {
        var n := ToolRun(log[1..]);
        NothingNeededStays(j, log[1 + n..], wire);
        GroupNeedsNothing(j, log, n, wire);
      } else {
        NothingNeededStays(j, log[1..], wire);
      }
    }
  }

  lemma GroupNeedsNothing(j: Json, log: Log, n: nat, wire: bool)
    requires log != [] && Opens(log[0]) != [] && n == ToolRun(log[1..])
    requires TurnWellFormed(j, log[0].calls, log[1..1 + n])
    ensures RepairGroup(j, log[0], log[1..1 + n], wire) + log[1 + n..] == log
  {
    hide TurnWellFormed, RepairGroup, ToolRun, GroupWired;
    assert forall k :: 0 <= k < n ==> log[1..1 + n][k] == log[1..][k];
    WellFormedIsWired(j, log[0].calls, log[1..1 + n]);
    WiredGroupStays(j, log[0], log[1..1 + n], wire);
    assert [log[0]] + log[1..1 + n] + log[1 + n..] == log;
  }

  lemma NormalizedIsRepair(j: Json, log: Log, wire: bool)
    ensures Normalized(j, log, wire) == Repair(j, log, wire)
  {
    if NeedsNothing(j, log, wire) {
      NothingNeededStays(j, log, wire);
    }
  }

  /** A turn with calls and the tool messages behind it, anywhere in a log. */
  lemma GroupInLog(j: Json, before: Log, m: Message, avail: Log, rest: Log, wire: bool)
    requires Opens(m) != [] && AllTools(avail) && StartsTurn(rest)
    ensures Normalized(j, before + [m] + avail + rest, wire) ==
      Repair(j, before, wire) + RepairGroup(j, m, avail, wire) + Repair(j, rest, wire)
  {
    hide Repair, RepairGroup, Normalized, NeedsNothing, AllTools;
    var tail := [m] + avail + rest;
    assert before + [m] + avail + rest == before + tail;
    NormalizedIsRepair(j, before + tail, wire);
    RepairConcat(j, before, tail, wire);
    GroupFirst(j, m, avail, rest, wire);
    var a, b, c := Repair(j, before, wire), RepairGroup(j, m, avail, wire), Repair(j, rest, wire);
    assert a + (b + c) == a + b + c;
  }

  lemma GroupFirst(j: Json, m: Message, avail: Log, rest: Log, wire: bool)
    requires Opens(m) != [] && AllTools(avail) && StartsTurn(rest)
    ensures Repair(j, [m] + avail + rest, wire) == RepairGroup(j, m, avail, wire) + Repair(j, rest, wire)
  {
    hide RepairGroup, ToolRun, AllTools;
    var tail := [m] + avail + rest;
    ToolRunExact(avail, rest);
    assert tail[0] == m && tail[1..] == avail + rest;
    assert tail[1..1 + |avail|] == avail && tail[1 + |avail|..] == rest;
  }

  // ----- the answers -----

  /** Result i is the last one stored with the id. */
  predicate LastStored(avail: Log, id: string, i: nat) {
    i < |avail| && avail[i].toolCallId == id && forall k :: i < k < |avail| ==> avail[k].toolCallId != id
  }

  predicate NoneStored(avail: Log, id: string) {
    forall i :: 0 <= i < |avail| ==> avail[i].toolCallId != id
  }

  lemma {:induction false} LastWithIs(avail: Log, id: string) returns (i: nat)
    ensures LastWith(avail, id).None? <==> NoneStored(avail, id)
    ensures LastWith(avail, id).Some? ==> LastStored(avail, id, i) && LastWith(avail, id).value == avail[i]
  {
    i := 0;
    if avail != [] {
      if avail[|avail| - 1].toolCallId == id {
        i := |avail| - 1;
      } else {
        i := LastWithIs(avail[..|avail| - 1], id);
      }
    }
  }

  /** The message answers call k with the right stored result: the last one with its id if the ids
      of the calls are distinct, else the one at its place; and says that there is none if and
      only if there is none. */
  ghost predicate Right(calls: seq<ToolCall>, avail: Log, k: nat, answer: Message)
    requires k < |calls|
  {
    answer.role.Tool? && answer.toolCallId == calls[k].id &&
    if IdDistinct(calls) then
      if NoneStored(avail, calls[k].id) then answer.content == InterruptedText()
      else exists i: nat :: LastStored(avail, calls[k].id, i) && answer.content == avail[i].content
    else answer.content == if k < |avail| then avail[k].content else InterruptedText()
  }

  lemma AnswerIsRight(calls: seq<ToolCall>, avail: Log, k: nat)
    requires k < |calls| && AllTools(avail)
    ensures Right(calls, avail, k, Answer(calls, avail, k))
  {
    hide InterruptedText, LastWith;
    if IdDistinct(calls) {
      var i := LastWithIs(avail, calls[k].id);
      hide IdDistinct;
    }
  }

  lemma SameIds(calls: seq<ToolCall>, avail: Log)
    ensures IdDistinct(BackfillNames(calls, avail)) <==> IdDistinct(calls)
    ensures forall k :: 0 <= k < |calls| ==> BackfillNames(calls, avail)[k].id == calls[k].id
  {
    hide FilledName;
    var same := BackfillNames(calls, avail);
    assert forall k :: 0 <= k < |calls| ==> same[k].id == calls[k].id;
  }

  lemma RightByIds(calls: seq<ToolCall>, same: seq<ToolCall>, avail: Log, k: nat, answer: Message)
    requires |calls| == |same| && k < |calls| && calls[k].id == same[k].id && IdDistinct(calls) == IdDistinct(same)
    requires Right(same, avail, k, answer)
    ensures Right(calls, avail, k, answer)
  {
    hide IdDistinct;
  }

  ghost predicate AllRight(calls: seq<ToolCall>, avail: Log, answers: Log) {
    |answers| == |calls| && forall k :: 0 <= k < |calls| ==> Right(calls, avail, k, answers[k])
  }

  /** Whatever stands around it, a turn with calls is sent with the right answer for every call,
      in call order. */
  lemma SentAnswersAreRight(j: Json, before: Log, m: Message, avail: Log, rest: Log)
    requires Opens(m) != [] && AllTools(avail) && StartsTurn(rest)
    ensures var sent, p := Normalized(j, before + [m] + avail + rest, true), |Repair(j, before, true)|;
      p + |m.calls| < |sent| && sent[p].content == m.content &&
      AllRight(m.calls, avail, sent[p + 1..p + 1 + |m.calls|])
  {
    hide Repair, Normalized, Right, RepairArgs, BackfillNames, PairResults;
    var calls := BackfillNames(m.calls, avail);
    GroupInLog(j, before, m, avail, rest, true);
    var sent, p := Normalized(j, before + [m] + avail + rest, true), |Repair(j, before, true)|;
    assert sent[p + 1..p + 1 + |m.calls|] == PairResults(calls, avail);
    ResultsAreRight(m.calls, avail);
  }

  lemma ResultsAreRight(calls: seq<ToolCall>, avail: Log)
    requires AllTools(avail)
    ensures AllRight(calls, avail, PairResults(BackfillNames(calls, avail), avail))
  {
    hide Right, IdDistinct, BackfillNames, Answer;
    var named := BackfillNames(calls, avail);
    SameIds(calls, avail);
    forall k | 0 <= k < |calls| ensures Right(calls, avail, k, Answer(named, avail, k)) {
      AnswerIsRight(named, avail, k);
      RightByIds(calls, named, avail, k, Answer(named, avail, k));
    }
  }

  // ----- names and arguments -----

  /** No result stored with the id from position `from` on has a name. */
  predicate NoneNamed(avail: Log, id: string, from: nat) {
    forall i :: from <= i < |avail| && avail[i].toolCallId == id ==> avail[i].name == ""
  }

  /** Result i is the last one stored with the id that has a name. */
  predicate LastNamed(avail: Log, id: string, i: nat) {
    i < |avail| && avail[i].toolCallId == id && avail[i].name != "" && NoneNamed(avail, id, i + 1)
  }

  /** A call is sent with its own name, and without one with the name of the last named result
      stored with its id, or at its place where ids are not distinct. */
  ghost predicate RightName(calls: seq<ToolCall>, avail: Log, k: nat, name: string)
    requires k < |calls|
  {
    if calls[k].name != "" then name == calls[k].name
    else if !IdDistinct(calls) then name == if k < |avail| then avail[k].name else ""
    else if NoneNamed(avail, calls[k].id, 0) then name == ""
    else exists i: nat :: LastNamed(avail, calls[k].id, i) && name == avail[i].name
  }

  lemma {:induction false} NameForIs(avail: Log, id: string) returns (i: nat)
    ensures NoneNamed(avail, id, 0) ==> NameFor(avail, id) == ""
    ensures !NoneNamed(avail, id, 0) ==> LastNamed(avail, id, i) && NameFor(avail, id) == avail[i].name
  {
    i := 0;
    if avail != [] {
      var n := |avail| - 1;
      if avail[n].toolCallId == id && avail[n].name != "" {
        i := n;
      } else {
        i := NameForIs(avail[..n], id);
        assert forall k :: 0 <= k < n ==> avail[..n][k] == avail[k];
      }
    }
  }

  /** Arguments are sent as they are if empty or valid, else completed if that makes them valid,
      else empty. */
  predicate RightArgs(j: Json, args: string, sent: string) {
    sent ==
      if args == "" || j.valid(args) then args
      else if j.valid(j.complete(args)) then j.complete(args)
      else "{}"
  }

  /** The calls themselves, for sending and for loading. */
  lemma SentCallsAreRight(j: Json, before: Log, m: Message, avail: Log, rest: Log, wire: bool)
    requires Opens(m) != [] && AllTools(avail) && StartsTurn(rest)
    ensures var out, p := Normalized(j, before + [m] + avail + rest, wire), |Repair(j, before, wire)|;
      p < |out| && out[p] == m.(calls := out[p].calls) && |out[p].calls| == |m.calls| &&
      forall k :: 0 <= k < |m.calls| ==>
        out[p].calls[k].id == m.calls[k].id && RightName(m.calls, avail, k, out[p].calls[k].name) &&
        RightArgs(j, m.calls[k].arguments, out[p].calls[k].arguments)
  {
    hide Repair, Normalized, RightName, IdDistinct, PairResults, MissingCalls, Placeholders;
    GroupInLog(j, before, m, avail, rest, wire);
    forall k | 0 <= k < |m.calls| ensures RightName(m.calls, avail, k, FilledName(m.calls, avail, k)) {
      FilledNameIsRight(m.calls, avail, k);
    }
  }

  lemma FilledNameIsRight(calls: seq<ToolCall>, avail: Log, k: nat)
    requires k < |calls|
    ensures RightName(calls, avail, k, FilledName(calls, avail, k))
  {
    hide IdDistinct, NameFor;
    var i := NameForIs(avail, calls[k].id);
  }

  // ----- scattered results come back -----

  /** The results that are left, with a placeholder for each one that is gone. */
  function Survivors(calls: seq<ToolCall>, results: Log, avail: Log): (r: Log)
    requires |calls| == |results|
    ensures |r| == |calls|
  {
    seq(|calls|, k requires 0 <= k < |calls| => if results[k] in avail then results[k] else Unanswered(calls[k]))
  }

  lemma OwnSurvivor(calls: seq<ToolCall>, results: Log, avail: Log, k: nat)
    requires IdDistinct(calls) && SameLabels(calls, results) && k < |calls|
    requires forall r :: r in avail ==> r in results
    ensures LastWith(avail, calls[k].id) == if results[k] in avail then Some(results[k]) else None
  {
    hide LastWith, NoneStored;
    var i := LastWithIs(avail, calls[k].id);
    forall r | r in avail && r.toolCallId == calls[k].id ensures r == results[k] {
      var l :| 0 <= l < |results| && results[l] == r;
      assert calls[l].id == calls[k].id;
    }
    if results[k] in avail {
      var n :| 0 <= n < |avail| && avail[n] == results[k];
      assert !NoneStored(avail, calls[k].id) by { SomeStored(avail, calls[k].id, n); }
    }
  }

  lemma SomeStored(avail: Log, id: string, n: nat)
    requires n < |avail| && avail[n].toolCallId == id
    ensures !NoneStored(avail, id)
  {
  }

  lemma {:induction false} OneName(avail: Log, id: string, name: string)
    requires forall r :: r in avail && r.toolCallId == id ==> r.name == name
    ensures NameFor(avail, id) == name || NameFor(avail, id) == ""
    ensures name != "" && LastWith(avail, id).Some? ==> NameFor(avail, id) == name
  {
    if avail != [] {
      assert avail[|avail| - 1] in avail;
      OneName(avail[..|avail| - 1], id, name);
    }
  }

  lemma SurvivorGroup(j: Json, m: Message, results: Log, avail: Log)
    requires m.role.Assistant? && GroupWired(j, m.calls, results) && IdDistinct(m.calls)
    requires (forall k :: 0 <= k < |m.calls| ==> m.calls[k].name != "") && forall r :: r in avail ==> r in results
    ensures RepairGroup(j, m, avail, true) == [m] + Survivors(m.calls, results, avail)
  {
    var calls := m.calls;
    assert RepairArgs(j, calls) == calls;
    assert BackfillNames(calls, avail) == calls by {
      hide NameFor;
    }
    hide BackfillNames, RepairArgs, InterruptedText, LastWith;
    forall k | 0 <= k < |calls| ensures Answer(calls, avail, k) == Survivors(calls, results, avail)[k] {
      OwnSurvivor(calls, results, avail, k);
      assert results[k].name == calls[k].name;
    }
    assert PairResults(calls, avail) == Survivors(calls, results, avail);
  }

  /** The results of a turn of a well-formed log, its calls' ids distinct: in whatever order they
      are stored, and whichever are gone or stored twice, the sent log is the original one with a
      placeholder exactly for those that are gone. */
  lemma ScatteredResultsReturn(j: Json, before: Log, m: Message, results: Log, avail: Log, rest: Log)
    requires Wired(j, before) && Wired(j, rest) && Opens(m) != [] && GroupWired(j, m.calls, results)
    requires IdDistinct(m.calls) && (forall k :: 0 <= k < |m.calls| ==> m.calls[k].name != "")
    requires forall r :: r in avail ==> r in results
    ensures Normalized(j, before + [m] + avail + rest, true) ==
      before + [m] + Survivors(m.calls, results, avail) + rest
    ensures (forall r :: r in results ==> r in avail) ==>
      Normalized(j, before + [m] + avail + rest, true) == before + [m] + results + rest
  {
    hide Repair, Normalized, RepairGroup, IdDistinct, Wired, GroupWired, AllTools, StartsTurn, Survivors;
    AvailableAreTools(j, m.calls, results, avail);
    WiredStartsTurn(j, rest);
    GroupInLog(j, before, m, avail, rest, true);
    SurvivorGroup(j, m, results, avail);
    WiredRepair(j, before);
    WiredRepair(j, rest);
    var kept := Survivors(m.calls, results, avail);
    assert before + ([m] + kept) + rest == before + [m] + kept + rest;
    if forall r :: r in results ==> r in avail {
      AllSurvive(m.calls, results, avail);
    }
  }

  lemma WiredRepair(j: Json, log: Log)
    requires Wired(j, log)
    ensures Repair(j, log, true) == log
  {
    hide Wired, Repair, Normalized;
    RepairedStays(j, log, true);
    NormalizedIsRepair(j, log, true);
  }

  lemma AllSurvive(calls: seq<ToolCall>, results: Log, avail: Log)
    requires |calls| == |results| && forall r :: r in results ==> r in avail
    ensures Survivors(calls, results, avail) == results
  {
  }

  lemma AvailableAreTools(j: Json, calls: seq<ToolCall>, results: Log, avail: Log)
    requires GroupWired(j, calls, results) && forall r :: r in avail ==> r in results
    ensures AllTools(avail) && SameLabels(calls, results)
  {
    forall k | 0 <= k < |avail| ensures avail[k].role.Tool? {
      assert avail[k] in results;
    }
  }

  lemma WiredStartsTurn(j: Json, log: Log)
    requires Wired(j, log)
    ensures StartsTurn(log)
  {
  }

  // ----- loading -----

  /** The calls without a stored result, by position in the turn. */
  predicate Missing(calls: seq<ToolCall>, avail: Log, k: nat)
    requires k < |calls|
  {
    if IdDistinct(calls) then NoneStored(avail, calls[k].id) else k >= |avail|
  }

  /** A loaded turn keeps every stored result in its place and gets a placeholder behind them for
      each call without one, in call order. */
  lemma LoadKeepsResults(j: Json, before: Log, m: Message, avail: Log, rest: Log) returns (at: seq<nat>, extra: Log)
    requires Opens(m) != [] && AllTools(avail) && StartsTurn(rest)
    ensures var m' := m.(calls := RepairArgs(j, BackfillNames(m.calls, avail)));
      Normalized(j, before + [m] + avail + rest, false) ==
        Repair(j, before, false) + ([m'] + (avail + extra)) + Repair(j, rest, false)
    ensures |extra| == |at| && (forall i :: 0 <= i < |at| ==> at[i] < |m.calls|) &&
      (forall i, l :: 0 <= i < l < |at| ==> at[i] < at[l]) &&
      (forall k: nat :: k < |m.calls| ==> (k in at <==> Missing(m.calls, avail, k)))
    ensures forall i :: 0 <= i < |extra| ==>
      extra[i].role.Tool? && extra[i].toolCallId == m.calls[at[i]].id && extra[i].content == InterruptedText()
  {
    hide Repair, Normalized, RepairArgs, InterruptedText, IdDistinct;
    var calls := BackfillNames(m.calls, avail);
    GroupInLog(j, before, m, avail, rest, false);
    SameIds(m.calls, avail);
    extra := Placeholders(MissingCalls(calls, avail));
    at := MissingPlaces(calls, avail);
    forall k: nat | k < |m.calls| ensures Missing(m.calls, avail, k) == Missing(calls, avail, k) {
      assert calls[k].id == m.calls[k].id;
    }
  }

  lemma MissingPlaces(calls: seq<ToolCall>, avail: Log) returns (at: seq<nat>)
    ensures |at| == |MissingCalls(calls, avail)|
    ensures forall i :: 0 <= i < |at| ==> at[i] < |calls| && MissingCalls(calls, avail)[i] == calls[at[i]]
    ensures forall i, l :: 0 <= i < l < |at| ==> at[i] < at[l]
    ensures forall k: nat :: k < |calls| ==> (k in at <==> Missing(calls, avail, k))
  {
    hide IdDistinct;
    if IdDistinct(calls) {
      at := WithoutPlaces(calls, avail, 0);
      assert calls[0..] == calls;
    } else {
      var n := |avail|;
      at := seq(if n <= |calls| then |calls| - n else 0, i => n + i);
      forall k: nat | k < |calls| ensures k in at <==> k >= n {
        if k >= n {
          assert at[k - n] == k;
        }
      }
    }
  }

  lemma {:induction false} WithoutPlaces(calls: seq<ToolCall>, avail: Log, from: nat) returns (at: seq<nat>)
    requires from <= |calls|
    ensures |at| == |WithoutResult(calls[from..], avail)|
    ensures forall i :: 0 <= i < |at| ==>
      from <= at[i] < |calls| && WithoutResult(calls[from..], avail)[i] == calls[at[i]]
    ensures forall i, l :: 0 <= i < l < |at| ==> at[i] < at[l]
    ensures forall k: nat :: from <= k < |calls| ==> (k in at <==> NoneStored(avail, calls[k].id))
    decreases |calls| - from
  {
    hide LastWith, NoneStored;
    if from == |calls| {
      return [];
    }
    assert calls[from..][0] == calls[from] && calls[from..][1..] == calls[from + 1..];
    var more := WithoutPlaces(calls, avail, from + 1);
    var _ := LastWithIs(avail, calls[from].id);
    at := (if LastWith(avail, calls[from].id).None? then [from] else []) + more;
  }
}
