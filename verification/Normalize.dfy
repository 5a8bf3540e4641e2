/** The repair of a history before it is sent to a provider, and the milder one when a session
    is loaded (internal/provider/provider.go: normalizeMessages). */
module Normalize {
  import opened Text
  import opened Conversation

  /** What is valid JSON, and the best-effort completion of a text cut off in the middle. */
  datatype Json = Json(valid: string -> bool, complete: string -> string)

  predicate SaneJson(j: Json) {
    j.valid("{}")
  }

  function CloseTruncated(j: Json, s: string): string {
    if j.valid(j.complete(s)) then j.complete(s) else "{}"
  }

  predicate ArgsOk(j: Json, call: ToolCall) {
    call.arguments == "" || j.valid(call.arguments)
  }

  function RepairArgs(j: Json, calls: seq<ToolCall>): (r: seq<ToolCall>)
    ensures |r| == |calls|
  {
    seq(|calls|, k requires 0 <= k < |calls| =>
      if ArgsOk(j, calls[k]) then calls[k] else calls[k].(arguments := CloseTruncated(j, calls[k].arguments)))
  }

  /** Every call carries an id of its own. */
  predicate IdDistinct(calls: seq<ToolCall>) {
    (forall k :: 0 <= k < |calls| ==> calls[k].id != "") &&
    forall k, l :: 0 <= k < l < |calls| ==> calls[k].id != calls[l].id
  }

  method CheckIdDistinct(calls: seq<ToolCall>) returns (r: bool)
    ensures r == IdDistinct(calls)
  {
    var seen := {};
    for i := 0 to |calls|
      invariant IdDistinct(calls[..i])
      invariant forall id :: id in seen <==> exists k :: 0 <= k < i && calls[k].id == id
    {
      if calls[i].id == "" || calls[i].id in seen {
        return false;
      }
      seen := seen + {calls[i].id};
    }
    assert calls[..|calls|] == calls;
    r := true;
  }

  /** How many tool messages the log starts with. */
  function ToolRun(log: Log): (n: nat)
    ensures n <= |log|
    ensures forall k :: 0 <= k < n ==> log[k].role.Tool?
    ensures n < |log| ==> !log[n].role.Tool?
  {
    if log != [] && log[0].role.Tool? then 1 + ToolRun(log[1..]) else 0
  }

  // ----- one call group -----

  /** The last result with the id. */
  function LastWith(avail: Log, id: string): (r: Option<Message>)
    ensures r.Some? ==> r.value in avail && r.value.toolCallId == id
  {
    if avail == [] then None
    else if avail[|avail| - 1].toolCallId == id then Some(avail[|avail| - 1])
    else LastWith(avail[..|avail| - 1], id)
  }

  /** The name that the last named result with the id gives, "" if none. */
  function NameFor(avail: Log, id: string): string {
    if avail == [] then ""
    else if avail[|avail| - 1].toolCallId == id && avail[|avail| - 1].name != "" then avail[|avail| - 1].name
    else NameFor(avail[..|avail| - 1], id)
  }

  function FilledName(calls: seq<ToolCall>, avail: Log, k: nat): string
    requires k < |calls|
  {
    if calls[k].name != "" then calls[k].name
    else if IdDistinct(calls) then NameFor(avail, calls[k].id)
    else if k < |avail| then avail[k].name else ""
  }

  function BackfillNames(calls: seq<ToolCall>, avail: Log): (r: seq<ToolCall>)
    ensures |r| == |calls|
  {
    seq(|calls|, k requires 0 <= k < |calls| => calls[k].(name := FilledName(calls, avail, k)))
  }

  function InterruptedText(): string {
    "[no result: " + "the previous turn " + "was interrupted " + "before this tool " + "call completed]"
  }

  function Unanswered(call: ToolCall): Message {
    ToolMessage(call, InterruptedText())
  }

  /** The message that answers call k: by id where the ids allow it, else by position. */
  function Answer(calls: seq<ToolCall>, avail: Log, k: nat): Message
    requires k < |calls|
  {
    var call := calls[k];
    if IdDistinct(calls) then
      var found := LastWith(avail, call.id);
      if found.Some? then found.value.(name := call.name) else Unanswered(call)
    else if k < |avail| then avail[k].(toolCallId := call.id, name := call.name)
    else Unanswered(call)
  }

  function PairResults(calls: seq<ToolCall>, avail: Log): (r: Log)
    ensures |r| == |calls|
  {
    seq(|calls|, k requires 0 <= k < |calls| => Answer(calls, avail, k))
  }

  method PairToolResults(calls: seq<ToolCall>, avail: Log) returns (out: Log)
    ensures out == PairResults(calls, avail)
  {
    hide InterruptedText, LastWith, IdDistinct;
    out := [];
    var distinct := CheckIdDistinct(calls);
    if distinct {
      var byId := LastById(avail);
      for k := 0 to |calls|
        invariant out == PairResults(calls, avail)[..k]
      {
        var call := calls[k];
        out := out + [if call.id in byId then byId[call.id].(name := call.name) else Unanswered(call)];
      }
    } else {
      for k := 0 to |calls|
        invariant out == PairResults(calls, avail)[..k]
      {
        var call := calls[k];
        out := out + [if k < |avail| then avail[k].(toolCallId := call.id, name := call.name) else Unanswered(call)];
      }
    }
  }

  method LastById(avail: Log) returns (byId: map<string, Message>)
    ensures forall id :: id in byId <==> LastWith(avail, id).Some?
    ensures forall id :: id in byId ==> byId[id] == LastWith(avail, id).value
  {
    byId := map[];
    for i := 0 to |avail|
      invariant forall id :: id in byId <==> LastWith(avail[..i], id).Some?
      invariant forall id :: id in byId ==> byId[id] == LastWith(avail[..i], id).value
    {
      assert avail[..i + 1][..i] == avail[..i];
      byId := byId[avail[i].toolCallId := avail[i]];
    }
    assert avail[..|avail|] == avail;
  }

  method BackfillToolCallNames(calls: seq<ToolCall>, avail: Log) returns (out: seq<ToolCall>)
    ensures out == BackfillNames(calls, avail)
  {
    var distinct := CheckIdDistinct(calls);
    out := [];
    for k := 0 to |calls|
      invariant out == BackfillNames(calls, avail)[..k]
    {
      var name := calls[k].name;
      if name == "" {
        if distinct {
          for i := 0 to |avail|
            invariant name == NameFor(avail[..i], calls[k].id)
          {
            assert avail[..i + 1][..i] == avail[..i];
            if avail[i].toolCallId == calls[k].id && avail[i].name != "" {
              name := avail[i].name;
            }
          }
          assert avail[..|avail|] == avail;
        } else if k < |avail| {
          name := avail[k].name;
        }
      }
      out := out + [calls[k].(name := name)];
    }
  }

  /** The calls that no stored result answers. */
  function MissingCalls(calls: seq<ToolCall>, avail: Log): seq<ToolCall> {
    if IdDistinct(calls) then WithoutResult(calls, avail)
    else if |avail| <= |calls| then calls[|avail|..] else []
  }

  function WithoutResult(calls: seq<ToolCall>, avail: Log): seq<ToolCall> {
    if calls == [] then []
    else (if LastWith(avail, calls[0].id).None? then [calls[0]] else []) + WithoutResult(calls[1..], avail)
  }

  function Placeholders(calls: seq<ToolCall>): (r: Log)
    ensures |r| == |calls|
  {
    seq(|calls|, k requires 0 <= k < |calls| => Unanswered(calls[k]))
  }

  /** A turn with calls and the tool messages behind it, repaired: for sending, exactly one
      result per call; for loading, every stored result and one for each call without. */
  function RepairGroup(j: Json, m: Message, avail: Log, wire: bool): Log {
    var calls := BackfillNames(m.calls, avail);
    [m.(calls := RepairArgs(j, calls))] +
    if wire then PairResults(calls, avail) else avail + Placeholders(MissingCalls(calls, avail))
  }

  // ----- the whole log -----

  function Repair(j: Json, log: Log, wire: bool): Log
    decreases |log|
  {
    if log == [] then []
    else if Opens(log[0]) != [] then
      var n := ToolRun(log[1..]);
      RepairGroup(j, log[0], log[1..1 + n], wire) + Repair(j, log[1 + n..], wire)
    else if log[0].role.Tool? && wire then Repair(j, log[1..], wire)
    else [log[0]] + Repair(j, log[1..], wire)
  }

  predicate TurnWellFormed(j: Json, calls: seq<ToolCall>, results: Log) {
    |calls| == |results| && forall k :: 0 <= k < |calls| ==>
      calls[k].name != "" && results[k].toolCallId == calls[k].id && results[k].name == calls[k].name &&
      ArgsOk(j, calls[k])
  }

  predicate NeedsNothing(j: Json, log: Log, wire: bool)
    decreases |log|
  {
    log == [] ||
    if Opens(log[0]) != [] then
      var n := ToolRun(log[1..]);
      TurnWellFormed(j, log[0].calls, log[1..1 + n]) && NeedsNothing(j, log[1 + n..], wire)
    else !(log[0].role.Tool? && wire) && NeedsNothing(j, log[1..], wire)
  }

  function Normalized(j: Json, log: Log, wire: bool): Log {
    if NeedsNothing(j, log, wire) then log else Repair(j, log, wire)
  }

  method ToolsEnd(msgs: Log, i: nat) returns (k: nat)
    requires i <= |msgs|
    ensures k == i + ToolRun(msgs[i..])
  {
    k := i;
    while k < |msgs| && msgs[k].role.Tool?
      invariant i <= k <= |msgs| && i + ToolRun(msgs[i..]) == k + ToolRun(msgs[k..])
    {
      assert msgs[k..][1..] == msgs[k + 1..];
      k := k + 1;
    }
  }

  lemma TailAt(msgs: Log, i: nat, n: nat)
    requires i < |msgs| && n <= |msgs| - i - 1
    ensures msgs[i..][0] == msgs[i] && msgs[i..][1..] == msgs[i + 1..]
    ensures msgs[i..][1..1 + n] == msgs[i + 1..i + 1 + n] && msgs[i..][1 + n..] == msgs[i + 1 + n..]
  {
  }

  /** Where the tool messages behind position i end. */
  function GroupEnd(msgs: Log, i: nat): (k: nat)
    requires i < |msgs|
    ensures i < k <= |msgs|
  {
    i + 1 + ToolRun(msgs[i + 1..])
  }

  lemma RepairAtCalls(j: Json, msgs: Log, i: nat, wire: bool)
    requires i < |msgs| && Opens(msgs[i]) != []
    ensures var k := GroupEnd(msgs, i);
      Repair(j, msgs[i..], wire) == RepairGroup(j, msgs[i], msgs[i + 1..k], wire) + Repair(j, msgs[k..], wire) &&
      NeedsNothing(j, msgs[i..], wire) ==
        (TurnWellFormed(j, msgs[i].calls, msgs[i + 1..k]) && NeedsNothing(j, msgs[k..], wire))
  {
    hide ToolRun, RepairGroup, TurnWellFormed;
    TailAt(msgs, i, ToolRun(msgs[i + 1..]));
  }

  lemma RepairAtPlain(j: Json, msgs: Log, i: nat, wire: bool)
    requires i < |msgs| && Opens(msgs[i]) == []
    ensures var rest := msgs[i + 1..];
      Repair(j, msgs[i..], wire) == (if msgs[i].role.Tool? && wire then [] else [msgs[i]]) + Repair(j, rest, wire) &&
      NeedsNothing(j, msgs[i..], wire) == (!(msgs[i].role.Tool? && wire) && NeedsNothing(j, rest, wire))
  {
    TailAt(msgs, i, 0);
    assert [] + Repair(j, msgs[i + 1..], wire) == Repair(j, msgs[i + 1..], wire);
  }

  lemma NothingToRepair(j: Json, wire: bool)
    ensures Repair(j, [], wire) == [] && NeedsNothing(j, [], wire)
  {
  }

  method TryFastPath(j: Json, msgs: Log, wire: bool) returns (ok: bool)
    ensures ok == NeedsNothing(j, msgs, wire)
  {
    hide NeedsNothing, Repair;
    NothingToRepair(j, wire);
    var i := 0;
    assert msgs[0..] == msgs;
    while i < |msgs|
      invariant i <= |msgs| && NeedsNothing(j, msgs, wire) == NeedsNothing(j, msgs[i..], wire)
    {
      var good, next := CheckTurn(j, msgs, i, wire);
      if !good {
        return false;
      }
      i := next;
    }
    assert msgs[i..] == [];
    ok := true;
  }

  /** The message at i, with its results if it makes calls, needs no repair. */
  method CheckTurn(j: Json, msgs: Log, i: nat, wire: bool) returns (good: bool, next: nat)
    requires i < |msgs|
    ensures i < next <= |msgs|
    ensures NeedsNothing(j, msgs[i..], wire) == (good && NeedsNothing(j, msgs[next..], wire))
  {
    hide NeedsNothing, TurnWellFormed, Repair, RepairGroup;
    if msgs[i].role.Assistant? && msgs[i].calls != [] {
      RepairAtCalls(j, msgs, i, wire);
      next := ToolsEnd(msgs, i + 1);
      good := TurnWellFormed(j, msgs[i].calls, msgs[i + 1..next]);
    } else {
      RepairAtPlain(j, msgs, i, wire);
      good, next := !(msgs[i].role.Tool? && wire), i + 1;
    }
  }

  method NormalizeMessages(j: Json, msgs: Log, wire: bool) returns (out: Log)
    ensures out == Normalized(j, msgs, wire)
  {
    hide NeedsNothing, Repair;
    var fast := TryFastPath(j, msgs, wire);
    if fast {
      out := msgs;
    } else {
      out := NormalizeTurns(j, msgs, wire);
    }
  }

  method NormalizeTurns(j: Json, msgs: Log, wire: bool) returns (out: Log)
    ensures out == Repair(j, msgs, wire)
  {
    hide Repair, NeedsNothing;
    NothingToRepair(j, wire);
    out := [];
    var i := 0;
    assert msgs[0..] == msgs;
    while i < |msgs|
      invariant i <= |msgs| && Repair(j, msgs, wire) == out + Repair(j, msgs[i..], wire)
    {
      var piece, next := NormalizeTurn(j, msgs, i, wire);
      assert out + (piece + Repair(j, msgs[next..], wire)) == (out + piece) + Repair(j, msgs[next..], wire);
      out, i := out + piece, next;
    }
    assert msgs[i..] == [] && out + [] == out;
  }

  /** The repaired message at i, with its results if it makes calls. */
  method NormalizeTurn(j: Json, msgs: Log, i: nat, wire: bool) returns (piece: Log, next: nat)
    requires i < |msgs|
    ensures i < next <= |msgs| && Repair(j, msgs[i..], wire) == piece + Repair(j, msgs[next..], wire)
  {
    hide Repair, RepairGroup, NeedsNothing, TurnWellFormed;
    if msgs[i].role.Assistant? && msgs[i].calls != [] {
      RepairAtCalls(j, msgs, i, wire);
      next := ToolsEnd(msgs, i + 1);
      piece := NormalizeGroup(j, msgs[i], msgs[i + 1..next], wire);
    } else {
      RepairAtPlain(j, msgs, i, wire);
      next := i + 1;
      piece := if msgs[i].role.Tool? && wire then [] else [msgs[i]];
    }
  }

  method NormalizeGroup(j: Json, m: Message, avail: Log, wire: bool) returns (group: Log)
    ensures group == RepairGroup(j, m, avail, wire)
  {
    var calls := BackfillToolCallNames(m.calls, avail);
    var results: Log;
    if wire {
      results := PairToolResults(calls, avail);
    } else {
      results := avail + Placeholders(MissingCalls(calls, avail));
    }
    group := [m.(calls := RepairArgs(j, calls))] + results;
  }
}
