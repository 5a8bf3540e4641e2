/** The canonical task list (internal/agent/agent.go: advanceCanonicalTodo,
    promoteNextPendingTodo, rebuildTodoState): kept live by tool calls, rebuilt from the
    transcript after a reload or a rewind. */
module Todo {
  import opened Text
  import opened Conversation

  datatype TodoItem = TodoItem(content: string, status: string)

  type Todos = seq<TodoItem>

  /** How call arguments and step titles are read: the list of a todo_write, the step of a
      complete_step, and the item a step resolves to. */
  datatype Reader = Reader(todosOf: string -> Todos, stepOf: string -> string, matches: (string, Todos) -> Option<nat>)

  ghost predicate ValidReader(r: Reader) {
    forall step, todos :: r.matches(step, todos).Some? ==> r.matches(step, todos).value < |todos|
  }

  function Status(item: TodoItem): string {
    var s := TrimSpace(item.status);
    if s == "" then "pending" else s
  }

  predicate IsCompleted(item: TodoItem) { Status(item) == "completed" }
  predicate IsInProgress(item: TodoItem) { Status(item) == "in_progress" }
  predicate IsPending(item: TodoItem) { Status(item) == "pending" }

  function FirstPending(todos: Todos, i: nat): (k: nat)
    requires i <= |todos|
    ensures i <= k <= |todos|
    ensures k < |todos| ==> IsPending(todos[k])
    decreases |todos| - i
  {
    if i < |todos| && !IsPending(todos[i]) then FirstPending(todos, i + 1) else i
  }

  predicate AnyInProgress(todos: Todos) {
    exists i :: 0 <= i < |todos| && IsInProgress(todos[i])
  }

  function Promote(todos: Todos): (r: Todos)
    ensures |r| == |todos|
  {
    var k := FirstPending(todos, 0);
    if AnyInProgress(todos) || k == |todos| then todos else todos[k := todos[k].(status := "in_progress")]
  }

  /** The list after one signed-off step; unmatched and already completed steps do nothing. */
  function Advance(r: Reader, todos: Todos, step: string): Todos {
    var m := r.matches(step, todos);
    if m.None? || m.value >= |todos| || IsCompleted(todos[m.value]) then todos
    else Promote(todos[m.value := todos[m.value].(status := "completed")])
  }

  /** Advances by completions given as their argument texts. */
  function Replay(r: Reader, todos: Todos, args: seq<string>): Todos
    decreases |args|
  {
    if args == [] then todos else Replay(r, Advance(r, todos, r.stepOf(args[0])), args[1..])
  }

  method PromoteNextPending(todos: array<TodoItem>)
    modifies todos
    ensures todos[..] == Promote(old(todos[..]))
  {
    for i := 0 to todos.Length
      invariant forall j :: 0 <= j < i ==> !IsInProgress(todos[j])
    {
      if IsInProgress(todos[i]) {
        return;
      }
    }
    for i := 0 to todos.Length
      invariant todos[..] == old(todos[..])
      invariant FirstPending(todos[..], i) == FirstPending(todos[..], 0)
    {
      if IsPending(todos[i]) {
        todos[i] := todos[i].(status := "in_progress");
        return;
      }
    }
  }

  // ----- what a step may change -----

  function InProgressCount(todos: Todos): nat {
    if todos == [] then 0 else (if IsInProgress(todos[0]) then 1 else 0) + InProgressCount(todos[1..])
  }

  lemma {:induction false} CountUpdate(todos: Todos, i: nat, item: TodoItem)
    requires i < |todos|
    ensures InProgressCount(todos[i := item]) ==
      InProgressCount(todos) - (if IsInProgress(todos[i]) then 1 else 0) + (if IsInProgress(item) then 1 else 0)
  {
    if i == 0 {
      assert todos[i := item][1..] == todos[1..];
    } else {
      assert todos[i := item][1..] == todos[1..][i - 1 := item];
      CountUpdate(todos[1..], i - 1, item);
    }
  }

  lemma {:induction false} CountZero(todos: Todos)
    ensures InProgressCount(todos) == 0 <==> !AnyInProgress(todos)
  {
    if todos != [] {
      CountZero(todos[1..]);
      if AnyInProgress(todos) && !IsInProgress(todos[0]) {
        var i :| 0 <= i < |todos| && IsInProgress(todos[i]);
        assert todos[1..][i - 1] == todos[i];
      }
      if AnyInProgress(todos[1..]) {
        var i :| 0 <= i < |todos[1..]| && IsInProgress(todos[1..][i]);
        assert todos[i + 1] == todos[1..][i];
      }
    }
  }

  lemma StatusWords()
    ensures forall item: TodoItem ::
      IsCompleted(item.(status := "completed")) && !IsInProgress(item.(status := "completed"))
    ensures forall item: TodoItem :: IsInProgress(item.(status := "in_progress"))
  {
    TrimSpaceFixes("completed");
    TrimSpaceFixes("in_progress");
  }

  /** Promotion happens only when nothing is in progress, so no second item ever starts. */
  lemma PromoteKeeps(todos: Todos)
    ensures InProgressCount(Promote(todos)) <= if InProgressCount(todos) == 0 then 1 else InProgressCount(todos)
    ensures forall i :: 0 <= i < |todos| ==>
      Promote(todos)[i].content == todos[i].content && (IsCompleted(todos[i]) ==> Promote(todos)[i] == todos[i])
  {
    hide TrimSpace;
    var k := FirstPending(todos, 0);
    CountZero(todos);
    if k < |todos| {
      CountUpdate(todos, k, todos[k].(status := "in_progress"));
    }
  }

  /** A step never starts a second item, never reverts a completed one, and leaves the number,
      order and titles of the items alone. */
  lemma AdvanceKeeps(r: Reader, todos: Todos, step: string)
    ensures |Advance(r, todos, step)| == |todos|
    ensures InProgressCount(Advance(r, todos, step)) <=
      if InProgressCount(todos) == 0 then 1 else InProgressCount(todos)
    ensures forall i :: 0 <= i < |todos| ==>
      Advance(r, todos, step)[i].content == todos[i].content &&
      (IsCompleted(todos[i]) ==> Advance(r, todos, step)[i] == todos[i])
  {
    hide TrimSpace, Promote, Status;
    var m := r.matches(step, todos);
    if m.Some? && m.value < |todos| && !IsCompleted(todos[m.value]) {
      StatusWords();
      var done := todos[m.value := todos[m.value].(status := "completed")];
      CountUpdate(todos, m.value, todos[m.value].(status := "completed"));
      PromoteKeeps(done);
    }
  }

  // ----- the live list -----

  /** What one call did: whether it ran to success, and the result text stored for it. */
  datatype Outcome = Outcome(succeeded: bool, text: string)

  /** A transcript piece: a message without calls, or an assistant turn with its batch. */
  datatype Event = Note(text: string, byUser: bool) | Batch(text: string, calls: seq<ToolCall>, outcomes: seq<Outcome>)

  predicate ValidEvent(e: Event) {
    e.Batch? ==> |e.calls| == |e.outcomes|
  }

  function LiveCall(r: Reader, todos: Todos, call: ToolCall, succeeded: bool): Todos {
    if !succeeded then todos
    else if call.name == "todo_write" then r.todosOf(call.arguments)
    else if call.name == "complete_step" then Advance(r, todos, r.stepOf(call.arguments))
    else todos
  }

  function LiveCalls(r: Reader, todos: Todos, calls: seq<ToolCall>, ok: seq<bool>): Todos
    requires |calls| == |ok|
    decreases |calls|
  {
    if calls == [] then todos
    else LiveCalls(r, LiveCall(r, todos, calls[0], ok[0]), calls[1..], ok[1..])
  }

  function Succeeded(e: Event): (ok: seq<bool>)
    requires e.Batch?
    ensures |ok| == |e.outcomes|
  {
    seq(|e.outcomes|, i requires 0 <= i < |e.outcomes| => e.outcomes[i].succeeded)
  }

  predicate ValidEvents(events: seq<Event>) {
    forall k :: 0 <= k < |events| ==> ValidEvent(events[k])
  }

  /** The list the running agent holds after the events, starting from none. */
  function Live(r: Reader, events: seq<Event>): Todos
    requires ValidEvents(events)
  {
    if events == [] then []
    else
      var last := events[|events| - 1];
      var before := Live(r, events[..|events| - 1]);
      assert ValidEvent(last);
      if last.Batch? then LiveCalls(r, before, last.calls, Succeeded(last)) else before
  }

  function EventLog(e: Event): Log
    requires ValidEvent(e)
  {
    match e
    case Note(text, byUser) => [if byUser then UserMessage(text) else AssistantMessage(text, [])]
    case Batch(text, calls, outcomes) =>
      [AssistantMessage(text, calls)] +
      seq(|calls|, i requires 0 <= i < |calls| => ToolMessage(calls[i], outcomes[i].text))
  }

  function Transcript(events: seq<Event>): Log
    requires ValidEvents(events)
  {
    if events == [] then []
    else
      assert ValidEvent(events[|events| - 1]);
      Transcript(events[..|events| - 1]) + EventLog(events[|events| - 1])
  }

  // ----- the rebuilt list -----

  predicate ResultFailed(content: string) {
    var s := TrimSpace(content);
    HasPrefix(s, "error:") || HasPrefix(s, "blocked:") || HasPrefix(s, "Error:") || HasPrefix(s, "[error")
  }

  predicate MarksSuccess(m: Message) {
    m.role.Tool? && m.toolCallId != "" && !ResultFailed(m.content)
  }

  function SuccessfulIds(log: Log): set<string> {
    set m | m in log && MarksSuccess(m) :: m.toolCallId
  }

  predicate Writes(ok: set<string>, call: ToolCall) {
    call.name == "todo_write" && call.id in ok
  }

  predicate Completes(ok: set<string>, call: ToolCall) {
    call.name == "complete_step" && call.id in ok
  }

  /** Position of the last successful todo_write among the calls, or -1. */
  function LastWrite(ok: set<string>, calls: seq<ToolCall>): (k: int)
    ensures -1 <= k < |calls|
  {
    if calls == [] then -1
    else if Writes(ok, calls[|calls| - 1]) then |calls| - 1
    else LastWrite(ok, calls[..|calls| - 1])
  }

  lemma {:induction false} LastWriteMeaning(ok: set<string>, calls: seq<ToolCall>)
    ensures var k := LastWrite(ok, calls);
      (k >= 0 ==> Writes(ok, calls[k])) && forall j :: k < j < |calls| ==> !Writes(ok, calls[j])
  {
    if calls != [] {
      LastWriteMeaning(ok, calls[..|calls| - 1]);
    }
  }

  /** The argument texts of the successful completions, in order. */
  function StepsIn(ok: set<string>, calls: seq<ToolCall>): seq<string> {
    if calls == [] then []
    else (if Completes(ok, calls[0]) then [calls[0].arguments] else []) + StepsIn(ok, calls[1..])
  }

  /** The list a transcript prefix rebuilds to; None before the first todo_write. */
  function RebuildPrefix(r: Reader, ok: set<string>, log: Log): Option<Todos> {
    if log == [] then None
    else
      var before, calls := RebuildPrefix(r, ok, log[..|log| - 1]), log[|log| - 1].calls;
      var k := LastWrite(ok, calls);
      if k >= 0 then Some(Replay(r, r.todosOf(calls[k].arguments), StepsIn(ok, calls)))
      else if before.None? then None
      else Some(Replay(r, before.value, StepsIn(ok, calls)))
  }

  function Rebuilt(r: Reader, log: Log): Todos {
    var p := RebuildPrefix(r, SuccessfulIds(log), log);
    if p.Some? then p.value else []
  }

  lemma {:induction false} ReplayAppend(r: Reader, todos: Todos, a: seq<string>, b: seq<string>)
    ensures Replay(r, todos, a + b) == Replay(r, Replay(r, todos, a), b)
    decreases |a|
  {
    if a == [] {
      assert a + b == b;
    } else {
      assert (a + b)[1..] == a[1..] + b;
      ReplayAppend(r, Advance(r, todos, r.stepOf(a[0])), a[1..], b);
    }
  }

  lemma {:induction false} StepsAppend(ok: set<string>, a: seq<ToolCall>, b: seq<ToolCall>)
    ensures StepsIn(ok, a + b) == StepsIn(ok, a) + StepsIn(ok, b)
    decreases |a|
  {
    if a == [] {
      assert a + b == b;
    } else {
      assert (a + b)[1..] == a[1..] + b;
      StepsAppend(ok, a[1..], b);
    }
  }

  class TodoBoard {
    var todoState: Todos

    constructor ()
      ensures todoState == []
    {
      todoState := [];
    }

    method SetTodoState(todos: Todos)
      modifies this
      ensures todoState == todos
    {
      todoState := todos;
    }

    method AdvanceCanonicalTodo(r: Reader, step: string)
      requires ValidReader(r)
      modifies this
      ensures todoState == Advance(r, old(todoState), step)
    {
      if |todoState| == 0 {
        return;
      }
      var m := r.matches(step, todoState);
      if m.None? || IsCompleted(todoState[m.value]) {
        return;
      }
      var items := new TodoItem[|todoState|](i requires 0 <= i < |todoState| reads this => todoState[i]);
      items[m.value] := items[m.value].(status := "completed");
      assert items[..] == todoState[m.value := todoState[m.value].(status := "completed")];
      PromoteNextPending(items);
      todoState := items[..];
    }

    /** rebuildTodoState: find the last successful todo_write, then replay every successful
        complete_step from that message on. */
    method RebuildTodoState(r: Reader, msgs: Log)
      requires ValidReader(r)
      modifies this
      ensures todoState == Rebuilt(r, msgs)
    {
      hide RebuildPrefix, Replay, SuccessfulIds, LastWrite, StepsIn, ValidReader;
      var ok := SuccessfulIds(msgs);
      var base, baseIdx := FindBase(r, ok, msgs);
      SetTodoState(base);
      if baseIdx < 0 {
        RebuildNothing(r, ok, msgs);
        return;
      }
      for i := baseIdx to |msgs|
        invariant i == baseIdx ==> todoState == base
        invariant i > baseIdx ==> RebuildPrefix(r, ok, msgs[..i]) == Some(todoState)
      {
        PrefixStep(r, ok, msgs, i);
        ReplayCompletions(r, ok, msgs[i].calls);
      }
      assert msgs[..|msgs|] == msgs;
    }

    method ReplayCompletions(r: Reader, ok: set<string>, calls: seq<ToolCall>)
      requires ValidReader(r)
      modifies this
      ensures todoState == Replay(r, old(todoState), StepsIn(ok, calls))
    {
      for k := 0 to |calls|
        invariant todoState == Replay(r, old(todoState), StepsIn(ok, calls[..k]))
      {
        assert calls[..k + 1] == calls[..k] + [calls[k]];
        StepsAppend(ok, calls[..k], [calls[k]]);
        ReplayAppend(r, old(todoState), StepsIn(ok, calls[..k]), StepsIn(ok, [calls[k]]));
        SingleStep(r, ok, todoState, calls[k]);
        if calls[k].name == "complete_step" && calls[k].id in ok {
          AdvanceCanonicalTodo(r, r.stepOf(calls[k].arguments));
        }
      }
      assert calls[..|calls|] == calls;
    }
  }

  lemma PrefixStep(r: Reader, ok: set<string>, log: Log, i: nat)
    requires i < |log|
    ensures var k := LastWrite(ok, log[i].calls);
      RebuildPrefix(r, ok, log[..i + 1]) ==
        if k >= 0 then Some(Replay(r, r.todosOf(log[i].calls[k].arguments), StepsIn(ok, log[i].calls)))
        else if RebuildPrefix(r, ok, log[..i]).None? then None
        else Some(Replay(r, RebuildPrefix(r, ok, log[..i]).value, StepsIn(ok, log[i].calls)))
  {
    assert log[..i + 1][..i] == log[..i];
  }

  /** baseIdx is the last of the first n messages with a successful todo_write, base its list. */
  predicate IsBase(r: Reader, ok: set<string>, log: Log, n: nat, baseIdx: int, base: Todos)
    requires n <= |log|
  {
    -1 <= baseIdx < n && (forall j :: baseIdx < j < n ==> LastWrite(ok, log[j].calls) < 0) &&
    if baseIdx < 0 then base == []
    else
      var k := LastWrite(ok, log[baseIdx].calls);
      k >= 0 && base == r.todosOf(log[baseIdx].calls[k].arguments)
  }

  method FindBase(r: Reader, ok: set<string>, msgs: Log) returns (base: Todos, baseIdx: int)
    ensures IsBase(r, ok, msgs, |msgs|, baseIdx, base)
  {
    base, baseIdx := [], -1;
    for i := 0 to |msgs|
      invariant IsBase(r, ok, msgs, i, baseIdx, base)
    {
      var calls := msgs[i].calls;
      for k := 0 to |calls|
        invariant if LastWrite(ok, calls[..k]) < 0 then IsBase(r, ok, msgs, i, baseIdx, base)
                  else baseIdx == i && base == r.todosOf(calls[LastWrite(ok, calls[..k])].arguments)
      {
        assert calls[..k + 1][..k] == calls[..k];
        if calls[k].name == "todo_write" && calls[k].id in ok {
          base, baseIdx := r.todosOf(calls[k].arguments), i;
        }
      }
      assert calls[..|calls|] == calls;
    }
  }

  lemma SingleStep(r: Reader, ok: set<string>, todos: Todos, call: ToolCall)
    ensures Replay(r, todos, StepsIn(ok, [call])) ==
            if Completes(ok, call) then Advance(r, todos, r.stepOf(call.arguments)) else todos
  {
    assert [call][1..] == [];
    if Completes(ok, call) {
      var one := [call.arguments];
      assert StepsIn(ok, [call]) == one && one[1..] == [];
      assert Replay(r, todos, one) == Replay(r, Advance(r, todos, r.stepOf(one[0])), []);
    }
  }

  lemma {:induction false} RebuildNothing(r: Reader, ok: set<string>, log: Log)
    requires forall j :: 0 <= j < |log| ==> LastWrite(ok, log[j].calls) < 0
    ensures RebuildPrefix(r, ok, log) == None
  {
    if log != [] {
      RebuildNothing(r, ok, log[..|log| - 1]);
    }
  }
}
