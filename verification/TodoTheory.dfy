/** When the list rebuilt from a transcript is the list the agent held live. */
module TodoTheory {
  import opened Text
  import opened Conversation
  import opened Todo

  /** Only these two tools change the list. */
  predicate ChangesList(call: ToolCall) {
    call.name == "todo_write" || call.name == "complete_step"
  }

  predicate SameVerdict(ok: set<string>, call: ToolCall, succeeded: bool) {
    ChangesList(call) ==> (call.id in ok <==> succeeded)
  }

  /** The id of a call that changes the list is marked exactly when the call succeeded. */
  predicate FaithfulBatch(ok: set<string>, e: Event) {
    e.Note? ||
    (|e.calls| == |e.outcomes| &&
     forall k :: 0 <= k < |e.calls| ==> SameVerdict(ok, e.calls[k], e.outcomes[k].succeeded))
  }

  ghost predicate Faithful(ok: set<string>, events: seq<Event>) {
    forall i :: 0 <= i < |events| ==> FaithfulBatch(ok, events[i])
  }

  /** The argument texts of the last list write, of the completions before it in its own
      message and of the completions after it. */
  datatype History = History(write: string, early: seq<string>, late: seq<string>)

  function HistoryOf(ok: set<string>, events: seq<Event>): Option<History> {
    if events == [] then None
    else
      var before, last := HistoryOf(ok, events[..|events| - 1]), events[|events| - 1];
      if last.Note? then before
      else
        var k := LastWrite(ok, last.calls);
        if k >= 0 then
          Some(History(last.calls[k].arguments, StepsIn(ok, last.calls[..k]), StepsIn(ok, last.calls[k + 1..])))
        else if before.None? then None
        else Some(before.value.(late := before.value.late + StepsIn(ok, last.calls)))
  }

  lemma LastWriteCons(ok: set<string>, calls: seq<ToolCall>)
    requires calls != []
    ensures LastWrite(ok, calls) ==
      if LastWrite(ok, calls[1..]) >= 0 then LastWrite(ok, calls[1..]) + 1
      else if Writes(ok, calls[0]) then 0 else -1
  {
    hide LastWrite, Writes;
    var k, j := LastWrite(ok, calls), LastWrite(ok, calls[1..]);
    LastWriteMeaning(ok, calls);
    LastWriteMeaning(ok, calls[1..]);
    if j >= 0 {
      assert Writes(ok, calls[1..][j]);
    }
    if k > 0 {
      assert calls[1..][k - 1] == calls[k];
    }
    assert forall i :: 0 <= i < |calls| - 1 ==> calls[1..][i] == calls[i + 1];
  }

  lemma {:induction false} LiveCallsMeaning(r: Reader, ok: set<string>, todos: Todos, calls: seq<ToolCall>,
                                            flags: seq<bool>)
    requires |calls| == |flags| && forall k :: 0 <= k < |calls| ==> SameVerdict(ok, calls[k], flags[k])
    ensures var k := LastWrite(ok, calls);
      LiveCalls(r, todos, calls, flags) ==
        if k < 0 then Replay(r, todos, StepsIn(ok, calls))
        else Replay(r, r.todosOf(calls[k].arguments), StepsIn(ok, calls[k + 1..]))
    decreases |calls|
  {
    if calls != [] {
      hide Advance, LastWrite, StepsIn, Replay, LiveCall, Writes, Completes, SameVerdict;
      var next, rest := LiveCall(r, todos, calls[0], flags[0]), calls[1..];
      LastWriteCons(ok, calls);
      LiveCallsMeaning(r, ok, next, rest, flags[1..]);
      StepCons(r, ok, todos, calls);
      OneCall(r, ok, todos, calls[0], flags[0]);
      var k := LastWrite(ok, calls);
      if k > 0 {
        assert rest[k..] == calls[k + 1..] && rest[k - 1] == calls[k];
      } else if k == 0 {
        assert calls[0 + 1..] == rest;
      }
    }
  }

  lemma OneCall(r: Reader, ok: set<string>, todos: Todos, call: ToolCall, succeeded: bool)
    requires SameVerdict(ok, call, succeeded)
    ensures LiveCall(r, todos, call, succeeded) ==
      if Writes(ok, call) then r.todosOf(call.arguments)
      else if Completes(ok, call) then Advance(r, todos, r.stepOf(call.arguments)) else todos
  {
    hide Advance;
  }

  lemma StepCons(r: Reader, ok: set<string>, todos: Todos, calls: seq<ToolCall>)
    requires calls != []
    ensures Replay(r, todos, StepsIn(ok, calls)) ==
      Replay(r, if Completes(ok, calls[0]) then Advance(r, todos, r.stepOf(calls[0].arguments)) else todos,
             StepsIn(ok, calls[1..]))
  {
    hide Advance, Completes;
    var steps := StepsIn(ok, calls);
    if Completes(ok, calls[0]) {
      assert steps[1..] == StepsIn(ok, calls[1..]);
    } else {
      assert steps == StepsIn(ok, calls[1..]);
    }
  }

  lemma {:induction false} ReplayEmpty(r: Reader, steps: seq<string>)
    ensures Replay(r, [], steps) == []
    decreases |steps|
  {
    hide IsCompleted, Promote;
    if steps != [] {
      ReplayEmpty(r, steps[1..]);
    }
  }

  /** Live, only the completions after the last todo_write count. */
  lemma {:induction false} LiveMeaning(r: Reader, ok: set<string>, events: seq<Event>)
    requires ValidEvents(events) && Faithful(ok, events)
    ensures var h := HistoryOf(ok, events);
      Live(r, events) == if h.None? then [] else Replay(r, r.todosOf(h.value.write), h.value.late)
    decreases |events|
  {
    hide LiveCalls, Replay, StepsIn, LastWrite;
    if events != [] {
      var init, last := events[..|events| - 1], events[|events| - 1];
      LiveMeaning(r, ok, init);
      if last.Batch? {
        assert FaithfulBatch(ok, last);
        LiveCallsMeaning(r, ok, Live(r, init), last.calls, Succeeded(last));
        var h := HistoryOf(ok, init);
        if h.Some? {
          ReplayAppend(r, r.todosOf(h.value.write), h.value.late, StepsIn(ok, last.calls));
        } else {
          ReplayEmpty(r, StepsIn(ok, last.calls));
        }
      }
    }
  }

  lemma StepsAround(ok: set<string>, calls: seq<ToolCall>, k: nat)
    requires k < |calls| && Writes(ok, calls[k])
    ensures StepsIn(ok, calls) == StepsIn(ok, calls[..k]) + StepsIn(ok, calls[k + 1..])
  {
    assert calls == calls[..k] + calls[k..];
    StepsAppend(ok, calls[..k], calls[k..]);
    assert calls[k..][1..] == calls[k + 1..];
    assert !Completes(ok, calls[k]);
    assert StepsIn(ok, calls[k..]) == StepsIn(ok, calls[k + 1..]);
  }

  lemma {:induction false} RebuildIgnoresPlain(r: Reader, ok: set<string>, log: Log, tail: Log)
    requires forall i :: 0 <= i < |tail| ==> tail[i].calls == []
    ensures RebuildPrefix(r, ok, log + tail) == RebuildPrefix(r, ok, log)
    decreases |tail|
  {
    if tail == [] {
      assert log + tail == log;
    } else {
      var front := tail[..|tail| - 1];
      RebuildIgnoresPlain(r, ok, log, front);
      PrefixStep(r, ok, log + tail, |log + front|);
      assert (log + tail)[..|log + front|] == log + front;
      assert (log + tail)[..|log + front| + 1] == log + tail;
      assert (log + tail)[|log + front|].calls == [];
      var p := RebuildPrefix(r, ok, log + front);
      assert p.Some? ==> Replay(r, p.value, []) == p.value;
      assert StepsIn(ok, []) == [];
    }
  }

  /** Rebuilt, the completions before the last todo_write in its message count as well. */
  lemma {:induction false} RebuildMeaning(r: Reader, ok: set<string>, events: seq<Event>)
    requires ValidEvents(events)
    ensures var h := HistoryOf(ok, events);
      RebuildPrefix(r, ok, Transcript(events)) ==
        if h.None? then None else Some(Replay(r, r.todosOf(h.value.write), h.value.early + h.value.late))
    decreases |events|
  {
    hide Replay, StepsIn, LastWrite, RebuildPrefix, EventLog;
    if events == [] {
      RebuildNothing(r, ok, []);
    } else {
      var init, last := events[..|events| - 1], events[|events| - 1];
      assert ValidEvent(last);
      RebuildMeaning(r, ok, init);
      if last.Note? {
        NoteIsPlain(last);
        RebuildIgnoresPlain(r, ok, Transcript(init), EventLog(last));
      } else {
        RebuildBatch(r, ok, Transcript(init), last);
        HistoryStep(r, ok, HistoryOf(ok, init), last.calls);
      }
    }
  }

  lemma NoteIsPlain(e: Event)
    requires e.Note?
    ensures forall i :: 0 <= i < |EventLog(e)| ==> EventLog(e)[i].calls == []
  {
  }

  lemma HistoryStep(r: Reader, ok: set<string>, h: Option<History>, calls: seq<ToolCall>)
    ensures var k, steps := LastWrite(ok, calls), StepsIn(ok, calls);
      if k >= 0 then steps == StepsIn(ok, calls[..k]) + StepsIn(ok, calls[k + 1..])
      else h.Some? ==>
        Replay(r, Replay(r, r.todosOf(h.value.write), h.value.early + h.value.late), steps) ==
        Replay(r, r.todosOf(h.value.write), h.value.early + (h.value.late + steps))
  {
    hide Replay, StepsIn, LastWrite;
    var k, steps := LastWrite(ok, calls), StepsIn(ok, calls);
    if k >= 0 {
      LastWriteMeaning(ok, calls);
      StepsAround(ok, calls, k);
    } else if h.Some? {
      ReplayAppend(r, r.todosOf(h.value.write), h.value.early + h.value.late, steps);
      assert h.value.early + h.value.late + steps == h.value.early + (h.value.late + steps);
    }
  }

  lemma RebuildBatch(r: Reader, ok: set<string>, log: Log, e: Event)
    requires e.Batch? && ValidEvent(e)
    ensures var k, before := LastWrite(ok, e.calls), RebuildPrefix(r, ok, log);
      RebuildPrefix(r, ok, log + EventLog(e)) ==
        if k >= 0 then Some(Replay(r, r.todosOf(e.calls[k].arguments), StepsIn(ok, e.calls)))
        else if before.None? then None else Some(Replay(r, before.value, StepsIn(ok, e.calls)))
  {
    hide Replay, StepsIn, LastWrite, RebuildPrefix;
    var m := AssistantMessage(e.text, e.calls);
    var tail := EventLog(e)[1..];
    assert EventLog(e) == [m] + tail;
    assert log + EventLog(e) == (log + [m]) + tail;
    RebuildIgnoresPlain(r, ok, log + [m], tail);
    PrefixStep(r, ok, log + [m], |log|);
    assert (log + [m])[..|log|] == log && (log + [m])[..|log| + 1] == log + [m];
  }

  // ----- ids and result texts -----

  predicate CallAt(events: seq<Event>, i: nat, k: nat) {
    i < |events| && events[i].Batch? && k < |events[i].calls| && k < |events[i].outcomes|
  }

  /** Call ids are not empty and never repeat within the transcript. */
  ghost predicate UniqueIds(events: seq<Event>) {
    (forall i: nat, k: nat :: CallAt(events, i, k) ==> events[i].calls[k].id != "") &&
    (forall i: nat, k: nat, j: nat, l: nat ::
       CallAt(events, i, k) && CallAt(events, j, l) && events[i].calls[k].id == events[j].calls[l].id ==>
       i == j && k == l)
  }

  /** The stored text of each todo_write and complete_step says exactly whether it succeeded. */
  ghost predicate ExactTexts(events: seq<Event>) {
    forall i: nat, k: nat :: CallAt(events, i, k) && ChangesList(events[i].calls[k]) ==>
      (events[i].outcomes[k].succeeded <==> !ResultFailed(events[i].outcomes[k].text))
  }

  function ResultAt(events: seq<Event>, i: nat, k: nat): Message
    requires CallAt(events, i, k)
  {
    ToolMessage(events[i].calls[k], events[i].outcomes[k].text)
  }

  lemma {:induction false} TranscriptHas(events: seq<Event>, i: nat, k: nat)
    requires ValidEvents(events) && CallAt(events, i, k)
    ensures ResultAt(events, i, k) in Transcript(events)
    decreases |events|
  {
    var init, last := events[..|events| - 1], events[|events| - 1];
    if i < |init| {
      assert CallAt(init, i, k) && ResultAt(init, i, k) == ResultAt(events, i, k);
      TranscriptHas(init, i, k);
    } else {
      assert EventLog(last)[k + 1] == ResultAt(events, i, k);
    }
  }

  lemma {:induction false} TranscriptTools(events: seq<Event>, m: Message)
    requires ValidEvents(events) && m in Transcript(events) && m.role.Tool?
    ensures exists i: nat, k: nat :: CallAt(events, i, k) && m == ResultAt(events, i, k)
    decreases |events|
  {
    hide EventLog;
    var init, last := events[..|events| - 1], events[|events| - 1];
    assert ValidEvent(last);
    if m in Transcript(init) {
      TranscriptTools(init, m);
      var i: nat, k: nat :| CallAt(init, i, k) && m == ResultAt(init, i, k);
      assert CallAt(events, i, k) && m == ResultAt(events, i, k);
    } else {
      var k := EventTools(last, m);
      assert CallAt(events, |events| - 1, k) && m == ResultAt(events, |events| - 1, k);
    }
  }

  lemma EventTools(e: Event, m: Message) returns (k: nat)
    requires ValidEvent(e) && m in EventLog(e) && m.role.Tool?
    ensures e.Batch? && k < |e.calls| && m == ToolMessage(e.calls[k], e.outcomes[k].text)
  {
    var j :| 0 <= j < |EventLog(e)| && EventLog(e)[j] == m;
    k := j - 1;
  }

  /** With unique ids a call's id reads as successful exactly when its own text does. */
  lemma IdReadsAsText(events: seq<Event>, i: nat, k: nat)
    requires ValidEvents(events) && UniqueIds(events) && CallAt(events, i, k)
    ensures events[i].calls[k].id in SuccessfulIds(Transcript(events)) <==> !ResultFailed(events[i].outcomes[k].text)
  {
    var log := Transcript(events);
    var id := events[i].calls[k].id;
    TranscriptHas(events, i, k);
    if !ResultFailed(events[i].outcomes[k].text) {
      assert MarksSuccess(ResultAt(events, i, k));
    }
    if id in SuccessfulIds(log) {
      var m :| m in log && MarksSuccess(m) && m.toolCallId == id;
      TranscriptTools(events, m);
      var j: nat, l: nat :| CallAt(events, j, l) && m == ResultAt(events, j, l);
      assert events[i].calls[k].id == events[j].calls[l].id;
    }
  }

  lemma IdsAreFaithful(events: seq<Event>)
    requires ValidEvents(events) && UniqueIds(events) && ExactTexts(events)
    ensures Faithful(SuccessfulIds(Transcript(events)), events)
  {
    hide ResultFailed, SuccessfulIds, Transcript;
    var ok := SuccessfulIds(Transcript(events));
    forall i | 0 <= i < |events| ensures FaithfulBatch(ok, events[i]) {
      assert ValidEvent(events[i]);
      if events[i].Batch? {
        forall k | 0 <= k < |events[i].calls|
          ensures SameVerdict(ok, events[i].calls[k], events[i].outcomes[k].succeeded)
        {
          assert CallAt(events, i, k);
          IdReadsAsText(events, i, k);
        }
      }
    }
  }

  /** With unique ids and exact texts: both lists come from the same last todo_write; the live
      one replays the completions after it, the rebuilt one also those in front of it in its
      message. */
  lemma RebuildAgreesWithLive(r: Reader, events: seq<Event>)
    requires ValidEvents(events) && UniqueIds(events) && ExactTexts(events)
    ensures var h := HistoryOf(SuccessfulIds(Transcript(events)), events);
      if h.None? then Rebuilt(r, Transcript(events)) == Live(r, events) == []
      else
        var History(write, early, late) := h.value;
        Live(r, events) == Replay(r, r.todosOf(write), late) &&
        Rebuilt(r, Transcript(events)) == Replay(r, Replay(r, r.todosOf(write), early), late) &&
        (early == [] ==> Rebuilt(r, Transcript(events)) == Live(r, events))
  {
    var ok := SuccessfulIds(Transcript(events));
    IdsAreFaithful(events);
    LiveMeaning(r, ok, events);
    RebuildMeaning(r, ok, events);
    var h := HistoryOf(ok, events);
    if h.Some? {
      ReplayAppend(r, r.todosOf(h.value.write), h.value.early, h.value.late);
    }
  }

  // ----- where they differ -----

  const ONE_ITEM := [TodoItem("write tests", "pending")]

  /** Every todo_write writes the one-item list, every step means its first item. */
  const FIRST_ITEM_READER := Reader((a: string) => ONE_ITEM, (a: string) => "1",
    (s: string, t: Todos) => if t == [] then None else Some(0))

  function CallNamed(id: string, name: string): ToolCall {
    ToolCall(id, name, "")
  }

  /** A complete_step in front of the todo_write of its own message: live it acts on the old,
      empty list; rebuilt it acts on the new one. */
  const EARLY_COMPLETION := [Batch("", [CallNamed("a", "complete_step"), CallNamed("b", "todo_write")],
                                  [Outcome(true, "done"), Outcome(true, "ok")])]

  /** A todo_write cancelled before it ran: its text does not read as a failure. */
  const CANCELLED_WRITE := [Batch("", [CallNamed("a", "todo_write")],
                                 [Outcome(false, "cancelled: " + "context cancelled " + "before execution")])]

  lemma StepsOfOne(ok: set<string>, c: ToolCall)
    ensures StepsIn(ok, [c]) == if Completes(ok, c) then [c.arguments] else []
  {
    assert [c][1..] == [];
  }

  lemma TextsReadAsSuccess(text: string)
    requires text != "" && !IsSpace(text[0]) && !IsSpace(text[|text| - 1])
    requires text[0] != 'e' && text[0] != 'b' && text[0] != 'E' && text[0] != '['
    ensures !ResultFailed(text)
  {
    TrimSpaceFixes(text);
  }

  lemma ExamplesAreRegular()
    ensures ValidEvents(EARLY_COMPLETION) && UniqueIds(EARLY_COMPLETION) && ExactTexts(EARLY_COMPLETION)
    ensures ValidEvents(CANCELLED_WRITE) && UniqueIds(CANCELLED_WRITE)
    ensures !ResultFailed(CANCELLED_WRITE[0].outcomes[0].text)
  {
    hide ResultFailed;
    var events := EARLY_COMPLETION;
    TextsReadAsSuccess(events[0].outcomes[0].text);
    TextsReadAsSuccess(events[0].outcomes[1].text);
    TextsReadAsSuccess(CANCELLED_WRITE[0].outcomes[0].text);
    assert events[0].calls[0].id[0] == 'a' && events[0].calls[1].id[0] == 'b';
    forall i: nat, k: nat | CallAt(events, i, k) ensures i == 0 && (k == 0 || k == 1) {
    }
  }

  /** History of a transcript that is one successful batch of a step and then a write. */
  lemma StepThenWrite(r: Reader, ok: set<string>, e: Event)
    requires e.Batch? && |e.calls| == 2 && Completes(ok, e.calls[0]) && Writes(ok, e.calls[1])
    ensures HistoryOf(ok, [e]) == Some(History(e.calls[1].arguments, [e.calls[0].arguments], []))
  {
    hide Completes, Writes;
    var calls := e.calls;
    assert LastWrite(ok, calls) == 1;
    assert calls[..1] == [calls[0]] && calls[2..] == [];
    StepsOfOne(ok, calls[0]);
    assert [e][..0] == [];
  }

  lemma OneWrite(r: Reader, ok: set<string>, e: Event)
    requires e.Batch? && |e.calls| == 1 && Writes(ok, e.calls[0])
    ensures HistoryOf(ok, [e]) == Some(History(e.calls[0].arguments, [], []))
  {
    hide Writes;
    var calls := e.calls;
    assert LastWrite(ok, calls) == 0;
    assert calls[..0] == [] && calls[1..] == [];
    assert [e][..0] == [];
  }

  lemma EarlyCompletionDiffers()
    ensures ValidEvents(EARLY_COMPLETION) && UniqueIds(EARLY_COMPLETION) && ExactTexts(EARLY_COMPLETION)
    ensures Rebuilt(FIRST_ITEM_READER, Transcript(EARLY_COMPLETION)) != Live(FIRST_ITEM_READER, EARLY_COMPLETION)
  {
    hide Rebuilt, Live, HistoryOf, SuccessfulIds, Advance, UniqueIds, ExactTexts, Transcript;
    var r, e := FIRST_ITEM_READER, EARLY_COMPLETION[0];
    ExamplesAreRegular();
    var ok := SuccessfulIds(Transcript(EARLY_COMPLETION));
    IdsAreFaithful(EARLY_COMPLETION);
    RebuildAgreesWithLive(r, EARLY_COMPLETION);
    assert FaithfulBatch(ok, EARLY_COMPLETION[0]);
    assert e.outcomes[0].succeeded && e.outcomes[1].succeeded;
    assert e.calls[0].id in ok && e.calls[1].id in ok;
    StepThenWrite(r, ok, e);
    assert EARLY_COMPLETION == [e];
    ReplayOne(r, ONE_ITEM, "");
    AdvanceOne();
  }

  lemma ReplayOne(r: Reader, todos: Todos, arg: string)
    ensures Replay(r, todos, [arg]) == Advance(r, todos, r.stepOf(arg)) && Replay(r, todos, []) == todos
  {
    hide Advance;
    assert [arg][1..] == [];
    assert Replay(r, todos, [arg]) == Replay(r, Advance(r, todos, r.stepOf(arg)), [arg][1..]);
  }

  lemma AdvanceOne()
    ensures Advance(FIRST_ITEM_READER, ONE_ITEM, "1") != ONE_ITEM
  {
    TrimSpaceFixes("pending");
    hide TrimSpace, Promote;
    var item := ONE_ITEM[0];
    StatusWords();
    assert "pending"[0] == 'p' && "completed"[0] == 'c';
    assert !IsCompleted(item);
    var done := ONE_ITEM[0 := item.(status := "completed")];
    PromoteKeeps(done);
    assert Promote(done)[0] == done[0] != item;
  }

  /** A list that was never written live comes back from the transcript. */
  lemma CancelledWriteComesBack()
    ensures ValidEvents(CANCELLED_WRITE) && UniqueIds(CANCELLED_WRITE)
    ensures Live(FIRST_ITEM_READER, CANCELLED_WRITE) == []
    ensures Rebuilt(FIRST_ITEM_READER, Transcript(CANCELLED_WRITE)) == ONE_ITEM
  {
    hide Rebuilt, Live, HistoryOf, UniqueIds, ResultFailed, Replay, Transcript, RebuildPrefix;
    var r, e := FIRST_ITEM_READER, CANCELLED_WRITE[0];
    ExamplesAreRegular();
    var log := Transcript(CANCELLED_WRITE);
    var ok := SuccessfulIds(log);
    TranscriptHas(CANCELLED_WRITE, 0, 0);
    assert MarksSuccess(ResultAt(CANCELLED_WRITE, 0, 0));
    assert e.calls[0].id in ok;
    OneWrite(r, ok, e);
    assert CANCELLED_WRITE == [e];
    RebuildMeaning(r, ok, CANCELLED_WRITE);
    ReplayOne(r, ONE_ITEM, "");
    var none: seq<string> := [];
    assert none + none == none;
    CancelledLive(r, e);
    RebuiltOf(r, log);
  }

  lemma RebuiltOf(r: Reader, log: Log)
    ensures var p := RebuildPrefix(r, SuccessfulIds(log), log); Rebuilt(r, log) == if p.Some? then p.value else []
  {
  }

  lemma CancelledLive(r: Reader, e: Event)
    requires e.Batch? && |e.calls| == |e.outcomes| == 1 && !e.outcomes[0].succeeded
    ensures Live(r, [e]) == []
  {
    assert [e][..0] == [] && Live(r, []) == [];
    var ok := Succeeded(e);
    assert !ok[0];
    assert LiveCall(r, [], e.calls[0], ok[0]) == [];
    assert LiveCalls(r, [], e.calls, ok) == LiveCalls(r, [], e.calls[1..], ok[1..]) == [];
  }
}
