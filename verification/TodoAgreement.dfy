/** Exactly which transcripts rebuild to the live list however arguments are read and steps are
    matched: those in which no completion precedes the last list write in its own message. */
module TodoAgreement {
  import opened Text
  import opened Conversation
  import opened Todo
  import opened TodoTheory

  /** The message with the last successful todo_write has a successful complete_step before it. */
  predicate EarlyCompletionIn(ok: set<string>, events: seq<Event>) {
    events != [] &&
    var last := events[|events| - 1];
    if last.Batch? && LastWrite(ok, last.calls) >= 0
    then exists j :: 0 <= j < LastWrite(ok, last.calls) && Completes(ok, last.calls[j])
    else EarlyCompletionIn(ok, events[..|events| - 1])
  }

  function CallCount(events: seq<Event>): nat {
    if events == [] then 0
    else CallCount(events[..|events| - 1]) + (if events[|events| - 1].Batch? then |events[|events| - 1].calls| else 0)
  }

  lemma {:induction false} StepsInSome(ok: set<string>, calls: seq<ToolCall>)
    ensures StepsIn(ok, calls) != [] <==> exists j :: 0 <= j < |calls| && Completes(ok, calls[j])
    ensures |StepsIn(ok, calls)| <= |calls|
  {
    hide Completes;
    if calls != [] {
      StepsInSome(ok, calls[1..]);
      if j :| 0 <= j < |calls| && Completes(ok, calls[j]) {
        assert j > 0 ==> calls[1..][j - 1] == calls[j];
      }
      if j :| 0 <= j < |calls[1..]| && Completes(ok, calls[1..][j]) {
        assert calls[j + 1] == calls[1..][j];
      }
    }
  }

  lemma {:induction false} HistoryHasEarly(ok: set<string>, events: seq<Event>)
    ensures var h := HistoryOf(ok, events);
      EarlyCompletionIn(ok, events) <==> h.Some? && h.value.early != []
  {
    hide StepsIn, LastWrite, Completes;
    if events != [] {
      var last := events[|events| - 1];
      HistoryHasEarly(ok, events[..|events| - 1]);
      if last.Batch? && LastWrite(ok, last.calls) >= 0 {
        var calls, k := last.calls, LastWrite(ok, last.calls);
        StepsInSome(ok, calls[..k]);
        assert forall j :: 0 <= j < k ==> calls[..k][j] == calls[j];
      }
    }
  }

  // ----- the two histories of a transcript -----

  function IdsOf(calls: seq<ToolCall>, ok: seq<bool>): set<string>
    requires |calls| == |ok|
  {
    set k | 0 <= k < |calls| && ok[k] :: calls[k].id
  }

  /** The ids of the calls that did succeed. */
  function SucceededIds(events: seq<Event>): set<string>
    requires ValidEvents(events)
  {
    if events == [] then {}
    else
      var last := events[|events| - 1];
      assert ValidEvent(last);
      SucceededIds(events[..|events| - 1]) + (if last.Batch? then IdsOf(last.calls, Succeeded(last)) else {})
  }

  lemma {:induction false} SucceededIdAt(events: seq<Event>, id: string)
    requires ValidEvents(events)
    ensures id in SucceededIds(events) <==>
      exists i: nat, k: nat :: CallAt(events, i, k) && events[i].outcomes[k].succeeded && events[i].calls[k].id == id
    decreases |events|
  {
    if events != [] {
      var init, last := events[..|events| - 1], events[|events| - 1];
      assert ValidEvent(last);
      SucceededIdAt(init, id);
      if id in SucceededIds(init) {
        var i: nat, k: nat :| CallAt(init, i, k) && init[i].outcomes[k].succeeded && init[i].calls[k].id == id;
        assert CallAt(events, i, k);
      } else if id in SucceededIds(events) {
        var k :| 0 <= k < |last.calls| && Succeeded(last)[k] && last.calls[k].id == id;
        assert CallAt(events, |init|, k);
      }
      if i: nat, k: nat :| CallAt(events, i, k) && events[i].outcomes[k].succeeded && events[i].calls[k].id == id {
        if i < |init| {
          assert CallAt(init, i, k);
        } else {
          assert Succeeded(last)[k];
        }
      }
    }
  }

  lemma SucceededAreFaithful(events: seq<Event>)
    requires ValidEvents(events) && UniqueIds(events)
    ensures Faithful(SucceededIds(events), events)
  {
    hide SucceededIds;
    var ok := SucceededIds(events);
    forall i | 0 <= i < |events| ensures FaithfulBatch(ok, events[i]) {
      assert ValidEvent(events[i]);
      if events[i].Batch? {
        forall k | 0 <= k < |events[i].calls|
          ensures SameVerdict(ok, events[i].calls[k], events[i].outcomes[k].succeeded)
        {
          assert CallAt(events, i, k);
          SucceededIdAt(events, events[i].calls[k].id);
        }
      }
    }
  }

  /** A list is determined by a write and the completions after it, as argument texts. */
  datatype Steps = NoList | ListOf(write: string, steps: seq<string>)

  /** What the live list comes from: the last write that succeeded and the completions that
      succeeded after it. */
  function LiveSteps(events: seq<Event>): Steps
    requires ValidEvents(events)
  {
    var h := HistoryOf(SucceededIds(events), events);
    if h.None? then NoList else ListOf(h.value.write, h.value.late)
  }

  /** What the rebuilt list comes from: the last write whose text reads as a success and all
      such completions from its message on. */
  function ReadSteps(events: seq<Event>): Steps
    requires ValidEvents(events)
  {
    var h := HistoryOf(SuccessfulIds(Transcript(events)), events);
    if h.None? then NoList else ListOf(h.value.write, h.value.early + h.value.late)
  }

  function ListFrom(r: Reader, steps: Steps): Todos {
    if steps.NoList? then [] else Replay(r, r.todosOf(steps.write), steps.steps)
  }

  lemma ListsAreFromSteps(r: Reader, events: seq<Event>)
    requires ValidEvents(events) && UniqueIds(events)
    ensures Live(r, events) == ListFrom(r, LiveSteps(events))
    ensures Rebuilt(r, Transcript(events)) == ListFrom(r, ReadSteps(events))
  {
    SucceededAreFaithful(events);
    LiveMeaning(r, SucceededIds(events), events);
    RebuildMeaning(r, SuccessfulIds(Transcript(events)), events);
  }

  // ----- readers that notice every difference -----

  function FirstOpen(todos: Todos): Option<nat> {
    if todos == [] then None
    else if !IsCompleted(todos[0]) then Some(0)
    else if FirstOpen(todos[1..]).Some? then Some(FirstOpen(todos[1..]).value + 1)
    else None
  }

  function PendingItems(n: nat): Todos {
    seq(n, i => TodoItem("", "pending"))
  }

  /** The step at completion number `at` means the last item if its text is mark, every other
      step the first item still open. */
  function MarkedStep(at: nat, mark: string, step: string, todos: Todos): Option<nat> {
    if todos != [] && step == mark && Done(todos) == at then Some(|todos| - 1) else FirstOpen(todos)
  }

  /** Every write gives n pending items. */
  function MarkingReader(n: nat, at: nat, mark: string): Reader {
    Reader((a: string) => PendingItems(n), (a: string) => a, (s: string, t: Todos) => MarkedStep(at, mark, s, t))
  }

  /** The write with this text gives no item, every other write one. */
  function WriteReader(write: string): Reader {
    Reader((a: string) => PendingItems(if a == write then 0 else 1), (a: string) => a, (s: string, t: Todos) => None)
  }

  function Done(todos: Todos): nat {
    if todos == [] then 0 else (if IsCompleted(todos[0]) then 1 else 0) + Done(todos[1..])
  }

  lemma {:induction false} DoneUpdate(todos: Todos, i: nat, item: TodoItem)
    requires i < |todos|
    ensures Done(todos[i := item]) ==
      Done(todos) - (if IsCompleted(todos[i]) then 1 else 0) + (if IsCompleted(item) then 1 else 0)
  {
    hide IsCompleted;
    if i == 0 {
      assert todos[i := item][1..] == todos[1..];
    } else {
      assert todos[i := item][1..] == todos[1..][i - 1 := item];
      DoneUpdate(todos[1..], i - 1, item);
    }
  }

  lemma {:induction false} FirstOpenIs(todos: Todos)
    ensures Done(todos) <= |todos|
    ensures var m := FirstOpen(todos);
      if m.Some? then m.value < |todos| && m.value <= Done(todos) < |todos| && !IsCompleted(todos[m.value])
      else Done(todos) == |todos|
  {
    hide IsCompleted;
    if todos != [] {
      FirstOpenIs(todos[1..]);
    }
  }

  lemma PromoteKeepsDone(todos: Todos)
    ensures Done(Promote(todos)) == Done(todos)
    ensures forall i :: 0 <= i < |todos| ==> IsCompleted(Promote(todos)[i]) == IsCompleted(todos[i])
  {
    hide TrimSpace, Status;
    var k := FirstPending(todos, 0);
    if !AnyInProgress(todos) && k < |todos| {
      var item := todos[k].(status := "in_progress");
      StartedIsOpen(todos[k]);
      hide IsCompleted, Done, FirstPending;
      DoneUpdate(todos, k, item);
    }
  }

  lemma StartedIsOpen(item: TodoItem)
    ensures !IsCompleted(item.(status := "in_progress")) && (IsPending(item) ==> !IsCompleted(item))
  {
    TrimSpaceFixes("in_progress");
    assert "in_progress"[0] == 'i' && "completed"[0] == 'c' && "pending"[0] == 'p';
    hide TrimSpace;
  }

  /** A step that means an open item completes exactly that one. */
  lemma AdvanceCompletes(r: Reader, todos: Todos, step: string, m: nat)
    requires r.matches(step, todos) == Some(m) && m < |todos| && !IsCompleted(todos[m])
    ensures var after := Advance(r, todos, step);
      |after| == |todos| && Done(after) == Done(todos) + 1 &&
      forall i :: 0 <= i < |todos| ==> IsCompleted(after[i]) == (i == m || IsCompleted(todos[i]))
  {
    hide TrimSpace, Promote, Status, Done;
    StatusWords();
    var item := todos[m].(status := "completed");
    DoneUpdate(todos, m, item);
    PromoteKeepsDone(todos[m := item]);
  }

  /** Each step completes one more item, and the last item is completed exactly by a marked
      step in its place. */
  lemma {:induction false} MarkingReplay(n: nat, at: nat, mark: string, todos: Todos, args: seq<string>)
    requires Done(todos) + |args| < |todos| && (Done(todos) <= at ==> !IsCompleted(todos[|todos| - 1]))
    ensures var after := Replay(MarkingReader(n, at, mark), todos, args);
      |after| == |todos| && Done(after) == Done(todos) + |args| &&
      (IsCompleted(after[|todos| - 1]) <==>
        IsCompleted(todos[|todos| - 1]) || (0 <= at - Done(todos) < |args| && args[at - Done(todos)] == mark))
    decreases |args|
  {
    hide Advance, Done, FirstOpen, IsCompleted;
    if args != [] {
      var r, last := MarkingReader(n, at, mark), |todos| - 1;
      var m := MarkedStep(at, mark, args[0], todos);
      FirstOpenIs(todos);
      assert r.matches(args[0], todos) == m && r.stepOf(args[0]) == args[0];
      AdvanceCompletes(r, todos, args[0], m.value);
      var next := Advance(r, todos, args[0]);
      assert IsCompleted(next[last]) == (m.value == last || IsCompleted(todos[last]));
      MarkingReplay(n, at, mark, next, args[1..]);
      assert Replay(r, todos, args) == Replay(r, next, args[1..]);
      assert forall k :: 0 < k < |args| ==> args[k] == args[1..][k - 1];
    }
  }

  lemma {:induction false} NoneDone(n: nat)
    ensures Done(PendingItems(n)) == 0 && forall i :: 0 <= i < n ==> !IsCompleted(PendingItems(n)[i])
  {
    TrimSpaceFixes("pending");
    assert "pending"[0] == 'p' && "completed"[0] == 'c';
    hide TrimSpace;
    if n > 0 {
      NoneDone(n - 1);
      assert PendingItems(n)[1..] == PendingItems(n - 1);
    }
  }

  lemma {:induction false} WriteReplay(write: string, todos: Todos, args: seq<string>)
    ensures Replay(WriteReader(write), todos, args) == todos
    decreases |args|
  {
    if args != [] {
      WriteReplay(write, todos, args[1..]);
    }
  }

  lemma ReadersAreValid(n: nat, at: nat, mark: string, write: string)
    ensures ValidReader(MarkingReader(n, at, mark)) && ValidReader(WriteReader(write))
  {
    forall t: Todos ensures FirstOpen(t).Some? ==> FirstOpen(t).value < |t| {
      FirstOpenIs(t);
    }
    hide FirstOpen, Done;
  }

  lemma {:induction false} FirstDifference(a: seq<string>, b: seq<string>) returns (i: nat)
    requires |a| == |b| && a != b
    ensures i < |a| && a[i] != b[i]
  {
    if a[0] != b[0] {
      i := 0;
    } else {
      var k := FirstDifference(a[1..], b[1..]);
      i := k + 1;
    }
  }

  /** Different completions behind the same write can be told apart. */
  lemma StepsTellApart(write: string, a: seq<string>, b: seq<string>) returns (r: Reader)
    requires a != b
    ensures ValidReader(r) && Replay(r, r.todosOf(write), a) != Replay(r, r.todosOf(write), b)
  {
    hide Replay, ValidReader, Done, IsCompleted, PendingItems;
    var n, at, mark := |a| + |b| + 1, 0, "";
    if |a| == |b| {
      at := FirstDifference(a, b);
      mark := a[at];
    }
    r := MarkingReader(n, at, mark);
    ReadersAreValid(n, at, mark, "");
    NoneDone(n);
    assert r.todosOf(write) == PendingItems(n) && |PendingItems(n)| == n by {
      PendingCount(n);
    }
    MarkingReplay(n, at, mark, PendingItems(n), a);
    MarkingReplay(n, at, mark, PendingItems(n), b);
  }

  lemma PendingCount(n: nat)
    ensures |PendingItems(n)| == n
  {
  }

  /** Different sources of a list can be told apart. */
  lemma SourcesTellApart(a: Steps, b: Steps) returns (r: Reader)
    requires a != b
    ensures ValidReader(r) && ListFrom(r, a) != ListFrom(r, b)
  {
    if a.ListOf? && b.ListOf? && a.write == b.write {
      hide Replay, ValidReader;
      r := StepsTellApart(a.write, a.steps, b.steps);
    } else {
      var write := if a.ListOf? && b.ListOf? then a.write else (if a.ListOf? then a.write else b.write) + "x";
      r := WriteReader(write);
      ReadersAreValid(0, 0, "", write);
      hide ValidReader, Replay;
      if a.ListOf? {
        WriteReplay(write, r.todosOf(a.write), a.steps);
      }
      if b.ListOf? {
        WriteReplay(write, r.todosOf(b.write), b.steps);
      }
    }
  }

  // ----- the exact conditions -----

  ghost predicate Agrees(r: Reader, events: seq<Event>)
    requires ValidEvents(events)
  {
    Rebuilt(r, Transcript(events)) == Live(r, events)
  }

  /** With unique ids alone: the rebuilt list is the live one for every way of reading arguments
      and matching steps if and only if the last write whose text reads as a success is the last
      that succeeded, and such completions from its message on are the ones that succeeded
      after it. */
  lemma RebuildAgreesIff(events: seq<Event>)
    requires ValidEvents(events) && UniqueIds(events)
    ensures (forall r | ValidReader(r) :: Agrees(r, events)) <==> ReadSteps(events) == LiveSteps(events)
  {
    hide ValidReader, UniqueIds;
    forall r ensures Agrees(r, events) <==> ListFrom(r, ReadSteps(events)) == ListFrom(r, LiveSteps(events)) {
      ListsAreFromSteps(r, events);
    }
    hide Agrees, ListFrom, ReadSteps, LiveSteps;
    if ReadSteps(events) != LiveSteps(events) {
      var r := SourcesTellApart(ReadSteps(events), LiveSteps(events));
      assert !Agrees(r, events);
    }
  }

  /** With exact texts as well, the condition is that no successful completion precedes the
      last successful write in its own message. */
  lemma RebuildAgreesExactly(events: seq<Event>)
    requires ValidEvents(events) && UniqueIds(events) && ExactTexts(events)
    ensures (forall r | ValidReader(r) :: Agrees(r, events)) <==>
            !EarlyCompletionIn(SuccessfulIds(Transcript(events)), events)
  {
    hide ValidReader, Agrees, ExactTexts, UniqueIds, HistoryOf, EarlyCompletionIn, SuccessfulIds, SucceededIds;
    RebuildAgreesIff(events);
    var ok := SuccessfulIds(Transcript(events));
    IdsAreFaithful(events);
    SucceededAreFaithful(events);
    SameHistory(ok, SucceededIds(events), events);
    HistoryHasEarly(ok, events);
    var h := HistoryOf(ok, events);
    if h.Some? {
      FrontMatters(h.value.early, h.value.late);
    }
  }

  lemma FrontMatters(early: seq<string>, late: seq<string>)
    ensures early + late == late <==> early == []
  {
    if early != [] {
      assert |early + late| > |late|;
    }
  }

  lemma {:induction false} SameStepsIn(a: set<string>, b: set<string>, calls: seq<ToolCall>)
    requires forall k :: 0 <= k < |calls| && ChangesList(calls[k]) ==> (calls[k].id in a <==> calls[k].id in b)
    ensures StepsIn(a, calls) == StepsIn(b, calls)
  {
    if calls != [] {
      SameStepsIn(a, b, calls[1..]);
    }
  }

  lemma {:induction false} SameLastWrite(a: set<string>, b: set<string>, calls: seq<ToolCall>)
    requires forall k :: 0 <= k < |calls| && ChangesList(calls[k]) ==> (calls[k].id in a <==> calls[k].id in b)
    ensures LastWrite(a, calls) == LastWrite(b, calls)
  {
    if calls != [] {
      SameLastWrite(a, b, calls[..|calls| - 1]);
    }
  }

  /** Two faithful sets of ids give one history. */
  lemma {:induction false} SameHistory(a: set<string>, b: set<string>, events: seq<Event>)
    requires Faithful(a, events) && Faithful(b, events)
    ensures HistoryOf(a, events) == HistoryOf(b, events)
    decreases |events|
  {
    hide StepsIn, LastWrite;
    if events != [] {
      var init, last := events[..|events| - 1], events[|events| - 1];
      SameHistory(a, b, init);
      assert FaithfulBatch(a, last) && FaithfulBatch(b, last);
      if last.Batch? {
        var calls := last.calls;
        forall k | 0 <= k < |calls| && ChangesList(calls[k]) ensures calls[k].id in a <==> calls[k].id in b {
          assert SameVerdict(a, calls[k], last.outcomes[k].succeeded) &&
            SameVerdict(b, calls[k], last.outcomes[k].succeeded);
        }
        SameLastWrite(a, b, calls);
        SameStepsIn(a, b, calls);
        var k := LastWrite(a, calls);
        if k >= 0 {
          SameStepsIn(a, b, calls[..k]);
          SameStepsIn(a, b, calls[k + 1..]);
        }
      }
    }
  }

  // ----- cancelled writes -----

  /** Call k of the last message is a todo_write that did not succeed although its text reads
      as a success - a cancelled one - and no later call of the message is a write that reads
      so. */
  predicate EndsInLostWrite(events: seq<Event>, k: nat)
    requires ValidEvents(events)
  {
    events != [] && CallAt(events, |events| - 1, k) &&
    var last := events[|events| - 1];
    last.calls[k].name == "todo_write" && !last.outcomes[k].succeeded && !ResultFailed(last.outcomes[k].text) &&
    forall j :: k < j < |last.calls| && j < |last.outcomes| && last.calls[j].name == "todo_write" ==>
      ResultFailed(last.outcomes[j].text)
  }

  /** Such a write never changed the live list, but the rebuilt list starts from it; the lists can
      agree for every reader only if the last write that did succeed had the very same text. */
  lemma LostWriteIsRebuilt(events: seq<Event>, k: nat)
    requires ValidEvents(events) && UniqueIds(events) && EndsInLostWrite(events, k)
    ensures ReadSteps(events).ListOf? && ReadSteps(events).write == events[|events| - 1].calls[k].arguments
    ensures (forall r | ValidReader(r) :: Agrees(r, events)) ==>
      LiveSteps(events).ListOf? && LiveSteps(events).write == events[|events| - 1].calls[k].arguments
  {
    RebuildAgreesIff(events);
    hide Agrees, ValidReader, LiveSteps;
    hide UniqueIds, ResultFailed, SuccessfulIds, Transcript, StepsIn;
    var last, ok := events[|events| - 1], SuccessfulIds(Transcript(events));
    assert ValidEvent(last);
    IdReadsAsText(events, |events| - 1, k);
    forall j | k < j < |last.calls| ensures !Writes(ok, last.calls[j]) {
      assert CallAt(events, |events| - 1, j);
      IdReadsAsText(events, |events| - 1, j);
    }
    assert Writes(ok, last.calls[k]);
    LastWriteMeaning(ok, last.calls);
    hide Writes, LastWrite;
    assert LastWrite(ok, last.calls) == k;
  }
}
