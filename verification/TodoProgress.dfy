/** Signed-off steps keep the task list moving: what a step changes, exactly, and that no pending
    item is left lying while nothing is in progress. */
module TodoProgress {
  import opened Text
  import opened Conversation
  import opened Todo
  import Batch

  /** The step means an item that is not completed yet. */
  predicate Hits(r: Reader, todos: Todos, step: string) {
    var m := r.matches(step, todos);
    m.Some? && m.value < |todos| && !IsCompleted(todos[m.value])
  }

  /** Apart from item m, item i is the first pending one and nothing is in progress. */
  predicate Starts(todos: Todos, m: nat, i: nat)
    requires i < |todos|
  {
    i != m && IsPending(todos[i]) && (forall l :: 0 <= l < i && l != m ==> !IsPending(todos[l])) &&
    forall l :: 0 <= l < |todos| && l != m ==> !IsInProgress(todos[l])
  }

  lemma {:induction false} FirstPendingIs(todos: Todos, from: nat)
    requires from <= |todos|
    ensures forall l :: from <= l < FirstPending(todos, from) ==> !IsPending(todos[l])
    decreases |todos| - from
  {
    if from < |todos| && !IsPending(todos[from]) {
      FirstPendingIs(todos, from + 1);
    }
  }

  lemma CompletedWord(item: TodoItem)
    requires item.status == "completed"
    ensures IsCompleted(item) && !IsPending(item) && !IsInProgress(item)
  {
    TrimSpaceFixes("completed");
  }

  lemma StartedWord(item: TodoItem)
    requires item.status == "in_progress"
    ensures IsInProgress(item) && !IsPending(item) && !IsCompleted(item)
  {
    TrimSpaceFixes("in_progress");
  }

  /** A step completes the item it means, and starts the first pending one if and only if nothing
      else is in progress; no other item changes, and a step that means no open item changes
      nothing. */
  lemma StepExactly(r: Reader, todos: Todos, step: string)
    ensures !Hits(r, todos, step) ==> Advance(r, todos, step) == todos
    ensures Hits(r, todos, step) ==>
      var m, next := r.matches(step, todos).value, Advance(r, todos, step);
      |next| == |todos| && next[m] == todos[m].(status := "completed") &&
      forall i :: 0 <= i < |todos| && i != m ==>
        next[i] == if Starts(todos, m, i) then todos[i].(status := "in_progress") else todos[i]
  {
    hide Status;
    if Hits(r, todos, step) {
      var m := r.matches(step, todos).value;
      var done := todos[m := todos[m].(status := "completed")];
      CompletedWord(done[m]);
      PromotesExactly(done);
      hide IsCompleted, IsPending, IsInProgress;
      forall i | 0 <= i < |todos| && i != m ensures Promotes(done, i) <==> Starts(todos, m, i) {
        PromotesIsStarts(todos, done, m, i);
      }
    }
  }

  /** Item i is the first pending one and nothing is in progress. */
  predicate Promotes(todos: Todos, i: nat)
    requires i < |todos|
  {
    IsPending(todos[i]) && (forall l :: 0 <= l < i ==> !IsPending(todos[l])) &&
    forall l :: 0 <= l < |todos| ==> !IsInProgress(todos[l])
  }

  /** Promotion starts the first pending item if and only if nothing is in progress. */
  lemma PromotesExactly(todos: Todos)
    ensures forall i :: 0 <= i < |todos| ==>
      Promote(todos)[i] == if Promotes(todos, i) then todos[i].(status := "in_progress") else todos[i]
  {
    hide IsPending, IsInProgress;
    FirstPendingIs(todos, 0);
  }

  lemma PromotesIsStarts(todos: Todos, done: Todos, m: nat, i: nat)
    requires |done| == |todos| && m < |todos| && i < |todos| && i != m && !IsPending(done[m]) && !IsInProgress(done[m])
    requires forall l :: 0 <= l < |todos| && l != m ==> done[l] == todos[l]
    ensures Promotes(done, i) <==> Starts(todos, m, i)
  {
    hide IsPending, IsInProgress;
  }

  /** Something is in progress unless nothing waits. */
  predicate Moving(todos: Todos) {
    AnyInProgress(todos) || forall i :: 0 <= i < |todos| ==> !IsPending(todos[i])
  }

  /** Behind a step that completes an item the list is moving. */
  lemma StepMoves(r: Reader, todos: Todos, step: string)
    requires Hits(r, todos, step)
    ensures Moving(Advance(r, todos, step))
  {
    hide IsCompleted, IsPending, IsInProgress;
    StepExactly(r, todos, step);
    var m, next := r.matches(step, todos).value, Advance(r, todos, step);
    CompletedWord(next[m]);
    hide Advance;
    if i :| 0 <= i < |todos| && i != m && IsInProgress(todos[i]) {
      assert !Starts(todos, m, i);
      assert IsInProgress(next[i]);
    } else if i :| 0 <= i < |todos| && i != m && IsPending(todos[i]) {
      var k := FirstOther(todos, m, i);
      assert Starts(todos, m, k);
      StartedWord(next[k]);
    } else {
      forall i | 0 <= i < |next| ensures !IsPending(next[i]) {
        assert i != m ==> !Starts(todos, m, i);
      }
    }
  }

  lemma {:induction false} FirstOther(todos: Todos, m: nat, i: nat) returns (k: nat)
    requires i < |todos| && i != m && IsPending(todos[i])
    ensures k <= i && k != m && IsPending(todos[k]) && forall l :: 0 <= l < k && l != m ==> !IsPending(todos[l])
    decreases i
  {
    hide IsPending;
    if l :| 0 <= l < i && l != m && IsPending(todos[l]) {
      k := FirstOther(todos, m, l);
    } else {
      k := i;
    }
  }

  /** Over any run of steps a moving list stays moving, and any list moves from the first step on
      that means an open item. */
  lemma {:induction false} RunMoves(r: Reader, todos: Todos, args: seq<string>)
    requires Moving(todos) || (args != [] && Hits(r, todos, r.stepOf(args[0])))
    ensures Moving(Replay(r, todos, args))
    decreases |args|
  {
    hide Moving, Hits;
    if args != [] {
      var step := r.stepOf(args[0]);
      if Hits(r, todos, step) {
        StepMoves(r, todos, step);
      } else {
        StepExactly(r, todos, step);
      }
      RunMoves(r, Advance(r, todos, step), args[1..]);
    }
  }

  // ----- how results are read -----

  lemma TrimKeepsStart(content: string)
    requires content != "" && !IsSpace(content[0])
    ensures TrimSpace(content) != "" && TrimSpace(content) <= content
  {
    assert TrimLeft(content) == content;
    TrimRightSplits(content);
    var kept := TrimRight(content);
    assert content[|kept|..] != content by {
      assert !AllSpace(content);
    }
  }

  /** The rebuild takes a result for a failure by its first word only: one that starts with
      another letter never is one. */
  lemma FailuresStartWith(content: string)
    requires content != "" && !IsSpace(content[0]) && content[0] !in {'e', 'b', 'E', '['}
    ensures !ResultFailed(content)
  {
    TrimKeepsStart(content);
    hide TrimSpace;
    assert TrimSpace(content)[0] == content[0];
  }

  /** So every call that a cancelled batch never ran reads as one that succeeded. */
  lemma CancelledReadsAsSuccess<W(!new)>(e: Batch.Env<W>, world: W, steps: seq<Batch.Step>, j: nat)
    requires Batch.ValidEnv(e) && Batch.Schedule(e, Batch.Init(e, world), steps)
    requires var s := Batch.Reached(e, Batch.Init(e, world), steps); s.ended && j < |s.slots| && !s.slots[j].Ran?
    ensures !ResultFailed(Batch.Results(Batch.Reached(e, Batch.Init(e, world), steps))[j].output)
  {
    hide Batch.Schedule, Batch.Reached, ResultFailed;
    assert Batch.CANCELLED_OUTPUT[0] == 'c';
    FailuresStartWith(Batch.CANCELLED_OUTPUT);
  }
}
