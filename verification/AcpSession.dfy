/** The turn lifecycle of one ACP session (internal/acp/service.go: acpSession), as steps that
    prompt turns and aborting or deleting callers interleave. */
module AcpSession {
  import opened Text

  /** A turn runs, has been saved, has unwound its fields and still has to close the channel it
      took, or is over. Turn i made done channel i. */
  datatype Phase = Running | Persisted | Closing(channel: Option<nat>) | Over

  /** An abortAndWait or deleteAndWait call: the cancel and done it read under the lock. */
  datatype Waiter = Waiter(deleting: bool, cancel: Option<nat>, done: Option<nat>, called: bool, returned: bool)

  /** closes[i] counts how often channel i was closed; a second close would crash. */
  datatype State = State(running: bool, deleted: bool, cancel: Option<nat>, done: Option<nat>,
                         turns: seq<Phase>, closes: seq<nat>, cancelled: set<nat>, saves: nat, waiters: seq<Waiter>)

  datatype Step =
    | Begin
    | Persist(i: nat)
    | FinishFields(i: nat)
    | FinishClose(i: nat)
    | Abort
    | StartWait(deleting: bool)
    | CallCancel(w: nat)
    | Return(w: nat)

  predicate Enabled(s: State, step: Step) {
    match step
    case Begin => true
    case Abort => true
    case StartWait(_) => true
    case Persist(i) => i < |s.turns| && s.turns[i].Running?
    case FinishFields(i) => i < |s.turns| && Active(s, i)
    case FinishClose(i) =>
      i < |s.turns| && s.turns[i].Closing? && (s.turns[i].channel.Some? ==> s.turns[i].channel.value < |s.closes|)
    case CallCancel(w) => w < |s.waiters| && !s.waiters[w].called
    case Return(w) =>
      w < |s.waiters| && s.waiters[w].called && (s.waiters[w].done.Some? ==> IsClosed(s, s.waiters[w].done.value))
  }

  predicate Active(s: State, i: int) {
    0 <= i < |s.turns| && (s.turns[i].Running? || s.turns[i].Persisted?)
  }

  predicate IsClosed(s: State, i: nat) {
    i < |s.closes| && s.closes[i] >= 1
  }

  function Stopped(s: State, c: Option<nat>): set<nat> {
    if c.Some? then s.cancelled + {c.value} else s.cancelled
  }

  function Apply(s: State, step: Step): State
    requires Enabled(s, step)
  {
    match step
    case Begin =>
      if s.running || s.deleted then s
      else
        s.(running := true, cancel := Some(|s.turns|), done := Some(|s.turns|),
           turns := s.turns + [Running], closes := s.closes + [0])
    case Persist(i) => s.(turns := s.turns[i := Persisted], saves := if s.deleted then s.saves else s.saves + 1)
    case FinishFields(i) => s.(running := false, cancel := None, done := None, turns := s.turns[i := Closing(s.done)])
    case FinishClose(i) =>
      var c := s.turns[i].channel;
      s.(turns := s.turns[i := Over],
         closes := if c.Some? then s.closes[c.value := s.closes[c.value] + 1] else s.closes)
    case Abort => s.(cancelled := Stopped(s, s.cancel))
    case StartWait(deleting) =>
      s.(deleted := s.deleted || deleting, waiters := s.waiters + [Waiter(deleting, s.cancel, s.done, false, false)])
    case CallCancel(w) =>
      s.(cancelled := Stopped(s, s.waiters[w].cancel), waiters := s.waiters[w := s.waiters[w].(called := true)])
    case Return(w) => s.(waiters := s.waiters[w := s.waiters[w].(returned := true)])
  }

  predicate CanRun(s: State, steps: seq<Step>)
    decreases |steps|
  {
    steps == [] || (Enabled(s, steps[0]) && CanRun(Apply(s, steps[0]), steps[1..]))
  }

  function Run(s: State, steps: seq<Step>): State
    requires CanRun(s, steps)
    decreases |steps|
  {
    if steps == [] then s else Run(Apply(s, steps[0]), steps[1..])
  }

  const OPEN := State(false, false, None, None, [], [], {}, 0, [])

  // ----- the session object -----

  class Session {
    var running: bool
    var deleted: bool
    var cancel: Option<nat>
    var done: Option<nat>
    ghost var turns: seq<Phase>
    ghost var closes: seq<nat>
    ghost var cancelled: set<nat>
    ghost var saves: nat
    ghost var waiters: seq<Waiter>
    var issued: nat

    ghost function Value(): State
      reads this
    {
      State(running, deleted, cancel, done, turns, closes, cancelled, saves, waiters)
    }

    constructor ()
      ensures Value() == OPEN && issued == 0
    {
      running, deleted, cancel, done, issued := false, false, None, None, 0;
      turns, closes, cancelled, saves, waiters := [], [], {}, 0, [];
    }

    /** issued numbers the channels made so far. */
    method Begin() returns (ok: bool)
      requires issued == |turns|
      modifies this
      ensures Value() == Apply(old(Value()), Step.Begin)
      ensures ok == (|turns| > |old(turns)|) && issued == |turns|
    {
      if running || deleted {
        return false;
      }
      running, cancel, done := true, Some(issued), Some(issued);
      issued := issued + 1;
      turns, closes := turns + [Running], closes + [0];
      ok := true;
    }

    /** finish, run without interruption between its two halves. */
    method Finish(ghost i: nat)
      requires Enabled(Value(), FinishFields(i)) && Inv(Value())
      modifies this
      ensures var half := Apply(old(Value()), FinishFields(i));
        Enabled(half, FinishClose(i)) && Value() == Apply(half, FinishClose(i))
    {
      ghost var c := done;
      assert done == Some(i);
      running, cancel, done := false, None, None;
      turns := turns[i := Over];
      closes := closes[c.value := closes[c.value] + 1];
    }

    method DeleteMark() returns (c: Option<nat>, d: Option<nat>)
      modifies this
      ensures Value() == Apply(old(Value()), StartWait(true)) && c == old(cancel) && d == old(done)
    {
      deleted := true;
      c, d := cancel, done;
      waiters := waiters + [Waiter(true, c, d, false, false)];
    }

    method PersistAfterTurn(ghost i: nat) returns (saved: bool)
      requires Enabled(Value(), Persist(i))
      modifies this
      ensures Value() == Apply(old(Value()), Persist(i)) && saved == !deleted
    {
      turns := turns[i := Persisted];
      if deleted {
        return false;
      }
      saves := saves + 1;
      saved := true;
    }
  }

  // ----- the invariant -----

  predicate TurnGood(s: State, i: int)
    requires 0 <= i < |s.turns| == |s.closes|
  {
    match s.turns[i]
    case Over => s.closes[i] == 1
    case Closing(channel) => channel == Some(i) && s.closes[i] == 0
    case _ => s.running && s.done == Some(i) && s.cancel == Some(i) && s.closes[i] == 0
  }

  /** A deletion under way: the session is marked, and only the turn it waits for may be active. */
  predicate WaiterGood(s: State, w: Waiter) {
    (w.done.Some? ==> w.done.value < |s.turns|) && w.cancel == w.done &&
    (w.returned && w.done.Some? ==> IsClosed(s, w.done.value)) &&
    (w.deleting ==> s.deleted && (s.done.Some? ==> w.done == s.done))
  }

  predicate FieldsGood(s: State) {
    if s.done.Some? then s.cancel == s.done && s.running && s.done.value < |s.turns| && Active(s, s.done.value)
    else s.cancel.None? && !s.running
  }

  predicate Inv(s: State) {
    |s.closes| == |s.turns| && FieldsGood(s) &&
    (forall i {:trigger s.turns[i]} :: 0 <= i < |s.turns| ==> TurnGood(s, i)) &&
    (forall w {:trigger s.waiters[w]} :: 0 <= w < |s.waiters| ==> WaiterGood(s, s.waiters[w]))
  }

  lemma ActiveIsDone(s: State)
    requires Inv(s)
    ensures forall i :: Active(s, i) ==> s.done == Some(i)
  {
    forall i | Active(s, i) ensures s.done == Some(i) {
      assert TurnGood(s, i);
    }
  }

  lemma TurnStep(s: State, step: Step, i: nat)
    requires Inv(s) && Enabled(s, step) && i < |Apply(s, step).turns|
    ensures |Apply(s, step).closes| == |Apply(s, step).turns| && TurnGood(Apply(s, step), i)
  {
    hide WaiterGood;
    if i < |s.turns| {
      assert TurnGood(s, i);
      if step.FinishClose? || step.FinishFields? {
        assert TurnGood(s, step.i);
      }
    }
  }

  lemma FieldsStep(s: State, step: Step)
    requires Inv(s) && Enabled(s, step)
    ensures FieldsGood(Apply(s, step))
  {
    hide WaiterGood, TurnGood;
  }

  lemma WaiterStep(s: State, step: Step, w: nat)
    requires Inv(s) && Enabled(s, step) && w < |Apply(s, step).waiters|
    ensures WaiterGood(Apply(s, step), Apply(s, step).waiters[w])
  {
    ActiveIsDone(s);
    hide TurnGood;
    if w < |s.waiters| {
      assert WaiterGood(s, s.waiters[w]);
    }
  }

  lemma StepInv(s: State, step: Step)
    requires Inv(s) && Enabled(s, step)
    ensures Inv(Apply(s, step))
  {
    var s' := Apply(s, step);
    FieldsStep(s, step);
    assert |s'.closes| == |s'.turns| by {
      if s'.turns != [] {
        TurnStep(s, step, 0);
      } else {
        assert s.turns == [];
      }
    }
    hide Apply, FieldsGood, TurnGood, WaiterGood;
    forall i | 0 <= i < |s'.turns| ensures TurnGood(s', i) {
      TurnStep(s, step, i);
    }
    forall w | 0 <= w < |s'.waiters| ensures WaiterGood(s', s'.waiters[w]) {
      WaiterStep(s, step, w);
    }
  }

  lemma {:induction false} RunInv(s: State, steps: seq<Step>)
    requires Inv(s) && CanRun(s, steps)
    ensures Inv(Run(s, steps))
    decreases |steps|
  {
    hide Inv, Enabled, Apply;
    if steps != [] {
      StepInv(s, steps[0]);
      RunInv(Apply(s, steps[0]), steps[1..]);
    }
  }

  /** In every interleaving at most one turn is active, and no done channel is closed twice: it
      is closed once when its turn is over and not before. */
  lemma TurnsAndChannels(steps: seq<Step>)
    requires CanRun(OPEN, steps)
    ensures var s := Run(OPEN, steps);
      |s.closes| == |s.turns| && (forall i, j :: Active(s, i) && Active(s, j) ==> i == j) &&
      forall i {:trigger s.turns[i]} :: 0 <= i < |s.turns| ==> s.closes[i] == if s.turns[i].Over? then 1 else 0
  {
    RunInv(OPEN, steps);
    var s := Run(OPEN, steps);
    forall i | 0 <= i < |s.turns| ensures s.closes[i] == if s.turns[i].Over? then 1 else 0 {
      assert TurnGood(s, i);
    }
    forall i, j | Active(s, i) && Active(s, j) ensures i == j {
      assert TurnGood(s, i) && TurnGood(s, j);
    }
  }

  /** A deletion has returned. */
  predicate DeletedFor(s: State, w: nat) {
    w < |s.waiters| && s.waiters[w].deleting && s.waiters[w].returned
  }

  lemma DeletedQuiet(s: State, w: nat)
    requires Inv(s) && DeletedFor(s, w)
    ensures forall i :: !Active(s, i)
    ensures s.deleted && s.done.None?
  {
    ActiveIsDone(s);
    assert WaiterGood(s, s.waiters[w]);
    assert s.done.Some? ==> TurnGood(s, s.done.value);
  }

  /** However the session got there and whatever follows: once deleteAndWait has returned no
      turn is active, none ever begins and nothing is saved any more. */
  lemma {:induction false} NothingAfterDelete(before: seq<Step>, w: nat, after: seq<Step>)
    requires CanRun(OPEN, before) && DeletedFor(Run(OPEN, before), w) && CanRun(Run(OPEN, before), after)
    ensures var s := Run(OPEN, before); var s' := Run(s, after);
      |s'.turns| == |s.turns| && s'.saves == s.saves && forall i :: !Active(s', i)
  {
    RunInv(OPEN, before);
    StaysDeleted(Run(OPEN, before), w, after);
  }

  lemma {:induction false} StaysDeleted(s: State, w: nat, steps: seq<Step>)
    requires Inv(s) && DeletedFor(s, w) && CanRun(s, steps)
    ensures var s' := Run(s, steps); |s'.turns| == |s.turns| && s'.saves == s.saves && forall i :: !Active(s', i)
    decreases |steps|
  {
    DeletedQuiet(s, w);
    if steps != [] {
      var s' := Apply(s, steps[0]);
      StepInv(s, steps[0]);
      assert steps[0].Persist? ==> Active(s, steps[0].i);
      assert |s'.turns| == |s.turns| && s'.saves == s.saves && DeletedFor(s', w);
      hide Inv, Apply, Enabled, DeletedFor, Active;
      StaysDeleted(s', w, steps[1..]);
    }
  }

  /** A wait never hangs on an idle session, and otherwise ends once the turn it saw has closed
      its channel - which that turn can always still do. */
  lemma WaitEnds(steps: seq<Step>, w: nat)
    requires CanRun(OPEN, steps)
    requires var s := Run(OPEN, steps); w < |s.waiters| && s.waiters[w].called
    ensures var s := Run(OPEN, steps);
      Enabled(s, Return(w)) ||
      (s.waiters[w].done.Some? && var i := s.waiters[w].done.value;
        Active(s, i) || (Enabled(s, FinishClose(i)) && IsClosed(Apply(s, FinishClose(i)), i)))
  {
    RunInv(OPEN, steps);
    var s := Run(OPEN, steps);
    assert WaiterGood(s, s.waiters[w]);
    if s.waiters[w].done.Some? {
      assert TurnGood(s, s.waiters[w].done.value);
    }
  }
}
