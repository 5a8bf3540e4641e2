/** Matching replies to outbound requests on one ACP connection (internal/acp/server.go), as
    steps that request threads, the reader and shutdown interleave. Each request has its own
    channel, so a channel is named by the id of its request. */
module AcpPending {
  import opened Text

  /** A response frame after its id was read; an id that is no integer is not ours. */
  datatype Frame = Frame(id: Option<int>, error: bool, body: string)

  datatype Reply = FromPeer(id: int, error: bool, body: string) | ConnectionClosed

  datatype Outcome = Received(reply: Reply) | Cancelled | Closed | WriteFailed

  /** A request thread: it has its id, is registered, or has left the select with an outcome
      and has still to remove its entry. */
  datatype Phase = Numbered | Registered | Leaving(outcome: Outcome) | Returned(outcome: Outcome)

  /** requests[k] is the thread with id k + 1; sent[k] is all that was ever sent on its channel,
      taken counts the receives; sending holds replies taken for a channel but not sent yet. */
  datatype Request = Request(phase: Phase, sent: seq<Reply>, taken: nat)

  /** Shutdown runs once: it closes the signal channel, and then fails what is pending under the
      map's lock. */
  datatype Closing = Open | Signalled | ShutDown

  datatype State = State(requests: seq<Request>, pending: set<int>, sending: Option<Reply>, closing: Closing)

  datatype Step =
    | NextId
    | Register(k: nat)
    | Leave(k: nat, outcome: Outcome)
    | Unregister(k: nat)
    | Take(frame: Frame)
    | Send
    | Signal
    | FailPending

  predicate Known(s: State, k: int) {
    0 <= k < |s.requests|
  }

  predicate CanLeave(s: State, k: nat, outcome: Outcome)
    requires k < |s.requests|
  {
    var r := s.requests[k];
    r.phase.Registered? &&
    match outcome
    case Received(reply) => r.taken < |r.sent| && reply == r.sent[r.taken]
    case Closed => !s.closing.Open?
    case _ => true
  }

  /** The reader resolves one frame at a time. */
  predicate Enabled(s: State, step: Step) {
    match step
    case NextId => true
    case Register(k) => k < |s.requests| && s.requests[k].phase.Numbered?
    case Leave(k, outcome) => k < |s.requests| && CanLeave(s, k, outcome)
    case Unregister(k) => k < |s.requests| && s.requests[k].phase.Leaving?
    case Take(_) => s.sending.None?
    case Send => s.sending.Some? && s.sending.value.FromPeer? && Known(s, s.sending.value.id - 1)
    case Signal => s.closing.Open?
    case FailPending => s.closing.Signalled? && forall id :: id in s.pending ==> Known(s, id - 1)
  }

  function Sent(r: Request, reply: Reply): Request {
    r.(sent := r.sent + [reply])
  }

  /** The sends of shutdown: one to every channel still registered. */
  function AllFailed(requests: seq<Request>, pending: set<int>): seq<Request> {
    seq(|requests|, k requires 0 <= k < |requests| =>
      if k + 1 in pending then Sent(requests[k], ConnectionClosed) else requests[k])
  }

  function Apply(s: State, step: Step): State
    requires Enabled(s, step)
  {
    match step
    case NextId => s.(requests := s.requests + [Request(Numbered, [], 0)])
    case Register(k) =>
      s.(pending := s.pending + {k + 1}, requests := s.requests[k := s.requests[k].(phase := Registered)])
    case Leave(k, outcome) =>
      var r := s.requests[k].(phase := Leaving(outcome));
      s.(requests := s.requests[k := if outcome.Received? then r.(taken := r.taken + 1) else r])
    case Unregister(k) =>
      s.(pending := s.pending - {k + 1},
         requests := s.requests[k := s.requests[k].(phase := Returned(s.requests[k].phase.outcome))])
    case Take(frame) =>
      if frame.id.None? || frame.id.value !in s.pending then s
      else
        s.(pending := s.pending - {frame.id.value},
           sending := Some(FromPeer(frame.id.value, frame.error, frame.body)))
    case Send =>
      var k := s.sending.value.id - 1;
      s.(sending := None, requests := s.requests[k := Sent(s.requests[k], s.sending.value)])
    case Signal => s.(closing := Signalled)
    case FailPending => State(AllFailed(s.requests, s.pending), {}, s.sending, ShutDown)
  }

  predicate CanRun(s: State, steps: seq<Step>)
    decreases |steps|
  {
    steps == [] || (Enabled(s, steps[0]) && CanRun(Apply(s, steps[0]), steps[1..]))
  }

  function Run(s: State, steps: seq<Step>): State
    requires CanRun(s, steps)
    decreases |steps|
  {
    if steps == [] then s else Run(Apply(s, steps[0]), steps[1..])
  }

  // ----- the critical sections -----

  class Conn {
    var requests: seq<Request>
    var pending: set<int>
    var sending: Option<Reply>
    var closing: Closing

    constructor ()
      ensures Value() == NEW
    {
      requests, pending, sending, closing := [], {}, None, Open;
    }

    function Value(): State
      reads this
    {
      State(requests, pending, sending, closing)
    }

    /** Request up to the write: a new id and its channel in the map. */
    method AddRequest() returns (k: nat)
      modifies this
      ensures k == |old(requests)| && Value() == Apply(Apply(old(Value()), NextId), Register(k))
    {
      k := |requests|;
      requests := requests + [Request(Registered, [], 0)];
      pending := pending + {k + 1};
    }

    /** Request from the select on, whatever ended the wait: the entry is removed. */
    method EndRequest(k: nat, outcome: Outcome)
      requires k < |requests| && CanLeave(Value(), k, outcome)
      modifies this
      ensures Value() == Apply(Apply(old(Value()), Leave(k, outcome)), Unregister(k))
    {
      var r := requests[k];
      var taken := if outcome.Received? then r.taken + 1 else r.taken;
      requests := requests[k := Request(Returned(outcome), r.sent, taken)];
      pending := pending - {k + 1};
    }

    /** The two halves of resolve: take the channel out of the map, then send on it. */
    method Resolve(frame: Frame)
      requires sending.None? && Inv(Value())
      modifies this
      ensures var took := Apply(old(Value()), Take(frame));
        Value() == if took.sending.Some? && Enabled(took, Send) then Apply(took, Send) else took
    {
      if frame.id.None? {
        return;
      }
      var id := frame.id.value;
      if id !in pending {
        return;
      }
      pending := pending - {id};
      if 0 < id <= |requests| {
        requests := requests[id - 1 := Sent(requests[id - 1], FromPeer(id, frame.error, frame.body))];
      } else {
        assert false;
      }
    }

    /** Shutdown with nothing in between its two sections. */
    method Shutdown()
      requires Inv(Value()) && !closing.Signalled?
      modifies this
      ensures Value() == if old(closing).Open? then Apply(Apply(old(Value()), Signal), FailPending) else old(Value())
    {
      if closing.ShutDown? {
        return;
      }
      StepInv(Value(), Signal);
      closing := Signalled;
      FailAll();
    }

    method FailAll()
      requires Inv(Value()) && closing.Signalled?
      modifies this
      ensures Value() == Apply(old(Value()), FailPending)
    {
      ghost var before, todo := requests, pending;
      assert forall id :: id in todo ==> Known(old(Value()), id - 1);
      hide Inv, GoodRequest;
      while pending != {}
        invariant pending <= todo && closing == old(closing) && sending == old(sending) && |requests| == |before|
        invariant forall i :: 0 <= i < |before| ==>
          requests[i] == if i + 1 in todo - pending then Sent(before[i], ConnectionClosed) else before[i]
        decreases |pending|
      {
        var id :| id in pending;
        assert Known(old(Value()), id - 1);
        requests := requests[id - 1 := Sent(requests[id - 1], ConnectionClosed)];
        pending := pending - {id};
      }
      closing := ShutDown;
      assert requests == AllFailed(before, todo);
    }
  }

  // ----- the invariant -----

  const NEW := State([], {}, None, Open)

  predicate SendingTo(s: State, k: int) {
    s.sending.Some? && s.sending.value.FromPeer? && s.sending.value.id == k + 1
  }

  /** A channel is sent to at most once, only with the reply to its own id or the close error,
      and not while it is still registered; what a request returns came through its channel. */
  predicate GoodRequest(s: State, k: int)
    requires Known(s, k)
  {
    var r := s.requests[k];
    |r.sent| <= 1 && r.taken <= |r.sent| &&
    (|r.sent| == 1 && r.sent[0].FromPeer? ==> r.sent[0].id == k + 1) &&
    (r.phase.Numbered? || k + 1 in s.pending || SendingTo(s, k) ==> r.sent == []) &&
    (r.phase.Numbered? || r.phase.Returned? ==> k + 1 !in s.pending) &&
    (r.phase.Leaving? || r.phase.Returned? ==>
      (r.phase.outcome.Received? ==> r.sent == [r.phase.outcome.reply] && r.taken == 1))
  }

  ghost predicate Inv(s: State) {
    (forall k :: Known(s, k) ==> GoodRequest(s, k)) &&
    (forall id :: id in s.pending ==> Known(s, id - 1)) &&
    (s.sending.Some? ==>
      s.sending.value.FromPeer? && Known(s, s.sending.value.id - 1) && s.sending.value.id !in s.pending &&
                         !s.requests[s.sending.value.id - 1].phase.Numbered?)
  }

  lemma RequestStep(s: State, step: Step, k: int)
    requires Inv(s) && Enabled(s, step) && Known(Apply(s, step), k)
    ensures GoodRequest(Apply(s, step), k)
  {
    if Known(s, k) {
      assert GoodRequest(s, k);
    } else {
      assert k + 1 !in s.pending;
    }
  }

  lemma StepInv(s: State, step: Step)
    requires Inv(s) && Enabled(s, step)
    ensures Inv(Apply(s, step))
  {
    var s' := Apply(s, step);
    forall k | Known(s', k) ensures GoodRequest(s', k) {
      RequestStep(s, step, k);
    }
    assert forall k :: Known(s, k) ==> Known(s', k);
    if s.sending.Some? {
      assert GoodRequest(s, s.sending.value.id - 1);
    }
    if step.Take? && s'.sending.Some? {
      assert GoodRequest(s, s'.sending.value.id - 1);
    }
    hide GoodRequest;
  }

  lemma {:induction false} RunInv(s: State, steps: seq<Step>)
    requires Inv(s) && CanRun(s, steps)
    ensures Inv(Run(s, steps))
    decreases |steps|
  {
    hide Inv, Enabled, Apply;
    if steps != [] {
      StepInv(s, steps[0]);
      RunInv(Apply(s, steps[0]), steps[1..]);
    }
  }

  /** In every interleaving a channel gets at most one send - so a send into its one free place
      never blocks - and a request that returns a peer's reply returns the one with its own
      id. */
  lemma OneReplyEach(steps: seq<Step>, k: nat)
    requires CanRun(NEW, steps) && k < |Run(NEW, steps).requests|
    ensures var r := Run(NEW, steps).requests[k];
      |r.sent| <= 1 && (|r.sent| == 1 ==> r.sent[0].ConnectionClosed? || r.sent[0].id == k + 1) &&
      (r.phase.Returned? && r.phase.outcome.Received? && r.phase.outcome.reply.FromPeer? ==>
        r.phase.outcome.reply.id == k + 1)
  {
    RunInv(NEW, steps);
    assert GoodRequest(Run(NEW, steps), k);
  }

  /** In every interleaving the reader's next send and all of shutdown's find the channel empty. */
  lemma SendsNeverBlock(steps: seq<Step>)
    requires CanRun(NEW, steps)
    ensures var s := Run(NEW, steps);
      (s.sending.Some? ==> Enabled(s, Send) && s.requests[s.sending.value.id - 1].sent == []) &&
      (s.closing.Signalled? ==> Enabled(s, FailPending)) &&
      forall id :: id in s.pending ==> Known(s, id - 1) && s.requests[id - 1].sent == []
  {
    RunInv(NEW, steps);
    var s := Run(NEW, steps);
    if s.sending.Some? {
      assert GoodRequest(s, s.sending.value.id - 1);
    }
    forall id | id in s.pending ensures Known(s, id - 1) && s.requests[id - 1].sent == [] {
      assert GoodRequest(s, id - 1);
    }
  }

  lemma {:induction false} RunConcat(s: State, a: seq<Step>, b: seq<Step>)
    requires CanRun(s, a) && CanRun(Run(s, a), b)
    ensures CanRun(s, a + b) && Run(s, a + b) == Run(Run(s, a), b)
    decreases |a|
  {
    hide Enabled, Apply;
    if a == [] {
      assert a + b == b;
    } else {
      RunConcat(Apply(s, a[0]), a[1..], b);
      assert (a + b)[1..] == a[1..] + b;
    }
  }

  /** The steps request k takes itself. */
  predicate Own(step: Step, k: nat) {
    step == Register(k) || (step.Leave? && step.k == k) || step == Unregister(k)
  }

  /** What is left for request k to do once the connection is closing. */
  function WayOut(s: State, k: nat): seq<Step>
    requires k < |s.requests|
  {
    match s.requests[k].phase
    case Numbered => [Register(k), Leave(k, Closed), Unregister(k)]
    case Registered => [Leave(k, Closed), Unregister(k)]
    case Leaving(_) => [Unregister(k)]
    case Returned(_) => []
  }

  lemma {:induction false} WayOutEnds(s: State, k: nat)
    requires k < |s.requests| && !s.closing.Open?
    ensures CanRun(s, WayOut(s, k)) && k < |Run(s, WayOut(s, k)).requests|
    ensures Run(s, WayOut(s, k)).requests[k].phase.Returned?
    decreases |WayOut(s, k)|
  {
    var way := WayOut(s, k);
    if way != [] {
      var s' := Apply(s, way[0]);
      assert way[1..] == WayOut(s', k);
      WayOutEnds(s', k);
    }
  }

  /** In every interleaving: once the connection is closing every request, registered before or
      after, has at most three steps of its own by which it returns, whatever the peer and the
      other requests do not do; and until it has returned one of them can always be taken. */
  lemma RequestsEnd(steps: seq<Step>, k: nat)
    requires CanRun(NEW, steps) && k < |Run(NEW, steps).requests| && !Run(NEW, steps).closing.Open?
    ensures var way := WayOut(Run(NEW, steps), k);
      |way| <= 3 && (forall i :: 0 <= i < |way| ==> Own(way[i], k)) && CanRun(NEW, steps + way) &&
      k < |Run(NEW, steps + way).requests| && Run(NEW, steps + way).requests[k].phase.Returned? &&
      (way == [] <==> Run(NEW, steps).requests[k].phase.Returned?)
  {
    var s := Run(NEW, steps);
    WayOutEnds(s, k);
    RunConcat(NEW, steps, WayOut(s, k));
  }

  /** A frame for a request that already has its answer, or returned, changes nothing. */
  lemma LateFrameIgnored(steps: seq<Step>, frame: Frame, k: nat)
    requires CanRun(NEW, steps) && frame.id == Some(k + 1)
    requires var s := Run(NEW, steps);
      k < |s.requests| && s.sending.None? && (s.requests[k].sent != [] || s.requests[k].phase.Returned?)
    ensures Apply(Run(NEW, steps), Take(frame)) == Run(NEW, steps)
  {
    RunInv(NEW, steps);
    assert GoodRequest(Run(NEW, steps), k);
  }
}
