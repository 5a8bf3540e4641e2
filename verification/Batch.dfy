/** Dispatching one model turn's tool calls (internal/agent/agent.go: executeBatch,
    partitionToolCalls, runParallel) as a machine over its scheduling steps. */
module Batch {
  import opened Text
  import opened Conversation

  const MAX_PARALLEL := 8
  const CANCELLED_OUTPUT := "cancelled: " + "context cancelled before execution"

  /** One call's result as the model reads it, its error text, "" on success, and whether it was
      refused instead of run. */
  datatype Outcome = Outcome(output: string, errMsg: string, blocked: bool)

  const CANCELLED := Outcome(CANCELLED_OUTPUT, "context canceled", false)

  // ----- segments -----

  datatype Segment = Segment(start: nat, end: nat, parallel: bool)

  /** The registry: known tools and whether they are read-only. */
  type Registry = map<string, bool>

  /** These two read the turn's evidence ledger. */
  predicate ReadsLedger(name: string) {
    name == "complete_step" || name == "todo_write"
  }

  predicate Parallelisable(reg: Registry, name: string) {
    !ReadsLedger(name) && name in reg && reg[name]
  }

  predicate Mergeable(reg: Registry, calls: seq<ToolCall>, i: int) {
    0 <= i < |calls| && Parallelisable(reg, calls[i].name)
  }

  /** The segment starts where the previous one ends, is either a run of mergeable calls or one
      other call, and no mergeable call follows a run directly. */
  predicate GoodSegment(reg: Registry, calls: seq<ToolCall>, from: nat, g: Segment) {
    from == g.start < g.end <= |calls| &&
    if g.parallel then
      (forall i :: g.start <= i < g.end ==> Mergeable(reg, calls, i)) && !Mergeable(reg, calls, g.end)
    else
      g.end == g.start + 1 && !Mergeable(reg, calls, g.start)
  }

  function EndOf(batches: seq<Segment>, k: nat): nat
    requires k <= |batches|
  {
    if k == 0 then 0 else batches[k - 1].end
  }

  predicate Tiles(reg: Registry, calls: seq<ToolCall>, batches: seq<Segment>, upTo: nat) {
    (forall k :: 0 <= k < |batches| ==> GoodSegment(reg, calls, EndOf(batches, k), batches[k])) &&
    EndOf(batches, |batches|) == upTo
  }

  lemma TilesAt(reg: Registry, calls: seq<ToolCall>, batches: seq<Segment>, upTo: nat, k: nat)
    requires Tiles(reg, calls, batches, upTo) && k < |batches|
    ensures GoodSegment(reg, calls, EndOf(batches, k), batches[k])
  {
  }

  lemma TilesEnd(reg: Registry, calls: seq<ToolCall>, batches: seq<Segment>, upTo: nat)
    requires Tiles(reg, calls, batches, upTo)
    ensures EndOf(batches, |batches|) == upTo
  {
  }

  method PartitionToolCalls(reg: Registry, calls: seq<ToolCall>) returns (batches: seq<Segment>)
    ensures Tiles(reg, calls, batches, |calls|)
  {
    batches := [];
    var i := 0;
    while i < |calls|
      invariant i <= |calls| && Tiles(reg, calls, batches, i)
    {
      var g: Segment;
      if Parallelisable(reg, calls[i].name) {
        var start := i;
        i := i + 1;
        while i < |calls| && Parallelisable(reg, calls[i].name)
          invariant start < i <= |calls|
          invariant forall j :: start <= j < i ==> Mergeable(reg, calls, j)
        {
          i := i + 1;
        }
        g := Segment(start, i, true);
      } else {
        g := Segment(i, i + 1, false);
        i := i + 1;
      }
      TilesAppend(reg, calls, batches, g);
      batches := batches + [g];
    }
  }

  lemma TilesAppend(reg: Registry, calls: seq<ToolCall>, batches: seq<Segment>, g: Segment)
    requires Tiles(reg, calls, batches, g.start) && GoodSegment(reg, calls, g.start, g)
    ensures Tiles(reg, calls, batches + [g], g.end)
  {
    hide GoodSegment;
    var more := batches + [g];
    forall k | 0 <= k < |more| ensures GoodSegment(reg, calls, EndOf(more, k), more[k]) {
      assert EndOf(more, k) == EndOf(batches, k);
    }
  }

  /** The segmentation is determined by the calls. */
  lemma {:induction false} TilesUnique(reg: Registry, calls: seq<ToolCall>, a: seq<Segment>, b: seq<Segment>, k: nat)
    requires Tiles(reg, calls, a, |calls|) && Tiles(reg, calls, b, |calls|)
    requires k <= |a| && k <= |b| && a[..k] == b[..k]
    ensures a == b
    decreases |a| - k
  {
    hide GoodSegment;
    assert EndOf(a, k) == EndOf(b, k) by {
      if k > 0 { assert a[..k][k - 1] == b[..k][k - 1]; }
    }
    TilesGrow(reg, calls, a, k);
    TilesGrow(reg, calls, b, k);
    if k < |a| {
      SegmentUnique(reg, calls, EndOf(a, k), a[k], b[k]);
      assert a[..k + 1] == a[..k] + [a[k]] && b[..k + 1] == b[..k] + [b[k]];
      TilesUnique(reg, calls, a, b, k + 1);
    } else {
      assert a == a[..k] && b == b[..k];
    }
  }

  lemma SegmentUnique(reg: Registry, calls: seq<ToolCall>, from: nat, g: Segment, h: Segment)
    requires GoodSegment(reg, calls, from, g) && GoodSegment(reg, calls, from, h)
    ensures g == h
  {
    hide Mergeable;
    assert g.parallel == h.parallel == Mergeable(reg, calls, from);
    if g.parallel {
      assert g.end < h.end ==> Mergeable(reg, calls, g.end);
      assert h.end < g.end ==> Mergeable(reg, calls, h.end);
    }
  }

  /** Only the last segment reaches the end of the calls. */
  lemma TilesGrow(reg: Registry, calls: seq<ToolCall>, a: seq<Segment>, k: nat)
    requires Tiles(reg, calls, a, |calls|) && k <= |a|
    ensures k < |a| ==> EndOf(a, k) < |calls|
    ensures k == |a| ==> EndOf(a, k) == |calls|
  {
    if k < |a| {
      assert GoodSegment(reg, calls, EndOf(a, k), a[k]);
    }
  }

  // ----- the machine -----

  datatype Slot = Waiting | Running | Ran(result: Outcome) | Skipped

  /** Receipts by call position. */
  type Ledger = map<nat, Outcome>

  /** exec gives the new world and the outcome of call i; the last argument says whether the
      context was cancelled while it ran. */
  datatype Env<!W> = Env(reg: Registry, calls: seq<ToolCall>, batches: seq<Segment>,
                         exec: (nat, W, Ledger, bool) -> (W, Outcome))

  datatype State<W> = State(seg: nat, next: nat, slots: seq<Slot>, world: W, ledger: Ledger,
                            cancelled: bool, ended: bool)

  ghost predicate ValidEnv<W(!new)>(e: Env<W>) {
    Tiles(e.reg, e.calls, e.batches, |e.calls|)
  }

  /** Read-only tools leave the world alone, and only the two ledger tools look at receipts. */
  ghost predicate ReadersPure<W(!new)>(e: Env<W>) {
    forall i: nat, w: W, l: Ledger, m: Ledger :: Mergeable(e.reg, e.calls, i) ==>
      e.exec(i, w, l, false).0 == w && e.exec(i, w, l, false).1 == e.exec(i, w, m, false).1
  }

  function Init<W(!new)>(e: Env<W>, world: W): State<W> {
    State(0, 0, seq(|e.calls|, i => Waiting), world, map[], false, false)
  }

  ghost predicate AnyRunning<W(!new)>(s: State<W>) {
    exists j :: 0 <= j < |s.slots| && s.slots[j].Running?
  }

  function RunningSet<W(!new)>(s: State<W>): set<nat> {
    set j: nat | j < |s.slots| && s.slots[j].Running?
  }

  datatype Step = Cancel | Launch | Finish(i: nat) | NextSegment | Abort | Complete

  ghost predicate Enabled<W(!new)>(e: Env<W>, s: State<W>, step: Step) {
    match step
    case Cancel => !s.cancelled
    case Launch =>
      !s.ended && !s.cancelled && s.seg < |e.batches| && s.next < e.batches[s.seg].end && s.next < |s.slots| &&
      (if e.batches[s.seg].parallel then |RunningSet(s)| < MAX_PARALLEL else !AnyRunning(s))
    case Finish(i) => i < |s.slots| && s.slots[i].Running?
    case NextSegment =>
      !s.ended && !s.cancelled && s.seg < |e.batches| && s.next == e.batches[s.seg].end && !AnyRunning(s)
    case Abort => !s.ended && s.cancelled && !AnyRunning(s)
    case Complete => !s.ended && s.seg == |e.batches|
  }

  ghost function Apply<W(!new)>(e: Env<W>, s: State<W>, step: Step): State<W>
    requires Enabled(e, s, step)
  {
    match step
    case Cancel => s.(cancelled := true)
    case Launch => s.(slots := s.slots[s.next := Running], next := s.next + 1)
    case Finish(i) =>
      var (world, result) := e.exec(i, s.world, s.ledger, s.cancelled);
      s.(slots := s.slots[i := Ran(result)], world := world, ledger := s.ledger[i := result])
    case NextSegment => s.(seg := s.seg + 1)
    case Abort =>
      s.(slots := seq(|s.slots|, j requires 0 <= j < |s.slots| => if j < s.next then s.slots[j] else Skipped),
         ended := true)
    case Complete => s.(ended := true)
  }

  /** A schedule: the steps taken from the initial state, each enabled when taken. */
  ghost predicate Schedule<W(!new)>(e: Env<W>, s: State<W>, steps: seq<Step>)
    decreases |steps|
  {
    steps == [] || (Enabled(e, s, steps[0]) && Schedule(e, Apply(e, s, steps[0]), steps[1..]))
  }

  ghost function Reached<W(!new)>(e: Env<W>, s: State<W>, steps: seq<Step>): State<W>
    requires Schedule(e, s, steps)
    decreases |steps|
  {
    if steps == [] then s else Reached(e, Apply(e, s, steps[0]), steps[1..])
  }

  // ----- safety of every schedule -----

  ghost predicate Inv<W(!new)>(e: Env<W>, s: State<W>) {
    |s.slots| == |e.calls| && s.seg <= |e.batches| && EndOf(e.batches, s.seg) <= s.next <= |e.calls| &&
    (s.seg < |e.batches| ==> s.next <= e.batches[s.seg].end) &&
    (forall j :: 0 <= j < EndOf(e.batches, s.seg) ==> s.slots[j].Ran?) &&
    (forall j :: 0 <= j < s.next ==> s.slots[j].Ran? || (s.slots[j].Running? && !s.ended)) &&
    (forall j :: s.next <= j < |s.slots| ==> if s.ended then s.slots[j].Skipped? else s.slots[j].Waiting?) &&
    (forall j: nat :: j in s.ledger <==> j < |s.slots| && s.slots[j].Ran?) &&
    (forall j: nat :: j < |s.slots| && s.slots[j].Ran? ==> s.ledger[j] == s.slots[j].result) &&
    |RunningSet(s)| <= MAX_PARALLEL
  }

  lemma InitInv<W(!new)>(e: Env<W>, world: W)
    requires ValidEnv(e)
    ensures Inv(e, Init(e, world))
  {
    hide Tiles;
    assert RunningSet(Init(e, world)) == {};
    if |e.batches| > 0 {
      TilesAt(e.reg, e.calls, e.batches, |e.calls|, 0);
    }
  }

  lemma LaunchCount<W(!new)>(e: Env<W>, s: State<W>)
    requires Inv(e, s) && Enabled(e, s, Launch)
    ensures |RunningSet(Apply(e, s, Launch))| <= MAX_PARALLEL
  {
    hide EndOf;
    if !e.batches[s.seg].parallel {
      assert RunningSet(s) == {};
    }
    assert RunningSet(Apply(e, s, Launch)) == RunningSet(s) + {s.next};
  }

  lemma LaunchInv<W(!new)>(e: Env<W>, s: State<W>)
    requires ValidEnv(e) && Inv(e, s) && Enabled(e, s, Launch)
    ensures Inv(e, Apply(e, s, Launch))
  {
    hide Tiles;
    hide Mergeable;
    TilesAt(e.reg, e.calls, e.batches, |e.calls|, s.seg);
    LaunchCount(e, s);
    hide RunningSet;
  }

  lemma FinishInv<W(!new)>(e: Env<W>, s: State<W>, i: nat)
    requires Inv(e, s) && Enabled(e, s, Finish(i))
    ensures Inv(e, Apply(e, s, Finish(i)))
  {
    assert RunningSet(Apply(e, s, Finish(i))) == RunningSet(s) - {i};
  }

  lemma NextSegmentInv<W(!new)>(e: Env<W>, s: State<W>)
    requires ValidEnv(e) && Inv(e, s) && Enabled(e, s, NextSegment)
    ensures Inv(e, Apply(e, s, NextSegment))
  {
    hide Tiles;
    hide Mergeable;
    var s' := Apply(e, s, NextSegment);
    assert RunningSet(s') == RunningSet(s);
    if s'.seg < |e.batches| {
      TilesAt(e.reg, e.calls, e.batches, |e.calls|, s'.seg);
    }
  }

  lemma EndInv<W(!new)>(e: Env<W>, s: State<W>, step: Step)
    requires ValidEnv(e) && Inv(e, s) && Enabled(e, s, step)
    requires step == Abort || step == Complete || step == Cancel
    ensures Inv(e, Apply(e, s, step))
  {
    hide GoodSegment;
    var s' := Apply(e, s, step);
    if step == Abort {
      assert RunningSet(s') == {};
    } else {
      assert RunningSet(s') == RunningSet(s);
      assert step == Complete ==> s.next == |s.slots|;
    }
  }

  lemma StepInv<W(!new)>(e: Env<W>, s: State<W>, step: Step)
    requires ValidEnv(e) && Inv(e, s) && Enabled(e, s, step)
    ensures Inv(e, Apply(e, s, step))
  {
    hide Inv, Enabled, Apply, ValidEnv;
    match step
    case Launch => LaunchInv(e, s);
    case Finish(i) => FinishInv(e, s, i);
    case NextSegment => NextSegmentInv(e, s);
    case _ => EndInv(e, s, step);
  }

  /** In every reachable state at most eight calls run, and the invariant holds. */
  lemma {:induction false} ScheduleInv<W(!new)>(e: Env<W>, s: State<W>, steps: seq<Step>)
    requires ValidEnv(e) && Inv(e, s) && Schedule(e, s, steps)
    ensures Inv(e, Reached(e, s, steps))
    decreases |steps|
  {
    hide Inv, Enabled, Apply;
    if steps != [] {
      StepInv(e, s, steps[0]);
      ScheduleInv(e, Apply(e, s, steps[0]), steps[1..]);
    }
  }

  lemma RunningInSegment<W(!new)>(e: Env<W>, s: State<W>, i: nat)
    requires ValidEnv(e) && Inv(e, s) && i < |s.slots| && s.slots[i].Running?
    ensures s.seg < |e.batches| && e.batches[s.seg].start == EndOf(e.batches, s.seg) <= i < e.batches[s.seg].end
    ensures GoodSegment(e.reg, e.calls, EndOf(e.batches, s.seg), e.batches[s.seg])
  {
    hide Tiles, GoodSegment;
    TilesEnd(e.reg, e.calls, e.batches, |e.calls|);
    SegmentBounds(e, s);
    assert s.seg < |e.batches|;
    TilesAt(e.reg, e.calls, e.batches, |e.calls|, s.seg);
  }

  /** A call outside the parallel runs - every writer, unknown tool, complete_step and
      todo_write - runs alone and after the receipts of all earlier calls. */
  lemma SerialCallsWait<W(!new)>(e: Env<W>, s: State<W>, i: nat)
    requires ValidEnv(e) && Inv(e, s) && i < |s.slots| && s.slots[i].Running? && !Mergeable(e.reg, e.calls, i)
    ensures forall j: nat :: j < |s.slots| && s.slots[j].Running? ==> j == i
    ensures forall j: nat :: j < i ==> j in s.ledger
    ensures forall j: nat :: i < j ==> j !in s.ledger
  {
    RunningInSegment(e, s, i);
    hide Tiles;
  }

  /** Under cancellation at any point: once the batch is over every call has exactly one
      result, the calls that ran are a prefix, and all others are marked cancelled. */
  lemma EndedShape<W(!new)>(e: Env<W>, s: State<W>)
    requires Inv(e, s) && s.ended
    ensures s.next <= |s.slots| == |e.calls|
    ensures forall j :: 0 <= j < |s.slots| ==> if j < s.next then s.slots[j].Ran? else s.slots[j].Skipped?
  {
  }

  lemma {:induction false} CancelledPrefix<W(!new)>(e: Env<W>, world: W, steps: seq<Step>) returns (k: nat)
    requires ValidEnv(e) && Schedule(e, Init(e, world), steps)
    requires Reached(e, Init(e, world), steps).ended
    ensures k <= |e.calls| == |Results(Reached(e, Init(e, world), steps))|
    ensures var s := Reached(e, Init(e, world), steps);
      (forall j :: 0 <= j < k ==> s.slots[j].Ran? && Results(s)[j] == s.slots[j].result) &&
      (forall j :: k <= j < |e.calls| ==> s.slots[j].Skipped? && Results(s)[j] == CANCELLED) &&
      (k < |e.calls| ==> s.cancelled)
  {
    hide ValidEnv, Inv, Schedule, Init;
    InitInv(e, world);
    ScheduleInv(e, Init(e, world), steps);
    InitUnskipped(e, world);
    SkippedOnlyIfCancelled(e, Init(e, world), steps);
    var s := Reached(e, Init(e, world), steps);
    EndedShape(e, s);
    k := s.next;
    assert k < |e.calls| ==> s.slots[k].Skipped?;
  }

  lemma InitUnskipped<W(!new)>(e: Env<W>, world: W)
    ensures forall j :: 0 <= j < |Init(e, world).slots| ==> !Init(e, world).slots[j].Skipped?
  {
  }

  function Results<W(!new)>(s: State<W>): seq<Outcome> {
    seq(|s.slots|, j requires 0 <= j < |s.slots| => if s.slots[j].Ran? then s.slots[j].result else CANCELLED)
  }

  lemma {:induction false} SkippedOnlyIfCancelled<W(!new)>(e: Env<W>, s: State<W>, steps: seq<Step>)
    requires ValidEnv(e) && Inv(e, s) && Schedule(e, s, steps)
    requires (exists j :: 0 <= j < |s.slots| && s.slots[j].Skipped?) ==> s.cancelled
    ensures var t := Reached(e, s, steps); (exists j :: 0 <= j < |t.slots| && t.slots[j].Skipped?) ==> t.cancelled
    decreases |steps|
  {
    hide Inv, ValidEnv;
    if steps != [] {
      StepInv(e, s, steps[0]);
      StepSkips(e, s, steps[0]);
      SkippedOnlyIfCancelled(e, Apply(e, s, steps[0]), steps[1..]);
    }
  }

  lemma StepSkips<W(!new)>(e: Env<W>, s: State<W>, step: Step)
    requires Enabled(e, s, step)
    requires (exists j :: 0 <= j < |s.slots| && s.slots[j].Skipped?) ==> s.cancelled
    ensures var t := Apply(e, s, step); (exists j :: 0 <= j < |t.slots| && t.slots[j].Skipped?) ==> t.cancelled
  {
  }

  // ----- every uncancelled schedule refines the sequential order -----

  function LedgerOf(results: seq<Outcome>): Ledger {
    map j: nat | j < |results| :: results[j]
  }

  /** Running the first k calls one by one in provider order. */
  function Sequential<W(!new)>(e: Env<W>, world: W, k: nat): (r: (W, seq<Outcome>))
    requires k <= |e.calls|
    ensures |r.1| == k
  {
    if k == 0 then (world, [])
    else
      var (w, results) := Sequential(e, world, k - 1);
      var (w', r) := e.exec(k - 1, w, LedgerOf(results), false);
      (w', results + [r])
  }

  lemma {:induction false} SequentialPrefix<W(!new)>(e: Env<W>, world: W, j: nat, k: nat)
    requires j <= k <= |e.calls|
    ensures Sequential(e, world, k).1[..j] == Sequential(e, world, j).1
    decreases k
  {
    if j < k {
      SequentialPrefix(e, world, j, k - 1);
      assert Sequential(e, world, k).1[..j] == Sequential(e, world, k - 1).1[..j];
    }
  }

  /** Read-only calls do not move the sequential world. */
  lemma {:induction false} SequentialReaders<W(!new)>(e: Env<W>, world: W, j: nat, k: nat)
    requires ReadersPure(e) && j <= k <= |e.calls|
    requires forall i :: j <= i < k ==> Mergeable(e.reg, e.calls, i)
    ensures Sequential(e, world, k).0 == Sequential(e, world, j).0
    decreases k
  {
    if j < k {
      SequentialReaders(e, world, j, k - 1);
      assert Mergeable(e.reg, e.calls, k - 1);
    }
  }

  /** How many calls of the sequential order the machine's world has seen. */
  function Seen<W(!new)>(e: Env<W>, s: State<W>): nat
    requires s.seg < |e.batches| ==> e.batches[s.seg].start < |s.slots|
    requires s.seg <= |e.batches|
  {
    if s.seg < |e.batches| && !e.batches[s.seg].parallel && s.slots[e.batches[s.seg].start].Ran?
    then e.batches[s.seg].start + 1
    else EndOf(e.batches, s.seg)
  }

  ghost predicate Refines<W(!new)>(e: Env<W>, world: W, s: State<W>) {
    Inv(e, s) && ValidEnv(e) && !s.cancelled &&
    (s.seg < |e.batches| ==> e.batches[s.seg].start == EndOf(e.batches, s.seg) < |s.slots|) &&
    Seen(e, s) <= |e.calls| &&
    s.world == Sequential(e, world, Seen(e, s)).0 &&
    forall j :: 0 <= j < |s.slots| && s.slots[j].Ran? ==> s.slots[j].result == Sequential(e, world, j + 1).1[j]
  }

  lemma SegmentBounds<W(!new)>(e: Env<W>, s: State<W>)
    requires ValidEnv(e) && Inv(e, s)
    ensures s.seg < |e.batches| ==>
      e.batches[s.seg].start == EndOf(e.batches, s.seg) < e.batches[s.seg].end <= |s.slots|
  {
    hide Tiles;
    if s.seg < |e.batches| {
      TilesAt(e.reg, e.calls, e.batches, |e.calls|, s.seg);
    }
  }

  /** Call i finishing in state s yields its sequential result. */
  lemma FinishResult<W(!new)>(e: Env<W>, world: W, s: State<W>, i: nat)
    requires ReadersPure(e) && Refines(e, world, s) && Enabled(e, s, Finish(i))
    ensures i < |e.calls| && s.world == Sequential(e, world, i).0
    ensures e.exec(i, s.world, s.ledger, false).1 == e.exec(i, s.world, LedgerOf(Sequential(e, world, i).1), false).1
    ensures e.exec(i, s.world, s.ledger, false).0 == Sequential(e, world, i + 1).0
  {
    hide Tiles;
    hide Sequential, Mergeable, ValidEnv;
    SegmentBounds(e, s);
    RunningInSegment(e, s, i);
    var g := e.batches[s.seg];
    var before := Sequential(e, world, i);
    if g.parallel {
      SequentialReaders(e, world, g.start, i);
      SequentialReaders(e, world, g.start, i + 1);
      assert Mergeable(e.reg, e.calls, i);
    } else {
      forall j: nat | j < i ensures j in s.ledger && s.ledger[j] == before.1[j] {
        SequentialPrefix(e, world, j + 1, i);
        assert before.1[..j + 1][j] == before.1[j];
      }
      assert s.ledger == LedgerOf(before.1);
      SequentialStep(e, world, i);
    }
  }

  lemma SequentialStep<W(!new)>(e: Env<W>, world: W, i: nat)
    requires i < |e.calls|
    ensures var before := Sequential(e, world, i);
      var (w, r) := e.exec(i, before.0, LedgerOf(before.1), false);
      Sequential(e, world, i + 1) == (w, before.1 + [r])
  {
  }

  lemma FinishSlots<W(!new)>(e: Env<W>, world: W, s: State<W>, i: nat)
    requires ReadersPure(e) && Refines(e, world, s) && Enabled(e, s, Finish(i))
    ensures var s' := Apply(e, s, Finish(i));
      |s'.slots| == |e.calls| && s'.world == Sequential(e, world, i + 1).0 &&
      forall j :: 0 <= j < |s'.slots| && s'.slots[j].Ran? ==> s'.slots[j].result == Sequential(e, world, j + 1).1[j]
  {
    FinishResult(e, world, s, i);
    SequentialStep(e, world, i);
    hide Sequential, ReadersPure, ValidEnv, Seen, EndOf, RunningSet;
    var s' := Apply(e, s, Finish(i));
    assert s'.slots[i].result == Sequential(e, world, i + 1).1[i];
    assert forall j :: 0 <= j < |s.slots| && j != i ==> s'.slots[j] == s.slots[j];
  }

  lemma FinishRefines<W(!new)>(e: Env<W>, world: W, s: State<W>, i: nat)
    requires ReadersPure(e) && Refines(e, world, s) && Enabled(e, s, Finish(i))
    ensures Refines(e, world, Apply(e, s, Finish(i)))
  {
    FinishInv(e, s, i);
    FinishSlots(e, world, s, i);
    SegmentBounds(e, s);
    FinishSeen(e, world, s, i);
    hide Sequential, Mergeable, Inv, ReadersPure, ValidEnv, Seen;
  }

  lemma FinishSeen<W(!new)>(e: Env<W>, world: W, s: State<W>, i: nat)
    requires ReadersPure(e) && Refines(e, world, s) && Enabled(e, s, Finish(i))
    ensures i < |e.calls|
    ensures var s' := Apply(e, s, Finish(i));
      Seen(e, s') <= |e.calls| && Sequential(e, world, Seen(e, s')).0 == Sequential(e, world, i + 1).0
  {
    hide Tiles;
    hide Sequential, Mergeable, ValidEnv;
    SegmentBounds(e, s);
    RunningInSegment(e, s, i);
    var g := e.batches[s.seg];
    if g.parallel {
      SequentialReaders(e, world, g.start, i + 1);
    }
  }

  lemma NextSegmentRefines<W(!new)>(e: Env<W>, world: W, s: State<W>)
    requires ReadersPure(e) && Refines(e, world, s) && Enabled(e, s, NextSegment)
    ensures Refines(e, world, Apply(e, s, NextSegment))
  {
    hide Tiles;
    NextSegmentInv(e, s);
    SegmentBounds(e, s);
    SegmentBounds(e, Apply(e, s, NextSegment));
    hide Sequential, Mergeable;
    var g := e.batches[s.seg];
    TilesAt(e.reg, e.calls, e.batches, |e.calls|, s.seg);
    if g.parallel {
      SequentialReaders(e, world, g.start, g.end);
    } else {
      assert s.slots[g.start].Ran?;
    }
  }

  lemma StepRefines<W(!new)>(e: Env<W>, world: W, s: State<W>, step: Step)
    requires ReadersPure(e) && Refines(e, world, s) && Enabled(e, s, step) && step != Cancel
    ensures Refines(e, world, Apply(e, s, step))
  {
    match step
    case Finish(i) => FinishRefines(e, world, s, i);
    case NextSegment => NextSegmentRefines(e, world, s);
    case _ =>
      StepInv(e, s, step);
      hide Inv, Sequential, ReadersPure, ValidEnv, GoodSegment;
  }

  lemma {:induction false} ScheduleRefines<W(!new)>(e: Env<W>, world: W, s: State<W>, steps: seq<Step>)
    requires ReadersPure(e) && Refines(e, world, s) && Schedule(e, s, steps)
    requires forall k :: 0 <= k < |steps| ==> steps[k] != Cancel
    ensures Refines(e, world, Reached(e, s, steps))
    decreases |steps|
  {
    hide Refines, Enabled, Apply, ReadersPure;
    if steps != [] {
      StepRefines(e, world, s, steps[0]);
      ScheduleRefines(e, world, Apply(e, s, steps[0]), steps[1..]);
    }
  }

  /** Every uncancelled schedule that ends gives the results and the world of running the
      calls one by one in provider order. */
  lemma SchedulesAgree<W(!new)>(e: Env<W>, world: W, steps: seq<Step>)
    requires ValidEnv(e) && ReadersPure(e) && Schedule(e, Init(e, world), steps)
    requires forall k :: 0 <= k < |steps| ==> steps[k] != Cancel
    requires Reached(e, Init(e, world), steps).ended
    ensures var s := Reached(e, Init(e, world), steps);
      (s.world, Results(s)) == Sequential(e, world, |e.calls|)
  {
    InitRefines(e, world);
    ScheduleRefines(e, world, Init(e, world), steps);
    UncancelledCompletes(e, Init(e, world), steps);
    hide Schedule, Reached, ReadersPure, Sequential, Init;
    var s := Reached(e, Init(e, world), steps);
    EndedShape(e, s);
    AllCallsSeen(e, world, s);
    assert Results(s) == Sequential(e, world, |e.calls|).1;
  }

  lemma InitRefines<W(!new)>(e: Env<W>, world: W)
    requires ValidEnv(e)
    ensures Refines(e, world, Init(e, world))
  {
    InitInv(e, world);
    SegmentBounds(e, Init(e, world));
  }

  lemma AllCallsSeen<W(!new)>(e: Env<W>, world: W, s: State<W>)
    requires Refines(e, world, s) && s.ended && s.seg == |e.batches|
    ensures s.world == Sequential(e, world, |e.calls|).0
    ensures forall j :: 0 <= j < |s.slots| ==>
      s.slots[j].Ran? && s.slots[j].result == Sequential(e, world, |e.calls|).1[j]
  {
    hide Sequential, GoodSegment;
    var all := Sequential(e, world, |e.calls|).1;
    forall j | 0 <= j < |e.calls| ensures s.slots[j].Ran? && s.slots[j].result == all[j] {
      SequentialPrefix(e, world, j + 1, |e.calls|);
      assert all[..j + 1][j] == all[j];
    }
  }

  lemma {:induction false} UncancelledCompletes<W(!new)>(e: Env<W>, s: State<W>, steps: seq<Step>)
    requires ValidEnv(e) && Inv(e, s) && Schedule(e, s, steps) && !s.cancelled
    requires s.ended ==> s.seg == |e.batches|
    requires forall k :: 0 <= k < |steps| ==> steps[k] != Cancel
    ensures Reached(e, s, steps).ended ==> Reached(e, s, steps).seg == |e.batches|
    decreases |steps|
  {
    if steps != [] {
      StepInv(e, s, steps[0]);
      UncancelledCompletes(e, Apply(e, s, steps[0]), steps[1..]);
    }
  }

  // ----- progress -----

  function Undone(slots: seq<Slot>): nat {
    if slots == [] then 0
    else (match slots[0] case Waiting => 2 case Running => 1 case _ => 0) + Undone(slots[1..])
  }

  lemma {:induction false} UndoneUpdate(slots: seq<Slot>, i: nat, v: Slot)
    requires i < |slots|
    requires (slots[i].Waiting? && v.Running?) || (slots[i].Running? && v.Ran?)
    ensures Undone(slots[i := v]) == Undone(slots) - 1
  {
    if i == 0 {
      assert slots[i := v][1..] == slots[1..];
    } else {
      assert slots[i := v][1..] == slots[1..][i - 1 := v];
      UndoneUpdate(slots[1..], i - 1, v);
    }
  }

  lemma {:induction false} UndoneLess(a: seq<Slot>, b: seq<Slot>)
    requires |a| == |b| && forall j :: 0 <= j < |a| ==> b[j] == a[j] || b[j].Skipped?
    ensures Undone(b) <= Undone(a)
  {
    if a != [] {
      UndoneLess(a[1..], b[1..]);
    }
  }

  function Work<W(!new)>(e: Env<W>, s: State<W>): int {
    Undone(s.slots) + |e.batches| - s.seg + (if s.cancelled then 0 else 1) + (if s.ended then 0 else 1)
  }

  /** No deadlock: an unfinished batch always has an enabled step besides cancellation, and
      every step uses up work, so each schedule ends after finitely many steps. */
  lemma BatchProgresses<W(!new)>(e: Env<W>, s: State<W>) returns (step: Step)
    requires ValidEnv(e) && Inv(e, s) && !s.ended
    ensures step != Cancel && Enabled(e, s, step)
  {
    SegmentBounds(e, s);
    if AnyRunning(s) {
      var j :| 0 <= j < |s.slots| && s.slots[j].Running?;
      return Finish(j);
    }
    assert RunningSet(s) == {};
    if s.cancelled {
      return Abort;
    } else if s.seg == |e.batches| {
      return Complete;
    } else if s.next == e.batches[s.seg].end {
      return NextSegment;
    }
    return Launch;
  }

  lemma StepUsesWork<W(!new)>(e: Env<W>, s: State<W>, step: Step)
    requires ValidEnv(e) && Inv(e, s) && Enabled(e, s, step)
    ensures 0 <= Work(e, Apply(e, s, step)) < Work(e, s)
  {
    StepInv(e, s, step);
    hide ValidEnv, RunningSet, AnyRunning;
    match step
    case Launch => UndoneUpdate(s.slots, s.next, Running);
    case Finish(i) => UndoneUpdate(s.slots, i, Apply(e, s, step).slots[i]);
    case Abort => UndoneLess(s.slots, Apply(e, s, step).slots);
    case _ =>
  }

  lemma {:induction false} InitialWork(n: nat)
    ensures Undone(seq(n, i => Waiting)) == 2 * n
  {
    if n > 0 {
      assert seq(n, i => Waiting)[1..] == seq(n - 1, i => Waiting);
      InitialWork(n - 1);
    }
  }

  lemma {:induction false} ScheduleUsesWork<W(!new)>(e: Env<W>, s: State<W>, steps: seq<Step>)
    requires ValidEnv(e) && Inv(e, s) && Schedule(e, s, steps)
    ensures |steps| <= Work(e, s) || Work(e, s) < 0
    decreases |steps|
  {
    hide Inv, Enabled, Apply, ValidEnv, Work;
    if steps != [] {
      StepInv(e, s, steps[0]);
      StepUsesWork(e, s, steps[0]);
      ScheduleUsesWork(e, Apply(e, s, steps[0]), steps[1..]);
    }
  }

  /** No schedule of a batch is longer than two steps per call, one per segment and two. */
  lemma SchedulesAreFinite<W(!new)>(e: Env<W>, world: W, steps: seq<Step>)
    requires ValidEnv(e) && Schedule(e, Init(e, world), steps)
    ensures |steps| <= 2 * |e.calls| + |e.batches| + 2
  {
    InitInv(e, world);
    InitialWork(|e.calls|);
    assert Init(e, world).slots == seq(|e.calls|, i => Waiting);
    ScheduleUsesWork(e, Init(e, world), steps);
  }
}
