/** Which calls of a batch share a segment, when calls overlap, and what each call sees of the
    others. */
module BatchOrder {
  import opened Text
  import opened Conversation
  import opened Batch

  /** Known, read-only, and none of the two tools that read the receipts. */
  predicate MayOverlap(reg: Registry, name: string) {
    name in reg && reg[name] && name != "complete_step" && name != "todo_write"
  }

  /** Calls i and i + 1 lie in one segment. */
  predicate Together(batches: seq<Segment>, i: nat) {
    exists k :: 0 <= k < |batches| && batches[k].start <= i && i + 1 < batches[k].end
  }

  lemma MergeableExactly(reg: Registry, calls: seq<ToolCall>, i: nat)
    requires i < |calls|
    ensures Mergeable(reg, calls, i) <==> MayOverlap(reg, calls[i].name)
  {
  }

  /** Every call lies in a segment. */
  lemma {:induction false} Covered(reg: Registry, calls: seq<ToolCall>, batches: seq<Segment>, upTo: nat, i: nat)
    returns (k: nat)
    requires Tiles(reg, calls, batches, upTo) && i < upTo
    ensures k < |batches| && batches[k].start <= i < batches[k].end
    decreases |batches|
  {
    hide GoodSegment, Mergeable;
    var n := |batches| - 1;
    TilesAt(reg, calls, batches, upTo, n);
    SegmentStart(reg, calls, EndOf(batches, n), batches[n]);
    if i >= batches[n].start {
      k := n;
    } else {
      assert forall l :: 0 <= l <= n ==> EndOf(batches[..n], l) == EndOf(batches, l);
      k := Covered(reg, calls, batches[..n], batches[n].start, i);
    }
  }

  lemma SegmentStart(reg: Registry, calls: seq<ToolCall>, from: nat, g: Segment)
    requires GoodSegment(reg, calls, from, g)
    ensures g.start == from < g.end <= |calls|
  {
  }

  /** Neighbours share a segment if and only if both may overlap. */
  lemma TogetherExactly(reg: Registry, calls: seq<ToolCall>, batches: seq<Segment>, i: nat)
    requires Tiles(reg, calls, batches, |calls|) && i + 1 < |calls|
    ensures Together(batches, i) <==> MayOverlap(reg, calls[i].name) && MayOverlap(reg, calls[i + 1].name)
  {
    MergeableExactly(reg, calls, i);
    MergeableExactly(reg, calls, i + 1);
    hide Mergeable, MayOverlap, Tiles, GoodSegment;
    var k := Covered(reg, calls, batches, |calls|, i);
    NeighbourIn(reg, calls, batches, i, k);
    if Together(batches, i) {
      var l :| 0 <= l < |batches| && batches[l].start <= i && i + 1 < batches[l].end;
      NeighbourIn(reg, calls, batches, i, l);
    }
  }

  /** The segment of call i holds its neighbour too if and only if both are mergeable. */
  lemma NeighbourIn(reg: Registry, calls: seq<ToolCall>, batches: seq<Segment>, i: nat, k: nat)
    requires Tiles(reg, calls, batches, |calls|) && i + 1 < |calls|
    requires k < |batches| && batches[k].start <= i < batches[k].end
    ensures i + 1 < batches[k].end <==> Mergeable(reg, calls, i) && Mergeable(reg, calls, i + 1)
  {
    hide Tiles, Mergeable;
    TilesAt(reg, calls, batches, |calls|, k);
  }

  /** While a segment of calls that may overlap is being launched, the next one starts as soon as
      fewer than eight run; any other call starts when nothing runs. */
  lemma LaunchesExactly<W(!new)>(e: Env<W>, s: State<W>)
    requires ValidEnv(e) && Inv(e, s) && !s.ended && !s.cancelled
    requires s.seg < |e.batches| && s.next < e.batches[s.seg].end
    ensures s.next < |e.calls|
    ensures Enabled(e, s, Launch) <==>
      if MayOverlap(e.reg, e.calls[s.next].name) then |RunningSet(s)| < 8 else RunningSet(s) == {}
  {
    hide Tiles, RunningSet, Mergeable;
    SegmentBounds(e, s);
    TilesAt(e.reg, e.calls, e.batches, |e.calls|, s.seg);
    MergeableExactly(e.reg, e.calls, s.next);
    NobodyRuns(s);
    hide MayOverlap, Inv;
  }

  lemma NobodyRuns<W(!new)>(s: State<W>)
    ensures RunningSet(s) == {} <==> !AnyRunning(s)
  {
    if RunningSet(s) == {} {
      forall j: nat | j < |s.slots| ensures !s.slots[j].Running? {
        assert j in RunningSet(s) <==> s.slots[j].Running?;
      }
    }
  }

  /** A writer, an unknown tool, complete_step or todo_write runs alone, and sees exactly the
      receipts of all the calls before it. */
  lemma SerialCallSees<W(!new)>(e: Env<W>, s: State<W>, i: nat)
    requires ValidEnv(e) && Inv(e, s) && i < |e.calls| && !MayOverlap(e.reg, e.calls[i].name)
    requires Enabled(e, s, Finish(i))
    ensures RunningSet(s) == {i}
    ensures (forall j: nat :: j in s.ledger <==> j < i) &&
      forall j: nat :: j < i ==> s.slots[j].Ran? && s.ledger[j] == s.slots[j].result
    ensures var (world, result) := e.exec(i, s.world, s.ledger, s.cancelled);
      Apply(e, s, Finish(i)).slots[i] == Ran(result) && Apply(e, s, Finish(i)).world == world
  {
    hide ValidEnv;
    MergeableExactly(e.reg, e.calls, i);
    SerialCallsWait(e, s, i);
  }

  /** In provider order every call sees the world behind the calls before it and exactly their
      receipts. */
  lemma EachSeesEarlier<W(!new)>(e: Env<W>, world: W, i: nat)
    requires i < |e.calls|
    ensures var all := Sequential(e, world, |e.calls|).1;
      |all| == |e.calls| &&
      (Sequential(e, world, i + 1).0, all[i]) ==
        e.exec(i, Sequential(e, world, i).0, map j: nat | j < i :: all[j], false)
  {
    var all := Sequential(e, world, |e.calls|).1;
    SequentialPrefix(e, world, i + 1, |e.calls|);
    SequentialPrefix(e, world, i, |e.calls|);
    SequentialStep(e, world, i);
    assert LedgerOf(all[..i]) == map j: nat | j < i :: all[j];
    assert all[i] == all[..i + 1][i];
  }
}
