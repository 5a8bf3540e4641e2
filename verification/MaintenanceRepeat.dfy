/** Running the same maintenance pass twice: a repeated snip changes nothing, a repeated prune
    changes something in exactly one situation. */
module MaintenanceRepeat {
  import opened Text
  import opened Conversation
  import opened Compaction
  import opened CompactionTheory
  import opened Maintenance
  import opened MaintenanceTheory

  /** The cost ratio does not move between the two passes. */
  ghost predicate FixedRatio(p: Policy) {
    forall a: Log, b: Log, m: Message :: p.cost(a, m) == p.cost(b, m)
  }

  /** b is a with some tool results rewritten, all of them before `from`. */
  ghost predicate RewrittenBefore(a: Log, b: Log, from: nat) {
    SameShape(a, b) && forall i :: 0 <= i < |a| && a[i] != b[i] ==> a[i].role.Tool? && i < from
  }

  lemma {:induction false} SkipDigestsSame(a: Log, b: Log, i: nat)
    requires RewrittenBefore(a, b, |a|) && i <= |a|
    ensures SkipDigests(a, i) == SkipDigests(b, i)
    decreases |a| - i
  {
    if i < |a| {
      assert a[i] == b[i] || a[i].role.Tool?;
      assert a[i].(content := b[i].content) == b[i];
      if IsDigest(a[i]) {
        SkipDigestsSame(a, b, i + 1);
      }
    }
  }

  lemma PinnedPrefixSame(p: Policy, a: Log, b: Log)
    requires FixedRatio(p) && RewrittenBefore(a, b, |a|)
    ensures PinnedPrefixLen(p, a) == PinnedPrefixLen(p, b)
  {
    var i := if a != [] && a[0].role.System? then 1 else 0;
    assert a != [] ==> a[0].(content := b[0].content) == b[0];
    if i < |a| {
      assert a[i] == b[i] || a[i].role.Tool?;
      assert a[i].(content := b[i].content) == b[i];
      assert p.cost(a, a[i]) == p.cost(b, a[i]);
    }
    SkipDigestsSame(a, b, i);
    if i < |a| {
      SkipDigestsSame(a, b, i + 1);
    }
  }

  lemma {:induction false} TailCostSame(c: Message -> nat, d: Message -> nat, a: Log, b: Log, i: nat)
    requires |a| == |b| && i <= |a|
    requires forall k :: i <= k < |a| ==> a[k] == b[k]
    requires forall m :: c(m) == d(m)
    ensures TailCost(c, a, i) == TailCost(d, b, i)
    decreases |a| - i
  {
    if i < |a| {
      TailCostSame(c, d, a, b, i + 1);
    }
  }

  /** Rewriting results in front of the tail never moves the tail forward. */
  lemma PlannedStartShrinks(p: Policy, a: Log, b: Log)
    requires FixedRatio(p) && p.contextWindow > 0
    requires RewrittenBefore(a, b, PlannedStart(p, a))
    ensures PlannedStart(p, b) <= PlannedStart(p, a)
  {
    PinnedPrefixSame(p, a, b);
    var head, floor, budget := PinnedPrefixLen(p, a), TailFloor(p), TailBudget(p);
    var c, d := CostIn(p, a), CostIn(p, b);
    var raw := RawTailStart(c, a, head, budget, floor, |a|);
    var raw' := RawTailStart(d, b, head, budget, floor, |b|);
    RawTailIsLongest(c, a, head, budget, floor, |a|);
    RawTailIsLongest(d, b, head, budget, floor, |b|);
    TailCostSame(c, d, a, b, raw);
    assert Fits(d, b, budget, floor, raw);
    assert raw' <= raw;
    var start, start' := PlannedStart(p, a), PlannedStart(p, b);
    assert forall k :: 0 <= k < |a| ==> a[k].(content := b[k].content) == b[k];
    assert start' <= start;
  }

  lemma RewrittenIsSettled(w: Sweep, m: Message, archive: string)
    requires m.role.Tool?
    ensures !ShouldMaintain(m.(content := Rewrite(m, w, archive)), w.mode)
  {
    if w.mode.Snip? {
      SnipIsPlaceholder(m, archive, w.strategy(m.name));
      assert Snipped(SnipResult(m, archive, w.strategy(m.name)));
    } else {
      assert Pruned(PruneResult(m, archive));
    }
  }

  lemma RewriteChanges(w: Sweep, m: Message, archive: string)
    requires ShouldMaintain(m, w.mode)
    ensures Rewrite(m, w, archive) != m.content
  {
    RewrittenIsSettled(w, m, archive);
    assert m.(content := m.content) == m;
  }

  /** After a pass that could archive, no candidate is left inside its own window. */
  lemma WindowSettled(w: Sweep, log: Log)
    requires SweepArchive(w, log).Some?
    ensures match SweepWindow(w.policy, w.mode, log)
            case NoWindow => SweepLog(w, log) == log
            case Window(head, start) =>
              RewrittenBefore(log, SweepLog(w, log), start) &&
              (forall i :: 0 <= i < |log| && !(head <= i < start) ==> SweepLog(w, log)[i] == log[i]) &&
              forall i :: head <= i < start ==> !Candidate(w.policy, w.mode, SweepLog(w, log)[i])
  {
    SweepOnlyToolText(w, log);
    hide PlannedStart, PinnedPrefixLen, PlanOk;
    match SweepWindow(w.policy, w.mode, log)
    case NoWindow =>
      NothingRewritten(w, log);
    case Window(head, start) =>
      var archive, idx := SweepArchive(w, log).value, SweepCandidates(w, log);
      forall i | head <= i < start ensures !Candidate(w.policy, w.mode, SweepLog(w, log)[i]) {
        if i in idx {
          RewrittenIsSettled(w, log[i], archive);
        }
      }
  }

  /** A pass that can archive changes the log exactly when it has a candidate. */
  lemma SweepChanges(w: Sweep, log: Log)
    requires SweepArchive(w, log).Some?
    ensures SweepLog(w, log) != log <==> SweepCandidates(w, log) != []
  {
    if SweepCandidates(w, log) == [] {
      NothingRewritten(w, log);
    } else {
      var i := SweepCandidates(w, log)[0];
      RewriteChanges(w, log[i], SweepArchive(w, log).value);
      assert SweepLog(w, log)[i].content != log[i].content;
    }
  }

  lemma NoCandidates(w: Sweep, log: Log)
    requires SweepWindow(w.policy, w.mode, log).Window? ==>
      var win := SweepWindow(w.policy, w.mode, log);
      forall i :: win.head <= i < win.start ==> !Candidate(w.policy, w.mode, log[i])
    ensures SweepCandidates(w, log) == []
  {
    match SweepWindow(w.policy, w.mode, log)
    case NoWindow =>
    case Window(head, start) => CandidatesEmpty(w.policy, w.mode, log, head, start);
  }

  lemma {:induction false} CandidatesEmpty(p: Policy, mode: Mode, log: Log, from: nat, end: nat)
    requires from <= end <= |log|
    ensures Candidates(p, mode, log, from, end) == [] <==>
            forall i :: from <= i < end ==> !Candidate(p, mode, log[i])
    decreases end
  {
    if from < end {
      CandidatesEmpty(p, mode, log, from, end - 1);
    }
  }

  /** Snipping twice is snipping once. */
  lemma SnipTwice(w: Sweep, again: Sweep, log: Log)
    requires w.policy == again.policy && FixedRatio(w.policy)
    requires w.mode.Snip? && again.mode.Snip? && SweepArchive(w, log).Some?
    ensures SweepLog(again, SweepLog(w, log)) == SweepLog(w, log)
  {
    var p, once := w.policy, SweepLog(w, log);
    WindowSettled(w, log);
    match SweepWindow(p, Snip, log)
    case NoWindow =>
      NoCandidates(again, once);
      NothingRewritten(again, once);
    case Window(head, start) =>
      PinnedPrefixSame(p, log, once);
      PlannedStartShrinks(p, log, once);
      NoCandidates(again, once);
      NothingRewritten(again, once);
  }

  /** The situation in which a second prune still finds something: the first one worked on the
      planned region, afterwards the planner finds nothing to compact, and the fixed window the
      second prune falls back to reaches a stale result behind the first one's boundary. */
  predicate FallsBehindTail(p: Policy, log: Log, once: Log)
  {
    p.contextWindow > 0 && PlanOk(p, log, 1) && !PlanOk(p, once, 1) &&
    exists i :: PlannedStart(p, log) <= i < |log| - p.recentKeep && 1 <= i && Candidate(p, Prune, log[i])
  }

  /** On a paired log a planned region ends before the fixed window of a prune does, save for
      a message that is not a tool result anyway. */
  lemma PlanWithinFixedWindow(p: Policy, log: Log, i: nat)
    requires Paired(log) && p.contextWindow > 0
    requires PinnedPrefixLen(p, log) <= i < PlannedStart(p, log) && log[i].role.Tool?
    ensures 1 <= i < |log| - p.recentKeep
  {
    var head, floor := PinnedPrefixLen(p, log), TailFloor(p);
    UnansweredPrefix(log, head);
    UnansweredPrefix(log, 0);
    RawTailIsLongest(CostIn(p, log), log, head, TailBudget(p), floor, |log|);
    var raw := RawTailStart(CostIn(p, log), log, head, TailBudget(p), floor, |log|);
    assert i > head && raw > i;
    assert !Fits(CostIn(p, log), log, TailBudget(p), floor, i);
  }

  /** Pruning twice is pruning once, except exactly in that situation. */
  lemma PruneTwice(w: Sweep, again: Sweep, log: Log)
    requires Paired(log)
    requires w.policy == again.policy && FixedRatio(w.policy)
    requires w.mode.Prune? && again.mode.Prune?
    requires SweepArchive(w, log).Some? && SweepArchive(again, SweepLog(w, log)).Some?
    ensures SweepLog(again, SweepLog(w, log)) != SweepLog(w, log) <==> FallsBehindTail(w.policy, log, SweepLog(w, log))
  {
    var p, once := w.policy, SweepLog(w, log);
    WindowSettled(w, log);
    SweepChanges(again, once);
    SweepKeepsPairing(w, log);
    SweepOnlyToolText(w, log);
    if SweepWindow(p, Prune, log).NoWindow? {
      NoCandidates(again, once);
    } else {
      PinnedPrefixSame(p, log, once);
      var win := SweepWindow(p, Prune, log);
      if PlanOk(p, log, 1) {
        PlannedStartShrinks(p, log, once);
        if PlanOk(p, once, 1) {
          NoCandidates(again, once);
        } else {
          PruneFallsBack(again, log, once, win.head, win.start);
        }
      } else {
        FixedWindowStaysSettled(again, log, once);
      }
    }
  }

  /** After a pass over the fixed window, neither that window nor a region planned now holds a
      candidate. */
  lemma FixedWindowStaysSettled(again: Sweep, log: Log, once: Log)
    requires Paired(once) && |once| == |log| && again.mode.Prune? && again.policy.contextWindow > 0
    requires !PlanOk(again.policy, log, 1) && |log| - again.policy.recentKeep >= 1
    requires forall i :: 1 <= i < |log| - again.policy.recentKeep ==> !Candidate(again.policy, Prune, once[i])
    ensures SweepCandidates(again, once) == []
  {
    var p := again.policy;
    if PlanOk(p, once, 1) {
      forall i: nat | PinnedPrefixLen(p, once) <= i < PlannedStart(p, once)
        ensures !Candidate(p, Prune, once[i])
      {
        if once[i].role.Tool? {
          PlanWithinFixedWindow(p, once, i);
        }
      }
    }
    hide PlannedStart, PinnedPrefixLen, Candidate, Paired;
    NoCandidates(again, once);
  }

  lemma PruneFallsBack(again: Sweep, log: Log, once: Log, head: nat, start: nat)
    requires |once| == |log| && head == PinnedPrefixLen(again.policy, log) && start == PlannedStart(again.policy, log)
    requires again.mode.Prune? && again.policy.contextWindow > 0
    requires PlanOk(again.policy, log, 1) && !PlanOk(again.policy, once, 1)
    requires forall i :: 0 <= i < |log| && !(head <= i < start) ==> once[i] == log[i]
    requires forall i :: head <= i < start ==> !Candidate(again.policy, Prune, once[i])
    ensures SweepCandidates(again, once) != [] <==> FallsBehindTail(again.policy, log, once)
  {
    var p, end := again.policy, |log| - again.policy.recentKeep;
    if end < 1 {
      NoCandidates(again, once);
      hide Candidate;
    } else {
      assert SweepCandidates(again, once) == Candidates(p, Prune, once, 1, end);
      assert forall i :: 0 <= i < head ==> log[i].role.System? || log[i].role.User?;
      hide SweepCandidates, PlanOk, PlannedStart, PinnedPrefixLen, Candidate, Candidates;
      FixedWindowCandidates(p, log, once, head, start, end);
      CandidatesEmpty(p, Prune, once, 1, end);
    }
  }

  lemma FixedWindowCandidates(p: Policy, log: Log, once: Log, head: nat, start: nat, end: nat)
    requires |once| == |log| && head <= start <= |log| && 1 <= end <= |log|
    requires forall i :: 0 <= i < |log| && !(head <= i < start) ==> once[i] == log[i]
    requires forall i :: head <= i < start ==> !Candidate(p, Prune, once[i])
    requires forall i :: 0 <= i < head ==> log[i].role.System? || log[i].role.User?
    ensures (exists i :: 1 <= i < end && Candidate(p, Prune, once[i])) <==>
            (exists i :: start <= i < end && 1 <= i && Candidate(p, Prune, log[i]))
  {
    forall i | 1 <= i < end ensures Candidate(p, Prune, once[i]) <==> start <= i && Candidate(p, Prune, log[i]) {
      if i < head {
        assert once[i] == log[i];
      }
    }
    if i :| start <= i < end && 1 <= i && Candidate(p, Prune, log[i]) {
      assert Candidate(p, Prune, once[i]);
    }
    if i :| 1 <= i < end && Candidate(p, Prune, once[i]) {
      assert Candidate(p, Prune, log[i]);
    }
  }

  // ----- a log whose second prune differs -----

  const EXAMPLE_POLICY := Policy(8000, 0, false, false, false, (l: Log, m: Message) => |m.content|, (m: Message) => 0,
                                 (n: int) => n, (n: nat, s: string) => "", (s: string) => s,
                                 1200, 4000, 4800, 6400, 7200)

  /** An old 3000-byte result, then a 1500-byte one that fits the 4000-token tail. */
  const EXAMPLE_LOG: Log := [
    UserMessage("go"),
    AssistantMessage("", [ToolCall("a", "t", "")]), ToolMessage(ToolCall("a", "t", ""), Filler(3000)),
    AssistantMessage("", [ToolCall("b", "t", "")]), ToolMessage(ToolCall("b", "t", ""), Filler(1500)),
    AssistantMessage("", []), AssistantMessage("", [])]

  lemma ExamplePaired()
    ensures Paired(EXAMPLE_LOG)
  {
    var l := EXAMPLE_LOG;
    forall a: nat, k: nat | a < |l| && k < |Opens(l[a])| ensures Answered(l, a, k) {
      assert a == 1 || a == 3;
      assert a == 1 ==> l[a + 1 + k] == l[2];
      assert a == 3 ==> l[a + 1 + k] == l[4];
    }
    assert InGroup(l, 1, 2) && InGroup(l, 3, 4);
    PairedMeaning(l);
  }

  lemma ExampleTail(l: Log)
    requires |l| == 7 && l[3..] == EXAMPLE_LOG[3..]
    ensures TailCost(CostIn(EXAMPLE_POLICY, l), l, 3) == 1500
  {
    var c := CostIn(EXAMPLE_POLICY, l);
    assert l[3] == l[3..][0] && l[4] == l[3..][1] && l[5] == l[3..][2] && l[6] == l[3..][3];
    assert TailCost(c, l, 6) == c(l[6]) == 0;
    assert TailCost(c, l, 5) == c(l[5]) == 0;
    assert TailCost(c, l, 4) == c(l[4]) == 1500;
  }

  lemma ExampleFirstPlan()
    ensures PinnedPrefixLen(EXAMPLE_POLICY, EXAMPLE_LOG) == 1 && PlannedStart(EXAMPLE_POLICY, EXAMPLE_LOG) == 3
  {
    var p, l := EXAMPLE_POLICY, EXAMPLE_LOG;
    var c := CostIn(p, l);
    assert TrimLeftSet("go", {'\n', ' '}) == "go";
    assert !IsDigest(l[0]) && !IsDigest(l[1]);
    assert Pinnable(p, l, l[0]);
    ExampleTail(l);
    assert TailCost(c, l, 2) == 3000 + 1500;
    assert Fits(c, l, 4000, 2, 3) && !Fits(c, l, 4000, 2, 2);
    RawTailIsLongest(c, l, 1, 4000, 2, 7);
    assert !l[3].role.Tool?;
  }

  lemma ExampleSecondPlan(once: Log)
    requires |once| == 7 && once[3..] == EXAMPLE_LOG[3..] && once[0] == EXAMPLE_LOG[0] && once[1] == EXAMPLE_LOG[1]
    requires once[2].role.Tool? && |once[2].content| <= 2500
    ensures PinnedPrefixLen(EXAMPLE_POLICY, once) == 1 && PlannedStart(EXAMPLE_POLICY, once) == 1
  {
    var p := EXAMPLE_POLICY;
    var c := CostIn(p, once);
    assert TrimLeftSet("go", {'\n', ' '}) == "go";
    assert !IsDigest(once[0]) && !IsDigest(once[1]);
    assert Pinnable(p, once, once[0]);
    ExampleTail(once);
    assert TailCost(c, once, 2) <= 4000;
    assert Fits(c, once, 4000, 2, 2);
    RawTailIsLongest(c, once, 1, 4000, 2, 7);
    assert RawTailStart(c, once, 1, 4000, 2, 7) == 2;
    assert AlignBack(once, 1, 1) == 1;
  }

  /** The situation occurs: this second prune elides a result the first one protected. */
  lemma SecondPruneReachesTail(w: Sweep)
    requires w.mode.Prune? && w.policy == EXAMPLE_POLICY
    ensures Paired(EXAMPLE_LOG) && FixedRatio(w.policy)
    ensures SweepLog(w, SweepLog(w, EXAMPLE_LOG)) != SweepLog(w, EXAMPLE_LOG)
  {
    ExamplePaired();
    ExampleFirstPlan();
    ExampleCandidates();
    var once := SweepLog(w, EXAMPLE_LOG);
    ExampleOnce(w, EXAMPLE_LOG);
    ExampleSecondPlan(once);
    PruneTwice(w, w, EXAMPLE_LOG);
  }

  lemma ExampleCandidates()
    ensures !Snipped(EXAMPLE_LOG[2].content) && !Pruned(EXAMPLE_LOG[2].content)
    ensures Candidate(EXAMPLE_POLICY, Prune, EXAMPLE_LOG[2]) && Candidate(EXAMPLE_POLICY, Prune, EXAMPLE_LOG[4])
  {
    assert EXAMPLE_LOG[2].content[0] == 'x' && EXAMPLE_LOG[4].content[0] == 'x';
    assert SNIPPED_MARKER[0] == '[' && PRUNED_MARKER[0] == '[';
  }

  lemma ExampleOnce(w: Sweep, l: Log)
    requires w.mode.Prune? && w.policy.contextWindow > 0 && !w.policy.archives
    requires |l| == 7 && PinnedPrefixLen(w.policy, l) == 1 && PlannedStart(w.policy, l) == 3
    requires l[1].role.Assistant? && Candidate(w.policy, Prune, l[2]) && !Snipped(l[2].content)
    requires |l[2].content| == 3000 && |l[2].name| == 1
    ensures var once := SweepLog(w, l);
      |once| == 7 && once[3..] == l[3..] && once[0] == l[0] && once[1] == l[1] &&
      once[2].role.Tool? && |once[2].content| <= 2500
  {
    ExampleUntouched(w, l);
    ExampleRewritten(w, l);
    ExamplePlaceholder(l[2]);
    hide SweepLog, PruneResult;
  }

  lemma ExampleUntouched(w: Sweep, l: Log)
    requires w.mode.Prune? && w.policy.contextWindow > 0 && !w.policy.archives
    requires |l| == 7 && PinnedPrefixLen(w.policy, l) == 1 && PlannedStart(w.policy, l) == 3 && l[1].role.Assistant?
    ensures var once := SweepLog(w, l); |once| == 7 && once[3..] == l[3..] && once[0] == l[0] && once[1] == l[1]
  {
    var once := SweepLog(w, l);
    assert SweepArchive(w, l).Some?;
    assert SweepWindow(w.policy, w.mode, l) == Window(1, 3);
    hide PinnedPrefixLen, PlannedStart, Candidate, SweepCandidates, SweepLog, SweepWindow, SweepArchive;
    WindowSettled(w, l);
    SweepOnlyToolText(w, l);
    hide SameShape, RewrittenBefore;
    assert once[1] == l[1];
    SameFrom(once, l, 3);
  }

  lemma SameFrom(a: Log, b: Log, from: nat)
    requires |a| == |b| && from <= |a| && forall i :: from <= i < |a| ==> a[i] == b[i]
    ensures a[from..] == b[from..]
  {
  }

  lemma ExampleRewritten(w: Sweep, l: Log)
    requires w.mode.Prune? && w.policy.contextWindow > 0 && !w.policy.archives
    requires |l| == 7 && PinnedPrefixLen(w.policy, l) == 1 && PlannedStart(w.policy, l) == 3
    requires Candidate(w.policy, Prune, l[2])
    ensures SweepLog(w, l)[2] == l[2].(content := PruneResult(l[2], "")) && l[2].role.Tool?
  {
    assert l[2].role.Tool?;
    hide PinnedPrefixLen, PlannedStart, PruneResult, Candidate;
    assert SweepCandidates(w, l) == Candidates(w.policy, Prune, l, 1, 3);
    assert 2 in SweepCandidates(w, l);
    hide SweepCandidates, Candidates;
    assert Rewriter(w, "")(l[2]) == PruneResult(l[2], "");
  }

  lemma ExamplePlaceholder(m: Message)
    requires !Snipped(m.content) && |m.content| == 3000 && |m.name| == 1
    ensures |PruneResult(m, "")| <= 2500
  {
    DecimalLength(3000);
  }
}
