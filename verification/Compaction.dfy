/** Folding the older middle of a log into one digest (internal/agent/compact.go).
    Functions specify each step, the methods carry the loops, and the lemmas at the end
    state what a pass and a run of passes preserve. */
module Compaction {
  import opened Text
  import opened Conversation

  const SUMMARY_OPEN := "<compaction-summary>"
  const DEFAULT_TAIL_TOKENS := 16384
  const MIN_RECENT_KEEP := 2
  const MIN_COMPACT_MESSAGES := 2
  const MAX_PINNED_USER_TOKENS := 1500
  const MIN_FOLD_TOKENS := 400

  /** What a pass reads from the agent. cost is the token estimate of one message of the given
      log (its calibration depends on the log), estimate the provider-independent one;
      digestBody words a digest after its
      opening tag, mechanicalDigest the marker that stands in for a missing summary; pinCap, softAt, snipAt,
      highAt and forceAt are the window fractions in tokens. */
  datatype Policy = Policy(
    contextWindow: int, recentKeep: nat, keepErrors: bool, keepMarked: bool, archives: bool,
    cost: (Log, Message) -> nat, estimate: Message -> nat, savedTokens: int -> int,
    mechanicalDigest: (nat, string) -> string, digestBody: string -> string,
    pinCap: int, softAt: int, snipAt: int, highAt: int, forceAt: int)

  /** Outcome of writing the originals to the archive directory. */
  datatype Archive = Written(path: string) | WriteFailed

  // ----- message classes -----

  predicate IsDigest(m: Message) {
    m.role.User? && HasPrefix(TrimLeftSet(m.content, {'\n', ' '}), SUMMARY_OPEN)
  }

  predicate IsErrorMessage(m: Message) {
    m.role.Tool? &&
    var s := TrimSpace(ToLower(m.content));
    HasPrefix(s, "error:") || HasPrefix(s, "blocked:")
  }

  predicate IsUserMarked(m: Message) {
    m.role.User? &&
    var s := TrimSpace(ToLower(m.content));
    HasPrefix(s, "[[keep]]") || HasPrefix(s, "[keep]") || HasPrefix(s, "<keep>") || HasPrefix(s, "<!-- keep -->")
  }

  predicate ShouldKeep(p: Policy, m: Message) {
    (p.keepErrors && IsErrorMessage(m)) || (p.keepMarked && IsUserMarked(m))
  }

  function PinBudget(p: Policy): int {
    if p.contextWindow > 0 && p.pinCap < MAX_PINNED_USER_TOKENS then p.pinCap else MAX_PINNED_USER_TOKENS
  }

  predicate Pinnable(p: Policy, log: Log, m: Message) {
    p.cost(log, m) <= PinBudget(p)
  }

  predicate PinnableUserTurn(p: Policy, log: Log, m: Message) {
    m.role.User? && Pinnable(p, log, m)
  }

  function Digest(body: string): Message {
    UserMessage(SUMMARY_OPEN + body)
  }

  // ----- the pinned prefix -----

  function SkipDigests(log: Log, i: nat): (r: nat)
    requires i <= |log|
    ensures i <= r <= |log|
    ensures forall k :: i <= k < r ==> IsDigest(log[k])
    ensures r < |log| ==> !IsDigest(log[r])
    decreases |log| - i
  {
    if i < |log| && IsDigest(log[i]) then SkipDigests(log, i + 1) else i
  }

  function PinnedPrefixLen(p: Policy, log: Log): (r: nat)
    ensures r <= |log|
    ensures forall k :: 0 <= k < r ==> log[k].role.System? || log[k].role.User?
    ensures r == 0 <==> log == [] || !(log[0].role.System? || IsDigest(log[0]) || PinnableUserTurn(p, log, log[0]))
  {
    var i := if log != [] && log[0].role.System? then 1 else 0;
    var j := if i < |log| && !IsDigest(log[i]) && PinnableUserTurn(p, log, log[i]) then i + 1 else i;
    SkipDigests(log, j)
  }

  method ComputePinnedPrefixLen(p: Policy, log: Log) returns (i: nat)
    ensures i == PinnedPrefixLen(p, log)
  {
    i := 0;
    if i < |log| && log[i].role.System? {
      i := i + 1;
    }
    if i < |log| && log[i].role.User? && !IsDigest(log[i]) && Pinnable(p, log, log[i]) {
      i := i + 1;
    }
    while i < |log| && IsDigest(log[i])
      invariant i <= |log| && SkipDigests(log, i) == PinnedPrefixLen(p, log)
    {
      i := i + 1;
    }
  }

  // ----- the verbatim tail -----

  function TailCost(c: Message -> nat, log: Log, i: nat): (r: nat)
    requires i <= |log|
    decreases |log| - i
  {
    if i == |log| then 0 else c(log[i]) + TailCost(c, log, i + 1)
  }

  /** The tail from s is within the floor of minKeep messages or within the budget. */
  predicate Fits(c: Message -> nat, log: Log, budget: int, minKeep: int, s: nat)
    requires s <= |log|
  {
    |log| - s <= minKeep || TailCost(c, log, s) <= budget
  }

  function RawTailStart(c: Message -> nat, log: Log, head: nat, budget: int, minKeep: int, s: nat): (r: nat)
    requires s <= |log|
    ensures r <= s && (s > head ==> r > head)
    decreases s
  {
    if s > head + 1 && Fits(c, log, budget, minKeep, s - 1)
    then RawTailStart(c, log, head, budget, minKeep, s - 1)
    else s
  }

  /** Moves a boundary back over tool results, never past head. */
  function AlignBack(log: Log, head: nat, s: nat): (r: nat)
    requires s <= |log|
    ensures r <= s && (head <= s ==> head <= r)
    ensures forall k :: r < k <= s ==> k < |log| && log[k].role.Tool?
    ensures head < r < |log| ==> !log[r].role.Tool?
    decreases s
  {
    if s > head && s < |log| && log[s].role.Tool? then AlignBack(log, head, s - 1) else s
  }

  method TailStart(c: Message -> nat, log: Log, head: nat, budget: int, minKeep: int) returns (start: nat)
    requires minKeep >= 0 && head <= |log|
    ensures start == AlignBack(log, head, RawTailStart(c, log, head, budget, minKeep, |log|))
  {
    start := |log|;
    var acc := 0;
    var i := |log| - 1;
    ghost var raw := RawTailStart(c, log, head, budget, minKeep, |log|);
    while i > head
      invariant i == start - 1 && head <= start <= |log|
      invariant acc == TailCost(c, log, start)
      invariant raw == RawTailStart(c, log, head, budget, minKeep, start)
      decreases i
    {
      var cost := c(log[i]);
      assert TailCost(c, log, i) == acc + cost;
      if |log| - i > minKeep && acc + cost > budget {
        break;
      }
      acc := acc + cost;
      start := i;
      i := i - 1;
    }
    while start > head && start < |log| && log[start].role.Tool?
      invariant start <= |log| && AlignBack(log, head, start) == AlignBack(log, head, raw)
    {
      start := start - 1;
    }
  }

  lemma {:induction false} TailCostMonotone(c: Message -> nat, log: Log, i: nat, j: nat)
    requires i <= j <= |log|
    ensures TailCost(c, log, j) <= TailCost(c, log, i)
    decreases j - i
  {
    if i < j {
      TailCostMonotone(c, log, i + 1, j);
    }
  }

  /** Before alignment the tail is the longest suffix after head that fits. */
  lemma {:induction false} RawTailIsLongest(c: Message -> nat, log: Log, head: nat, budget: int, minKeep: int, s: nat)
    requires s <= |log| && minKeep >= 0 && Fits(c, log, budget, minKeep, s)
    ensures var raw := RawTailStart(c, log, head, budget, minKeep, s);
            Fits(c, log, budget, minKeep, raw) &&
            forall i: nat :: head < i < raw ==> !Fits(c, log, budget, minKeep, i)
    decreases s
  {
    if s > head + 1 {
      if Fits(c, log, budget, minKeep, s - 1) {
        RawTailIsLongest(c, log, head, budget, minKeep, s - 1);
      } else {
        forall i: nat | head < i < s ensures !Fits(c, log, budget, minKeep, i) {
          TailCostMonotone(c, log, i, s - 1);
        }
      }
    }
  }

  // ----- the plan -----

  function TailFloor(p: Policy): int {
    if p.recentKeep > MIN_RECENT_KEEP then p.recentKeep else MIN_RECENT_KEEP
  }

  function TailBudget(p: Policy): int
    requires p.contextWindow > 0
  {
    if p.contextWindow / 2 < DEFAULT_TAIL_TOKENS then p.contextWindow / 2 else DEFAULT_TAIL_TOKENS
  }

  function CostIn(p: Policy, log: Log): Message -> nat {
    m => p.cost(log, m)
  }

  function PlannedStart(p: Policy, log: Log): (start: nat)
    ensures PinnedPrefixLen(p, log) <= start <= |log|
  {
    var head := PinnedPrefixLen(p, log);
    if p.contextWindow > 0 then
      AlignBack(log, head, RawTailStart(CostIn(p, log), log, head, TailBudget(p), TailFloor(p), |log|))
    else
      var s := |log| - TailFloor(p);
      if s < head then head else AlignBack(log, head, s)
  }

  predicate PlanOk(p: Policy, log: Log, min: nat) {
    PlannedStart(p, log) - PinnedPrefixLen(p, log) >= min
  }

  method PlanCompaction(p: Policy, log: Log, min: nat) returns (head: nat, start: nat, ok: bool)
    ensures head == PinnedPrefixLen(p, log) && start == PlannedStart(p, log) && ok == PlanOk(p, log, min)
  {
    head := ComputePinnedPrefixLen(p, log);
    if p.contextWindow > 0 {
      start := TailStart(CostIn(p, log), log, head, TailBudget(p), TailFloor(p));
    } else {
      var s := |log| - TailFloor(p);
      ghost var s0 := s;
      while s > head && log[s].role.Tool?
        invariant s <= s0 < |log| || s == s0
        invariant s0 <= head ==> s == s0
        invariant s0 >= head ==> s >= head && AlignBack(log, head, s) == AlignBack(log, head, s0)
      {
        s := s - 1;
      }
      start := if s < head then head else s;
    }
    ok := start - head >= min;
  }

  /** On a paired log neither end of the region lies inside a call group. */
  lemma PlanCutsBetweenGroups(p: Policy, log: Log)
    requires Paired(log)
    ensures var head, start := PinnedPrefixLen(p, log), PlannedStart(p, log);
            Paired(log[..head]) && Paired(log[head..start]) && Paired(log[start..]) &&
            (head < |log| ==> !log[head].role.Tool?) && (start < |log| ==> !log[start].role.Tool?)
  {
    var head, start := PinnedPrefixLen(p, log), PlannedStart(p, log);
    UnansweredPrefix(log, head);
    StartIsAligned(p, log);
    hide PinnedPrefixLen, PlannedStart, Paired;
    CutOffTools(log, head);
    CutOffTools(log, start);
    assert log[..start] == log[..head] + log[head..start];
    PairedConcat(log[..head], log[head..start]);
  }

  lemma StartIsAligned(p: Policy, log: Log)
    requires var head := PinnedPrefixLen(p, log); head < |log| ==> !log[head].role.Tool?
    ensures PlannedStart(p, log) < |log| ==> !log[PlannedStart(p, log)].role.Tool?
  {
    hide RawTailStart, TailBudget, TailFloor, PinnedPrefixLen;
  }

  /** A paired log has no tool message right after a prefix of system and user turns. */
  lemma {:induction false} UnansweredPrefix(log: Log, i: nat)
    requires Paired(log) && i <= |log|
    requires forall k :: 0 <= k < i ==> !log[k].role.Assistant?
    ensures i < |log| ==> !log[i].role.Tool?
  {
    PairedMeaning(log);
    if i < |log| {
      assert !Stray(log, i);
    }
  }

  // ----- the keep policy -----

  /** One past the last digest of the region's first n messages. */
  function PolicyStart(region: Log, n: nat): (r: nat)
    requires n <= |region|
    ensures r <= n
  {
    if n == 0 then 0 else if IsDigest(region[n - 1]) then n else PolicyStart(region, n - 1)
  }

  predicate OwnKeep(p: Policy, region: Log, i: nat)
    requires i < |region|
  {
    i >= PolicyStart(region, |region|) && ShouldKeep(p, region[i])
  }

  function OwnFlags(p: Policy, region: Log): (keep: seq<bool>)
    ensures |keep| == |region|
  {
    seq(|region|, i requires 0 <= i < |region| => OwnKeep(p, region, i))
  }

  predicate HasCall(m: Message, id: string) {
    exists k :: 0 <= k < |m.calls| && m.calls[k].id == id
  }

  /** Nearest assistant before i that issued the call, or -1. */
  function FindToolCaller(region: Log, i: nat, id: string): (r: int)
    requires i <= |region|
    ensures -1 <= r < i
    ensures r >= 0 ==> region[r].role.Assistant? && HasCall(region[r], id)
  {
    if i == 0 then -1
    else if region[i - 1].role.Assistant? && HasCall(region[i - 1], id) then i - 1
    else FindToolCaller(region, i - 1, id)
  }

  method SearchToolCaller(region: Log, toolIndex: nat, id: string) returns (r: int)
    requires toolIndex <= |region|
    ensures r == FindToolCaller(region, toolIndex, id)
  {
    var i := toolIndex - 1;
    while i >= 0
      invariant -1 <= i < toolIndex
      invariant FindToolCaller(region, i + 1, id) == FindToolCaller(region, toolIndex, id)
    {
      if region[i].role.Assistant? {
        var calls := region[i].calls;
        for k := 0 to |calls|
          invariant forall l :: 0 <= l < k ==> calls[l].id != id
        {
          if calls[k].id == id {
            return i;
          }
        }
      }
      i := i - 1;
    }
    return -1;
  }

  predicate ToolRun(region: Log, from: nat, to: nat)
    requires to < |region|
  {
    forall k :: from <= k <= to ==> region[k].role.Tool?
  }

  /** Message j belongs to what keeping assistant turn a drags along. */
  predicate DraggedBy(region: Log, a: nat, j: nat)
    requires a < |region| && j < |region|
  {
    Opens(region[a]) != [] &&
    (j == a || (a < j && ToolRun(region, a + 1, j) && HasCall(region[a], region[j].toolCallId)))
  }

  function KeepGroup(region: Log, keep: seq<bool>, a: nat): (r: seq<bool>)
    requires |keep| == |region| && a < |region|
    ensures |r| == |keep|
  {
    seq(|keep|, j requires 0 <= j < |keep| => keep[j] || DraggedBy(region, a, j))
  }

  method KeepToolCallGroup(region: Log, keep: array<bool>, a: nat)
    requires keep.Length == |region| && a < |region|
    modifies keep
    ensures keep[..] == KeepGroup(region, old(keep[..]), a)
  {
    if !region[a].role.Assistant? || region[a].calls == [] {
      return;
    }
    keep[a] := true;
    var j := a + 1;
    while j < |region| && region[j].role.Tool?
      invariant a < j <= |region|
      invariant forall k :: a < k < j ==> region[k].role.Tool?
      invariant forall k :: 0 <= k < |region| ==>
                  keep[k] == (old(keep[k]) || (k < j && DraggedBy(region, a, k)))
    {
      if HasCall(region[a], region[j].toolCallId) {
        keep[j] := true;
      }
      j := j + 1;
    }
    forall k | j <= k < |region| ensures !DraggedBy(region, a, k) {
      assert !region[j].role.Tool?;
    }
  }

  function MarkOne(region: Log, keep: seq<bool>, i: nat): (r: seq<bool>)
    requires |keep| == |region| && i < |region|
    ensures |r| == |keep|
  {
    if !keep[i] then keep
    else if region[i].role.Tool? then
      var j := FindToolCaller(region, i, region[i].toolCallId);
      if j >= 0 then KeepGroup(region, keep, j) else keep
    else if region[i].role.Assistant? then KeepGroup(region, keep, i)
    else keep
  }

  function MarkFrom(region: Log, keep: seq<bool>, i: nat): (r: seq<bool>)
    requires |keep| == |region| && i <= |region|
    ensures |r| == |keep|
    decreases |region| - i
  {
    if i == |region| then keep else MarkFrom(region, MarkOne(region, keep, i), i + 1)
  }

  function PolicyFlags(p: Policy, region: Log): (keep: seq<bool>)
    ensures |keep| == |region|
  {
    MarkFrom(region, OwnFlags(p, region), 0)
  }

  method KeepIndexes(p: Policy, region: Log) returns (flags: seq<bool>)
    ensures flags == PolicyFlags(p, region)
  {
    hide IsDigest, ShouldKeep;
    var keep := new bool[|region|](_ => false);
    var policyStart := 0;
    for i := 0 to |region|
      invariant policyStart == PolicyStart(region, i)
    {
      if IsDigest(region[i]) {
        policyStart := i + 1;
      }
    }
    for i := 0 to |region|
      invariant forall k :: 0 <= k < |region| ==> keep[k] == (k < i && OwnKeep(p, region, k))
    {
      if i >= policyStart && ShouldKeep(p, region[i]) {
        keep[i] := true;
      }
    }
    assert keep[..] == OwnFlags(p, region);
    hide OwnFlags, OwnKeep, PolicyStart, IsDigest, ShouldKeep, FindToolCaller, KeepGroup, DraggedBy;
    for i := 0 to |region|
      invariant MarkFrom(region, keep[..], i) == PolicyFlags(p, region)
    {
      ghost var before := keep[..];
      if keep[i] {
        if region[i].role.Tool? {
          var j := SearchToolCaller(region, i, region[i].toolCallId);
          if j >= 0 {
            KeepToolCallGroup(region, keep, j);
          }
        } else if region[i].role.Assistant? {
          KeepToolCallGroup(region, keep, i);
        }
      }
      assert keep[..] == MarkOne(region, before, i);
    }
    flags := keep[..];
  }

  // ----- the partition -----

  function PartitionFlags(p: Policy, log: Log, region: Log): (keep: seq<bool>)
    ensures |keep| == |region|
  {
    var policy := PolicyFlags(p, region);
    seq(|region|, i requires 0 <= i < |region| =>
      policy[i] || IsDigest(region[i]) || PinnableUserTurn(p, log, region[i]))
  }

  method PartitionFold(p: Policy, log: Log, region: Log) returns (kept: Log, fold: Log)
    ensures kept == Select(region, PartitionFlags(p, log, region))
    ensures fold == Select(region, Complement(PartitionFlags(p, log, region)))
  {
    var policyKeep := KeepIndexes(p, region);
    ghost var flags := PartitionFlags(p, log, region);
    kept, fold := [], [];
    for i := 0 to |region|
      invariant kept == Select(region[..i], flags[..i])
      invariant fold == Select(region[..i], Complement(flags)[..i])
    {
      var m := region[i];
      assert region[..i + 1] == region[..i] + [m] && flags[..i + 1] == flags[..i] + [flags[i]];
      assert Complement(flags)[..i + 1] == Complement(flags)[..i] + [!flags[i]];
      SelectAppend(region[..i], flags[..i], m, flags[i]);
      SelectAppend(region[..i], Complement(flags)[..i], m, !flags[i]);
      if policyKeep[i] || IsDigest(m) || (m.role.User? && Pinnable(p, log, m)) {
        kept := kept + [m];
      } else {
        fold := fold + [m];
      }
    }
    assert region[..|region|] == region && flags[..|region|] == flags;
    assert Complement(flags)[..|region|] == Complement(flags);
  }

  // ----- one pass -----

  function EstimateTokens(estimate: Message -> nat, msgs: Log): nat {
    if msgs == [] then 0 else estimate(msgs[0]) + EstimateTokens(estimate, msgs[1..])
  }

  /** What the pass is given: the force flag, the archive's and the summarizer's outcome
      (None when no summary could be produced). */
  datatype Pass = Pass(policy: Policy, force: bool, archive: Archive, summary: Option<string>)

  datatype Outcome = Skipped | ArchiveFailed | Folded(digest: Message)

  function Region(p: Policy, log: Log): Log {
    log[PinnedPrefixLen(p, log)..PlannedStart(p, log)]
  }

  /** The flags of the region, true for what stays verbatim. */
  function RegionFlags(p: Policy, log: Log): (keep: seq<bool>)
    ensures |keep| == |Region(p, log)|
  {
    PartitionFlags(p, log, Region(p, log))
  }

  function FoldPart(p: Policy, log: Log): Log {
    Select(Region(p, log), Complement(RegionFlags(p, log)))
  }

  function PassOutcome(e: Pass, log: Log): Outcome {
    var p := e.policy;
    var fold := FoldPart(p, log);
    if !PlanOk(p, log, MIN_COMPACT_MESSAGES) && !PlanOk(p, log, 1) then Skipped
    else if fold == [] then Skipped
    else if !e.force && EstimateTokens(p.estimate, fold) < MIN_FOLD_TOKENS then Skipped
    else if p.archives && e.archive.WriteFailed? then ArchiveFailed
    else
      var archived := if p.archives then e.archive.path else "";
      Folded(Digest(p.digestBody(if e.summary.Some? then e.summary.value else p.mechanicalDigest(|fold|, archived))))
  }

  /** The log after one pass. */
  function CompactLog(e: Pass, log: Log): Log {
    match PassOutcome(e, log)
    case Folded(digest) =>
      var p := e.policy;
      log[..PinnedPrefixLen(p, log)] + Select(Region(p, log), RegionFlags(p, log)) + [digest] +
      log[PlannedStart(p, log)..]
    case _ => log
  }

  method FoldEconomics(estimate: Message -> nat, fold: Log) returns (worth: bool)
    ensures worth == (EstimateTokens(estimate, fold) >= MIN_FOLD_TOKENS)
  {
    var total := 0;
    for i := 0 to |fold|
      invariant total + EstimateTokens(estimate, fold[i..]) == EstimateTokens(estimate, fold)
    {
      assert fold[i..][1..] == fold[i + 1..];
      total := total + estimate(fold[i]);
    }
    worth := total >= MIN_FOLD_TOKENS;
  }

  /** compact: replaces the session's log in place; the result is the archive error. */
  method Compact(e: Pass, session: Session) returns (archiveError: bool)
    modifies session`messages, session`version, session`rewriteVersion
    ensures session.messages == CompactLog(e, old(session.messages))
    ensures archiveError == PassOutcome(e, old(session.messages)).ArchiveFailed?
    ensures session.rewriteVersion ==
            old(session.rewriteVersion) + if PassOutcome(e, old(session.messages)).Folded? then 1 else 0
    ensures session.version ==
            old(session.version) + if PassOutcome(e, old(session.messages)).Folded? then 2 else 0
  {
    hide PlanOk, PartitionFlags, Select, EstimateTokens, Complement;
    var p := e.policy;
    var msgs := session.messages;
    var head, start, ok := PlanCompaction(p, msgs, MIN_COMPACT_MESSAGES);
    if !ok {
      head, start, ok := PlanCompaction(p, msgs, 1);
    }
    if !ok {
      return false;
    }
    var kept, fold := PartitionFold(p, msgs, msgs[head..start]);
    if |fold| == 0 {
      return false;
    }
    var worth := FoldEconomics(p.estimate, fold);
    if !e.force && !worth {
      return false;
    }
    var archived := "";
    if p.archives {
      if e.archive.WriteFailed? {
        return true;
      }
      archived := e.archive.path;
    }
    var digest :=
      Digest(p.digestBody(if e.summary.Some? then e.summary.value else p.mechanicalDigest(|fold|, archived)));
    assert PassOutcome(e, msgs) == Folded(digest);
    session.Replace(msgs[..head] + kept + [digest] + msgs[start..]);
    session.IncrementRewrite();
    archiveError := false;
  }
}
