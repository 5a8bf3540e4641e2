/** What compaction preserves: pairing on every pass, and over any run of passes the order of
    what is kept, the system prompt, every digest and every pinnable user turn. */
module CompactionTheory {
  import opened Text
  import opened Conversation
  import opened Compaction

  // ----- kept messages come in whole call groups -----

  /** Message i is kept by the policy itself or shares a call group with one that is. */
  ghost predicate GroupKept(p: Policy, region: Log, i: nat)
    requires i < |region|
  {
    OwnKeep(p, region, i) ||
    exists a: nat, j: nat :: InGroup(region, a, i) && InGroup(region, a, j) && OwnKeep(p, region, j)
  }

  /** Keeping an assistant turn drags along exactly its own results. */
  lemma DragsItsGroup(region: Log, a: nat, j: nat)
    requires Paired(region) && a < |region| && j < |region|
    ensures DraggedBy(region, a, j) <==> InGroup(region, a, j)
  {
    GroupMembers(region);
    if InGroup(region, a, j) {
      forall k | a + 1 <= k <= j ensures region[k].role.Tool? {
        assert InGroup(region, a, k);
      }
      if j > a {
        assert region[a].calls[j - a - 1].id == region[j].toolCallId;
      }
    }
    if DraggedBy(region, a, j) && j > a {
      DraggedIsGrouped(region, a, j);
    }
  }

  lemma DraggedIsGrouped(region: Log, a: nat, j: nat)
    requires Paired(region) && a < j < |region| && DraggedBy(region, a, j)
    ensures InGroup(region, a, j)
  {
    PairedMeaning(region);
    assert !Stray(region, j);
    var b :| 0 <= b < j && InGroup(region, b, j);
    if b < a {
      GroupHeadAlone(region, b, a);
    }
    assert b <= a;
  }

  /** The caller found for a tool result is the assistant turn of its own group. */
  lemma {:induction false} CallerIsGroupHead(region: Log, a: nat, i: nat, upTo: nat)
    requires Paired(region) && InGroup(region, a, i) && a < upTo <= i
    ensures FindToolCaller(region, upTo, region[i].toolCallId) == a
    decreases upTo
  {
    PairedMeaning(region);
    if upTo - 1 == a {
      assert Answered(region, a, i - a - 1);
      assert region[a].calls[i - a - 1].id == region[i].toolCallId;
    } else {
      assert Answered(region, a, upTo - 1 - a - 1);
      CallerIsGroupHead(region, a, i, upTo - 1);
    }
  }

  /** Flags of the marking loop at index i: only group-kept messages are flagged, every own
      keep is, and below i a flagged message has its whole group flagged. */
  ghost predicate Marking(p: Policy, region: Log, keep: seq<bool>, i: nat) {
    |keep| == |region| &&
    (forall j: nat :: j < |region| && keep[j] ==> GroupKept(p, region, j)) &&
    (forall j: nat :: j < |region| && OwnKeep(p, region, j) ==> keep[j]) &&
    (forall a: nat, j: nat, l: nat :: InGroup(region, a, j) && InGroup(region, a, l) && keep[j] && j < i ==> keep[l])
  }

  lemma MarkGroup(p: Policy, region: Log, keep: seq<bool>, i: nat, a: nat)
    requires Paired(region) && Marking(p, region, keep, i) && i < |region|
    requires keep[i] && InGroup(region, a, i)
    ensures Marking(p, region, KeepGroup(region, keep, a), i + 1)
  {
    GroupUnique(region);
    var next := KeepGroup(region, keep, a);
    forall j: nat | j < |region| ensures next[j] == (keep[j] || InGroup(region, a, j)) {
      DragsItsGroup(region, a, j);
    }
    forall j: nat | j < |region| && next[j] ensures GroupKept(p, region, j) {
      if !keep[j] {
        assert GroupKept(p, region, i);
        if !OwnKeep(p, region, i) {
          var b: nat, l: nat :| InGroup(region, b, i) && InGroup(region, b, l) && OwnKeep(p, region, l);
          assert a == b;
        }
      }
    }
    forall b: nat, j: nat, l: nat | InGroup(region, b, j) && InGroup(region, b, l) && next[j] && j < i + 1
      ensures next[l]
    {
      assert InGroup(region, a, j) ==> a == b;
    }
  }

  lemma MarkStep(p: Policy, region: Log, keep: seq<bool>, i: nat)
    requires Paired(region) && Marking(p, region, keep, i) && i < |region|
    ensures Marking(p, region, MarkOne(region, keep, i), i + 1)
  {
    PairedMeaning(region);
    GroupMembers(region);
    if keep[i] && region[i].role.Tool? {
      assert !Stray(region, i);
      var a :| 0 <= a < i && InGroup(region, a, i);
      CallerIsGroupHead(region, a, i, i);
      MarkGroup(p, region, keep, i, a);
    } else if keep[i] && region[i].role.Assistant? {
      if Opens(region[i]) == [] {
        assert KeepGroup(region, keep, i) == keep;
      } else {
        assert InGroup(region, i, i);
        MarkGroup(p, region, keep, i, i);
      }
    }
  }

  lemma {:induction false} MarkRest(p: Policy, region: Log, keep: seq<bool>, i: nat)
    requires Paired(region) && Marking(p, region, keep, i) && i <= |region|
    ensures Marking(p, region, MarkFrom(region, keep, i), |region|)
    decreases |region| - i
  {
    if i < |region| {
      MarkStep(p, region, keep, i);
      MarkRest(p, region, MarkOne(region, keep, i), i + 1);
    }
  }

  /** On a paired region the in-place marking flags exactly the own keeps and the call
      groups they belong to. */
  lemma PolicyFlagsMeaning(p: Policy, region: Log)
    requires Paired(region)
    ensures forall i: nat :: i < |region| ==> (PolicyFlags(p, region)[i] <==> GroupKept(p, region, i))
    ensures GroupClosed(region, PolicyFlags(p, region))
  {
    MarkRest(p, region, OwnFlags(p, region), 0);
    var keep := PolicyFlags(p, region);
    forall i: nat | i < |region| && GroupKept(p, region, i) ensures keep[i] {
      if !OwnKeep(p, region, i) {
        var a: nat, j: nat :| InGroup(region, a, i) && InGroup(region, a, j) && OwnKeep(p, region, j);
        assert keep[j];
      }
    }
    forall a: nat, j: nat | InGroup(region, a, j) ensures keep[j] == keep[a] {
      assert InGroup(region, a, a);
    }
  }

  lemma PartitionClosed(p: Policy, log: Log, region: Log)
    requires Paired(region)
    ensures GroupClosed(region, PartitionFlags(p, log, region))
    ensures GroupClosed(region, Complement(PartitionFlags(p, log, region)))
  {
    PolicyFlagsMeaning(p, region);
    PairedMeaning(region);
    var flags := PartitionFlags(p, log, region);
    forall a: nat, j: nat | InGroup(region, a, j) ensures flags[j] == flags[a] {
      assert j > a ==> Answered(region, a, j - a - 1);
      assert PolicyFlags(p, region)[j] == PolicyFlags(p, region)[a];
    }
  }

  lemma DigestIsDigest(body: string)
    ensures IsDigest(Digest(body)) && Paired([Digest(body)])
  {
    var s := SUMMARY_OPEN + body;
    assert s[0] == '<';
    assert TrimLeftSet(s, {'\n', ' '}) == s;
    var d := [Digest(body)];
    assert d[1..] == [];
    assert ScanOne(BALANCED, d[0]) == Expect(CallIds([])) == BALANCED;
  }

  /** Compaction keeps every call next to its results, whatever the costs, the keep policy,
      the archive and the summarizer do; what it folds away is whole call groups too. */
  lemma CompactKeepsPairing(e: Pass, log: Log)
    requires Paired(log)
    ensures Paired(CompactLog(e, log))
    ensures Paired(FoldPart(e.policy, log))
  {
    var p := e.policy;
    var head, start := PinnedPrefixLen(p, log), PlannedStart(p, log);
    PlanCutsBetweenGroups(p, log);
    var region, flags := Region(p, log), RegionFlags(p, log);
    PartitionClosed(p, log, region);
    SelectPaired(region, flags);
    SelectPaired(region, Complement(flags));
    match PassOutcome(e, log)
    case Folded(digest) =>
      FoldedDigest(e, log);
      var kept := Select(region, flags);
      PairedConcat(log[..head], kept);
      PairedConcat(log[..head] + kept, [digest]);
      PairedConcat(log[..head] + kept + [digest], log[start..]);
    case _ =>
  }

  // ----- where each message of the new log comes from -----

  /** Old positions of the selected messages, base being the position of the first flag. */
  function SelectedAt(keep: seq<bool>, base: int): seq<int> {
    if keep == [] then []
    else (if keep[0] then [base] else []) + SelectedAt(keep[1..], base + 1)
  }

  ghost predicate Picks(log: Log, keep: seq<bool>, base: int, at: seq<int>, picked: Log)
    requires |keep| == |log|
  {
    |at| == |picked| &&
    (forall i ::
      0 <= i < |at| ==> 0 <= at[i] - base < |keep| && keep[at[i] - base] && picked[i] == log[at[i] - base]) &&
    (forall i, j :: 0 <= i < j < |at| ==> at[i] < at[j])
  }

  lemma {:induction false} SelectedAtPicks(log: Log, keep: seq<bool>, base: int)
    requires |keep| == |log|
    ensures Picks(log, keep, base, SelectedAt(keep, base), Select(log, keep))
    decreases |log|
  {
    if keep != [] {
      SelectedAtPicks(log[1..], keep[1..], base + 1);
      PicksCons(log, keep, base, SelectedAt(keep[1..], base + 1), Select(log[1..], keep[1..]));
    }
  }

  lemma PicksCons(log: Log, keep: seq<bool>, base: int, at: seq<int>, picked: Log)
    requires |keep| == |log| > 0 && Picks(log[1..], keep[1..], base + 1, at, picked)
    ensures Picks(log, keep, base, (if keep[0] then [base] else []) + at, (if keep[0] then [log[0]] else []) + picked)
  {
    forall i | 0 <= i < |at| ensures keep[at[i] - base] && picked[i] == log[at[i] - base] && base < at[i] {
      var k := at[i] - (base + 1);
      assert keep[1..][k] == keep[k + 1] && log[1..][k] == log[k + 1];
    }
  }

  lemma {:induction false} SelectedAtCovers(keep: seq<bool>, base: int, k: nat)
    requires k < |keep| && keep[k]
    ensures base + k in SelectedAt(keep, base)
    decreases |keep|
  {
    if k > 0 {
      SelectedAtCovers(keep[1..], base + 1, k - 1);
    }
  }

  function Positions(from: int, to: int): (r: seq<int>)
    requires from <= to
    ensures |r| == to - from && forall i :: 0 <= i < |r| ==> r[i] == from + i
  {
    seq(to - from, i => from + i)
  }

  /** Old position of each message of the compacted log, -1 for the new digest. */
  function PassSource(e: Pass, log: Log): seq<int> {
    if PassOutcome(e, log).Folded? then
      var p := e.policy;
      AssembledSource(|log|, PinnedPrefixLen(p, log), PlannedStart(p, log), RegionFlags(p, log))
    else Positions(0, |log|)
  }

  /** new is old with some messages dropped and digests put in, the rest in the old order. */
  ghost predicate Derives(old_: Log, new_: Log, src: seq<int>) {
    |src| == |new_| &&
    (forall i :: 0 <= i < |src| ==> -1 <= src[i] < |old_|) &&
    (forall i, j :: 0 <= i < j < |src| && src[i] >= 0 && src[j] >= 0 ==> src[i] < src[j]) &&
    (forall i :: 0 <= i < |src| ==> if src[i] >= 0 then new_[i] == old_[src[i]] else IsDigest(new_[i]))
  }

  function AssembledSource(n: int, head: int, start: int, keep: seq<bool>): seq<int>
    requires 0 <= head <= start <= n
  {
    Positions(0, head) + SelectedAt(keep, head) + [-1] + Positions(start, n)
  }

  ghost predicate KeepsExactly(n: int, head: int, start: int, keep: seq<bool>, src: seq<int>)
    requires |keep| == start - head
  {
    var d := |src| - 1 - (n - start);
    0 <= d < |src| && src[d] == -1 && (forall i :: 0 <= i < |src| && src[i] == -1 ==> i == d) &&
    forall k :: 0 <= k < n ==> (k in src <==> !(head <= k < start) || keep[k - head])
  }

  ghost predicate Below(src: seq<int>, cut: int) {
    forall i :: 0 <= i < |src| ==> src[i] < cut
  }

  lemma DerivesConcat(old_: Log, a: Log, sa: seq<int>, b: Log, sb: seq<int>, cut: int, top: int)
    requires Derives(old_, a, sa) && Below(sa, cut)
    requires Derives(old_, b, sb) && Below(sb, top)
    requires forall i :: 0 <= i < |sb| ==> sb[i] < 0 || cut <= sb[i]
    requires cut <= top
    ensures Derives(old_, a + b, sa + sb) && Below(sa + sb, top)
  {
  }

  lemma DerivesSlice(log: Log, from: nat, to: nat)
    requires from <= to <= |log|
    ensures Derives(log, log[from..to], Positions(from, to))
  {
  }

  lemma DerivesDigest(log: Log, digest: Message)
    requires IsDigest(digest)
    ensures Derives(log, [digest], [-1])
  {
  }

  lemma DerivesSelected(log: Log, head: nat, start: nat, keep: seq<bool>)
    requires head <= start <= |log| && |keep| == start - head
    ensures Derives(log, Select(log[head..start], keep), SelectedAt(keep, head))
    ensures forall i :: 0 <= i < |SelectedAt(keep, head)| ==> head <= SelectedAt(keep, head)[i] < start
  {
    SelectedAtPicks(log[head..start], keep, head);
    var at := SelectedAt(keep, head);
    forall i | 0 <= i < |at| ensures log[head..start][at[i] - head] == log[at[i]] {
    }
  }

  lemma AssembledDerives(log: Log, head: nat, start: nat, keep: seq<bool>, digest: Message)
    requires head <= start <= |log| && |keep| == start - head && IsDigest(digest)
    ensures Derives(log, log[..head] + Select(log[head..start], keep) + [digest] + log[start..],
                    AssembledSource(|log|, head, start, keep))
  {
    hide Derives, Positions, SelectedAt, Select;
    var a, b, c, t := Positions(0, head), SelectedAt(keep, head), [-1], Positions(start, |log|);
    var la, lb, lc, lt := log[..head], Select(log[head..start], keep), [digest], log[start..];
    DerivesSlice(log, 0, head);
    DerivesSelected(log, head, start, keep);
    DerivesSlice(log, start, |log|);
    DerivesDigest(log, digest);
    assert log[0..head] == la && log[start..|log|] == lt;
    DerivesConcat(log, la, a, lb, b, head, start);
    DerivesConcat(log, la + lb, a + b, lc, c, start, start);
    DerivesConcat(log, la + lb + lc, a + b + c, lt, t, start, |log|);
  }

  lemma AssembledKeepsExactly(log: Log, head: nat, start: nat, keep: seq<bool>)
    requires head <= start <= |log| && |keep| == start - head
    ensures KeepsExactly(|log|, head, start, keep, AssembledSource(|log|, head, start, keep))
  {
    DerivesSelected(log, head, start, keep);
    hide SelectedAt;
    var a, b, c, t := Positions(0, head), SelectedAt(keep, head), [-1], Positions(start, |log|);
    var src := AssembledSource(|log|, head, start, keep);
    assert src == a + b + c + t;
    SelectedPositions(log, head, start, keep);
    forall k | 0 <= k < |log| ensures k in src <==> !(head <= k < start) || keep[k - head] {
      assert k in src <==> k in a || k in b || k in t;
      assert k < head ==> a[k] == k;
      assert k >= start ==> t[k - start] == k;
    }
  }

  lemma SelectedPositions(log: Log, head: nat, start: nat, keep: seq<bool>)
    requires head <= start <= |log| && |keep| == start - head
    ensures forall k :: k in SelectedAt(keep, head) <==> head <= k < start && keep[k - head]
  {
    SelectedAtPicks(log[head..start], keep, head);
    forall k | head <= k < start && keep[k - head] ensures k in SelectedAt(keep, head) {
      SelectedAtCovers(keep, head, k - head);
    }
  }

  lemma FoldedDigest(e: Pass, log: Log)
    requires PassOutcome(e, log).Folded?
    ensures IsDigest(PassOutcome(e, log).digest) && Paired([PassOutcome(e, log).digest])
  {
    var p := e.policy;
    var archived := if p.archives then e.archive.path else "";
    var body := if e.summary.Some? then e.summary.value else p.mechanicalDigest(|FoldPart(p, log)|, archived);
    DigestIsDigest(p.digestBody(body));
  }

  /** An effective pass drops exactly the fold part and adds exactly one digest, directly in
      front of the verbatim tail. */
  lemma PassDerives(e: Pass, log: Log)
    ensures Derives(log, CompactLog(e, log), PassSource(e, log))
    ensures PassOutcome(e, log).Folded? ==>
      KeepsExactly(|log|, PinnedPrefixLen(e.policy, log), PlannedStart(e.policy, log),
                   RegionFlags(e.policy, log), PassSource(e, log))
  {
    if PassOutcome(e, log).Folded? {
      var p := e.policy;
      FoldedDigest(e, log);
      var head, start, flags := PinnedPrefixLen(p, log), PlannedStart(p, log), RegionFlags(p, log);
      AssembledDerives(log, head, start, flags, PassOutcome(e, log).digest);
      AssembledKeepsExactly(log, head, start, flags);
    }
  }

  // ----- runs of passes -----

  function RunPasses(log: Log, passes: seq<Pass>): Log
    decreases |passes|
  {
    if passes == [] then log else RunPasses(CompactLog(passes[0], log), passes[1..])
  }

  function Through(first: seq<int>, then_: seq<int>): seq<int>
    requires forall i :: 0 <= i < |then_| ==> then_[i] < |first|
  {
    seq(|then_|, i requires 0 <= i < |then_| => if then_[i] < 0 then -1 else first[then_[i]])
  }

  function RunSource(log: Log, passes: seq<Pass>): (src: seq<int>)
    ensures forall i :: 0 <= i < |src| ==> src[i] < |log|
    decreases |passes|
  {
    if passes == [] then Positions(0, |log|)
    else
      PassDerives(passes[0], log);
      Through(PassSource(passes[0], log), RunSource(CompactLog(passes[0], log), passes[1..]))
  }

  /** How many passes of the run folded something. */
  function Effective(log: Log, passes: seq<Pass>): nat
    decreases |passes|
  {
    if passes == [] then 0
    else (if PassOutcome(passes[0], log).Folded? then 1 else 0) + Effective(CompactLog(passes[0], log), passes[1..])
  }

  function CountNew(src: seq<int>): nat {
    if src == [] then 0 else (if src[0] < 0 then 1 else 0) + CountNew(src[1..])
  }

  /** m stays small enough to pin at every pass of the run. */
  predicate PinnableThroughout(log: Log, passes: seq<Pass>, m: Message)
    decreases |passes|
  {
    passes == [] ||
    (Pinnable(passes[0].policy, log, m) && PinnableThroughout(CompactLog(passes[0], log), passes[1..], m))
  }

  /** A message no pass of the run may drop. */
  predicate Protected(log: Log, passes: seq<Pass>, m: Message) {
    IsDigest(m) || (m.role.User? && PinnableThroughout(log, passes, m))
  }

  lemma {:induction false} CountThrough(first: seq<int>, then_: seq<int>, d: int)
    requires forall i :: 0 <= i < |then_| ==> then_[i] < |first|
    requires forall k :: 0 <= k < |first| ==> (first[k] < 0 <==> k == d)
    requires forall i, j :: 0 <= i < j < |then_| && then_[i] >= 0 ==> then_[i] != then_[j]
    ensures CountNew(Through(first, then_)) == CountNew(then_) + if d in then_ && 0 <= d then 1 else 0
  {
    if then_ != [] {
      assert Through(first, then_)[1..] == Through(first, then_[1..]);
      CountThrough(first, then_[1..], d);
      assert d in then_ <==> then_[0] == d || d in then_[1..];
      if then_[0] == d && d >= 0 {
        assert d !in then_[1..];
      }
    }
  }

  lemma ThroughDerives(log: Log, mid: Log, final: Log, first: seq<int>, then_: seq<int>)
    requires Derives(log, mid, first) && Derives(mid, final, then_)
    requires forall k :: 0 <= k < |mid| && IsDigest(mid[k]) ==> k in then_
    ensures Derives(log, final, Through(first, then_))
  {
    var src := Through(first, then_);
    forall i, j | 0 <= i < j < |src| && src[i] >= 0 && src[j] >= 0 ensures src[i] < src[j] {
      assert then_[i] < then_[j];
    }
  }

  lemma ThroughReaches(first: seq<int>, then_: seq<int>, i: nat)
    requires forall i :: 0 <= i < |then_| ==> then_[i] < |first|
    requires i < |first| && i in then_
    ensures first[i] in Through(first, then_)
  {
    var j :| 0 <= j < |then_| && then_[j] == i;
    assert Through(first, then_)[j] == first[i];
  }

  /** Over any run of passes: the log is the old one with messages dropped and digests added,
      the rest in order; one digest is added per effective pass; no digest and no user turn
      that stays pinnable is ever dropped. */
  lemma {:induction false} RunKeeps(log: Log, passes: seq<Pass>)
    ensures Derives(log, RunPasses(log, passes), RunSource(log, passes))
    ensures CountNew(RunSource(log, passes)) == Effective(log, passes)
    ensures forall k :: 0 <= k < |log| && Protected(log, passes, log[k]) ==> k in RunSource(log, passes)
    decreases |passes|
  {
    hide CompactLog, PassOutcome, PassSource, KeepsExactly;
    if passes == [] {
      var same := Positions(0, |log|);
      CountNone(same);
      forall k | 0 <= k < |log| ensures k in same {
        assert same[k] == k;
      }
    } else {
      var e, rest := passes[0], passes[1..];
      var mid := CompactLog(e, log);
      PassDerives(e, log);
      RunKeeps(mid, rest);
      var first, then_ := PassSource(e, log), RunSource(mid, rest);
      ThroughDerives(log, mid, RunPasses(mid, rest), first, then_);
      PassAddsOne(e, log);
      PassCount(first, then_, PassOutcome(e, log).Folded?);
      forall k | 0 <= k < |log| && Protected(log, passes, log[k]) ensures k in Through(first, then_) {
        PassKeepsProtected(e, log, k);
        var i :| 0 <= i < |first| && first[i] == k;
        assert Protected(mid, rest, mid[i]);
        ThroughReaches(first, then_, i);
      }
    }
  }

  lemma PassCount(first: seq<int>, then_: seq<int>, folded: bool)
    requires Below(then_, |first|)
    requires forall i, j :: 0 <= i < j < |then_| && then_[i] >= 0 && then_[j] >= 0 ==> then_[i] < then_[j]
    requires forall k :: 0 <= k < |first| && first[k] < 0 ==> k in then_
    requires folded <==> exists d :: 0 <= d < |first| && first[d] < 0
    requires forall k, l :: 0 <= k < |first| && 0 <= l < |first| && first[k] < 0 && first[l] < 0 ==> k == l
    ensures CountNew(Through(first, then_)) == CountNew(then_) + if folded then 1 else 0
  {
    if folded {
      var d :| 0 <= d < |first| && first[d] < 0;
      CountThrough(first, then_, d);
    } else {
      CountThrough(first, then_, -1);
    }
  }

  lemma PassAddsOne(e: Pass, log: Log)
    ensures var src := PassSource(e, log);
      (PassOutcome(e, log).Folded? <==> exists d :: 0 <= d < |src| && src[d] < 0) &&
      forall k, l :: 0 <= k < |src| && 0 <= l < |src| && src[k] < 0 && src[l] < 0 ==> k == l
  {
    PassDerives(e, log);
  }

  lemma {:induction false} CountNone(src: seq<int>)
    requires forall i :: 0 <= i < |src| ==> src[i] >= 0
    ensures CountNew(src) == 0
  {
    if src != [] {
      CountNone(src[1..]);
    }
  }

  /** One pass drops neither a digest nor a pinnable user turn. */
  lemma PassKeepsProtected(e: Pass, log: Log, k: nat)
    requires k < |log| && (IsDigest(log[k]) || PinnableUserTurn(e.policy, log, log[k]))
    ensures k in PassSource(e, log)
  {
    hide PassOutcome, PassSource, PinnedPrefixLen, PlannedStart, PolicyFlags, IsDigest;
    PassDerives(e, log);
    var p := e.policy;
    var head, start := PinnedPrefixLen(p, log), PlannedStart(p, log);
    if PassOutcome(e, log).Folded? {
      if head <= k < start {
        assert Region(p, log)[k - head] == log[k];
        assert RegionFlags(p, log)[k - head];
      }
    } else {
      UnfoldedSource(e, log);
      assert Positions(0, |log|)[k] == k;
    }
  }

  lemma UnfoldedSource(e: Pass, log: Log)
    requires !PassOutcome(e, log).Folded?
    ensures PassSource(e, log) == Positions(0, |log|)
  {
  }

  /** The system prompt is never moved or dropped. */
  lemma {:induction false} RunKeepsSystemPrompt(log: Log, passes: seq<Pass>)
    requires log != [] && log[0].role.System?
    ensures RunPasses(log, passes) != [] && RunPasses(log, passes)[0] == log[0]
    decreases |passes|
  {
    if passes != [] {
      assert CompactLog(passes[0], log)[0] == log[0];
      RunKeepsSystemPrompt(CompactLog(passes[0], log), passes[1..]);
    }
  }

  lemma {:induction false} RunKeepsPairing(log: Log, passes: seq<Pass>)
    requires Paired(log)
    ensures Paired(RunPasses(log, passes))
    decreases |passes|
  {
    if passes != [] {
      CompactKeepsPairing(passes[0], log);
      RunKeepsPairing(CompactLog(passes[0], log), passes[1..]);
    }
  }
}
