/** When a compaction pass folds, what its digest says, and where the digests of a run of passes
    end up. */
module DigestTheory {
  import opened Text
  import opened Conversation
  import opened Compaction
  import opened CompactionTheory

  // ----- one pass -----

  /** There is something to fold, and it is worth the call or forced. */
  predicate FoldDue(e: Pass, log: Log) {
    FoldPart(e.policy, log) != [] &&
    (e.force || EstimateTokens(e.policy.estimate, FoldPart(e.policy, log)) >= MIN_FOLD_TOKENS)
  }

  predicate ArchiveBroken(e: Pass) {
    e.policy.archives && e.archive.WriteFailed?
  }

  predicate Folds(e: Pass, log: Log) {
    FoldDue(e, log) && !ArchiveBroken(e)
  }

  lemma FoldNeedsRegion(p: Policy, log: Log)
    requires FoldPart(p, log) != []
    ensures PlanOk(p, log, 1)
  {
  }

  /** The message carries the summary there is, and otherwise the marker with the number of
      folded messages and their archive. */
  predicate DigestOf(e: Pass, log: Log, m: Message) {
    var p := e.policy;
    m.role.User? && m.calls == [] &&
    match e.summary
    case Some(s) => m.content == SUMMARY_OPEN + p.digestBody(s)
    case None =>
      var at := if p.archives && e.archive.Written? then e.archive.path else "";
      m.content == SUMMARY_OPEN + p.digestBody(p.mechanicalDigest(|FoldPart(p, log)|, at))
  }

  lemma OutcomeExactly(e: Pass, log: Log)
    ensures PassOutcome(e, log).Folded? <==> Folds(e, log)
    ensures PassOutcome(e, log).ArchiveFailed? <==> FoldDue(e, log) && ArchiveBroken(e)
    ensures Folds(e, log) ==> DigestOf(e, log, PassOutcome(e, log).digest)
  {
    hide FoldPart, EstimateTokens, PlanOk;
    if FoldPart(e.policy, log) != [] {
      FoldNeedsRegion(e.policy, log);
    }
  }

  function DigestCount(log: Log): nat {
    if log == [] then 0 else (if IsDigest(log[0]) then 1 else 0) + DigestCount(log[1..])
  }

  lemma {:induction false} DigestCountConcat(a: Log, b: Log)
    ensures DigestCount(a + b) == DigestCount(a) + DigestCount(b)
  {
    hide IsDigest;
    if a == [] {
      assert a + b == b;
    } else {
      assert (a + b)[1..] == a[1..] + b;
      DigestCountConcat(a[1..], b);
    }
  }

  lemma {:induction false} DigestCountSelect(log: Log, keep: seq<bool>)
    requires |keep| == |log| && forall i :: 0 <= i < |log| && IsDigest(log[i]) ==> keep[i]
    ensures DigestCount(Select(log, keep)) == DigestCount(log)
  {
    hide IsDigest;
    if log != [] {
      DigestCountSelect(log[1..], keep[1..]);
      var head := if keep[0] then [log[0]] else [];
      DigestCountConcat(head, Select(log[1..], keep[1..]));
      assert head != [] ==> head[1..] == [];
    }
  }

  lemma DigestAlone(digest: Message)
    requires IsDigest(digest)
    ensures DigestCount([digest]) == 1
  {
    hide IsDigest;
    assert [digest][1..] == [];
  }

  lemma DigestCountAssembled(a: Log, b: Log, kept: Log, digest: Message, c: Log)
    requires DigestCount(kept) == DigestCount(b) && IsDigest(digest)
    ensures DigestCount(a + kept + [digest] + c) == DigestCount(a + b + c) + 1
  {
    hide IsDigest, DigestCount;
    DigestAlone(digest);
    DigestCountConcat(a + kept + [digest], c);
    DigestCountConcat(a + kept, [digest]);
    DigestCountConcat(a, kept);
    DigestCountConcat(a + b, c);
    DigestCountConcat(a, b);
  }

  /** A pass folds exactly if the foldable part is not empty, is forced or reaches 400 tokens, and
      no archive fails; then the log has one more digest, and otherwise it stays. */
  lemma PassFoldsExactly(e: Pass, log: Log)
    ensures DigestCount(CompactLog(e, log)) == DigestCount(log) + if Folds(e, log) then 1 else 0
    ensures CompactLog(e, log) != log <==> Folds(e, log)
  {
    hide IsDigest, PinnedPrefixLen, PlannedStart, PolicyFlags, Folds;
    OutcomeExactly(e, log);
    if PassOutcome(e, log).Folded? {
      FoldedDigest(e, log);
      var p, digest := e.policy, PassOutcome(e, log).digest;
      var head, start := PinnedPrefixLen(p, log), PlannedStart(p, log);
      DigestCountSelect(Region(p, log), RegionFlags(p, log));
      hide PassOutcome, RegionFlags;
      var kept := Select(Region(p, log), RegionFlags(p, log));
      DigestCountAssembled(log[..head], Region(p, log), kept, digest, log[start..]);
      assert log == log[..head] + Region(p, log) + log[start..];
    }
  }

  /** Where the new digest stands, in front of the verbatim tail. */
  function DigestPlace(p: Policy, log: Log, compacted: Log): int {
    |compacted| - 1 - (|log| - PlannedStart(p, log))
  }

  /** The new message of an effective pass stands in front of the tail, and says what the summary
      says, or the marker if and only if there is none. */
  lemma PassDigestSays(e: Pass, log: Log)
    requires Folds(e, log)
    ensures var new_ := CompactLog(e, log);
      var d := DigestPlace(e.policy, log, new_);
      0 <= d < |new_| == |PassSource(e, log)| && PassSource(e, log)[d] == -1 && DigestOf(e, log, new_[d])
  {
    hide Folds, PinnedPrefixLen, PlannedStart, DigestOf, FoldPart, RegionFlags;
    OutcomeExactly(e, log);
    PassDerives(e, log);
  }

  // ----- a run of passes -----

  /** The log before pass k of the run. */
  function LogAt(log: Log, passes: seq<Pass>, k: nat): Log
    requires k <= |passes|
  {
    if k == 0 then log else CompactLog(passes[k - 1], LogAt(log, passes, k - 1))
  }

  lemma {:induction false} LogAtStep(log: Log, passes: seq<Pass>, k: nat)
    requires 0 < k <= |passes|
    ensures LogAt(log, passes, k) == LogAt(CompactLog(passes[0], log), passes[1..], k - 1)
    decreases k
  {
    hide CompactLog;
    if k > 1 {
      LogAtStep(log, passes, k - 1);
    }
  }

  lemma {:induction false} LogAtEnd(log: Log, passes: seq<Pass>)
    ensures LogAt(log, passes, |passes|) == RunPasses(log, passes)
    decreases |passes|
  {
    hide CompactLog;
    if passes != [] {
      LogAtStep(log, passes, |passes|);
      LogAtEnd(CompactLog(passes[0], log), passes[1..]);
    }
  }

  datatype Origin = FromLog(at: nat) | FromPass(k: nat)

  /** Where each message of the log before pass k comes from. */
  function OriginsAt(log: Log, passes: seq<Pass>, k: nat): (o: seq<Origin>)
    requires k <= |passes|
    ensures |o| == |LogAt(log, passes, k)|
  {
    if k == 0 then seq(|log|, i requires 0 <= i < |log| => FromLog(i))
    else
      var before, o := LogAt(log, passes, k - 1), OriginsAt(log, passes, k - 1);
      PassDerives(passes[k - 1], before);
      var src := PassSource(passes[k - 1], before);
      seq(|src|, i requires 0 <= i < |src| => if src[i] < 0 then FromPass(k - 1) else o[src[i]])
  }

  /** The message is an old one, or the digest of an effective pass of the run. */
  predicate Sourced(log: Log, passes: seq<Pass>, o: Origin, m: Message) {
    match o
    case FromLog(at) => at < |log| && m == log[at]
    case FromPass(k) =>
      k < |passes| && Folds(passes[k], LogAt(log, passes, k)) && DigestOf(passes[k], LogAt(log, passes, k), m) &&
      IsDigest(m)
  }

  /** Where no pass from k on has left a digest. */
  predicate Before(o: Origin, k: nat) {
    o.FromPass? ==> o.k < k
  }

  /** Each message of the log before pass k is an old one or the digest of an earlier effective
      pass. */
  lemma {:induction false} EachIsSourced(log: Log, passes: seq<Pass>, k: nat, i: nat)
    requires k <= |passes| && i < |LogAt(log, passes, k)|
    ensures Sourced(log, passes, OriginsAt(log, passes, k)[i], LogAt(log, passes, k)[i])
    ensures Before(OriginsAt(log, passes, k)[i], k)
    decreases k
  {
    hide Sourced, CompactLog, PassSource, KeepsExactly;
    if k > 0 {
      var e, before := passes[k - 1], LogAt(log, passes, k - 1);
      SourceSize(e, before, i);
      var from := PassSource(e, before)[i];
      if from < 0 {
        NewIsSourced(log, passes, k - 1, i);
      } else {
        EachIsSourced(log, passes, k - 1, from);
      }
    } else {
      StartIsSourced(log, passes);
    }
  }

  lemma StartIsSourced(log: Log, passes: seq<Pass>)
    ensures forall i :: 0 <= i < |log| ==> Sourced(log, passes, OriginsAt(log, passes, 0)[i], log[i])
  {
  }

  lemma NewIsSourced(log: Log, passes: seq<Pass>, k: nat, i: nat)
    requires k < |passes| && i < |PassSource(passes[k], LogAt(log, passes, k))|
    requires PassSource(passes[k], LogAt(log, passes, k))[i] < 0
    ensures i < |CompactLog(passes[k], LogAt(log, passes, k))|
    ensures Sourced(log, passes, FromPass(k), CompactLog(passes[k], LogAt(log, passes, k))[i])
  {
    hide CompactLog, PassSource, Folds, IsDigest, DigestOf, KeepsExactly;
    PassDerives(passes[k], LogAt(log, passes, k));
    SourceExactly(passes[k], LogAt(log, passes, k));
  }

  lemma SourceSize(e: Pass, log: Log, i: nat)
    requires i < |CompactLog(e, log)|
    ensures |PassSource(e, log)| == |CompactLog(e, log)| && PassSource(e, log)[i] < |log|
    ensures PassSource(e, log)[i] >= 0 ==> CompactLog(e, log)[i] == log[PassSource(e, log)[i]]
  {
    hide CompactLog, PassSource, KeepsExactly;
    PassDerives(e, log);
  }

  lemma RunSourceSize(log: Log, passes: seq<Pass>)
    ensures |RunSource(log, passes)| == |RunPasses(log, passes)|
  {
    hide RunSource, RunPasses;
    RunKeeps(log, passes);
  }

  lemma SourceExactly(e: Pass, log: Log)
    ensures var src := PassSource(e, log);
      if Folds(e, log) then
        var d := DigestPlace(e.policy, log, CompactLog(e, log));
        |src| == |CompactLog(e, log)| && 0 <= d < |src| && DigestOf(e, log, CompactLog(e, log)[d]) &&
        forall i :: 0 <= i < |src| ==> (src[i] < 0 <==> i == d)
      else forall i :: 0 <= i < |src| ==> src[i] >= 0
  {
    hide PinnedPrefixLen, PlannedStart, RegionFlags, Folds;
    OutcomeExactly(e, log);
    PassDerives(e, log);
    if Folds(e, log) {
      PassDigestSays(e, log);
    } else {
      UnfoldedSource(e, log);
    }
  }

  /** Place i alone holds the digest of pass m. */
  predicate OnlyAt(o: seq<Origin>, m: nat, i: nat) {
    i < |o| && o[i] == FromPass(m) && forall j :: 0 <= j < |o| && o[j] == FromPass(m) ==> j == i
  }

  /** The digest of every effective pass is in the log exactly once, whatever later passes do. */
  lemma {:induction false} EachDigestStays(log: Log, passes: seq<Pass>, k: nat, m: nat) returns (i: nat)
    requires m < k <= |passes| && Folds(passes[m], LogAt(log, passes, m))
    ensures OnlyAt(OriginsAt(log, passes, k), m, i)
    decreases k
  {
    hide CompactLog, PassSource, Folds, DigestPlace, OnlyAt, OriginsAt;
    var e, before, o := passes[k - 1], LogAt(log, passes, k - 1), OriginsAt(log, passes, k - 1);
    var src, next := PassSource(e, before), OriginsAt(log, passes, k);
    var d := if Folds(e, before) then DigestPlace(e.policy, before, CompactLog(e, before)) else -1;
    OriginsStepped(log, passes, k - 1, d);
    hide LogAt;
    if m == k - 1 {
      SourceExactly(e, before);
      i := d;
      NewOnly(o, src, next, m, d);
    } else {
      var j := EachDigestStays(log, passes, k - 1, m);
      i := StaysOnly(o, src, next, k - 1, d, m, j);
    }
  }

  lemma NewOnly(o: seq<Origin>, src: seq<int>, next: seq<Origin>, k: nat, d: nat)
    requires Stepped(o, src, next, k, d) && d < |src|
    ensures OnlyAt(next, k, d)
  {
  }

  lemma StaysOnly(o: seq<Origin>, src: seq<int>, next: seq<Origin>, k: nat, d: int, m: nat, j: nat) returns (i: nat)
    requires Stepped(o, src, next, k, d) && OnlyAt(o, m, j) && m != k
    ensures OnlyAt(next, m, i)
  {
    i :| 0 <= i < |src| && src[i] == j;
  }

  /** The digests stand in the order of their passes. */
  predicate InOrder(o: seq<Origin>) {
    forall i, j :: 0 <= i < j < |o| && o[i].FromPass? && o[j].FromPass? ==> o[i].k < o[j].k
  }

  /** An effective pass finds no digest of this run in the tail it leaves alone. */
  predicate TailIsOld(log: Log, passes: seq<Pass>, k: nat)
    requires k < |passes|
  {
    var before, o := LogAt(log, passes, k), OriginsAt(log, passes, k);
    Folds(passes[k], before) ==>
      forall i :: PlannedStart(passes[k].policy, before) <= i < |o| ==> o[i].FromLog?
  }

  /** The digests of a run stand in the order of its passes if and only if no effective pass
      finds an earlier digest of the run in its tail. */
  lemma {:induction false} OrderedExactly(log: Log, passes: seq<Pass>, k: nat)
    requires k <= |passes|
    ensures InOrder(OriginsAt(log, passes, k)) <==> forall m :: 0 <= m < k ==> TailIsOld(log, passes, m)
  {
    hide TailIsOld, InOrder, OriginsAt, LogAt, CompactLog;
    if k > 0 {
      OrderedExactly(log, passes, k - 1);
      OrderedStep(log, passes, k - 1);
    } else {
      StartOrdered(log, passes);
    }
  }

  lemma StartOrdered(log: Log, passes: seq<Pass>)
    ensures InOrder(OriginsAt(log, passes, 0))
  {
  }

  /** The origins after pass k: the old ones that src keeps, all of the run's digests among them,
      and the new digest at place d, if d is one. */
  ghost predicate Stepped(o: seq<Origin>, src: seq<int>, next: seq<Origin>, k: nat, d: int) {
    |next| == |src| &&
    (forall i :: 0 <= i < |src| ==> src[i] < |o| && next[i] == if src[i] < 0 then FromPass(k) else o[src[i]]) &&
    (forall i :: 0 <= i < |src| ==> (src[i] < 0 <==> i == d)) &&
    (forall i, j :: 0 <= i < j < |src| && src[i] >= 0 && src[j] >= 0 ==> src[i] < src[j]) &&
    (forall i :: 0 <= i < |o| && o[i].FromPass? ==> o[i].k < k && i in src)
  }

  lemma StaysOrdered(o: seq<Origin>, src: seq<int>, next: seq<Origin>, k: nat, d: int)
    requires Stepped(o, src, next, k, d) && InOrder(o)
    requires forall i :: d < i < |src| && 0 <= d ==> o[src[i]].FromLog?
    ensures InOrder(next)
  {
  }

  lemma WasOrdered(o: seq<Origin>, src: seq<int>, next: seq<Origin>, k: nat, d: int)
    requires Stepped(o, src, next, k, d) && InOrder(next)
    ensures InOrder(o)
    ensures forall i :: 0 <= d < i < |src| ==> o[src[i]].FromLog?
  {
    forall i, j | 0 <= i < j < |o| && o[i].FromPass? && o[j].FromPass? ensures o[i].k < o[j].k {
      var a :| 0 <= a < |src| && src[a] == i;
      var b :| 0 <= b < |src| && src[b] == j;
      assert next[a] == o[i] && next[b] == o[j];
    }
    forall i | 0 <= d < i < |src| ensures o[src[i]].FromLog? {
      assert next[i] == o[src[i]] && next[d] == FromPass(k);
    }
  }

  lemma OrderedStep(log: Log, passes: seq<Pass>, k: nat)
    requires k < |passes|
    ensures InOrder(OriginsAt(log, passes, k + 1)) <==>
      InOrder(OriginsAt(log, passes, k)) && TailIsOld(log, passes, k)
  {
    hide InOrder, CompactLog, PassSource, DigestOf, Folds, PlannedStart, IsDigest;
    var e, before, o := passes[k], LogAt(log, passes, k), OriginsAt(log, passes, k);
    var src, next := PassSource(e, before), OriginsAt(log, passes, k + 1);
    var d := if Folds(e, before) then DigestPlace(e.policy, before, CompactLog(e, before)) else -1;
    OriginsStepped(log, passes, k, d);
    if Folds(e, before) {
      TailSource(e, before);
    }
    hide DigestPlace, OriginsAt, LogAt, KeepsExactly;
    if InOrder(o) && TailIsOld(log, passes, k) {
      StaysOrdered(o, src, next, k, d);
    }
    if InOrder(next) {
      WasOrdered(o, src, next, k, d);
      if Folds(e, before) {
        TailIsOldIf(e, before, o, src, d);
      }
    }
  }

  lemma OriginsStepped(log: Log, passes: seq<Pass>, k: nat, d: int)
    requires k < |passes|
    requires var before := LogAt(log, passes, k);
      d == if Folds(passes[k], before) then DigestPlace(passes[k].policy, before, CompactLog(passes[k], before)) else -1
    ensures Stepped(OriginsAt(log, passes, k), PassSource(passes[k], LogAt(log, passes, k)),
                    OriginsAt(log, passes, k + 1), k, d)
  {
    hide CompactLog, PassSource, DigestOf, Folds, KeepsExactly, PlannedStart, IsDigest, DigestPlace;
    var e, before, o := passes[k], LogAt(log, passes, k), OriginsAt(log, passes, k);
    SourceExactly(e, before);
    PassDerives(e, before);
    forall i | 0 <= i < |o| && o[i].FromPass? ensures o[i].k < k && i in PassSource(e, before) {
      EachIsSourced(log, passes, k, i);
      PassKeepsProtected(e, before, i);
    }
  }

  lemma TailIsOldIf(e: Pass, log: Log, o: seq<Origin>, src: seq<int>, d: int)
    requires src == PassSource(e, log) && |o| == |log| && 0 <= d < |src|
    requires forall i :: 0 <= i < |o| && o[i].FromPass? ==> i in src
    requires forall i :: 0 <= i < d ==> src[i] < PlannedStart(e.policy, log)
    requires src[d] < 0 && forall i :: d < i < |src| ==> 0 <= src[i] < |o| && o[src[i]].FromLog?
    ensures forall i :: PlannedStart(e.policy, log) <= i < |o| ==> o[i].FromLog?
  {
    hide PassSource, PlannedStart;
    forall i | PlannedStart(e.policy, log) <= i < |o| ensures o[i].FromLog? {
      if i in src {
        var a :| 0 <= a < |src| && src[a] == i;
      }
    }
  }

  /** Behind the new digest stands the tail, in front of it what came before the tail. */
  lemma TailSource(e: Pass, log: Log)
    requires Folds(e, log)
    ensures var src, d := PassSource(e, log), DigestPlace(e.policy, log, CompactLog(e, log));
      0 <= d < |src| && (forall i :: 0 <= i < d ==> src[i] < PlannedStart(e.policy, log)) &&
      forall i :: d < i < |src| ==> src[i] >= PlannedStart(e.policy, log)
  {
    hide PolicyFlags, Folds, FoldPart, SelectedAt, KeepsExactly;
    OutcomeExactly(e, log);
    PassDerives(e, log);
    var p := e.policy;
    DerivesSelected(log, PinnedPrefixLen(p, log), PlannedStart(p, log), RegionFlags(p, log));
    hide PassOutcome, PinnedPrefixLen, PlannedStart, RegionFlags;
  }

  /** Origins read after the first pass. */
  function Shifted(o: Origin, first: seq<int>): Origin {
    match o
    case FromPass(k) => FromPass(k + 1)
    case FromLog(at) =>
      if at < |first| && first[at] >= 0 then FromLog(first[at]) else FromPass(0)
  }

  lemma {:induction false} OriginsShift(log: Log, passes: seq<Pass>, k: nat, i: nat)
    requires 0 < k <= |passes| && i < |LogAt(log, passes, k)|
    ensures LogAt(log, passes, k) == LogAt(CompactLog(passes[0], log), passes[1..], k - 1)
    ensures OriginsAt(log, passes, k)[i] ==
      Shifted(OriginsAt(CompactLog(passes[0], log), passes[1..], k - 1)[i], PassSource(passes[0], log))
    decreases k
  {
    hide CompactLog, PassSource, KeepsExactly;
    var mid := CompactLog(passes[0], log);
    LogAtStep(log, passes, k);
    if k > 1 {
      LogAtStep(log, passes, k - 1);
      var before := LogAt(log, passes, k - 1);
      SourceSize(passes[k - 1], before, i);
      assert passes[1..][k - 2] == passes[k - 1];
      var from := PassSource(passes[k - 1], before)[i];
      if from >= 0 {
        OriginsShift(log, passes, k - 1, from);
      }
    } else {
      FirstOrigins(log, passes, i);
    }
  }

  lemma FirstOrigins(log: Log, passes: seq<Pass>, i: nat)
    requires passes != [] && i < |CompactLog(passes[0], log)|
    ensures LogAt(log, passes, 1) == CompactLog(passes[0], log) == LogAt(CompactLog(passes[0], log), passes[1..], 0)
    ensures OriginsAt(log, passes, 1)[i] ==
      Shifted(OriginsAt(CompactLog(passes[0], log), passes[1..], 0)[i], PassSource(passes[0], log))
  {
    hide CompactLog, PassSource;
    SourceSize(passes[0], log, i);
    assert LogAt(log, passes, 0) == log;
  }

  /** The new messages of a run, the places without a source, are exactly those of its passes. */
  lemma {:induction false} OriginsAreSources(log: Log, passes: seq<Pass>, i: nat)
    requires i < |RunPasses(log, passes)|
    ensures |OriginsAt(log, passes, |passes|)| == |RunPasses(log, passes)| == |RunSource(log, passes)|
    ensures var at, o := RunSource(log, passes)[i], OriginsAt(log, passes, |passes|)[i];
      if at < 0 then o.FromPass? else o == FromLog(at)
    decreases |passes|
  {
    hide CompactLog, PassSource, KeepsExactly;
    LogAtEnd(log, passes);
    RunSourceSize(log, passes);
    if passes != [] {
      var mid, rest := CompactLog(passes[0], log), passes[1..];
      RunSourceSize(mid, rest);
      OriginsAreSources(mid, rest, i);
      OriginsShift(log, passes, |passes|, i);
      if RunSource(mid, rest)[i] >= 0 {
        SourceSize(passes[0], log, RunSource(mid, rest)[i]);
      }
    }
  }

  /** Over any run of passes, whatever their policies: every message without a source in the old
      log is the digest of one effective pass - the summary's, or the marker where there was
      none - and every effective pass has exactly one such message. They stand in the order
      of the passes if and only if no effective pass finds an earlier one in its tail. */
  lemma RunDigests(log: Log, passes: seq<Pass>)
    ensures var final, o, src := RunPasses(log, passes), OriginsAt(log, passes, |passes|), RunSource(log, passes);
      |o| == |final| == |src| &&
      (forall i :: 0 <= i < |final| ==>
         Sourced(log, passes, o[i], final[i]) && if src[i] < 0 then o[i].FromPass? else o[i] == FromLog(src[i])) &&
      (forall m :: 0 <= m < |passes| && Folds(passes[m], LogAt(log, passes, m)) ==> exists i: nat :: OnlyAt(o, m, i)) &&
      (InOrder(o) <==> forall m :: 0 <= m < |passes| ==> TailIsOld(log, passes, m))
  {
    hide CompactLog, RunSource, Sourced, Folds, OnlyAt, InOrder, TailIsOld, OriginsAt;
    var final, o := RunPasses(log, passes), OriginsAt(log, passes, |passes|);
    LogAtEnd(log, passes);
    RunSourceSize(log, passes);
    OrderedExactly(log, passes, |passes|);
    hide LogAt;
    forall i | 0 <= i < |final|
      ensures Sourced(log, passes, o[i], final[i])
      ensures if RunSource(log, passes)[i] < 0 then o[i].FromPass? else o[i] == FromLog(RunSource(log, passes)[i])
    {
      EachIsSourced(log, passes, |passes|, i);
      OriginsAreSources(log, passes, i);
    }
    forall m | 0 <= m < |passes| && Folds(passes[m], LogAt(log, passes, m)) ensures exists i: nat :: OnlyAt(o, m, i) {
      var i := EachDigestStays(log, passes, |passes|, m);
    }
  }
}
