/** What the maintenance between model calls does to the log, and when it gives up
    (internal/agent/compact.go: maybeCompact). */
module UpkeepTheory {
  import opened Text
  import opened Conversation
  import opened Compaction
  import opened CompactionTheory
  import opened DigestTheory
  import opened Maintenance
  import opened MaintenanceTheory
  import opened RunLoop

  // ----- readings -----

  /** One look at the context: its environment, the log and the tokens of the last prompt. */
  datatype Reading = Reading(u: Upkeep, log: Log, tokens: nat)

  /** A window is configured and the usage is known. */
  predicate Active(r: Reading) {
    r.u.policy.contextWindow > 0 && r.tokens > 0
  }

  predicate InSoftBand(r: Reading) {
    r.u.policy.softAt <= r.tokens < r.u.policy.snipAt
  }

  predicate InSnipBand(r: Reading) {
    r.u.policy.snipAt <= r.tokens < r.u.policy.highAt
  }

  /** The first reading in the soft band only leaves a notice. */
  predicate OnlyNotices(r: Reading, noticed: bool) {
    InSoftBand(r) && !noticed
  }

  /** The trigger is reached. */
  predicate Pressed(r: Reading, noticed: bool) {
    Active(r) && r.tokens >= r.u.policy.highAt && !OnlyNotices(r, noticed)
  }

  /** A reading that clears the latch: below the trigger and outside the snip band. */
  predicate Relaxed(r: Reading, noticed: bool) {
    Active(r) && r.tokens < r.u.policy.highAt && !InSnipBand(r) && !OnlyNotices(r, noticed)
  }

  /** The log with its stale results elided. */
  function Elided(r: Reading): Log {
    SweepLog(SweepOf(r.u, Prune), r.log)
  }

  /** Below the force mark, eliding something saves enough tokens to get under the trigger. */
  predicate Relieved(r: Reading) {
    r.tokens < r.u.policy.forceAt && Elided(r) != r.log &&
    r.tokens - r.u.policy.savedTokens(ContentBytes(r.log) - ContentBytes(Elided(r))) < r.u.policy.highAt
  }

  function PassFor(r: Reading): Pass {
    PassOf(r.u, r.tokens >= r.u.policy.forceAt)
  }

  function Upkept(r: Reading, g: Gauge): Kept {
    Maintained(r.u, g, r.log, r.tokens)
  }

  // ----- what happens to the log -----

  lemma {:induction false} SameDigests(a: Log, b: Log)
    requires |a| == |b| && forall i :: 0 <= i < |a| ==> IsDigest(a[i]) == IsDigest(b[i])
    ensures DigestCount(a) == DigestCount(b)
  {
    hide IsDigest;
    if a != [] {
      SameDigests(a[1..], b[1..]);
    }
  }

  lemma SweepKeepsDigests(w: Sweep, log: Log)
    ensures DigestCount(SweepLog(w, log)) == DigestCount(log)
  {
    hide SweepLog, DigestCount, Candidate;
    var swept := SweepLog(w, log);
    SweepOnlyToolText(w, log);
    forall i | 0 <= i < |log| ensures IsDigest(log[i]) == IsDigest(swept[i]) {
      if swept[i] != log[i] {
        assert log[i].(content := swept[i].content) == swept[i];
      }
    }
    SameDigests(log, swept);
  }

  /** A step adds a digest if and only if the trigger is reached with the latch clear, eliding
      does not relieve, and the pass over the elided log folds; it never loses one, and never
      adds two. */
  lemma UpkeepFoldsExactly(r: Reading, g: Gauge)
    ensures DigestCount(Upkept(r, g).log) == DigestCount(r.log) +
      if Pressed(r, g.noticed) && !g.stuck && !Relieved(r) && Folds(PassFor(r), Elided(r)) then 1 else 0
  {
    hide SweepLog, CompactLog, PassOutcome, DigestCount, Folds, ContentBytes;
    SweepKeepsDigests(SweepOf(r.u, Snip), r.log);
    SweepKeepsDigests(SweepOf(r.u, Prune), r.log);
    PassFoldsExactly(PassFor(r), Elided(r));
    OutcomeExactly(PassFor(r), Elided(r));
  }

  /** The digest it adds is the one of its pass. */
  lemma UpkeepDigestSays(r: Reading, g: Gauge)
    requires Pressed(r, g.noticed) && !g.stuck && !Relieved(r) && Folds(PassFor(r), Elided(r))
    ensures var new_ := Upkept(r, g).log;
      var d := DigestPlace(r.u.policy, Elided(r), new_);
      0 <= d < |new_| && DigestOf(PassFor(r), Elided(r), new_[d])
  {
    hide SweepLog, CompactLog, PassOutcome, DigestPlace, Folds, ContentBytes, DigestOf;
    PassDigestSays(PassFor(r), Elided(r));
    OutcomeExactly(PassFor(r), Elided(r));
  }

  /** Message i has the same text as before, or a placeholder that is a snip. */
  predicate KeptOrSnipped(a: Log, b: Log, i: nat)
    requires i < |a| && i < |b|
  {
    b[i] == a[i] || (a[i].role.Tool? && Snipped(b[i].content) && !Pruned(b[i].content) && !Snipped(a[i].content))
  }

  predicate KeptOrElided(a: Log, b: Log, i: nat)
    requires i < |a| && i < |b|
  {
    b[i] == a[i] || (a[i].role.Tool? && Pruned(b[i].content) && !Pruned(a[i].content))
  }

  lemma SnippedIsNotPruned(content: string)
    ensures Snipped(content) ==> !Pruned(content)
  {
    assert SNIPPED_MARKER[1] == 's' && PRUNED_MARKER[1] == 'e';
  }

  lemma RewriteMarks(m: Message, w: Sweep, archive: string)
    ensures if w.mode.Prune? then Pruned(Rewrite(m, w, archive)) else Snipped(Rewrite(m, w, archive))
  {
    hide SnipBody, Header, OriginalBytes, OriginalArchive;
    var text := Rewrite(m, w, archive);
    if w.mode.Prune? {
      assert text[..|PRUNED_MARKER|] == PRUNED_MARKER;
    } else {
      assert text[..|SNIPPED_MARKER|] == SNIPPED_MARKER;
    }
  }

  lemma SweptText(w: Sweep, log: Log, i: nat)
    requires i < |log|
    ensures if w.mode.Snip? then KeptOrSnipped(log, SweepLog(w, log), i) else KeptOrElided(log, SweepLog(w, log), i)
  {
    hide Rewrite, SweepCandidates, SweepArchive, Snipped, Pruned;
    CandidatesAreTools(w, log);
    var archive := SweepArchive(w, log);
    if archive.Some? {
      RewriteMarks(log[i], w, archive.value);
      SnippedIsNotPruned(Rewrite(log[i], w, archive.value));
    }
  }

  /** Inactive, below the snip mark, or at the trigger with the latch set, the log stays. In the
      snip band every changed message is a result that becomes a snip. At the trigger with the
      latch clear, a relieving or idle pass leaves the elided log, every changed message of
      which is an elided result. */
  lemma UpkeepLeaves(r: Reading, g: Gauge)
    ensures !Active(r) ==> Upkept(r, g).log == r.log
    ensures r.tokens < r.u.policy.highAt && !InSnipBand(r) ==> Upkept(r, g).log == r.log
    ensures r.tokens >= r.u.policy.highAt && g.stuck ==> Upkept(r, g).log == r.log
    ensures Active(r) && InSnipBand(r) ==>
      |Upkept(r, g).log| == |r.log| && forall i :: 0 <= i < |r.log| ==> KeptOrSnipped(r.log, Upkept(r, g).log, i)
    ensures Pressed(r, g.noticed) && !g.stuck && (Relieved(r) || !Folds(PassFor(r), Elided(r))) ==>
      Upkept(r, g).log == Elided(r)
    ensures forall i :: 0 <= i < |r.log| ==> KeptOrElided(r.log, Elided(r), i)
  {
    hide SweepLog, CompactLog, PassOutcome, Folds, ContentBytes, KeptOrSnipped, KeptOrElided;
    PassFoldsExactly(PassFor(r), Elided(r));
    OutcomeExactly(PassFor(r), Elided(r));
    forall i | 0 <= i < |r.log| ensures KeptOrSnipped(r.log, SweepLog(SweepOf(r.u, Snip), r.log), i) {
      SweptText(SweepOf(r.u, Snip), r.log, i);
    }
    forall i | 0 <= i < |r.log| ensures KeptOrElided(r.log, Elided(r), i) {
      SweptText(SweepOf(r.u, Prune), r.log, i);
    }
  }

  // ----- when it gives up -----

  /** The latches after the first n readings. */
  function GaugeAt(g: Gauge, rs: seq<Reading>, n: nat): Gauge
    requires n <= |rs|
  {
    if n == 0 then g else Upkept(rs[n - 1], GaugeAt(g, rs, n - 1)).gauge
  }

  /** The notice has been left before reading n: some reading was in the soft band. */
  ghost predicate Noticed(g: Gauge, rs: seq<Reading>, n: nat)
    requires n <= |rs|
  {
    g.noticed || exists k :: 0 <= k < n && Active(rs[k]) && InSoftBand(rs[k])
  }

  /** Reading n asks for a pass, and no archive fails: it counts unless the latch is set. */
  ghost predicate Worthy(g: Gauge, rs: seq<Reading>, n: nat)
    requires n < |rs|
  {
    Pressed(rs[n], Noticed(g, rs, n)) && !Relieved(rs[n]) &&
    !(FoldDue(PassFor(rs[n]), Elided(rs[n])) && ArchiveBroken(PassFor(rs[n])))
  }

  ghost predicate Clears(g: Gauge, rs: seq<Reading>, n: nat)
    requires n < |rs|
  {
    Relaxed(rs[n], Noticed(g, rs, n))
  }

  lemma {:induction false} NoticedAt(g: Gauge, rs: seq<Reading>, n: nat)
    requires n <= |rs|
    ensures GaugeAt(g, rs, n).noticed == Noticed(g, rs, n)
    decreases n
  {
    hide Upkept, Active, InSoftBand;
    if n > 0 {
      NoticedAt(g, rs, n - 1);
      NoticedStep(rs[n - 1], GaugeAt(g, rs, n - 1));
    }
  }

  lemma NoticedStep(r: Reading, g: Gauge)
    ensures Upkept(r, g).gauge.noticed == (g.noticed || (Active(r) && InSoftBand(r)))
  {
    hide SweepLog, CompactLog, PassOutcome, ContentBytes;
  }

  /** How many worthy readings came since the last clearing one. */
  ghost function WorthySince(g: Gauge, rs: seq<Reading>, n: nat): nat
    requires n <= |rs|
  {
    if n == 0 || Clears(g, rs, n - 1) then 0
    else WorthySince(g, rs, n - 1) + if Worthy(g, rs, n - 1) then 1 else 0
  }

  lemma LatchStep(r: Reading, g: Gauge)
    ensures var g' := Upkept(r, g).gauge;
      var passes := Pressed(r, g.noticed) && !g.stuck && !Relieved(r) &&
        !(FoldDue(PassFor(r), Elided(r)) && ArchiveBroken(PassFor(r)));
      if Relaxed(r, g.noticed) then g'.consecutive == 0 && !g'.stuck
      else if passes then g'.consecutive == g.consecutive + 1 && g'.stuck == (g.stuck || g.consecutive + 1 >= 2)
      else g'.consecutive == g.consecutive && g'.stuck == g.stuck
  {
    OutcomeExactly(PassFor(r), Elided(r));
    hide SweepLog, CompactLog, PassOutcome, ContentBytes, FoldDue, ArchiveBroken;
  }

  lemma {:induction false} LatchCounts(g: Gauge, rs: seq<Reading>, n: nat)
    requires n <= |rs| && !g.stuck && g.consecutive == 0
    ensures var now, c := GaugeAt(g, rs, n), WorthySince(g, rs, n);
      now.stuck == (c >= 2) && now.consecutive == if c < 2 then c else 2
    decreases n
  {
    hide Upkept, Relieved, FoldDue, ArchiveBroken, Pressed, Relaxed, Noticed;
    if n > 0 {
      LatchCounts(g, rs, n - 1);
      LatchStep(rs[n - 1], GaugeAt(g, rs, n - 1));
      NoticedAt(g, rs, n - 1);
      NotBoth(rs[n - 1], GaugeAt(g, rs, n - 1).noticed);
    }
  }

  lemma NotBoth(r: Reading, noticed: bool)
    ensures !(Pressed(r, noticed) && Relaxed(r, noticed))
  {
  }

  lemma {:induction false} SinceMeans(g: Gauge, rs: seq<Reading>, n: nat)
    requires n <= |rs|
    ensures WorthySince(g, rs, n) >= 1 <==>
      exists i :: 0 <= i < n && Worthy(g, rs, i) && forall k :: i < k < n ==> !Clears(g, rs, k)
    ensures WorthySince(g, rs, n) >= 2 <==>
      exists i, j ::
        0 <= i < j < n && Worthy(g, rs, i) && Worthy(g, rs, j) && forall k :: i < k < n ==> !Clears(g, rs, k)
    decreases n
  {
    hide Worthy, Clears;
    if n > 0 {
      SinceMeans(g, rs, n - 1);
      WorthyIsNoClearing(g, rs, n - 1);
    }
  }

  lemma WorthyIsNoClearing(g: Gauge, rs: seq<Reading>, n: nat)
    requires n < |rs|
    ensures !(Worthy(g, rs, n) && Clears(g, rs, n))
  {
  }

  /** Automatic maintenance gives up if and only if two readings asked for a pass, neither failed
      to archive, and no reading since the first of them was back below the thresholds. */
  lemma GivesUpExactly(rs: seq<Reading>, noticed: bool)
    ensures var g := Gauge(false, 0, noticed);
      GaugeAt(g, rs, |rs|).stuck <==>
      exists i, j :: 0 <= i < j < |rs| && Worthy(g, rs, i) && Worthy(g, rs, j) &&
        forall k :: i < k < |rs| ==> !Clears(g, rs, k)
  {
    hide GaugeAt, WorthySince, Worthy, Clears;
    var g := Gauge(false, 0, noticed);
    LatchCounts(g, rs, |rs|);
    SinceMeans(g, rs, |rs|);
  }
}
