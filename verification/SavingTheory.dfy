/** Any number of sessions saving to and loading from one file, interleaved step by step, and
    what the recovery branch guarantees. */
module SavingTheory {
  import opened Text
  import opened Conversation
  import opened Saving

  // ----- one decision of the check -----

  /** A write is allowed only on a missing file, to continue the content, or as a rewrite by
      the owner of that very content and revision; and a session with a baseline changes the
      content only while the file is still at the baseline's revision. */
  lemma AllowedWrites(e: Entry, base: Option<Baseline>, next: Log, version: nat, mode: Mode)
    requires !mode.Force? && CheckWrite(e, base, next, version, mode).Ok?
    ensures e.transcript.Missing? || e.transcript.Stored?
    ensures e.transcript.Stored? ==> var existing := e.transcript.log;
      (Continues(next, existing) || (mode.Rewrite? && base.Some? && base.value.digest == existing)) &&
      (existing != next && base.Some? ==> base.value.revision == Revision(e))
  {
  }

  /** The only writer never conflicts on a rewrite, and on a snapshot exactly when the new
      messages do not continue what is on disk. */
  lemma SoleWriter(e: Entry, base: Baseline, next: Log, version: nat)
    requires e.transcript == Stored(base.digest) && base.revision == Revision(e) && base.version <= version
    ensures CheckWrite(e, Some(base), next, version, Rewrite).Ok?
    ensures CheckWrite(e, Some(base), next, version, Snapshot).Ok? <==> Continues(next, base.digest)
  {
  }

  /** Recording a save always raises the revision, past the one the save was based on. */
  lemma RecordRaises(e: Entry, digest: Log, base: int, writer: string)
    ensures Revision(Recorded(e, digest, base, writer)) > Revision(e)
    ensures Revision(Recorded(e, digest, base, writer)) > base
    ensures Recorded(e, digest, base, writer).meta.value.contentDigest == Some(digest)
    ensures ReportedRevision(e, digest, base, writer) == Revision(Recorded(e, digest, base, writer))
    ensures Recorded(e, digest, base, writer).transcript == e.transcript
  {
  }

  /** Merging a record into the sidecar never lowers its revision, and the digest kept belongs
      to the higher revision. */
  lemma MergeKeepsNewest(next: BranchMeta, existing: BranchMeta)
    ensures var m := Merged(next, existing);
      m.revision == (if next.revision >= existing.revision then next.revision else existing.revision) &&
      (existing.revision > next.revision ==> m == existing) &&
      (existing.revision < next.revision ==> m == next) &&
      Merged(m, existing) == m
  {
  }

  // ----- the interleaved system -----

  /** One session object; known holds the contents it has loaded from or written to the file,
      seen how many saves of anyone had completed when its baseline was taken. */
  datatype Agent = Agent(msgs: Log, version: nat, persisted: Option<Baseline>, loading: bool, known: set<Log>,
                         seen: nat)

  /** A save in flight: the messages and version it captured before taking the lock. */
  datatype Job = Job(agent: nat, mode: Mode, msgs: Log, version: nat)

  /** One transcript write. owned: the writer had loaded or written the replaced content;
      based: it had a baseline for this file; unraced: no save completed since that baseline. */
  datatype Write = Write(before: Transcript, after: Log, mode: Mode, owned: bool, based: bool, unraced: bool,
                         revision: int)

  /** half is the save that holds the lock with the transcript written and the sidecar not. */
  datatype Sys = Sys(entry: Entry, agents: seq<Agent>, jobs: seq<Job>, half: Option<(Job, int)>, history: seq<Write>)

  datatype Step =
    | NewAgent
    | Change(a: nat, msgs: Log)
    | SaveElsewhere(a: nat)
    | Capture(a: nat, mode: Mode)
    | CommitTranscript(j: nat)
    | CommitSidecar
    | LoadTranscript
    | LoadSidecar(a: nat)

  predicate Ready(s: Sys, a: nat) {
    a < |s.agents| && !s.agents[a].loading
  }

  predicate Enabled(s: Sys, step: Step) {
    match step
    case NewAgent => true
    case Change(a, _) => Ready(s, a)
    case SaveElsewhere(a) => Ready(s, a)
    case Capture(a, _) => Ready(s, a)
    case CommitTranscript(j) => j < |s.jobs| && s.jobs[j].agent < |s.agents| && s.half.None?
    case CommitSidecar => s.half.Some? && s.half.value.0.agent < |s.agents|
    case LoadTranscript => s.entry.transcript.Stored?
    case LoadSidecar(a) => a < |s.agents| && s.agents[a].loading
  }

  function Completed(s: Sys): int {
    |s.history| - if s.half.Some? then 1 else 0
  }

  function WithoutJob(jobs: seq<Job>, j: nat): seq<Job>
    requires j < |jobs|
  {
    jobs[..j] + jobs[j + 1..]
  }

  function Apply(p: SessionPath, writer: string, s: Sys, step: Step): Sys
    requires Enabled(s, step)
  {
    match step
    case NewAgent => s.(agents := s.agents + [Agent([], 0, None, false, {}, 0)])
    case Change(a, msgs) => s.(agents := s.agents[a := s.agents[a].(msgs := msgs, version := s.agents[a].version + 1)])
    case SaveElsewhere(a) => s.(agents := s.agents[a := s.agents[a].(persisted := None)])
    case Capture(a, mode) => s.(jobs := s.jobs + [Job(a, mode, s.agents[a].msgs, s.agents[a].version)])
    case CommitTranscript(j) => CommitJob(p, s, s.jobs[j], WithoutJob(s.jobs, j))
    case CommitSidecar =>
      var (job, base) := s.half.value;
      var revision := ReportedRevision(s.entry, job.msgs, base, writer);
      s.(entry := Recorded(s.entry, job.msgs, base, writer), half := None,
         agents := s.agents[job.agent :=
           s.agents[job.agent].(persisted := Some(Baseline(p, job.msgs, job.version, revision)), seen := |s.history|)])
    case LoadTranscript =>
      var log := s.entry.transcript.log;
      s.(agents := s.agents + [Agent(log, 0, None, true, {log}, 0)])
    case LoadSidecar(a) =>
      var g := s.agents[a];
      s.(agents := s.agents[a := g.(loading := false, persisted := Some(Baseline(p, g.msgs, 0, Revision(s.entry))),
                                    seen := if Completed(s) < 0 then 0 else Completed(s))])
  }

  function CommitJob(p: SessionPath, s: Sys, job: Job, jobs: seq<Job>): Sys
    requires job.agent < |s.agents|
  {
    var g := s.agents[job.agent];
    var base := BaselineFor(g.persisted, p);
    var check := CheckWrite(s.entry, base, job.msgs, job.version, job.mode);
    if check.Err? then s.(jobs := jobs)
    else
      var current := Revision(s.entry);
      var w := Write(s.entry.transcript, job.msgs, job.mode,
                     s.entry.transcript.Stored? && s.entry.transcript.log in g.known,
                     base.Some?, g.seen == |s.history|,
                     (if current < check.value then check.value else current) + 1);
      Sys(s.entry.(transcript := Stored(job.msgs)), s.agents[job.agent := g.(known := g.known + {job.msgs})], jobs,
          Some((job, check.value)), s.history + [w])
  }

  predicate Legit(w: Write) {
    match w.before
    case Missing => true
    case Corrupt => w.mode.Force?
    case Stored(existing) =>
      w.mode.Force? ||
      ((Continues(w.after, existing) || (w.mode.Rewrite? && w.owned)) && (w.based && existing != w.after ==> w.unraced))
  }

  predicate GoodAgent(p: SessionPath, s: Sys, g: Agent) {
    var base := BaselineFor(g.persisted, p);
    (g.loading ==> g.msgs in g.known) &&
    (base.Some? ==>
      base.value.digest in g.known && g.seen <= Completed(s) && base.value.revision <= Revision(s.entry) &&
                    (base.value.revision == Revision(s.entry) ==> g.seen == Completed(s)))
  }

  predicate AgentsGood(p: SessionPath, s: Sys) {
    forall a :: 0 <= a < |s.agents| ==> GoodAgent(p, s, s.agents[a])
  }

  predicate HistoryGood(history: seq<Write>) {
    (forall k :: 0 <= k < |history| ==> Legit(history[k])) &&
    (forall k :: 0 <= k < |history| - 1 ==> history[k + 1].before == Stored(history[k].after)) &&
    (forall k :: 0 <= k < |history| - 1 ==> history[k].revision < history[k + 1].revision)
  }

  /** The file agrees with the last write; while a save holds the lock its transcript is
      written and its sidecar is still the one before. */
  predicate FileGood(s: Sys) {
    (s.history != [] ==> s.entry.transcript == Stored(s.history[|s.history| - 1].after)) &&
    (s.history != [] && s.half.None? ==> Revision(s.entry) == s.history[|s.history| - 1].revision) &&
    (s.half.Some? ==> s.history != [] && Pending(s))
  }

  predicate Pending(s: Sys)
    requires s.half.Some? && s.history != []
  {
    var w, (job, base), current := s.history[|s.history| - 1], s.half.value, Revision(s.entry);
    w.after == job.msgs && w.revision == (if current < base then base else current) + 1 &&
    job.agent < |s.agents| && job.msgs in s.agents[job.agent].known
  }

  predicate Inv(p: SessionPath, s: Sys) {
    AgentsGood(p, s) && HistoryGood(s.history) && FileGood(s)
  }

  lemma CommitLegit(p: SessionPath, s: Sys, job: Job, jobs: seq<Job>)
    requires job.agent < |s.agents| && s.half.None? && GoodAgent(p, s, s.agents[job.agent])
    requires CheckWrite(s.entry, BaselineFor(s.agents[job.agent].persisted, p), job.msgs, job.version, job.mode).Ok?
    ensures var s' := CommitJob(p, s, job, jobs); |s'.history| == |s.history| + 1 && Legit(s'.history[|s.history|])
  {
    var base := BaselineFor(s.agents[job.agent].persisted, p);
    if !job.mode.Force? && s.entry.transcript.Stored? {
      AllowedWrites(s.entry, base, job.msgs, job.version, job.mode);
      hide CheckWrite, Continues, Revision;
    } else {
      hide Continues;
    }
  }

  lemma CommitTranscriptInv(p: SessionPath, s: Sys, job: Job, jobs: seq<Job>)
    requires Inv(p, s) && job.agent < |s.agents| && s.half.None?
    ensures Inv(p, CommitJob(p, s, job, jobs))
  {
    var s' := CommitJob(p, s, job, jobs);
    var base := BaselineFor(s.agents[job.agent].persisted, p);
    assert GoodAgent(p, s, s.agents[job.agent]);
    if CheckWrite(s.entry, base, job.msgs, job.version, job.mode).Ok? {
      CommitLegit(p, s, job, jobs);
    }
    hide CheckWrite, Legit;
    CommitAgents(p, s, job, jobs);
    hide GoodAgent, AgentsGood;
  }

  lemma CommitAgents(p: SessionPath, s: Sys, job: Job, jobs: seq<Job>)
    requires AgentsGood(p, s) && job.agent < |s.agents| && s.half.None?
    ensures AgentsGood(p, CommitJob(p, s, job, jobs))
  {
    hide CheckWrite;
    var s' := CommitJob(p, s, job, jobs);
    forall a | 0 <= a < |s'.agents| ensures GoodAgent(p, s', s'.agents[a]) {
      assert GoodAgent(p, s, s.agents[a]);
    }
  }

  lemma CommitSidecarInv(p: SessionPath, writer: string, s: Sys)
    requires Inv(p, s) && Enabled(s, CommitSidecar)
    ensures Inv(p, Apply(p, writer, s, CommitSidecar))
  {
    var s' := Apply(p, writer, s, CommitSidecar);
    var (job, base) := s.half.value;
    RecordRaises(s.entry, job.msgs, base, writer);
    RecordedRevision(s.entry, job.msgs, base, writer);
    hide Recorded, ReportedRevision, Legit;
    forall a | 0 <= a < |s'.agents| ensures GoodAgent(p, s', s'.agents[a]) {
      assert GoodAgent(p, s, s.agents[a]);
    }
  }

  lemma RecordedRevision(e: Entry, digest: Log, base: int, writer: string)
    ensures Revision(Recorded(e, digest, base, writer)) == (if Revision(e) < base then base else Revision(e)) + 1
  {
  }

  /** A step that changes one agent, or adds one, and leaves the file and the lock alone. */
  lemma AgentStepInv(p: SessionPath, s: Sys, s': Sys, a: nat, g: Agent)
    requires Inv(p, s) && GoodAgent(p, s, g)
    requires a < |s.agents| ==> s.agents[a].known <= g.known
    requires (a < |s.agents| && s'.agents == s.agents[a := g]) || s'.agents == s.agents + [g]
    requires s'.entry == s.entry && s'.half == s.half && s'.history == s.history
    ensures Inv(p, s')
  {
    hide HistoryGood;
    assert HistoryGood(s'.history);
    forall b | 0 <= b < |s'.agents| ensures GoodAgent(p, s', s'.agents[b]) {
      assert b < |s.agents| ==> GoodAgent(p, s, s.agents[b]);
    }
    if s.half.Some? {
      assert Pending(s);
      var b := s.half.value.0.agent;
      assert s.agents[b].known <= s'.agents[b].known;
    }
  }

  lemma OtherStepInv(p: SessionPath, writer: string, s: Sys, step: Step)
    requires Inv(p, s) && Enabled(s, step) && !step.CommitTranscript? && !step.CommitSidecar?
    ensures Inv(p, Apply(p, writer, s, step))
  {
    hide HistoryGood;
    var s' := Apply(p, writer, s, step);
    assert 0 <= Completed(s);
    match step
    case Capture(_, _) =>
      forall b | 0 <= b < |s'.agents| ensures GoodAgent(p, s', s'.agents[b]) {
        assert GoodAgent(p, s, s.agents[b]);
      }
    case NewAgent => AgentStepInv(p, s, s', |s.agents|, s'.agents[|s.agents|]);
    case LoadTranscript => AgentStepInv(p, s, s', |s.agents|, s'.agents[|s.agents|]);
    case Change(a, _) => ChangedAgentInv(p, s, s', a);
    case SaveElsewhere(a) => ChangedAgentInv(p, s, s', a);
    case LoadSidecar(a) => ChangedAgentInv(p, s, s', a);
  }

  lemma ChangedAgentInv(p: SessionPath, s: Sys, s': Sys, a: nat)
    requires Inv(p, s) && a < |s.agents| && a < |s'.agents| && s'.agents == s.agents[a := s'.agents[a]]
    requires GoodAgent(p, s, s.agents[a]) ==> GoodAgent(p, s, s'.agents[a]) && s.agents[a].known <= s'.agents[a].known
    requires s'.entry == s.entry && s'.half == s.half && s'.history == s.history
    ensures Inv(p, s')
  {
    hide HistoryGood, FileGood;
    AgentStepInv(p, s, s', a, s'.agents[a]);
  }

  lemma StepInv(p: SessionPath, writer: string, s: Sys, step: Step)
    requires Inv(p, s) && Enabled(s, step)
    ensures Inv(p, Apply(p, writer, s, step))
  {
    hide Inv;
    match step
    case CommitTranscript(j) => CommitTranscriptInv(p, s, s.jobs[j], WithoutJob(s.jobs, j));
    case CommitSidecar => CommitSidecarInv(p, writer, s);
    case _ => OtherStepInv(p, writer, s, step);
  }

  /** The two halves of a save, one right after the other, are one call of Save. */
  lemma SaveIsTwoHalves(p: SessionPath, writer: string, s: Sys, j: nat)
    requires Enabled(s, CommitTranscript(j))
    ensures var job, t := s.jobs[j], Apply(p, writer, s, CommitTranscript(j));
      var saved := SaveEntry(s.entry, s.agents[job.agent].persisted, p, job.msgs, job.version, job.mode, writer);
      if saved.error.Some? then t == s.(jobs := WithoutJob(s.jobs, j))
      else
        Enabled(t, CommitSidecar) && var u := Apply(p, writer, t, CommitSidecar);
        u.entry == saved.entry && u.agents[job.agent].persisted == saved.baseline && u.half.None? &&
        |u.history| == |s.history| + 1 &&
        forall a :: 0 <= a < |s.agents| && a != job.agent ==> u.agents[a] == s.agents[a]
  {
    hide CheckWrite, Recorded, ReportedRevision;
  }

  predicate CanRun(p: SessionPath, writer: string, s: Sys, steps: seq<Step>)
    decreases |steps|
  {
    steps == [] || (Enabled(s, steps[0]) && CanRun(p, writer, Apply(p, writer, s, steps[0]), steps[1..]))
  }

  function Run(p: SessionPath, writer: string, s: Sys, steps: seq<Step>): Sys
    requires CanRun(p, writer, s, steps)
    decreases |steps|
  {
    if steps == [] then s else Run(p, writer, Apply(p, writer, s, steps[0]), steps[1..])
  }

  lemma {:induction false} RunInv(p: SessionPath, writer: string, s: Sys, steps: seq<Step>)
    requires Inv(p, s) && CanRun(p, writer, s, steps)
    ensures Inv(p, Run(p, writer, s, steps))
    decreases |steps|
  {
    hide Inv, Enabled, Apply;
    if steps != [] {
      StepInv(p, writer, s, steps[0]);
      RunInv(p, writer, Apply(p, writer, s, steps[0]), steps[1..]);
    }
  }

  /** Neither the file's revision nor any save's falls back to the floor. */
  predicate Above(floor: int, s: Sys) {
    floor <= Revision(s.entry) && forall k :: 0 <= k < |s.history| ==> floor < s.history[k].revision
  }

  lemma StepAbove(floor: int, p: SessionPath, writer: string, s: Sys, step: Step)
    requires Above(floor, s) && Enabled(s, step)
    ensures Above(floor, Apply(p, writer, s, step))
  {
    hide CheckWrite, BaselineFor;
    if step.CommitSidecar? {
      RecordRaises(s.entry, s.half.value.0.msgs, s.half.value.1, writer);
    }
    hide Recorded, ReportedRevision;
  }

  lemma {:induction false} RunAbove(floor: int, p: SessionPath, writer: string, s: Sys, steps: seq<Step>)
    requires Above(floor, s) && CanRun(p, writer, s, steps)
    ensures Above(floor, Run(p, writer, s, steps))
    decreases |steps|
  {
    hide Above, Enabled, Apply;
    if steps != [] {
      StepAbove(floor, p, writer, s, steps[0]);
      RunAbove(floor, p, writer, Apply(p, writer, s, steps[0]), steps[1..]);
    }
  }

  function Opening(e: Entry): Sys {
    Sys(e, [], [], None, [])
  }

  /** Every interleaving: each transcript write either continues the content it replaces or is a
      forced save or a rewrite of content its own session had loaded or written; a session with
      a baseline changes the content only if nobody's save completed since it took that
      baseline; and every save gets a strictly higher revision than the opened file and all
      saves before it. */
  lemma EveryWriteLegit(p: SessionPath, writer: string, e: Entry, steps: seq<Step>)
    requires CanRun(p, writer, Opening(e), steps)
    ensures var s := Run(p, writer, Opening(e), steps);
      (forall k :: 0 <= k < |s.history| ==> Legit(s.history[k])) &&
      (forall k :: 0 <= k < |s.history| - 1 ==> s.history[k + 1].before == Stored(s.history[k].after)) &&
      (forall k :: 0 <= k < |s.history| - 1 ==> s.history[k].revision < s.history[k + 1].revision) &&
      (forall k :: 0 <= k < |s.history| ==> Revision(e) < s.history[k].revision) &&
      (s.history != [] ==> s.entry.transcript == Stored(s.history[|s.history| - 1].after))
  {
    RunInv(p, writer, Opening(e), steps);
    RunAbove(Revision(e), p, writer, Opening(e), steps);
  }

  /** Snapshots alone never lose anything: what one writes is continued by everything after it
      up to the next rewrite or forced save. */
  lemma {:induction false} SnapshotsNeverLose(p: SessionPath, writer: string, e: Entry, steps: seq<Step>, i: nat,
                                              j: nat)
    requires CanRun(p, writer, Opening(e), steps)
    requires var s := Run(p, writer, Opening(e), steps);
      i <= j < |s.history| && forall k :: i < k <= j ==> s.history[k].mode.Snapshot?
    ensures var s := Run(p, writer, Opening(e), steps); Continues(s.history[j].after, s.history[i].after)
    decreases j
  {
    EveryWriteLegit(p, writer, e, steps);
    hide Run, CanRun, Continues;
    var s := Run(p, writer, Opening(e), steps);
    if i < j {
      SnapshotsNeverLose(p, writer, e, steps, i, j - 1);
      assert Legit(s.history[j]);
      assert s.history[(j - 1) + 1].before == Stored(s.history[j - 1].after);
      ContinuesTransitive(s.history[i].after, s.history[j - 1].after, s.history[j].after);
    } else {
      ContinuesSelf(s.history[i].after);
    }
  }

  lemma ContinuesSelf(log: Log)
    ensures Continues(log, log)
  {
  }

  // ----- the recovery branch -----

  lemma RecoveryPathDiffers(original: SessionPath, digestName: string)
    ensures RecoveryPath(original, digestName) != original
  {
    assert |RecoveryPath(original, digestName).stem| > |original.stem|;
  }

  predicate HoldsAll(disk: Disk, p: SessionPath, msgs: Log) {
    EntryAt(disk, p).transcript.Stored? && Continues(EntryAt(disk, p).transcript.log, msgs)
  }

  /** A log with a user turn that a save refused is on disk in full after SaveRecoveryBranch -
      in the recovery file, or in the original when that was checked - unless a file does not
      decode; and no file but the recovery one is touched, whatever others write meanwhile. */
  lemma RecoveryLosesNothing(seen: Disk, later: Disk, original: SessionPath, msgs: Log, name: Log -> string,
                             writer: string)
    requires UserTurns(msgs) > 0
    ensures var (outcome, disk') := Recover(seen, later, original, msgs, name, writer);
      var p := RecoveryPath(original, name(msgs));
      p != original &&
      (NeedsRescue(seen, original, msgs) ==> forall q :: q != p ==> EntryAt(disk', q) == EntryAt(later, q)) &&
      (!NeedsRescue(seen, original, msgs) ==> disk' == seen) &&
      (outcome.NotNeeded? ==> HoldsAll(seen, original, msgs)) &&
      (outcome.Kept? ==> outcome.path == p && EntryAt(disk', p).transcript == Stored(msgs)) &&
      (outcome.RecoveryLoadFailed? ==>
         EntryAt(seen, original).transcript.Corrupt? || EntryAt(later, p).transcript.Corrupt?)
  {
    RecoveryPathDiffers(original, name(msgs));
  }

  /** After a conflict the outcome says which way the log was behind: a stale prefix is found
      on disk, a diverged log is kept. */
  lemma RecoveryAfterConflict(seen: Disk, later: Disk, original: SessionPath, base: Option<Baseline>, msgs: Log,
                              version: nat, mode: Mode, name: Log -> string, writer: string)
    requires UserTurns(msgs) > 0
    requires var check := CheckWrite(EntryAt(seen, original), base, msgs, version, mode);
      check.Err? && check.error.SnapshotConflict?
    requires !EntryAt(later, RecoveryPath(original, name(msgs))).transcript.Corrupt?
    ensures var check, (outcome, _) := CheckWrite(EntryAt(seen, original), base, msgs, version, mode),
                                       Recover(seen, later, original, msgs, name, writer);
      if check.error.kind.StalePrefix? then outcome.NotNeeded? else outcome.Kept?
  {
  }

  /** Repeating the rescue while nobody wrote the recovery file finds what the first one left:
      contents, revision and path stay as they are. */
  lemma RecoveryRepeats(seen: Disk, later: Disk, original: SessionPath, msgs: Log, name: Log -> string, writer: string)
    requires Recover(seen, later, original, msgs, name, writer).0.Kept?
    ensures var (first, once) := Recover(seen, later, original, msgs, name, writer);
      var (second, twice) := Recover(seen, once, original, msgs, name, writer);
      second == Kept(first.path, true) &&
      (forall q :: EntryAt(twice, q).transcript == EntryAt(once, q).transcript) &&
      Revision(EntryAt(twice, first.path)) == Revision(EntryAt(once, first.path))
  {
    RecoveryPathDiffers(original, name(msgs));
  }

  /** What the next save of a rescued session finds: the rescued log and the baseline on it. */
  function SavedAfterRescue(disk: Disk, p: SessionPath, msgs: Log, version: nat, next: Log, at: nat, mode: Mode,
                            writer: string): Saved {
    var e := EntryAt(disk, p);
    SaveEntry(e, Some(Baseline(p, msgs, version, Revision(e))), p, next, at, mode, writer)
  }

  /** A rescued session can go on in the recovery file: while nobody else writes it, every
      rewrite and every continuation of the rescued log is accepted. */
  lemma RescuedSessionGoesOn(seen: Disk, later: Disk, original: SessionPath, msgs: Log, version: nat,
                             name: Log -> string, writer: string, next: Log, at: nat, mode: Mode)
    requires Recover(seen, later, original, msgs, name, writer).0.Kept? && version <= at
    requires mode.Rewrite? || Continues(next, msgs)
    ensures var (outcome, disk') := Recover(seen, later, original, msgs, name, writer);
      var saved := SavedAfterRescue(disk', outcome.path, msgs, version, next, at, mode, writer);
      saved.error.None? && saved.entry.transcript == Stored(next) &&
      Revision(saved.entry) > Revision(EntryAt(disk', outcome.path))
  {
    hide Merged, Continues;
    var (outcome, disk') := Recover(seen, later, original, msgs, name, writer);
    var e := EntryAt(disk', outcome.path);
    assert e.transcript == Stored(msgs);
    RecordRaises(e.(transcript := Stored(next)), next, Revision(e), writer);
  }

  /** After a rescue the disk differs from the one found under the recovery file's lock exactly
      in that file. Stored content is replaced if and only if it lies there and is another log,
      and is lost if and only if the rescued messages do not continue it. */
  lemma RescueReplacesExactly(seen: Disk, later: Disk, original: SessionPath, msgs: Log, name: Log -> string,
                              writer: string, q: SessionPath)
    requires EntryAt(later, q).transcript.Stored? && NeedsRescue(seen, original, msgs)
    ensures var there, disk' := EntryAt(later, q).transcript.log, Recover(seen, later, original, msgs, name, writer).1;
      var p := RecoveryPath(original, name(msgs));
      (EntryAt(disk', q).transcript != Stored(there) <==> q == p && there != msgs) &&
      (!HoldsAll(disk', q, there) <==> q == p && !Continues(msgs, there))
  {
    ContinuesSelf(EntryAt(later, q).transcript.log);
    hide Continues, RecoveryPath, UserTurns;
  }

  /** That happens without any clash of names: one session is rescued and saves a longer log in
      the recovery file; a second stale session with the same messages is rescued after it, and
      the longer log is gone. */
  lemma SecondRescueLosesContinuation(seen: Disk, later: Disk, original: SessionPath, msgs: Log, version: nat,
                                      name: Log -> string, writer: string, next: Log, at: nat)
    requires NeedsRescue(seen, original, msgs)
    requires !EntryAt(later, RecoveryPath(original, name(msgs))).transcript.Corrupt?
    requires version <= at && msgs < next
    ensures var (outcome, rescued) := Recover(seen, later, original, msgs, name, writer);
      var saved := SavedAfterRescue(rescued, outcome.path, msgs, version, next, at, Snapshot, writer);
      var grown := rescued[outcome.path := saved.entry];
      var (again, lost) := Recover(seen, grown, original, msgs, name, writer);
      saved.error.None? && EntryAt(grown, outcome.path).transcript == Stored(next) &&
      again == Kept(outcome.path, false) && EntryAt(lost, outcome.path).transcript == Stored(msgs) &&
      !HoldsAll(lost, outcome.path, next)
  {
    var (outcome, rescued) := Recover(seen, later, original, msgs, name, writer);
    RescuedSessionGoesOn(seen, later, original, msgs, version, name, writer, next, at, Snapshot);
    NotContinuedByPrefix(msgs, next);
    hide SavedAfterRescue, NeedsRescue, Continues, RecoveryPath;
  }

  /** The sidecar after a rescue: the revision rises only to 1, and the digest is that of the
      rescued messages if and only if the revision was not above 1 or the sidecar already named
      them. */
  lemma RescueSidecarExactly(seen: Disk, later: Disk, original: SessionPath, msgs: Log, name: Log -> string,
                             writer: string)
    requires NeedsRescue(seen, original, msgs)
    requires !EntryAt(later, RecoveryPath(original, name(msgs))).transcript.Corrupt?
    ensures var p := RecoveryPath(original, name(msgs));
      var e, after := EntryAt(later, p), EntryAt(Recover(seen, later, original, msgs, name, writer).1, p);
      after.meta.Some? && Revision(after) == (if Revision(e) > 1 then Revision(e) else 1) &&
      (after.meta.value.contentDigest == Some(msgs) <==>
        Revision(e) <= 1 || e.meta.value.contentDigest == Some(msgs))
  {
  }

  /** The transcript has lost what was there and the sidecar still names it, if and only if the
      rescued messages do not continue it and the sidecar named it with a revision above 1. */
  lemma SidecarNamesLostExactly(seen: Disk, later: Disk, original: SessionPath, msgs: Log, name: Log -> string,
                                writer: string)
    requires NeedsRescue(seen, original, msgs)
    requires EntryAt(later, RecoveryPath(original, name(msgs))).transcript.Stored?
    ensures var p := RecoveryPath(original, name(msgs));
      var e, disk' := EntryAt(later, p), Recover(seen, later, original, msgs, name, writer).1;
      var there := e.transcript.log;
      (!HoldsAll(disk', p, there) && EntryAt(disk', p).meta.value.contentDigest == Some(there)) <==>
      (!Continues(msgs, there) && Revision(e) > 1 && e.meta.value.contentDigest == Some(there))
  {
    RescueSidecarExactly(seen, later, original, msgs, name, writer);
    RescueReplacesExactly(seen, later, original, msgs, name, writer, RecoveryPath(original, name(msgs)));
    ContinuesSelf(msgs);
    hide Continues, RecoveryPath;
  }

  /** The revision does not tell the session that wrote the lost content: its baseline still
      matches, and its next save is accepted if and only if it continues the rescued messages,
      as if nothing had happened in between. */
  lemma RescueGoesUnnoticed(seen: Disk, later: Disk, original: SessionPath, msgs: Log, name: Log -> string,
                            writer: string, version: nat, next: Log, at: nat, mode: Mode)
    requires NeedsRescue(seen, original, msgs) && !mode.Force?
    requires var e := EntryAt(later, RecoveryPath(original, name(msgs)));
      e.transcript.Stored? && e.transcript.log != msgs && Revision(e) >= 1
    ensures var p := RecoveryPath(original, name(msgs));
      var e, after := EntryAt(later, p), EntryAt(Recover(seen, later, original, msgs, name, writer).1, p);
      var base := Baseline(p, e.transcript.log, version, Revision(e));
      base.revision == Revision(after) && base.digest != after.transcript.log &&
      (CheckWrite(after, Some(base), next, at, mode).Ok? <==> Continues(next, msgs))
  {
    RescueSidecarExactly(seen, later, original, msgs, name, writer);
    ContinuesSelf(msgs);
    hide Continues, RecoveryPath;
  }

  lemma NotContinuedByPrefix(msgs: Log, next: Log)
    requires msgs < next && UserTurns(msgs) > 0
    ensures !Continues(msgs, next)
  {
    assert msgs != [] by { assert UserTurns([]) == 0; }
    assert next[0] == msgs[0];
  }
}
