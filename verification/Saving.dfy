/** Saving a session's transcript with optimistic checks, and the branch that rescues a
    conflicted one (internal/agent/save.go, internal/agent/branch.go). */
module Saving {
  import opened Text
  import opened Conversation

  /** Content of a transcript file; Corrupt stands for one that does not decode. */
  datatype Transcript = Missing | Corrupt | Stored(log: Log)

  /** The part of the sidecar that saving reads and writes. An empty digest is None. */
  datatype BranchMeta = BranchMeta(revision: int, contentDigest: Option<Log>, writerId: string)

  datatype Entry = Entry(transcript: Transcript, meta: Option<BranchMeta>)

  type Disk = map<SessionPath, Entry>

  datatype Mode = Force | Snapshot | Rewrite

  datatype Conflict = StalePrefix | Diverged

  datatype SaveError = LoadFailed | SnapshotConflict(kind: Conflict, baseRevision: int, diskRevision: int)

  function EntryAt(disk: Disk, p: SessionPath): Entry {
    if p in disk then disk[p] else Entry(Missing, None)
  }

  function Revision(e: Entry): int {
    if e.meta.Some? then e.meta.value.revision else 0
  }

  // ----- prefixes -----

  function WithoutSystem(log: Log): Log {
    if log != [] && log[0].role.System? then log[1..] else log
  }

  /** full continues prefix, a leading system message on either side not counting. */
  predicate Continues(full: Log, prefix: Log) {
    prefix <= full || WithoutSystem(prefix) <= WithoutSystem(full)
  }

  method MessagesHavePrefix(full: Log, prefix: Log) returns (r: bool)
    ensures r == (prefix <= full)
  {
    if |prefix| > |full| {
      return false;
    }
    for i := 0 to |prefix|
      invariant prefix[..i] == full[..i]
    {
      if full[i] != prefix[i] {
        return false;
      }
    }
    return true;
  }

  lemma ContinuesIgnoresSystem(full: Log, prefix: Log)
    ensures Continues(full, prefix) <==> WithoutSystem(prefix) <= WithoutSystem(full)
  {
    if prefix <= full && prefix != [] {
      assert prefix[0] == full[0];
    }
  }

  lemma ContinuesTransitive(a: Log, b: Log, c: Log)
    requires Continues(b, a) && Continues(c, b)
    ensures Continues(c, a)
  {
    ContinuesIgnoresSystem(b, a);
    ContinuesIgnoresSystem(c, b);
    ContinuesIgnoresSystem(c, a);
  }

  // ----- the check before a write -----

  function BaselineFor(persisted: Option<Baseline>, p: SessionPath): Option<Baseline> {
    if persisted.Some? && persisted.value.path == p then persisted else None
  }

  predicate Owns(base: Option<Baseline>, existing: Log, revision: int, version: nat) {
    base.Some? && base.value.version <= version && base.value.revision == revision && base.value.digest == existing
  }

  function ConflictKind(existing: Log, next: Log): Conflict {
    if Continues(existing, next) then StalePrefix else Diverged
  }

  /** The revision the write is based on, or why it must not happen. */
  function CheckWrite(e: Entry, base: Option<Baseline>, next: Log, version: nat, mode: Mode): Result<int, SaveError> {
    var rev := Revision(e);
    match e.transcript
    case Missing => Ok(if mode.Force? then rev else 0)
    case Corrupt => if mode.Force? then Ok(rev) else Err(LoadFailed)
    case Stored(existing) =>
      var baseRev := if base.Some? then base.value.revision else 0;
      if mode.Force? then Ok(rev)
      else if existing == next || Continues(next, existing) then
        if base.Some? && rev != baseRev && existing != next
        then Err(SnapshotConflict(ConflictKind(existing, next), baseRev, rev))
        else Ok(rev)
      else if mode.Rewrite? && Owns(base, existing, rev, version) then Ok(rev)
      else Err(SnapshotConflict(ConflictKind(existing, next), baseRev, rev))
  }

  method CheckSnapshotWrite(e: Entry, base: Option<Baseline>, next: Log, version: nat, mode: Mode)
    returns (r: Result<int, SaveError>)
    requires !mode.Force?
    ensures r == CheckWrite(e, base, next, version, mode)
  {
    if e.transcript.Missing? {
      return Ok(0);
    }
    if e.transcript.Corrupt? {
      return Err(LoadFailed);
    }
    var existing, rev := e.transcript.log, Revision(e);
    var baseRev := if base.Some? then base.value.revision else 0;
    var ahead := MessagesHavePrefix(next, existing);
    if !ahead {
      ahead := MessagesHavePrefix(WithoutSystem(next), WithoutSystem(existing));
    }
    if existing == next || ahead {
      if base.Some? && rev != baseRev && existing != next {
        return Err(SnapshotConflict(ConflictKind(existing, next), baseRev, rev));
      }
      return Ok(rev);
    }
    if mode.Rewrite? && Owns(base, existing, rev, version) {
      return Ok(rev);
    }
    var behind := MessagesHavePrefix(existing, next);
    if !behind {
      behind := MessagesHavePrefix(WithoutSystem(existing), WithoutSystem(next));
    }
    return Err(SnapshotConflict(if behind then StalePrefix else Diverged, baseRev, rev));
  }

  // ----- the sidecar -----

  /** preserveBranchMetaPersistence: the record to write, given the one already there. */
  function Merged(next: BranchMeta, existing: BranchMeta): BranchMeta {
    if existing.revision > next.revision then existing
    else if existing.revision == next.revision then
      BranchMeta(next.revision,
                 if next.contentDigest.None? then existing.contentDigest else next.contentDigest,
                 if TrimSpace(next.writerId) == "" then existing.writerId else next.writerId)
    else next
  }

  function SaveMeta(e: Entry, m: BranchMeta): Entry {
    e.(meta := Some(if e.meta.Some? then Merged(m, e.meta.value) else m))
  }

  class MetaRecord {
    var revision: int
    var contentDigest: Option<Log>
    var writerId: string

    function Value(): BranchMeta
      reads this
    {
      BranchMeta(revision, contentDigest, writerId)
    }

    constructor (m: BranchMeta)
      ensures Value() == m
    {
      revision, contentDigest, writerId := m.revision, m.contentDigest, m.writerId;
    }

    method PreservePersistence(existing: BranchMeta)
      modifies this
      ensures Value() == Merged(old(Value()), existing)
    {
      if existing.revision > revision {
        revision, contentDigest, writerId := existing.revision, existing.contentDigest, existing.writerId;
        return;
      }
      if existing.revision == revision {
        if contentDigest.None? {
          contentDigest := existing.contentDigest;
        }
        if TrimSpace(writerId) == "" {
          writerId := existing.writerId;
        }
      }
    }
  }

  /** recordSessionContentRevision: the entry with the next revision recorded. */
  function Recorded(e: Entry, digest: Log, base: int, writer: string): Entry {
    var current := Revision(e);
    var from := if current < base then base else current;
    SaveMeta(e, BranchMeta(from + 1, Some(digest), writer))
  }

  /** The revision reported back; a stored value that is not positive is not trusted. */
  function ReportedRevision(e: Entry, digest: Log, base: int, writer: string): int {
    var current := Revision(e);
    var stored := Revision(Recorded(e, digest, base, writer));
    if stored > 0 then stored else (if current < base then base else current) + 1
  }

  // ----- save -----

  datatype Saved = Saved(entry: Entry, baseline: Option<Baseline>, error: Option<SaveError>)

  /** One save of the given messages, taken at the given version, under the file lock. */
  function SaveEntry(e: Entry, persisted: Option<Baseline>, p: SessionPath, msgs: Log, version: nat, mode: Mode,
                     writer: string): Saved {
    var check := CheckWrite(e, BaselineFor(persisted, p), msgs, version, mode);
    if check.Err? then Saved(e, persisted, Some(check.error))
    else
      var written := e.(transcript := Stored(msgs));
      Saved(Recorded(written, msgs, check.value, writer),
            Some(Baseline(p, msgs, version, ReportedRevision(written, msgs, check.value, writer))), None)
  }

  class SessionStore {
    var disk: Disk
    const writer: string

    constructor (disk: Disk, writer: string)
      ensures this.disk == disk && this.writer == writer
    {
      this.disk := disk;
      this.writer := writer;
    }

    method RecordRevision(p: SessionPath, digest: Log, base: int) returns (revision: int)
      modifies this
      ensures disk == old(disk)[p := Recorded(EntryAt(old(disk), p), digest, base, writer)]
      ensures revision == ReportedRevision(EntryAt(old(disk), p), digest, base, writer)
    {
      var e := EntryAt(disk, p);
      var from := Revision(e);
      if from < base {
        from := base;
      }
      var next := new MetaRecord(BranchMeta(from + 1, Some(digest), writer));
      if e.meta.Some? {
        next.PreservePersistence(e.meta.value);
      }
      disk := disk[p := e.(meta := Some(next.Value()))];
      revision := if next.revision > 0 then next.revision else from + 1;
    }

    /** Save, SaveSnapshot and SaveRewrite, by mode. */
    method Save(session: Session, p: SessionPath, mode: Mode) returns (error: Option<SaveError>)
      modifies this, session`persisted
      ensures var r := SaveEntry(EntryAt(old(disk), p), old(session.persisted), p, session.messages,
                                 session.version, mode, writer);
        error == r.error && session.persisted == r.baseline &&
        disk == if r.error.None? then old(disk)[p := r.entry] else old(disk)
    {
      var msgs, version := session.messages, session.version;
      var e := EntryAt(disk, p);
      var base := Revision(e);
      if !mode.Force? {
        var check := CheckSnapshotWrite(e, BaselineFor(session.persisted, p), msgs, version, mode);
        if check.Err? {
          return Some(check.error);
        }
        base := check.value;
      }
      disk := disk[p := e.(transcript := Stored(msgs))];
      var revision := RecordRevision(p, msgs, base);
      session.MarkPersisted(p, msgs, version, revision);
      error := None;
    }

    /** SaveRecoveryBranch: rescues the messages of a conflicted session. The lock on the original
        is given back before the one on the recovery file is taken; meanwhile is the disk as
        others have left it then. */
    method SaveRecoveryBranch(session: Session, original: SessionPath, name: Log -> string, meanwhile: Disk)
      returns (outcome: Recovery)
      modifies this, session`persisted
      ensures var r := Recover(old(disk), meanwhile, original, session.messages, name, writer);
        outcome == r.0 && disk == r.1
      ensures session.persisted == match outcome
        case Kept(p, _) => Some(Baseline(p, session.messages, session.version, Revision(EntryAt(disk, p))))
        case _ => old(session.persisted)
    {
      hide RecoveryPath, UserTurns;
      var msgs := session.messages;
      var turns := CountUserTurns(msgs);
      if turns == 0 {
        return NotNeeded;
      }
      var current := EntryAt(disk, original).transcript;
      if current.Corrupt? {
        return RecoveryLoadFailed;
      }
      if current.Stored? {
        var there := MessagesHavePrefix(current.log, msgs);
        if !there {
          there := MessagesHavePrefix(WithoutSystem(current.log), WithoutSystem(msgs));
        }
        if current.log == msgs || there {
          return NotNeeded;
        }
      }
      disk := meanwhile;
      var p := RecoveryPath(original, name(msgs));
      var e := EntryAt(disk, p);
      if e.transcript.Corrupt? {
        return RecoveryLoadFailed;
      }
      var existing := e.transcript == Stored(msgs);
      if !existing {
        disk := disk[p := e.(transcript := Stored(msgs))];
      }
      disk := disk[p := SaveMeta(EntryAt(disk, p), BranchMeta(1, Some(msgs), writer))];
      session.MarkPersisted(p, msgs, session.version, Revision(EntryAt(disk, p)));
      outcome := Kept(p, existing);
    }
  }

  // ----- the recovery branch -----

  function UserTurns(log: Log): nat {
    if log == [] then 0
    else UserTurns(log[..|log| - 1]) + (if log[|log| - 1].role.User? then 1 else 0)
  }

  method CountUserTurns(log: Log) returns (n: nat)
    ensures n == UserTurns(log)
  {
    n := 0;
    for i := 0 to |log|
      invariant n == UserTurns(log[..i])
    {
      assert log[..i + 1][..i] == log[..i];
      if log[i].role.User? {
        n := n + 1;
      }
    }
    assert log[..|log|] == log;
  }

  /** The file named after the original and a short form of the content digest. */
  function RecoveryPath(original: SessionPath, digestName: string): SessionPath {
    var stem := if original.stem == "" then "session" else original.stem;
    SessionPath(original.dir, stem + "-recovery-" + digestName, ".jsonl")
  }

  datatype Recovery = NotNeeded | RecoveryLoadFailed | Kept(path: SessionPath, existing: bool)

  /** The messages hold a user turn, the original decodes and does not hold all of them. */
  predicate NeedsRescue(seen: Disk, original: SessionPath, msgs: Log) {
    var current := EntryAt(seen, original).transcript;
    UserTurns(msgs) > 0 && !current.Corrupt? && !(current.Stored? && Continues(current.log, msgs))
  }

  /** seen is the disk when the original is checked, later when the recovery file is locked. */
  function Recover(seen: Disk, later: Disk, original: SessionPath, msgs: Log, name: Log -> string, writer: string)
    : (Recovery, Disk)
  {
    var p := RecoveryPath(original, name(msgs));
    var e := EntryAt(later, p);
    if !NeedsRescue(seen, original, msgs) then
      var unreadable := UserTurns(msgs) > 0 && EntryAt(seen, original).transcript.Corrupt?;
      (if unreadable then RecoveryLoadFailed else NotNeeded, seen)
    else if e.transcript.Corrupt? then (RecoveryLoadFailed, later)
    else
      (Kept(p, e.transcript == Stored(msgs)),
       later[p := SaveMeta(e.(transcript := Stored(msgs)), BranchMeta(1, Some(msgs), writer))])
  }
}
