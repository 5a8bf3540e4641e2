/** When a save is accepted, and everything it leaves behind (internal/agent/save.go). */
module SaveRules {
  import opened Text
  import opened Conversation
  import opened Saving

  /** The session's baseline is for this very file. */
  predicate Based(persisted: Option<Baseline>, p: SessionPath) {
    persisted.Some? && persisted.value.path == p
  }

  /** full has prefix's messages first, a leading system message on either side not counting. */
  predicate Extends(full: Log, prefix: Log) {
    var a := if full != [] && full[0].role.System? then full[1..] else full;
    var b := if prefix != [] && prefix[0].role.System? then prefix[1..] else prefix;
    |b| <= |a| && a[..|b|] == b
  }

  lemma ExtendsIsContinues(full: Log, prefix: Log)
    ensures Continues(full, prefix) <==> Extends(full, prefix)
  {
    ContinuesIgnoresSystem(full, prefix);
  }

  /** A save is due: forced, on no file, of the content that is there, as a continuation by a
      session that has no baseline or an up-to-date one, or as the rewrite of content and
      revision the session itself left there and has not fallen behind. */
  predicate MaySave(e: Entry, persisted: Option<Baseline>, p: SessionPath, msgs: Log, version: nat, mode: Mode) {
    mode.Force? || e.transcript.Missing? ||
    (e.transcript.Stored? &&
     var there := e.transcript.log;
     there == msgs ||
     (Extends(msgs, there) && (Based(persisted, p) ==> persisted.value.revision == Revision(e))) ||
     (mode.Rewrite? && Based(persisted, p) && persisted.value.digest == there &&
      persisted.value.revision == Revision(e) && persisted.value.version <= version))
  }

  /** A save happens if and only if it is due. Then transcript, sidecar and baseline all name the
      messages, under the next revision and this writer; otherwise nothing changes and the error
      says whether the file is unreadable, ahead or diverged, and at which revisions. */
  lemma SavesExactly(e: Entry, persisted: Option<Baseline>, p: SessionPath, msgs: Log, version: nat, mode: Mode,
                     writer: string)
    ensures var r := SaveEntry(e, persisted, p, msgs, version, mode, writer);
      (r.error.None? <==> MaySave(e, persisted, p, msgs, version, mode)) &&
      if r.error.None? then
        var rev := (if e.transcript.Missing? && !mode.Force? && Revision(e) < 0 then 0 else Revision(e)) + 1;
        r.entry == Entry(Stored(msgs), Some(BranchMeta(rev, Some(msgs), writer))) &&
        r.baseline == Some(Baseline(p, msgs, version, rev))
      else
        r.entry == e && r.baseline == persisted &&
        if e.transcript.Corrupt? then r.error == Some(LoadFailed)
        else
          var kind := if Extends(e.transcript.log, msgs) then StalePrefix else Diverged;
          var from := if Based(persisted, p) then persisted.value.revision else 0;
          r.error == Some(SnapshotConflict(kind, from, Revision(e)))
  {
    hide Continues, Extends;
    if e.transcript.Stored? {
      ExtendsIsContinues(msgs, e.transcript.log);
      ExtendsIsContinues(e.transcript.log, msgs);
    }
  }

  /** The recovery file lies beside the original, and rescues of different digests of one session
      have different files. */
  lemma RecoveryPathsDiffer(original: SessionPath, a: string, b: string)
    ensures RecoveryPath(original, a) == RecoveryPath(original, b) <==> a == b
    ensures RecoveryPath(original, a).dir == original.dir && RecoveryPath(original, a).ext == ".jsonl"
    ensures original.stem <= RecoveryPath(original, a).stem
  {
    var stem := (if original.stem == "" then "session" else original.stem) + "-recovery-";
    assert (stem + a)[|stem|..] == a && (stem + b)[|stem|..] == b;
  }

  /** What a rescue records of its writer: its own name, unless the sidecar there is of a higher
      revision, or of the same and it has none. */
  lemma RescueWriterExactly(seen: Disk, later: Disk, original: SessionPath, msgs: Log, name: Log -> string,
                            writer: string)
    requires NeedsRescue(seen, original, msgs)
    requires !EntryAt(later, RecoveryPath(original, name(msgs))).transcript.Corrupt?
    ensures var p := RecoveryPath(original, name(msgs));
      var e, after := EntryAt(later, p), EntryAt(Recover(seen, later, original, msgs, name, writer).1, p);
      after.meta.Some? && after.meta.value.writerId ==
        if e.meta.Some? && (Revision(e) > 1 || (Revision(e) == 1 && TrimSpace(writer) == ""))
        then e.meta.value.writerId else writer
  {
    hide TrimSpace;
  }

  /** Needed is exactly: something the user said, and an original that decodes and does not
      extend the messages. */
  lemma RescueNeededExactly(seen: Disk, later: Disk, original: SessionPath, msgs: Log, name: Log -> string,
                            writer: string)
    ensures var (outcome, disk') := Recover(seen, later, original, msgs, name, writer);
      var there, p := EntryAt(seen, original).transcript, RecoveryPath(original, name(msgs));
      var said := exists i :: 0 <= i < |msgs| && msgs[i].role.User?;
      (outcome.NotNeeded? <==> !said || (there.Stored? && Extends(there.log, msgs))) &&
      (outcome.RecoveryLoadFailed? <==>
        said && !(there.Stored? && Extends(there.log, msgs)) &&
        (there.Corrupt? || EntryAt(later, p).transcript.Corrupt?)) &&
      (outcome.Kept? ==> (outcome.existing <==> EntryAt(later, p).transcript == Stored(msgs)))
  {
    hide Continues, Extends;
    UserTurnsMeans(msgs);
    if EntryAt(seen, original).transcript.Stored? {
      ExtendsIsContinues(EntryAt(seen, original).transcript.log, msgs);
    }
  }

  lemma {:induction false} UserTurnsMeans(log: Log)
    ensures UserTurns(log) > 0 <==> exists i :: 0 <= i < |log| && log[i].role.User?
  {
    if log != [] {
      var n := |log| - 1;
      UserTurnsMeans(log[..n]);
      if i :| 0 <= i < |log| && log[i].role.User? {
        assert i < n ==> log[..n][i] == log[i];
      }
      if i :| 0 <= i < n && log[..n][i].role.User? {
        assert log[i].role.User?;
      }
    }
  }
}
