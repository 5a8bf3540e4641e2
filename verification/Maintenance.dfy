/** Rewriting stale tool results in place of a summary (internal/agent/prune.go). */
module Maintenance {
  import opened Text
  import opened Conversation
  import opened Compaction

  // The em dash is three bytes.
  const SNIPPED_MARKER := "[snipped tool result \U{e2}\U{80}\U{94} "
  const PRUNED_MARKER := "[elided tool result \U{e2}\U{80}\U{94} "
  const ARCHIVED_TO := " bytes archived to "
  const NOT_ARCHIVED := "not archived"
  const MIN_PRUNE_BYTES := 1024

  datatype Mode = Snip | Prune

  datatype SnipStrategy = SnipStrategy(head: nat, tail: nat, headChars: nat, tailChars: nat)

  /** One maintenance pass: its archive outcome and the snip geometry of each tool. */
  datatype Sweep = Sweep(policy: Policy, mode: Mode, archive: Archive, strategy: string -> SnipStrategy)

  datatype Stats = Stats(results: nat, savedChars: int, archive: string)

  // ----- rewriting one result -----

  predicate Snipped(content: string) {
    HasPrefix(content, SNIPPED_MARKER)
  }

  predicate Pruned(content: string) {
    HasPrefix(content, PRUNED_MARKER)
  }

  predicate ShouldMaintain(m: Message, mode: Mode) {
    m.role.Tool? && !Pruned(m.content) &&
    if mode.Snip? then |m.content| >= MIN_PRUNE_BYTES && !Snipped(m.content)
    else Snipped(m.content) || |m.content| >= MIN_PRUNE_BYTES
  }

  function OriginalBytes(content: string): int {
    if !Snipped(content) then |content|
    else
      var end := Index(content, ARCHIVED_TO);
      if end <= |SNIPPED_MARKER| then |content|
      else
        var field := LastField(content[|SNIPPED_MARKER|..end]);
        if field != "" && ScanInt(field).Some? && ScanInt(field).value > 0 then ScanInt(field).value else |content|
  }

  /** The archive named in a snipped placeholder, "" when there is none. */
  function OriginalArchive(content: string): string {
    if !Snipped(content) then ""
    else
      var at := Index(content, ARCHIVED_TO);
      if at < 0 then ""
      else
        var archive := FieldAt(content, at + |ARCHIVED_TO|);
        if archive == NOT_ARCHIVED then "" else archive
  }

  /** The trimmed text from start up to the next ';', "" when there is none. */
  function FieldAt(content: string, start: nat): string
    requires start <= |content|
  {
    var end := IndexFrom(content, ";", start);
    if end < 0 then "" else TrimSpace(content[start..end])
  }

  function ArchiveLabel(archive: string): string {
    if archive == "" then NOT_ARCHIVED else archive
  }

  /** "name, N bytes archived to where;" - the header both placeholders share. */
  function Header(name: string, bytes: int, archive: string): string {
    name + ", " + (if bytes >= 0 then Decimal(bytes) else "-" + Decimal(-bytes)) + ARCHIVED_TO +
    ArchiveLabel(archive) + ";"
  }

  function PruneResult(m: Message, archive: string): string {
    var prior := OriginalArchive(m.content);
    PRUNED_MARKER + Header(m.name, OriginalBytes(m.content), if prior != "" then prior else archive) +
    " re-run the tool if the data is needed again]"
  }

  predicate RuneBoundary(s: string, i: nat) {
    i == 0 || i == |s| || (i < |s| && !(0x80 <= s[i] as int < 0xc0))
  }

  function BackToBoundary(s: string, n: nat): (r: nat)
    ensures r <= n && RuneBoundary(s, r)
  {
    if n > 0 && !RuneBoundary(s, n) then BackToBoundary(s, n - 1) else n
  }

  function OnToBoundary(s: string, n: nat): (r: nat)
    requires n <= |s|
    ensures n <= r <= |s| && RuneBoundary(s, r)
    decreases |s| - n
  {
    if n < |s| && !RuneBoundary(s, n) then OnToBoundary(s, n + 1) else n
  }

  function FirstRunes(s: string, n: nat): string {
    if |s| <= n then s else s[..BackToBoundary(s, n)]
  }

  function LastRunes(s: string, n: nat): string {
    if |s| <= n then s else s[OnToBoundary(s, |s| - n)..]
  }

  function Min(a: nat, b: nat): nat {
    if a < b then a else b
  }

  function TruncatedLine(first: string, omitted: string, last: string): string {
    " single large line truncated]\n" + first + "\n[... " + omitted + " bytes omitted ...]\n" + last
  }

  function ElidedLines(head: string, tail: string, first: string, omitted: string, last: string): string {
    " showing first " + head + " lines and last " + tail + " lines]\n" + first + "\n[... " + omitted +
    " lines omitted ...]\n" + last
  }

  /** What follows the header of a snipped result: which part is shown, then the part itself. */
  function SnipBody(content: string, strategy: SnipStrategy): string {
    var lines := SplitLines(content);
    if |lines| <= strategy.head + strategy.tail then
      var headChars, tailChars := Min(strategy.headChars, |content| / 2), Min(strategy.tailChars, |content| / 4);
      var omitted := |content| - headChars - tailChars;
      TruncatedLine(FirstRunes(content, headChars), Decimal(if omitted < 0 then 0 else omitted),
        LastRunes(content, tailChars))
    else
      ElidedLines(Decimal(strategy.head), Decimal(strategy.tail), JoinLines(lines[..strategy.head]),
                  Decimal(|lines| - strategy.head - strategy.tail), JoinLines(lines[|lines| - strategy.tail..]))
  }

  function SnipResult(m: Message, archive: string, strategy: SnipStrategy): string {
    SNIPPED_MARKER + Header(m.name, |m.content|, archive) + SnipBody(m.content, strategy)
  }

  function Rewrite(m: Message, w: Sweep, archive: string): string {
    if w.mode.Prune? then PruneResult(m, archive) else SnipResult(m, archive, w.strategy(m.name))
  }

  // ----- one pass over the log -----

  datatype Window = NoWindow | Window(head: nat, start: nat)

  /** The part of the log a pass may touch; only a prune falls back to the fixed window when
      the planner finds nothing to compact. */
  function SweepWindow(p: Policy, mode: Mode, log: Log): (w: Window)
    ensures w.Window? ==> w.head <= w.start
  {
    if p.contextWindow <= 0 then NoWindow
    else if PlanOk(p, log, 1) then Window(PinnedPrefixLen(p, log), PlannedStart(p, log))
    else if mode.Snip? || |log| - p.recentKeep < 1 then NoWindow
    else Window(1, |log| - p.recentKeep)
  }

  predicate Candidate(p: Policy, mode: Mode, m: Message) {
    ShouldMaintain(m, mode) && !(p.keepErrors && IsErrorMessage(m))
  }

  function Candidates(p: Policy, mode: Mode, log: Log, from: nat, end: nat): (idx: seq<nat>)
    requires from <= end <= |log|
    ensures forall k :: 0 <= k < |idx| ==> from <= idx[k] < end && Candidate(p, mode, log[idx[k]])
    ensures forall k, l :: 0 <= k < l < |idx| ==> idx[k] < idx[l]
    ensures forall i :: from <= i < end && Candidate(p, mode, log[i]) ==> i in idx
    decreases end
  {
    if from == end then []
    else Candidates(p, mode, log, from, end - 1) + (if Candidate(p, mode, log[end - 1]) then [end - 1] else [])
  }

  function SweepCandidates(w: Sweep, log: Log): seq<nat>
  {
    match SweepWindow(w.policy, w.mode, log)
    case NoWindow => []
    case Window(head, start) => Candidates(w.policy, w.mode, log, head, start)
  }

  /** Something is archived unless every candidate of a prune is an archived snip already. */
  predicate ArchivesSomething(mode: Mode, log: Log, idx: seq<nat>)
    requires forall k :: 0 <= k < |idx| ==> idx[k] < |log|
  {
    exists k :: 0 <= k < |idx| && !(mode.Prune? && Snipped(log[idx[k]].content))
  }

  function SweepArchive(w: Sweep, log: Log): Option<string>
  {
    var idx := SweepCandidates(w, log);
    if !w.policy.archives || !ArchivesSomething(w.mode, log, idx) then Some("")
    else if w.archive.WriteFailed? then None
    else Some(w.archive.path)
  }

  function WithContents(log: Log, idx: seq<nat>, text: Message -> string): (r: Log)
    ensures |r| == |log|
  {
    seq(|log|, i requires 0 <= i < |log| => if i in idx then log[i].(content := text(log[i])) else log[i])
  }

  function Rewriter(w: Sweep, archive: string): Message -> string {
    m => Rewrite(m, w, archive)
  }

  /** The log after one pass: every candidate rewritten, everything else untouched. */
  function SweepLog(w: Sweep, log: Log): (r: Log)
    ensures |r| == |log|
  {
    var archive := SweepArchive(w, log);
    if archive.None? then log else WithContents(log, SweepCandidates(w, log), Rewriter(w, archive.value))
  }

  method MaintainStaleToolResults(w: Sweep, session: Session) returns (stats: Stats, archiveError: bool)
    modifies session`messages, session`version, session`rewriteVersion
    ensures session.messages == SweepLog(w, old(session.messages))
    ensures archiveError == SweepArchive(w, old(session.messages)).None?
    ensures archiveError ==> session.messages == old(session.messages)
    ensures stats.results > 0 <==> session.messages != old(session.messages)
    ensures stats.results == Changed(old(session.messages), session.messages)
    ensures stats.savedChars == ContentBytes(old(session.messages)) - ContentBytes(session.messages)
    ensures session.rewriteVersion == old(session.rewriteVersion) + if stats.results > 0 then 1 else 0
  {
    hide PlanOk, Candidates, Rewriter, WithContents, Changed, ContentBytes;
    var p := w.policy;
    var msgs := session.messages;
    stats, archiveError := Stats(0, 0, ""), false;
    SameCounts(msgs);
    if SweepCandidates(w, msgs) == [] {
      NothingRewritten(w, msgs);
    }
    if p.contextWindow <= 0 {
      return;
    }
    var head, start, ok := PlanCompaction(p, msgs, 1);
    if !ok {
      if w.mode.Snip? || |msgs| - p.recentKeep < 1 {
        return;
      }
      head, start := 1, |msgs| - p.recentKeep;
    }
    assert SweepWindow(p, w.mode, msgs) == Window(head, start);
    var idx := CollectCandidates(p, w.mode, msgs, head, start);
    assert idx == SweepCandidates(w, msgs);
    hide SweepWindow, SweepCandidates, PlannedStart, PinnedPrefixLen;
    if |idx| == 0 {
      return;
    }
    if p.archives && ArchivesSomething(w.mode, msgs, idx) {
      if w.archive.WriteFailed? {
        archiveError := true;
        return;
      }
      stats := stats.(archive := w.archive.path);
    }
    var next, results, saved := RewriteContents(msgs, idx, Rewriter(w, stats.archive));
    stats := stats.(results := results, savedChars := saved);
    ChangedZero(msgs, next);
    if stats.results == 0 {
      return;
    }
    session.Replace(next);
    session.IncrementRewrite();
  }

  lemma NothingRewritten(w: Sweep, log: Log)
    requires SweepCandidates(w, log) == []
    ensures SweepLog(w, log) == log && SweepArchive(w, log) == Some("")
  {
  }

  method CollectCandidates(p: Policy, mode: Mode, msgs: Log, head: nat, start: nat) returns (idx: seq<nat>)
    requires head <= start <= |msgs|
    ensures idx == Candidates(p, mode, msgs, head, start)
  {
    idx := [];
    for i := head to start
      invariant idx == Candidates(p, mode, msgs, head, i)
    {
      if ShouldMaintain(msgs[i], mode) && !(p.keepErrors && IsErrorMessage(msgs[i])) {
        idx := idx + [i];
      }
    }
  }

  method RewriteContents(msgs: Log, idx: seq<nat>, text: Message -> string)
    returns (next: Log, results: nat, saved: int)
    requires forall k :: 0 <= k < |idx| ==> idx[k] < |msgs|
    requires forall k, l :: 0 <= k < l < |idx| ==> idx[k] < idx[l]
    ensures next == WithContents(msgs, idx, text)
    ensures results == Changed(msgs, next)
    ensures saved == ContentBytes(msgs) - ContentBytes(next)
  {
    next, results, saved := msgs, 0, 0;
    SameCounts(msgs);
    for k := 0 to |idx|
      invariant next == WithContents(msgs, idx[..k], text)
      invariant results == Changed(msgs, next)
      invariant saved == ContentBytes(msgs) - ContentBytes(next)
    {
      assert idx[..k + 1] == idx[..k] + [idx[k]];
      assert idx[k] !in idx[..k];
      var m := next[idx[k]];
      var replacement := text(m);
      if replacement != m.content {
        UpdateCounts(msgs, next, idx[k], m.(content := replacement));
        results, saved := results + 1, saved + |m.content| - |replacement|;
        next := next[idx[k] := m.(content := replacement)];
      }
      assert next == WithContents(msgs, idx[..k + 1], text);
    }
    assert idx[..|idx|] == idx;
  }

  // ----- counting what a pass did -----

  /** How many messages differ between two logs of one length. */
  function Changed(a: Log, b: Log): nat
    requires |a| == |b|
  {
    if a == [] then 0 else (if a[0] != b[0] then 1 else 0) + Changed(a[1..], b[1..])
  }

  function ContentBytes(log: Log): nat {
    if log == [] then 0 else |log[0].content| + ContentBytes(log[1..])
  }

  lemma {:induction false} SameCounts(a: Log)
    ensures Changed(a, a) == 0
  {
    if a != [] {
      SameCounts(a[1..]);
    }
  }

  lemma {:induction false} ChangedZero(a: Log, b: Log)
    requires |a| == |b|
    ensures Changed(a, b) == 0 <==> a == b
  {
    if a != [] {
      ChangedZero(a[1..], b[1..]);
      assert a == [a[0]] + a[1..] && b == [b[0]] + b[1..];
    }
  }

  lemma {:induction false} UpdateCounts(a: Log, b: Log, i: nat, m: Message)
    requires |a| == |b| && i < |a| && b[i] == a[i] && m != a[i]
    ensures Changed(a, b[i := m]) == Changed(a, b) + 1
    ensures ContentBytes(b[i := m]) == ContentBytes(b) - |b[i].content| + |m.content|
  {
    if i > 0 {
      assert b[i := m][1..] == b[1..][i - 1 := m];
      UpdateCounts(a[1..], b[1..], i - 1, m);
    } else {
      assert b[i := m][1..] == b[1..];
    }
  }
}
