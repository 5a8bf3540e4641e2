/** What a sweep touches, exactly, and what its placeholders show (internal/agent/prune.go). */
module SnipTheory {
  import opened Text
  import opened Conversation
  import opened Compaction
  import opened Maintenance
  import opened MaintenanceTheory

  // ----- lines -----

  function LineBreaks(s: string): nat {
    if s == "" then 0 else (if s[0] == '\n' then 1 else 0) + LineBreaks(s[1..])
  }

  lemma {:induction false} LineBreaksConcat(a: string, b: string)
    ensures LineBreaks(a + b) == LineBreaks(a) + LineBreaks(b)
  {
    if a == "" {
      assert a + b == b;
    } else {
      assert (a + b)[1..] == a[1..] + b;
      LineBreaksConcat(a[1..], b);
    }
  }

  lemma {:induction false} NoLineBreaks(s: string)
    requires '\n' !in s
    ensures LineBreaks(s) == 0
  {
    if s != "" {
      NoLineBreaks(s[1..]);
    }
  }

  lemma {:induction false} SplitIsExact(s: string)
    ensures JoinLines(SplitLines(s)) == s && forall l :: l in SplitLines(s) ==> '\n' !in l
    decreases |s|
  {
    var i := Index(s, "\n");
    if i >= 0 {
      SplitIsExact(s[i + 1..]);
      assert s[i..i + 1] == "\n";
      assert s == s[..i] + "\n" + s[i + 1..];
      NoBreakBefore(s, i);
    } else {
      NoBreakBefore(s, |s|);
      assert s[..|s|] == s;
    }
  }

  lemma NoBreakBefore(s: string, n: nat)
    requires n <= |s| && (Index(s, "\n") == -1 || n == Index(s, "\n"))
    ensures '\n' !in s[..n]
  {
    if i :| 0 <= i < n && s[i] == '\n' {
      assert OccursAt(s, "\n", i);
    }
  }

  lemma {:induction false} JoinedBreaks(lines: seq<string>)
    requires lines != [] && forall l :: l in lines ==> '\n' !in l
    ensures LineBreaks(JoinLines(lines)) == |lines| - 1
  {
    NoLineBreaks(lines[0]);
    if |lines| > 1 {
      JoinedBreaks(lines[1..]);
      LineBreaksConcat(lines[0] + "\n", JoinLines(lines[1..]));
      LineBreaksConcat(lines[0], "\n");
      assert "\n"[1..] == "";
    }
  }

  lemma {:induction false} JoinCut(lines: seq<string>, k: nat)
    requires 0 < k < |lines|
    ensures JoinLines(lines) == JoinLines(lines[..k]) + "\n" + JoinLines(lines[k..])
    decreases k
  {
    assert lines[..k][0] == lines[0] && lines[..k][1..] == lines[1..][..k - 1];
    if k > 1 {
      JoinCut(lines[1..], k - 1);
      assert lines[1..][k - 1..] == lines[k..];
    } else {
      assert lines[..1] == [lines[0]];
    }
  }

  /** The first n lines of a text that has more. */
  predicate FirstLines(text: string, n: nat, first: string) {
    if n == 0 then first == "" else LineBreaks(first) == n - 1 && first + "\n" <= text
  }

  /** The last n lines of a text that has more. */
  predicate LastLines(text: string, n: nat, last: string) {
    if n == 0 then last == ""
    else LineBreaks(last) == n - 1 && |last| < |text| && text[|text| - |last| - 1..] == "\n" + last
  }

  lemma SomeLines(text: string, lines: seq<string>, a: nat, b: nat)
    requires lines == SplitLines(text) && a + b < |lines|
    ensures LineBreaks(text) == |lines| - 1
    ensures FirstLines(text, a, JoinLines(lines[..a])) && LastLines(text, b, JoinLines(lines[|lines| - b..]))
  {
    hide SplitLines, JoinLines, LineBreaks;
    SplitIsExact(text);
    JoinedBreaks(lines);
    JoinNothing();
    if a > 0 {
      JoinCut(lines, a);
      JoinedBreaks(lines[..a]);
      assert (JoinLines(lines[..a]) + "\n" + JoinLines(lines[a..]))[..|JoinLines(lines[..a])| + 1] ==
        JoinLines(lines[..a]) + "\n";
    } else {
      assert lines[..0] == [];
    }
    var k := |lines| - b;
    if b > 0 {
      JoinCut(lines, k);
      JoinedBreaks(lines[k..]);
      assert text == JoinLines(lines[..k]) + ("\n" + JoinLines(lines[k..]));
    } else {
      assert lines[k..] == [];
    }
  }

  lemma JoinNothing()
    ensures JoinLines([]) == ""
  {
  }

  /** A snip of a text with more lines than are shown says how many it shows of each end and how
      many it omits, and shows exactly the first and the last lines of the original. */
  lemma SnipShowsLines(content: string, strategy: SnipStrategy) returns (first: string, last: string)
    requires LineBreaks(content) + 1 > strategy.head + strategy.tail
    ensures FirstLines(content, strategy.head, first) && LastLines(content, strategy.tail, last)
    ensures SnipBody(content, strategy) ==
      " showing first " + Decimal(strategy.head) + " lines and last " + Decimal(strategy.tail) + " lines]\n" +
      first + "\n[... " + Decimal(LineBreaks(content) + 1 - strategy.head - strategy.tail) + " lines omitted ...]\n" +
      last
  {
    hide Decimal, JoinLines, FirstRunes, LastRunes, LineBreaks, SplitLines;
    var lines := SplitLines(content);
    SomeLines(content, lines, 0, 0);
    SomeLines(content, lines, strategy.head, strategy.tail);
    first, last := JoinLines(lines[..strategy.head]), JoinLines(lines[|lines| - strategy.tail..]);
  }

  /** The longest prefix of at most n bytes that ends at a rune boundary. */
  predicate LongestStart(text: string, n: nat, first: string) {
    first <= text && |first| <= n && RuneBoundary(text, |first|) &&
    forall k :: |first| < k <= n && k <= |text| ==> !RuneBoundary(text, k)
  }

  /** The longest suffix of at most n bytes that starts at a rune boundary. */
  predicate LongestEnd(text: string, n: nat, last: string) {
    |last| <= n && |last| <= |text| && last == text[|text| - |last|..] && RuneBoundary(text, |text| - |last|) &&
    forall i: nat :: i < |text| - |last| && |text| - i <= n ==> !RuneBoundary(text, i)
  }

  lemma {:induction false} BackToLongest(s: string, n: nat)
    requires n <= |s|
    ensures LongestStart(s, n, s[..BackToBoundary(s, n)])
  {
    if n > 0 && !RuneBoundary(s, n) {
      BackToLongest(s, n - 1);
    }
  }

  lemma {:induction false} OnToLongest(s: string, n: nat)
    requires n <= |s|
    ensures LongestEnd(s, |s| - n, s[OnToBoundary(s, n)..])
    decreases |s| - n
  {
    if n < |s| && !RuneBoundary(s, n) {
      OnToLongest(s, n + 1);
    }
  }

  lemma EndsAreLongest(s: string, n: nat)
    ensures LongestStart(s, n, FirstRunes(s, n)) && LongestEnd(s, n, LastRunes(s, n))
  {
    if n < |s| {
      BackToLongest(s, n);
      OnToLongest(s, |s| - n);
      hide BackToBoundary, OnToBoundary, LongestStart, LongestEnd, RuneBoundary;
    } else {
      assert s[|s| - |s|..] == s;
    }
  }

  function AtMost(n: nat, limit: nat): nat {
    if n < limit then n else limit
  }

  /** Otherwise it shows both ends, within half and a quarter of the original, and says how many
      bytes are omitted. */
  lemma SnipShowsEnds(content: string, strategy: SnipStrategy) returns (first: string, last: string)
    requires LineBreaks(content) + 1 <= strategy.head + strategy.tail
    ensures var a, b := AtMost(strategy.headChars, |content| / 2), AtMost(strategy.tailChars, |content| / 4);
      LongestStart(content, a, first) && LongestEnd(content, b, last) && a + b <= |content| &&
      SnipBody(content, strategy) ==
        " single large line truncated]\n" + first + "\n[... " + Decimal(|content| - a - b) +
        " bytes omitted ...]\n" + last
  {
    hide Decimal, FirstRunes, LastRunes, LineBreaks, SplitLines, LongestStart, LongestEnd;
    SomeLines(content, SplitLines(content), 0, 0);
    var a, b := AtMost(strategy.headChars, |content| / 2), AtMost(strategy.tailChars, |content| / 4);
    EndsAreLongest(content, a);
    EndsAreLongest(content, b);
    first, last := FirstRunes(content, a), LastRunes(content, b);
  }

  // ----- what a sweep touches -----

  /** A stale result: long and not rewritten yet, or, for a prune, snipped before. */
  predicate Stale(m: Message, mode: Mode) {
    m.role.Tool? && !HasPrefix(m.content, PRUNED_MARKER) &&
    if HasPrefix(m.content, SNIPPED_MARKER) then mode.Prune? else |m.content| >= 1024
  }

  /** Position i lies between the pinned prefix and the tail, or, when the planner leaves nothing
      there, behind the first message and in front of the most recent ones, for a prune. */
  predicate InWindow(w: Sweep, log: Log, i: nat) {
    var p := w.policy;
    p.contextWindow > 0 &&
    if PlannedStart(p, log) > PinnedPrefixLen(p, log) then PinnedPrefixLen(p, log) <= i < PlannedStart(p, log)
    else w.mode.Prune? && 1 <= i < |log| - p.recentKeep
  }

  predicate Chosen(w: Sweep, log: Log, i: nat)
    requires i < |log|
  {
    InWindow(w, log, i) && Stale(log[i], w.mode) && !(w.policy.keepErrors && IsErrorMessage(log[i]))
  }

  /** Some chosen result has not been archived by an earlier snip. */
  predicate NeedsArchive(w: Sweep, log: Log) {
    w.policy.archives &&
    exists i :: 0 <= i < |log| && Chosen(w, log, i) && !(w.mode.Prune? && HasPrefix(log[i].content, SNIPPED_MARKER))
  }

  lemma CandidatesAreChosen(w: Sweep, log: Log, i: nat)
    requires i < |log|
    ensures i in SweepCandidates(w, log) <==> Chosen(w, log, i)
  {
    hide PlannedStart, PinnedPrefixLen, IsErrorMessage, Candidates, InWindow, SweepWindow, Candidate, Stale;
    WindowExactly(w, log, i);
    StaleExactly(w, log[i]);
  }

  lemma WindowExactly(w: Sweep, log: Log, i: nat)
    ensures var win := SweepWindow(w.policy, w.mode, log);
      InWindow(w, log, i) <==> win.Window? && win.head <= i < win.start
    ensures SweepWindow(w.policy, w.mode, log).Window? ==> SweepWindow(w.policy, w.mode, log).start <= |log|
  {
    hide PlannedStart, PinnedPrefixLen;
  }

  lemma StaleExactly(w: Sweep, m: Message)
    ensures Candidate(w.policy, w.mode, m) <==> Stale(m, w.mode) && !(w.policy.keepErrors && IsErrorMessage(m))
  {
    hide IsErrorMessage;
  }

  lemma CandidatesAreIn(w: Sweep, log: Log)
    ensures forall k :: 0 <= k < |SweepCandidates(w, log)| ==> SweepCandidates(w, log)[k] < |log|
  {
    hide PlannedStart, PinnedPrefixLen;
  }

  lemma ArchiveIsNeeded(w: Sweep, log: Log)
    ensures SweepArchive(w, log) ==
      if !NeedsArchive(w, log) then Some("") else if w.archive.WriteFailed? then None else Some(w.archive.path)
  {
    hide SweepCandidates, Chosen;
    var idx := SweepCandidates(w, log);
    forall i: nat | i < |log| ensures i in idx <==> Chosen(w, log, i) {
      CandidatesAreChosen(w, log, i);
    }
    CandidatesAreIn(w, log);
    if ArchivesSomething(w.mode, log, idx) {
      var k :| 0 <= k < |idx| && !(w.mode.Prune? && Snipped(log[idx[k]].content));
      assert Chosen(w, log, idx[k]);
    }
    if i :| 0 <= i < |log| && Chosen(w, log, i) && !(w.mode.Prune? && HasPrefix(log[i].content, SNIPPED_MARKER)) {
      var k :| 0 <= k < |idx| && idx[k] == i;
    }
  }

  /** A sweep rewrites exactly the chosen results, with the path of the archive if one is needed,
      unless that archive cannot be written. */
  lemma SweepTouchesExactly(w: Sweep, log: Log, i: nat)
    requires i < |log|
    ensures SweepLog(w, log)[i] ==
      if Chosen(w, log, i) && !(NeedsArchive(w, log) && w.archive.WriteFailed?) then
        log[i].(content := Rewrite(log[i], w, if NeedsArchive(w, log) then w.archive.path else ""))
      else log[i]
  {
    hide SweepCandidates, Chosen, NeedsArchive, SweepArchive, Rewrite;
    CandidatesAreChosen(w, log, i);
    ArchiveIsNeeded(w, log);
  }

  /** A pruned result names its tool, the size of the original and its archive, an earlier one
      first. */
  lemma PruneSays(m: Message, archive: string)
    ensures var prior := OriginalArchive(m.content);
      var at := if prior != "" then prior else if archive != "" then archive else "not archived";
      OriginalBytes(m.content) >= 0 ==>
        PRUNED_MARKER + m.name + ", " + Decimal(OriginalBytes(m.content)) + " bytes archived to " + at + ";" <=
          PruneResult(m, archive)
    ensures !Snipped(m.content) ==> OriginalBytes(m.content) == |m.content| && OriginalArchive(m.content) == ""
  {
    hide Decimal, LastField, ScanInt, TrimSpace;
    var prior, bytes := OriginalArchive(m.content), OriginalBytes(m.content);
    if bytes >= 0 {
      PruneLayout(m.name, Decimal(bytes), ArchiveLabel(if prior != "" then prior else archive));
    }
  }

  lemma PruneLayout(name: string, bytes: string, at: string)
    ensures PRUNED_MARKER + name + ", " + bytes + " bytes archived to " + at + ";" <=
      PRUNED_MARKER + (name + ", " + bytes + ARCHIVED_TO + at + ";") + " re-run the tool if the data is needed again]"
  {
    assert PRUNED_MARKER + (name + ", " + bytes + ARCHIVED_TO + at + ";") ==
      PRUNED_MARKER + name + ", " + bytes + " bytes archived to " + at + ";";
  }
}
