/** What snipping and pruning stale tool results preserve, report and repeat. */
module MaintenanceTheory {
  import opened Text
  import opened Conversation
  import opened Compaction
  import opened CompactionTheory
  import opened Maintenance

  // ----- a pass touches tool-result text only -----

  lemma SweepOnlyToolText(w: Sweep, log: Log)
    ensures SameShape(log, SweepLog(w, log))
    ensures forall i :: 0 <= i < |log| && SweepLog(w, log)[i] != log[i] ==>
              log[i].role.Tool? && Candidate(w.policy, w.mode, log[i]) && i in SweepCandidates(w, log)
  {
    var archive := SweepArchive(w, log);
    if archive.Some? {
      WithContentsShape(log, SweepCandidates(w, log), Rewriter(w, archive.value));
      CandidatesAreTools(w, log);
    }
  }

  lemma CandidatesAreTools(w: Sweep, log: Log)
    ensures forall i :: i in SweepCandidates(w, log) ==>
              i < |log| && log[i].role.Tool? && Candidate(w.policy, w.mode, log[i])
  {
  }

  lemma WithContentsShape(log: Log, idx: seq<nat>, text: Message -> string)
    ensures SameShape(log, WithContents(log, idx, text))
    ensures forall i :: 0 <= i < |log| && WithContents(log, idx, text)[i] != log[i] ==> i in idx
  {
  }

  lemma SweepKeepsPairing(w: Sweep, log: Log)
    ensures Paired(SweepLog(w, log)) <==> Paired(log)
  {
    SweepOnlyToolText(w, log);
    SameShapeScan(BALANCED, log, SweepLog(w, log));
  }

  // ----- what the placeholders remember -----

  /** The header of a placeholder, with everything after the archive separator in rest. */
  function Placeholder(name: string, bytes: nat, rest: string): string {
    SNIPPED_MARKER + name + ", " + Decimal(bytes) + ARCHIVED_TO + rest
  }

  /** sep occurs in marker + name + ", " + digits + sep + rest first where it is written. */
  lemma FirstAfterFields(s: string, marker: string, name: string, dec: string, sep: string, rest: string)
    requires s == marker + name + ", " + dec + sep + rest
    requires |sep| >= 2 && sep[0] == ' ' && !IsDigit(sep[1]) && ',' !in sep
    requires marker != "" && marker[|marker| - 1] == ' '
    requires forall i {:trigger marker[i]} :: 0 <= i < |marker| - 1 ==> marker[i] != ' ' || marker[i + 1] != sep[1]
    requires dec != "" && forall i :: 0 <= i < |dec| ==> IsDigit(dec[i])
    requires !Contains(" " + name, sep)
    ensures Index(s, sep) == |marker| + |name| + 2 + |dec|
  {
    var m := |marker|;
    var comma := m + |name|;
    var e := comma + 2 + |dec|;
    assert s[e..e + |sep|] == sep;
    assert OccursAt(s, sep, e);
    forall i: nat | i < e && i + |sep| <= |s| ensures !OccursAt(s, sep, i) {
      var here := s[i..i + |sep|];
      assert here[0] == s[i] && here[1] == s[i + 1];
      if i >= comma + 2 {
        assert s[i] == dec[i - comma - 2];
      } else if i > comma {
        assert s[i + 1] == dec[0];
      } else if i + |sep| > comma {
        assert here[comma - i] == s[comma] == ',';
      } else if i + 1 < m {
        assert s[i] == marker[i] && s[i + 1] == marker[i + 1];
      } else {
        var spaced, j := " " + name, i - (m - 1);
        assert s[m - 1..comma] == spaced;
        assert spaced[j..j + |sep|] == here;
        assert !OccursAt(spaced, sep, j);
      }
    }
    var r := IndexFrom(s, sep, 0);
    assert 0 <= r <= e;
  }

  lemma MarkerFacts()
    ensures SNIPPED_MARKER != "" && SNIPPED_MARKER[|SNIPPED_MARKER| - 1] == ' '
    ensures forall i {:trigger SNIPPED_MARKER[i]} :: 0 <= i < |SNIPPED_MARKER| - 1 ==>
              SNIPPED_MARKER[i] != ' ' || SNIPPED_MARKER[i + 1] != 'b'
    ensures |ARCHIVED_TO| >= 2 && ARCHIVED_TO[0] == ' ' && ARCHIVED_TO[1] == 'b' && ',' !in ARCHIVED_TO
  {
  }

  /** The separator is first found where the header put it, unless the tool's name, seen after
      the marker's final space, contains it. */
  lemma SeparatorFound(name: string, bytes: nat, rest: string)
    requires !Contains(" " + name, ARCHIVED_TO)
    ensures Index(Placeholder(name, bytes, rest), ARCHIVED_TO) ==
            |SNIPPED_MARKER| + |name| + 2 + |Decimal(bytes)|
  {
    MarkerFacts();
    FirstAfterFields(Placeholder(name, bytes, rest), SNIPPED_MARKER, name, Decimal(bytes), ARCHIVED_TO, rest);
  }

  lemma SnipIsPlaceholder(m: Message, archive: string, strategy: SnipStrategy)
    ensures SnipResult(m, archive, strategy) ==
            Placeholder(m.name, |m.content|, ArchiveLabel(archive) + ";" + SnipBody(m.content, strategy))
  {
  }

  lemma SnipRemembersBytes(m: Message, archive: string, strategy: SnipStrategy)
    requires m.content != "" && !Contains(" " + m.name, ARCHIVED_TO)
    ensures OriginalBytes(SnipResult(m, archive, strategy)) == |m.content|
  {
    var rest := ArchiveLabel(archive) + ";" + SnipBody(m.content, strategy);
    SnipIsPlaceholder(m, archive, strategy);
    PlaceholderBytes(m.name, |m.content|, rest);
  }

  lemma PlaceholderBytes(name: string, bytes: nat, rest: string)
    requires bytes > 0 && !Contains(" " + name, ARCHIVED_TO)
    ensures OriginalBytes(Placeholder(name, bytes, rest)) == bytes
  {
    hide OriginalBytes, Index, LastField, ScanInt, Decimal, Contains;
    var s, dec := Placeholder(name, bytes, rest), Decimal(bytes);
    SeparatorFound(name, bytes, rest);
    PlaceholderFields(SNIPPED_MARKER, name, dec, ARCHIVED_TO, rest);
    LastFieldAfterSpace(name + ", ", dec);
    ScanDecimal(bytes);
    BytesByParts(s, |SNIPPED_MARKER| + |name| + 2 + |dec|, bytes);
  }

  lemma PlaceholderFields(marker: string, name: string, dec: string, sep: string, rest: string)
    ensures var s := marker + name + ", " + dec + sep + rest;
            marker <= s && s[|marker|..|marker| + |name| + 2 + |dec|] == (name + ", ") + dec
  {
  }

  lemma BytesByParts(s: string, end: nat, bytes: nat)
    requires Snipped(s) && Index(s, ARCHIVED_TO) == end && |SNIPPED_MARKER| < end <= |s|
    requires LastField(s[|SNIPPED_MARKER|..end]) != ""
    requires ScanInt(LastField(s[|SNIPPED_MARKER|..end])) == Some(bytes) && bytes > 0
    ensures OriginalBytes(s) == bytes
  {
    hide Snipped, Index, LastField, ScanInt;
  }

  /** A snipped result names its archive exactly if the path has no ';', no white space at its
      ends and is not the text that stands for none. */
  lemma SnipRemembersArchive(m: Message, archive: string, strategy: SnipStrategy)
    requires !Contains(" " + m.name, ARCHIVED_TO)
    ensures OriginalArchive(SnipResult(m, archive, strategy)) == archive <==> archive == "" || PlainPath(archive)
  {
    SnipIsPlaceholder(m, archive, strategy);
    var place, body := ArchiveLabel(archive), SnipBody(m.content, strategy);
    if archive == "" {
      TrimSpaceFixes(NOT_ARCHIVED);
      PlaceholderArchive(m.name, |m.content|, place, body);
    } else if forall i :: 0 <= i < |archive| ==> archive[i] != ';' {
      PlaceholderArchive(m.name, |m.content|, place, body);
    } else {
      CutPath(m.name, |m.content|, archive, body);
    }
  }

  predicate PlainPath(archive: string) {
    (forall i :: 0 <= i < |archive| ==> archive[i] != ';') && TrimSpace(archive) == archive && archive != NOT_ARCHIVED
  }

  /** A path with a ';' is read back cut. */
  lemma CutPath(name: string, bytes: nat, archive: string, body: string)
    requires !Contains(" " + name, ARCHIVED_TO) && exists i :: 0 <= i < |archive| && archive[i] == ';'
    ensures |OriginalArchive(Placeholder(name, bytes, archive + ";" + body))| < |archive|
  {
    var k := FirstSemicolon(archive, 0);
    var place, more := archive[..k], archive[k + 1..] + ";" + body;
    assert archive + ";" + body == place + ";" + more;
    PlaceholderArchive(name, bytes, place, more);
    var _, _ := TrimSpaceSplits(place);
  }

  lemma {:induction false} FirstSemicolon(s: string, from: nat) returns (k: nat)
    requires exists i :: from <= i < |s| && s[i] == ';'
    ensures from <= k < |s| && s[k] == ';' && forall i :: from <= i < k ==> s[i] != ';'
    decreases |s| - from
  {
    if s[from] == ';' {
      k := from;
    } else {
      k := FirstSemicolon(s, from + 1);
    }
  }

  lemma PlaceholderArchive(name: string, bytes: nat, place: string, body: string)
    requires !Contains(" " + name, ARCHIVED_TO)
    requires forall i :: 0 <= i < |place| ==> place[i] != ';'
    ensures OriginalArchive(Placeholder(name, bytes, place + ";" + body)) ==
            if TrimSpace(place) == NOT_ARCHIVED then "" else TrimSpace(place)
  {
    MarkerFacts();
    var dec := Decimal(bytes);
    var s := SNIPPED_MARKER + name + ", " + dec + ARCHIVED_TO + (place + ";" + body);
    FieldsReadBack(s, SNIPPED_MARKER, name, dec, ARCHIVED_TO, place, body);
    ArchiveByParts(s, Index(s, ARCHIVED_TO));
  }

  lemma FieldsReadBack(s: string, marker: string, name: string, dec: string, sep: string, place: string, body: string)
    requires s == marker + name + ", " + dec + sep + (place + ";" + body)
    requires |sep| >= 2 && sep[0] == ' ' && !IsDigit(sep[1]) && ',' !in sep
    requires marker != "" && marker[|marker| - 1] == ' '
    requires forall i {:trigger marker[i]} :: 0 <= i < |marker| - 1 ==> marker[i] != ' ' || marker[i + 1] != sep[1]
    requires dec != "" && forall i :: 0 <= i < |dec| ==> IsDigit(dec[i])
    requires !Contains(" " + name, sep)
    requires forall i :: 0 <= i < |place| ==> place[i] != ';'
    ensures marker <= s && 0 <= Index(s, sep) && Index(s, sep) + |sep| <= |s|
    ensures FieldAt(s, Index(s, sep) + |sep|) == TrimSpace(place)
  {
    var rest := place + ";" + body;
    FirstAfterFields(s, marker, name, dec, sep, rest);
    PlaceholderSuffix(marker, name, dec, sep, rest);
    FieldBeforeSemicolon(s, Index(s, sep) + |sep|, place, body);
  }

  lemma PlaceholderSuffix(marker: string, name: string, dec: string, sep: string, rest: string)
    ensures var s := marker + name + ", " + dec + sep + rest;
            marker <= s && s[|marker| + |name| + 2 + |dec| + |sep|..] == rest
  {
  }

  lemma FieldBeforeSemicolon(s: string, start: nat, place: string, body: string)
    requires start <= |s| && s[start..] == place + ";" + body
    requires forall i :: 0 <= i < |place| ==> place[i] != ';'
    ensures FieldAt(s, start) == TrimSpace(place)
  {
    var rest, end := s[start..], start + |place|;
    assert s[end] == rest[|place|] == ';';
    assert OccursAt(s, ";", end);
    forall i: nat | start <= i < end ensures !OccursAt(s, ";", i) {
      assert s[i] == rest[i - start] == place[i - start];
      assert s[i..i + 1][0] == s[i];
    }
    var r := IndexFrom(s, ";", start);
    assert start <= r <= end;
    assert s[start..end] == rest[..|place|] == place;
  }

  lemma ArchiveByParts(s: string, at: nat)
    requires Snipped(s) && Index(s, ARCHIVED_TO) == at && at + |ARCHIVED_TO| <= |s|
    ensures var f := FieldAt(s, at + |ARCHIVED_TO|); OriginalArchive(s) == if f == NOT_ARCHIVED then "" else f
  {
  }

  /** Pruning a snipped result reports the size and the archive of the original, whatever
      archive the pruning pass itself has. */
  lemma SnipThenPrune(m: Message, archive: string, strategy: SnipStrategy, later: string)
    requires m.content != "" && !Contains(" " + m.name, ARCHIVED_TO)
    requires archive == "" || PlainPath(archive)
    ensures PruneResult(m.(content := SnipResult(m, archive, strategy)), later) ==
            PRUNED_MARKER + Header(m.name, |m.content|, if archive != "" then archive else later) +
            " re-run the tool if the data is needed again]"
  {
    SnipRemembersBytes(m, archive, strategy);
    SnipRemembersArchive(m, archive, strategy);
  }

  // ----- filler -----

  function Filler(n: nat): (s: string)
    ensures |s| == n && forall i :: 0 <= i < n ==> s[i] == 'x'
  {
    seq(n, i => 'x')
  }

  lemma {:induction false} DecimalLength(n: nat)
    ensures |Decimal(n)| <= n / 10 + 1
  {
    if n >= 10 {
      DecimalLength(n / 10);
    }
  }
}
