/** For which tool names a snipped result still tells the size of the original. */
module MaintenanceNames {
  import opened Text
  import opened Conversation
  import opened Compaction
  import opened Maintenance
  import opened MaintenanceTheory

  /** A separator inside the name is found before the one the header wrote. */
  lemma FirstInName(s: string, marker: string, name: string, tail: string, sep: string)
    requires s == marker + name + tail && Contains(" " + name, sep)
    requires |sep| >= 2 && sep[0] == ' '
    requires marker != "" && marker[|marker| - 1] == ' '
    requires forall i {:trigger marker[i]} :: 0 <= i < |marker| - 1 ==> marker[i] != ' ' || marker[i + 1] != sep[1]
    ensures Index(s, sep) == |marker| - 1 + Index(" " + name, sep)
  {
    var spaced, j, m := " " + name, Index(" " + name, sep), |marker| - 1;
    assert s[m..m + |spaced|] == spaced;
    assert spaced[j..j + |sep|] == sep == s[m + j..m + j + |sep|];
    assert OccursAt(s, sep, m + j);
    forall i: nat | i < m + j && i + |sep| <= |s| ensures !OccursAt(s, sep, i) {
      var here := s[i..i + |sep|];
      assert here[0] == s[i] && here[1] == s[i + 1];
      if i < m {
        assert s[i] == marker[i] && s[i + 1] == marker[i + 1];
      } else {
        assert spaced[i - m..i - m + |sep|] == here;
        assert !OccursAt(spaced, sep, i - m);
      }
    }
    var r := IndexFrom(s, sep, 0);
    assert 0 <= r <= m + j;
  }

  /** The size such a name pretends, whatever the result was. */
  function NameReads(name: string): Option<int>
    requires Contains(" " + name, ARCHIVED_TO)
  {
    var j := Index(" " + name, ARCHIVED_TO);
    if j <= 1 then None
    else
      var field := LastField(name[..j - 1]);
      if field != "" && ScanInt(field).Some? && ScanInt(field).value > 0 then ScanInt(field) else None
  }

  lemma BytesFromName(name: string, bytes: nat, rest: string)
    requires Contains(" " + name, ARCHIVED_TO)
    ensures var s := Placeholder(name, bytes, rest);
      OriginalBytes(s) == (if NameReads(name).Some? then NameReads(name).value else |s|) && |s| > 2
  {
    MarkerFacts();
    var s, m := Placeholder(name, bytes, rest), |SNIPPED_MARKER|;
    var tail := ", " + Decimal(bytes) + ARCHIVED_TO + rest;
    assert m > 2;
    PlaceholderByName(SNIPPED_MARKER, name, Decimal(bytes), ARCHIVED_TO, rest);
    FirstInName(s, SNIPPED_MARKER, name, tail, ARCHIVED_TO);
    var j := Index(" " + name, ARCHIVED_TO);
    assert j > 1 ==> s[m..m - 1 + j] == name[..j - 1];
    hide Index, LastField, ScanInt, Decimal, Contains;
  }

  lemma PlaceholderByName(marker: string, name: string, dec: string, sep: string, rest: string)
    ensures var s, tail := marker + name + ", " + dec + sep + rest, ", " + dec + sep + rest;
            s == marker + name + tail && marker <= s && |s| >= |marker| &&
            forall k :: 0 <= k <= |name| ==> s[|marker|..|marker| + k] == name[..k]
  {
    var s, tail := marker + name + ", " + dec + sep + rest, ", " + dec + sep + rest;
    assert s == marker + name + tail;
    forall k | 0 <= k <= |name| ensures s[|marker|..|marker| + k] == name[..k] {
      assert s[|marker|..|marker| + |name|] == name;
    }
  }

  predicate SizeSurvives(name: string, archive: string, strategy: SnipStrategy, content: string) {
    OriginalBytes(SnipResult(ResultNamed(name, content), archive, strategy)) == |content|
  }

  function ResultNamed(name: string, content: string): Message {
    Message(Tool, content, [], "", name)
  }

  /** A snip would take a result of this name and content. */
  predicate Snippable(name: string, content: string) {
    ShouldMaintain(ResultNamed(name, content), Snip)
  }

  /** For one tool name: the size of every result that a snip takes survives if and only if the
      separator does not occur in the name with a blank in front. */
  lemma SizesSurviveExactly(name: string, archive: string, strategy: SnipStrategy)
    ensures (forall content :: Snippable(name, content) ==> SizeSurvives(name, archive, strategy, content)) <==>
            !Contains(" " + name, ARCHIVED_TO)
  {
    if Contains(" " + name, ARCHIVED_TO) {
      var n := EnoughFiller(name, archive);
      FillerIsSnippable(name, n);
      FillerIsSnippable(name, n + 1);
      SizeMissed(name, archive, strategy, n);
    } else {
      forall content | Snippable(name, content) ensures SizeSurvives(name, archive, strategy, content) {
        SnipRemembersBytes(ResultNamed(name, content), archive, strategy);
      }
    }
    hide SizeSurvives, Snippable, Contains;
  }

  /** From this length on a snipped line of filler is shorter than the line was. */
  function EnoughFiller(name: string, archive: string): nat {
    20 * (|name| + |ArchiveLabel(archive)| + 200)
  }

  lemma FillerIsSnippable(name: string, n: nat)
    requires n >= MIN_PRUNE_BYTES
    ensures Snippable(name, Filler(n))
  {
    assert SNIPPED_MARKER[0] == '[' && PRUNED_MARKER[0] == '[' && Filler(n)[0] == 'x';
  }

  /** Of two long results of different size at least one is reported wrongly. */
  lemma SizeMissed(name: string, archive: string, strategy: SnipStrategy, n: nat)
    requires Contains(" " + name, ARCHIVED_TO) && n >= EnoughFiller(name, archive)
    ensures !SizeSurvives(name, archive, strategy, Filler(n)) || !SizeSurvives(name, archive, strategy, Filler(n + 1))
  {
    hide OriginalBytes, SnipResult, Contains, NameReads, Filler, EnoughFiller;
    SizePretended(name, n, archive, strategy);
    EnoughForMore(name, archive, n);
    SizePretended(name, n + 1, archive, strategy);
  }

  lemma EnoughForMore(name: string, archive: string, n: nat)
    requires n >= EnoughFiller(name, archive)
    ensures n + 1 >= EnoughFiller(name, archive)
  {
  }

  /** What is reported is the number in the name, or a length below the real one. */
  lemma SizePretended(name: string, n: nat, archive: string, strategy: SnipStrategy)
    requires Contains(" " + name, ARCHIVED_TO) && n >= EnoughFiller(name, archive)
    ensures var size := OriginalBytes(SnipResult(ResultNamed(name, Filler(n)), archive, strategy));
      if NameReads(name).Some? then size == NameReads(name).value else size < n
  {
    var m := ResultNamed(name, Filler(n));
    var rest := ArchiveLabel(archive) + ";" + SnipBody(Filler(n), strategy);
    SnipIsPlaceholder(m, archive, strategy);
    BytesFromName(name, n, rest);
    SnipBodyShrinks(n, strategy);
    PlaceholderLength(name, n, rest);
    DecimalLength(n);
    hide OriginalBytes, SnipResult, SnipBody, Contains, NameReads, Placeholder, Decimal;
  }

  lemma PlaceholderLength(name: string, bytes: nat, rest: string)
    ensures |Placeholder(name, bytes, rest)| <= |name| + |Decimal(bytes)| + |rest| + 60
  {
    assert |SNIPPED_MARKER| <= 30 && |ARCHIVED_TO| <= 20;
    hide Decimal;
  }

  lemma FillerIsOneLine(n: nat)
    ensures SplitLines(Filler(n)) == [Filler(n)]
  {
    var s := Filler(n);
    forall i: nat | i <= n ensures !OccursAt(s, "\n", i) {
      assert i < n ==> s[i..i + 1][0] == 'x';
    }
    assert Index(s, "\n") == -1;
  }

  lemma SnipBodyShrinks(n: nat, strategy: SnipStrategy)
    ensures |SnipBody(Filler(n), strategy)| <= n / 2 + n / 4 + n / 10 + 101
  {
    FillerIsOneLine(n);
    hide SplitLines, SnipBody, Filler;
    if strategy.head + strategy.tail >= 1 {
      TruncatedShrinks(Filler(n), strategy);
    } else {
      ElidedShrinks(Filler(n), strategy);
    }
  }

  lemma TruncatedShrinks(s: string, strategy: SnipStrategy)
    requires |SplitLines(s)| <= strategy.head + strategy.tail
    ensures |SnipBody(s, strategy)| <= |s| / 2 + |s| / 4 + |s| / 10 + 101
  {
    hide SplitLines, Decimal, FirstRunes, LastRunes, TruncatedLine, ElidedLines, Min;
    var h, t := Min(strategy.headChars, |s| / 2), Min(strategy.tailChars, |s| / 4);
    MinAtMost(strategy.headChars, |s| / 2);
    MinAtMost(strategy.tailChars, |s| / 4);
    RunesAtMost(s, h, t);
    DecimalLength(|s| - h - t);
    TruncatedLength(FirstRunes(s, h), Decimal(|s| - h - t), LastRunes(s, t));
  }

  lemma MinAtMost(a: nat, b: nat)
    ensures Min(a, b) <= b
  {
  }

  lemma RunesAtMost(s: string, h: nat, t: nat)
    ensures |FirstRunes(s, h)| <= h && |LastRunes(s, t)| <= t
  {
  }

  lemma ElidedShrinks(s: string, strategy: SnipStrategy)
    requires strategy.head == strategy.tail == 0 && |SplitLines(s)| == 1
    ensures |SnipBody(s, strategy)| <= 101
  {
    var lines := SplitLines(s);
    assert Decimal(0) == "0" && Decimal(1) == "1";
    assert JoinLines(lines[..0]) == "" && JoinLines(lines[1..]) == "";
    hide SplitLines, Decimal, JoinLines, TruncatedLine, ElidedLines;
    ElidedLength("0", "0", "", "1", "");
  }

  lemma TruncatedLength(first: string, omitted: string, last: string)
    ensures |TruncatedLine(first, omitted, last)| <= |first| + |omitted| + |last| + 100
  {
  }

  lemma ElidedLength(head: string, tail: string, first: string, omitted: string, last: string)
    ensures |ElidedLines(head, tail, first, omitted, last)| <= |head| + |tail| + |first| + |omitted| + |last| + 96
  {
  }

  /** A name that merely continues the separator from the marker's own space already defeats
      the size: the placeholder then counts as its own original. */
  lemma NameCanHideBytes(bytes: nat, rest: string)
    ensures !Contains("bytes archived to ", ARCHIVED_TO)
    ensures var s := Placeholder("bytes archived to ", bytes, rest); OriginalBytes(s) == |s|
  {
    var name := "bytes archived to ";
    assert " " + name == ARCHIVED_TO;
    assert OccursAt(" " + name, ARCHIVED_TO, 0);
    BytesFromName(name, bytes, rest);
    hide OriginalBytes, Placeholder;
  }
}
