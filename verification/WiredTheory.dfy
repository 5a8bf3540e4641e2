/** Everything the turn loop does to a log keeps it well-formed, so that its requests need no
    repair. A log is well-formed if it is paired once every id carries its name with it. */
module WiredTheory {
  import opened Text
  import opened Conversation
  import opened Compaction
  import opened CompactionTheory
  import opened Maintenance
  import opened MaintenanceTheory
  import opened Normalize
  import opened NormalizeTheory
  import opened RunLoop
  import opened RunLoopTheory

  // ----- ids that carry names -----

  /** Id and name in one text. */
  function Tag(id: string, name: string): string {
    seq(|id|, i => 'x') + "y" + id + name
  }

  lemma TagTellsApart(a: string, x: string, b: string, y: string)
    ensures Tag(a, x) == Tag(b, y) <==> a == b && x == y
  {
    var s, t := Tag(a, x), Tag(b, y);
    assert s[|a|] == 'y' && t[|b|] == 'y';
    assert forall i :: 0 <= i < |a| ==> s[i] == 'x';
    assert forall i :: 0 <= i < |b| ==> t[i] == 'x';
    if s == t {
      assert |a| == |b|;
      assert a == s[|a| + 1..2 * |a| + 1] && b == t[|b| + 1..2 * |b| + 1];
      assert x == s[2 * |a| + 1..] && y == t[2 * |b| + 1..];
    }
  }

  function TaggedCalls(calls: seq<ToolCall>): seq<ToolCall> {
    seq(|calls|, i requires 0 <= i < |calls| => calls[i].(id := Tag(calls[i].id, calls[i].name)))
  }

  function TaggedMessage(m: Message): Message {
    m.(calls := TaggedCalls(m.calls), toolCallId := if m.role.Tool? then Tag(m.toolCallId, m.name) else m.toolCallId)
  }

  function Tagged(log: Log): Log {
    seq(|log|, i requires 0 <= i < |log| => TaggedMessage(log[i]))
  }

  lemma TaggedParts(a: Log, b: Log)
    ensures Tagged(a + b) == Tagged(a) + Tagged(b)
  {
  }

  lemma TaggedSlices(log: Log, i: nat, k: nat)
    requires i <= k <= |log|
    ensures Tagged(log[i..k]) == Tagged(log)[i..k]
  {
  }

  lemma TaggedOpens(m: Message)
    ensures Opens(TaggedMessage(m)) == TaggedCalls(Opens(m)) && |TaggedCalls(Opens(m))| == |Opens(m)|
  {
  }

  /** The arguments of every call are empty or valid. */
  predicate CallsFine(j: Json, calls: seq<ToolCall>) {
    forall k :: 0 <= k < |calls| ==> ArgsOk(j, calls[k])
  }

  predicate ArgsFine(j: Json, log: Log) {
    forall i :: 0 <= i < |log| ==> CallsFine(j, Opens(log[i]))
  }

  predicate Answers(call: ToolCall, result: Message) {
    result.role.Tool? && Tag(result.toolCallId, result.name) == Tag(call.id, call.name)
  }

  predicate TagsAnswer(calls: seq<ToolCall>, results: Log) {
    |calls| == |results| && forall k :: 0 <= k < |calls| ==> Answers(calls[k], results[k])
  }

  lemma GroupByTags(j: Json, calls: seq<ToolCall>, results: Log)
    requires |calls| == |results|
    ensures GroupWired(j, calls, results) <==> CallsFine(j, calls) && TagsAnswer(calls, results)
  {
    forall k | 0 <= k < |calls|
      ensures Answers(calls[k], results[k]) <==>
        results[k].role.Tool? && results[k].toolCallId == calls[k].id && results[k].name == calls[k].name
    {
      TagTellsApart(results[k].toolCallId, results[k].name, calls[k].id, calls[k].name);
    }
    hide Tag, Answers;
  }

  /** Well-formed is: paired with names in the ids, and usable arguments. */
  lemma {:induction false} WiredByTags(j: Json, log: Log)
    ensures Wired(j, log) <==> Paired(Tagged(log)) && ArgsFine(j, log)
    decreases |log|
  {
    hide Tag, CallsFine;
    if log == [] {
    } else if log[0].role.Tool? {
      ScanBroken(Tagged(log)[1..]);
    } else {
      var tags, n := Tagged(log), |Opens(log[0])|;
      TaggedOpens(log[0]);
      ScanDischarges(CallIds(Opens(tags[0])), tags[1..]);
      if n < |log| {
        WiredByTags(j, log[1 + n..]);
        GroupByTags(j, Opens(log[0]), log[1..1 + n]);
        HeadByTags(log, n);
        ArgsByParts(j, log, n);
        WiredHead(j, log, n);
        if TagsAnswer(Opens(log[0]), log[1..1 + n]) {
          AnswersAreTools(Opens(log[0]), log[1..1 + n]);
        }
        hide Wired, Paired, ArgsFine, GroupWired, Tagged, TagsAnswer;
      }
    }
  }

  /** The group that message 0 opens, read off the tags. */
  lemma HeadByTags(log: Log, n: nat)
    requires log != [] && !log[0].role.Tool? && n == |Opens(log[0])| < |log|
    ensures Paired(Tagged(log)) <==> TagsAnswer(Opens(log[0]), log[1..1 + n]) && Paired(Tagged(log[1 + n..]))
  {
    hide Tag;
    var tail, ids, calls := Tagged(log)[1..], CallIds(Opens(TaggedMessage(log[0]))), Opens(log[0]);
    TaggedOpens(log[0]);
    ScanDischarges(ids, tail);
    assert tail[n..] == Tagged(log[1 + n..]);
    assert Paired(Tagged(log)) <==> ScanFrom(Expect(ids), tail) == BALANCED;
    forall k | 0 <= k < n
      ensures tail[k].role.Tool? && tail[k].toolCallId == ids[k] <==> Answers(calls[k], log[1..1 + n][k])
    {
      assert tail[k] == TaggedMessage(log[1..1 + n][k]) && ids[k] == Tag(calls[k].id, calls[k].name);
    }
    hide Paired, Tagged, Answers, ScanFrom;
  }

  /** A message and the n tool messages behind it, in front of a log. */
  lemma ArgsByParts(j: Json, log: Log, n: nat)
    requires n < |log|
    ensures ArgsFine(j, log) ==> CallsFine(j, Opens(log[0])) && ArgsFine(j, log[1 + n..])
    ensures AllTools(log[1..1 + n]) && CallsFine(j, Opens(log[0])) && ArgsFine(j, log[1 + n..]) ==> ArgsFine(j, log)
  {
    var results, rest := log[1..1 + n], log[1 + n..];
    if AllTools(results) && CallsFine(j, Opens(log[0])) && ArgsFine(j, rest) {
      forall i | 0 <= i < |log| ensures CallsFine(j, Opens(log[i])) {
        if 0 < i <= n {
          assert results[i - 1] == log[i];
        } else if i > n {
          assert rest[i - n - 1] == log[i];
        }
      }
    }
  }

  lemma AnswersAreTools(calls: seq<ToolCall>, results: Log)
    requires TagsAnswer(calls, results)
    ensures AllTools(results)
  {
  }

  // ----- appending -----

  /** A log whose messages are old ones or open no calls. */
  lemma ArgsStayFine(j: Json, log: Log, log': Log)
    requires ArgsFine(j, log) && forall m :: m in log' ==> m in log || CallsFine(j, Opens(m))
    ensures ArgsFine(j, log')
  {
    forall i | 0 <= i < |log'| ensures CallsFine(j, Opens(log'[i])) {
      if log'[i] in log {
        var k :| 0 <= k < |log| && log[k] == log'[i];
      }
    }
  }

  lemma WiredPlain(j: Json, log: Log, m: Message)
    requires Wired(j, log) && !m.role.Tool? && Opens(m) == []
    ensures Wired(j, log + [m])
  {
    hide Wired, Paired, Tag;
    WiredByTags(j, log);
    WiredByTags(j, log + [m]);
    TaggedParts(log, [m]);
    assert Tagged([m]) == [TaggedMessage(m)];
    TaggedOpens(m);
    PlainMessagePaired(Tagged(log), TaggedMessage(m));
    ArgsStayFine(j, log, log + [m]);
  }

  lemma WiredBatch(j: Json, log: Log, text: string, calls: seq<ToolCall>, results: nat -> string)
    requires Wired(j, log) && CallsFine(j, calls)
    ensures Wired(j, log + [AssistantMessage(text, calls)] + ToolResults(calls, results))
  {
    hide Wired, Paired, Tag, CallsFine;
    var m, tail := AssistantMessage(text, calls), ToolResults(calls, results);
    WiredByTags(j, log);
    WiredByTags(j, log + [m] + tail);
    TaggedParts(log + [m], tail);
    TaggedParts(log, [m]);
    assert Tagged([m]) == [AssistantMessage(text, TaggedCalls(calls))];
    TaggedResults(j, calls, results);
    BatchPaired(Tagged(log), text, TaggedCalls(calls), results);
    ArgsStayFine(j, log, log + [m] + tail);
  }

  lemma TaggedResults(j: Json, calls: seq<ToolCall>, results: nat -> string)
    ensures Tagged(ToolResults(calls, results)) == ToolResults(TaggedCalls(calls), results)
    ensures forall m :: m in ToolResults(calls, results) ==> CallsFine(j, Opens(m))
  {
    hide Tag;
    var tail, tagged := ToolResults(calls, results), TaggedCalls(calls);
    forall i | 0 <= i < |calls| ensures TaggedMessage(tail[i]) == ToolMessage(tagged[i], results(i)) {
      assert tail[i] == ToolMessage(calls[i], results(i)) && tagged[i].name == calls[i].name;
    }
  }

  lemma NoCalls(j: Json)
    ensures CallsFine(j, [])
  {
  }

  // ----- maintenance -----

  lemma WiredSweep(j: Json, w: Sweep, log: Log)
    requires Wired(j, log)
    ensures Wired(j, SweepLog(w, log))
  {
    hide Wired, Paired, Tag, SweepLog, CallsFine;
    var swept := SweepLog(w, log);
    SweepOnlyToolText(w, log);
    WiredByTags(j, log);
    WiredByTags(j, swept);
    assert SameShape(Tagged(log), Tagged(swept));
    SameShapeScan(BALANCED, Tagged(log), Tagged(swept));
    PairedIsScan(Tagged(log), Tagged(swept));
    assert forall i :: 0 <= i < |log| ==> Opens(swept[i]) == Opens(log[i]);
  }

  lemma PairedIsScan(a: Log, b: Log)
    requires ScanFrom(BALANCED, a) == ScanFrom(BALANCED, b)
    ensures Paired(a) <==> Paired(b)
  {
  }

  lemma {:induction false} TaggedSelect(log: Log, keep: seq<bool>)
    requires |keep| == |log|
    ensures |Tagged(log)| == |log| && Tagged(Select(log, keep)) == Select(Tagged(log), keep)
  {
    if log != [] {
      TaggedSelect(log[1..], keep[1..]);
      var head := if keep[0] then [log[0]] else [];
      TaggedParts(head, Select(log[1..], keep[1..]));
      assert Tagged(log)[1..] == Tagged(log[1..]);
      assert Tagged(head) == if keep[0] then [TaggedMessage(log[0])] else [];
      assert Tagged(log)[0] == TaggedMessage(log[0]);
      hide TaggedMessage, Tagged;
    }
  }

  lemma {:induction false} SelectIn(log: Log, keep: seq<bool>, m: Message)
    requires |keep| == |log| && m in Select(log, keep)
    ensures m in log
  {
    if m in Select(log[1..], keep[1..]) {
      SelectIn(log[1..], keep[1..], m);
    }
  }

  lemma TaggedGroups(log: Log, keep: seq<bool>)
    requires |keep| == |log| && GroupClosed(log, keep)
    ensures GroupClosed(Tagged(log), keep)
  {
    forall a: nat, i: nat | InGroup(Tagged(log), a, i) ensures keep[i] == keep[a] {
      TaggedOpens(log[a]);
      assert InGroup(log, a, i);
    }
  }

  /** Cutting a well-formed log in front of messages that are no tool results. */
  lemma TaggedCuts(log: Log, i: nat, k: nat)
    requires Paired(Tagged(log)) && i <= k <= |log|
    requires (i < |log| ==> !log[i].role.Tool?) && (k < |log| ==> !log[k].role.Tool?)
    ensures Paired(Tagged(log[..i])) && Paired(Tagged(log[i..k])) && Paired(Tagged(log[k..]))
  {
    TaggedSlices(log, 0, i);
    TaggedSlices(log, i, k);
    TaggedSlices(log, k, |log|);
    var tags := Tagged(log);
    CutOffTools(tags, k);
    CutOffTools(tags[..k], i);
    assert log[0..i] == log[..i] && log[k..|log|] == log[k..];
    assert tags[0..i] == tags[..k][..i] && tags[..k][i..] == tags[i..k] && tags[k..|log|] == tags[k..];
  }

  lemma TaggedJoin(a: Log, b: Log, c: Log, d: Log)
    requires Paired(Tagged(a)) && Paired(Tagged(b)) && Paired(Tagged(c)) && Paired(Tagged(d))
    ensures Paired(Tagged(a + b + c + d))
  {
    TaggedParts(a, b);
    TaggedParts(a + b, c);
    TaggedParts(a + b + c, d);
    hide Tagged;
    PairedConcat(Tagged(a), Tagged(b));
    PairedConcat(Tagged(a + b), Tagged(c));
    PairedConcat(Tagged(a + b + c), Tagged(d));
  }

  lemma PlainAlone(m: Message)
    requires m.role.User?
    ensures Paired(Tagged([m]))
  {
    assert Tagged([m])[1..] == [];
  }

  lemma WiredCompact(j: Json, e: Pass, log: Log)
    requires Wired(j, log)
    ensures Wired(j, CompactLog(e, log))
  {
    WiredByTags(j, log);
    WiredByTags(j, CompactLog(e, log));
    WiredMeaning(j, log);
    hide Wired, Paired, Labelled, Tag;
    if PassOutcome(e, log).Folded? {
      hide PassOutcome;
      CompactTags(j, e, log);
    }
  }

  lemma CompactTags(j: Json, e: Pass, log: Log)
    requires Paired(log) && Paired(Tagged(log)) && ArgsFine(j, log) && PassOutcome(e, log).Folded?
    ensures Paired(Tagged(CompactLog(e, log))) && ArgsFine(j, CompactLog(e, log))
  {
    hide Paired, Tagged, GroupClosed, PinnedPrefixLen, PlannedStart, RegionFlags, CallsFine;
    var p := e.policy;
    var head, start := PinnedPrefixLen(p, log), PlannedStart(p, log);
    var digest := PassOutcome(e, log).digest;
    assert digest.role.User? && CallsFine(j, Opens(digest)) by { NoCalls(j); }
    hide PassOutcome;
    PlanCutsBetweenGroups(p, log);
    TaggedCuts(log, head, start);
    var region, flags := Region(p, log), RegionFlags(p, log);
    FlagsClosed(p, log);
    TaggedGroups(region, flags);
    TaggedSelect(region, flags);
    SelectPaired(Tagged(region), flags);
    PlainAlone(digest);
    TaggedJoin(log[..head], Select(region, flags), [digest], log[start..]);
    forall m | m in CompactLog(e, log) ensures m in log || m == digest {
      if m in Select(region, flags) {
        SelectIn(region, flags, m);
      }
    }
    ArgsStayFine(j, log, CompactLog(e, log));
  }

  lemma FlagsClosed(p: Policy, log: Log)
    requires Paired(Region(p, log))
    ensures GroupClosed(Region(p, log), RegionFlags(p, log))
  {
    PartitionClosed(p, log, Region(p, log));
  }

  lemma WiredMaintained(j: Json, u: Upkeep, g: Gauge, log: Log, tokens: nat)
    requires Wired(j, log)
    ensures Wired(j, Maintained(u, g, log, tokens).log)
  {
    hide SweepLog, CompactLog, PassOutcome, Wired;
    WiredSweep(j, SweepOf(u, Snip), log);
    WiredSweep(j, SweepOf(u, Prune), log);
    WiredCompact(j, PassOf(u, tokens >= u.policy.forceAt), SweepLog(SweepOf(u, Prune), log));
  }
}
