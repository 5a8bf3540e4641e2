/** The conversation log of one session (internal/agent/session.go, internal/provider/provider.go)
    and the property every rewriter of the log has to keep: a tool call stays next to its result. */
module Conversation {
  import opened Text

  datatype Role = System | User | Assistant | Tool

  datatype ToolCall = ToolCall(id: string, name: string, arguments: string)

  /** calls is set by assistant messages, toolCallId and name by tool messages. */
  datatype Message = Message(role: Role, content: string, calls: seq<ToolCall>, toolCallId: string, name: string)

  type Log = seq<Message>

  function UserMessage(content: string): Message {
    Message(User, content, [], "", "")
  }

  function AssistantMessage(content: string, calls: seq<ToolCall>): Message {
    Message(Assistant, content, calls, "", "")
  }

  function ToolMessage(call: ToolCall, content: string): Message {
    Message(Tool, content, [], call.id, call.name)
  }

  /** The calls a message opens: only an assistant turn opens any. */
  function Opens(m: Message): seq<ToolCall> {
    if m.role.Assistant? then m.calls else []
  }

  function CallIds(calls: seq<ToolCall>): seq<string> {
    seq(|calls|, i requires 0 <= i < |calls| => calls[i].id)
  }

  // ----- pairing, as a left-to-right scan -----

  /** What the scan expects next: the ids of the results still owed, or nothing because the
      log is already broken. */
  datatype Scan = Broken | Expect(ids: seq<string>)

  const BALANCED := Expect([])

  function ScanOne(s: Scan, m: Message): Scan {
    if s.Broken? then Broken
    else if m.role.Tool? then
      if s.ids != [] && s.ids[0] == m.toolCallId then Expect(s.ids[1..]) else Broken
    else if s.ids != [] then Broken
    else Expect(CallIds(Opens(m)))
  }

  function ScanFrom(s: Scan, log: Log): Scan
    decreases |log|
  {
    if log == [] then s else ScanFrom(ScanOne(s, log[0]), log[1..])
  }

  /** Every call is answered, in call order and at once, and nothing else is a tool message. */
  predicate Paired(log: Log) {
    ScanFrom(BALANCED, log) == BALANCED
  }

  lemma {:induction false} ScanConcat(s: Scan, a: Log, b: Log)
    ensures ScanFrom(s, a + b) == ScanFrom(ScanFrom(s, a), b)
    decreases |a|
  {
    if a == [] {
      assert a + b == b;
    } else {
      assert (a + b)[1..] == a[1..] + b;
      ScanConcat(ScanOne(s, a[0]), a[1..], b);
    }
  }

  lemma {:induction false} ScanBroken(log: Log)
    ensures ScanFrom(Broken, log) == Broken
  {
    if log != [] {
      ScanBroken(log[1..]);
    }
  }

  lemma PairedConcat(a: Log, b: Log)
    requires Paired(a)
    ensures Paired(a + b) <==> Paired(b)
  {
    ScanConcat(BALANCED, a, b);
  }

  /** A boundary of a paired log that is not in front of a tool message splits it into
      two paired logs: it never lies inside a call group. */
  lemma CutOffTools(log: Log, i: nat)
    requires Paired(log) && i <= |log|
    requires i == |log| || !log[i].role.Tool?
    ensures Paired(log[..i]) && Paired(log[i..])
  {
    var a, b := log[..i], log[i..];
    assert log == a + b;
    ScanConcat(BALANCED, a, b);
    if i < |log| {
      var s := ScanFrom(BALANCED, a);
      assert b[0] == log[i];
      if s != BALANCED {
        assert ScanOne(s, b[0]) == Broken;
        ScanBroken(b[1..]);
        assert false;
      }
    }
  }

  /** Two logs of the same shape differ in message text only. */
  predicate SameShape(a: Log, b: Log) {
    |a| == |b| && forall i :: 0 <= i < |a| ==> a[i].(content := b[i].content) == b[i]
  }

  lemma {:induction false} SameShapeScan(s: Scan, a: Log, b: Log)
    requires SameShape(a, b)
    ensures ScanFrom(s, a) == ScanFrom(s, b)
    decreases |a|
  {
    if a != [] {
      assert a[0].(content := b[0].content) == b[0];
      SameShapeScan(ScanOne(s, a[0]), a[1..], b[1..]);
    }
  }

  // ----- pairing, declaratively -----

  /** Message j lies in the call group that message a opens. */
  predicate InGroup(log: Log, a: nat, j: nat) {
    a < |log| && j < |log| && Opens(log[a]) != [] && a <= j <= a + |Opens(log[a])|
  }

  /** The k-th call of message a is answered at the k-th place after it. */
  predicate Answered(log: Log, a: nat, k: nat)
    requires a < |log| && k < |Opens(log[a])|
  {
    a + 1 + k < |log| && log[a + 1 + k].role.Tool? && log[a + 1 + k].toolCallId == Opens(log[a])[k].id
  }

  /** Each assistant turn with calls is directly followed by exactly its results in call order. */
  ghost predicate CallsAnswered(log: Log) {
    forall a: nat, k: nat :: a < |log| && k < |Opens(log[a])| ==> Answered(log, a, k)
  }

  predicate Stray(log: Log, j: nat)
    requires j < |log|
  {
    log[j].role.Tool? && forall a :: 0 <= a < j ==> !InGroup(log, a, j)
  }

  /** No tool message stands outside a call group. */
  predicate NoStrayResults(log: Log) {
    forall j :: 0 <= j < |log| ==> !Stray(log, j)
  }

  /** Owed results come first, in order, and the rest is paired on its own. */
  lemma {:induction false} ScanDischarges(ids: seq<string>, log: Log)
    ensures ScanFrom(Expect(ids), log) == BALANCED <==>
            (|ids| <= |log| &&
             (forall k :: 0 <= k < |ids| ==> log[k].role.Tool? && log[k].toolCallId == ids[k]) &&
             Paired(log[|ids|..]))
  {
    if ids == [] {
      assert log[0..] == log;
    } else if log != [] {
      var next := ScanOne(Expect(ids), log[0]);
      if next == Expect(ids[1..]) {
        ScanDischarges(ids[1..], log[1..]);
        if |ids| <= |log| {
          assert log[1..][|ids[1..]|..] == log[|ids|..];
          if forall k :: 0 <= k < |ids[1..]| ==> log[1..][k].role.Tool? && log[1..][k].toolCallId == ids[1..][k] {
            forall k | 0 <= k < |ids| ensures log[k].role.Tool? && log[k].toolCallId == ids[k] {
              if k > 0 {
                assert log[1..][k - 1] == log[k] && ids[1..][k - 1] == ids[k];
              }
            }
          }
          if forall k :: 0 <= k < |ids| ==> log[k].role.Tool? && log[k].toolCallId == ids[k] {
            forall k | 0 <= k < |ids[1..]| ensures log[1..][k].role.Tool? && log[1..][k].toolCallId == ids[1..][k] {
              assert log[k + 1].role.Tool? && log[k + 1].toolCallId == ids[k + 1];
            }
          }
        }
      } else {
        assert next == Broken;
        ScanBroken(log[1..]);
      }
    }
  }

  /** The scan decides exactly the declarative reading of "paired". */
  lemma {:induction false} PairedMeaning(log: Log)
    ensures Paired(log) <==> CallsAnswered(log) && NoStrayResults(log)
    decreases |log|
  {
    if log == [] {
    } else if log[0].role.Tool? {
      ScanBroken(log[1..]);
      assert Stray(log, 0);
    } else {
      var n := |Opens(log[0])|;
      ScanDischarges(CallIds(Opens(log[0])), log[1..]);
      if n < |log| {
        assert log[1..][n..] == log[1 + n..];
        PairedMeaning(log[1 + n..]);
        if Paired(log) {
          forall k: nat | k < n ensures Answered(log, 0, k) {
            assert log[1..][k] == log[1 + k];
          }
          PeelForward(log, n);
        }
        if CallsAnswered(log) && NoStrayResults(log) {
          PeelBackward(log, n);
          forall k | 0 <= k < n ensures log[1..][k].role.Tool? && log[1..][k].toolCallId == CallIds(Opens(log[0]))[k] {
            assert Answered(log, 0, k);
          }
        }
      } else {
        assert !Answered(log, 0, n - 1);
      }
    }
  }

  /** The group that message 0 opens can be put in front of an answered log. */
  lemma PeelForward(log: Log, n: nat)
    requires log != [] && !log[0].role.Tool? && n == |Opens(log[0])| && 1 + n <= |log|
    requires forall k: nat :: k < n ==> Answered(log, 0, k)
    requires CallsAnswered(log[1 + n..]) && NoStrayResults(log[1 + n..])
    ensures CallsAnswered(log) && NoStrayResults(log)
  {
    var d := 1 + n;
    var rest := log[d..];
    forall i | 0 < i <= n ensures log[i].role.Tool? {
      assert Answered(log, 0, i - 1);
    }
    forall a: nat, k: nat | a < |log| && k < |Opens(log[a])| ensures Answered(log, a, k) {
      if a > n {
        assert Answered(rest, a - d, k);
        assert rest[a - d + 1 + k] == log[a + 1 + k];
      }
    }
    forall j | 0 <= j < |log| ensures !Stray(log, j) {
      if 0 < j <= n {
        assert InGroup(log, 0, j);
      } else if j > n {
        assert !Stray(rest, j - d);
        if log[j].role.Tool? {
          var b :| 0 <= b < j - d && InGroup(rest, b, j - d);
          assert InGroup(log, b + d, j);
        }
      }
    }
  }

  lemma PeelBackward(log: Log, n: nat)
    requires log != [] && n == |Opens(log[0])| && 1 + n <= |log|
    requires CallsAnswered(log) && NoStrayResults(log)
    ensures CallsAnswered(log[1 + n..]) && NoStrayResults(log[1 + n..])
  {
    var d := 1 + n;
    var rest := log[d..];
    forall i | 0 < i <= n ensures log[i].role.Tool? {
      assert Answered(log, 0, i - 1);
    }
    forall a: nat, k: nat | a < |rest| && k < |Opens(rest[a])| ensures Answered(rest, a, k) {
      assert Answered(log, a + d, k);
      assert rest[a + 1 + k] == log[a + d + 1 + k];
    }
    forall j | 0 <= j < |rest| ensures !Stray(rest, j) {
      assert !Stray(log, j + d);
      if rest[j].role.Tool? {
        var b :| 0 <= b < j + d && InGroup(log, b, j + d);
        assert InGroup(rest, b - d, j);
      }
    }
  }

  /** Members of a call group after its head are the head's results. */
  lemma GroupMembers(log: Log)
    requires Paired(log)
    ensures forall a: nat, j: nat :: InGroup(log, a, j) && a < j ==> Answered(log, a, j - a - 1)
  {
    PairedMeaning(log);
  }

  lemma GroupHeadAlone(log: Log, a: nat, b: nat)
    requires Paired(log) && a < b < |log| && Opens(log[b]) != []
    ensures !InGroup(log, a, b)
  {
    PairedMeaning(log);
    forall j: nat | a < j <= a + |Opens(log[a])| ensures j < |log| && log[j].role.Tool? {
      assert Answered(log, a, j - a - 1);
    }
  }

  /** In a paired log a message lies in at most one call group. */
  lemma GroupUnique(log: Log)
    requires Paired(log)
    ensures forall a: nat, b: nat, j: nat :: InGroup(log, a, j) && InGroup(log, b, j) ==> a == b
  {
    forall a: nat, b: nat, j: nat | InGroup(log, a, j) && InGroup(log, b, j) ensures a == b {
      if a < b {
        GroupHeadAlone(log, a, b);
      } else if b < a {
        GroupHeadAlone(log, b, a);
      }
    }
  }

  // ----- selecting whole call groups -----

  /** The messages whose flag is set, in order. */
  function Select(log: Log, keep: seq<bool>): Log
    requires |keep| == |log|
  {
    if log == [] then []
    else (if keep[0] then [log[0]] else []) + Select(log[1..], keep[1..])
  }

  function Complement(keep: seq<bool>): seq<bool> {
    seq(|keep|, i requires 0 <= i < |keep| => !keep[i])
  }

  /** A call group is selected as a whole or not at all. */
  ghost predicate GroupClosed(log: Log, keep: seq<bool>)
    requires |keep| == |log|
  {
    forall a: nat, j: nat :: InGroup(log, a, j) ==> keep[j] == keep[a]
  }

  lemma {:induction false} SelectScan(ids: seq<string>, kept: bool, log: Log, keep: seq<bool>)
    requires |keep| == |log| && GroupClosed(log, keep)
    requires ScanFrom(Expect(ids), log) == BALANCED
    requires forall k :: 0 <= k < |ids| && k < |log| ==> keep[k] == kept
    ensures ScanFrom(Expect(if kept then ids else []), Select(log, keep)) == BALANCED
    decreases |log|
  {
    if log != [] {
      var m, rest := log[0], log[1..];
      var next := ScanOne(Expect(ids), m);
      if next.Broken? {
        ScanBroken(rest);
        assert false;
      }
      forall a: nat, j: nat | InGroup(rest, a, j) ensures keep[1..][j] == keep[1..][a] {
        assert InGroup(log, a + 1, j + 1);
      }
      var kept' := if m.role.Tool? then kept else keep[0];
      forall k | 0 <= k < |next.ids| && k < |rest| ensures keep[1..][k] == kept' {
        if !m.role.Tool? {
          assert InGroup(log, 0, k + 1);
        }
      }
      SelectScan(next.ids, kept', rest, keep[1..]);
      ScanConcat(Expect(if kept then ids else []), if keep[0] then [m] else [], Select(rest, keep[1..]));
      if keep[0] {
        assert ScanFrom(Expect(if kept then ids else []), [m]) == ScanOne(Expect(if kept then ids else []), m) by {
          assert [m][1..] == [];
        }
      }
    }
  }

  /** Dropping whole call groups from a paired log leaves a paired log. */
  lemma SelectPaired(log: Log, keep: seq<bool>)
    requires Paired(log) && |keep| == |log| && GroupClosed(log, keep)
    ensures Paired(Select(log, keep))
  {
    SelectScan([], false, log, keep);
  }

  lemma {:induction false} SelectAppend(log: Log, keep: seq<bool>, m: Message, k: bool)
    requires |keep| == |log|
    ensures Select(log + [m], keep + [k]) == Select(log, keep) + (if k then [m] else [])
  {
    if log == [] {
      assert log + [m] == [m] && keep + [k] == [k];
      assert Select([m], [k]) == (if k then [m] else []) + Select([], []);
    } else {
      assert (log + [m])[1..] == log[1..] + [m] && (keep + [k])[1..] == keep[1..] + [k];
      SelectAppend(log[1..], keep[1..], m, k);
    }
  }

  // ----- the session object -----

  /** A session file: directory, base name without extension, extension. */
  datatype SessionPath = SessionPath(dir: string, stem: string, ext: string)

  /** What a session last loaded from or saved to a file. The content digest is taken to be
      injective, so it is represented by the content. */
  datatype Baseline = Baseline(path: SessionPath, digest: Log, version: nat, revision: int)

  /** Session holds the live log; version counts every change, rewriteVersion the rewrites. */
  class Session {
    var messages: Log
    var version: nat
    var rewriteVersion: nat
    var persisted: Option<Baseline>

    constructor (system: string)
      ensures messages == if system != "" then [Message(System, system, [], "", "")] else []
      ensures version == 0 && rewriteVersion == 0 && persisted == None
      ensures Paired(messages)
    {
      messages := if system != "" then [Message(System, system, [], "", "")] else [];
      version, rewriteVersion, persisted := 0, 0, None;
    }

    method Add(m: Message)
      modifies this`messages, this`version
      ensures messages == old(messages) + [m] && version == old(version) + 1
    {
      messages := messages + [m];
      version := version + 1;
    }

    method Replace(msgs: Log)
      modifies this`messages, this`version
      ensures messages == msgs && version == old(version) + 1
    {
      messages := msgs;
      version := version + 1;
    }

    method IncrementRewrite()
      modifies this`version, this`rewriteVersion
      ensures version == old(version) + 1 && rewriteVersion == old(rewriteVersion) + 1
    {
      rewriteVersion := rewriteVersion + 1;
      version := version + 1;
    }

    method MarkPersisted(path: SessionPath, digest: Log, version: nat, revision: int)
      modifies this`persisted
      ensures persisted == Some(Baseline(path, digest, version, revision))
    {
      persisted := Some(Baseline(path, digest, version, revision));
    }
  }
}
