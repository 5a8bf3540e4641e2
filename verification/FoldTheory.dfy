/** What a compaction pass folds, exactly: where prefix and tail end, and which messages in between
    stay verbatim (internal/agent/compact.go). */
module FoldTheory {
  import opened Text
  import opened Conversation
  import opened Compaction
  import opened CompactionTheory

  // ----- the pinned prefix -----

  /** Small enough to keep: 1500 tokens, or the window's share if that is less. */
  predicate SmallEnough(p: Policy, log: Log, m: Message) {
    p.cost(log, m) <= 1500 && (p.contextWindow > 0 ==> p.cost(log, m) <= p.pinCap)
  }

  lemma SmallIsPinnable(p: Policy, log: Log, m: Message)
    ensures Pinnable(p, log, m) <==> SmallEnough(p, log, m)
  {
  }

  /** The system prompt, then a small first user turn that is no digest, then all digests up to
      the first other message. */
  lemma PrefixExactly(p: Policy, log: Log)
    ensures var a: nat := if log != [] && log[0].role.System? then 1 else 0;
      var b := if a < |log| && log[a].role.User? && !IsDigest(log[a]) && SmallEnough(p, log, log[a]) then a + 1 else a;
      var r := PinnedPrefixLen(p, log);
      b <= r <= |log| && (forall k :: b <= k < r ==> IsDigest(log[k])) && (r < |log| ==> !IsDigest(log[r]))
  {
    hide IsDigest, SmallEnough, Pinnable;
    forall m ensures Pinnable(p, log, m) <==> SmallEnough(p, log, m) {
      SmallIsPinnable(p, log, m);
    }
  }

  // ----- the verbatim tail -----

  function KeptMessages(p: Policy): int {
    if p.recentKeep < 2 then 2 else p.recentKeep
  }

  function TailTokens(p: Policy): int {
    if p.contextWindow / 2 < 16384 then p.contextWindow / 2 else 16384
  }

  /** The tail is the longest one that has no more messages than are always kept or fits the
      tokens, lengthened until it does not start with a tool result; without a window it has
      the messages that are always kept. */
  lemma TailExactly(p: Policy, log: Log) returns (raw: int)
    ensures var head, start := PinnedPrefixLen(p, log), PlannedStart(p, log);
      head <= start && start <= (if raw < head then head else raw) <= |log| &&
      (forall k :: start < k <= raw && head <= raw ==> k < |log| && log[k].role.Tool?) &&
      (head < start < |log| ==> !log[start].role.Tool?) &&
      if p.contextWindow > 0 then
        head <= raw && Fits(CostIn(p, log), log, TailTokens(p), KeptMessages(p), raw) &&
        forall i: nat :: head < i < raw ==> !Fits(CostIn(p, log), log, TailTokens(p), KeptMessages(p), i)
      else raw == |log| - KeptMessages(p)
  {
    hide Fits, PinnedPrefixLen;
    var head := PinnedPrefixLen(p, log);
    if p.contextWindow > 0 {
      raw := RawTailStart(CostIn(p, log), log, head, TailTokens(p), KeptMessages(p), |log|);
      WholeTailFits(CostIn(p, log), log, TailTokens(p), KeptMessages(p));
      RawTailIsLongest(CostIn(p, log), log, head, TailTokens(p), KeptMessages(p), |log|);
    } else {
      raw := |log| - KeptMessages(p);
    }
  }

  lemma WholeTailFits(c: Message -> nat, log: Log, budget: int, minKeep: int)
    requires minKeep >= 0
    ensures Fits(c, log, budget, minKeep, |log|)
  {
  }

  // ----- what stays in between -----

  /** The keep policy asks for the message, and no digest follows it. */
  predicate AskedFor(p: Policy, region: Log, i: nat)
    requires i < |region|
  {
    ((p.keepErrors && IsErrorMessage(region[i])) || (p.keepMarked && IsUserMarked(region[i]))) &&
    forall k :: i <= k < |region| ==> !IsDigest(region[k])
  }

  lemma {:induction false} PolicyStartIs(region: Log, n: nat)
    requires n <= |region|
    ensures forall k :: PolicyStart(region, n) <= k < n ==> !IsDigest(region[k])
    ensures PolicyStart(region, n) > 0 ==> IsDigest(region[PolicyStart(region, n) - 1])
    decreases n
  {
    hide IsDigest;
    if n > 0 && !IsDigest(region[n - 1]) {
      PolicyStartIs(region, n - 1);
    }
  }

  lemma AskedIsOwn(p: Policy, region: Log, i: nat)
    requires i < |region|
    ensures OwnKeep(p, region, i) <==> AskedFor(p, region, i)
  {
    hide IsDigest, IsErrorMessage, IsUserMarked, PolicyStart;
    PolicyStartIs(region, |region|);
  }

  /** Message i or one of its call group is asked for. */
  ghost predicate AskedWithGroup(p: Policy, region: Log, i: nat)
    requires i < |region|
  {
    AskedFor(p, region, i) ||
    exists a: nat, j: nat :: InGroup(region, a, i) && InGroup(region, a, j) && AskedFor(p, region, j)
  }

  lemma AskedWithGroupIsKept(p: Policy, region: Log, i: nat)
    requires i < |region|
    ensures GroupKept(p, region, i) <==> AskedWithGroup(p, region, i)
  {
    forall j: nat | j < |region| ensures OwnKeep(p, region, j) <==> AskedFor(p, region, j) {
      AskedIsOwn(p, region, j);
    }
    hide OwnKeep, AskedFor;
  }

  /** On a paired region a message stays if and only if it is a digest, a small user turn, or it
      or one of its call group is asked for; all others are folded. */
  lemma StaysExactly(p: Policy, log: Log, i: nat)
    requires Paired(Region(p, log)) && i < |Region(p, log)|
    ensures var m := Region(p, log)[i];
      RegionFlags(p, log)[i] <==>
        IsDigest(m) || (m.role.User? && SmallEnough(p, log, m)) || AskedWithGroup(p, Region(p, log), i)
  {
    hide IsDigest, PolicyFlags, GroupKept, AskedWithGroup, SmallEnough, Pinnable, Region;
    PolicyFlagsMeaning(p, Region(p, log));
    AskedWithGroupIsKept(p, Region(p, log), i);
    SmallIsPinnable(p, log, Region(p, log)[i]);
  }

  /** So there is something to fold if and only if some message of the region stays for none of
      these reasons. */
  lemma SomethingToFold(p: Policy, log: Log)
    ensures FoldPart(p, log) != [] <==> exists i :: 0 <= i < |RegionFlags(p, log)| && !RegionFlags(p, log)[i]
  {
    hide Region, RegionFlags;
    var flags := RegionFlags(p, log);
    SelectNothing(Region(p, log), Complement(flags));
    assert forall i :: 0 <= i < |flags| ==> Complement(flags)[i] == !flags[i];
  }

  lemma {:induction false} SelectNothing(log: Log, keep: seq<bool>)
    requires |keep| == |log|
    ensures Select(log, keep) == [] <==> forall i :: 0 <= i < |log| ==> !keep[i]
  {
    if log != [] {
      SelectNothing(log[1..], keep[1..]);
      if !keep[0] && forall i :: 0 <= i < |log[1..]| ==> !keep[1..][i] {
        forall i | 0 <= i < |log| ensures !keep[i] {
          assert i > 0 ==> keep[1..][i - 1] == keep[i];
        }
      }
    }
  }
}
