/** When the storm breaker speaks, and which failing batches it cannot mistake for others. */
module StormTheory {
  import opened Text
  import opened Conversation
  import opened Batch
  import opened LoopGuards

  // ----- fields -----

  predicate Plain(s: string) {
    NUL !in s
  }

  lemma {:induction false} FieldEnds(a: string, b: string, x: string, y: string)
    requires Plain(a) && Plain(b)
    ensures Field(a) + x == Field(b) + y <==> a == b && x == y
  {
    if a != "" && b != "" {
      FieldEnds(a[1..], b[1..], x, y);
      FieldHead(a, x);
      FieldHead(b, y);
      SameHead(a[0], Field(a[1..]) + x, b[0], Field(b[1..]) + y);
      assert a == [a[0]] + a[1..] && b == [b[0]] + b[1..];
    } else if a == b {
      assert (Field(a) + x)[1..] == x && (Field(b) + y)[1..] == y;
    } else if a == "" {
      assert (Field(b) + y)[0] == b[0] && b[0] in b && (Field(a) + x)[0] == NUL;
    } else {
      assert (Field(a) + x)[0] == a[0] && a[0] in a && (Field(b) + y)[0] == NUL;
    }
  }

  lemma FieldHead(a: string, x: string)
    requires a != ""
    ensures Field(a) + x == [a[0]] + (Field(a[1..]) + x)
  {
    assert a == [a[0]] + a[1..];
  }

  lemma SameHead(c: char, u: string, d: char, v: string)
    ensures [c] + u == [d] + v <==> c == d && u == v
  {
    assert ([c] + u)[0] == c && ([d] + v)[0] == d && ([c] + u)[1..] == u && ([d] + v)[1..] == v;
  }

  // ----- what a signature tells apart -----

  /** The same tools failing with the same errors, in the same order. */
  predicate SameFailures(r: Round, q: Round)
    requires |r.calls| == |r.outcomes| && |q.calls| == |q.outcomes|
  {
    |r.calls| == |q.calls| &&
    forall i ::
      0 <= i < |r.calls| ==> r.calls[i].name == q.calls[i].name && r.outcomes[i].errMsg == q.outcomes[i].errMsg
  }

  predicate PlainFailures(r: Round)
    requires |r.calls| == |r.outcomes|
  {
    forall i :: 0 <= i < |r.calls| ==> Plain(r.calls[i].name) && Plain(r.outcomes[i].errMsg)
  }

  /** Two rounds have one storm text exactly if the same tools failed with the same errors. */
  lemma {:induction false} StormTextExact(r: Round, q: Round)
    requires |r.calls| == |r.outcomes| && |q.calls| == |q.outcomes| && PlainFailures(r) && PlainFailures(q)
    ensures StormText(r) == StormText(q) <==> SameFailures(r, q)
    decreases |r.calls|
  {
    hide Plain;
    if r.calls != [] && q.calls != [] {
      assert PlainFailures(Rest(r)) && PlainFailures(Rest(q));
      StormTextExact(Rest(r), Rest(q));
      StormTextStep(r, q);
      SameFailuresStep(r, q);
    }
  }

  lemma StormTextStep(r: Round, q: Round)
    requires |r.calls| == |r.outcomes| > 0 && |q.calls| == |q.outcomes| > 0 && PlainFailures(r) && PlainFailures(q)
    ensures StormText(r) == StormText(q) <==>
      r.calls[0].name == q.calls[0].name && r.outcomes[0].errMsg == q.outcomes[0].errMsg &&
      StormText(Rest(r)) == StormText(Rest(q))
  {
    hide Field, Plain;
    var x, y := StormText(Rest(r)), StormText(Rest(q));
    var f, g := r.outcomes[0].errMsg, q.outcomes[0].errMsg;
    FieldEnds(r.calls[0].name, q.calls[0].name, Field(f) + x, Field(g) + y);
    FieldEnds(f, g, x, y);
  }

  lemma SameFailuresStep(r: Round, q: Round)
    requires |r.calls| == |r.outcomes| > 0 && |q.calls| == |q.outcomes| > 0
    ensures SameFailures(r, q) <==>
      r.calls[0].name == q.calls[0].name && r.outcomes[0].errMsg == q.outcomes[0].errMsg &&
      SameFailures(Rest(r), Rest(q))
  {
    if SameFailures(Rest(r), Rest(q)) {
      forall i | 0 < i < |r.calls|
        ensures r.calls[i].name == q.calls[i].name && r.outcomes[i].errMsg == q.outcomes[i].errMsg
      {
        assert Rest(r).calls[i - 1].name == Rest(q).calls[i - 1].name;
        assert Rest(r).outcomes[i - 1].errMsg == Rest(q).outcomes[i - 1].errMsg;
      }
    }
  }

  /** The same failures always have the same text. */
  lemma {:induction false} SameFailuresSameText(r: Round, q: Round)
    requires |r.calls| == |r.outcomes| && |q.calls| == |q.outcomes| && SameFailures(r, q)
    ensures StormText(r) == StormText(q)
    decreases |r.calls|
  {
    if r.calls != [] {
      SameFailuresStep(r, q);
      SameFailuresSameText(Rest(r), Rest(q));
    }
  }

  lemma {:induction false} EndsInNul(r: Round)
    requires |r.calls| == |r.outcomes| > 0
    ensures StormText(r) != "" && StormText(r)[|StormText(r)| - 1] == NUL
    decreases |r.calls|
  {
    if |r.calls| > 1 {
      EndsInNul(Rest(r));
    }
  }

  /** The error that makes one failure of the first tool look like the whole batch. */
  function MergedError(r: Round): string
    requires |r.calls| == |r.outcomes| > 0
    decreases |r.calls|
  {
    var err := r.outcomes[0].errMsg;
    if |r.calls| == 1 then err else Field(err) + (Field(r.calls[1].name) + MergedError(Rest(r)))
  }

  lemma {:induction false} MergedErrorText(r: Round)
    requires |r.calls| == |r.outcomes| > 0
    ensures StormText(r) == Field(r.calls[0].name) + Field(MergedError(r))
    decreases |r.calls|
  {
    var err := r.outcomes[0].errMsg;
    if |r.calls| == 1 {
      assert StormText(Rest(r)) == "";
      assert Field(err) + "" == Field(err);
    } else {
      MergedErrorText(Rest(r));
      var name, more := r.calls[1].name, MergedError(Rest(r));
      assert Rest(r).calls[0].name == name;
      assert Field(Field(err) + (Field(name) + more)) == Field(err) + (Field(name) + Field(more));
    }
  }

  lemma {:induction false} MergedErrorSome(r: Round)
    requires |r.calls| == |r.outcomes| > 0 && AllFailed(r)
    ensures MergedError(r) != ""
    decreases |r.calls|
  {
    assert Failed(r.outcomes[0]);
  }

  /** One failing call of a tool, with an error. */
  function OneFailure(c: ToolCall, name: string, err: string): Round {
    Round([c.(name := name)], [Outcome("", err, false)])
  }

  lemma OneFailureText(c: ToolCall, name: string, err: string)
    ensures StormText(OneFailure(c, name, err)) == Field(name) + Field(err)
  {
    var one := OneFailure(c, name, err);
    assert StormText(Rest(one)) == "";
    assert Field(err) + "" == Field(err);
  }

  /** One call, no NUL in its name and none in its error but at the very end. */
  predicate Unmistakable(r: Round)
    requires |r.calls| == |r.outcomes|
  {
    |r.calls| == 1 && Plain(r.calls[0].name) &&
    (r.outcomes[0].errMsg != "" ==> Plain(r.outcomes[0].errMsg[..|r.outcomes[0].errMsg| - 1]))
  }

  lemma TwoFields(a: string, e: string, b: string, f: string)
    requires Field(a) + Field(e) == Field(b) + Field(f)
    ensures a + [NUL] + e == b + [NUL] + f
  {
    var l, r := a + [NUL] + e, b + [NUL] + f;
    assert Field(a) + Field(e) == l + [NUL] && Field(b) + Field(f) == r + [NUL];
    assert l == (l + [NUL])[..|l|] && r == (r + [NUL])[..|r|];
  }

  /** An unmistakable failure determines name and error of the one it looks like. */
  lemma NameIsClear(a: string, e: string, b: string, f: string)
    requires a + [NUL] + e == b + [NUL] + f
    requires Plain(a) && e != "" && f != "" && Plain(e[..|e| - 1])
    ensures a == b && e == f
  {
    var l, r := a + [NUL] + e, b + [NUL] + f;
    assert forall k :: 0 <= k < |a| ==> l[k] == a[k];
    assert r[|b|] == NUL;
    assert |b| >= |a|;
    assert forall k :: 0 <= k < |e| - 1 ==> e[k] == e[..|e| - 1][k];
    assert forall k :: |a| < k < |l| ==> l[k] == e[k - |a| - 1];
    assert |b| <= |a|;
    assert a == l[..|a|] && b == r[..|b|] && e == l[|a| + 1..] && f == r[|b| + 1..];
  }

  /** The merged error of several failures holds a NUL in front of its last byte. */
  lemma MergedErrorHoldsNul(r: Round)
    requires |r.calls| == |r.outcomes| > 0 && AllFailed(r)
    ensures MergedError(r) != ""
    ensures |r.calls| > 1 ==> !Plain(MergedError(r)[..|MergedError(r)| - 1])
  {
    MergedErrorSome(r);
    if |r.calls| > 1 {
      MergedErrorSome(Rest(r));
      var err, k := MergedError(r), |r.outcomes[0].errMsg|;
      assert err[k] == NUL && k < |err| - 1;
      assert err[..|err| - 1][k] == NUL;
    }
  }

  lemma ClearIsSame(r: Round, q: Round)
    requires |r.calls| == |r.outcomes| && |q.calls| == |q.outcomes| && AllFailed(r) && AllFailed(q)
    requires Unmistakable(r) && StormText(r) == StormText(q)
    ensures SameFailures(r, q)
  {
    assert Failed(r.outcomes[0]);
    MergedErrorText(r);
    MergedErrorText(q);
    MergedErrorHoldsNul(q);
    var a, e, b, f := r.calls[0].name, r.outcomes[0].errMsg, q.calls[0].name, MergedError(q);
    TwoFields(a, e, b, f);
    NameIsClear(a, e, b, f);
    assert |q.calls| == 1;
  }

  function FirstNul(s: string): (k: nat)
    requires !Plain(s)
    ensures k < |s| && s[k] == NUL
  {
    if s[0] == NUL then 0 else 1 + FirstNul(s[1..])
  }

  /** Every other batch of failures looks like a batch of one that failed otherwise. */
  lemma Mistaken(r: Round) returns (q: Round)
    requires |r.calls| == |r.outcomes| && AllFailed(r) && !Unmistakable(r)
    ensures |q.calls| == |q.outcomes| && AllFailed(q) && StormText(q) == StormText(r) && !SameFailures(r, q)
  {
    MergedErrorText(r);
    MergedErrorSome(r);
    var c, name, err := r.calls[0], r.calls[0].name, MergedError(r);
    if |r.calls| > 1 {
      q := OneFailure(c, name, err);
      OneFailureText(c, name, err);
    } else if !Plain(name) {
      var k := FirstNul(name);
      NameSplit(name, err, k);
      hide Field, StormText;
      q := OneFailure(c, name[..k], name[k + 1..] + [NUL] + err);
      OneFailureText(c, name[..k], name[k + 1..] + [NUL] + err);
    } else {
      var k := FirstNul(err[..|err| - 1]);
      ErrorSplit(name, err, k);
      hide Field, StormText;
      q := OneFailure(c, name + [NUL] + err[..k], err[k + 1..]);
      OneFailureText(c, name + [NUL] + err[..k], err[k + 1..]);
    }
  }

  lemma NameSplit(name: string, err: string, k: nat)
    requires k < |name| && name[k] == NUL
    ensures Field(name[..k]) + Field(name[k + 1..] + [NUL] + err) == Field(name) + Field(err)
  {
  }

  lemma ErrorSplit(name: string, err: string, k: nat)
    requires k < |err| && err[k] == NUL
    ensures Field(name + [NUL] + err[..k]) + Field(err[k + 1..]) == Field(name) + Field(err)
  {
    assert err == err[..k] + [NUL] + err[k + 1..];
  }

  // ----- when the breaker speaks -----

  predicate WellFormed(rounds: seq<Round>) {
    forall i :: 0 <= i < |rounds| ==> |rounds[i].calls| == |rounds[i].outcomes|
  }

  function StormSigs(rounds: seq<Round>): seq<Option<string>>
    requires WellFormed(rounds)
  {
    seq(|rounds|, i requires 0 <= i < |rounds| => StormSignature(rounds[i]))
  }

  /** The breaker has spoken after the last of some batches. */
  predicate Speaks(rounds: seq<Round>)
    requires WellFormed(rounds)
  {
    Play(StormSigs(rounds)).count >= STORM_BREAK
  }

  /** What it is for: the last three failed throughout with the same tools and errors and no
      refusal, whatever their arguments were. */
  predicate ThreeAlike(rounds: seq<Round>)
    requires WellFormed(rounds)
  {
    |rounds| >= STORM_BREAK &&
    forall i :: |rounds| - STORM_BREAK <= i < |rounds| ==>
      AllFailed(rounds[i]) && SameFailures(rounds[i], rounds[|rounds| - 1])
  }

  lemma SpeaksBySignature(rounds: seq<Round>)
    requires WellFormed(rounds)
    ensures Speaks(rounds) <==>
      |rounds| >= STORM_BREAK &&
      forall i :: |rounds| - STORM_BREAK <= i < |rounds| ==>
        AllFailed(rounds[i]) && StormText(rounds[i]) == StormText(rounds[|rounds| - 1])
  {
    var sigs, n := StormSigs(rounds), |rounds|;
    forall i | 0 <= i < n ensures sigs[i] != Some("") {
      if rounds[i].calls != [] {
        EndsInNul(rounds[i]);
      }
    }
    StreakIsTail(sigs, STORM_BREAK);
    hide StormText, AllFailed;
    assert forall i :: 0 <= i < n ==> sigs[i] == StormSignature(rounds[i]);
  }

  /** Where neither names nor errors hold a NUL the breaker is always right. */
  lemma RightOnPlain(rounds: seq<Round>)
    requires WellFormed(rounds) && forall i :: 0 <= i < |rounds| ==> PlainFailures(rounds[i])
    ensures Speaks(rounds) <==> ThreeAlike(rounds)
  {
    SpeaksBySignature(rounds);
    hide StormText, SameFailures, PlainFailures, AllFailed, Speaks;
    var n := |rounds|;
    forall i | 0 <= i < n
      ensures StormText(rounds[i]) == StormText(rounds[n - 1]) <==> SameFailures(rounds[i], rounds[n - 1])
    {
      StormTextExact(rounds[i], rounds[n - 1]);
    }
  }

  /** The breaker is right about r after these batches. */
  predicate RightAfter(before: seq<Round>, r: Round)
    requires WellFormed(before + [r])
  {
    Speaks(before + [r]) <==> ThreeAlike(before + [r])
  }

  lemma WellFormedAppend(before: seq<Round>, r: Round)
    requires WellFormed(before) && |r.calls| == |r.outcomes|
    ensures WellFormed(before + [r])
  {
  }

  /** The breaker is right about a batch whatever came before it if and only if the batch has not
      failed throughout or is one call without NULs in its name and in its error, the error's
      last byte aside. So every batch of two or more failures can be mistaken. */
  lemma StormFiresExactly(r: Round)
    requires |r.calls| == |r.outcomes|
    ensures (forall before :: WellFormed(before + [r]) ==> RightAfter(before, r)) <==>
            (AllFailed(r) ==> Unmistakable(r))
  {
    hide AllFailed, Unmistakable, StormText, SameFailures;
    if AllFailed(r) && !Unmistakable(r) {
      var q := Mistaken(r);
      WrongAfter(r, q);
    } else {
      forall before | WellFormed(before + [r]) ensures RightAfter(before, r) {
        AlwaysRight(before, r);
      }
    }
  }

  lemma WrongAfter(r: Round, q: Round)
    requires |r.calls| == |r.outcomes| && |q.calls| == |q.outcomes| && AllFailed(r) && AllFailed(q)
    requires StormText(q) == StormText(r) && !SameFailures(r, q)
    ensures WellFormed([r, q] + [r]) && !RightAfter([r, q], r)
  {
    hide StormText, AllFailed, SameFailures, Speaks;
    var rounds := [r, q] + [r];
    assert rounds == [r, q, r];
    assert WellFormed(rounds);
    SpeaksBySignature(rounds);
    if ThreeAlike(rounds) {
      assert SameFailures(rounds[1], rounds[2]);
      Flipped(q, r);
      assert false;
    }
  }

  lemma Flipped(q: Round, r: Round)
    requires |r.calls| == |r.outcomes| && |q.calls| == |q.outcomes| && SameFailures(q, r)
    ensures SameFailures(r, q)
  {
  }

  lemma AlwaysRight(before: seq<Round>, r: Round)
    requires WellFormed(before + [r]) && |r.calls| == |r.outcomes| && (AllFailed(r) ==> Unmistakable(r))
    ensures RightAfter(before, r)
  {
    var rounds := before + [r];
    SpeaksBySignature(rounds);
    hide StormText, AllFailed, SameFailures, Speaks, Unmistakable;
    var n := |rounds|;
    assert rounds[n - 1] == r;
    if AllFailed(r) {
      forall i | 0 <= i < n && AllFailed(rounds[i])
        ensures StormText(rounds[i]) == StormText(r) <==> SameFailures(rounds[i], r)
      {
        if StormText(rounds[i]) == StormText(r) {
          ClearIsSame(r, rounds[i]);
          Flipped(r, rounds[i]);
        }
        if SameFailures(rounds[i], r) {
          SameFailuresSameText(rounds[i], r);
        }
      }
    }
  }
}
