/** When the guard against repeated reads speaks, and which reads it cannot mistake for others. */
module ReadGuardTheory {
  import opened Text
  import opened Conversation
  import opened Batch
  import opened LoopGuards
  import opened StormTheory

  /** Texts with a raw NUL do not decode, compact forms have no white space around them, and
      digests have one size. */
  ghost predicate SaneTexts(t: Texts) {
    (forall x :: t.decodes(x) ==> Plain(x) && TrimSpace(t.compact(x)) == t.compact(x)) &&
    forall x :: |t.digest(x)| == DIGEST_SIZE
  }

  /** No two of these outputs have one digest. */
  predicate TellsApart(t: Texts, outputs: set<string>) {
    forall x, y :: x in outputs && y in outputs && t.digest(x) == t.digest(y) ==> x == y
  }

  function OutputsOf(r: Round): set<string> {
    set o | o in r.outcomes :: o.output
  }

  function OutputsIn(rounds: seq<Round>): set<string> {
    set r, o | r in rounds && o in r.outcomes :: o.output
  }

  // ----- what a signature tells apart -----

  /** The same reads with the same arguments and the same outputs, in the same order. */
  predicate SameReads(t: Texts, r: Round, q: Round)
    requires |r.calls| == |r.outcomes| && |q.calls| == |q.outcomes|
  {
    |r.calls| == |q.calls| &&
    forall i :: 0 <= i < |r.calls| ==> SameRead(t, r.calls[i], r.outcomes[i], q.calls[i], q.outcomes[i])
  }

  predicate SameRead(t: Texts, c: ToolCall, o: Outcome, d: ToolCall, p: Outcome) {
    c.name == d.name && CanonicalToolArgs(t, c.arguments) == CanonicalToolArgs(t, d.arguments) && o.output == p.output
  }

  predicate PlainReads(t: Texts, r: Round)
    requires |r.calls| == |r.outcomes|
  {
    forall i :: 0 <= i < |r.calls| ==> Plain(r.calls[i].name) && Plain(CanonicalToolArgs(t, r.calls[i].arguments))
  }

  lemma SameReadsStep(t: Texts, r: Round, q: Round)
    requires |r.calls| == |r.outcomes| > 0 && |q.calls| == |q.outcomes| > 0
    ensures SameReads(t, r, q) <==>
      SameRead(t, r.calls[0], r.outcomes[0], q.calls[0], q.outcomes[0]) && SameReads(t, Rest(r), Rest(q))
  {
    hide SameRead;
    if SameReads(t, Rest(r), Rest(q)) && |r.calls| == |q.calls| {
      forall i | 0 < i < |r.calls| ensures SameRead(t, r.calls[i], r.outcomes[i], q.calls[i], q.outcomes[i]) {
        var a, b := Rest(r), Rest(q);
        assert SameRead(t, a.calls[i - 1], a.outcomes[i - 1], b.calls[i - 1], b.outcomes[i - 1]);
      }
    }
  }

  lemma DigestEnds(t: Texts, o: string, p: string, x: string, y: string)
    requires SaneTexts(t) && TellsApart(t, {o, p})
    ensures Field(t.digest(o)) + x == Field(t.digest(p)) + y <==> o == p && x == y
  {
    var l, r := Field(t.digest(o)) + x, Field(t.digest(p)) + y;
    if l == r {
      assert t.digest(o) == l[..DIGEST_SIZE] && t.digest(p) == r[..DIGEST_SIZE];
      assert x == l[DIGEST_SIZE + 1..] && y == r[DIGEST_SIZE + 1..];
    }
  }

  /** Without NULs in names and arguments two rounds have one text exactly if the same reads gave
      the same outputs. */
  lemma {:induction false} ReadTextExact(t: Texts, r: Round, q: Round)
    requires |r.calls| == |r.outcomes| && |q.calls| == |q.outcomes|
    requires SaneTexts(t) && TellsApart(t, OutputsOf(r) + OutputsOf(q)) && PlainReads(t, r) && PlainReads(t, q)
    ensures ReadText(t, r) == ReadText(t, q) <==> SameReads(t, r, q)
    decreases |r.calls|
  {
    hide SameRead, SaneTexts, Plain, CanonicalToolArgs;
    if r.calls != [] && q.calls != [] {
      assert PlainReads(t, Rest(r)) && PlainReads(t, Rest(q));
      assert OutputsOf(Rest(r)) <= OutputsOf(r) && OutputsOf(Rest(q)) <= OutputsOf(q);
      ReadTextExact(t, Rest(r), Rest(q));
      ReadTextStep(t, r, q);
      SameReadsStep(t, r, q);
    }
  }

  lemma ReadTextStep(t: Texts, r: Round, q: Round)
    requires |r.calls| == |r.outcomes| > 0 && |q.calls| == |q.outcomes| > 0
    requires SaneTexts(t) && TellsApart(t, OutputsOf(r) + OutputsOf(q)) && PlainReads(t, r) && PlainReads(t, q)
    ensures ReadText(t, r) == ReadText(t, q) <==>
      SameRead(t, r.calls[0], r.outcomes[0], q.calls[0], q.outcomes[0]) && ReadText(t, Rest(r)) == ReadText(t, Rest(q))
  {
    var c, d := r.calls[0], q.calls[0];
    var f, g := CanonicalToolArgs(t, c.arguments), CanonicalToolArgs(t, d.arguments);
    assert Plain(c.name) && Plain(d.name) && Plain(f) && Plain(g);
    assert TellsApart(t, {r.outcomes[0].output, q.outcomes[0].output}) by {
      assert r.outcomes[0] in r.outcomes && q.outcomes[0] in q.outcomes;
    }
    hide Field, SaneTexts, TellsApart, PlainReads, Plain, CanonicalToolArgs;
    var x, y := ReadText(t, Rest(r)), ReadText(t, Rest(q));
    var o := Field(t.digest(r.outcomes[0].output)) + x;
    var p := Field(t.digest(q.outcomes[0].output)) + y;
    FieldEnds(c.name, d.name, Field(f) + o, Field(g) + p);
    FieldEnds(f, g, o, p);
    DigestEnds(t, r.outcomes[0].output, q.outcomes[0].output, x, y);
  }

  lemma {:induction false} SameReadsSameText(t: Texts, r: Round, q: Round)
    requires |r.calls| == |r.outcomes| && |q.calls| == |q.outcomes| && SameReads(t, r, q)
    ensures ReadText(t, r) == ReadText(t, q)
    decreases |r.calls|
  {
    hide Field, CanonicalToolArgs;
    if r.calls != [] {
      SameReadsStep(t, r, q);
      SameReadsSameText(t, Rest(r), Rest(q));
    }
  }

  // ----- reads that look like others -----

  function LastOutput(r: Round): string
    requires r.outcomes != []
  {
    r.outcomes[|r.outcomes| - 1].output
  }

  /** The arguments that make one read of the first tool look like the whole batch. */
  function MergedArgs(t: Texts, r: Round): string
    requires |r.calls| == |r.outcomes| > 0
    decreases |r.calls|
  {
    var args := CanonicalToolArgs(t, r.calls[0].arguments);
    if |r.calls| == 1 then args
    else Field(args) + (Field(t.digest(r.outcomes[0].output)) + (Field(r.calls[1].name) + MergedArgs(t, Rest(r))))
  }

  lemma {:induction false} MergedArgsText(t: Texts, r: Round)
    requires |r.calls| == |r.outcomes| > 0
    ensures ReadText(t, r) == Field(r.calls[0].name) + (Field(MergedArgs(t, r)) + Field(t.digest(LastOutput(r))))
    decreases |r.calls|
  {
    hide CanonicalToolArgs;
    var args, d := CanonicalToolArgs(t, r.calls[0].arguments), t.digest(r.outcomes[0].output);
    if |r.calls| == 1 {
      assert ReadText(t, Rest(r)) == "";
      assert Field(d) + "" == Field(d);
    } else {
      MergedArgsText(t, Rest(r));
      var name, more, last := r.calls[1].name, MergedArgs(t, Rest(r)), Field(t.digest(LastOutput(r)));
      assert Rest(r).calls[0].name == name && LastOutput(Rest(r)) == LastOutput(r);
      hide ReadText, MergedArgs;
      Reassociate(args, d, name, more, last);
    }
  }

  lemma Reassociate(a: string, d: string, n: string, m: string, last: string)
    ensures Field(Field(a) + (Field(d) + (Field(n) + m))) + last ==
      Field(a) + (Field(d) + (Field(n) + (Field(m) + last)))
  {
    assert Field(Field(a) + (Field(d) + (Field(n) + m))) == Field(a) + (Field(d) + (Field(n) + Field(m)));
  }

  predicate Trimmed(s: string) {
    s != "" ==> !IsSpace(s[0]) && !IsSpace(s[|s| - 1])
  }

  lemma TrimmedEnds(s: string)
    ensures TrimSpace(s) == s <==> Trimmed(s)
  {
    TrimLeftSplits(s);
    TrimRightSplits(TrimLeft(s));
    if Trimmed(s) {
      TrimSpaceFixes(s);
    }
    hide TrimLeft, TrimRight, AllSpace;
    var l := TrimLeft(s);
    assert TrimRight(l) == s ==> |l| == |s| && l == s;
  }

  lemma CanonicalIsTrimmed(t: Texts, raw: string)
    requires SaneTexts(t)
    ensures Trimmed(CanonicalToolArgs(t, raw))
  {
    TrimmedEnds(CanonicalToolArgs(t, raw));
    TrimSpaceTrimmed(raw);
  }

  /** Merged arguments are a canonical form. */
  lemma {:induction false} MergedIsTrimmed(t: Texts, r: Round)
    requires |r.calls| == |r.outcomes| > 0 && SaneTexts(t)
    ensures Trimmed(MergedArgs(t, r))
    decreases |r.calls|
  {
    CanonicalIsTrimmed(t, r.calls[0].arguments);
    hide CanonicalToolArgs, SaneTexts;
    if |r.calls| > 1 {
      MergedIsTrimmed(t, Rest(r));
      assert !IsSpace(NUL);
    }
  }

  /** Arguments with that canonical form. */
  function ArgsFor(t: Texts, r: Round): string
    requires |r.calls| == |r.outcomes| > 0
  {
    if |r.calls| == 1 then r.calls[0].arguments else MergedArgs(t, r)
  }

  lemma ArgsForMerged(t: Texts, r: Round)
    requires |r.calls| == |r.outcomes| > 0 && SaneTexts(t)
    ensures CanonicalToolArgs(t, ArgsFor(t, r)) == MergedArgs(t, r)
  {
    if |r.calls| > 1 {
      var args := MergedArgs(t, r);
      MergedIsTrimmed(t, r);
      TrimmedEnds(args);
      assert args[|CanonicalToolArgs(t, r.calls[0].arguments)|] == NUL;
      assert !Plain(args);
    }
  }

  /** The text spells out the rest of a read - arguments in canonical form and the digest of an
      output - and the start of another one: a registered reader's name and its arguments. */
  ghost predicate Spells(t: Texts, reg: Registry, text: string) {
    exists a: string, o: string, name: string, b: string :: name in reg && reg[name] &&
      text == Field(CanonicalToolArgs(t, a)) + (Field(t.digest(o)) + (Field(name) + CanonicalToolArgs(t, b)))
  }

  /** One read whose arguments do not spell out others. */
  ghost predicate Distinct(t: Texts, reg: Registry, r: Round) {
    |r.calls| == 1 && !Spells(t, reg, CanonicalToolArgs(t, r.calls[0].arguments))
  }

  /** Names of registered tools hold no NUL. */
  ghost predicate PlainNames(reg: Registry) {
    forall name :: name in reg ==> Plain(name)
  }

  lemma SeveralSpell(t: Texts, reg: Registry, r: Round)
    requires |r.calls| == |r.outcomes| > 1 && SaneTexts(t) && AllRead(reg, r)
    ensures Spells(t, reg, MergedArgs(t, r))
  {
    ArgsForMerged(t, Rest(r));
    assert Read(reg, r.calls[1], r.outcomes[1]);
    assert Field(r.calls[1].name) + MergedArgs(t, Rest(r)) ==
      Field(r.calls[1].name) + CanonicalToolArgs(t, ArgsFor(t, Rest(r)));
  }

  /** One text is one tool, one merged argument text and one last output. */
  lemma SameTextParts(t: Texts, reg: Registry, r: Round, q: Round)
    requires |r.calls| == |r.outcomes| && |q.calls| == |q.outcomes|
    requires SaneTexts(t) && PlainNames(reg) && AllRead(reg, r) && AllRead(reg, q)
    requires TellsApart(t, {LastOutput(r), LastOutput(q)})
    ensures ReadText(t, r) == ReadText(t, q) <==>
      r.calls[0].name == q.calls[0].name && MergedArgs(t, r) == MergedArgs(t, q) && LastOutput(r) == LastOutput(q)
  {
    assert Read(reg, r.calls[0], r.outcomes[0]) && Read(reg, q.calls[0], q.outcomes[0]);
    MergedArgsText(t, r);
    MergedArgsText(t, q);
    hide ReadText, MergedArgs, LastOutput;
    var d, e := t.digest(LastOutput(r)), t.digest(LastOutput(q));
    FieldEnds(r.calls[0].name, q.calls[0].name, Field(MergedArgs(t, r)) + Field(d), Field(MergedArgs(t, q)) + Field(e));
    SameSize(MergedArgs(t, r), MergedArgs(t, q), d, e);
  }

  lemma SameSize(a: string, b: string, d: string, e: string)
    requires |d| == |e|
    ensures Field(a) + Field(d) == Field(b) + Field(e) <==> a == b && d == e
  {
    var l, r := Field(a) + Field(d), Field(b) + Field(e);
    if l == r {
      assert |a| == |b|;
      assert a == l[..|a|] && b == r[..|b|];
      assert d == l[|a| + 1..|l| - 1] && e == r[|b| + 1..|r| - 1];
    }
  }

  lemma DistinctIsSame(t: Texts, reg: Registry, r: Round, q: Round)
    requires |r.calls| == |r.outcomes| && |q.calls| == |q.outcomes|
    requires SaneTexts(t) && PlainNames(reg) && AllRead(reg, r) && AllRead(reg, q)
    requires TellsApart(t, OutputsOf(r) + OutputsOf(q))
    requires Distinct(t, reg, r) && ReadText(t, r) == ReadText(t, q)
    ensures SameReads(t, r, q)
  {
    LastIsIn(r);
    LastIsIn(q);
    SameTextParts(t, reg, r, q);
    if |q.calls| > 1 {
      SeveralSpell(t, reg, q);
    }
  }

  lemma LastIsIn(r: Round)
    requires r.outcomes != []
    ensures LastOutput(r) in OutputsOf(r)
  {
    assert r.outcomes[|r.outcomes| - 1] in r.outcomes;
  }

  /** A single read of a tool. */
  function OneRead(c: ToolCall, args: string, output: string): Round {
    Round([c.(arguments := args)], [Outcome(output, "", false)])
  }

  /** Every other batch of reads looks like another one, even when all their outputs have digests
      of their own. */
  lemma ReadMistaken(t: Texts, reg: Registry, r: Round) returns (q: Round)
    requires |r.calls| == |r.outcomes| && SaneTexts(t) && PlainNames(reg) && AllRead(reg, r) && !Distinct(t, reg, r)
    requires TellsApart(t, OutputsOf(r))
    ensures |q.calls| == |q.outcomes| && AllRead(reg, q) && TellsApart(t, OutputsOf(r) + OutputsOf(q))
    ensures ReadText(t, q) == ReadText(t, r) && !SameReads(t, q, r)
  {
    assert Read(reg, r.calls[0], r.outcomes[0]);
    LastIsIn(r);
    var c, last := r.calls[0], LastOutput(r);
    if |r.calls| > 1 {
      ArgsForMerged(t, r);
      q := OneRead(c, ArgsFor(t, r), last);
      SameTextParts(t, reg, q, r);
      assert OutputsOf(r) + OutputsOf(q) == OutputsOf(r);
    } else {
      q := SpelledReads(t, reg, r);
    }
  }

  lemma TwoMerged(t: Texts, q: Round)
    requires |q.calls| == |q.outcomes| == 2
    ensures MergedArgs(t, q) == Field(CanonicalToolArgs(t, q.calls[0].arguments)) +
      (Field(t.digest(q.outcomes[0].output)) + (Field(q.calls[1].name) + CanonicalToolArgs(t, q.calls[1].arguments)))
  {
    assert Rest(q).calls[0] == q.calls[1];
  }

  /** Two reads with these arguments and outputs. */
  function TwoReads(c: ToolCall, a: string, first: string, name: string, b: string, last: string): Round {
    Round([c.(arguments := a), ToolCall("", name, b)], [Outcome(first, "", false), Outcome(last, "", false)])
  }

  lemma TwoReadsAre(reg: Registry, c: ToolCall, a: string, first: string, name: string, b: string, last: string)
    requires c.name in reg && reg[c.name] && name in reg && reg[name]
    ensures var q := TwoReads(c, a, first, name, b, last); AllRead(reg, q) && OutputsOf(q) == {first, last}
  {
    var q := TwoReads(c, a, first, name, b, last);
    assert q.outcomes[0] in q.outcomes && q.outcomes[1] in q.outcomes;
  }

  lemma OneOutput(r: Round)
    requires |r.outcomes| == 1
    ensures OutputsOf(r) == {LastOutput(r)}
  {
    assert r.outcomes[0] in r.outcomes;
  }

  lemma SpelledReads(t: Texts, reg: Registry, r: Round) returns (q: Round)
    requires |r.calls| == |r.outcomes| == 1 && SaneTexts(t) && PlainNames(reg) && AllRead(reg, r)
    requires Spells(t, reg, CanonicalToolArgs(t, r.calls[0].arguments))
    ensures |q.calls| == |q.outcomes| == 2 && AllRead(reg, q) && TellsApart(t, OutputsOf(r) + OutputsOf(q))
    ensures ReadText(t, q) == ReadText(t, r)
  {
    var c, last := r.calls[0], LastOutput(r);
    var a, o, name, b :| name in reg && reg[name] && CanonicalToolArgs(t, c.arguments) ==
      Field(CanonicalToolArgs(t, a)) + (Field(t.digest(o)) + (Field(name) + CanonicalToolArgs(t, b)));
    hide CanonicalToolArgs, Field, SaneTexts, PlainNames, OutputsOf, ReadText, Spells, TellsApart;
    var first := if t.digest(o) == t.digest(last) then last else o;
    q := TwoReads(c, a, first, name, b, last);
    assert Read(reg, r.calls[0], r.outcomes[0]);
    TwoReadsAre(reg, c, a, first, name, b, last);
    OneOutput(r);
    TwoApart(t, first, last);
    TwoMerged(t, q);
    hide AllRead, Read;
    assert MergedArgs(t, q) == MergedArgs(t, r);
    hide MergedArgs;
    SameTextParts(t, reg, q, r);
  }

  lemma TwoApart(t: Texts, x: string, y: string)
    requires t.digest(x) == t.digest(y) ==> x == y
    ensures TellsApart(t, {y} + {x, y}) && TellsApart(t, {y, y})
  {
  }

  // ----- when the guard speaks -----

  function ReadSigs(t: Texts, reg: Registry, rounds: seq<Round>): seq<Option<string>>
    requires WellFormed(rounds)
  {
    seq(|rounds|, i requires 0 <= i < |rounds| => ReadSignature(t, reg, rounds[i]))
  }

  /** The guard has spoken after the last of some batches. */
  predicate ReadGuardSpeaks(t: Texts, reg: Registry, rounds: seq<Round>)
    requires WellFormed(rounds)
  {
    Play(ReadSigs(t, reg, rounds)).count >= NO_PROGRESS_BREAK
  }

  /** What it is for: the last six were successful reads throughout, with the same tools,
      arguments and outputs. */
  predicate SixAlike(t: Texts, reg: Registry, rounds: seq<Round>)
    requires WellFormed(rounds)
  {
    |rounds| >= NO_PROGRESS_BREAK &&
    forall i :: |rounds| - NO_PROGRESS_BREAK <= i < |rounds| ==>
      AllRead(reg, rounds[i]) && SameReads(t, rounds[i], rounds[|rounds| - 1])
  }

  lemma SignatureSome(t: Texts, reg: Registry, r: Round)
    requires |r.calls| == |r.outcomes|
    ensures ReadSignature(t, reg, r) != Some("")
  {
  }

  lemma ReadSpeaksBySignature(t: Texts, reg: Registry, rounds: seq<Round>)
    requires WellFormed(rounds)
    ensures ReadGuardSpeaks(t, reg, rounds) <==>
      |rounds| >= NO_PROGRESS_BREAK &&
      forall i :: |rounds| - NO_PROGRESS_BREAK <= i < |rounds| ==>
        AllRead(reg, rounds[i]) && ReadText(t, rounds[i]) == ReadText(t, rounds[|rounds| - 1])
  {
    hide ReadText, AllRead;
    var sigs, n := ReadSigs(t, reg, rounds), |rounds|;
    forall i | 0 <= i < n ensures sigs[i] != Some("") {
      SignatureSome(t, reg, rounds[i]);
    }
    StreakIsTail(sigs, NO_PROGRESS_BREAK);
    hide Play;
    assert forall i :: 0 <= i < n ==> sigs[i] == ReadSignature(t, reg, rounds[i]);
  }

  lemma ApartAmong(t: Texts, rounds: seq<Round>, i: nat, k: nat)
    requires i < |rounds| && k < |rounds| && TellsApart(t, OutputsIn(rounds))
    ensures TellsApart(t, OutputsOf(rounds[i]) + OutputsOf(rounds[k]))
  {
    assert OutputsOf(rounds[i]) + OutputsOf(rounds[k]) <= OutputsIn(rounds);
  }

  /** Where neither names nor arguments hold a NUL and no two outputs have one digest, the guard
      is always right. */
  lemma ReadRightOnPlain(t: Texts, reg: Registry, rounds: seq<Round>)
    requires WellFormed(rounds) && SaneTexts(t) && TellsApart(t, OutputsIn(rounds))
    requires forall i :: 0 <= i < |rounds| ==> PlainReads(t, rounds[i])
    ensures ReadGuardSpeaks(t, reg, rounds) <==> SixAlike(t, reg, rounds)
  {
    hide ReadText, SameReads, AllRead, SaneTexts, ReadGuardSpeaks, OutputsOf, OutputsIn, TellsApart, PlainReads;
    var n := |rounds|;
    forall i | 0 <= i < n
      ensures ReadText(t, rounds[i]) == ReadText(t, rounds[n - 1]) <==> SameReads(t, rounds[i], rounds[n - 1])
    {
      ApartAmong(t, rounds, i, n - 1);
      ReadTextExact(t, rounds[i], rounds[n - 1]);
    }
    ReadSpeaksBySignature(t, reg, rounds);
  }

  /** The guard is right about r after these batches. */
  predicate ReadRightAfter(t: Texts, reg: Registry, before: seq<Round>, r: Round)
    requires WellFormed(before + [r])
  {
    ReadGuardSpeaks(t, reg, before + [r]) <==> SixAlike(t, reg, before + [r])
  }

  /** Outputs without a common digest: the guard is right about a batch whatever came before it if
      and only if the batch was not read throughout or is one call whose arguments do not spell
      out another read. So every batch of two or more reads can be mistaken. */
  lemma ReadGuardFiresExactly(t: Texts, reg: Registry, r: Round)
    requires |r.calls| == |r.outcomes| && SaneTexts(t) && PlainNames(reg) && TellsApart(t, OutputsOf(r))
    ensures (forall before :: WellFormed(before + [r]) && TellsApart(t, OutputsIn(before + [r])) ==>
               ReadRightAfter(t, reg, before, r)) <==>
            (AllRead(reg, r) ==> Distinct(t, reg, r))
  {
    hide AllRead, Distinct, SaneTexts, PlainNames;
    if AllRead(reg, r) && !Distinct(t, reg, r) {
      hide TellsApart;
      var q := ReadMistaken(t, reg, r);
      ReadWrongAfter(t, reg, r, q);
    } else {
      forall before | WellFormed(before + [r]) && TellsApart(t, OutputsIn(before + [r]))
        ensures ReadRightAfter(t, reg, before, r)
      {
        ReadAlwaysRight(t, reg, before, r);
      }
    }
  }

  lemma ReadWrongAfter(t: Texts, reg: Registry, r: Round, q: Round)
    requires |r.calls| == |r.outcomes| && |q.calls| == |q.outcomes| && AllRead(reg, r) && AllRead(reg, q)
    requires ReadText(t, q) == ReadText(t, r) && !SameReads(t, q, r) && TellsApart(t, OutputsOf(r) + OutputsOf(q))
    ensures var before := [q, q, q, q, q];
      WellFormed(before + [r]) && TellsApart(t, OutputsIn(before + [r])) && !ReadRightAfter(t, reg, before, r)
  {
    hide ReadText, AllRead, SameReads;
    var rounds := [q, q, q, q, q] + [r];
    assert WellFormed(rounds);
    assert OutputsIn(rounds) <= OutputsOf(r) + OutputsOf(q);
    hide TellsApart, OutputsIn, OutputsOf;
    ReadSpeaksBySignature(t, reg, rounds);
    hide ReadGuardSpeaks;
    assert rounds[0] == q && rounds[5] == r && |rounds| == 6;
  }

  lemma ReadAlwaysRight(t: Texts, reg: Registry, before: seq<Round>, r: Round)
    requires WellFormed(before + [r]) && SaneTexts(t) && PlainNames(reg) && TellsApart(t, OutputsIn(before + [r]))
    requires |r.calls| == |r.outcomes| && (AllRead(reg, r) ==> Distinct(t, reg, r))
    ensures ReadRightAfter(t, reg, before, r)
  {
    var rounds := before + [r];
    ReadSpeaksBySignature(t, reg, rounds);
    hide ReadText, AllRead, SameReads, ReadGuardSpeaks, Distinct, SaneTexts, PlainNames;
    hide OutputsOf, OutputsIn, TellsApart;
    var n := |rounds|;
    assert rounds[n - 1] == r;
    if AllRead(reg, r) {
      forall i | 0 <= i < n && AllRead(reg, rounds[i])
        ensures ReadText(t, rounds[i]) == ReadText(t, r) <==> SameReads(t, rounds[i], r)
      {
        ApartAmong(t, rounds, n - 1, i);
        if ReadText(t, rounds[i]) == ReadText(t, r) {
          DistinctIsSame(t, reg, r, rounds[i]);
          ReadsFlipped(t, r, rounds[i]);
        }
        if SameReads(t, rounds[i], r) {
          SameReadsSameText(t, rounds[i], r);
        }
      }
    }
  }

  lemma ReadsFlipped(t: Texts, r: Round, q: Round)
    requires |r.calls| == |r.outcomes| && |q.calls| == |q.outcomes| && SameReads(t, r, q)
    ensures SameReads(t, q, r)
  {
  }

  // ----- the guard does speak -----

  function FixedDigest(x: string): string {
    seq(DIGEST_SIZE, i => 'd')
  }

  /** Six times the same read of any registered tool with plain arguments: texts and rounds that
      meet everything asked for above, and the guard speaks. */
  lemma SixReadsSpeak(c: ToolCall, reg: Registry, output: string)
    requires c.name in reg && reg[c.name] && PlainNames(reg) && Plain(c.arguments)
    ensures var t := Texts(x => false, x => x, FixedDigest, (calls, n) => "", (calls, n) => "");
      var r := OneRead(c, c.arguments, output);
      var rounds := [r, r, r, r, r, r];
      SaneTexts(t) && WellFormed(rounds) && TellsApart(t, OutputsIn(rounds)) && PlainReads(t, r) &&
      Distinct(t, reg, r) && ReadGuardSpeaks(t, reg, rounds)
  {
    var t := Texts(x => false, x => x, FixedDigest, (calls, n) => "", (calls, n) => "");
    var r := OneRead(c, c.arguments, output);
    var rounds := [r, r, r, r, r, r];
    var _, _ := TrimSpaceSplits(c.arguments);
    hide TrimSpace;
    assert Plain(TrimSpace(c.arguments));
    if Spells(t, reg, TrimSpace(c.arguments)) {
      SpelledHoldsNul(t, reg, TrimSpace(c.arguments));
    }
    assert OutputsIn(rounds) <= {output};
    ReadSpeaksBySignature(t, reg, rounds);
  }

  lemma SpelledHoldsNul(t: Texts, reg: Registry, text: string)
    requires Spells(t, reg, text)
    ensures !Plain(text)
  {
    var a, o, name, b :| name in reg && reg[name] && text ==
      Field(CanonicalToolArgs(t, a)) + (Field(t.digest(o)) + (Field(name) + CanonicalToolArgs(t, b)));
    assert text[|CanonicalToolArgs(t, a)|] == NUL;
  }
}
