/** The guards that answer a model going round in circles (internal/agent/agent.go:
    applyStormBreaker, applyReadOnlyNoProgressGuard). After a batch they compare it with the
    batches before it and may append a note to its first result. */
module LoopGuards {
  import opened Text
  import opened Conversation
  import opened Batch

  const STORM_BREAK := 3
  const NO_PROGRESS_BREAK := 6
  const DIGEST_SIZE := 32
  const NUL := '\0'

  /** What the guards take from elsewhere: which texts decode as JSON and the compact form of
      those, the digest of an output and the wording of the notes. */
  datatype Texts = Texts(decodes: string -> bool, compact: string -> string, digest: string -> string,
                         stormNote: (seq<ToolCall>, nat) -> string, readNote: (seq<ToolCall>, nat) -> string)

  /** Arguments that do not decode are kept as they are, up to the white space around them. */
  function CanonicalToolArgs(t: Texts, raw: string): string {
    if t.decodes(raw) then t.compact(raw) else TrimSpace(raw)
  }

  /** The signature of the last batch and how many batches in a row have had it. */
  datatype Streak = Streak(sig: string, count: nat)

  /** The calls of a batch that was not cut short, with their outcomes. */
  datatype Round = Round(calls: seq<ToolCall>, outcomes: seq<Outcome>)

  // ----- signatures -----

  predicate Failed(o: Outcome) {
    o.errMsg != "" && !o.blocked
  }

  predicate Read(reg: Registry, c: ToolCall, o: Outcome) {
    c.name in reg && reg[c.name] && !o.blocked && o.errMsg == ""
  }

  predicate AllFailed(r: Round) {
    r.calls != [] && forall i :: 0 <= i < |r.outcomes| ==> Failed(r.outcomes[i])
  }

  predicate AllRead(reg: Registry, r: Round)
    requires |r.calls| == |r.outcomes|
  {
    r.calls != [] && forall i :: 0 <= i < |r.calls| ==> Read(reg, r.calls[i], r.outcomes[i])
  }

  function Field(s: string): string {
    s + [NUL]
  }

  function Rest(r: Round): Round
    requires |r.calls| == |r.outcomes| > 0
  {
    Round(r.calls[1..], r.outcomes[1..])
  }

  function StormText(r: Round): string
    requires |r.calls| == |r.outcomes|
    decreases |r.calls|
  {
    if r.calls == [] then "" else Field(r.calls[0].name) + (Field(r.outcomes[0].errMsg) + StormText(Rest(r)))
  }

  function ReadText(t: Texts, r: Round): string
    requires |r.calls| == |r.outcomes|
    decreases |r.calls|
  {
    if r.calls == [] then ""
    else
      Field(r.calls[0].name) +
      (Field(CanonicalToolArgs(t, r.calls[0].arguments)) +
       (Field(t.digest(r.outcomes[0].output)) + ReadText(t, Rest(r))))
  }

  function StormSignature(r: Round): Option<string>
    requires |r.calls| == |r.outcomes|
  {
    if AllFailed(r) then Some(StormText(r)) else None
  }

  function ReadSignature(t: Texts, reg: Registry, r: Round): Option<string>
    requires |r.calls| == |r.outcomes|
  {
    if AllRead(reg, r) then Some(ReadText(t, r)) else None
  }

  method BatchStormSignature(calls: seq<ToolCall>, outcomes: seq<Outcome>) returns (sig: Option<string>)
    requires |calls| == |outcomes|
    ensures sig == StormSignature(Round(calls, outcomes))
  {
    if calls == [] {
      return None;
    }
    assert calls[0..] == calls && outcomes[0..] == outcomes;
    var sb := "";
    for i := 0 to |calls|
      invariant forall k :: 0 <= k < i ==> Failed(outcomes[k])
      invariant sb + StormText(Round(calls[i..], outcomes[i..])) == StormText(Round(calls, outcomes))
    {
      if outcomes[i].errMsg == "" || outcomes[i].blocked {
        assert !Failed(Round(calls, outcomes).outcomes[i]);
        return None;
      }
      assert Rest(Round(calls[i..], outcomes[i..])) == Round(calls[i + 1..], outcomes[i + 1..]);
      sb := sb + (Field(calls[i].name) + Field(outcomes[i].errMsg));
    }
    assert StormText(Round(calls[|calls|..], outcomes[|calls|..])) == "";
    assert sb + "" == sb;
    sig := Some(sb);
  }

  method BatchReadOnlyNoProgressSignature(t: Texts, reg: Registry, calls: seq<ToolCall>, outcomes: seq<Outcome>)
    returns (sig: Option<string>)
    requires |calls| == |outcomes|
    ensures sig == ReadSignature(t, reg, Round(calls, outcomes))
  {
    hide Field, CanonicalToolArgs;
    if calls == [] {
      return None;
    }
    assert calls[0..] == calls && outcomes[0..] == outcomes;
    var sb := "";
    for i := 0 to |calls|
      invariant forall k :: 0 <= k < i ==> Read(reg, calls[k], outcomes[k])
      invariant sb + ReadText(t, Round(calls[i..], outcomes[i..])) == ReadText(t, Round(calls, outcomes))
    {
      if !Read(reg, calls[i], outcomes[i]) {
        assert !AllRead(reg, Round(calls, outcomes));
        return None;
      }
      assert Rest(Round(calls[i..], outcomes[i..])) == Round(calls[i + 1..], outcomes[i + 1..]);
      sb := sb + (Field(calls[i].name) + Field(CanonicalToolArgs(t, calls[i].arguments)) +
             Field(t.digest(outcomes[i].output)));
    }
    assert ReadText(t, Round(calls[|calls|..], outcomes[|calls|..])) == "";
    assert sb + "" == sb;
    sig := Some(sb);
  }

  // ----- the guards -----

  const CALM := Streak("", 0)

  function Advance(s: Streak, sig: Option<string>): Streak {
    if sig.None? then CALM else if sig.value != s.sig then Streak(sig.value, 1) else Streak(s.sig, s.count + 1)
  }

  function Noted(results: seq<string>, outcomes: seq<Outcome>, fires: bool, note: string): seq<string> {
    if fires && results != [] && outcomes != [] then results[0 := outcomes[0].output + note] else results
  }

  function Outputs(outcomes: seq<Outcome>): seq<string> {
    seq(|outcomes|, i requires 0 <= i < |outcomes| => outcomes[i].output)
  }

  /** The results of a batch once both guards have seen it; storm and read are the streaks
      including it. */
  function Guarded(t: Texts, storm: Streak, read: Streak, r: Round): seq<string> {
    Noted(Noted(Outputs(r.outcomes), r.outcomes, storm.count >= STORM_BREAK, t.stormNote(r.calls, storm.count)),
          r.outcomes, read.count >= NO_PROGRESS_BREAK, t.readNote(r.calls, read.count))
  }

  class Guards {
    const t: Texts
    const reg: Registry
    var stormSig: string
    var stormCount: nat
    var readSig: string
    var readCount: nat

    constructor (t: Texts, reg: Registry)
      ensures this.t == t && this.reg == reg && Storm() == CALM && Reading() == CALM
    {
      this.t, this.reg := t, reg;
      stormSig, stormCount, readSig, readCount := "", 0, "", 0;
    }

    function Storm(): Streak
      reads this`stormSig, this`stormCount
    {
      Streak(stormSig, stormCount)
    }

    function Reading(): Streak
      reads this`readSig, this`readCount
    {
      Streak(readSig, readCount)
    }

    /** A user turn starts: only the streak of reads is forgotten. */
    method BeginTurn()
      modifies this`readSig, this`readCount
      ensures Reading() == CALM
    {
      readSig, readCount := "", 0;
    }

    method ApplyStormBreaker(calls: seq<ToolCall>, outcomes: seq<Outcome>, results: array<string>)
      requires |calls| == |outcomes| == results.Length
      modifies this`stormSig, this`stormCount, results
      ensures Storm() == Advance(old(Storm()), StormSignature(Round(calls, outcomes)))
      ensures results[..] ==
        Noted(old(results[..]), outcomes, Storm().count >= STORM_BREAK, t.stormNote(calls, Storm().count))
    {
      var sig := BatchStormSignature(calls, outcomes);
      if sig.None? {
        stormSig, stormCount := "", 0;
        return;
      }
      if sig.value != stormSig {
        stormSig, stormCount := sig.value, 1;
        return;
      }
      stormCount := stormCount + 1;
      if stormCount < STORM_BREAK {
        return;
      }
      results[0] := outcomes[0].output + t.stormNote(calls, stormCount);
    }

    method ApplyReadOnlyNoProgressGuard(calls: seq<ToolCall>, outcomes: seq<Outcome>, results: array<string>)
      requires |calls| == |outcomes| == results.Length
      modifies this`readSig, this`readCount, results
      ensures Reading() == Advance(old(Reading()), ReadSignature(t, reg, Round(calls, outcomes)))
      ensures results[..] ==
        Noted(old(results[..]), outcomes, Reading().count >= NO_PROGRESS_BREAK, t.readNote(calls, Reading().count))
    {
      var sig := BatchReadOnlyNoProgressSignature(t, reg, calls, outcomes);
      if sig.None? {
        readSig, readCount := "", 0;
        return;
      }
      if sig.value != readSig {
        readSig, readCount := sig.value, 1;
        return;
      }
      readCount := readCount + 1;
      if readCount < NO_PROGRESS_BREAK {
        return;
      }
      results[0] := outcomes[0].output + t.readNote(calls, readCount);
    }

    /** Both guards in turn, over the plain results of a batch. */
    method Apply(calls: seq<ToolCall>, outcomes: seq<Outcome>, results: array<string>)
      requires |calls| == |outcomes| == results.Length && results[..] == Outputs(outcomes)
      modifies this, results
      ensures Storm() == Advance(old(Storm()), StormSignature(Round(calls, outcomes)))
      ensures Reading() == Advance(old(Reading()), ReadSignature(t, reg, Round(calls, outcomes)))
      ensures results[..] == Guarded(t, Storm(), Reading(), Round(calls, outcomes))
    {
      hide Advance, Noted, StormSignature, ReadSignature;
      ApplyStormBreaker(calls, outcomes, results);
      ApplyReadOnlyNoProgressGuard(calls, outcomes, results);
    }
  }

  // ----- what the streaks count -----

  function Play(sigs: seq<Option<string>>): Streak {
    if sigs == [] then CALM else Advance(Play(sigs[..|sigs| - 1]), sigs[|sigs| - 1])
  }

  /** The last n signatures are all there and equal. */
  predicate SameTail(sigs: seq<Option<string>>, n: nat) {
    0 < n <= |sigs| && sigs[|sigs| - 1].Some? && forall i :: |sigs| - n <= i < |sigs| ==> sigs[i] == sigs[|sigs| - 1]
  }

  /** A streak counts the longest run of equal signatures at the end. */
  lemma {:induction false} StreakIsTail(sigs: seq<Option<string>>, n: nat)
    requires Some("") !in sigs && n > 0
    ensures Play(sigs).count >= n <==> SameTail(sigs, n)
    ensures Play(sigs).count > 0 ==> sigs != [] && sigs[|sigs| - 1] == Some(Play(sigs).sig)
  {
    if sigs != [] {
      var init, last := sigs[..|sigs| - 1], sigs[|sigs| - 1];
      assert last in sigs;
      StreakIsTail(init, 1);
      if n > 1 {
        StreakIsTail(init, n - 1);
        assert last.Some? && SameTail(init, n - 1) && init[|init| - 1] == last ==> SameTail(sigs, n);
        assert SameTail(sigs, n) ==> SameTail(init, n - 1) && init[|init| - 1] == last;
      }
    }
  }

  /** At most one guard speaks after a batch, and it only adds to the first result. */
  lemma GuardsOnlyAppend(t: Texts, reg: Registry, storm: Streak, read: Streak, r: Round)
    requires |r.calls| == |r.outcomes|
    ensures var s, n := Advance(storm, StormSignature(r)), Advance(read, ReadSignature(t, reg, r));
      var results := Guarded(t, s, n, r);
      |results| == |r.calls| && (s.count == 0 || n.count == 0) &&
      (forall i :: 0 < i < |results| ==> results[i] == r.outcomes[i].output) &&
      (r.calls != [] ==>
        results[0] == r.outcomes[0].output +
          if s.count >= STORM_BREAK then t.stormNote(r.calls, s.count)
          else if n.count >= NO_PROGRESS_BREAK then t.readNote(r.calls, n.count)
          else "")
  {
    if r.calls != [] {
      assert Failed(r.outcomes[0]) ==> !Read(reg, r.calls[0], r.outcomes[0]);
      assert !(AllFailed(r) && AllRead(reg, r));
    }
  }
}
