/** Cutting a reply into chat messages (internal/bot/render.go: flush and its boundary scan).
    In this module a char is one rune. */
module Chunking {
  import opened Text

  const MAX_CHUNK := 1800
  const HARD_CHUNK := 3500
  const SOFT_FLUSH_AFTER := 1200

  lemma BlankIsTrimmedAway(s: string)
    ensures TrimSpace(s) == "" <==> AllSpace(s)
  {
    var _, _ := TrimSpaceSplits(s);
  }

  predicate FenceAt(text: string, i: nat) {
    i + 3 <= |text| && text[i] == '`' && text[i + 1] == '`' && text[i + 2] == '`'
  }

  /** Inside a code fence once the fences starting at or before i are counted. */
  predicate InFence(text: string, i: nat) {
    (i > 0 && InFence(text, i - 1)) != FenceAt(text, i)
  }

  predicate SentenceEnd(c: char) {
    c == '.' || c == '!' || c == '?' || c == ';' || c == '\U{3002}' || c == '\U{ff01}' || c == '\U{ff1f}' ||
    c == '\U{ff1b}' || c == '\U{2026}'
  }

  /** A line break or sentence end outside code fences. */
  predicate Boundary(text: string, i: nat)
    requires i < |text|
  {
    !InFence(text, i) && (text[i] == '\n' || (!IsSpace(text[i]) && SentenceEnd(text[i])))
  }

  predicate BoundaryBefore(text: string, i: nat)
    requires i <= |text|
  {
    i > 0 && (Boundary(text, i - 1) || BoundaryBefore(text, i - 1))
  }

  /** A place to cut behind: a boundary, or white space with some boundary before it. */
  predicate Break(text: string, i: nat)
    requires i < |text|
  {
    Boundary(text, i) || (IsSpace(text[i]) && BoundaryBefore(text, i))
  }

  /** The end of the last break among the first `limit` runes, 0 when there is none. */
  function LastBreak(text: string, limit: nat): (r: nat)
    ensures r <= limit && r <= |text|
    ensures r > 0 ==> Break(text, r - 1)
    ensures forall i :: r <= i < limit && i < |text| ==> !Break(text, i)
    decreases limit
  {
    if limit == 0 then 0
    else if limit <= |text| && Break(text, limit - 1) then limit
    else LastBreak(text, limit - 1)
  }

  method LastSemanticBoundary(text: string, maxRunes: int) returns (lastBoundary: nat)
    ensures lastBoundary == LastBreak(text, if maxRunes <= 0 then 0 else maxRunes)
  {
    if maxRunes <= 0 {
      return 0;
    }
    lastBoundary := 0;
    var lastNonSpaceBoundary, inFence, i := 0, false, 0;
    while i < |text| && i < maxRunes
      invariant i <= |text| && i <= maxRunes
      invariant lastBoundary == LastBreak(text, i)
      invariant lastNonSpaceBoundary > 0 <==> BoundaryBefore(text, i)
      invariant inFence == (i > 0 && InFence(text, i - 1))
    {
      if FenceAt(text, i) {
        inFence := !inFence;
      }
      if text[i] == '\n' && !inFence {
        lastNonSpaceBoundary, lastBoundary := i + 1, i + 1;
      } else if IsSpace(text[i]) {
        if lastNonSpaceBoundary > 0 {
          lastBoundary := i + 1;
        }
      } else if !inFence && SentenceEnd(text[i]) {
        lastNonSpaceBoundary, lastBoundary := i + 1, i + 1;
      }
      i := i + 1;
    }
    LastBreakCapped(text, maxRunes);
  }

  lemma {:induction false} LastBreakCapped(text: string, limit: nat)
    ensures LastBreak(text, limit) == LastBreak(text, if limit < |text| then limit else |text|)
    decreases limit
  {
    if limit > |text| {
      LastBreakCapped(text, limit - 1);
    }
  }

  method IndexForRuneLimit(text: string, maxRunes: int) returns (r: nat)
    ensures r == if maxRunes <= 0 then 0 else if maxRunes < |text| then maxRunes else |text|
  {
    if maxRunes <= 0 {
      return 0;
    }
    var i := 0;
    while i < |text|
      invariant i <= |text| && i < maxRunes
    {
      if i + 1 >= maxRunes {
        return i + 1;
      }
      i := i + 1;
    }
    r := |text|;
  }

  function AtMost(text: string, limit: nat): nat {
    if limit < |text| then limit else |text|
  }

  /** Where the first piece of a text ends, once the soft flush time has passed. */
  function Cut(text: string): (r: nat)
    requires text != ""
    ensures 0 < r <= |text| && r <= HARD_CHUNK
    ensures Break(text, r - 1) || r == AtMost(text, MAX_CHUNK)
  {
    if |text| >= HARD_CHUNK && LastBreak(text, HARD_CHUNK) > 0 then LastBreak(text, HARD_CHUNK)
    else if HARD_CHUNK > |text| >= MAX_CHUNK && LastBreak(text, MAX_CHUNK) > 0 then LastBreak(text, MAX_CHUNK)
    else if HARD_CHUNK > |text| && LastBreak(text, |text|) > 0 then LastBreak(text, |text|)
    else AtMost(text, MAX_CHUNK)
  }

  method RenderFlushIndex(text: string, elapsed: int) returns (r: nat)
    ensures r <= |text|
    ensures !AllSpace(text) && elapsed >= SOFT_FLUSH_AFTER ==>
      (if r > 0 then r else AtMost(text, MAX_CHUNK)) == Cut(text)
    ensures AllSpace(text) ==> r == 0
    ensures elapsed < SOFT_FLUSH_AFTER && |text| < MAX_CHUNK ==> r == 0
  {
    BlankIsTrimmedAway(text);
    if TrimSpace(text) == "" {
      return 0;
    }
    if |text| >= HARD_CHUNK {
      r := LastSemanticBoundary(text, HARD_CHUNK);
      if r > 0 {
        return;
      }
      r := IndexForRuneLimit(text, MAX_CHUNK);
      return;
    }
    if |text| >= MAX_CHUNK {
      r := LastSemanticBoundary(text, MAX_CHUNK);
      if r > 0 {
        return;
      }
    }
    if elapsed < SOFT_FLUSH_AFTER {
      return 0;
    }
    r := LastSemanticBoundary(text, |text|);
  }

  // ----- the pieces of a buffer -----

  function Pieces(buf: string): seq<string>
    decreases |buf|
  {
    if TrimSpace(buf) == "" || buf == "" then [] else [buf[..Cut(buf)]] + Pieces(buf[Cut(buf)..])
  }

  function Rest(buf: string): string
    decreases |buf|
  {
    if TrimSpace(buf) == "" || buf == "" then buf else Rest(buf[Cut(buf)..])
  }

  /** The messages for some pieces: trimmed, blank ones left out. */
  function Messages(pieces: seq<string>): seq<string> {
    if pieces == [] then []
    else (if TrimSpace(pieces[0]) == "" then [] else [TrimSpace(pieces[0])]) + Messages(pieces[1..])
  }

  class RenderSink {
    var buf: string
    var sent: seq<string>

    method Flush()
      modifies this
      ensures buf == Rest(old(buf))
      ensures sent == old(sent) + Messages(Pieces(old(buf)))
    {
      hide LastBreak, Break, Cut, TrimSpace, AllSpace;
      ghost var before := buf;
      assert Messages([]) == [];
      while TrimSpace(buf) != ""
        invariant Rest(buf) == Rest(before)
        invariant sent + Messages(Pieces(buf)) == old(sent) + Messages(Pieces(before))
        decreases |buf|
      {
        BlankIsTrimmedAway(buf);
        var idx := RenderFlushIndex(buf, SOFT_FLUSH_AFTER);
        if idx <= 0 {
          idx := IndexForRuneLimit(buf, MAX_CHUNK);
        }
        if idx <= 0 || idx > |buf| {
          idx := |buf|;
        }
        assert idx == Cut(buf);
        FirstPiece(buf);
        hide Pieces, Rest, Messages;
        FlushPrefix(idx);
      }
      BlankIsTrimmedAway(buf);
    }

    method FlushPrefix(idx: nat)
      requires 0 < idx <= |buf|
      modifies this
      ensures buf == old(buf)[idx..]
      ensures var text := TrimSpace(old(buf)[..idx]); sent == old(sent) + if text == "" then [] else [text]
    {
      var text := TrimSpace(buf[..idx]);
      if text != "" {
        sent := sent + [text];
      }
      buf := buf[idx..];
    }
  }

  lemma FirstPiece(buf: string)
    requires TrimSpace(buf) != "" && buf != ""
    ensures Rest(buf) == Rest(buf[Cut(buf)..])
    ensures var text := TrimSpace(buf[..Cut(buf)]);
      Messages(Pieces(buf)) == (if text == "" then [] else [text]) + Messages(Pieces(buf[Cut(buf)..]))
  {
    assert Pieces(buf)[1..] == Pieces(buf[Cut(buf)..]);
  }

  // ----- what flushing keeps -----

  function Concat(pieces: seq<string>): string {
    if pieces == [] then "" else pieces[0] + Concat(pieces[1..])
  }

  /** The pieces in order and the blank rest are the whole buffer. */
  lemma {:induction false} PiecesAreTheBuffer(buf: string)
    ensures Concat(Pieces(buf)) + Rest(buf) == buf && AllSpace(Rest(buf))
    decreases |buf|
  {
    BlankIsTrimmedAway(buf);
    hide LastBreak, Break, TrimSpace;
    if TrimSpace(buf) != "" && buf != "" {
      var c := Cut(buf);
      PiecesAreTheBuffer(buf[c..]);
      hide Cut, AllSpace;
      assert Pieces(buf) == [buf[..c]] + Pieces(buf[c..]) && Rest(buf) == Rest(buf[c..]);
      hide Pieces, Rest;
      assert ([buf[..c]] + Pieces(buf[c..]))[1..] == Pieces(buf[c..]);
      assert buf[..c] + (Concat(Pieces(buf[c..])) + Rest(buf[c..])) == buf;
    }
  }

  /** No piece is empty or over the hard limit, and each ends at a break, at the soft limit or
      with the text. */
  lemma {:induction false} PiecesAreBounded(buf: string, k: nat)
    requires k < |Pieces(buf)|
    ensures 0 < |Pieces(buf)[k]| <= HARD_CHUNK
    ensures var from := Concat(Pieces(buf)[..k]);
      |from| + |Pieces(buf)[k]| <= |buf| && buf[|from|..|from| + |Pieces(buf)[k]|] == Pieces(buf)[k] &&
      (|Pieces(buf)[k]| <= MAX_CHUNK || Break(buf[|from|..], |Pieces(buf)[k]| - 1))
    decreases |buf|
  {
    hide LastBreak, Break, TrimSpace;
    var c, ps := Cut(buf), Pieces(buf);
    assert ps[1..] == Pieces(buf[c..]);
    if k > 0 {
      PiecesAreBounded(buf[c..], k - 1);
      assert ps[..k][1..] == ps[1..][..k - 1];
      var rest, n := |Concat(ps[1..][..k - 1])|, |ps[k]|;
      assert |Concat(ps[..k])| == c + rest;
      assert ps[k] == ps[1..][k - 1];
      assert buf[c + rest..] == buf[c..][rest..];
      assert buf[c + rest..c + rest + n] == buf[c..][rest..rest + n];
      hide Cut, Pieces, Concat;
    } else {
      assert ps[0] == buf[..c];
    }
  }

  /** The runes of a text that are not white space. */
  function Visible(s: string): string {
    if s == "" then "" else (if IsSpace(s[0]) then "" else [s[0]]) + Visible(s[1..])
  }

  lemma {:induction false} VisibleConcat(a: string, b: string)
    ensures Visible(a + b) == Visible(a) + Visible(b)
  {
    hide IsSpace;
    if a == "" {
      assert a + b == b;
    } else {
      VisibleConcat(a[1..], b);
      assert (a + b)[1..] == a[1..] + b && (a + b)[0] == a[0];
      var first := if IsSpace(a[0]) then "" else [a[0]];
      assert first + (Visible(a[1..]) + Visible(b)) == (first + Visible(a[1..])) + Visible(b);
    }
  }

  lemma {:induction false} VisibleBlank(s: string)
    requires AllSpace(s)
    ensures Visible(s) == ""
  {
    if s != "" {
      VisibleBlank(s[1..]);
    }
  }

  lemma VisibleTrimmed(s: string)
    ensures Visible(TrimSpace(s)) == Visible(s)
  {
    var lead, tail := TrimSpaceSplits(s);
    hide TrimSpace;
    var t := TrimSpace(s);
    assert s == s[..lead] + (t + s[lead + |t|..]);
    VisibleConcat(s[..lead], t + s[lead + |t|..]);
    VisibleConcat(t, s[lead + |t|..]);
    VisibleBlank(s[..lead]);
    VisibleBlank(s[lead + |t|..]);
  }

  lemma NoMessagesOfBlank(buf: string)
    requires TrimSpace(buf) == "" || buf == ""
    ensures Visible(Concat(Messages(Pieces(buf)))) == Visible(buf) == ""
  {
    BlankIsTrimmedAway(buf);
    VisibleBlank(buf);
    hide TrimSpace;
    assert Messages(Pieces(buf)) == [];
  }

  /** The messages carry every visible rune of the buffer once and in order. */
  lemma {:induction false} NothingVisibleLost(buf: string)
    ensures Visible(Concat(Messages(Pieces(buf)))) == Visible(buf)
    decreases |buf|
  {
    hide LastBreak, Break, TrimSpace, Pieces, Cut, IsSpace;
    if TrimSpace(buf) == "" || buf == "" {
      NoMessagesOfBlank(buf);
    } else {
      var c := Cut(buf);
      FirstPiece(buf);
      NothingVisibleLost(buf[c..]);
      VisibleTrimmed(buf[..c]);
      var text, more := TrimSpace(buf[..c]), Messages(Pieces(buf[c..]));
      assert buf == buf[..c] + buf[c..];
      VisibleConcat(buf[..c], buf[c..]);
      VisibleConcat(text, Concat(more));
      if text != "" {
        assert ([text] + more)[1..] == more;
      } else {
        assert [] + more == more;
        assert "" + Concat(more) == Concat(more);
      }
    }
  }

  /** No message is blank or over the hard limit. */
  lemma {:induction false} MessagesAreBounded(pieces: seq<string>, m: string)
    requires (forall p :: p in pieces ==> |p| <= HARD_CHUNK) && m in Messages(pieces)
    ensures m != "" && |m| <= HARD_CHUNK && TrimSpace(m) == m
  {
    if m in Messages(pieces[1..]) {
      MessagesAreBounded(pieces[1..], m);
    } else {
      TrimSpaceTrimmed(pieces[0]);
    }
  }

  /** Every message of a flush. */
  lemma FlushBounded(buf: string, m: string)
    requires m in Messages(Pieces(buf))
    ensures m != "" && |m| <= HARD_CHUNK && TrimSpace(m) == m
  {
    forall p | p in Pieces(buf) ensures |p| <= HARD_CHUNK {
      var k :| 0 <= k < |Pieces(buf)| && Pieces(buf)[k] == p;
      PiecesAreBounded(buf, k);
    }
    MessagesAreBounded(Pieces(buf), m);
  }

  // ----- code fences -----

  /** Cutting behind this many runes leaves a code fence open in front of the cut. */
  predicate CutsFence(text: string, cut: nat) {
    0 < cut <= |text| && InFence(text, cut - 1)
  }

  /** White space in a fence with a line break or sentence end outside fences before it. */
  predicate LooseSpace(text: string, i: nat) {
    i < |text| && InFence(text, i) && IsSpace(text[i]) && exists j :: 0 <= j < i && Boundary(text, j)
  }

  predicate BreakBelow(text: string, limit: nat) {
    exists i :: 0 <= i < limit && i < |text| && Break(text, i)
  }

  lemma {:induction false} BoundaryBeforeIs(text: string, i: nat)
    requires i <= |text|
    ensures BoundaryBefore(text, i) <==> exists j :: 0 <= j < i && Boundary(text, j)
  {
    hide Boundary;
    if i > 0 {
      BoundaryBeforeIs(text, i - 1);
    }
  }

  lemma BreakInFence(text: string, i: nat)
    requires i < |text|
    ensures Break(text, i) && InFence(text, i) <==> LooseSpace(text, i)
  {
    BoundaryBeforeIs(text, i);
  }

  lemma {:induction false} LastBreakAt(text: string, limit: nat, i: nat)
    requires i < limit && i < |text| && Break(text, i)
    requires forall k :: i < k < limit && k < |text| ==> !Break(text, k)
    ensures LastBreak(text, limit) == i + 1
    decreases limit
  {
    hide Break;
    if limit > i + 1 {
      LastBreakAt(text, limit - 1, i);
    }
  }

  /** The scan never stops inside a fence, whatever its limit, exactly if no fence holds white
      space behind a boundary. */
  lemma ScanCutsFenceExactly(text: string)
    ensures (exists limit: nat :: CutsFence(text, LastBreak(text, limit))) <==> (exists i: nat :: LooseSpace(text, i))
  {
    hide Break, LooseSpace;
    if limit: nat :| CutsFence(text, LastBreak(text, limit)) {
      BreakInFence(text, LastBreak(text, limit) - 1);
    }
    if i: nat :| LooseSpace(text, i) {
      assert i < |text| by {
        LooseSpaceIn(text, i);
      }
      BreakInFence(text, i);
      LastBreakAt(text, i + 1, i);
      assert CutsFence(text, LastBreak(text, i + 1));
    }
  }

  lemma LooseSpaceIn(text: string, i: nat)
    requires LooseSpace(text, i)
    ensures i < |text| && InFence(text, i)
  {
  }

  /** How many runes are scanned for the cut: up to the hard limit in a long text, up to the soft
      one if a break lies within it, and otherwise all. */
  function ScanLimit(text: string): nat {
    if |text| >= HARD_CHUNK then HARD_CHUNK
    else if |text| >= MAX_CHUNK && BreakBelow(text, MAX_CHUNK) then MAX_CHUNK
    else |text|
  }

  /** The last break scanned is white space in a fence, or no break is found and the soft limit
      lies in a fence. */
  predicate SplitsFence(text: string) {
    var limit := ScanLimit(text);
    (exists i: nat :: i < limit && LooseSpace(text, i) && !BreakWithin(text, i + 1, limit)) ||
    (!BreakBelow(text, limit) && CutsFence(text, AtMost(text, MAX_CHUNK)))
  }

  predicate BreakWithin(text: string, from: nat, limit: nat) {
    exists k :: from <= k < limit && k < |text| && Break(text, k)
  }

  lemma LastBreakSome(text: string, limit: nat)
    ensures LastBreak(text, limit) > 0 <==> BreakBelow(text, limit)
  {
    hide Break;
    var r := LastBreak(text, limit);
    if r > 0 {
      assert Break(text, r - 1);
    }
  }

  lemma CutIsScan(text: string)
    requires text != ""
    ensures Cut(text) ==
      if BreakBelow(text, ScanLimit(text)) then LastBreak(text, ScanLimit(text)) else AtMost(text, MAX_CHUNK)
  {
    LastBreakSome(text, HARD_CHUNK);
    LastBreakSome(text, MAX_CHUNK);
    LastBreakSome(text, |text|);
  }

  lemma ScanEndsInFence(text: string, limit: nat)
    requires limit <= |text| && BreakBelow(text, limit)
    ensures CutsFence(text, LastBreak(text, limit)) <==>
      exists i: nat :: i < limit && LooseSpace(text, i) && !BreakWithin(text, i + 1, limit)
  {
    hide Break, LooseSpace;
    LastBreakSome(text, limit);
    var r := LastBreak(text, limit);
    assert Break(text, r - 1) && !BreakWithin(text, r, limit);
    BreakInFence(text, r - 1);
    if i: nat :| i < limit && LooseSpace(text, i) && !BreakWithin(text, i + 1, limit) {
      LooseSpaceIn(text, i);
      BreakInFence(text, i);
      assert !(r - 1 > i);
    }
  }

  /** The cut lies in a fence exactly if the guard says so. */
  lemma CutSplitsFenceExactly(text: string)
    requires text != ""
    ensures CutsFence(text, Cut(text)) <==> SplitsFence(text)
  {
    CutIsScan(text);
    var limit := ScanLimit(text);
    if BreakBelow(text, limit) {
      ScanEndsInFence(text, limit);
    } else {
      forall i: nat | i < limit && LooseSpace(text, i) ensures false {
        BreakInFence(text, i);
      }
    }
  }

  /** None of the texts still to be cut is split in a fence. */
  predicate FencesHold(buf: string)
    decreases |buf|
  {
    TrimSpace(buf) == "" || buf == "" || (!SplitsFence(buf) && FencesHold(buf[Cut(buf)..]))
  }

  lemma {:induction false} InFenceShift(text: string, from: nat, i: nat)
    requires from <= |text| && (from == 0 || !InFence(text, from - 1))
    ensures InFence(text, from + i) == InFence(text[from..], i)
    decreases i
  {
    assert FenceAt(text, from + i) == FenceAt(text[from..], i);
    if i > 0 {
      InFenceShift(text, from, i - 1);
    }
  }

  /** Where the first k pieces of a buffer end. */
  function EndOfPieces(buf: string, k: nat): nat
    requires k <= |Pieces(buf)|
  {
    |Concat(Pieces(buf)[..k])|
  }

  lemma EndOfPiecesStep(buf: string, k: nat)
    requires 0 < k <= |Pieces(buf)|
    ensures |Pieces(buf)| == |Pieces(buf[Cut(buf)..])| + 1
    ensures EndOfPieces(buf, k) == Cut(buf) + EndOfPieces(buf[Cut(buf)..], k - 1)
  {
    hide Cut, TrimSpace;
    var ps := Pieces(buf);
    assert ps[1..] == Pieces(buf[Cut(buf)..]);
    assert ps[..k][1..] == ps[1..][..k - 1];
  }

  /** A flush closes every fence in front of each of its cuts, fences counted from the start of
      the buffer, exactly if no remaining text meets the guard. */
  lemma {:induction false} FlushKeepsFencesExactly(buf: string)
    ensures FencesHold(buf) <==> forall k :: 0 < k <= |Pieces(buf)| ==> !CutsFence(buf, EndOfPieces(buf, k))
    decreases |buf|
  {
    hide LastBreak, Break, TrimSpace, SplitsFence, CutsFence, EndOfPieces;
    if TrimSpace(buf) != "" && buf != "" {
      var rest := buf[Cut(buf)..];
      FlushKeepsFencesExactly(rest);
      CutSplitsFenceExactly(buf);
      FirstEnd(buf);
      if !CutsFence(buf, Cut(buf)) {
        forall k | 0 < k <= |Pieces(rest)|
          ensures CutsFence(buf, EndOfPieces(buf, k + 1)) <==> CutsFence(rest, EndOfPieces(rest, k))
        {
          LaterEnd(buf, k);
        }
        forall k | 1 < k <= |Pieces(buf)|
          ensures CutsFence(buf, EndOfPieces(buf, k)) <==> CutsFence(rest, EndOfPieces(rest, k - 1))
        {
          LaterEnd(buf, k - 1);
        }
      }
    }
  }

  lemma FirstEnd(buf: string)
    requires TrimSpace(buf) != "" && buf != ""
    ensures |Pieces(buf)| == |Pieces(buf[Cut(buf)..])| + 1 && EndOfPieces(buf, 1) == Cut(buf)
  {
    hide Cut, TrimSpace;
    EndOfPiecesStep(buf, 1);
  }

  lemma LaterEnd(buf: string, k: nat)
    requires TrimSpace(buf) != "" && buf != "" && !CutsFence(buf, Cut(buf)) && 0 < k < |Pieces(buf)|
    ensures var rest := buf[Cut(buf)..];
      k <= |Pieces(rest)| && (CutsFence(buf, EndOfPieces(buf, k + 1)) <==> CutsFence(rest, EndOfPieces(rest, k)))
  {
    hide Cut, TrimSpace, InFence, Concat, EndOfPieces, Pieces;
    var rest := buf[Cut(buf)..];
    EndOfPiecesStep(buf, k + 1);
    EndIsIn(rest, k);
    InFenceShift(buf, Cut(buf), EndOfPieces(rest, k) - 1);
  }

  lemma EndIsIn(buf: string, k: nat)
    requires 0 < k <= |Pieces(buf)|
    ensures 0 < EndOfPieces(buf, k) <= |buf|
  {
    EndOfPiecesStep(buf, k);
    PiecesAreTheBuffer(buf);
    ConcatPrefix(Pieces(buf), k);
  }

  lemma {:induction false} ConcatPrefix(pieces: seq<string>, k: nat)
    requires k <= |pieces|
    ensures |Concat(pieces[..k])| <= |Concat(pieces)|
  {
    if k > 0 {
      ConcatPrefix(pieces[1..], k - 1);
      assert pieces[..k][1..] == pieces[1..][..k - 1];
    }
  }

  /** White space after any earlier sentence end is a break even inside a code fence, so a
      fenced block can be split. */
  lemma FenceCanBeSplit()
    ensures var text := "a.```b c"; InFence(text, 6) && Break(text, 6) && LastBreak(text, |text|) == 7
  {
    var text := "a.```b c";
    assert !FenceAt(text, 0) && !FenceAt(text, 1) && FenceAt(text, 2) && !FenceAt(text, 3);
    assert !FenceAt(text, 4) && !FenceAt(text, 5) && !FenceAt(text, 6) && !FenceAt(text, 7);
    assert !InFence(text, 0) && !InFence(text, 1);
    assert InFence(text, 2) && InFence(text, 3) && InFence(text, 4) && InFence(text, 5) && InFence(text, 6) &&
      InFence(text, 7);
    assert Boundary(text, 1);
    assert BoundaryBefore(text, 2) && BoundaryBefore(text, 3) && BoundaryBefore(text, 4) && BoundaryBefore(text, 5) &&
      BoundaryBefore(text, 6);
    assert !Break(text, 7);
  }
}
