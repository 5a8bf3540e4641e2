/** Options, results and the byte-string operations the other modules share.
    A string is the sequence of its bytes; white space and letter case are ASCII. */
module Text {

  datatype Option<+T> = None | Some(value: T)

  datatype Result<+T, +E> = Ok(value: T) | Err(error: E)

  predicate HasPrefix(s: string, prefix: string) {
    prefix <= s
  }

  predicate IsSpace(c: char) {
    c == ' ' || c == '\t' || c == '\n' || c == '\r' || c == '\U{b}' || c == '\U{c}'
  }

  function TrimLeftSet(s: string, cut: set<char>): string {
    if s != "" && s[0] in cut then TrimLeftSet(s[1..], cut) else s
  }

  function TrimLeft(s: string): string {
    if s != "" && IsSpace(s[0]) then TrimLeft(s[1..]) else s
  }

  function TrimRight(s: string): string {
    if s != "" && IsSpace(s[|s| - 1]) then TrimRight(s[..|s| - 1]) else s
  }

  function TrimSpace(s: string): string {
    TrimRight(TrimLeft(s))
  }

  function ToLower(s: string): string {
    seq(|s|, i requires 0 <= i < |s| => if 'A' <= s[i] <= 'Z' then s[i] + ('a' - 'A') else s[i])
  }

  ghost predicate AllSpace(s: string) {
    forall i :: 0 <= i < |s| ==> IsSpace(s[i])
  }

  /** Trimming only ever drops white space at the two ends. */
  lemma {:induction false} TrimLeftSplits(s: string)
    ensures |TrimLeft(s)| <= |s|
    ensures var k := |s| - |TrimLeft(s)|; TrimLeft(s) == s[k..] && AllSpace(s[..k])
    ensures TrimLeft(s) != "" ==> !IsSpace(TrimLeft(s)[0])
  {
    if s != "" && IsSpace(s[0]) {
      TrimLeftSplits(s[1..]);
    }
  }

  lemma {:induction false} TrimRightSplits(s: string)
    ensures TrimRight(s) <= s && AllSpace(s[|TrimRight(s)|..])
    ensures TrimRight(s) != "" ==> !IsSpace(TrimRight(s)[|TrimRight(s)| - 1])
  {
    if s != "" && IsSpace(s[|s| - 1]) {
      TrimRightSplits(s[..|s| - 1]);
    }
  }

  /** TrimSpace yields "" exactly on white space, and otherwise the longest slice
      whose two ends are not white space. */
  lemma TrimSpaceSplits(s: string) returns (lead: nat, tail: nat)
    ensures lead + |TrimSpace(s)| + tail == |s|
    ensures TrimSpace(s) == s[lead..lead + |TrimSpace(s)|]
    ensures AllSpace(s[..lead]) && AllSpace(s[lead + |TrimSpace(s)|..])
    ensures (TrimSpace(s) == "") <==> AllSpace(s)
  {
    TrimLeftSplits(s);
    var t := TrimLeft(s);
    TrimRightSplits(t);
    lead := |s| - |t|;
    tail := |t| - |TrimRight(t)|;
    assert s == s[..lead] + t;
    assert s[lead + |TrimSpace(s)|..] == t[|TrimRight(t)|..];
    if TrimSpace(s) != "" {
      assert !IsSpace(s[lead]) by {
        assert t[0] == s[lead];
        assert TrimRight(t)[0] == t[0];
      }
    } else {
      assert t == "" by { assert t == t[|TrimRight(t)|..]; }
      assert s[..lead] == s;
    }
  }

  /** A string with no white space at either end is its own trimmed form. */
  lemma TrimSpaceFixes(s: string)
    requires s != "" ==> !IsSpace(s[0]) && !IsSpace(s[|s| - 1])
    ensures TrimSpace(s) == s
  {
  }

  lemma TrimSpaceTrimmed(s: string)
    ensures |TrimSpace(s)| <= |s| && TrimSpace(TrimSpace(s)) == TrimSpace(s)
  {
    TrimLeftSplits(s);
    var t := TrimLeft(s);
    TrimRightSplits(t);
    var r := TrimRight(t);
    if r != "" {
      assert r[0] == t[0];
      TrimSpaceFixes(r);
    }
  }

  predicate OccursAt(s: string, sub: string, i: nat) {
    i + |sub| <= |s| && s[i..i + |sub|] == sub
  }

  /** Position of the first occurrence at or after `from`, or -1. */
  function IndexFrom(s: string, sub: string, from: nat): (r: int)
    requires from <= |s|
    ensures r == -1 || (from <= r <= |s| && OccursAt(s, sub, r))
    ensures forall i: nat :: from <= i <= |s| && (r == -1 || i < r) ==> !OccursAt(s, sub, i)
    decreases |s| - from
  {
    if OccursAt(s, sub, from) then from
    else if from == |s| then -1
    else IndexFrom(s, sub, from + 1)
  }

  function Index(s: string, sub: string): int {
    IndexFrom(s, sub, 0)
  }

  predicate Contains(s: string, sub: string) {
    Index(s, sub) != -1
  }

  function DigitChar(d: nat): (c: char)
    requires d < 10
    ensures '0' <= c <= '9'
  {
    '0' + d as char
  }

  predicate IsDigit(c: char) {
    '0' <= c <= '9'
  }

  function DigitValue(c: char): nat
    requires IsDigit(c)
  {
    c as int - '0' as int
  }

  /** The decimal form that %d prints for a non-negative number. */
  function Decimal(n: nat): (s: string)
    ensures s != "" && forall i :: 0 <= i < |s| ==> IsDigit(s[i])
  {
    if n < 10 then [DigitChar(n)] else Decimal(n / 10) + [DigitChar(n % 10)]
  }

  function DigitsValue(s: string): nat
    requires forall i :: 0 <= i < |s| ==> IsDigit(s[i])
  {
    if s == "" then 0
    else 10 * DigitsValue(s[..|s| - 1]) + DigitValue(s[|s| - 1])
  }

  lemma {:induction false} DecimalRoundTrip(n: nat)
    ensures DigitsValue(Decimal(n)) == n
  {
    if n >= 10 {
      DecimalRoundTrip(n / 10);
      assert Decimal(n)[..|Decimal(n)| - 1] == Decimal(n / 10);
    }
  }

  function LeadingDigits(s: string): (k: nat)
    ensures k <= |s|
    ensures forall i :: 0 <= i < k ==> IsDigit(s[i])
    ensures k < |s| ==> !IsDigit(s[k])
  {
    if s != "" && IsDigit(s[0]) then 1 + LeadingDigits(s[1..]) else 0
  }

  /** What scanning one field with %d yields: an optional sign and the leading digits. */
  function ScanInt(s: string): Option<int> {
    var signed := s != "" && (s[0] == '+' || s[0] == '-');
    var body := if signed then s[1..] else s;
    var k := LeadingDigits(body);
    if k == 0 then None
    else if signed && s[0] == '-' then Some(-(DigitsValue(body[..k]) as int))
    else Some(DigitsValue(body[..k]))
  }

  lemma ScanDecimal(n: nat)
    ensures ScanInt(Decimal(n)) == Some(n)
  {
    var s := Decimal(n);
    assert IsDigit(s[0]);
    assert LeadingDigits(s) == |s|;
    assert s[..|s|] == s;
    DecimalRoundTrip(n);
  }

  /** Length of the run without white space that ends the string. */
  function TrailingFieldLen(s: string): (k: nat)
    ensures k <= |s|
  {
    if s == "" || IsSpace(s[|s| - 1]) then 0 else 1 + TrailingFieldLen(s[..|s| - 1])
  }

  /** The last of the white-space separated fields, or "" when there is none. */
  function LastField(s: string): string {
    var t := TrimRight(s);
    t[|t| - TrailingFieldLen(t)..]
  }

  lemma {:induction false} TrailingFieldAfterSpace(pre: string, field: string)
    requires pre != "" && IsSpace(pre[|pre| - 1])
    requires forall i :: 0 <= i < |field| ==> !IsSpace(field[i])
    ensures TrailingFieldLen(pre + field) == |field|
  {
    if field == "" {
      assert pre + field == pre;
    } else {
      var f := field[..|field| - 1];
      TrailingFieldAfterSpace(pre, f);
      assert (pre + field)[..|pre + field| - 1] == pre + f;
    }
  }

  lemma LastFieldAfterSpace(pre: string, field: string)
    requires pre != "" && IsSpace(pre[|pre| - 1])
    requires field != "" && forall i :: 0 <= i < |field| ==> !IsSpace(field[i])
    ensures LastField(pre + field) == field
  {
    var s := pre + field;
    assert s[|s| - 1] == field[|field| - 1];
    assert TrimRight(s) == s;
    TrailingFieldAfterSpace(pre, field);
  }

  /** strings.Join(lines, "\n"). */
  function JoinLines(lines: seq<string>): string {
    if lines == [] then ""
    else if |lines| == 1 then lines[0]
    else lines[0] + "\n" + JoinLines(lines[1..])
  }

  /** strings.Split(s, "\n"). */
  function SplitLines(s: string): (lines: seq<string>)
    ensures lines != []
    decreases |s|
  {
    var i := Index(s, "\n");
    if i == -1 then [s] else [s[..i]] + SplitLines(s[i + 1..])
  }
}
