/**
 * The JavaScript string and Buffer operations the service relies on:
 * `trim`, ASCII case folding, `indexOf`, `startsWith`, `split("\r\n")`,
 * truthiness of optional strings and `String(n)` for integers.
 * Buffers are sequences of characters with one character per octet.
 */
module Text {
  import opened Wrappers

  /** The code points JavaScript's `trim` removes and `\s` matches (WhiteSpace and LineTerminator). */
  predicate IsJsSpace(c: char) {
    || c == '\t' || c == '\n' || c == '\U{B}' || c == '\U{C}' || c == '\r' || c == ' '
    || c == '\U{A0}' || c == '\U{1680}' || ('\U{2000}' <= c <= '\U{200A}')
    || c == '\U{2028}' || c == '\U{2029}' || c == '\U{202F}' || c == '\U{205F}'
    || c == '\U{3000}' || c == '\U{FEFF}'
  }

  predicate IsCrOrLf(c: char) {
    c == '\r' || c == '\n'
  }

  /** The end of the run of white space that starts at `i`. */
  function SpaceRunEnd(s: string, i: nat): (e: nat)
    requires i <= |s|
    ensures i <= e <= |s|
    ensures forall j :: i <= j < e ==> IsJsSpace(s[j])
    ensures e == |s| || !IsJsSpace(s[e])
    decreases |s| - i
  {
    if i == |s| || !IsJsSpace(s[i]) then i else SpaceRunEnd(s, i + 1)
  }

  /** The start of the run of white space that ends at `j`. */
  function SpaceRunStart(s: string, j: nat): (b: nat)
    requires j <= |s|
    ensures b <= j
    ensures forall i :: b <= i < j ==> IsJsSpace(s[i])
    ensures b == 0 || !IsJsSpace(s[b - 1])
  {
    if j == 0 || !IsJsSpace(s[j - 1]) then j else SpaceRunStart(s, j - 1)
  }

  /** `s.trimStart()`: drops the leading run of white space and nothing else. */
  function TrimStart(s: string): (r: string)
    ensures |r| <= |s| && r == s[|s| - |r|..]
    ensures r == [] || !IsJsSpace(r[0])
    ensures forall i :: 0 <= i < |s| - |r| ==> IsJsSpace(s[i])
  {
    s[SpaceRunEnd(s, 0)..]
  }

  /** `s.trimEnd()`: drops the trailing run of white space and nothing else. */
  function TrimEnd(s: string): (r: string)
    ensures |r| <= |s| && r == s[..|r|]
    ensures r == [] || !IsJsSpace(r[|r| - 1])
    ensures forall i :: |r| <= i < |s| ==> IsJsSpace(s[i])
  {
    s[..SpaceRunStart(s, |s|)]
  }

  /** The length of the run of white space `s` starts with. */
  function LeadingSpace(s: string): (i: nat)
    ensures i <= |s|
    ensures forall k :: 0 <= k < i ==> IsJsSpace(s[k])
    ensures i == |s| || !IsJsSpace(s[i])
  {
    SpaceRunEnd(s, 0)
  }

  /**
   * `s.trim()`: the slice of `s` left when the white space at both ends is
   * removed; it has no white space at either end, and is empty exactly when
   * `s` is all white space.
   */
  function Trim(s: string): (r: string)
    ensures |r| <= |s|
    ensures var i := LeadingSpace(s);
      && i + |r| <= |s| && r == s[i..i + |r|]
      && forall k :: i + |r| <= k < |s| ==> IsJsSpace(s[k])
    ensures r == [] || (!IsJsSpace(r[0]) && !IsJsSpace(r[|r| - 1]))
    ensures r == [] <==> forall i :: 0 <= i < |s| ==> IsJsSpace(s[i])
  {
    TrimEmptyOnlyForSpace(s);
    TrimIsSlice(s);
    TrimEnd(TrimStart(s))
  }

  /** What is left after both runs of white space are removed is the slice that starts after the leading run. */
  lemma TrimIsSlice(s: string)
    ensures var r := TrimEnd(TrimStart(s));
      var i := LeadingSpace(s);
      && i + |r| <= |s| && r == s[i..i + |r|]
      && forall k :: i + |r| <= k < |s| ==> IsJsSpace(s[k])
  {
    var t := TrimStart(s);
    var r := TrimEnd(t);
    var i := |s| - |t|;
    assert r == s[i..i + |r|];
    assert forall k :: i + |r| <= k < |s| ==> s[k] == t[k - i];
  }

  lemma TrimEmptyOnlyForSpace(s: string)
    ensures TrimEnd(TrimStart(s)) == [] <==> forall i :: 0 <= i < |s| ==> IsJsSpace(s[i])
  {
    var t := TrimStart(s);
    var r := TrimEnd(t);
    if r == [] {
      assert t == [];
    } else {
      assert t[0] == r[0];
      assert s[|s| - |t|] == t[0];
    }
  }

  /** A string with no white space at either end is its own trim. */
  lemma TrimOfTrimmed(r: string)
    requires r == [] || (!IsJsSpace(r[0]) && !IsJsSpace(r[|r| - 1]))
    ensures TrimEnd(TrimStart(r)) == r
  {
    if r != [] {
      assert SpaceRunEnd(r, 0) == 0;
      assert TrimStart(r) == r;
      assert SpaceRunStart(r, |r|) == |r|;
    }
  }

  /** Trimming a trimmed string changes nothing, so the service's repeated `.trim()` calls are harmless. */
  lemma TrimIdempotent(s: string)
    ensures Trim(Trim(s)) == Trim(s)
  {
    TrimOfTrimmed(Trim(s));
  }

  function LowerChar(c: char): char {
    if 'A' <= c <= 'Z' then (c as int + 32) as char else c
  }

  /** `s.toLowerCase()` restricted to ASCII letters. */
  function ToLowerAscii(s: string): (r: string)
    ensures |r| == |s|
    ensures forall i :: 0 <= i < |s| ==> r[i] == LowerChar(s[i])
  {
    seq(|s|, i requires 0 <= i < |s| => LowerChar(s[i]))
  }

  predicate StartsWith(s: string, prefix: string) {
    |prefix| <= |s| && s[..|prefix|] == prefix
  }

  /** `needle` occurs in `s` at position `i`. */
  predicate OccursAt(s: string, needle: string, i: int) {
    0 <= i && i + |needle| <= |s| && forall j :: 0 <= j < |needle| ==> s[i + j] == needle[j]
  }

  /**
   * `s.indexOf(needle, from)` for a non-empty needle: the first position at or
   * after `from` where `needle` occurs, or -1 when there is none.
   */
  function IndexOf(s: string, needle: string, from: nat): (r: int)
    requires needle != []
    ensures r == -1 || (from <= r && OccursAt(s, needle, r))
    ensures forall i :: from <= i && (r == -1 || i < r) ==> !OccursAt(s, needle, i)
    decreases |s| - from
  {
    if from + |needle| > |s| then -1
    else if OccursAt(s, needle, from) then from
    else IndexOf(s, needle, from + 1)
  }

  /** `s.includes(needle)` */
  predicate Contains(s: string, needle: string)
    requires needle != []
  {
    IndexOf(s, needle, 0) != -1
  }

  const CRLF: string := "\r\n"

  /** `s.split("\r\n")` */
  function SplitLines(s: string): (lines: seq<string>)
    ensures |lines| >= 1
    decreases |s|
  {
    var i := IndexOf(s, CRLF, 0);
    if i == -1 then [s] else [s[..i]] + SplitLines(s[i + 2..])
  }

  /** JavaScript truthiness of a string that may be null: present and non-empty. */
  predicate Truthy(s: Option<string>) {
    s.Some? && s.value != ""
  }

  /** `a || b` on optional strings: the first truthy operand, else `b`. */
  function OrTruthy(a: Option<string>, b: Option<string>): (r: Option<string>)
    ensures Truthy(r) <==> Truthy(a) || Truthy(b)
    ensures Truthy(a) ==> r == a
  {
    if Truthy(a) then a else b
  }

  /** JavaScript truthiness of a number that may be null: present and non-zero. */
  predicate TruthyInt(n: Option<int>) {
    n.Some? && n.value != 0
  }

  function DigitChar(d: nat): char
    requires d < 10
  {
    ('0' as int + d) as char
  }

  function NatToString(n: nat): (r: string)
    ensures |r| >= 1
    ensures forall i :: 0 <= i < |r| ==> '0' <= r[i] <= '9'
  {
    if n < 10 then [DigitChar(n)] else NatToString(n / 10) + [DigitChar(n % 10)]
  }

  /** `String(n)` for an integer: its decimal digits, with a leading '-' when negative. */
  function IntToString(n: int): (r: string)
    ensures r != []
    ensures (r[0] == '-') <==> n < 0
  {
    if n < 0 then "-" + NatToString(-n) else NatToString(n)
  }
}
