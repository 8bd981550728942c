/**
 * The pieces of Python's `str` that yt2mp3 relies on: `str.strip()`,
 * `str.lower()`, the `in` substring test, and the character classes the URL
 * patterns and `strip` are built from.
 */
module Text {

  /** A character that `str.isspace()` accepts, hence one that `str.strip()` removes. */
  predicate IsSpace(c: char) {
    || ('\t' <= c <= '\r')
    || ('\U{1C}' <= c <= '\U{1F}')
    || c == ' '
    || c == '\U{85}'
    || c == '\U{A0}'
    || c == '\U{1680}'
    || ('\U{2000}' <= c <= '\U{200A}')
    || c == '\U{2028}'
    || c == '\U{2029}'
    || c == '\U{202F}'
    || c == '\U{205F}'
    || c == '\U{3000}'
  }

  predicate IsAsciiLetter(c: char) {
    'a' <= c <= 'z' || 'A' <= c <= 'Z'
  }

  predicate IsAsciiDigit(c: char) {
    '0' <= c <= '9'
  }

  /**
   * The regular-expression class `\w`, restricted to its ASCII part: letters,
   * digits and the underscore.
   */
  predicate IsWordChar(c: char) {
    IsAsciiLetter(c) || IsAsciiDigit(c) || c == '_'
  }

  /** Every character of `s` from index `lo` up to (not including) `hi` is whitespace. */
  predicate SpaceBetween(s: string, lo: int, hi: int) {
    forall k :: lo <= k < hi && 0 <= k < |s| ==> IsSpace(s[k])
  }

  /** How many whitespace characters `s` starts with. */
  function LeadingSpace(s: string): (n: nat)
    ensures n <= |s|
    decreases |s|
  {
    if s != [] && IsSpace(s[0]) then 1 + LeadingSpace(s[1..]) else 0
  }

  /** The leading run is all whitespace and is followed by a character that is not. */
  lemma {:induction false} LeadingSpaceIsRun(s: string)
    ensures var n := LeadingSpace(s); SpaceBetween(s, 0, n) && (n == |s| || !IsSpace(s[n]))
    decreases |s|
  {
    if s != [] && IsSpace(s[0]) {
      var t := s[1..];
      LeadingSpaceIsRun(t);
      assert forall k :: 1 <= k < |s| ==> s[k] == t[k - 1];
    }
  }

  /** How many whitespace characters `s` ends with. */
  function TrailingSpace(s: string): (n: nat)
    ensures n <= |s|
    decreases |s|
  {
    if s != [] && IsSpace(s[|s| - 1]) then 1 + TrailingSpace(s[..|s| - 1]) else 0
  }

  /** The trailing run is all whitespace and is preceded by a character that is not. */
  lemma {:induction false} TrailingSpaceIsRun(s: string)
    ensures var n := TrailingSpace(s); SpaceBetween(s, |s| - n, |s|) && (n == |s| || !IsSpace(s[|s| - n - 1]))
    decreases |s|
  {
    if s != [] && IsSpace(s[|s| - 1]) {
      var t := s[..|s| - 1];
      TrailingSpaceIsRun(t);
      assert forall k :: 0 <= k < |t| ==> s[k] == t[k];
    }
  }

  /** `s.lstrip()`: drops the leading run of whitespace. */
  function StripStart(s: string): string {
    s[LeadingSpace(s)..]
  }

  /** `s.rstrip()`: drops the trailing run of whitespace. */
  function StripEnd(s: string): string {
    s[..|s| - TrailingSpace(s)]
  }

  /** `s.strip()`: both ends at once. */
  function Strip(s: string): string {
    StripEnd(StripStart(s))
  }

  /** What `Strip` leaves is a slice of `s`, starting after its leading whitespace. */
  lemma StripIsSlice(s: string)
    ensures var r, i := Strip(s), LeadingSpace(s); i + |r| <= |s| && r == s[i..i + |r|]
  {
    var i := LeadingSpace(s);
    var a := s[i..];
    var m := |a| - TrailingSpace(a);
    assert a[..m] == s[i..i + m];
  }

  /** Only whitespace lies around what `Strip` leaves. */
  lemma StripDropsOnlySpace(s: string)
    ensures var r, i := Strip(s), LeadingSpace(s);
            SpaceBetween(s, 0, i) && SpaceBetween(s, i + |r|, |s|)
  {
    var i := LeadingSpace(s);
    var a := s[i..];
    LeadingSpaceIsRun(s);
    TrailingSpaceIsRun(a);
    SpaceInSuffix(s, i, |a| - TrailingSpace(a), |a|);
  }

  /** What `Strip` leaves neither starts nor ends with whitespace. */
  lemma StripEndsNotSpace(s: string)
    ensures var r := Strip(s); r == [] || (!IsSpace(r[0]) && !IsSpace(r[|r| - 1]))
  {
    var i := LeadingSpace(s);
    var a := s[i..];
    var r := Strip(s);
    LeadingSpaceIsRun(s);
    TrailingSpaceIsRun(a);
    if r != [] {
      assert r[0] == s[i];
      assert r[|r| - 1] == a[|a| - TrailingSpace(a) - 1];
    }
  }

  /** Whitespace found in the suffix `s[i..]` is whitespace in `s`, `i` places further on. */
  lemma SpaceInSuffix(s: string, i: nat, lo: int, hi: int)
    requires i <= |s| && 0 <= lo && SpaceBetween(s[i..], lo, hi)
    ensures SpaceBetween(s, i + lo, i + hi)
  {
    forall k | i + lo <= k < i + hi && 0 <= k < |s|
      ensures IsSpace(s[k])
    {
      assert s[k] == s[i..][k - i];
    }
  }

  /** Stripping twice strips nothing more. */
  lemma StripIdempotent(s: string)
    ensures Strip(Strip(s)) == Strip(s)
  {
    var r := Strip(s);
    StripEndsNotSpace(s);
    assert LeadingSpace(r) == 0;
    assert StripStart(r) == r;
    assert TrailingSpace(r) == 0;
  }

  /**
   * The lower-case mapping of `str.lower()` as far as it can turn a character
   * into an ASCII one: A-Z, and KELVIN SIGN, which becomes 'k'.
   */
  function LowerChar(c: char): char {
    if 'A' <= c <= 'Z' then (c as int + 32) as char
    else if c == '\U{212A}' then 'k'
    else c
  }

  /** `s.lower()`, character by character. */
  function Lower(s: string): (r: string)
    ensures |r| == |s|
    decreases |s|
  {
    if s == [] then [] else [LowerChar(s[0])] + Lower(s[1..])
  }

  /** Each character of `Lower(s)` is the lower case of the one in `s` at the same place. */
  lemma {:induction false} LowerChars(s: string)
    ensures forall k :: 0 <= k < |s| ==> Lower(s)[k] == LowerChar(s[k])
    decreases |s|
  {
    if s != [] {
      LowerChars(s[1..]);
    }
  }

  lemma LowerIdempotent(s: string)
    ensures Lower(Lower(s)) == Lower(s)
  {
    LowerChars(s);
    LowerChars(Lower(s));
    assert forall k :: 0 <= k < |s| ==> LowerChar(LowerChar(s[k])) == LowerChar(s[k]);
  }

  /** `t` occurs in `s` starting at index `i`. */
  predicate OccursAt(t: string, s: string, i: int) {
    0 <= i && i + |t| <= |s| && s[i..i + |t|] == t
  }

  /** `t` occurs in `s` as a contiguous slice. */
  ghost predicate Occurs(t: string, s: string) {
    exists i :: OccursAt(t, s, i)
  }

  /** Python's `t in s` for strings. */
  function Contains(s: string, t: string): (b: bool)
    ensures b <==> Occurs(t, s)
    decreases |s|
  {
    if |t| > |s| then
      assert forall i :: !OccursAt(t, s, i);
      false
    else if t <= s then
      assert OccursAt(t, s, 0);
      true
    else
      var b := Contains(s[1..], t);
      assert forall i :: 1 <= i ==> (OccursAt(t, s, i) <==> OccursAt(t, s[1..], i - 1));
      if b then
        var i :| OccursAt(t, s[1..], i);
        assert OccursAt(t, s, i + 1);
        true
      else
        assert !OccursAt(t, s, 0);
        false
  }

  /** A slice cannot occur where one of its characters does not. */
  lemma AbsentCharBlocks(t: string, s: string, c: char)
    requires c in t && c !in s
    ensures !Occurs(t, s)
  {
  }
}
