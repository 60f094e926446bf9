/**
 * The string operations the scraper applies to what it reads from a page:
 * `split('/')[-1]` for post ids and author handles, `startswith`, and
 * `strip().replace("\n", " ")` for post and comment bodies.
 */
module Text {

  /** The decimal digit `d` as a character. */
  function DigitChar(d: nat): char
    requires d < 10
  {
    "0123456789"[d]
  }

  /** The number the decimal digits `s` denote, most significant first. */
  function DigitsValue(s: string): int {
    if s == [] then 0 else DigitsValue(s[..|s| - 1]) * 10 + (s[|s| - 1] as int - '0' as int)
  }

  /** Every character of `s` is a decimal digit. */
  predicate AllDigits(s: string) {
    forall k :: 0 <= k < |s| ==> '0' <= s[k] <= '9'
  }

  /** The decimal digits of `n`, most significant first, without leading zeros. */
  function Digits(n: nat): (r: string)
    ensures |r| >= 1 && AllDigits(r) && DigitsValue(r) == n
    ensures r[0] == '0' ==> n == 0 && r == "0"
    decreases n
  {
    if n < 10 then
      assert [DigitChar(n)][..0] == [];
      [DigitChar(n)]
    else
      var r := Digits(n / 10) + [DigitChar(n % 10)];
      assert r[..|r| - 1] == Digits(n / 10);
      assert DigitChar(n % 10) as int - '0' as int == n % 10;
      assert DigitsValue(r) == (n / 10) * 10 + n % 10;
      r
  }

  /** The integer a string of the form produced by Decimal denotes. */
  function DecimalValue(s: string): int {
    if s != [] && s[0] == '-' then -DigitsValue(s[1..]) else DigitsValue(s)
  }

  /**
   * Python's `str(n)` for an integer, as the f-string `f"{n}"` renders it:
   * a '-' exactly for a negative number, then its digits; reading it back
   * gives `n`.
   */
  function Decimal(n: int): (r: string)
    ensures |r| >= 1 && (r[0] == '-' <==> n < 0)
    ensures var digits := if n < 0 then r[1..] else r;
      |digits| >= 1 && AllDigits(digits) && (digits[0] == '0' ==> n == 0 && digits == "0")
    ensures DecimalValue(r) == n
  {
    if n < 0 then
      var r := "-" + Digits(-n);
      assert r[1..] == Digits(-n);
      r
    else Digits(n)
  }

  /** `s.startswith(prefix)`: `prefix` is a prefix of `s`. */
  predicate StartsWith(s: string, prefix: string)
    ensures StartsWith(s, prefix) <==> prefix <= s
  {
    |prefix| <= |s| && s[..|prefix|] == prefix
  }

  /** The segments `segs` glued back together with '/' between each two. */
  function Join(segs: seq<string>): string
    requires |segs| >= 1
  {
    if |segs| == 1 then segs[0] else Join(segs[..|segs| - 1]) + "/" + segs[|segs| - 1]
  }

  /**
   * `s.split('/')`: the segments between the slashes, always at least one;
   * joining them with '/' gives `s` back.
   */
  function Split(s: string): (segs: seq<string>)
    ensures |segs| >= 1
    ensures forall i :: 0 <= i < |segs| ==> '/' !in segs[i]
    ensures Join(segs) == s
  {
    if s == [] then [[]]
    else
      var init := Split(s[..|s| - 1]);
      var c := s[|s| - 1];
      assert s == s[..|s| - 1] + [c];
      if c == '/' then
        var segs := init + [[]];
        assert segs[..|segs| - 1] == init;
        segs
      else
        var front := init[..|init| - 1];
        var segs := front + [init[|init| - 1] + [c]];
        assert segs[..|segs| - 1] == front;
        assert |init| > 1 ==> init[..|init| - 1] == front && Join(init) == Join(front) + "/" + init[|init| - 1];
        segs
  }

  /**
   * The text after the last '/' of `s`, or all of `s` when it has none: no
   * longer than `s`, and without a '/'.
   */
  function LastSegment(s: string): (r: string)
    ensures '/' !in r && |r| <= |s|
  {
    if s == [] || s[|s| - 1] == '/' then []
    else LastSegment(s[..|s| - 1]) + [s[|s| - 1]]
  }

  /** LastSegment is the longest suffix of `s` without a '/'. */
  lemma {:induction false} LastSegmentSpec(s: string)
    ensures var r := LastSegment(s);
      r == s[|s| - |r|..] && (|r| == |s| || s[|s| - |r| - 1] == '/')
  {
    if s != [] && s[|s| - 1] != '/' {
      var init := s[..|s| - 1];
      LastSegmentSpec(init);
      var r := LastSegment(init);
      assert s[|s| - |r| - 1..] == init[|init| - |r|..] + [s[|s| - 1]];
    }
  }

  /** LastSegment is Python's `s.split('/')[-1]`. */
  lemma {:induction false} LastSegmentIsLastOfSplit(s: string)
    ensures LastSegment(s) == Split(s)[|Split(s)| - 1]
  {
    if s != [] {
      var init := s[..|s| - 1];
      var segs := Split(init);
      LastSegmentIsLastOfSplit(init);
      if s[|s| - 1] != '/' {
        assert Split(s)[|Split(s)| - 1] == segs[|segs| - 1] + [s[|s| - 1]];
      }
    }
  }

  /** A handle or id taken from a path that ends in "/<segment>" is that segment. */
  lemma {:induction false} LastSegmentOfPath(dir: string, seg: string)
    requires '/' !in seg
    ensures LastSegment(dir + "/" + seg) == seg
  {
    var s := dir + "/" + seg;
    if seg != [] {
      var init := seg[..|seg| - 1];
      assert s[..|s| - 1] == dir + "/" + init;
      assert seg == init + [seg[|seg| - 1]];
      LastSegmentOfPath(dir, init);
    }
  }

  /** The characters for which Python's `str.isspace()` holds: what `strip()` removes. */
  predicate IsSpace(c: char) {
    var k := c as int;
    (9 <= k <= 13) || (28 <= k <= 32) || k == 0x85 || k == 0xA0 || k == 0x1680
    || (0x2000 <= k <= 0x200A) || k == 0x2028 || k == 0x2029 || k == 0x202F
    || k == 0x205F || k == 0x3000
  }

  /** Every character of `t` is white space. */
  predicate AllSpace(t: string) {
    forall k :: 0 <= k < |t| ==> IsSpace(t[k])
  }

  /** `s.lstrip()`: drops the leading white space. */
  function StripLeft(s: string): string {
    if s != [] && IsSpace(s[0]) then StripLeft(s[1..]) else s
  }

  /** StripLeft removes a prefix of white space, and no more. */
  lemma {:induction false} StripLeftSpec(s: string)
    ensures var r := StripLeft(s);
      |r| <= |s| && r == s[|s| - |r|..] && AllSpace(s[..|s| - |r|]) && (r == [] || !IsSpace(r[0]))
  {
    if s != [] && IsSpace(s[0]) {
      StripLeftSpec(s[1..]);
      var r := StripLeft(s[1..]);
      assert s[..|s| - |r|] == [s[0]] + s[1..][..|s| - 1 - |r|];
    }
  }

  /** `s.rstrip()`: drops the trailing white space. */
  function StripRight(s: string): string {
    if s != [] && IsSpace(s[|s| - 1]) then StripRight(s[..|s| - 1]) else s
  }

  /** StripRight removes a suffix of white space, and no more. */
  lemma {:induction false} StripRightSpec(s: string)
    ensures var r := StripRight(s);
      |r| <= |s| && r == s[..|r|] && AllSpace(s[|r|..]) && (r == [] || !IsSpace(r[|r| - 1]))
  {
    if s != [] && IsSpace(s[|s| - 1]) {
      StripRightSpec(s[..|s| - 1]);
      var r := StripRight(s[..|s| - 1]);
      assert s[|r|..] == s[..|s| - 1][|r|..] + [s[|s| - 1]];
    }
  }

  /** `r` is the slice of `s` at offset `i`, with only white space around it. */
  predicate SliceWithin(s: string, i: int, r: string) {
    0 <= i <= |s| - |r| && r == s[i..i + |r|]
    && AllSpace(s[..i]) && AllSpace(s[i + |r|..])
  }

  /** `s.strip()`. */
  function Strip(s: string): string {
    StripRight(StripLeft(s))
  }

  /**
   * Strip leaves the slice of `s` that remains after removing white space at
   * both ends; it neither starts nor ends with white space.
   */
  lemma StripSpec(s: string)
    ensures var r := Strip(s);
      (r == [] || (!IsSpace(r[0]) && !IsSpace(r[|r| - 1])))
      && SliceWithin(s, |s| - |StripLeft(s)|, r)
  {
    var left := StripLeft(s);
    var r := StripRight(left);
    StripLeftSpec(s);
    StripRightSpec(left);
    var i := |s| - |left|;
    assert s[i..][|r|..] == s[i + |r|..];
    assert r != [] ==> r[0] == left[0];
  }

  /** `s.replace("\n", " ")`. */
  function ReplaceNewlines(s: string): string {
    if s == [] then []
    else [if s[0] == '\n' then ' ' else s[0]] + ReplaceNewlines(s[1..])
  }

  /** ReplaceNewlines turns every newline into a space and changes nothing else. */
  lemma {:induction false} ReplaceNewlinesSpec(s: string)
    ensures var r := ReplaceNewlines(s);
      |r| == |s| && '\n' !in r
      && forall k :: 0 <= k < |s| ==> r[k] == if s[k] == '\n' then ' ' else s[k]
  {
    if s != [] {
      ReplaceNewlinesSpec(s[1..]);
    }
  }

  /**
   * `s.strip().replace("\n", " ")`, applied to post and comment bodies: a
   * single line with no white space at either end, as long as the stripped text.
   */
  function Normalise(s: string): (r: string)
    ensures '\n' !in r && |r| == |Strip(s)| && (r == [] || (!IsSpace(r[0]) && !IsSpace(r[|r| - 1])))
  {
    StripSpec(s);
    ReplaceNewlinesSpec(Strip(s));
    ReplaceNewlines(Strip(s))
  }

  /** Text that is already a single trimmed line comes out of Normalise unchanged. */
  lemma NormaliseKeepsTrimmedLine(s: string)
    requires '\n' !in s
    requires s == [] || (!IsSpace(s[0]) && !IsSpace(s[|s| - 1]))
    ensures Normalise(s) == s
  {
    assert StripLeft(s) == s;
    assert StripRight(s) == s;
    ReplaceNewlinesSpec(s);
  }
}
