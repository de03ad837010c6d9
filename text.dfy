/**
 * The text helpers of Go's standard library that the tools lean on:
 * `unicode.IsSpace`, `strings.TrimSpace`, the `%d` verb of `fmt`, and the
 * reading of newline-terminated text line by line.
 */
module Text {

  /** `unicode.IsSpace`: the characters with the Unicode White_Space property. */
  predicate IsSpace(c: char) {
    var u := c as int;
    (0x09 <= u <= 0x0D) || u == 0x20 || u == 0x85 || u == 0xA0 || u == 0x1680
    || (0x2000 <= u <= 0x200A) || u == 0x2028 || u == 0x2029 || u == 0x202F
    || u == 0x205F || u == 0x3000
  }

  predicate AllSpace(s: string) {
    forall k :: 0 <= k < |s| ==> IsSpace(s[k])
  }

  /** The number of white-space characters `s` starts with. */
  function LeadingSpace(s: string): (n: nat)
    ensures n <= |s|
    ensures forall k :: 0 <= k < n ==> IsSpace(s[k])
    ensures n < |s| ==> !IsSpace(s[n])
  {
    if s == [] || !IsSpace(s[0]) then 0 else 1 + LeadingSpace(s[1..])
  }
  /** The number of white-space characters `s` ends with. */
  function TrailingSpace(s: string): (n: nat)
    ensures n <= |s|
    ensures forall k :: |s| - n <= k < |s| ==> IsSpace(s[k])
    ensures n < |s| ==> !IsSpace(s[|s| - 1 - n])
  {
    if s == [] || !IsSpace(s[|s| - 1]) then 0 else 1 + TrailingSpace(s[..|s| - 1])
  }
  /**
   * `strings.TrimSpace`: the infix of `s` left once the leading and trailing
   * white space is cut off.
   */
  function TrimSpace(s: string): (r: string)
    ensures LeadingSpace(s) + |r| <= |s|
    ensures forall k :: 0 <= k < |r| ==> r[k] == s[LeadingSpace(s) + k]
    ensures forall k :: LeadingSpace(s) + |r| <= k < |s| ==> IsSpace(s[k])
    ensures r == [] || (!IsSpace(r[0]) && !IsSpace(r[|r| - 1]))
  {
    var i := LeadingSpace(s);
    TrailingSpaceAfter(s, i);
    s[i..|s| - TrailingSpace(s[i..])]
  }

  /** The trailing white space of a suffix of `s`, stated on the positions of `s`. */
  lemma TrailingSpaceAfter(s: string, i: nat)
    requires i <= |s|
    ensures var t := TrailingSpace(s[i..]);
            && t <= |s| - i
            && (forall k :: |s| - t <= k < |s| ==> IsSpace(s[k]))
            && (t < |s| - i ==> !IsSpace(s[|s| - 1 - t]))
  {
    var u := s[i..];
    var t := TrailingSpace(u);
    forall k | |s| - t <= k < |s| ensures IsSpace(s[k]) {
      assert s[k] == u[k - i];
    }
    if t < |u| {
      assert s[|s| - 1 - t] == u[|u| - 1 - t];
    }
  }

  /** Trimming leaves nothing exactly when the text is all white space. */
  lemma TrimSpaceEmptyIff(s: string)
    ensures TrimSpace(s) == [] <==> AllSpace(s)
  {
    if AllSpace(s) {
      assert LeadingSpace(s) == |s|;
    }
  }

  /** Trimming is idempotent: a trimmed string has nothing left to trim. */
  lemma TrimSpaceIdempotent(s: string)
    ensures TrimSpace(TrimSpace(s)) == TrimSpace(s)
  {
    var t := TrimSpace(s);
    if t != [] {
      assert LeadingSpace(t) == 0;
      assert t[0..] == t;
      assert TrailingSpace(t) == 0;
    }
  }

  /** The decimal digit `d` as a character. */
  function DigitChar(d: nat): (c: char)
    requires d < 10
    ensures '0' <= c <= '9'
  {
    (('0' as int) + d) as char
  }

  predicate IsDigits(s: string) {
    forall k :: 0 <= k < |s| ==> '0' <= s[k] <= '9'
  }

  /** The decimal digits of `n`, most significant first, without leading zeros. */
  function Digits(n: nat): (r: string)
    ensures |r| >= 1 && IsDigits(r)
    ensures r[0] == '0' ==> n == 0
    decreases n
  {
    if n < 10 then [DigitChar(n)] else Digits(n / 10) + [DigitChar(n % 10)]
  }

  /** `fmt.Sprintf("%d", n)` for an integer `n`. */
  function Decimal(n: int): (r: string)
    ensures r != [] && '\n' !in r && ' ' !in r
    ensures n < 0 <==> r[0] == '-'
  {
    if n < 0 then "-" + Digits(-n) else Digits(n)
  }

  /** The number a string of decimal digits denotes: the partner of `Digits`. */
  function DigitsValue(s: string): nat
    requires IsDigits(s)
  {
    if s == [] then 0
    else DigitsValue(s[..|s| - 1]) * 10 + (s[|s| - 1] as int - '0' as int)
  }

  /** The integer an optionally signed decimal numeral denotes: the partner of `Decimal`. */
  function DecimalValue(s: string): int
    requires s != [] && IsDigits(if s[0] == '-' then s[1..] else s)
  {
    if s[0] == '-' then -(DigitsValue(s[1..]) as int) else DigitsValue(s)
  }

  lemma {:induction false} DigitsRoundTrip(n: nat)
    ensures DigitsValue(Digits(n)) == n
    decreases n
  {
    if n >= 10 {
      DigitsRoundTrip(n / 10);
      var d := Digits(n);
      assert d[..|d| - 1] == Digits(n / 10);
    }
  }

  /** Reading back what `%d` printed gives the number printed. */
  lemma DecimalRoundTrip(n: int)
    ensures DecimalValue(Decimal(n)) == n
  {
    if n < 0 {
      DigitsRoundTrip(-n);
      assert Decimal(n)[1..] == Digits(-n);
    } else {
      DigitsRoundTrip(n);
    }
  }

  /**
   * Where the last line of `s` starts: just after the last newline, or 0
   * when there is none.
   */
  function LastLineStart(s: string): (k: nat)
    ensures k <= |s|
    ensures forall m :: k <= m < |s| ==> s[m] != '\n'
    ensures k > 0 ==> s[k - 1] == '\n'
  {
    if s == [] then 0
    else if s[|s| - 1] == '\n' then |s|
    else LastLineStart(s[..|s| - 1])
  }

  /**
   * The lines of `s`, each without its terminating newline; a last line with
   * no newline after it is a line too, and the empty text has no lines.
   */
  function LinesOf(s: string): (lines: seq<string>)
    ensures forall k :: 0 <= k < |lines| ==> '\n' !in lines[k]
    decreases |s|
  {
    if s == [] then []
    else
      var body := if s[|s| - 1] == '\n' then s[..|s| - 1] else s;
      var k := LastLineStart(body);
      var last := body[k..];
      assert forall m :: 0 <= m < |last| ==> last[m] == body[k + m];
      LinesOf(body[..k]) + [last]
  }

  /** Text that is empty or ends in a newline: each of its lines is complete. */
  predicate Terminated(s: string) {
    s == [] || s[|s| - 1] == '\n'
  }

  /** Writing one more line at the end of complete lines adds exactly that line. */
  lemma LinesOfAppend(s: string, line: string)
    requires Terminated(s) && '\n' !in line
    ensures LinesOf(s + line + "\n") == LinesOf(s) + [line]
  {
    var t := s + line + "\n";
    assert t[..|t| - 1] == s + line;
    LastLineStartAfter(s, line);
    assert (s + line)[..|s|] == s && (s + line)[|s|..] == line;
  }

  /** The last line of complete lines followed by a newline-free line starts right after them. */
  lemma {:induction false} LastLineStartAfter(s: string, line: string)
    requires Terminated(s) && '\n' !in line
    ensures LastLineStart(s + line) == |s|
    decreases |line|
  {
    if line == [] {
      assert s + line == s;
    } else {
      var n := |line| - 1;
      assert (s + line)[..|s + line| - 1] == s + line[..n];
      assert line[n] in line;
      LastLineStartAfter(s, line[..n]);
    }
  }

}
