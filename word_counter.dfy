/**
 * The word counter: `count` reads its input one newline-terminated segment at
 * a time (`bufio.Reader.ReadString('\n')`), counting segments, the words of
 * each segment (`bufio.ScanWords`) and bytes, and returns the pair its two
 * flags select. The reader is the finite byte sequence it would deliver.
 */
module WordCounter {

  type Byte = b: int | 0 <= b < 256

  const Newline: Byte := 10

  /** The white space `bufio.ScanWords` splits on, restricted to single-byte (ASCII) characters. */
  predicate IsSpace(b: Byte) {
    (9 <= b <= 13) || b == 32
  }

  // ---------------------------------------------------------------------
  // What is counted, stated on the whole input.

  /** The number of newline bytes in `s`. */
  function Newlines(s: seq<Byte>): (n: nat)
    ensures n <= |s|
  {
    if s == [] then 0
    else Newlines(s[..|s| - 1]) + (if s[|s| - 1] == Newline then 1 else 0)
  }

  /** Position `k` of `s` starts a word: a non-space byte at the start or after a space. */
  predicate StartsWord(s: seq<Byte>, k: int)
    requires 0 <= k < |s|
  {
    !IsSpace(s[k]) && (k == 0 || IsSpace(s[k - 1]))
  }

  /** The number of words of `s`: its maximal runs of non-space bytes, counted by where they start. */
  function Words(s: seq<Byte>): (n: nat)
    ensures n <= |s|
  {
    if s == [] then 0
    else Words(s[..|s| - 1]) + (if StartsWord(s, |s| - 1) then 1 else 0)
  }

  // ---------------------------------------------------------------------
  // The reading loop.

  /**
   * `ReadString('\n')` from offset `pos`: the segment runs to just past the
   * next newline, or, when there is none, to the end of the input, which is
   * then reported as end of file.
   */
  method ReadSegment(input: seq<Byte>, pos: nat) returns (end: nat, eof: bool)
    requires pos <= |input|
    ensures pos <= end <= |input|
    ensures eof <==> end == |input| && forall k :: pos <= k < end ==> input[k] != Newline
    ensures !eof ==> pos < end && input[end - 1] == Newline
    ensures forall k :: pos <= k < end - 1 ==> input[k] != Newline
  {
    var i := pos;
    while i < |input| && input[i] != Newline
      invariant pos <= i <= |input|
      invariant forall k :: pos <= k < i ==> input[k] != Newline
    {
      i := i + 1;
    }
    if i < |input| {
      end, eof := i + 1, false;
    } else {
      end, eof := i, true;
    }
  }

  /**
   * One call of `bufio.ScanWords` from offset `i`: skip white space, then
   * take the token up to the next space and consume that space. The token,
   * if found, is exactly one more word; when none is left the scan is over.
   */
  method ScanWord(seg: seq<Byte>, i: nat) returns (next: nat, found: bool)
    requires i <= |seg| && (i == 0 || i == |seg| || IsSpace(seg[i - 1]))
    ensures i <= next <= |seg|
    ensures found ==> i < next && Words(seg[..next]) == Words(seg[..i]) + 1
                      && (next == |seg| || IsSpace(seg[next - 1]))
    ensures !found ==> Words(seg) == Words(seg[..i])
  {
    var j := SkipSpace(seg, i);
    if j == |seg| {
      assert seg[..j] == seg;
      return j, false;
    }
    var k := TokenEnd(seg, j);
    if k == |seg| {
      return k, true;
    }
    WordsStep(seg, k);
    return k + 1, true;
  }

  /** The first loop of `bufio.ScanWords`: skip the white space at `i`, which adds no word. */
  method SkipSpace(seg: seq<Byte>, i: nat) returns (j: nat)
    requires i <= |seg| && (i == 0 || i == |seg| || IsSpace(seg[i - 1]))
    ensures i <= j <= |seg| && Words(seg[..j]) == Words(seg[..i])
    ensures j < |seg| ==> StartsWord(seg, j)
  {
    j := i;
    while j < |seg| && IsSpace(seg[j])
      invariant i <= j <= |seg|
      invariant Words(seg[..j]) == Words(seg[..i])
      invariant j > i ==> IsSpace(seg[j - 1])
    {
      WordsStep(seg, j);
      j := j + 1;
    }
  }

  /** The second loop of `bufio.ScanWords`: a token starting at `j` runs to the next space and is one word. */
  method TokenEnd(seg: seq<Byte>, j: nat) returns (k: nat)
    requires j < |seg| && StartsWord(seg, j)
    ensures j < k <= |seg| && Words(seg[..k]) == Words(seg[..j]) + 1
    ensures k < |seg| ==> IsSpace(seg[k]) && !IsSpace(seg[k - 1])
  {
    WordsStep(seg, j);
    k := j + 1;
    while k < |seg| && !IsSpace(seg[k])
      invariant j < k <= |seg|
      invariant Words(seg[..k]) == Words(seg[..j]) + 1
      invariant !IsSpace(seg[k - 1])
    {
      WordsStep(seg, k);
      k := k + 1;
    }
  }

  /** The inner loop of `count`: scan the segment word by word and count the tokens. */
  method CountWords(seg: seq<Byte>) returns (w: nat)
    ensures w == Words(seg)
  {
    w := 0;
    var i := 0;
    while true
      invariant 0 <= i <= |seg|
      invariant w == Words(seg[..i])
      invariant i == 0 || i == |seg| || IsSpace(seg[i - 1])
      decreases |seg| - i
    {
      var next, found := ScanWord(seg, i);
      if !found {
        break;
      }
      w := w + 1;
      i := next;
    }
  }

  /**
   * `count`: the first result is the number of segments read when
   * `countLines` is set and the number of words otherwise; the second is the
   * number of bytes read when `countBytes` is set and 0 otherwise.
   */
  method Count(input: seq<Byte>, countLines: bool, countBytes: bool) returns (first: int, second: int)
    ensures first == (if countLines then Newlines(input) + 1 else Words(input))
    ensures second == (if countBytes then |input| else 0)
  {
    var lines, words, bytes := 0, 0, 0;
    var pos := 0;
    while true
      invariant 0 <= pos <= |input|
      invariant pos == 0 || input[pos - 1] == Newline
      invariant countLines ==> lines == Newlines(input[..pos])
      invariant !countLines ==> words == Words(input[..pos])
      invariant bytes == pos
      decreases |input| - pos
    {
      var end, eof := ReadSegment(input, pos);
      var line := input[pos..end];
      if countLines {
        lines := lines + 1;
        NewlinesSegment(input, pos, end);
      }
      if !countLines {
        var w := CountWords(line);
        words := words + w;
        assert input[..pos] + line == input[..end];
        WordsConcat(input[..pos], line);
      }
      bytes := bytes + |line|;
      pos := end;
      if eof {
        break;
      }
    }
    assert input[..pos] == input;
    if countLines && countBytes {
      return lines, bytes;
    } else if countLines {
      return lines, 0;
    } else if countBytes {
      return words, bytes;
    }
    return words, 0;
  }

  // ---------------------------------------------------------------------
  // Lemmas.

  /** Extending a prefix by one byte adds one word exactly when that byte starts one. */
  lemma WordsStep(s: seq<Byte>, i: nat)
    requires i < |s|
    ensures Words(s[..i + 1]) == Words(s[..i]) + (if StartsWord(s, i) then 1 else 0)
  {
    assert s[..i + 1][..i] == s[..i];
  }

  /**
   * A segment adds its own newline to the count, if it ends in one: the
   * bytes before its end hold none.
   */
  lemma {:induction false} NewlinesSegment(input: seq<Byte>, pos: nat, end: nat)
    requires pos <= end <= |input|
    requires forall k :: pos <= k < end - 1 ==> input[k] != Newline
    ensures Newlines(input[..end]) ==
            Newlines(input[..pos]) + (if pos < end && input[end - 1] == Newline then 1 else 0)
    decreases end - pos
  {
    if pos < end {
      assert input[..end][..end - 1] == input[..end - 1];
      NewlinesSegment(input, pos, end - 1);
    }
  }

  /**
   * Words never straddle a space: after text that is empty or ends in a
   * space, the words of what follows simply add on.
   */
  lemma {:induction false} WordsConcat(a: seq<Byte>, b: seq<Byte>)
    requires a == [] || IsSpace(a[|a| - 1])
    ensures Words(a + b) == Words(a) + Words(b)
    decreases |b|
  {
    if b == [] {
      assert a + b == a;
    } else {
      var n := |b| - 1;
      assert (a + b)[..|a + b| - 1] == a + b[..n];
      WordsConcat(a, b[..n]);
      assert StartsWord(a + b, |a| + n) == StartsWord(b, n);
    }
  }

  /** Text made only of white space holds no word. */
  lemma {:induction false} NoWordsInSpace(s: seq<Byte>)
    requires forall k :: 0 <= k < |s| ==> IsSpace(s[k])
    ensures Words(s) == 0
    decreases |s|
  {
    if s != [] {
      NoWordsInSpace(s[..|s| - 1]);
    }
  }

  /** A single run of non-space bytes is one word. */
  lemma {:induction false} OneRunOneWord(s: seq<Byte>)
    requires s != [] && forall k :: 0 <= k < |s| ==> !IsSpace(s[k])
    ensures Words(s) == 1
    decreases |s|
  {
    if |s| > 1 {
      OneRunOneWord(s[..|s| - 1]);
    }
  }

  /**
   * Text without a newline byte holds no newline, so it is read as a single
   * segment and, with `countLines` set, counts as one line (the empty input
   * included).
   */
  lemma {:induction false} NoNewlineOneLine(s: seq<Byte>)
    requires forall k :: 0 <= k < |s| ==> s[k] != Newline
    ensures Newlines(s) == 0
    decreases |s|
  {
    if s != [] {
      NoNewlineOneLine(s[..|s| - 1]);
    }
  }
}
