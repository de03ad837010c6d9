/**
 * The error layer of the CI pipeline runner: the `stepErr` record, its
 * `Error`, `Is` and `Unwrap` methods, the package's sentinel errors, and the
 * parts of Go's `fmt` and `errors` packages it relies on (`%q` quoting and the
 * `errors.Is` walk along the `Unwrap` chain).
 */
module GociErrors {
  import opened Wrappers

  /**
   * A non-nil Go `error` as the runner produces and inspects them: either a
   * `*stepErr`, or any other error, which the runner only ever renders or
   * compares (a sentinel made by `errors.New`, `context.DeadlineExceeded`,
   * the error of a failed process).
   */
  datatype Error =
    | Plain(text: string)
    | Step(err: StepErr)

  /** `stepErr`: the step that failed, why it failed, and the underlying cause (possibly nil). */
  datatype StepErr = StepErr(step: string, msg: string, cause: Option<Error>)
  {
    /** `(*stepErr).Error`: `Step: %q: %s: Cause: %v ` over step, msg and cause. */
    function Error(): (m: string)
      ensures StepNamed(m) == Some(step)
      ensures |m| >= 7 && m[..7] == "Step: \""
      ensures ReadQuoted(m[7..]) == Some((step, ": " + msg + ": Cause: " + Verb(cause) + " "))
      ensures m[|m| - 1] == ' '
    {
      var rest := ": " + msg + ": Cause: " + Verb(cause) + " ";
      StepNamedReadsBack(step, rest);
      "Step: " + Quote(step) + rest
    }

    /**
     * `(*stepErr).Is`: matches any `*stepErr` of the same step, whatever its
     * msg and cause; that is, exactly the step errors whose message names
     * this step.
     */
    predicate Is(target: Error)
      ensures Is(target) <==> target.Step? && StepNamed(Message(target)) == Some(step)
    {
      match target
      case Step(t) => t.step == step
      case Plain(_) => false
    }

    /**
     * `(*stepErr).Unwrap`: the cause, for `errors.Is` and `errors.As` to look
     * into; it is the next link of the chain they walk, or nil at its end.
     */
    function Unwrap(): (c: Option<Error>)
      ensures c.None? ==> Chain(Step(this)) == [Step(this)]
      ensures c.Some? ==> Chain(Step(this)) == [Step(this)] + Chain(c.value)
    {
      cause
    }
  }

  /** `ErrValidation`: the sentinel for a malformed pipeline. */
  const ErrValidation: Error := Plain("Validation failed")

  /** `ErrSignal`: the sentinel for a run cut short by an operating-system signal. */
  const ErrSignal: Error := Plain("Recive signal")

  /** `context.DeadlineExceeded`, the error a context reports once its deadline has passed. */
  const DeadlineExceeded: Error := Plain("context deadline exceeded")

  /** `err.Error()`. */
  function Message(e: Error): string {
    match e
    case Plain(t) => t
    case Step(s) => s.Error()
  }

  /** The `%v` verb applied to a possibly nil error. */
  function Verb(e: Option<Error>): string {
    match e
    case None => "<nil>"
    case Some(err) => Message(err)
  }

  /** The ErrValidation and ErrSignal sentinels are two different errors. */
  lemma SentinelsDistinct()
    ensures ErrValidation != ErrSignal
    ensures Message(ErrValidation) == "Validation failed" && Message(ErrSignal) == "Recive signal"
    ensures ErrSignal != DeadlineExceeded && ErrValidation != DeadlineExceeded
  {
  }

  // ---------------------------------------------------------------------
  // `Is` compares step names only.

  /** `Is` ignores msg and cause: any record of the same step matches. */
  lemma IsIgnoresMsgAndCause(s: StepErr, msg: string, cause: Option<Error>)
    ensures s.Is(Step(StepErr(s.step, msg, cause)))
  {
  }

  /** `Is` never matches an error that is not a `*stepErr`, such as ErrSignal. */
  lemma IsRejectsOtherErrors(s: StepErr, text: string)
    ensures !s.Is(Plain(text))
    ensures !s.Is(ErrSignal) && !s.Is(ErrValidation) && !s.Is(DeadlineExceeded)
  {
  }

  /** On `*stepErr` values `Is` is an equivalence: reflexive, symmetric and transitive. */
  lemma IsEquivalence(a: StepErr, b: StepErr, c: StepErr)
    ensures a.Is(Step(a))
    ensures a.Is(Step(b)) <==> b.Is(Step(a))
    ensures a.Is(Step(b)) && b.Is(Step(c)) ==> a.Is(Step(c))
    ensures a.Is(Step(b)) <==> a.step == b.step
  {
  }

  // ---------------------------------------------------------------------
  // `errors.Is` and the Unwrap chain.

  /**
   * `errors.Is(err, target)`: `err` equals `target`, or its `Is` method says
   * so, or the same holds of what `Unwrap` returns, and so on down the chain.
   */
  predicate ErrorsIs(err: Error, target: Error) {
    err == target
    || match err
       case Plain(_) => false
       case Step(s) => s.Is(target) || (s.Unwrap().Some? && ErrorsIs(s.Unwrap().value, target))
  }

  /** The errors `errors.Is` visits: `err`, then what each `Unwrap` returns, until nil. */
  function Chain(err: Error): (c: seq<Error>)
    ensures |c| >= 1 && c[0] == err
  {
    match err
    case Plain(_) => [err]
    case Step(s) => if s.cause.Some? then [err] + Chain(s.cause.value) else [err]
  }

  /** One link of the chain answers the `errors.Is` question by itself. */
  predicate Matches(link: Error, target: Error) {
    link == target || (link.Step? && link.err.Is(target))
  }

  /**
   * `errors.Is` is exactly "some error on the Unwrap chain equals the target
   * or claims it through its `Is` method".
   */
  lemma ErrorsIsChain(err: Error, target: Error)
    ensures ErrorsIs(err, target) <==> exists k :: 0 <= k < |Chain(err)| && Matches(Chain(err)[k], target)
  {
    if ErrorsIs(err, target) {
      var k := MatchOnChain(err, target);
    }
    if k :| 0 <= k < |Chain(err)| && Matches(Chain(err)[k], target) {
      MatchFound(err, target, k);
    }
  }

  /** When `errors.Is` holds, some link of the chain matches: its position. */
  lemma {:induction false} MatchOnChain(err: Error, target: Error) returns (k: nat)
    requires ErrorsIs(err, target)
    ensures k < |Chain(err)| && Matches(Chain(err)[k], target)
  {
    if Matches(err, target) {
      k := 0;
    } else {
      var inner := err.err.Unwrap().value;
      var j := MatchOnChain(inner, target);
      k := j + 1;
      assert Chain(err)[k] == Chain(inner)[j];
    }
  }

  /** A matching link anywhere on the chain makes `errors.Is` hold. */
  lemma {:induction false} MatchFound(err: Error, target: Error, k: nat)
    requires k < |Chain(err)| && Matches(Chain(err)[k], target)
    ensures ErrorsIs(err, target)
    decreases k
  {
    if k > 0 {
      var inner := err.err.Unwrap().value;
      assert Chain(err)[k] == Chain(inner)[k - 1];
      MatchFound(inner, target, k - 1);
    }
  }

  /** What `Unwrap` exposes is looked into: whatever the cause is, the step error is too. */
  lemma UnwrapExposesCause(s: StepErr, target: Error)
    requires s.cause.Some? && ErrorsIs(s.cause.value, target)
    ensures ErrorsIs(Step(s), target)
  {
  }

  // ---------------------------------------------------------------------
  // The `%q` verb and reading a quoted string back.

  /** A hexadecimal digit in the lower-case form `%q` writes. */
  function HexDigit(d: nat): (c: char)
    requires d < 16
    ensures HexValue(c) == Some(d)
  {
    if d < 10 then (('0' as int) + d) as char else (('a' as int) + d - 10) as char
  }

  function HexValue(c: char): Option<nat> {
    if '0' <= c <= '9' then Some(c as int - '0' as int)
    else if 'a' <= c <= 'f' then Some(c as int - 'a' as int + 10)
    else None
  }

  /** The control characters `%q` writes as `\xNN`. */
  predicate IsHexEscaped(c: char) {
    (c as int < 0x20 || c as int == 0x7F)
    && c as int !in {7, 8, 9, 10, 11, 12, 13}
  }

  /** How `%q` writes one character inside the quotes. */
  function Escape(c: char): (e: string)
    ensures e != [] && e[0] != '"' && (e[0] == '\\' <==> |e| > 1)
  {
    if c == '"' then "\\\""
    else if c == '\\' then "\\\\"
    else if c as int == 7 then "\\a"
    else if c as int == 8 then "\\b"
    else if c as int == 12 then "\\f"
    else if c == '\n' then "\\n"
    else if c == '\r' then "\\r"
    else if c == '\t' then "\\t"
    else if c as int == 11 then "\\v"
    else if IsHexEscaped(c) then "\\x" + [HexDigit(c as int / 16), HexDigit(c as int % 16)]
    else [c]
  }

  /** The characters of `s` as `%q` writes them between the quotes. */
  function QuoteBody(s: string): string {
    if s == [] then [] else Escape(s[0]) + QuoteBody(s[1..])
  }

  /** `fmt.Sprintf("%q", s)`, that is `strconv.Quote(s)`. */
  function Quote(s: string): string {
    "\"" + QuoteBody(s) + "\""
  }

  /** The character an escape sequence `\` + `e...` stands for, and how many characters after the backslash it used. */
  function Unescape(e: string): Option<(char, nat)> {
    if e == [] then None
    else if e[0] == '"' then Some(('"', 1))
    else if e[0] == '\\' then Some(('\\', 1))
    else if e[0] == 'a' then Some((7 as char, 1))
    else if e[0] == 'b' then Some((8 as char, 1))
    else if e[0] == 'f' then Some((12 as char, 1))
    else if e[0] == 'n' then Some(('\n', 1))
    else if e[0] == 'r' then Some(('\r', 1))
    else if e[0] == 't' then Some(('\t', 1))
    else if e[0] == 'v' then Some((11 as char, 1))
    else if e[0] == 'x' && |e| >= 3 && HexValue(e[1]).Some? && HexValue(e[2]).Some? then
      Some(((HexValue(e[1]).value * 16 + HexValue(e[2]).value) as char, 3))
    else None
  }

  /**
   * Reads the inside of a quoted string up to its closing quote: the decoded
   * text and what follows the closing quote, or None if `s` is not well formed.
   */
  function ReadQuoted(s: string): Option<(string, string)>
    decreases |s|
  {
    if s == [] then None
    else if s[0] == '"' then Some(([], s[1..]))
    else if s[0] == '\\' then
      match Unescape(s[1..])
      case None => None
      case Some((c, used)) =>
        if 1 + used <= |s| then
          match ReadQuoted(s[1 + used..])
          case None => None
          case Some((t, rest)) => Some(([c] + t, rest))
        else None
    else
      match ReadQuoted(s[1..])
      case None => None
      case Some((t, rest)) => Some(([s[0]] + t, rest))
  }

  /** Reading back one escaped character gives the character. */
  lemma UnescapeEscape(c: char, rest: string)
    requires |Escape(c)| > 1
    ensures var e := Escape(c);
            Unescape(e[1..] + rest) == Some((c, |e| - 1))
  {
    var e := Escape(c);
    if IsHexEscaped(c) {
      var hi, lo := c as int / 16, c as int % 16;
      assert hi * 16 + lo == c as int;
      assert e == "\\x" + [HexDigit(hi), HexDigit(lo)];
      var t := e[1..] + rest;
      assert t[0] == 'x' && t[1] == HexDigit(hi) && t[2] == HexDigit(lo);
      assert HexValue(t[1]) == Some(hi) && HexValue(t[2]) == Some(lo);
    }
  }

  /** Reading one escaped character, then the rest of a quoted string. */
  lemma ReadQuotedEscape(c: char, tail: string)
    requires ReadQuoted(tail).Some?
    ensures ReadQuoted(Escape(c) + tail)
            == Some(([c] + ReadQuoted(tail).value.0, ReadQuoted(tail).value.1))
  {
    var e := Escape(c);
    var t := e + tail;
    if |e| > 1 {
      assert t[0] == '\\';
      assert t[1..] == e[1..] + tail;
      UnescapeEscape(c, tail);
      assert t[1 + (|e| - 1)..] == tail;
    } else {
      assert e == [c];
      assert t[0] == c && t[1..] == tail;
    }
  }

  /** Whatever follows a quoted string, reading it back gives the original text and that remainder. */
  lemma {:induction false} QuoteBodyReadBack(s: string, rest: string)
    ensures ReadQuoted(QuoteBody(s) + "\"" + rest) == Some((s, rest))
    decreases |s|
  {
    var t := QuoteBody(s) + "\"" + rest;
    if s == [] {
      assert t == "\"" + rest;
      assert t[1..] == rest;
    } else {
      var tail := QuoteBody(s[1..]) + "\"" + rest;
      assert QuoteBody(s) == Escape(s[0]) + QuoteBody(s[1..]);
      assert t == Escape(s[0]) + tail;
      QuoteBodyReadBack(s[1..], rest);
      ReadQuotedEscape(s[0], tail);
      assert [s[0]] + s[1..] == s;
    }
  }

  /** `%q` loses nothing: the quoted text, followed by anything, reads back as the text. */
  lemma QuoteReadBack(s: string, rest: string)
    ensures var q := Quote(s) + rest; q[0] == '"' && ReadQuoted(q[1..]) == Some((s, rest))
  {
    var q := Quote(s) + rest;
    assert q[1..] == QuoteBody(s) + "\"" + rest;
    QuoteBodyReadBack(s, rest);
  }

  /** The step a rendered step error names, read back from the message. */
  function StepNamed(m: string): Option<string> {
    var prefix := "Step: ";
    if |m| > |prefix| && m[..|prefix|] == prefix && m[|prefix|] == '"' then
      match ReadQuoted(m[|prefix| + 1..])
      case None => None
      case Some((step, _)) => Some(step)
    else None
  }

  /** A message laid out as `Step: %q...` names the quoted step, whatever follows it. */
  lemma StepNamedReadsBack(step: string, rest: string)
    ensures var m := "Step: " + Quote(step) + rest;
            && StepNamed(m) == Some(step)
            && |m| >= 7 && m[..7] == "Step: \""
            && ReadQuoted(m[7..]) == Some((step, rest))
  {
    var m := "Step: " + Quote(step) + rest;
    QuoteReadBack(step, rest);
    assert m[..6] == "Step: ";
    assert m[6..] == Quote(step) + rest;
    assert m[7..] == (Quote(step) + rest)[1..];
  }
}
