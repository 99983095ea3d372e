/**
 Character classes used by the lexer (Rust's `char` predicates) and by the
 combinator parser (nom's ASCII predicates), plus maximal-run scanning.
 */
module CharClass {

  /** Rust's `char::is_whitespace`: the Unicode White_Space property, which is
      a fixed, finite list of code points. */
  predicate IsWhitespace(c: char) {
    var n := c as int;
    || (0x09 <= n <= 0x0D)
    || n == 0x20
    || n == 0x85
    || n == 0xA0
    || n == 0x1680
    || (0x2000 <= n <= 0x200A)
    || n == 0x2028
    || n == 0x2029
    || n == 0x202F
    || n == 0x205F
    || n == 0x3000
  }

  predicate IsAsciiAlphabetic(c: char) {
    ('A' <= c <= 'Z') || ('a' <= c <= 'z')
  }

  /** Rust's `char::is_digit(10)`, which accepts exactly the ASCII digits. */
  predicate IsDecimalDigit(c: char) {
    '0' <= c <= '9'
  }

  /** nom's `AsChar::is_alphanum`: ASCII letters and digits only. */
  predicate IsAsciiAlphanumeric(c: char) {
    IsAsciiAlphabetic(c) || IsDecimalDigit(c)
  }

  /** Rust's `char::is_alphabetic`, restricted to its ASCII part. */
  predicate IsAlphabetic(c: char) {
    IsAsciiAlphabetic(c)
  }

  /** Rust's `char::is_alphanumeric`, restricted to its ASCII part. */
  predicate IsAlphanumeric(c: char) {
    IsAsciiAlphanumeric(c)
  }

  /** nom's `multispace0` accepts space, tab, carriage return and line feed. */
  predicate IsMultispace(c: char) {
    c == ' ' || c == '\t' || c == '\r' || c == '\n'
  }

  /** Rust's `char::to_ascii_lowercase`: only 'A'..'Z' change. */
  function ToAsciiLowercase(c: char): char {
    if 'A' <= c <= 'Z' then (c as int + 32) as char else c
  }

  /** Rust's `str::eq_ignore_ascii_case`. */
  predicate EqIgnoreAsciiCase(a: string, b: string) {
    && |a| == |b|
    && forall i :: 0 <= i < |a| ==> ToAsciiLowercase(a[i]) == ToAsciiLowercase(b[i])
  }

  /** The character classes that are scanned as runs. */
  datatype Class =
    | Alphanumeric        // the lexer's identifier continuation, `char::is_alphanumeric`
    | DecimalDigit        // the lexer's literal continuation, `char::is_digit(10)`
    | AsciiAlphanumeric   // nom's `alphanumeric1`
    | Multispace          // nom's `multispace0`

  predicate InClass(k: Class, c: char) {
    match k
    case Alphanumeric => IsAlphanumeric(c)
    case DecimalDigit => IsDecimalDigit(c)
    case AsciiAlphanumeric => IsAsciiAlphanumeric(c)
    case Multispace => IsMultispace(c)
  }

  /** Every character of `s` is in class `k`. */
  predicate All(k: Class, s: string) {
    forall i :: 0 <= i < |s| ==> InClass(k, s[i])
  }

  /** `input` splits into `run` followed by `rest`, where `run` is the longest
      prefix of class `k` (so `rest` does not start with a character of `k`). */
  predicate MaximalRun(k: Class, input: string, run: string, rest: string) {
    && input == run + rest
    && All(k, run)
    && (rest == [] || !InClass(k, rest[0]))
  }

  /** Length of the longest prefix of `s` whose characters are all in class `k`. */
  function Span(k: Class, s: string): (n: nat)
    ensures n <= |s|
    ensures All(k, s[..n])
    ensures n == |s| || !InClass(k, s[n])
    decreases |s|
  {
    if |s| == 0 || !InClass(k, s[0]) then 0 else 1 + Span(k, s[1..])
  }

  /** Splitting at `Span` yields the maximal run. */
  lemma SpanIsMaximalRun(k: Class, s: string)
    ensures MaximalRun(k, s, s[..Span(k, s)], s[Span(k, s)..])
  {
    var n := Span(k, s);
    assert s == s[..n] + s[n..];
  }

  /** A maximal run is unique: it is the one `Span` finds. */
  lemma {:induction false} MaximalRunIsSpan(k: Class, input: string, run: string, rest: string)
    requires MaximalRun(k, input, run, rest)
    ensures Span(k, input) == |run|
    decreases |input|
  {
    if run == [] {
    } else {
      assert input[0] == run[0];
      assert input[1..] == run[1..] + rest;
      MaximalRunIsSpan(k, input[1..], run[1..], rest);
    }
  }
}
