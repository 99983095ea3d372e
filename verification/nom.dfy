/**
 The three nom combinators the text parser relies on, over complete
 (non-streaming) `&str` input. Each returns the remaining input first and the
 recognised text second, as nom's `IResult` does.
 */
module Nom {
  import opened Wrappers
  import opened CharClass

  /** nom's `ErrorKind::Tag` and `ErrorKind::AlphaNumeric`, the only kinds these combinators raise. */
  datatype ErrorKind = ExpectedTag | ExpectedAlphaNumeric

  /** nom's `error::Error`: the input at the failure point and the kind. */
  datatype Error = Error(input: string, code: ErrorKind)

  /** `tag(t)`: recognises the literal `t` at the start of the input, case-sensitively. */
  function Tag(t: string, input: string): (r: Result<(string, string), Error>)
    ensures r.Success? <==> t <= input
    ensures r.Success? ==> r.value.1 == t && input == t + r.value.0
    ensures r.Failure? ==> r.error == Error(input, ExpectedTag)
  {
    if |t| <= |input| && input[..|t|] == t then
      assert input == t + input[|t|..];
      Success((input[|t|..], t))
    else
      Failure(Error(input, ExpectedTag))
  }

  /** `multispace0`: recognises the longest, possibly empty, prefix of spaces,
      tabs, carriage returns and line feeds; it never fails. */
  function Multispace0(input: string): (r: Result<(string, string), Error>)
    ensures r.Success?
    ensures MaximalRun(Multispace, input, r.value.1, r.value.0)
  {
    var n := Span(Multispace, input);
    SpanIsMaximalRun(Multispace, input);
    Success((input[n..], input[..n]))
  }

  /** `alphanumeric1`: recognises the longest non-empty prefix of ASCII letters
      and digits; fails when the input does not start with one. */
  function Alphanumeric1(input: string): (r: Result<(string, string), Error>)
    ensures r.Success? <==> |input| > 0 && IsAsciiAlphanumeric(input[0])
    ensures r.Success? ==> |r.value.1| > 0 && MaximalRun(AsciiAlphanumeric, input, r.value.1, r.value.0)
    ensures r.Failure? ==> r.error == Error(input, ExpectedAlphaNumeric)
  {
    var n := Span(AsciiAlphanumeric, input);
    SpanIsMaximalRun(AsciiAlphanumeric, input);
    if n == 0 then Failure(Error(input, ExpectedAlphaNumeric)) else Success((input[n..], input[..n]))
  }
}
