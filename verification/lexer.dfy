/**
 The character-by-character tokenizer. The lexer's state is the input not yet
 consumed; one step reads one token from its front.
 */
module Lexer {
  import opened CharClass
  import opened Parser

  /** One step of the lexer: the token produced and the input left after it. */
  datatype Step = Step(token: Token, rest: string)

  /** The word branch of `next_token`: a letter followed by the longest run of
      letters and digits, a keyword exactly when it is `SELECT` in any letter case. */
  function ScanWord(input: string): (r: Step)
    requires input != [] && IsAlphabetic(input[0])
    ensures r.token.Keyword? || r.token.Identifier?
    ensures MaximalRun(Alphanumeric, input, r.token.text, r.rest)
    ensures r.token.Keyword? <==> EqIgnoreAsciiCase(r.token.text, "SELECT")
    ensures |r.rest| < |input| && r.rest == input[|input| - |r.rest|..]
  {
    var n := 1 + Span(Alphanumeric, input[1..]);
    var word := input[..n];
    assert input[1..][..n - 1] == word[1..];
    assert input == word + input[n..];
    if EqIgnoreAsciiCase(word, "SELECT") then Step(Keyword(word), input[n..])
    else Step(Token.Identifier(word), input[n..])
  }

  /** The literal branch of `next_token`: the longest run of decimal digits. */
  function ScanLiteral(input: string): (r: Step)
    requires input != [] && IsDecimalDigit(input[0])
    ensures r.token.Literal?
    ensures MaximalRun(DecimalDigit, input, r.token.text, r.rest)
    ensures |r.rest| < |input| && r.rest == input[|input| - |r.rest|..]
  {
    var n := 1 + Span(DecimalDigit, input[1..]);
    var digits := input[..n];
    assert input[1..][..n - 1] == digits[1..];
    assert input == digits + input[n..];
    Step(Literal(digits), input[n..])
  }

  /** `Lexer::next_token`, trying the source's cases in order: whitespace, `,`,
      `(`, `)`, a letter, a digit, anything else. The source wraps the result in
      `Some` on every path, including end of input, where it yields `Eof` and
      consumes nothing. Every other step consumes a non-empty prefix. */
  function NextToken(input: string): (r: Step)
    ensures r.token == Eof <==> input == []
    ensures input == [] ==> r.rest == []
    ensures r.token != Eof ==> |r.rest| < |input| && r.rest == input[|input| - |r.rest|..]
    ensures input != [] && IsWhitespace(input[0]) ==> r == Step(Whitespace, input[1..])
    ensures input != [] && input[0] == ',' ==> r == Step(Comma, input[1..])
    ensures input != [] && input[0] == '(' ==> r == Step(LeftParenthesis, input[1..])
    ensures input != [] && input[0] == ')' ==> r == Step(RightParenthesis, input[1..])
    ensures input != [] && IsAlphabetic(input[0]) ==>
              && (r.token.Keyword? || r.token.Identifier?)
              && MaximalRun(Alphanumeric, input, r.token.text, r.rest)
              && (r.token.Keyword? <==> EqIgnoreAsciiCase(r.token.text, "SELECT"))
    ensures input != [] && IsDecimalDigit(input[0]) ==>
              && r.token.Literal?
              && MaximalRun(DecimalDigit, input, r.token.text, r.rest)
    ensures input != [] && !IsWhitespace(input[0]) && input[0] !in {',', '(', ')'}
            && !IsAlphabetic(input[0]) && !IsDecimalDigit(input[0]) ==>
              r == Step(Operator(input[0]), input[1..])
  {
    if input == [] then Step(Eof, [])
    else
      var c := input[0];
      if IsWhitespace(c) then Step(Whitespace, input[1..])
      else if c == ',' then Step(Comma, input[1..])
      else if c == '(' then Step(LeftParenthesis, input[1..])
      else if c == ')' then Step(RightParenthesis, input[1..])
      else if IsAlphabetic(c) then ScanWord(input)
      else if IsDecimalDigit(c) then ScanLiteral(input)
      else Step(Operator(c), input[1..])
  }

  /** `Lexer::lex`, stopping after the first `Eof`. The source's loop asks for
      tokens until `next_token` returns `None`, which never happens, so it does
      not terminate; this model returns the tokens up to and including `Eof`. */
  function Lex(input: string): (tokens: seq<Token>)
    ensures |tokens| >= 1 && tokens[|tokens| - 1] == Eof
    ensures Eof !in tokens[..|tokens| - 1]
    ensures |tokens| <= |input| + 1
    decreases |input|
  {
    var step := NextToken(input);
    if step.token == Eof then [Eof]
    else
      var rest := Lex(step.rest);
      assert ([step.token] + rest)[..|rest|] == [step.token] + rest[..|rest| - 1];
      [step.token] + rest
  }

  /** At end of input a step yields `Eof` and leaves the state as it was, which
      is why the source's `lex` loop never exits. */
  lemma EndOfInputIsFixpoint()
    ensures NextToken([]) == Step(Eof, [])
  {
  }

  /** Every keyword the lexer produces is `SELECT`, in some letter case. */
  lemma {:induction false} LexKeywordsAreSelect(input: string)
    ensures forall t | t in Lex(input) :: t.Keyword? ==> EqIgnoreAsciiCase(t.text, "SELECT")
    decreases |input|
  {
    var step := NextToken(input);
    if step.token != Eof {
      LexKeywordsAreSelect(step.rest);
      LexStep(input, step.token, step.rest);
    }
  }

  /** The lexer never produces `Keyword("FROM")`, in any letter case. */
  lemma NoFromKeyword(input: string, i: nat)
    requires i < |Lex(input)|
    ensures Lex(input)[i] != Keyword("FROM")
  {
    LexKeywordsAreSelect(input);
    assert Lex(input)[i] in Lex(input);
  }

  /** A maximal letter-and-digit word is one token: the keyword when it spells
      `SELECT` in any letter case, an identifier otherwise, with its case kept. */
  lemma WordStep(word: string, rest: string)
    requires word != [] && IsAlphabetic(word[0]) && All(Alphanumeric, word)
    requires rest == [] || !IsAlphanumeric(rest[0])
    ensures EqIgnoreAsciiCase(word, "SELECT") ==> NextToken(word + rest) == Step(Keyword(word), rest)
    ensures !EqIgnoreAsciiCase(word, "SELECT") ==> NextToken(word + rest) == Step(Token.Identifier(word), rest)
  {
    var r := NextToken(word + rest);
    assert (word + rest)[0] == word[0];
    MaximalRunIsSpan(Alphanumeric, word + rest, word, rest);
    MaximalRunIsSpan(Alphanumeric, word + rest, r.token.text, r.rest);
    assert r.token.text == (word + rest)[..|word|] == word;
  }

  /** `FROM` is lexed as a plain identifier, never as a keyword. */
  lemma FromIsIdentifier(rest: string)
    requires rest == [] || !IsAlphanumeric(rest[0])
    ensures NextToken("FROM" + rest) == Step(Token.Identifier("FROM"), rest)
  {
    WordStep("FROM", rest);
  }

  /** `Lex` emits a non-`Eof` step's token, then lexes what the step left. */
  lemma LexStep(input: string, t: Token, rest: string)
    requires NextToken(input) == Step(t, rest) && t != Eof
    ensures Lex(input) == [t] + Lex(rest)
  {
  }

  /** A leading whitespace character lexes to one `Whitespace` token. */
  lemma WhitespaceStep(c: char, rest: string)
    requires IsWhitespace(c)
    ensures Lex([c] + rest) == [Whitespace] + Lex(rest)
  {
    assert ([c] + rest)[1..] == rest;
    LexStep([c] + rest, Whitespace, rest);
  }

  /** `n` whitespace tokens. */
  function Whitespaces(n: nat): (ts: seq<Token>)
    ensures |ts| == n && forall i :: 0 <= i < n ==> ts[i] == Whitespace
  {
    if n == 0 then [] else [Whitespace] + Whitespaces(n - 1)
  }

  /** Prepending one `Whitespace` token to a run of `n` of them. */
  lemma WhitespacesCons(ts: seq<Token>, tail: seq<Token>, rest: seq<Token>, n: nat)
    requires ts == [Whitespace] + tail
    requires tail == Whitespaces(n) + rest
    ensures ts == Whitespaces(n + 1) + rest
  {
    assert [Whitespace] + (Whitespaces(n) + rest) == ([Whitespace] + Whitespaces(n)) + rest;
  }

  /** Each whitespace character becomes its own `Whitespace` token: runs of
      whitespace are not merged. */
  lemma {:induction false} WhitespaceIsNotMerged(spaces: string, rest: string)
    requires forall i :: 0 <= i < |spaces| ==> IsWhitespace(spaces[i])
    ensures Lex(spaces + rest) == Whitespaces(|spaces|) + Lex(rest)
    decreases |spaces|
  {
    if spaces == [] {
      assert spaces + rest == rest;
      assert Whitespaces(0) + Lex(rest) == Lex(rest);
    } else {
      var tail := spaces[1..] + rest;
      assert spaces + rest == [spaces[0]] + tail;
      WhitespaceStep(spaces[0], tail);
      assert |spaces[1..]| == |spaces| - 1;
      WhitespaceIsNotMerged(spaces[1..], rest);
      WhitespacesCons(Lex(spaces + rest), Lex(tail), Lex(rest), |spaces| - 1);
      assert |spaces| - 1 + 1 == |spaces|;
    }
  }

  /** A maximal word other than `SELECT` lexes to one identifier. */
  lemma IdentifierStep(word: string, rest: string)
    requires word != [] && IsAlphabetic(word[0]) && All(Alphanumeric, word)
    requires rest == [] || !IsAlphanumeric(rest[0])
    requires !EqIgnoreAsciiCase(word, "SELECT")
    ensures Lex(word + rest) == [Token.Identifier(word)] + Lex(rest)
  {
    WordStep(word, rest);
    LexStep(word + rest, Token.Identifier(word), rest);
  }

  /** A space lexes to one `Whitespace` token. */
  lemma SpaceStep(rest: string)
    ensures Lex(" " + rest) == [Whitespace] + Lex(rest)
  {
    assert " " + rest == [' '] + rest;
    WhitespaceStep(' ', rest);
  }

  /** `SELECT`, in this spelling, lexes to the keyword token. */
  lemma SelectStep(rest: string)
    requires rest == [] || !IsAlphanumeric(rest[0])
    ensures Lex("SELECT" + rest) == [Keyword("SELECT")] + Lex(rest)
  {
    WordStep("SELECT", rest);
    LexStep("SELECT" + rest, Keyword("SELECT"), rest);
  }

  /** `FROM` lexes to an identifier token. */
  lemma FromStep(rest: string)
    requires rest == [] || !IsAlphanumeric(rest[0])
    ensures Lex("FROM" + rest) == [Token.Identifier("FROM")] + Lex(rest)
  {
    FromIsIdentifier(rest);
    LexStep("FROM" + rest, Token.Identifier("FROM"), rest);
  }

  /** Lexing `SELECT a ` followed by any text. */
  lemma LexExampleHead(rest: string)
    ensures Lex("SELECT" + (" " + ("a" + (" " + rest))))
            == [Keyword("SELECT")] + ([Whitespace] + ([Token.Identifier("a")] + ([Whitespace] + Lex(rest))))
  {
    var i3 := " " + rest;
    var i2 := "a" + i3;
    var i1 := " " + i2;
    SpaceStep(rest);
    assert i3[0] == ' ';
    IdentifierStep("a", i3);
    SpaceStep(i2);
    assert i1[0] == ' ';
    SelectStep(i1);
  }

  /** Lexing `FROM t` to the end of the input. */
  lemma LexExampleTail()
    ensures Lex("FROM" + (" " + ("t" + [])))
            == [Token.Identifier("FROM")] + ([Whitespace] + ([Token.Identifier("t")] + [Eof]))
  {
    var i2: string := "t" + [];
    var i1 := " " + i2;
    assert Lex([]) == [Eof];
    IdentifierStep("t", []);
    SpaceStep(i2);
    assert i1[0] == ' ';
    FromStep(i1);
  }

  /** The example query, spelled as the concatenation the step lemmas use. */
  lemma ExampleText()
    ensures "SELECT" + (" " + ("a" + (" " + ("FROM" + (" " + ("t" + [])))))) == "SELECT a FROM t"
  {
  }

  /** The example token list, spelled as the concatenation the step lemmas produce. */
  lemma ExampleTokens()
    ensures [Keyword("SELECT")] + ([Whitespace] + ([Token.Identifier("a")] + ([Whitespace] +
              ([Token.Identifier("FROM")] + ([Whitespace] + ([Token.Identifier("t")] + [Eof]))))))
            == [Keyword("SELECT"), Whitespace, Token.Identifier("a"), Whitespace,
                Token.Identifier("FROM"), Whitespace, Token.Identifier("t"), Eof]
  {
  }

  /** Tokenizing `SELECT a FROM t`: whitespace is kept, one token per character,
      and `FROM` surfaces as an identifier. */
  lemma LexSelectExample()
    ensures Lex("SELECT a FROM t")
            == [Keyword("SELECT"), Whitespace, Token.Identifier("a"), Whitespace,
                Token.Identifier("FROM"), Whitespace, Token.Identifier("t"), Eof]
  {
    LexExampleHead("FROM" + (" " + ("t" + [])));
    LexExampleTail();
    ExampleText();
    ExampleTokens();
  }
}
