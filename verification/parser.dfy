/**
 Tokens, the abstract syntax tree, and the two SELECT parsers: a recursive-descent
 parser over a token vector, and a combinator parser over the raw text.
 */
module Parser {
  import opened Wrappers
  import opened CharClass
  import Nom
  import Query

  datatype Token =
    | Keyword(text: string)
    | Identifier(text: string)
    | Literal(text: string)
    | Operator(op: char)
    | Whitespace
    | Comma
    | LeftParenthesis
    | RightParenthesis
    | Eof

  datatype ASTNode =
    | SelectStatement(projection: seq<Query.Identifier>, table: Query.Identifier)
    | Identifier(name: string)

  // ---------------------------------------------------------------------------
  // Token-stream parser
  // ---------------------------------------------------------------------------

  /** The token parser's state: the token vector and the index of the next token. */
  datatype Parser = Parser(tokens: seq<Token>, current: nat)

  /** `Parser::new` starts at the first token. */
  function New(tokens: seq<Token>): (p: Parser)
    ensures p.tokens == tokens && p.current == 0
  {
    Parser(tokens, 0)
  }

  /** The token at index `i`, or `Eof` at or past the end of the vector. */
  function TokenAt(tokens: seq<Token>, i: nat): Token {
    if i < |tokens| then tokens[i] else Eof
  }

  /** `Parser::next_token`: yields the current token (`Eof` past the end) and
      always advances by one. */
  function NextToken(p: Parser): (r: (Token, Parser))
    ensures r.1.tokens == p.tokens && r.1.current == p.current + 1
    ensures p.current < |p.tokens| ==> r.0 == p.tokens[p.current]
    ensures |p.tokens| <= p.current ==> r.0 == Eof
  {
    (TokenAt(p.tokens, p.current), p.(current := p.current + 1))
  }

  /** The projection loop keeps going on identifiers and commas. */
  predicate IsProjectionItem(t: Token) {
    t.Identifier? || t.Comma?
  }

  /** Index of the first token at or after `from` that ends the projection loop:
      the first one that is neither an identifier nor a comma, or the end of the vector. */
  function ProjectionEnd(tokens: seq<Token>, from: nat): (j: nat)
    ensures from <= j
    ensures from <= |tokens| ==> j <= |tokens|
    ensures forall k :: from <= k < j ==> k < |tokens| && IsProjectionItem(tokens[k])
    ensures j < |tokens| ==> !IsProjectionItem(tokens[j])
    decreases |tokens| - from
  {
    if from < |tokens| && IsProjectionItem(tokens[from]) then ProjectionEnd(tokens, from + 1) else from
  }

  /** The identifier tokens of `ts`, in order, as identifiers. */
  function IdentifiersOf(ts: seq<Token>): seq<Query.Identifier> {
    if ts == [] then []
    else if ts[0].Identifier? then [Query.Identifier(ts[0].text)] + IdentifiersOf(ts[1..])
    else IdentifiersOf(ts[1..])
  }

  /** The loop of `parse_select_statement`: pushes identifiers onto `acc`, skips
      commas, and stops after consuming the first other token. */
  function ParseProjection(p: Parser, acc: seq<Query.Identifier>): (r: (seq<Query.Identifier>, Parser))
    ensures r.1.tokens == p.tokens
    ensures r.1.current == ProjectionEnd(p.tokens, p.current) + 1
    ensures p.current <= |p.tokens| ==>
              r.0 == acc + IdentifiersOf(p.tokens[p.current..ProjectionEnd(p.tokens, p.current)])
    ensures |p.tokens| < p.current ==> r.0 == acc
    decreases |p.tokens| - p.current
  {
    var (t, next) := NextToken(p);
    match t
    case Identifier(name) =>
      var r := ParseProjection(next, acc + [Query.Identifier(name)]);
      var j := ProjectionEnd(p.tokens, p.current);
      assert p.tokens[p.current..j][0] == t;
      assert p.tokens[p.current..j][1..] == p.tokens[p.current + 1..j];
      assert IdentifiersOf(p.tokens[p.current..j])
             == [Query.Identifier(name)] + IdentifiersOf(p.tokens[p.current + 1..j]);
      assert acc + [Query.Identifier(name)] + IdentifiersOf(p.tokens[p.current + 1..j])
             == acc + IdentifiersOf(p.tokens[p.current..j]);
      r
    case Comma =>
      var r := ParseProjection(next, acc);
      var j := ProjectionEnd(p.tokens, p.current);
      assert p.tokens[p.current..j][0] == t;
      assert p.tokens[p.current..j][1..] == p.tokens[p.current + 1..j];
      r
    case _ =>
      assert p.current <= |p.tokens| ==> p.tokens[p.current..p.current] == [];
      (acc, next)
  }

  /** Why `parse_select_statement` panicked, with the token it found instead. */
  datatype TokenParseError =
    | ExpectedSelect(found: Token)
    | ExpectedFrom(found: Token)
    | ExpectedTableName(found: Token)

  /** The end of `parse_select_statement`: the next token must be `Keyword("FROM")`
      and the one after it an identifier, which names the table. */
  function ParseFromClause(projection: seq<Query.Identifier>, p: Parser): (r: Result<ASTNode, TokenParseError>)
    ensures r.Success? <==>
              TokenAt(p.tokens, p.current) == Keyword("FROM") && TokenAt(p.tokens, p.current + 1).Identifier?
    ensures r.Success? ==>
              && p.current + 1 < |p.tokens|
              && r.value == SelectStatement(projection, Query.Identifier(p.tokens[p.current + 1].text))
    ensures TokenAt(p.tokens, p.current) != Keyword("FROM") ==>
              r == Failure(ExpectedFrom(TokenAt(p.tokens, p.current)))
    ensures TokenAt(p.tokens, p.current) == Keyword("FROM") && !TokenAt(p.tokens, p.current + 1).Identifier? ==>
              r == Failure(ExpectedTableName(TokenAt(p.tokens, p.current + 1)))
  {
    var (from, p1) := NextToken(p);
    if from != Keyword("FROM") then
      Failure(ExpectedFrom(from))
    else
      var (name, _) := NextToken(p1);
      match name
      case Identifier(ident) => Success(SelectStatement(projection, Query.Identifier(ident)))
      case _ => Failure(ExpectedTableName(name))
  }

  /** `Parser::parse_select_statement` (and `parse_v2`, which only delegates to it).
      Starting at `p.current`, the accepted shape is: `Keyword("SELECT")`, a run of
      identifiers and commas, one further token of any kind (consumed and dropped),
      `Keyword("FROM")`, then an identifier naming the table. Whitespace tokens are
      not skipped and tokens after the table are not examined. */
  function ParseSelectStatement(p: Parser): (r: Result<ASTNode, TokenParseError>)
    ensures var c := p.current;
            var j := ProjectionEnd(p.tokens, c + 1);
            r.Success? <==>
              && TokenAt(p.tokens, c) == Keyword("SELECT")
              && TokenAt(p.tokens, j + 1) == Keyword("FROM")
              && TokenAt(p.tokens, j + 2).Identifier?
    ensures var c := p.current;
            var j := ProjectionEnd(p.tokens, c + 1);
            r.Success? ==>
              && j + 2 < |p.tokens|
              && r.value == SelectStatement(IdentifiersOf(p.tokens[c + 1..j]), Query.Identifier(p.tokens[j + 2].text))
    ensures TokenAt(p.tokens, p.current) != Keyword("SELECT") ==>
              r == Failure(ExpectedSelect(TokenAt(p.tokens, p.current)))
    ensures var c := p.current;
            var j := ProjectionEnd(p.tokens, c + 1);
            TokenAt(p.tokens, c) == Keyword("SELECT") && TokenAt(p.tokens, j + 1) != Keyword("FROM") ==>
              r == Failure(ExpectedFrom(TokenAt(p.tokens, j + 1)))
    ensures var c := p.current;
            var j := ProjectionEnd(p.tokens, c + 1);
            && TokenAt(p.tokens, c) == Keyword("SELECT") && TokenAt(p.tokens, j + 1) == Keyword("FROM")
            && !TokenAt(p.tokens, j + 2).Identifier? ==>
              r == Failure(ExpectedTableName(TokenAt(p.tokens, j + 2)))
  {
    var (first, p1) := NextToken(p);
    if first != Keyword("SELECT") then
      Failure(ExpectedSelect(first))
    else
      var (projection, p2) := ParseProjection(p1, []);
      ParseFromClause(projection, p2)
  }

  /** `parse_select_statement` as evidently intended: the token that ends the
      projection loop is the one that must be `Keyword("FROM")`, and the token
      after it names the table. As written, the loop consumes that token and the
      `FROM` check looks one token further; here the loop's last token is put back. */
  function ParseSelectStatementCorrected(p: Parser): (r: Result<ASTNode, TokenParseError>)
    ensures var c := p.current;
            var j := ProjectionEnd(p.tokens, c + 1);
            r.Success? <==>
              && TokenAt(p.tokens, c) == Keyword("SELECT")
              && TokenAt(p.tokens, j) == Keyword("FROM")
              && TokenAt(p.tokens, j + 1).Identifier?
    ensures var c := p.current;
            var j := ProjectionEnd(p.tokens, c + 1);
            r.Success? ==>
              && j + 1 < |p.tokens|
              && r.value == SelectStatement(IdentifiersOf(p.tokens[c + 1..j]), Query.Identifier(p.tokens[j + 1].text))
    ensures TokenAt(p.tokens, p.current) != Keyword("SELECT") ==>
              r == Failure(ExpectedSelect(TokenAt(p.tokens, p.current)))
    ensures var c := p.current;
            var j := ProjectionEnd(p.tokens, c + 1);
            TokenAt(p.tokens, c) == Keyword("SELECT") && TokenAt(p.tokens, j) != Keyword("FROM") ==>
              r == Failure(ExpectedFrom(TokenAt(p.tokens, j)))
    ensures var c := p.current;
            var j := ProjectionEnd(p.tokens, c + 1);
            && TokenAt(p.tokens, c) == Keyword("SELECT") && TokenAt(p.tokens, j) == Keyword("FROM")
            && !TokenAt(p.tokens, j + 1).Identifier? ==>
              r == Failure(ExpectedTableName(TokenAt(p.tokens, j + 1)))
  {
    var (first, p1) := NextToken(p);
    if first != Keyword("SELECT") then
      Failure(ExpectedSelect(first))
    else
      var (projection, p2) := ParseProjection(p1, []);
      ParseFromClause(projection, p2.(current := p2.current - 1))
  }

  /** The tokens of a column list as the grammar writes it: identifiers separated by commas. */
  function ColumnTokens(columns: seq<string>): (ts: seq<Token>)
    ensures forall k :: 0 <= k < |ts| ==> IsProjectionItem(ts[k])
  {
    if columns == [] then []
    else if |columns| == 1 then [Token.Identifier(columns[0])]
    else [Token.Identifier(columns[0]), Comma] + ColumnTokens(columns[1..])
  }

  /** The identifiers a column list names. */
  function Identifiers(columns: seq<string>): (ids: seq<Query.Identifier>)
    ensures |ids| == |columns| && forall k :: 0 <= k < |ids| ==> ids[k].text == columns[k]
  {
    seq(|columns|, k requires 0 <= k < |columns| => Query.Identifier(columns[k]))
  }

  /** The token stream of a well-formed `SELECT c1, ..., cn FROM table`, with the
      `FROM` keyword present and no whitespace tokens. */
  function SelectTokens(columns: seq<string>, table: string): seq<Token> {
    [Keyword("SELECT")] + ColumnTokens(columns) + [Keyword("FROM"), Token.Identifier(table)]
  }

  /** The projection loop collects exactly the listed columns. */
  lemma {:induction false} IdentifiersOfColumnTokens(columns: seq<string>)
    ensures IdentifiersOf(ColumnTokens(columns)) == Identifiers(columns)
    decreases |columns|
  {
    if |columns| > 1 {
      var rest := ColumnTokens(columns[1..]);
      var ts := [Token.Identifier(columns[0]), Comma] + rest;
      assert ts[1..] == [Comma] + rest;
      assert ([Comma] + rest)[1..] == rest;
      IdentifiersOfColumnTokens(columns[1..]);
      assert Identifiers(columns) == [Query.Identifier(columns[0])] + Identifiers(columns[1..]);
    } else if |columns| == 1 {
      assert ColumnTokens(columns)[1..] == [];
    }
  }

  /** The projection loop stops at the first token that is not an identifier or comma. */
  lemma {:induction false} ProjectionEndAt(tokens: seq<Token>, from: nat, j: nat)
    requires from <= j < |tokens|
    requires forall k :: from <= k < j ==> IsProjectionItem(tokens[k])
    requires !IsProjectionItem(tokens[j])
    ensures ProjectionEnd(tokens, from) == j
    decreases j - from
  {
    if from < j {
      ProjectionEndAt(tokens, from + 1, j);
    }
  }

  /** Where the projection of a well-formed stream ends: at the `FROM` keyword. */
  lemma SelectTokensLayout(columns: seq<string>, table: string)
    ensures var ts := SelectTokens(columns, table);
            var j := 1 + |ColumnTokens(columns)|;
            && ProjectionEnd(ts, 1) == j
            && j + 1 < |ts| && ts[j] == Keyword("FROM") && ts[j + 1] == Token.Identifier(table)
            && ts[1..j] == ColumnTokens(columns)
  {
    var ts := SelectTokens(columns, table);
    var cs := ColumnTokens(columns);
    var j := 1 + |cs|;
    assert forall k :: 1 <= k < j ==> ts[k] == cs[k - 1];
    ProjectionEndAt(ts, 1, j);
    assert ts[1..j] == cs;
  }

  /** The corrected parser accepts every well-formed token stream and returns
      its columns and table. */
  lemma CorrectedParsesSelectTokens(columns: seq<string>, table: string)
    ensures ParseSelectStatementCorrected(New(SelectTokens(columns, table)))
            == Success(SelectStatement(Identifiers(columns), Query.Identifier(table)))
  {
    SelectTokensLayout(columns, table);
    IdentifiersOfColumnTokens(columns);
  }

  /** As written, `parse_select_statement` rejects every well-formed token stream:
      the projection loop swallows `FROM`, and the table name is then compared
      against `Keyword("FROM")`. */
  lemma AsWrittenRejectsSelectTokens(columns: seq<string>, table: string)
    ensures ParseSelectStatement(New(SelectTokens(columns, table)))
            == Failure(ExpectedFrom(Token.Identifier(table)))
  {
    SelectTokensLayout(columns, table);
  }

  // ---------------------------------------------------------------------------
  // Text combinator parser
  // ---------------------------------------------------------------------------

  /** `Parser::identifier`: `alphanumeric1` mapped into an identifier. */
  function ParseIdentifier(input: string): (r: Result<(string, Query.Identifier), Nom.Error>)
    ensures r.Success? <==> |input| > 0 && IsAsciiAlphanumeric(input[0])
    ensures r.Success? ==> |r.value.1.text| > 0 && MaximalRun(AsciiAlphanumeric, input, r.value.1.text, r.value.0)
    ensures r.Failure? ==> r.error == Nom.Error(input, Nom.ExpectedAlphaNumeric)
  {
    var (rest, name) :- Nom.Alphanumeric1(input);
    Success((rest, Query.Identifier(name)))
  }

  /** `tag(t)` followed by `multispace0`, the pairing used for each of `SELECT`,
      `*` and `FROM`; yields the input after the literal and its spacing. */
  function TagThenSpace(t: string, input: string): (r: Result<string, Nom.Error>)
    ensures r.Success? <==> t <= input
    ensures r.Success? ==> && |t| + |r.value| <= |input|
                           && MaximalRun(Multispace, input[|t|..], input[|t|..|input| - |r.value|], r.value)
    ensures r.Failure? ==> r.error == Nom.Error(input, Nom.ExpectedTag)
  {
    var afterTag :- Nom.Tag(t, input);
    var afterSpace := Nom.Multispace0(afterTag.0).value;
    assert input[|t|..] == afterTag.0;
    Success(afterSpace.0)
  }

  /** `Parser::simple_select_statement`: the literal, case-sensitive `SELECT`,
      `*` and `FROM`, each followed by zero or more spaces, tabs or line breaks,
      then the table identifier. Returns the unconsumed input and the statement,
      whose projection is the single identifier `*`. */
  function SimpleSelectStatement(input: string): (r: Result<(string, ASTNode), Nom.Error>)
    ensures r.Success? ==>
              && r.value.1.SelectStatement? && r.value.1.projection == [Query.Identifier("*")]
              && |r.value.0| + |r.value.1.table.text| < |input|
              && (r.value.0 == [] || !IsAsciiAlphanumeric(r.value.0[0]))
    ensures r.Failure? ==> |r.error.input| <= |input| && (r.error.input == input <==> !("SELECT" <= input))
  {
    var afterSelect :- TagThenSpace("SELECT", input);
    var afterStar :- TagThenSpace("*", afterSelect);
    var afterFrom :- TagThenSpace("FROM", afterStar);
    var table :- ParseIdentifier(afterFrom);
    Success((table.0, SelectStatement([Query.Identifier("*")], table.1)))
  }

  /** Once the `SELECT` and `*` steps have succeeded, the result is decided by
      the `FROM` step and then by `identifier`. */
  lemma SimpleSelectAfterStar(input: string, afterSelect: string, afterStar: string)
    requires TagThenSpace("SELECT", input) == Success(afterSelect)
    requires TagThenSpace("*", afterSelect) == Success(afterStar)
    ensures TagThenSpace("FROM", afterStar).Failure? ==>
              SimpleSelectStatement(input) == Failure(TagThenSpace("FROM", afterStar).error)
    ensures TagThenSpace("FROM", afterStar).Success? ==>
              var afterFrom := TagThenSpace("FROM", afterStar).value;
              && (ParseIdentifier(afterFrom).Failure? ==> SimpleSelectStatement(input) == Failure(ParseIdentifier(afterFrom).error))
              && (ParseIdentifier(afterFrom).Success? ==>
                    SimpleSelectStatement(input)
                    == Success((ParseIdentifier(afterFrom).value.0,
                                SelectStatement([Query.Identifier("*")], ParseIdentifier(afterFrom).value.1))))
  {
  }

  /** `identifier` takes a whole table name when the text after it does not continue it. */
  lemma TableNameThenRest(table: string, rest: string)
    requires IsTableName(table) && (rest == [] || !IsAsciiAlphanumeric(rest[0]))
    ensures ParseIdentifier(table + rest) == Success((rest, Query.Identifier(table)))
  {
    var input := table + rest;
    assert forall i :: 0 <= i < |table| ==> input[i] == table[i];
    assert InClass(AsciiAlphanumeric, table[0]) && input[0] == table[0];
    MaximalRunIsSpan(AsciiAlphanumeric, input, table, rest);
    var r := ParseIdentifier(input);
    MaximalRunIsSpan(AsciiAlphanumeric, input, r.value.1.text, r.value.0);
  }

  /** The three keyword steps on keywords and spacing, up to text that does not
      start with spacing. */
  lemma KeywordSteps(w1: string, w2: string, w3: string, afterFrom: string)
    requires IsSpacing(w1) && IsSpacing(w2) && IsSpacing(w3)
    requires afterFrom == [] || !IsMultispace(afterFrom[0])
    ensures var afterStar := "FROM" + w3 + afterFrom;
            var afterSelect := "*" + w2 + afterStar;
            && TagThenSpace("SELECT", "SELECT" + w1 + afterSelect) == Success(afterSelect)
            && TagThenSpace("*", afterSelect) == Success(afterStar)
            && TagThenSpace("FROM", afterStar) == Success(afterFrom)
  {
    var afterStar := "FROM" + w3 + afterFrom;
    var afterSelect := "*" + w2 + afterStar;
    TagThenSpaceSplits("FROM", w3, afterFrom);
    assert afterStar[0] == 'F';
    TagThenSpaceSplits("*", w2, afterStar);
    assert afterSelect[0] == '*';
    TagThenSpaceSplits("SELECT", w1, afterSelect);
  }

  /** `simple_select_statement` accepts `SELECT`, spacing, `*`, spacing, `FROM`,
      spacing and a table name, followed by any text that does not continue the
      name, and hands that text back unconsumed. */
  lemma SimpleSelectAccepts(w1: string, w2: string, w3: string, table: string, rest: string)
    requires IsSpacing(w1) && IsSpacing(w2) && IsSpacing(w3) && IsTableName(table)
    requires rest == [] || !IsAsciiAlphanumeric(rest[0])
    ensures SimpleSelectStatement("SELECT" + w1 + ("*" + w2 + ("FROM" + w3 + (table + rest))))
            == Success((rest, SelectStatement([Query.Identifier("*")], Query.Identifier(table))))
  {
    var afterFrom := table + rest;
    var afterStar := "FROM" + w3 + afterFrom;
    var afterSelect := "*" + w2 + afterStar;
    assert afterFrom[0] == table[0] && InClass(AsciiAlphanumeric, table[0]);
    KeywordSteps(w1, w2, w3, afterFrom);
    TableNameThenRest(table, rest);
    SimpleSelectAfterStar("SELECT" + w1 + afterSelect, afterSelect, afterStar);
  }

  /** What `Parser::identifier` accepts is a table name followed by the text it returns. */
  lemma IdentifierSplits(input: string)
    ensures ParseIdentifier(input).Success? ==>
              var (rest, name) := ParseIdentifier(input).value;
              IsTableName(name.text) && input == name.text + rest
  {
    if ParseIdentifier(input).Success? {
      var (rest, name) := ParseIdentifier(input).value;
      assert input == input[..|name.text|] + input[|name.text|..];
    }
  }

  /** Conversely, whatever `simple_select_statement` accepts has that shape: the
      returned text is what follows the table name, and it does not continue it. */
  lemma SimpleSelectAcceptsOnly(input: string) returns (w1: string, w2: string, w3: string)
    ensures SimpleSelectStatement(input).Success? ==>
              var (rest, ast) := SimpleSelectStatement(input).value;
              && IsSpacing(w1) && IsSpacing(w2) && IsSpacing(w3) && IsTableName(ast.table.text)
              && (rest == [] || !IsAsciiAlphanumeric(rest[0]))
              && input == "SELECT" + w1 + ("*" + w2 + ("FROM" + w3 + (ast.table.text + rest)))
  {
    if SimpleSelectStatement(input).Failure? {
      return [], [], [];
    }
    var afterSelect := TagThenSpace("SELECT", input).value;
    var afterStar := TagThenSpace("*", afterSelect).value;
    var afterFrom := TagThenSpace("FROM", afterStar).value;
    w1 := TagThenSpaceParts("SELECT", input);
    w2 := TagThenSpaceParts("*", afterSelect);
    w3 := TagThenSpaceParts("FROM", afterStar);
    IdentifierSplits(afterFrom);
    var (rest, name) := ParseIdentifier(afterFrom).value;
    Assemble(input, w1, afterSelect, w2, afterStar, w3, afterFrom, name.text, rest);
  }

  /** Substituting each step's remainder into the previous step's text. */
  lemma Assemble(input: string, w1: string, afterSelect: string, w2: string, afterStar: string,
                 w3: string, afterFrom: string, table: string, rest: string)
    requires input == "SELECT" + w1 + afterSelect && afterSelect == "*" + w2 + afterStar
    requires afterStar == "FROM" + w3 + afterFrom && afterFrom == table + rest
    ensures input == "SELECT" + w1 + ("*" + w2 + ("FROM" + w3 + (table + rest)))
  {
  }

  /** When the text does not start with `SELECT`, the `SELECT` tag fails on all of it. */
  lemma SimpleSelectFailsAtSelect(s: string)
    requires !("SELECT" <= s)
    ensures SimpleSelectStatement(s) == Failure(Nom.Error(s, Nom.ExpectedTag))
  {
  }

  /** When the text after `SELECT` and its spacing does not start with `*`, the
      `*` tag fails on that text. */
  lemma SimpleSelectFailsAtStar(w1: string, s: string)
    requires IsSpacing(w1) && (s == [] || !IsMultispace(s[0])) && !("*" <= s)
    ensures SimpleSelectStatement("SELECT" + w1 + s) == Failure(Nom.Error(s, Nom.ExpectedTag))
  {
    TagThenSpaceSplits("SELECT", w1, s);
  }

  /** When the text after `*` and its spacing does not start with `FROM`, the
      `FROM` tag fails on that text. */
  lemma SimpleSelectFailsAtFrom(w1: string, w2: string, s: string)
    requires IsSpacing(w1) && IsSpacing(w2) && (s == [] || !IsMultispace(s[0])) && !("FROM" <= s)
    ensures SimpleSelectStatement("SELECT" + w1 + ("*" + w2 + s)) == Failure(Nom.Error(s, Nom.ExpectedTag))
  {
    var afterSelect := "*" + w2 + s;
    TagThenSpaceSplits("*", w2, s);
    assert afterSelect[0] == '*';
    TagThenSpaceSplits("SELECT", w1, afterSelect);
    SimpleSelectAfterStar("SELECT" + w1 + afterSelect, afterSelect, s);
  }

  /** When the text after `FROM` and its spacing does not start with an ASCII
      letter or digit, `identifier` fails on that text. */
  lemma SimpleSelectFailsAtTable(w1: string, w2: string, w3: string, s: string)
    requires IsSpacing(w1) && IsSpacing(w2) && IsSpacing(w3)
    requires s == [] || (!IsMultispace(s[0]) && !IsAsciiAlphanumeric(s[0]))
    ensures SimpleSelectStatement("SELECT" + w1 + ("*" + w2 + ("FROM" + w3 + s)))
            == Failure(Nom.Error(s, Nom.ExpectedAlphaNumeric))
  {
    var afterStar := "FROM" + w3 + s;
    var afterSelect := "*" + w2 + afterStar;
    KeywordSteps(w1, w2, w3, s);
    SimpleSelectAfterStar("SELECT" + w1 + afterSelect, afterSelect, afterStar);
  }

  /** Why `Parser::parse` returned `Err`: input left over after the statement
      ("Unexpected input"), or a combinator failure ("Parse error"). */
  datatype ParseError =
    | UnexpectedInput(remaining: string)
    | SyntaxError(cause: Nom.Error)

  /** `Parser::parse`: the combinator parser must consume the whole input. */
  function Parse(input: string): (r: Result<ASTNode, ParseError>)
    ensures r.Success? ==> r.value.SelectStatement? && r.value.projection == [Query.Identifier("*")]
  {
    match SimpleSelectStatement(input)
    case Success((remaining, ast)) =>
      if remaining == [] then Success(ast) else Failure(UnexpectedInput(remaining))
    case Failure(e) => Failure(SyntaxError(e))
  }

  /** Zero or more characters accepted by `multispace0`. */
  predicate IsSpacing(s: string) {
    All(Multispace, s)
  }

  /** A table name `alphanumeric1` accepts in full: non-empty ASCII letters and digits. */
  predicate IsTableName(s: string) {
    |s| > 0 && All(AsciiAlphanumeric, s)
  }

  /** The text of a query the combinator parser accepts, given its spacing and table name. */
  function CanonicalQuery(w1: string, w2: string, w3: string, table: string): string {
    "SELECT" + w1 + ("*" + w2 + ("FROM" + w3 + table))
  }

  /** `TagThenSpace` on a literal, its spacing, and text not starting with spacing. */
  lemma TagThenSpaceSplits(t: string, w: string, rest: string)
    requires IsSpacing(w)
    requires rest == [] || !IsMultispace(rest[0])
    ensures TagThenSpace(t, t + w + rest) == Success(rest)
  {
    var input := t + w + rest;
    assert input[..|t|] == t;
    assert input[|t|..] == w + rest;
    MaximalRunIsSpan(Multispace, w + rest, w, rest);
    var r := TagThenSpace(t, input);
    assert r.Success?;
    assert |r.value| == |rest|;
    assert r.value == input[|input| - |rest|..] == rest;
  }

  /** Every query of canonical shape parses, to `*` over its table. */
  lemma ParseAcceptsCanonical(w1: string, w2: string, w3: string, table: string)
    requires IsSpacing(w1) && IsSpacing(w2) && IsSpacing(w3) && IsTableName(table)
    ensures Parse(CanonicalQuery(w1, w2, w3, table))
            == Success(SelectStatement([Query.Identifier("*")], Query.Identifier(table)))
  {
    assert table + [] == table;
    SimpleSelectAccepts(w1, w2, w3, table, []);
  }

  /** A successful `TagThenSpace` consumed the literal and a spacing run. */
  lemma TagThenSpaceParts(t: string, input: string) returns (w: string)
    requires TagThenSpace(t, input).Success?
    ensures IsSpacing(w) && input == t + w + TagThenSpace(t, input).value
  {
    var rest := TagThenSpace(t, input).value;
    w := input[|t|..|input| - |rest|];
    assert input == input[..|t|] + input[|t|..];
  }

  /** Only queries of canonical shape parse: a successful parse exhibits the
      spacing that makes the input canonical for the parsed table name. */
  lemma ParseAcceptsOnlyCanonical(input: string) returns (w1: string, w2: string, w3: string)
    ensures Parse(input).Success? ==>
              var table := Parse(input).value.table.text;
              && Parse(input).value.SelectStatement?
              && IsSpacing(w1) && IsSpacing(w2) && IsSpacing(w3) && IsTableName(table)
              && input == CanonicalQuery(w1, w2, w3, table)
  {
    w1, w2, w3 := SimpleSelectAcceptsOnly(input);
    if Parse(input).Success? {
      var table := Parse(input).value.table.text;
      assert table + [] == table;
    }
  }

  lemma ParseSelectStar()
    ensures Parse("SELECT * FROM users")
            == Success(SelectStatement([Query.Identifier("*")], Query.Identifier("users")))
  {
    assert "SELECT * FROM users" == CanonicalQuery(" ", " ", " ", "users");
    ParseAcceptsCanonical(" ", " ", " ", "users");
  }

  /** When `tag("*")` fails after `SELECT`, `parse` reports that failure. */
  lemma ParseFailsAtStar(input: string, afterSelect: string)
    requires TagThenSpace("SELECT", input) == Success(afterSelect)
    requires TagThenSpace("*", afterSelect).Failure?
    ensures Parse(input) == Failure(SyntaxError(Nom.Error(afterSelect, Nom.ExpectedTag)))
  {
  }

  /** Without `*` the `tag("*")` step fails on the text after `SELECT `. */
  lemma ParseRejectsMissingProjection()
    ensures Parse("SELECT FROM users") == Failure(SyntaxError(Nom.Error("FROM users", Nom.ExpectedTag)))
  {
    var afterSelect := "FROM users";
    assert "SELECT FROM users" == "SELECT" + " " + afterSelect;
    assert afterSelect[0] != '*';
    SimpleSelectFailsAtStar(" ", afterSelect);
  }

  /** Input left after a canonical query is reported back verbatim, unless it
      merely extends the table name. */
  lemma ParseRejectsTrailingInput(w1: string, w2: string, w3: string, table: string, extra: string)
    requires IsSpacing(w1) && IsSpacing(w2) && IsSpacing(w3) && IsTableName(table)
    requires extra != [] && !IsAsciiAlphanumeric(extra[0])
    ensures Parse(CanonicalQuery(w1, w2, w3, table + extra)) == Failure(UnexpectedInput(extra))
  {
    SimpleSelectAccepts(w1, w2, w3, table, extra);
  }

  lemma ParseRejectsTrailingWord()
    ensures Parse("SELECT * FROM users extra") == Failure(UnexpectedInput(" extra"))
  {
    assert "SELECT * FROM users extra" == CanonicalQuery(" ", " ", " ", "users" + " extra");
    ParseRejectsTrailingInput(" ", " ", " ", "users", " extra");
  }

  /** A canonical query ends with its table name. */
  lemma CanonicalEndsWithTable(w1: string, w2: string, w3: string, table: string)
    requires table != []
    ensures var q := CanonicalQuery(w1, w2, w3, table);
            q[|q| - 1] == table[|table| - 1]
  {
  }

  /** A query that parses ends with the last character of its table name. */
  lemma ParsedQueryEndsAlphanumeric(input: string)
    ensures Parse(input).Success? ==> input != [] && IsAsciiAlphanumeric(input[|input| - 1])
  {
    if Parse(input).Success? {
      var w1, w2, w3 := ParseAcceptsOnlyCanonical(input);
      var table := Parse(input).value.table.text;
      CanonicalEndsWithTable(w1, w2, w3, table);
      assert InClass(AsciiAlphanumeric, table[|table| - 1]);
    }
  }

  /** A query never parses when it ends in a space, tab or line break. */
  lemma ParseRejectsTrailingSpace(input: string, c: char)
    requires IsMultispace(c)
    ensures Parse(input + [c]).Failure?
  {
    var q := input + [c];
    assert q[|q| - 1] == c;
    if Parse(q).Success? {
      ParsedQueryEndsAlphanumeric(q);
      assert false;
    }
  }
}
