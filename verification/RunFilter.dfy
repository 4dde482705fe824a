/** `parse_run_filter_expr` from text to expression, a printer for expressions, and the round trip. */
module RunFilter {
  import opened Wrappers
  import opened Text
  import opened FilterTokenizer
  import opened FilterParser
  import FC = FilterCondition

  const MAX_LEN := 2048

  datatype FilterError =
    | TooLong
    | Lexical(lexError: LexError)
    | Syntactic(parseError: ParseError)

  function ConditionBuilder(normalize: FC.Normalizer): Builder {
    (field, op, value) => FC.BuildCondition(normalize, field, op, value)
  }

  function ParseFilter(normalize: FC.Normalizer, raw: Option<string>): Result<Option<Expr>, FilterError> {
    if raw.None? then Ok(None)
    else
      var trimmed := Trim(raw.value);
      if trimmed == [] then Ok(None)
      else if Utf8Len(trimmed) > MAX_LEN then Err(TooLong)
      else
        match Tokenize(trimmed)
        case Err(e) => Err(Lexical(e))
        case Ok(tokens) =>
          if tokens == [] then Ok(None)
          else
            match Parse(ConditionBuilder(normalize), tokens)
            case Err(e) => Err(Syntactic(e))
            case Ok(e) => Ok(Some(e))
  }

  method ParseRunFilterExpr(normalize: FC.Normalizer, raw: Option<string>) returns (r: Result<Option<Expr>, FilterError>)
    ensures r == ParseFilter(normalize, raw)
  {
    if raw.None? {
      return Ok(None);
    }
    var trimmed := Trim(raw.value);
    if trimmed == [] {
      return Ok(None);
    }
    if Utf8Len(trimmed) > MAX_LEN {
      return Err(TooLong);
    }
    var tokens := TokenizeRunFilter(trimmed);
    if tokens.Err? {
      return Err(Lexical(tokens.error));
    }
    if tokens.value == [] {
      return Ok(None);
    }
    var parser := new RunFilterParser(tokens.value, ConditionBuilder(normalize));
    var e := parser.ParseAll();
    match e
    case Err(e) => return Err(Syntactic(e));
    case Ok(e) => return Ok(Some(e));
  }

  /** The trimmed text is the tokens of a syntax tree, within the limits, and the tree denotes the expression. */
  ghost predicate IsFilter(normalize: FC.Normalizer, text: string, o: OrSyntax, e: Expr) {
    Lexes(text, OrTokens(o)) && |OrTokens(o)| <= 256 && OrExpr(ConditionBuilder(normalize), o) == Ok(e)
  }

  /** What a filter text is read as: nothing if it is blank; an expression exactly if, trimmed, it is at most
      2048 bytes and 256 tokens that a syntax tree stands for, and then what the tree denotes. */
  lemma FilterDecides(normalize: FC.Normalizer, raw: string, e: Expr)
    ensures ParseFilter(normalize, None) == Ok(None)
    ensures ParseFilter(normalize, Some(raw)) == Ok(None) <==> AllWhitespace(raw)
    ensures ParseFilter(normalize, Some(raw)) == Ok(Some(e)) <==>
              Utf8Len(Trim(raw)) <= 2048 && exists o :: IsFilter(normalize, Trim(raw), o, e)
    ensures ParseFilter(normalize, Some(raw)) == Err(TooLong) <==> Utf8Len(Trim(raw)) > 2048
  {
    TrimmedAway(raw);
    var text, build := Trim(raw), ConditionBuilder(normalize);
    assert text == [] ==> Utf8Len(text) == 0;
    NoTokensBlank(text);
    hide Trim, Utf8Len, Tokenize, Parse, OrExpr, OrTokens, Lexes, AllWhitespace, ConditionBuilder;
    if text != [] && Tokenize(text).Ok? {
      var tokens := Tokenize(text).value;
      TokenizeDecidesLexes(text, tokens);
      ParseDecidesGrammar(build, tokens, e);
      if Parse(build, tokens) == Ok(e) {
        var o :| OrTokens(o) == tokens && OrExpr(build, o) == Ok(e);
        assert IsFilter(normalize, text, o, e);
      }
    }
    if o :| IsFilter(normalize, text, o, e) {
      TokenizeDecidesLexes(text, OrTokens(o));
      SyntaxHasTokens(o);
      ParseDecidesGrammar(build, OrTokens(o), e);
    }
  }

  lemma NoTokensBlank(text: string)
    requires Trimmed(text)
    ensures Lexes(text, []) <==> text == []
    ensures Tokenize(text) == Ok([]) <==> text == []
    ensures text == [] ==> forall tokens :: Lexes(text, tokens) ==> tokens == []
  {
    TokenizeDecidesLexes(text, []);
    hide Tokenize;
    if text == [] {
      forall tokens | Lexes(text, tokens) ensures tokens == [] {
        ScanDecidesLexes(text, tokens);
      }
    }
  }

  lemma SyntaxHasTokens(o: OrSyntax)
    ensures OrTokens(o) != []
  {
  }

  // ------------------------------------------------------------------ printer with minimal parentheses

  /** The syntax tree of `e` that uses a group only where precedence or association asks for one. */
  function ToOr(e: Expr): OrSyntax {
    match e
    case Or(left, right) => Either(ToOr(left), ToAnd(right))
    case And(left, right) => Single(Both(ToAnd(left), ToPrimary(right)))
    case Condition(c) => Single(One(ToCompare(c)))
  }

  function ToAnd(e: Expr): AndSyntax {
    match e
    case Or(left, right) => One(Group(Either(ToOr(left), ToAnd(right))))
    case And(left, right) => Both(ToAnd(left), ToPrimary(right))
    case Condition(c) => One(ToCompare(c))
  }

  function ToPrimary(e: Expr): Primary {
    match e
    case Or(left, right) => Group(Either(ToOr(left), ToAnd(right)))
    case And(left, right) => Group(Single(Both(ToAnd(left), ToPrimary(right))))
    case Condition(c) => ToCompare(c)
  }

  function ToCompare(c: Condition): Primary {
    Compare(FC.FieldText(c.target), FC.OperatorText(c.op), c.value, true)
  }

  function ExprTokens(e: Expr): seq<Token> {
    OrTokens(ToOr(e))
  }

  function Escape(value: string): string {
    if value == [] then []
    else if value[0] == '"' || value[0] == '\\' then ['\\', value[0]] + Escape(value[1..])
    else [value[0]] + Escape(value[1..])
  }

  function Spelling(token: Token): string {
    match token
    case LParen => "("
    case RParen => ")"
    case And => "and"
    case Or => "or"
    case Operator(op) => op
    case Identifier(name) => name
    case StringLiteral(text) => ['"'] + Escape(text) + ['"']
  }

  function TokensText(tokens: seq<Token>): string {
    if tokens == [] then []
    else if |tokens| == 1 then Spelling(tokens[0])
    else Spelling(tokens[0]) + ([' '] + TokensText(tokens[1..]))
  }

  function Print(e: Expr): string {
    TokensText(ExprTokens(e))
  }

  // ------------------------------------------------------------------ printed trees denote themselves

  ghost predicate AllBuildable(normalize: FC.Normalizer, e: Expr) {
    match e
    case Condition(c) => FC.Buildable(normalize, c)
    case And(left, right) => AllBuildable(normalize, left) && AllBuildable(normalize, right)
    case Or(left, right) => AllBuildable(normalize, left) && AllBuildable(normalize, right)
  }

  lemma {:induction false} PrintedDenotes(normalize: FC.Normalizer, e: Expr)
    requires FC.StableNormalizer(normalize) && AllBuildable(normalize, e)
    ensures OrExpr(ConditionBuilder(normalize), ToOr(e)) == Ok(e)
    ensures AndExpr(ConditionBuilder(normalize), ToAnd(e)) == Ok(e)
    ensures PrimaryExpr(ConditionBuilder(normalize), ToPrimary(e)) == Ok(e)
  {
    hide FC.BuildCondition, FC.StableNormalizer;
    match e
    case Condition(c) =>
      FC.ConditionRoundTrip(normalize, c);
      assert PrimaryExpr(ConditionBuilder(normalize), ToCompare(c)) == Ok(e);
      assert AndExpr(ConditionBuilder(normalize), One(ToCompare(c))) == Ok(e);
    case And(left, right) => PrintedDenotes(normalize, left); PrintedDenotes(normalize, right);
    case Or(left, right) => PrintedDenotes(normalize, left); PrintedDenotes(normalize, right);
  }

  /** No token list that denotes the same tree is shorter than the printed one. */
  lemma {:induction false} OrMinimal(build: Builder, o: OrSyntax, e: Expr)
    requires OrExpr(build, o) == Ok(e)
    ensures |OrTokens(ToOr(e))| <= |OrTokens(o)|
    decreases o
  {
    match o
    case Single(only) =>
      AndMinimal(build, only, e);
      LevelsGrow(e);
    case Either(first, last) =>
      OrMinimal(build, first, e.left);
      AndMinimal(build, last, e.right);
  }

  lemma {:induction false} AndMinimal(build: Builder, a: AndSyntax, e: Expr)
    requires AndExpr(build, a) == Ok(e)
    ensures |AndTokens(ToAnd(e))| <= |AndTokens(a)|
    decreases a
  {
    match a
    case One(primary) =>
      PrimaryMinimal(build, primary, e);
      LevelsGrow(e);
    case Both(front, last) =>
      AndMinimal(build, front, e.left);
      PrimaryMinimal(build, last, e.right);
  }

  lemma {:induction false} PrimaryMinimal(build: Builder, p: Primary, e: Expr)
    requires PrimaryExpr(build, p) == Ok(e)
    ensures |PrimaryTokens(ToPrimary(e))| <= |PrimaryTokens(p)|
    decreases p
  {
    match p
    case Compare(field, op, value, quoted) =>
    case Group(inner) =>
      OrMinimal(build, inner, e);
      LevelsGrow(e);
  }

  /** Asking for a tighter level costs at most one pair of parentheses. */
  lemma LevelsGrow(e: Expr)
    ensures |OrTokens(ToOr(e))| <= |AndTokens(ToAnd(e))| <= |PrimaryTokens(ToPrimary(e))|
    ensures |PrimaryTokens(ToPrimary(e))| <= |OrTokens(ToOr(e))| + 2
  {
  }

  // ------------------------------------------------------------------ printed tokens lex as themselves

  predicate Printable(token: Token) {
    match token
    case Operator(op) => IsOperator(op)
    case Identifier(name) => IsWord(name) && Lower(name) != "and" && Lower(name) != "or"
    case _ => true
  }

  predicate AllPrintable(tokens: seq<Token>) {
    forall i :: 0 <= i < |tokens| ==> Printable(tokens[i])
  }

  lemma {:induction false} EscapeUnescapes(value: string)
    ensures Unescapes(Escape(value), '"', value)
  {
    if value != [] {
      EscapeUnescapes(value[1..]);
      if value[0] == '"' || value[0] == '\\' {
        assert Escape(value)[2..] == Escape(value[1..]);
      } else {
        assert Escape(value)[1..] == Escape(value[1..]);
      }
    }
  }

  lemma SpellingSpells(token: Token)
    requires Printable(token)
    ensures Spells(Spelling(token), token)
    ensures Spelling(token) != []
    ensures Trimmed(Spelling(token))
  {
    match token
    case StringLiteral(text) =>
      EscapeUnescapes(text);
      var s := Spelling(token);
      assert s[1..|s| - 1] == Escape(text);
    case And => assert Lower("and") == "and";
    case Or => assert Lower("or") == "or";
    case _ =>
  }

  lemma StartsWithSpelling(token: Token, rest: string)
    requires Printable(token) && (rest == [] || rest[0] == ' ')
    ensures StartsWith(Spelling(token) + rest, token, 0, |Spelling(token)|)
    ensures (Spelling(token) + rest)[|Spelling(token)|..] == rest
  {
    hide Spells;
    SpellingSpells(token);
    var s, n := Spelling(token) + rest, |Spelling(token)|;
    assert s[0..n] == Spelling(token) && s[n..] == rest && s[..0] == [];
    assert !IsWordChar(' ');
  }

  lemma {:induction false} TextLexes(tokens: seq<Token>)
    requires AllPrintable(tokens)
    ensures Lexes(TokensText(tokens), tokens)
    decreases |tokens|
  {
    if tokens != [] {
      var rest := if |tokens| == 1 then [] else [' '] + TokensText(tokens[1..]);
      var text := Spelling(tokens[0]) + rest;
      assert TokensText(tokens) == text;
      TextLexes(tokens[1..]);
      if |tokens| > 1 {
        assert rest[1..] == TokensText(tokens[1..]);
        LexesSkipsSpace(rest, tokens[1..]);
      }
      StartsWithSpelling(tokens[0], rest);
      hide StartsWith;
      assert StartsWith(text, tokens[0], 0, |Spelling(tokens[0])|);
      assert Lexes(text[0 + |Spelling(tokens[0])|..], tokens[1..]);
    }
  }

  lemma {:induction false} TextTrimmed(tokens: seq<Token>)
    requires AllPrintable(tokens) && tokens != []
    ensures TokensText(tokens) != [] && Trimmed(TokensText(tokens))
    decreases |tokens|
  {
    SpellingSpells(tokens[0]);
    if |tokens| > 1 {
      TextTrimmed(tokens[1..]);
      var first, rest := Spelling(tokens[0]), TokensText(tokens[1..]);
      var text := first + ([' '] + rest);
      assert text[0] == first[0] && text[|text| - 1] == rest[|rest| - 1];
    }
  }

  lemma FieldIsWord(field: string)
    requires FC.IsFieldText(field) && field !in {"and", "or"}
    ensures Printable(Identifier(field))
  {
    FC.FieldTextFixpoint(field);
    assert forall i :: 0 <= i < |field| ==> IsWordChar(field[i]);
  }

  lemma AppendPrintable(a: seq<Token>, token: Token, b: seq<Token>)
    requires AllPrintable(a) && Printable(token) && AllPrintable(b)
    ensures AllPrintable(a + [token] + b)
  {
  }

  lemma ComparePrintable(normalize: FC.Normalizer, c: Condition)
    requires FC.StableNormalizer(normalize) && FC.Buildable(normalize, c)
    ensures AllPrintable(PrimaryTokens(ToCompare(c)))
  {
    hide FC.BuildCondition, FC.StableNormalizer, FC.FieldText;
    FC.ConditionRoundTrip(normalize, c);
    FieldIsWord(FC.FieldText(c.target));
  }

  lemma {:induction false} PrintedPrintable(normalize: FC.Normalizer, e: Expr)
    requires FC.StableNormalizer(normalize) && AllBuildable(normalize, e)
    ensures AllPrintable(OrTokens(ToOr(e)))
    ensures AllPrintable(AndTokens(ToAnd(e)))
    ensures AllPrintable(PrimaryTokens(ToPrimary(e)))
  {
    hide AllPrintable, FC.StableNormalizer, FC.Buildable;
    match e
    case Condition(c) =>
      ComparePrintable(normalize, c);
    case And(left, right) =>
      PrintedPrintable(normalize, left);
      PrintedPrintable(normalize, right);
      AppendPrintable(AndTokens(ToAnd(left)), Token.And, PrimaryTokens(ToPrimary(right)));
      GroupPrintable(ToOr(e));
    case Or(left, right) =>
      PrintedPrintable(normalize, left);
      PrintedPrintable(normalize, right);
      AppendPrintable(OrTokens(ToOr(left)), Token.Or, AndTokens(ToAnd(right)));
      GroupPrintable(ToOr(e));
  }

  lemma GroupPrintable(o: OrSyntax)
    requires AllPrintable(OrTokens(o))
    ensures AllPrintable(PrimaryTokens(Group(o)))
  {
    assert PrimaryTokens(Group(o)) == [LParen] + OrTokens(o) + [RParen];
  }

  // ------------------------------------------------------------------ round trip

  /** Printing a tree and reading the text back gives exactly that tree, whenever the text fits the
      length and token limits; outside them the limit is the reported error. */
  lemma FilterRoundTrip(normalize: FC.Normalizer, e: Expr)
    requires FC.StableNormalizer(normalize) && AllBuildable(normalize, e)
    ensures ParseFilter(normalize, Some(Print(e))) ==
            if Utf8Len(Print(e)) > MAX_LEN then Err(TooLong)
            else if |ExprTokens(e)| > MAX_TOKENS then Err(Lexical(TooManyTokens))
            else Ok(Some(e))
  {
    hide FC.StableNormalizer, AllBuildable, AllPrintable, Lexes, Utf8Len, Trim, Trimmed, Tokenize, Parse;
    hide TokensText, OrTokens, ToOr, OrExpr, ConditionBuilder;
    var tokens := ExprTokens(e);
    PrintedPrintable(normalize, e);
    TextTrimmed(tokens);
    TrimFixpoint(Print(e));
    TextLexes(tokens);
    TokenizeDecidesLexes(Print(e), tokens);
    PrintedDenotes(normalize, e);
    ParseDecidesGrammar(ConditionBuilder(normalize), tokens, e);
  }

  lemma {:induction false} OrBuildable(normalize: FC.Normalizer, o: OrSyntax)
    requires OrExpr(ConditionBuilder(normalize), o).Ok?
    ensures AllBuildable(normalize, OrExpr(ConditionBuilder(normalize), o).value)
    decreases o
  {
    match o
    case Single(only) => AndBuildable(normalize, only);
    case Either(first, last) => OrBuildable(normalize, first); AndBuildable(normalize, last);
  }

  lemma {:induction false} AndBuildable(normalize: FC.Normalizer, a: AndSyntax)
    requires AndExpr(ConditionBuilder(normalize), a).Ok?
    ensures AllBuildable(normalize, AndExpr(ConditionBuilder(normalize), a).value)
    decreases a
  {
    match a
    case One(primary) => PrimaryBuildable(normalize, primary);
    case Both(front, last) => AndBuildable(normalize, front); PrimaryBuildable(normalize, last);
  }

  lemma {:induction false} PrimaryBuildable(normalize: FC.Normalizer, p: Primary)
    requires PrimaryExpr(ConditionBuilder(normalize), p).Ok?
    ensures AllBuildable(normalize, PrimaryExpr(ConditionBuilder(normalize), p).value)
    decreases p
  {
    hide FC.BuildCondition;
    match p
    case Group(inner) => OrBuildable(normalize, inner);
    case Compare(field, op, value, quoted) =>
      assert FC.BuildCondition(normalize, field, op, value).Ok?;
  }

  /** Every tree that any accepted filter text denotes survives printing and reading back, and its
      printed form has no more tokens than the text it came from. */
  lemma ParsedRoundTrip(normalize: FC.Normalizer, raw: string, e: Expr)
    requires FC.StableNormalizer(normalize) && ParseFilter(normalize, Some(raw)) == Ok(Some(e))
    requires Utf8Len(Print(e)) <= MAX_LEN
    ensures ParseFilter(normalize, Some(Print(e))) == Ok(Some(e))
    ensures Tokenize(Trim(raw)).Ok? && |ExprTokens(e)| <= |Tokenize(Trim(raw)).value|
  {
    hide FC.StableNormalizer, FC.BuildCondition, Utf8Len, Trim, Parse, OrTokens, OrExpr, ConditionBuilder, Print;
    var build, tokens := ConditionBuilder(normalize), Tokenize(Trim(raw)).value;
    ParseDecidesGrammar(build, tokens, e);
    var o :| OrTokens(o) == tokens && OrExpr(build, o) == Ok(e);
    OrBuildable(normalize, o);
    OrMinimal(build, o, e);
    FilterRoundTrip(normalize, e);
  }
}
