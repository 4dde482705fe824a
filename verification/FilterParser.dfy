/** The recursive-descent parser of the run-filter language, the grammar it accepts and the meaning
    of the trees it builds. */
module FilterParser {
  import opened Wrappers
  import opened FilterTokenizer
  import FilterCondition

  type Condition = FilterCondition.Condition

  datatype Expr =
    | Condition(condition: Condition)
    | And(left: Expr, right: Expr)
    | Or(left: Expr, right: Expr)

  datatype ParseError =
    | ExpectedRParen
    | ExpectedField
    | ExpectedOperator
    | ExpectedValue
    | TrailingToken
    | BadCondition(reason: FilterCondition.ConditionError)

  /** How a field, an operator and a value become a condition. */
  type Builder = (string, string, string) -> Result<Condition, FilterCondition.ConditionError>

  /** An expression and the position just after it. */
  type Parsed = Result<(Expr, nat), ParseError>

  // ------------------------------------------------------------------ grammar

  datatype OrSyntax = Single(only: AndSyntax) | Either(first: OrSyntax, last: AndSyntax)
  datatype AndSyntax = One(primary: Primary) | Both(front: AndSyntax, last: Primary)
  datatype Primary = Group(inner: OrSyntax) | Compare(field: string, op: string, value: string, quoted: bool)

  /** The token list a syntax tree stands for. */
  function OrTokens(o: OrSyntax): (ts: seq<Token>)
    ensures ts != []
  {
    match o
    case Single(only) => AndTokens(only)
    case Either(first, last) => OrTokens(first) + [Token.Or] + AndTokens(last)
  }

  function AndTokens(a: AndSyntax): (ts: seq<Token>)
    ensures ts != []
  {
    match a
    case One(primary) => PrimaryTokens(primary)
    case Both(front, last) => AndTokens(front) + [Token.And] + PrimaryTokens(last)
  }

  function PrimaryTokens(p: Primary): (ts: seq<Token>)
    ensures ts != []
  {
    match p
    case Group(inner) => [LParen] + OrTokens(inner) + [RParen]
    case Compare(field, op, value, quoted) =>
      [Identifier(field), Operator(op), if quoted then StringLiteral(value) else Identifier(value)]
  }

  /** The expression a syntax tree denotes: both connectives associate to the left, and parentheses
      leave no trace. */
  function OrExpr(build: Builder, o: OrSyntax): Result<Expr, ParseError> {
    match o
    case Single(only) => AndExpr(build, only)
    case Either(first, last) =>
      match OrExpr(build, first)
      case Err(e) => Err(e)
      case Ok(left) =>
        match AndExpr(build, last)
        case Err(e) => Err(e)
        case Ok(right) => Ok(Expr.Or(left, right))
  }

  function AndExpr(build: Builder, a: AndSyntax): Result<Expr, ParseError> {
    match a
    case One(primary) => PrimaryExpr(build, primary)
    case Both(front, last) =>
      match AndExpr(build, front)
      case Err(e) => Err(e)
      case Ok(left) =>
        match PrimaryExpr(build, last)
        case Err(e) => Err(e)
        case Ok(right) => Ok(Expr.And(left, right))
  }

  function PrimaryExpr(build: Builder, p: Primary): Result<Expr, ParseError> {
    match p
    case Group(inner) => OrExpr(build, inner)
    case Compare(field, op, value, _) => CompareExpr(build, field, op, value)
  }

  function CompareExpr(build: Builder, field: string, op: string, value: string): Result<Expr, ParseError> {
    match build(field, op, value)
    case Ok(c) => Ok(Expr.Condition(c))
    case Err(e) => Err(BadCondition(e))
  }

  // ------------------------------------------------------------------ the parser as functions of a position

  predicate SeesAt(ts: seq<Token>, i: nat, token: Token) {
    i < |ts| && ts[i] == token
  }

  function ParseCondition(build: Builder, ts: seq<Token>, i: nat): (r: Parsed)
    requires i <= |ts|
    ensures r.Ok? ==> i < r.value.1 <= |ts|
  {
    if i >= |ts| || !ts[i].Identifier? then Err(ExpectedField)
    else if i + 1 >= |ts| || !ts[i + 1].Operator? then Err(ExpectedOperator)
    else if i + 2 >= |ts| || !(ts[i + 2].Identifier? || ts[i + 2].StringLiteral?) then Err(ExpectedValue)
    else
      var value := if ts[i + 2].Identifier? then ts[i + 2].name else ts[i + 2].text;
      match CompareExpr(build, ts[i].name, ts[i + 1].op, value)
      case Ok(e) => Ok((e, i + 3))
      case Err(e) => Err(e)
  }

  function ParsePrimary(build: Builder, ts: seq<Token>, i: nat): (r: Parsed)
    requires i <= |ts|
    ensures r.Ok? ==> i < r.value.1 <= |ts|
    decreases |ts| - i, 1
  {
    if SeesAt(ts, i, LParen) then
      match ParseOr(build, ts, i + 1)
      case Err(e) => Err(e)
      case Ok((e, j)) => if SeesAt(ts, j, RParen) then Ok((e, j + 1)) else Err(ExpectedRParen)
    else ParseCondition(build, ts, i)
  }

  function ParseAnd(build: Builder, ts: seq<Token>, i: nat): (r: Parsed)
    requires i <= |ts|
    ensures r.Ok? ==> i < r.value.1 <= |ts|
    decreases |ts| - i, 2
  {
    match ParsePrimary(build, ts, i)
    case Err(e) => Err(e)
    case Ok((e, j)) => AndTail(build, e, ts, j)
  }

  /** The loop of `parse_and_expression`, with `e` parsed so far. */
  function AndTail(build: Builder, e: Expr, ts: seq<Token>, i: nat): (r: Parsed)
    requires i <= |ts|
    ensures r.Ok? ==> i <= r.value.1 <= |ts|
    decreases |ts| - i, 3
  {
    if SeesAt(ts, i, Token.And) then
      match ParsePrimary(build, ts, i + 1)
      case Err(e) => Err(e)
      case Ok((right, j)) => AndTail(build, Expr.And(e, right), ts, j)
    else Ok((e, i))
  }

  function ParseOr(build: Builder, ts: seq<Token>, i: nat): (r: Parsed)
    requires i <= |ts|
    ensures r.Ok? ==> i < r.value.1 <= |ts|
    decreases |ts| - i, 4
  {
    match ParseAnd(build, ts, i)
    case Err(e) => Err(e)
    case Ok((e, j)) => OrTail(build, e, ts, j)
  }

  /** The loop of `parse_or_expression`, with `e` parsed so far. */
  function OrTail(build: Builder, e: Expr, ts: seq<Token>, i: nat): (r: Parsed)
    requires i <= |ts|
    ensures r.Ok? ==> i <= r.value.1 <= |ts|
    decreases |ts| - i, 5
  {
    if SeesAt(ts, i, Token.Or) then
      match ParseAnd(build, ts, i + 1)
      case Err(e) => Err(e)
      case Ok((right, j)) => OrTail(build, Expr.Or(e, right), ts, j)
    else Ok((e, i))
  }

  function Parse(build: Builder, ts: seq<Token>): Result<Expr, ParseError> {
    match ParseOr(build, ts, 0)
    case Err(e) => Err(e)
    case Ok((e, j)) => if j < |ts| then Err(TrailingToken) else Ok(e)
  }

  // ------------------------------------------------------------------ the parser as a cursor over the tokens

  class RunFilterParser {
    const tokens: seq<Token>
    const build: Builder
    var cursor: nat

    ghost predicate Valid()
      reads this
    {
      cursor <= |tokens|
    }

    /** What a parsing method owes its caller: the function's expression, and the cursor after it. */
    ghost predicate Did(expected: Parsed, r: Result<Expr, ParseError>)
      reads this
    {
      && Valid()
      && match expected
         case Ok((e, j)) => r == Ok(e) && cursor == j
         case Err(e) => r == Err(e)
    }

    constructor (tokens: seq<Token>, build: Builder)
      ensures Valid() && this.tokens == tokens && this.build == build && cursor == 0
    {
      this.tokens := tokens;
      this.build := build;
      this.cursor := 0;
    }

    function Peek(): Option<Token>
      reads this
    {
      if cursor < |tokens| then Some(tokens[cursor]) else None
    }

    method Next() returns (token: Option<Token>)
      requires Valid()
      modifies this
      ensures Valid()
      ensures token == old(Peek())
      ensures cursor == if token.Some? then old(cursor) + 1 else old(cursor)
    {
      token := Peek();
      if token.Some? {
        cursor := cursor + 1;
      }
    }

    method ParseConditionExpression() returns (r: Result<Expr, ParseError>)
      requires Valid()
      modifies this
      ensures Did(ParseCondition(build, tokens, old(cursor)), r)
    {
      var first := Next();
      if first.None? || !first.value.Identifier? {
        return Err(ExpectedField);
      }
      var second := Next();
      if second.None? || !second.value.Operator? {
        return Err(ExpectedOperator);
      }
      var third := Next();
      if third.None? || !(third.value.Identifier? || third.value.StringLiteral?) {
        return Err(ExpectedValue);
      }
      var value := if third.value.Identifier? then third.value.name else third.value.text;
      match build(first.value.name, second.value.op, value)
      case Ok(c) => return Ok(Expr.Condition(c));
      case Err(e) => return Err(BadCondition(e));
    }

    method ParsePrimaryExpression() returns (r: Result<Expr, ParseError>)
      requires Valid()
      modifies this
      ensures Did(ParsePrimary(build, tokens, old(cursor)), r)
      decreases |tokens| - cursor, 1
    {
      if Peek() == Some(LParen) {
        cursor := cursor + 1;
        var inner := ParseOrExpression();
        if inner.Err? {
          return inner;
        }
        if Peek() != Some(RParen) {
          return Err(ExpectedRParen);
        }
        cursor := cursor + 1;
        return inner;
      }
      r := ParseConditionExpression();
    }

    method ParseAndExpression() returns (r: Result<Expr, ParseError>)
      requires Valid()
      modifies this
      ensures Did(ParseAnd(build, tokens, old(cursor)), r)
      decreases |tokens| - cursor, 2
    {
      var first := ParsePrimaryExpression();
      if first.Err? {
        return first;
      }
      var expr := first.value;
      while Peek() == Some(Token.And)
        invariant Valid() && old(cursor) < cursor
        invariant ParseAnd(build, tokens, old(cursor)) == AndTail(build, expr, tokens, cursor)
        decreases |tokens| - cursor
      {
        cursor := cursor + 1;
        var right := ParsePrimaryExpression();
        if right.Err? {
          return right;
        }
        expr := Expr.And(expr, right.value);
      }
      return Ok(expr);
    }

    method ParseOrExpression() returns (r: Result<Expr, ParseError>)
      requires Valid()
      modifies this
      ensures Did(ParseOr(build, tokens, old(cursor)), r)
      decreases |tokens| - cursor, 3
    {
      var first := ParseAndExpression();
      if first.Err? {
        return first;
      }
      var expr := first.value;
      while Peek() == Some(Token.Or)
        invariant Valid() && old(cursor) < cursor
        invariant ParseOr(build, tokens, old(cursor)) == OrTail(build, expr, tokens, cursor)
        decreases |tokens| - cursor
      {
        cursor := cursor + 1;
        var right := ParseAndExpression();
        if right.Err? {
          return right;
        }
        expr := Expr.Or(expr, right.value);
      }
      return Ok(expr);
    }

    /** `parse`: on success every token has been consumed. */
    method ParseAll() returns (r: Result<Expr, ParseError>)
      requires cursor == 0
      modifies this
      ensures r == Parse(build, tokens)
      ensures r.Ok? ==> cursor == |tokens|
    {
      r := ParseOrExpression();
      if r.Ok? && cursor < |tokens| {
        return Err(TrailingToken);
      }
    }
  }

  // ------------------------------------------------------------------ the parser accepts exactly the grammar

  /** `part` stands at position `i` of `ts`. */
  predicate At(ts: seq<Token>, i: nat, part: seq<Token>) {
    i + |part| <= |ts| && ts[i..i + |part|] == part
  }

  lemma AtConcat(ts: seq<Token>, i: nat, a: seq<Token>, b: seq<Token>)
    ensures At(ts, i, a + b) <==> At(ts, i, a) && At(ts, i + |a|, b)
  {
    if i + |a| + |b| <= |ts| {
      var whole := ts[i..i + |a| + |b|];
      assert ts[i..i + |a|] == whole[..|a|];
      assert ts[i + |a|..i + |a| + |b|] == whole[|a|..];
      if At(ts, i, a + b) {
        assert whole == a + b;
      }
    }
  }

  lemma AtOne(ts: seq<Token>, i: nat, token: Token)
    ensures At(ts, i, [token]) <==> SeesAt(ts, i, token)
  {
    if i < |ts| {
      assert ts[i..i + 1] == [ts[i]];
    }
  }

  lemma AtMiddle(ts: seq<Token>, i: nat, a: seq<Token>, token: Token, b: seq<Token>)
    ensures At(ts, i, a + [token] + b) <==>
            At(ts, i, a) && SeesAt(ts, i + |a|, token) && At(ts, i + |a| + 1, b)
  {
    AtConcat(ts, i, a + [token], b);
    AtConcat(ts, i, a, [token]);
    AtOne(ts, i + |a|, token);
  }

  lemma {:induction false} PrimaryComplete(build: Builder, ts: seq<Token>, i: nat, p: Primary)
    requires At(ts, i, PrimaryTokens(p))
    ensures match PrimaryExpr(build, p)
            case Ok(e) => ParsePrimary(build, ts, i) == Ok((e, i + |PrimaryTokens(p)|))
            case Err(e) => ParsePrimary(build, ts, i) == Err(e)
    decreases p
  {
    match p
    case Compare(field, op, value, quoted) =>
      var here := ts[i..i + 3];
      assert here[0] == ts[i] && here[1] == ts[i + 1] && here[2] == ts[i + 2];
    case Group(inner) =>
      assert PrimaryTokens(p) == [] + [LParen] + (OrTokens(inner) + [RParen] + []);
      AtMiddle(ts, i, [], LParen, OrTokens(inner) + [RParen] + []);
      AtMiddle(ts, i + 1, OrTokens(inner), RParen, []);
      OrComplete(build, ts, i + 1, inner);
  }

  lemma {:induction false} AndComplete(build: Builder, ts: seq<Token>, i: nat, a: AndSyntax)
    requires At(ts, i, AndTokens(a))
    ensures match AndExpr(build, a)
            case Ok(e) => ParseAnd(build, ts, i) == AndTail(build, e, ts, i + |AndTokens(a)|)
            case Err(e) => ParseAnd(build, ts, i) == Err(e)
    decreases a
  {
    hide At, ParsePrimary, PrimaryExpr;
    match a
    case One(primary) => PrimaryComplete(build, ts, i, primary);
    case Both(front, last) =>
      AtMiddle(ts, i, AndTokens(front), Token.And, PrimaryTokens(last));
      AndComplete(build, ts, i, front);
      PrimaryComplete(build, ts, i + |AndTokens(front)| + 1, last);
  }

  /** Parsing a derivable token list reaches the point just after it with the denoted expression, or
      stops with the error of the first condition that does not build. */
  lemma {:induction false} OrComplete(build: Builder, ts: seq<Token>, i: nat, o: OrSyntax)
    requires At(ts, i, OrTokens(o)) && !SeesAt(ts, i + |OrTokens(o)|, Token.And)
    ensures match OrExpr(build, o)
            case Ok(e) => ParseOr(build, ts, i) == OrTail(build, e, ts, i + |OrTokens(o)|)
            case Err(e) => ParseOr(build, ts, i) == Err(e)
    decreases o
  {
    hide At, ParseAnd, AndExpr;
    match o
    case Single(only) => AndComplete(build, ts, i, only);
    case Either(first, last) =>
      AtMiddle(ts, i, OrTokens(first), Token.Or, AndTokens(last));
      OrComplete(build, ts, i, first);
      AndComplete(build, ts, i + |OrTokens(first)| + 1, last);
  }

  lemma {:induction false} PrimarySound(build: Builder, ts: seq<Token>, i: nat) returns (p: Primary)
    requires i <= |ts| && ParsePrimary(build, ts, i).Ok?
    ensures PrimaryExpr(build, p) == Ok(ParsePrimary(build, ts, i).value.0)
    ensures At(ts, i, PrimaryTokens(p)) && i + |PrimaryTokens(p)| == ParsePrimary(build, ts, i).value.1
    decreases |ts| - i, 1
  {
    if SeesAt(ts, i, LParen) {
      var inner := OrSound(build, ts, i + 1);
      p := Group(inner);
      assert PrimaryTokens(p) == [] + [LParen] + (OrTokens(inner) + [RParen] + []);
      AtMiddle(ts, i + 1, OrTokens(inner), RParen, []);
      AtMiddle(ts, i, [], LParen, OrTokens(inner) + [RParen] + []);
    } else {
      var token := ts[i + 2];
      p := Compare(ts[i].name, ts[i + 1].op, if token.Identifier? then token.name else token.text, token.StringLiteral?);
      assert PrimaryTokens(p) == [ts[i], ts[i + 1], ts[i + 2]];
    }
  }

  lemma {:induction false} AndTailSound(build: Builder, ts: seq<Token>, i: nat, a0: AndSyntax, e: Expr, j: nat)
    returns (a: AndSyntax)
    requires At(ts, i, AndTokens(a0)) && j == i + |AndTokens(a0)|
    requires AndExpr(build, a0) == Ok(e) && AndTail(build, e, ts, j).Ok?
    ensures AndExpr(build, a) == Ok(AndTail(build, e, ts, j).value.0)
    ensures At(ts, i, AndTokens(a)) && i + |AndTokens(a)| == AndTail(build, e, ts, j).value.1
    decreases |ts| - j, 3
  {
    if SeesAt(ts, j, Token.And) {
      var p := PrimarySound(build, ts, j + 1);
      var (right, k) := ParsePrimary(build, ts, j + 1).value;
      AtMiddle(ts, i, AndTokens(a0), Token.And, PrimaryTokens(p));
      a := AndTailSound(build, ts, i, Both(a0, p), Expr.And(e, right), k);
    } else {
      a := a0;
    }
  }

  lemma {:induction false} AndSound(build: Builder, ts: seq<Token>, i: nat) returns (a: AndSyntax)
    requires i <= |ts| && ParseAnd(build, ts, i).Ok?
    ensures AndExpr(build, a) == Ok(ParseAnd(build, ts, i).value.0)
    ensures At(ts, i, AndTokens(a)) && i + |AndTokens(a)| == ParseAnd(build, ts, i).value.1
    decreases |ts| - i, 2
  {
    var p := PrimarySound(build, ts, i);
    var (e, j) := ParsePrimary(build, ts, i).value;
    a := AndTailSound(build, ts, i, One(p), e, j);
  }

  lemma {:induction false} OrTailSound(build: Builder, ts: seq<Token>, i: nat, o0: OrSyntax, e: Expr, j: nat)
    returns (o: OrSyntax)
    requires At(ts, i, OrTokens(o0)) && j == i + |OrTokens(o0)|
    requires OrExpr(build, o0) == Ok(e) && OrTail(build, e, ts, j).Ok?
    ensures OrExpr(build, o) == Ok(OrTail(build, e, ts, j).value.0)
    ensures At(ts, i, OrTokens(o)) && i + |OrTokens(o)| == OrTail(build, e, ts, j).value.1
    decreases |ts| - j, 5
  {
    if SeesAt(ts, j, Token.Or) {
      var a := AndSound(build, ts, j + 1);
      var (right, k) := ParseAnd(build, ts, j + 1).value;
      AtMiddle(ts, i, OrTokens(o0), Token.Or, AndTokens(a));
      o := OrTailSound(build, ts, i, Either(o0, a), Expr.Or(e, right), k);
    } else {
      o := o0;
    }
  }

  lemma {:induction false} OrSound(build: Builder, ts: seq<Token>, i: nat) returns (o: OrSyntax)
    requires i <= |ts| && ParseOr(build, ts, i).Ok?
    ensures OrExpr(build, o) == Ok(ParseOr(build, ts, i).value.0)
    ensures At(ts, i, OrTokens(o)) && i + |OrTokens(o)| == ParseOr(build, ts, i).value.1
    decreases |ts| - i, 4
  {
    var a := AndSound(build, ts, i);
    var (e, j) := ParseAnd(build, ts, i).value;
    o := OrTailSound(build, ts, i, Single(a), e, j);
  }

  ghost predicate Derives(build: Builder, ts: seq<Token>, e: Expr) {
    exists o :: OrTokens(o) == ts && OrExpr(build, o) == Ok(e)
  }

  /** The parser succeeds on exactly the token lists the grammar derives, with the expression it
      gives them; in particular a token list derives at most one expression. */
  lemma ParseDecidesGrammar(build: Builder, ts: seq<Token>, e: Expr)
    ensures Parse(build, ts) == Ok(e) <==> Derives(build, ts, e)
  {
    if Parse(build, ts) == Ok(e) {
      var o := OrSound(build, ts, 0);
      assert OrTokens(o) == ts;
    }
    if Derives(build, ts, e) {
      var o :| OrTokens(o) == ts && OrExpr(build, o) == Ok(e);
      OrComplete(build, ts, 0, o);
    }
  }

  // ------------------------------------------------------------------ meaning

  predicate Holds(e: Expr, sat: Condition -> bool) {
    match e
    case Condition(c) => sat(c)
    case And(left, right) => Holds(left, sat) && Holds(right, sat)
    case Or(left, right) => Holds(left, sat) || Holds(right, sat)
  }

  function Groups(o: OrSyntax): (groups: seq<AndSyntax>)
    ensures groups != []
  {
    match o
    case Single(only) => [only]
    case Either(first, last) => Groups(first) + [last]
  }

  function Members(a: AndSyntax): (members: seq<Primary>)
    ensures members != []
  {
    match a
    case One(primary) => [primary]
    case Both(front, last) => Members(front) + [last]
  }

  predicate MemberHolds(build: Builder, p: Primary, sat: Condition -> bool) {
    PrimaryExpr(build, p).Ok? && Holds(PrimaryExpr(build, p).value, sat)
  }

  predicate GroupHolds(build: Builder, a: AndSyntax, sat: Condition -> bool) {
    forall j :: 0 <= j < |Members(a)| ==> MemberHolds(build, Members(a)[j], sat)
  }

  lemma {:induction false} AndMeaning(build: Builder, a: AndSyntax, sat: Condition -> bool)
    requires AndExpr(build, a).Ok?
    ensures Holds(AndExpr(build, a).value, sat) <==> GroupHolds(build, a, sat)
  {
    match a
    case One(primary) => assert Members(a)[0] == primary;
    case Both(front, last) =>
      AndMeaning(build, front, sat);
      var n := |Members(front)|;
      assert Members(a)[n] == last;
      assert forall j :: 0 <= j < n ==> Members(a)[j] == Members(front)[j];
  }

  /** A filter holds exactly when some of its OR-groups has every AND-member hold. */
  lemma {:induction false} OrMeaning(build: Builder, o: OrSyntax, sat: Condition -> bool)
    requires OrExpr(build, o).Ok?
    ensures Holds(OrExpr(build, o).value, sat) <==>
            exists i :: 0 <= i < |Groups(o)| && GroupHolds(build, Groups(o)[i], sat)
  {
    match o
    case Single(only) =>
      AndMeaning(build, only, sat);
      assert Groups(o)[0] == only;
    case Either(first, last) =>
      OrMeaning(build, first, sat);
      AndMeaning(build, last, sat);
      var n := |Groups(first)|;
      assert Groups(o)[n] == last;
      assert forall i :: 0 <= i < n ==> Groups(o)[i] == Groups(first)[i];
  }

  /** Whatever text spelled them, the tokens decide which runs a parsed filter selects: those for
      which some derivation's OR-group holds in full. */
  lemma ParsedMeaning(build: Builder, o: OrSyntax, e: Expr, sat: Condition -> bool)
    requires Parse(build, OrTokens(o)) == Ok(e)
    ensures OrExpr(build, o) == Ok(e)
    ensures Holds(e, sat) <==> exists i :: 0 <= i < |Groups(o)| && GroupHolds(build, Groups(o)[i], sat)
  {
    OrComplete(build, OrTokens(o), 0, o);
    OrMeaning(build, o, sat);
  }
}
