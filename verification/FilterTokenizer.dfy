/** The tokenizer of the run-filter language and the lexical grammar it decides. */
module FilterTokenizer {
  import opened Wrappers
  import opened Text

  const MAX_TOKENS := 256

  datatype Token =
    | Identifier(name: string)
    | StringLiteral(text: string)
    | Operator(op: string)
    | And
    | Or
    | LParen
    | RParen

  datatype LexError =
    | UnterminatedString
    | ExpectedNotEq
    | UnexpectedBoundary
    | TooManyTokens

  predicate IsQuote(c: char) {
    c == '"' || c == '\''
  }

  predicate IsWordChar(c: char) {
    !IsWhitespace(c) && c !in {'(', ')', '~', '!', '>', '<', '=', '"', '\''}
  }

  predicate IsWord(s: string) {
    s != [] && forall i :: 0 <= i < |s| ==> IsWordChar(s[i])
  }

  predicate IsOperator(s: string) {
    s in {"~", "=", ">", "<", "!=", ">=", "<="}
  }

  // ------------------------------------------------------------------ lexical grammar

  /** `body`, the text between two `quote` characters, denotes `value`: a backslash makes the next
      character literal, every other character stands for itself, and a bare quote cannot occur. */
  predicate Unescapes(body: string, quote: char, value: string)
    decreases |body|
  {
    if body == [] then value == []
    else if body[0] == '\\' then
      |body| >= 2 && value != [] && value[0] == body[1] && Unescapes(body[2..], quote, value[1..])
    else
      body[0] != quote && value != [] && value[0] == body[0] && Unescapes(body[1..], quote, value[1..])
  }

  /** `lexeme` is a spelling of `token`. */
  predicate Spells(lexeme: string, token: Token) {
    match token
    case LParen => lexeme == "("
    case RParen => lexeme == ")"
    case Operator(op) => lexeme == op && IsOperator(op)
    case StringLiteral(text) =>
      && |lexeme| >= 2
      && IsQuote(lexeme[0])
      && lexeme[|lexeme| - 1] == lexeme[0]
      && Unescapes(lexeme[1..|lexeme| - 1], lexeme[0], text)
    case And => IsWord(lexeme) && Lower(lexeme) == "and"
    case Or => IsWord(lexeme) && Lower(lexeme) == "or"
    case Identifier(name) => lexeme == name && IsWord(name) && Lower(name) != "and" && Lower(name) != "or"
  }

  /** Longest match: `token` may end where `rest` begins. */
  predicate EndsBefore(token: Token, rest: string) {
    match token
    case Operator(op) => op in {">", "<"} ==> rest == [] || rest[0] != '='
    case StringLiteral(_) => true
    case LParen => true
    case RParen => true
    case _ => rest == [] || !IsWordChar(rest[0])
  }

  /** `s` is the spellings of `tokens` in order, with nothing but whitespace around and between them. */
  ghost predicate Lexes(s: string, tokens: seq<Token>)
    decreases |tokens|
  {
    if tokens == [] then AllWhitespace(s)
    else exists gap: nat, width: nat ::
           StartsWith(s, tokens[0], gap, width) && Lexes(s[gap + width..], tokens[1..])
  }

  /** After `gap` whitespace characters, the next `width` characters of `s` are `token`. */
  predicate StartsWith(s: string, token: Token, gap: nat, width: nat) {
    && gap + width <= |s|
    && AllWhitespace(s[..gap])
    && Spells(s[gap..gap + width], token)
    && EndsBefore(token, s[gap + width..])
  }

  // ------------------------------------------------------------------ the tokenizer as a function

  type Literal = Result<(string, nat), LexError>

  /** The literal `r` with `front` read before it, over `n` characters. */
  function Prepend(front: string, n: nat, r: Literal): Literal {
    match r
    case Ok((text, m)) => Ok((front + text, n + m))
    case Err(e) => Err(e)
  }

  lemma PrependTwice(a: string, n: nat, b: string, m: nat, r: Literal)
    ensures Prepend(a, n, Prepend(b, m, r)) == Prepend(a + b, n + m, r)
    ensures Prepend([], 0, r) == r
  {
    if r.Ok? {
      assert a + (b + r.value.0) == (a + b) + r.value.0;
      assert [] + r.value.0 == r.value.0;
    }
  }

  /** The string-literal loop, started just after the opening quote: the value and the number of
      characters taken, closing quote included. */
  function ScanString(s: string, quote: char): (r: Literal)
    ensures r.Ok? ==> 0 < r.value.1 <= |s|
    ensures r.Err? ==> r.error == UnterminatedString
    decreases |s|
  {
    if s == [] then Err(UnterminatedString)
    else if s[0] == '\\' && |s| > 1 then Prepend([s[1]], 2, ScanString(s[2..], quote))
    else if s[0] == quote then Ok(([], 1))
    else Prepend([s[0]], 1, ScanString(s[1..], quote))
  }

  /** The number of leading word characters. */
  function WordLen(s: string): (n: nat)
    ensures n <= |s|
    ensures forall i :: 0 <= i < n ==> IsWordChar(s[i])
    ensures n < |s| ==> !IsWordChar(s[n])
    decreases |s|
  {
    if s != [] && IsWordChar(s[0]) then 1 + WordLen(s[1..]) else 0
  }

  function ClassifyWord(word: string): Token {
    if Lower(word) == "and" then And
    else if Lower(word) == "or" then Or
    else Identifier(word)
  }

  /** One token, and how many characters it takes. */
  function NextToken(s: string): (r: Result<(Token, nat), LexError>)
    requires s != [] && !IsWhitespace(s[0])
    ensures r.Ok? ==> 0 < r.value.1 <= |s|
    ensures r.Err? ==> r.error == UnterminatedString || r.error == ExpectedNotEq
  {
    var c := s[0];
    if c == '(' then Ok((LParen, 1))
    else if c == ')' then Ok((RParen, 1))
    else if c == '~' then Ok((Operator("~"), 1))
    else if IsQuote(c) then
      match ScanString(s[1..], c)
      case Ok((text, n)) => Ok((StringLiteral(text), n + 1))
      case Err(e) => Err(e)
    else if c in {'!', '>', '<', '='} then
      if |s| > 1 && s[1] == '=' && c != '=' then Ok((Operator([c, '=']), 2))
      else if c == '!' then Err(ExpectedNotEq)
      else Ok((Operator([c]), 1))
    else
      var n := WordLen(s);
      if n == 0 then Err(UnexpectedBoundary) else Ok((ClassifyWord(s[..n]), n))
  }

  function Scan(s: string): (r: Result<seq<Token>, LexError>)
    ensures r.Err? ==> r.error == UnterminatedString || r.error == ExpectedNotEq
    decreases |s|
  {
    if s == [] then Ok([])
    else if IsWhitespace(s[0]) then Scan(s[1..])
    else
      match NextToken(s)
      case Err(e) => Err(e)
      case Ok((token, n)) =>
        match Scan(s[n..])
        case Ok(tokens) => Ok([token] + tokens)
        case Err(e) => Err(e)
  }

  function Tokenize(s: string): Result<seq<Token>, LexError> {
    match Scan(s)
    case Ok(tokens) => if |tokens| > MAX_TOKENS then Err(TooManyTokens) else Ok(tokens)
    case Err(e) => Err(e)
  }

  // ------------------------------------------------------------------ the tokenizer as a loop

  lemma ScanStringStep(chars: string, idx: nat, quote: char)
    requires idx <= |chars|
    ensures idx == |chars| ==> ScanString(chars[idx..], quote) == Err(UnterminatedString)
    ensures idx < |chars| ==>
              ScanString(chars[idx..], quote) ==
              if chars[idx] == '\\' && idx + 1 < |chars| then Prepend([chars[idx + 1]], 2, ScanString(chars[idx + 2..], quote))
              else if chars[idx] == quote then Ok(([], 1))
              else Prepend([chars[idx]], 1, ScanString(chars[idx + 1..], quote))
  {
    assert idx + 1 < |chars| ==> chars[idx..][2..] == chars[idx + 2..];
    assert idx < |chars| ==> chars[idx..][1..] == chars[idx + 1..];
  }

  /** The inner loop over a string literal, from `start` (just after the opening quote). */
  method ReadString(chars: string, start: nat, quote: char) returns (r: Literal)
    requires start <= |chars|
    ensures r == match ScanString(chars[start..], quote)
                 case Ok((text, n)) => Ok((text, start + n))
                 case Err(e) => Err(e)
  {
    hide ScanString;
    var idx := start;
    var value: string := [];
    PrependTwice([], 0, [], 0, ScanString(chars[start..], quote));
    while idx < |chars|
      invariant start <= idx <= |chars|
      invariant ScanString(chars[start..], quote) == Prepend(value, idx - start, ScanString(chars[idx..], quote))
      decreases |chars| - idx
    {
      var current := chars[idx];
      ScanStringStep(chars, idx, quote);
      if current == '\\' && idx + 1 < |chars| {
        PrependTwice(value, idx - start, [chars[idx + 1]], 2, ScanString(chars[idx + 2..], quote));
        value := value + [chars[idx + 1]];
        idx := idx + 2;
      } else if current == quote {
        assert value + [] == value;
        return Ok((value, idx + 1));
      } else {
        PrependTwice(value, idx - start, [current], 1, ScanString(chars[idx + 1..], quote));
        value := value + [current];
        idx := idx + 1;
      }
    }
    ScanStringStep(chars, idx, quote);
    return Err(UnterminatedString);
  }

  method ReadWord(chars: string, start: nat) returns (idx: nat)
    requires start <= |chars|
    ensures idx == start + WordLen(chars[start..])
  {
    idx := start;
    while idx < |chars| && IsWordChar(chars[idx])
      invariant start <= idx <= |chars|
      invariant WordLen(chars[start..]) == idx - start + WordLen(chars[idx..])
    {
      assert chars[idx..][1..] == chars[idx + 1..];
      idx := idx + 1;
    }
  }

  /** The `match` on the character at `idx`, which is not whitespace. */
  method ReadToken(raw: string, idx: nat) returns (r: Result<(Token, nat), LexError>)
    requires idx < |raw| && !IsWhitespace(raw[idx])
    ensures r == match NextToken(raw[idx..])
                 case Ok((token, n)) => Ok((token, idx + n))
                 case Err(e) => Err(e)
  {
    var ch := raw[idx];
    ghost var here := raw[idx..];
    if ch == '(' {
      return Ok((LParen, idx + 1));
    } else if ch == ')' {
      return Ok((RParen, idx + 1));
    } else if ch == '~' {
      return Ok((Operator("~"), idx + 1));
    } else if IsQuote(ch) {
      assert here[1..] == raw[idx + 1..];
      var literal := ReadString(raw, idx + 1, ch);
      if literal.Err? {
        return Err(literal.error);
      }
      return Ok((StringLiteral(literal.value.0), literal.value.1));
    } else if ch in {'!', '>', '<', '='} {
      if idx + 1 < |raw| && raw[idx + 1] == '=' && ch != '=' {
        return Ok((Operator([ch, '=']), idx + 2));
      } else if ch == '!' {
        return Err(ExpectedNotEq);
      }
      return Ok((Operator([ch]), idx + 1));
    }
    var next := ReadWord(raw, idx);
    assert here[..next - idx] == raw[idx..next];
    var word := raw[idx..next];
    if word == [] {
      return Err(UnexpectedBoundary);
    }
    return Ok((ClassifyWord(word), next));
  }

  method TokenizeRunFilter(raw: string) returns (r: Result<seq<Token>, LexError>)
    ensures r == Tokenize(raw)
    ensures r != Err(UnexpectedBoundary)
  {
    var tokens: seq<Token> := [];
    var idx := 0;
    assert raw[0..] == raw;
    assert Scan(raw).Ok? ==> tokens + Scan(raw).value == Scan(raw).value;
    while idx < |raw|
      invariant 0 <= idx <= |raw|
      invariant Scan(raw) == match Scan(raw[idx..])
                             case Ok(rest) => Ok(tokens + rest)
                             case Err(e) => Err(e)
      decreases |raw| - idx
    {
      ghost var here := raw[idx..];
      if IsWhitespace(raw[idx]) {
        assert here[1..] == raw[idx + 1..];
        idx := idx + 1;
        continue;
      }
      var step := ReadToken(raw, idx);
      if step.Err? {
        return Err(step.error);
      }
      var (token, next) := step.value;
      assert here[next - idx..] == raw[next..];
      assert Scan(here).Ok? ==> tokens + Scan(here).value == tokens + [token] + Scan(here).value[1..];
      tokens := tokens + [token];
      idx := next;
    }
    assert tokens + [] == tokens;
    if |tokens| > MAX_TOKENS {
      return Err(TooManyTokens);
    }
    return Ok(tokens);
  }

  // ------------------------------------------------------------------ the tokenizer decides the grammar

  lemma {:induction false} ScanStringSound(s: string, quote: char)
    requires IsQuote(quote) && ScanString(s, quote).Ok?
    ensures var (text, n) := ScanString(s, quote).value;
            s[n - 1] == quote && Unescapes(s[..n - 1], quote, text)
    decreases |s|
  {
    var (text, n) := ScanString(s, quote).value;
    if s[0] == '\\' && |s| > 1 {
      assert text == [s[1]] + text[1..];
      ScanStringSound(s[2..], quote);
      assert s[..n - 1][2..] == s[2..][..n - 3];
    } else if s[0] != quote {
      ScanStringSound(s[1..], quote);
      assert s[..n - 1][1..] == s[1..][..n - 2];
    }
  }

  lemma {:induction false} ScanStringComplete(body: string, rest: string, quote: char, text: string)
    requires IsQuote(quote) && Unescapes(body, quote, text)
    ensures ScanString(body + [quote] + rest, quote) == Ok((text, |body| + 1))
    decreases |body|
  {
    var s := body + [quote] + rest;
    if body == [] {
    } else if body[0] == '\\' {
      ScanStringComplete(body[2..], rest, quote, text[1..]);
      assert s[2..] == body[2..] + [quote] + rest;
      assert text == [text[0]] + text[1..];
    } else {
      ScanStringComplete(body[1..], rest, quote, text[1..]);
      assert s[1..] == body[1..] + [quote] + rest;
      assert text == [text[0]] + text[1..];
    }
  }

  lemma NextTokenSound(s: string)
    requires s != [] && !IsWhitespace(s[0]) && NextToken(s).Ok?
    ensures var (token, n) := NextToken(s).value;
            Spells(s[..n], token) && EndsBefore(token, s[n..])
  {
    var (token, n) := NextToken(s).value;
    if IsQuote(s[0]) {
      ScanStringSound(s[1..], s[0]);
      assert s[..n][1..n - 1] == s[1..][..n - 2];
    }
  }

  lemma WordLenUnique(s: string, n: nat)
    requires n <= |s| && IsWord(s[..n])
    requires s[n..] == [] || !IsWordChar(s[n..][0])
    ensures IsWordChar(s[0]) && WordLen(s) == n
  {
    assert forall i :: 0 <= i < n ==> s[..n][i] == s[i];
    assert n < |s| ==> s[n..][0] == s[n];
  }

  lemma NextTokenComplete(s: string, token: Token, n: nat)
    requires n <= |s| && Spells(s[..n], token) && EndsBefore(token, s[n..])
    ensures s != [] && !IsWhitespace(s[0])
    ensures NextToken(s) == Ok((token, n))
  {
    var lexeme := s[..n];
    assert lexeme != [] && lexeme[0] == s[0];
    if token.StringLiteral? {
      var body := lexeme[1..n - 1];
      ScanStringComplete(body, s[n..], s[0], token.text);
      assert s[1..] == body + [s[0]] + s[n..];
    } else if token.Operator? {
      assert lexeme == token.op;
    } else if token.And? || token.Or? || token.Identifier? {
      WordLenUnique(s, n);
    }
  }

  /** Leading whitespace is always in the gap, and nothing else is. */
  lemma GapIsWhitespace(s: string, token: Token, gap: nat, width: nat)
    requires s != [] && StartsWith(s, token, gap, width)
    ensures gap > 0 <==> IsWhitespace(s[0])
  {
    if gap == 0 {
      NextTokenComplete(s, token, width) by { assert s[0..width] == s[..width]; }
    } else {
      assert s[..gap][0] == s[0];
    }
  }

  lemma SliceOfTail(s: string, lo: nat, hi: nat)
    requires lo <= hi < |s|
    ensures s[lo + 1..hi + 1] == s[1..][lo..hi]
    ensures s[hi + 1..] == s[1..][hi..]
    ensures s[..lo + 1] == [s[0]] + s[1..][..lo]
  {
  }

  lemma StartsAfterSpace(s: string, token: Token, gap: nat, width: nat)
    requires s != [] && IsWhitespace(s[0])
    ensures StartsWith(s, token, gap + 1, width) <==> StartsWith(s[1..], token, gap, width)
    ensures gap + 1 + width <= |s| ==> s[gap + 1 + width..] == s[1..][gap + width..]
  {
    if gap + 1 + width <= |s| {
      SliceOfTail(s, gap, gap + width);
      assert s[1..][..gap] == s[..gap + 1][1..];
    }
  }

  lemma {:induction false} LexesSkipsSpace(s: string, tokens: seq<Token>)
    requires s != [] && IsWhitespace(s[0])
    ensures Lexes(s, tokens) <==> Lexes(s[1..], tokens)
  {
    if tokens == [] {
      assert s == [s[0]] + s[1..];
    } else {
      if Lexes(s, tokens) {
        var gap: nat, width: nat :|
          StartsWith(s, tokens[0], gap, width) && Lexes(s[gap + width..], tokens[1..]);
        GapIsWhitespace(s, tokens[0], gap, width);
        StartsAfterSpace(s, tokens[0], gap - 1, width);
      }
      if Lexes(s[1..], tokens) {
        var gap: nat, width: nat :|
          StartsWith(s[1..], tokens[0], gap, width) && Lexes(s[1..][gap + width..], tokens[1..]);
        StartsAfterSpace(s, tokens[0], gap, width);
      }
    }
  }

  /** The scan succeeds with exactly the token list that the lexical grammar gives the text: the
      grammar is unambiguous, and a text it gives no token list is rejected. */
  lemma {:induction false} ScanDecidesLexes(s: string, tokens: seq<Token>)
    ensures Scan(s) == Ok(tokens) <==> Lexes(s, tokens)
    decreases |s|
  {
    if s == [] {
      if tokens != [] && Lexes(s, tokens) {
        var gap: nat, width: nat :|
          StartsWith(s, tokens[0], gap, width) && Lexes(s[gap + width..], tokens[1..]);
        NextTokenComplete(s, tokens[0], width) by { assert s[..width] == s[gap..gap + width]; }
      }
    } else if IsWhitespace(s[0]) {
      ScanDecidesLexes(s[1..], tokens);
      LexesSkipsSpace(s, tokens);
    } else {
      if Scan(s) == Ok(tokens) {
        var (token, n) := NextToken(s).value;
        NextTokenSound(s);
        ScanDecidesLexes(s[n..], tokens[1..]);
        assert s[0..n] == s[..n];
        assert StartsWith(s, tokens[0], 0, n);
      }
      if Lexes(s, tokens) && tokens != [] {
        var gap: nat, width: nat :|
          StartsWith(s, tokens[0], gap, width) && Lexes(s[gap + width..], tokens[1..]);
        GapIsWhitespace(s, tokens[0], gap, width);
        assert s[0..width] == s[..width];
        NextTokenComplete(s, tokens[0], width);
        ScanDecidesLexes(s[width..], tokens[1..]);
        assert tokens == [tokens[0]] + tokens[1..];
      }
    }
  }

  /** Tokenizing succeeds exactly on texts of the lexical grammar with at most 256 tokens; within
      the grammar, the only error is the token limit. */
  lemma TokenizeDecidesLexes(s: string, tokens: seq<Token>)
    ensures Tokenize(s) == Ok(tokens) <==> Lexes(s, tokens) && |tokens| <= MAX_TOKENS
    ensures Lexes(s, tokens) && |tokens| > MAX_TOKENS ==> Tokenize(s) == Err(TooManyTokens)
  {
    ScanDecidesLexes(s, tokens);
  }
}
