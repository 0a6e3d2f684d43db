/** The token a SQL text holds at a position, as a function of the text alone.
    `SqlLexer` computes these tokens with a moving cursor; everything proved
    about tokens is proved here, about the functions. */
module SqlText {
  import opened Wrappers

  /** The ways lexing and parsing can throw. `Syntax` carries the error position. */
  datatype SqlError = UnexpectedEnd | Syntax(pos: nat) | NotImplemented

  datatype TokenType =
    | Undefined | Id | Int | BigInt | Double | Str | Sign
    | Blank | Comment | Eos | UserVar | Arith

  /** What the lexer's fields hold once a token is loaded: the slice
      [start, end) is the token's text without quotes or comment marks, and
      `curr` is where the next token begins. */
  datatype Token = Token(typ: TokenType, quotes: string, prefix: string,
                         start: nat, end: nat, curr: nat)

  type Lexed = Result<Token, SqlError>

  const MAX_SAFE_DIGITS := "9007199254740991"
  const MAX_SAFE_INTEGER := 9007199254740991

  // ---- character classes ----

  predicate IsBlank(c: char) {
    c == ' ' || c == '\n' || c == '\r' || c == '\t' || c == '\U{000B}' || c == '\U{000C}'
  }

  predicate IsDigit(c: char) {
    '0' <= c <= '9'
  }

  /** Letters of an unquoted name: everything from U+0080 on counts. */
  predicate IsLetter(c: char) {
    'a' <= c <= 'z' || 'A' <= c <= 'Z' || c == '$' || c == '_' || c >= '\U{0080}'
  }

  predicate IsVarChar(c: char) {
    IsDigit(c) || IsLetter(c) || c == '.'
  }

  predicate IsSign(c: char) {
    c == '>' || c == '<' || c == '=' || c == '!' || c == ':' || c == ',' || c == ';' || c == '('
    || c == ')' || c == ']' || c == '@' || c == '?' || c == '|' || c == '^' || c == '&' || c == '~'
  }

  // ---- scanners ----

  /** The end of the blank run that starts at i. */
  function BlankEnd(s: string, i: nat): (k: nat)
    requires i <= |s|
    ensures i <= k <= |s|
    ensures forall j | i <= j < k :: IsBlank(s[j])
    ensures k < |s| ==> !IsBlank(s[k])
    decreases |s| - i
  {
    if i < |s| && IsBlank(s[i]) then BlankEnd(s, i + 1) else i
  }

  /** Just after the first newline at or after i, or the end of the text. */
  function LineStop(s: string, i: nat): (k: nat)
    requires i <= |s|
    ensures i <= k <= |s|
    ensures forall j | i <= j < k - 1 :: s[j] != '\n'
    ensures k == |s| || (i < k && s[k - 1] == '\n')
    decreases |s| - i
  {
    if i == |s| then i else if s[i] == '\n' then i + 1 else LineStop(s, i + 1)
  }

  /** A line comment whose body starts at i: the newline, and a carriage
      return before it, are outside the span; at the end of the text the last
      character is outside too, even when that puts `end` below `start`. */
  function LineComment(s: string, i: nat, mark: string): Token
    requires 0 < i <= |s|
  {
    var k := LineStop(s, i);
    var crlf := i < k && 2 <= k && s[k - 2] == '\r';
    Token(Comment, "", mark, i, if crlf then k - 2 else k - 1, k)
  }

  /** The block comment loop from i: where it stops, whether a star was ever
      read, and the last character read. A star consumes the character after
      it, so stars are read in pairs. */
  function BlockScan(s: string, i: nat, star: bool, last: char): (r: (nat, bool, char))
    requires i <= |s|
    ensures i <= r.0 <= |s|
    decreases |s| - i
  {
    if i == |s| then (i, star, last)
    else if s[i] == '*' && i + 1 < |s| then
      if s[i + 1] == '/' then (i + 2, true, '/')
      else BlockScan(s, i + 2, true, s[i + 1])
    else BlockScan(s, i + 1, star, s[i])
  }

  function BlockComment(s: string, i: nat): Token
    requires 2 <= i <= |s|
  {
    var r := BlockScan(s, i, false, '*');
    Token(Comment, "", "/*", i, if r.1 && r.2 == '/' then r.0 - 2 else r.0, r.0)
  }

  /** The index of the quote that closes a quoted text whose body starts at i:
      doubled quotes belong to the body. With `nul` a NUL character is refused. */
  function CloseQuote(s: string, i: nat, q: char, nul: bool): (r: Result<nat, SqlError>)
    ensures r.Ok? ==> i <= r.value < |s| && s[r.value] == q
    decreases |s| - i
  {
    if i >= |s| then Err(UnexpectedEnd)
    else if s[i] == q then
      if i + 1 < |s| && s[i + 1] == q then CloseQuote(s, i + 2, q, nul) else Ok(i)
    else if nul && s[i] == '\0' then Err(Syntax(i))
    else CloseQuote(s, i + 1, q, nul)
  }

  function QuotedId(s: string, i: nat, c: char): Lexed {
    var k :- CloseQuote(s, i, if c == '[' then ']' else c, true);
    Ok(Token(Id, [c], [c], i, k, k + 1))
  }

  function StringToken(s: string, i: nat, q: char): Lexed {
    var k :- CloseQuote(s, i, q, false);
    Ok(Token(Str, "", [q], i, k, k + 1))
  }

  /** The end of the run of user-variable characters that starts at i. */
  function VarEnd(s: string, i: nat): (k: nat)
    requires i <= |s|
    ensures i <= k <= |s|
    ensures forall j | i <= j < k :: IsVarChar(s[j])
    ensures k < |s| ==> !IsVarChar(s[k])
    decreases |s| - i
  {
    if i < |s| && IsVarChar(s[i]) then VarEnd(s, i + 1) else i
  }

  predicate IsVarQuote(c: char) {
    c == '`' || c == '\'' || c == '"'
  }

  /** The name of a user variable, which may be empty. */
  function UserVarToken(s: string, p: nat): Lexed
    requires p <= |s|
  {
    if p == |s| then Ok(Token(UserVar, "", "", p, p, p))
    else if IsVarQuote(s[p]) then
      var k :- CloseQuote(s, p + 1, s[p], false);
      Ok(Token(UserVar, [s[p]], [s[p]], p + 1, k, k + 1))
    else
      Ok(Token(UserVar, "", [s[p]], p, VarEnd(s, p), VarEnd(s, p)))
  }

  // ---- numbers and unquoted names ----

  /** The word scanner's state: whether the word can still be a number, and
      the positions of its dot, its exponent mark, its exponent sign and its
      last leading zero (-1, or the index before the word, when absent). */
  datatype WordState = WordState(num: bool, dot: int, exp: int, sign: int, zero: int)

  datatype WordScan = WordEnd(end: nat, st: WordState) | WordSign(end: nat) | WordError(pos: nat)

  /** One character of the word that starts at p: `WordEnd` stops before it. */
  function WordStep(s: string, p: nat, k: nat, st: WordState): Result<WordState, WordScan>
    requires p <= k < |s|
  {
    var c := s[k];
    if IsDigit(c) then
      Ok(st.(num := st.num || k == p, zero := if c == '0' && st.zero == k - 1 then k else st.zero))
    else if c == '.' then
      if st.dot != -1 then Err(WordError(k))
      else if st.num || k == p then Ok(st.(dot := k))
      else Err(WordEnd(k, st))
    else if IsLetter(c) then
      var mark := (c == 'e' || c == 'E') && st.num && st.exp == -1;
      var st' := if mark then st.(exp := k) else st.(num := false);
      if !st'.num && st'.dot != -1 then
        if st'.dot == p + 1 then Err(WordSign(k)) else Err(WordError(k))
      else Ok(st')
    else if (c == '+' || c == '-') && st.exp != -1 && st.exp == k - 1 then Ok(st.(sign := k))
    else Err(WordEnd(k, st))
  }

  function WordFrom(s: string, p: nat, k: nat, st: WordState): (r: WordScan)
    requires p <= k <= |s|
    ensures r.WordEnd? || r.WordSign? ==> k <= r.end <= |s|
    decreases |s| - k
  {
    if k == |s| then WordEnd(k, st)
    else
      match WordStep(s, p, k, st)
      case Ok(st') => WordFrom(s, p, k + 1, st')
      case Err(r) => r
  }

  /** JavaScript's `>` on strings of digits. */
  predicate StringGreater(a: string, b: string) {
    |a| > 0 && (|b| == 0 || a[0] > b[0] || (a[0] == b[0] && StringGreater(a[1..], b[1..])))
  }

  /** Integers are classed by the digits after the leading zeros; the count is
      one too high because the index before the word stands for "no zero". */
  function IntegerType(s: string, p: nat, k: nat, zero: int): TokenType
    requires p <= k <= |s|
  {
    var n := k - zero;
    if n > |MAX_SAFE_DIGITS| then BigInt
    else if n < |MAX_SAFE_DIGITS| then Int
    else if StringGreater(s[p..k], MAX_SAFE_DIGITS) then BigInt
    else Int
  }

  /** What a completed word is. */
  function WordType(s: string, p: nat, k: nat, st: WordState): Result<TokenType, SqlError>
    requires p <= k <= |s|
  {
    if !st.num then Ok(Id)
    else if st.dot != -1 && st.exp != -1 && st.dot > st.exp && st.dot >= 0 then Err(Syntax(st.dot))
    else if st.exp == k - 1 then Ok(Id)
    else if st.sign != -1 && st.sign == k - 1 && st.sign >= 0 then Err(Syntax(st.sign))
    else if st.dot != -1 || st.exp != -1 then Ok(Double)
    else Ok(IntegerType(s, p, k, st.zero))
  }

  function WordStart(s: string, p: nat): (nat, WordState)
    requires p < |s|
  {
    if s[p] == '.' then (p + 1, WordState(true, p, -1, -1, p - 1))
    else (p, WordState(false, -1, -1, -1, p - 1))
  }

  /** A dot, a number or an unquoted name; an unknown character yields an
      empty name without progress. */
  function WordToken(s: string, p: nat): Lexed
    requires p < |s|
  {
    if s[p] == '.' && p + 1 >= |s| then Err(UnexpectedEnd)
    else if s[p] == '.' && !IsDigit(s[p + 1]) then Ok(Token(Sign, "", ".", p, p + 1, p + 1))
    else
      var (k, st) := WordStart(s, p);
      match WordFrom(s, p, k, st)
      case WordError(pos) => Err(Syntax(pos))
      case WordSign(end) => Ok(Token(Sign, "", [s[p]], p, end, end))
      case WordEnd(end, st') =>
        var typ :- WordType(s, p, end, st');
        Ok(Token(typ, "", [s[p]], p, end, end))
  }

  // ---- the next token ----

  function Single(typ: TokenType, s: string, p: nat): Token
    requires p < |s|
  {
    Token(typ, "", [s[p]], p, p + 1, p + 1)
  }

  /** The token at p, when a text is lexed with `quotes` as its identifier quote. */
  function Lex(quotes: char, s: string, p: nat): Lexed
    requires p <= |s|
  {
    if p == |s| then Ok(Token(Eos, "", "", p, p, p))
    else
      var c := s[p];
      if c == '-' then
        if p + 1 == |s| then Err(UnexpectedEnd)
        else if s[p + 1] != '-' then Ok(Single(Arith, s, p))
        else Ok(LineComment(s, p + 2, "--"))
      else if c == '#' then Ok(LineComment(s, p + 1, "#"))
      else if c == '/' then
        if p + 1 == |s| then Err(UnexpectedEnd)
        else if s[p + 1] == '/' then Ok(LineComment(s, p + 2, "//"))
        else if s[p + 1] == '*' then Ok(BlockComment(s, p + 2))
        else Ok(Single(Arith, s, p))
      else if IsBlank(c) then Ok(Token(Blank, "", [c], p, BlankEnd(s, p + 1), BlankEnd(s, p + 1)))
      else if c == '`' then QuotedId(s, p + 1, c)
      else if c == '[' then if c == quotes then QuotedId(s, p + 1, c) else Ok(Single(Sign, s, p))
      else if c == '"' then if c == quotes then QuotedId(s, p + 1, c) else StringToken(s, p + 1, c)
      else if c == '\'' then StringToken(s, p + 1, c)
      else if c == '+' || c == '*' || c == '%' then Ok(Single(Arith, s, p))
      else if IsSign(c) then Ok(Single(Sign, s, p))
      else WordToken(s, p)
  }

  predicate IsFiller(t: TokenType) {
    t == Blank || t == Comment
  }

  /** The scanner's spans: a token lies inside the text, and the two kinds the
      parser skips always move the cursor forward. */
  lemma WordBounds(s: string, p: nat)
    requires p < |s| && WordToken(s, p).Ok?
    ensures var t := WordToken(s, p).value;
            && p == t.start <= t.end == t.curr <= |s| && t.quotes == ""
            && t.typ != Eos && t.typ != Comment && t.typ != Blank && t.typ != Str
            && (t.typ == Sign ==> p < t.curr)
  {
  }

  lemma LexBounds(quotes: char, s: string, p: nat)
    requires p <= |s| && Lex(quotes, s, p).Ok?
    ensures var t := Lex(quotes, s, p).value;
            && p <= t.curr <= |s|
            && (t.typ == Eos <==> p == |s|)
            && (IsFiller(t.typ) ==> p < t.curr)
            && (t.typ == Sign ==> p < t.curr)
            && (t.typ != Comment ==> p <= t.start <= t.end <= t.curr)
            && (t.typ == Id && t.quotes != "" ==> |t.quotes| == 1 && t.start == p + 1 && t.end + 1 == t.curr)
            && (t.typ != Id ==> t.quotes == "")
            && (t.quotes == "" && t.typ != Comment && t.typ != Str ==> t.start == p && t.end == t.curr)
  {
    hide LineStop, CloseQuote, VarEnd, BlankEnd, WordToken;
    if p < |s| && WordToken(s, p).Ok? {
      WordBounds(s, p);
    }
  }

  /** The first token at or after p that is neither blank nor comment. */
  function Skip(quotes: char, s: string, p: nat): (r: Lexed)
    requires p <= |s|
    ensures r.Ok? ==> p <= r.value.curr <= |s| && !IsFiller(r.value.typ)
    decreases |s| - p
  {
    var t :- Lex(quotes, s, p);
    LexBounds(quotes, s, p);
    if IsFiller(t.typ) then Skip(quotes, s, t.curr) else Ok(t)
  }

  /** [i, j) is a whole number of blank and comment tokens. */
  ghost predicate Filler(quotes: char, s: string, i: nat, j: nat)
    decreases |s| - i
  {
    i == j ||
    (i < j <= |s| && Lex(quotes, s, i).Ok? &&
     var t := Lex(quotes, s, i).value;
     IsFiller(t.typ) && i < t.curr <= j && Filler(quotes, s, t.curr, j))
  }

  /** Skipping stops at the first position reached through filler alone whose
      token is not filler, and that position is the only such one. */
  lemma {:induction false} SkipLandsAfterFiller(quotes: char, s: string, p: nat) returns (i: nat)
    requires p <= |s| && Skip(quotes, s, p).Ok?
    ensures p <= i <= |s| && Filler(quotes, s, p, i)
    ensures Lex(quotes, s, i) == Skip(quotes, s, p)
    decreases |s| - p
  {
    LexBounds(quotes, s, p);
    var t := Lex(quotes, s, p).value;
    if IsFiller(t.typ) {
      i := SkipLandsAfterFiller(quotes, s, t.curr);
    } else {
      i := p;
    }
  }

  lemma {:induction false} SkipOverFiller(quotes: char, s: string, p: nat, i: nat)
    requires p <= i <= |s| && Filler(quotes, s, p, i)
    ensures Skip(quotes, s, p) == Skip(quotes, s, i)
    decreases |s| - p
  {
    if p < i {
      SkipOverFiller(quotes, s, Lex(quotes, s, p).value.curr, i);
    }
  }
}
