/** Where a statement with a LIMIT clause ends, and which texts go on behind it. */
module SqlStatementEnds {
  import opened Wrappers
  import opened SqlText
  import opened SqlNumbers
  import opened SqlGrammar
  import opened SqlWords

  /** Nothing but filler from k to i, and there the end of the text or a `;`. */
  ghost predicate EndMark(q: char, s: string, k: nat, i: nat) {
    k <= i <= |s| && Filler(q, s, k, i) && (i == |s| || s[i] == ';')
  }

  predicate EndToken(t: Token) {
    t.typ == Eos || (t.typ == Sign && t.prefix == ";")
  }

  lemma EndTokenMark(q: char, s: string, k: nat) returns (i: nat)
    requires k <= |s| && Skip(q, s, k).Ok? && EndToken(Skip(q, s, k).value)
    ensures EndMark(q, s, k, i) && Skip(q, s, k).value.curr == (if i == |s| then i else i + 1)
  {
    hide Lex, Filler, Skip;
    i := SkipLandsAfterFiller(q, s, k);
    LexBounds(q, s, i);
    SignShape(q, s, i);
  }

  lemma EndMarkToken(q: char, s: string, k: nat, i: nat)
    requires EndMark(q, s, k, i)
    ensures Skip(q, s, k).Ok? && EndToken(Skip(q, s, k).value)
    ensures Skip(q, s, k).value.curr == if i == |s| then i else i + 1
  {
    SkipOverFiller(q, s, k, i);
    SemicolonLex(q, s, i);
  }

  /** A statement whose clause is read up to k is accepted exactly when only filler
      is left before the end of the text or a `;`, which it then takes in. A `;`
      right behind a lone row count is already in the clause, so another one has
      to follow. */
  lemma LimitedFromIff(ctx: SqlContext, s: string, start: nat, exprs: seq<Expr>, n: Token, l: Limit, k: nat)
    requires n.start <= n.curr <= |s| && LimitAt(ctx, s, n.start, n.curr) == Ok((l, k))
    ensures k <= |s|
    ensures LimitedFrom(ctx, s, start, exprs, n).Ok? <==> exists i: nat :: EndMark(ctx.quotes, s, k, i)
    ensures forall i: nat | EndMark(ctx.quotes, s, k, i) ::
              && LimitedFrom(ctx, s, start, exprs, n).Ok?
              && LimitedFrom(ctx, s, start, exprs, n).value.1 == if i == |s| then i else i + 1
  {
    hide LimitAt, Skip, Lex, Filler;
    LimitBounds(ctx, s, n.start, n.curr);
    if LimitedFrom(ctx, s, start, exprs, n).Ok? {
      var i := EndTokenMark(ctx.quotes, s, k);
    }
    forall i: nat | EndMark(ctx.quotes, s, k, i)
      ensures LimitedFrom(ctx, s, start, exprs, n).Ok?
      ensures LimitedFrom(ctx, s, start, exprs, n).value.1 == if i == |s| then i else i + 1
    {
      EndMarkToken(ctx.quotes, s, k, i);
    }
  }

  /** At p stands a SELECT keyword t whose list is ended by the LIMIT keyword n. */
  predicate LimitedText(ctx: SqlContext, s: string, p: nat, exprs: seq<Expr>, n: Token) {
    p <= |s| && Skip(ctx.quotes, s, p).Ok? &&
    var t := Skip(ctx.quotes, s, p).value;
    && t.start <= t.end <= |s| && t.typ == Id && t.quotes == "" && ctx.upper(s[t.start..t.end]) == "SELECT"
    && Skip(ctx.quotes, s, t.curr).Ok? &&
    var list := ExprsFrom(ctx, s, Skip(ctx.quotes, s, t.curr).value, []);
    && list == Ok((exprs, n)) && n.start <= n.end <= n.curr <= |s|
    && n.typ == Id && n.quotes == "" && ctx.upper(s[n.start..n.end]) == "LIMIT"
  }

  lemma LimitedTextParse(ctx: SqlContext, s: string, p: nat, exprs: seq<Expr>, n: Token)
    requires LimitedText(ctx, s, p, exprs, n)
    ensures var t := Skip(ctx.quotes, s, p).value;
            var r := LimitedFrom(ctx, s, t.start, exprs, n);
            && (r.Ok? ==> p < r.value.1 <= |s|)
            && (ParseFrom(ctx, s, p).Ok? <==> r.Ok? && ParseFrom(ctx, s, r.value.1).Ok?)
  {
    hide LimitedFrom, ExprsFrom, Skip, Lex;
    var t := Skip(ctx.quotes, s, p).value;
    SkipBounds(ctx.quotes, s, p);
    SkipSign(ctx.quotes, s, p);
    var first := Skip(ctx.quotes, s, t.curr).value;
    assert SelectAt(ctx, s, t.start, first) == LimitedFrom(ctx, s, t.start, exprs, n);
    if SelectAt(ctx, s, t.start, first).Ok? {
      SelectBounds(ctx, s, t.start, t.curr);
    }
  }

  /** Which texts go on behind a LIMIT clause read up to k: those with nothing but
      filler left, and those with filler, a `;`, and an accepted text behind it. */
  lemma BehindLimitIff(ctx: SqlContext, s: string, p: nat, exprs: seq<Expr>, n: Token, l: Limit, k: nat)
    requires LimitedText(ctx, s, p, exprs, n) && LimitAt(ctx, s, n.start, n.curr) == Ok((l, k))
    ensures ParseFrom(ctx, s, p).Ok?
            <==> exists i: nat :: EndMark(ctx.quotes, s, k, i) && (i == |s| || ParseFrom(ctx, s, i + 1).Ok?)
  {
    hide LimitAt, LimitedFrom, ExprsFrom, Skip, Lex, Filler, ParseFrom;
    var start := Skip(ctx.quotes, s, p).value.start;
    LimitedTextParse(ctx, s, p, exprs, n);
    LimitedFromIff(ctx, s, start, exprs, n, l, k);
    NothingParses(ctx, s);
    if exists i: nat :: EndMark(ctx.quotes, s, k, i) {
      var i: nat :| EndMark(ctx.quotes, s, k, i);
    }
  }

  lemma NothingParses(ctx: SqlContext, s: string)
    ensures ParseFrom(ctx, s, |s|) == Ok([])
  {
  }

  // ---- one statement behind another ----

  const PLAIN := SqlContext('`', (x: string) => x, {})

  /** `SELECT @x` at p, with x one letter, and what stands behind it. */
  predicate SelectsOne(s: string, p: nat) {
    && p + 9 <= |s| && s[p..p + 8] == "SELECT @" && NameChar(s[p + 8])
    && (p + 9 == |s| || s[p + 9] == ' ' || s[p + 9] == ';')
  }

  lemma SelectsOneChars(s: string, p: nat)
    requires SelectsOne(s, p)
    ensures s[p] == 'S' && At(s, p, "SELECT") && IsName("SELECT")
    ensures BlankChar(s[p + 6]) && !NameChar(s[p + 6]) && !Digit(s[p + 6]) && s[p + 7] == '@' && SignChar(s[p + 7])
  {
    var w := s[p..p + 8];
    assert w == "SELECT @";
    forall i | p <= i < p + 8 ensures s[i] == w[i - p] {
    }
    assert s[p] == w[0] && s[p + 6] == w[6] && s[p + 7] == w[7];
    assert s[p..p + 6] == w[..6];
  }

  lemma SelectsOneName(s: string, p: nat)
    requires SelectsOne(s, p)
    ensures UserVarToken(s, p + 8) == Ok(Token(UserVar, "", [s[p + 8]], p + 8, p + 9, p + 9))
  {
    assert VarEnd(s, p + 9) == p + 9 && VarEnd(s, p + 8) == p + 9;
  }

  lemma SelectsOneList(s: string, p: nat)
    requires SelectsOne(s, p)
    ensures Skip('`', s, p) == Ok(Token(Id, "", "S", p, p + 6, p + 6)) && PLAIN.upper(s[p..p + 6]) == "SELECT"
    ensures Skip('`', s, p + 6) == Ok(Token(Sign, "", "@", p + 7, p + 8, p + 8))
    ensures VariableAt(PLAIN, s, p + 8)
            == if Skip('`', s, p + 9).Ok? then Ok((UserVariable(p + 7, p + 9, Name([s[p + 8]], "", p + 8, p + 9)),
                                                   Skip('`', s, p + 9).value))
               else Err(Skip('`', s, p + 9).error)
  {
    hide Lex, Skip, WordToken, UserVarToken;
    SelectsOneChars(s, p);
    NameLex('`', s, p, "SELECT");
    BlankRun('`', s, p + 6);
    SignLex('`', s, p + 7);
    SelectsOneName(s, p);
    assert s[p + 8..p + 9] == [s[p + 8]];
  }

  lemma SelectsOneParses(s: string, p: nat)
    requires SelectsOne(s, p) && p + 9 == |s|
    ensures ParseFrom(PLAIN, s, p).Ok?
  {
    hide Lex, Skip, VariableAt;
    SelectsOneList(s, p);
    EndLex('`', s);
    NothingParses(PLAIN, s);
    SelectBoundsAt(s, p);
  }

  lemma SelectBoundsAt(s: string, p: nat)
    requires SelectsOne(s, p) && p + 9 == |s|
    ensures var r := SelectAt(PLAIN, s, p, Token(Sign, "", "@", p + 7, p + 8, p + 8));
            r.Ok? && r.value.1 == |s|
  {
    hide Lex, Skip, VariableAt;
    SelectsOneList(s, p);
    EndLex('`', s);
  }

  const LIMIT_WORD := Token(Id, "", "L", 10, 15, 15)

  function UserA(): Expr {
    UserVariable(7, 9, Name("a", "", 8, 9))
  }

  /** What every text that starts like this one is read as up to its first `;`. */
  predicate LimitsOne(s: string) {
    |s| > 17 && s[..17] == "SELECT @a LIMIT 1" && s[17] == ';'
  }

  lemma LimitOneChars(s: string)
    requires LimitsOne(s)
    ensures SelectsOne(s, 0) && s[8] == 'a' && s[9] == ' ' && BlankChar(s[9])
    ensures At(s, 10, "LIMIT") && IsName("LIMIT") && s[10] == 'L' && s[15] == ' '
    ensures !NameChar(s[15]) && !Digit(s[15])
  {
    var w := s[..17];
    assert forall i | 0 <= i < 17 :: s[i] == w[i];
    assert s[0..8] == w[..8] == "SELECT @";
    assert s[10..15] == w[10..15] == "LIMIT";
  }

  lemma LimitOneText(s: string)
    requires LimitsOne(s)
    ensures LimitedText(PLAIN, s, 0, [UserA()], LIMIT_WORD)
  {
    hide Lex, Skip, VariableAt, ExprsFrom;
    LimitOneChars(s);
    SelectsOneList(s, 0);
    BlankRun('`', s, 9);
    NameLex('`', s, 10, "LIMIT");
    ExprsStep(PLAIN, s, Token(Sign, "", "@", 7, 8, 8), []);
    assert [] + [UserA()] == [UserA()];
  }

  lemma LimitOneClause(s: string)
    requires LimitsOne(s)
    ensures LimitAt(PLAIN, s, 10, 15) == Ok((Limit(10, 17, 1, 0), 18))
  {
    hide LimitAt, WordToken, Skip;
    var w := s[..17];
    assert s[15] == w[15] == ' ' && s[16] == w[16] == '1';
    assert BlankEnd(s, 16) == 16;
    assert Filler('`', s, 15, 16);
    assert DigitEnd(s, 16) == 17;
    assert s[16..17] == "1" && Value("1") == 1;
    LimitFormParses(PLAIN, s, 10, 15, Limit(10, 17, 1, 0), 18, 16, 17, 16);
  }

  /** A lone row count takes in the `;` behind it, so a statement behind that is
      refused where a second `;` lets it through. */
  lemma StatementBehindLimit()
    ensures Parse(PLAIN, "SELECT @a LIMIT 1;SELECT @b").Err?
    ensures Parse(PLAIN, "SELECT @a LIMIT 1;;SELECT @b").Ok?
    ensures Parse(PLAIN, "SELECT @a LIMIT 1;").Ok?
  {
    hide Lex, Skip, LimitAt, ParseFrom, LimitedText, Filler;
    var s, s', s0 := "SELECT @a LIMIT 1;SELECT @b", "SELECT @a LIMIT 1;;SELECT @b", "SELECT @a LIMIT 1;";
    LimitOneText(s);
    LimitOneClause(s);
    BehindLimitIff(PLAIN, s, 0, [UserA()], LIMIT_WORD, Limit(10, 17, 1, 0), 18);
    SelectsOneList(s, 18);
    forall i: nat | EndMark('`', s, 18, i) ensures false {
      EndMarkToken('`', s, 18, i);
    }
    LimitOneText(s');
    LimitOneClause(s');
    BehindLimitIff(PLAIN, s', 0, [UserA()], LIMIT_WORD, Limit(10, 17, 1, 0), 18);
    NoFiller(s', 18);
    SelectsOneParses(s', 19);
    assert EndMark('`', s', 18, 18);
    LimitOneText(s0);
    LimitOneClause(s0);
    BehindLimitIff(PLAIN, s0, 0, [UserA()], LIMIT_WORD, Limit(10, 17, 1, 0), 18);
    NoFiller(s0, 18);
    assert EndMark('`', s0, 18, 18);
  }

  lemma NoFiller(s: string, i: nat)
    ensures Filler('`', s, i, i)
  {
  }
}
