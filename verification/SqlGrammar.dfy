/** The statements a SQL text parses to, as a function of the text. The parser
    object is proved to compute these; the theorems about spans, coverage and
    LIMIT are proved here. */
module SqlGrammar {
  import opened Wrappers
  import opened SqlText
  import opened SqlNumbers

  /** What the parser takes from its surroundings: the identifier quote, the
      runtime's upper-casing and the table of reserved words. */
  datatype SqlContext = SqlContext(quotes: char, upper: string -> string, reserved: set<string>)

  datatype Name = Name(text: string, quotes: string, start: nat, end: nat)

  datatype Expr =
    | UserVariable(start: nat, end: nat, name: Name)
    | SystemVariable(start: nat, end: nat, name: Name, global: bool)

  datatype Limit = Limit(start: nat, end: nat, rows: nat, offset: nat)

  datatype CommentSpan = CommentSpan(start: nat, end: nat, mark: string)

  datatype Select = Select(start: nat, end: nat, exprs: seq<Expr>, limit: Option<Limit>,
                           comments: seq<CommentSpan>)

  /** What an identifier names. */
  datatype IdKind = SchemaId | TableId | ColumnId | AliasId | LabelId | UserId | RoleId | SysVarId | OtherId

  function MaxLength(kind: IdKind): nat {
    match kind
    case AliasId => 256
    case LabelId => 16
    case UserId => 80
    case RoleId => 128
    case _ => 64
  }

  predicate NoBlankEnd(kind: IdKind) {
    kind == SchemaId || kind == TableId || kind == ColumnId
  }

  // ---- expressions ----

  /** A user variable whose name starts at p, just after its `@`. */
  function UserVariableAt(s: string, p: nat): Result<(Expr, nat), SqlError>
    requires 0 < p <= |s|
  {
    var t :- UserVarToken(s, p);
    if t.start <= t.end <= |s| then
      Ok((UserVariable(p - 1, t.curr, Name(s[t.start..t.end], t.quotes, t.start, t.end)), t.curr))
    else Err(UnexpectedEnd)
  }

  /** The identifier in token t and the token after it: as long as its kind allows,
      and not a reserved word unless a dot follows. Names of schemas, tables
      and columns may not end with a blank. */
  function NameAt(ctx: SqlContext, s: string, t: Token, kind: IdKind): Result<(Name, Token), SqlError>
    requires t.start <= t.end <= t.curr <= |s|
  {
    var name := s[t.start..t.end];
    if |name| > MaxLength(kind) then Err(Syntax(t.start))
    else if NoBlankEnd(kind) && name != "" && IsBlank(name[|name| - 1]) then Err(Syntax(t.start))
    else
      var next :- Skip(ctx.quotes, s, t.curr);
      if next.prefix != "." && ctx.upper(name) in ctx.reserved then Err(Syntax(t.start))
      else Ok((Name(name, t.quotes, t.start, t.end), next))
  }

  /** The name token of a system variable: t itself, or the one after the scope. */
  function ScopedName(ctx: SqlContext, s: string, t: Token): Result<(Token, bool), SqlError>
    requires t.start <= t.end <= t.curr <= |s|
  {
    var id := ctx.upper(s[t.start..t.end]);
    if t.quotes == "" && (id == "SESSION" || id == "GLOBAL") then
      var dot :- Skip(ctx.quotes, s, t.curr);
      if dot.typ != Sign || dot.prefix != "." then Err(Syntax(dot.start))
      else
        var name :- Skip(ctx.quotes, s, dot.curr);
        if name.typ != Id then Err(Syntax(name.start)) else Ok((name, id == "GLOBAL"))
    else Ok((t, false))
  }

  /** A system variable whose name starts at p, just after its `@@`, with the
      token that follows it. */
  function SystemVariableAt(ctx: SqlContext, s: string, p: nat): Result<(Expr, Token), SqlError>
    requires 2 <= p <= |s|
  {
    var t :- Lex(ctx.quotes, s, p);
    LexBounds(ctx.quotes, s, p);
    if t.typ != Id then Err(Syntax(t.start)) else SystemVariableFrom(ctx, s, p, t)
  }

  function SystemVariableFrom(ctx: SqlContext, s: string, p: nat, t: Token): Result<(Expr, Token), SqlError>
    requires 2 <= p <= |s| && t.start <= t.end <= t.curr <= |s|
  {
    var scoped :- ScopedName(ctx, s, t);
    ScopedNameBounds(ctx, s, t);
    var named :- NameAt(ctx, s, scoped.0, SysVarId);
    Ok((SystemVariable(p - 2, scoped.0.curr, named.0, scoped.1), named.1))
  }

  lemma SkipBounds(q: char, s: string, p: nat)
    requires p <= |s| && Skip(q, s, p).Ok?
    ensures var t := Skip(q, s, p).value;
            p <= t.start <= t.end <= t.curr <= |s|
            && (t.quotes == "" && t.typ != Str ==> t.end == t.curr)
            && (t.quotes != "" ==> |t.quotes| == 1 && t.end + 1 == t.curr && t.typ == Id && p < t.start)
            && (t.typ == Sign ==> t.start < t.curr)
            && (t.typ == Eos ==> t.start == |s|)
  {
    var i := SkipLandsAfterFiller(q, s, p);
    LexBounds(q, s, i);
  }

  lemma ScopedNameBounds(ctx: SqlContext, s: string, t: Token)
    requires t.start <= t.end <= t.curr <= |s| && ScopedName(ctx, s, t).Ok?
    ensures var n := ScopedName(ctx, s, t).value.0;
            && n.start <= n.end <= n.curr <= |s| && t.curr <= n.curr
            && (n == t || (t.curr + |n.quotes| <= n.start && n.typ == Id && |n.quotes| <= 1
                           && n.curr == n.end + |n.quotes|))
  {
    var r := ScopedName(ctx, s, t).value;
    if r.0 != t {
      SkipBounds(ctx.quotes, s, t.curr);
      SkipBounds(ctx.quotes, s, Skip(ctx.quotes, s, t.curr).value.curr);
    }
  }

  /** The expression after the `@` that ends at p, and the token after it. */
  function VariableAt(ctx: SqlContext, s: string, p: nat): Result<(Expr, Token), SqlError>
    requires 0 < p <= |s|
  {
    if p == |s| then Err(UnexpectedEnd)
    else if s[p] != '@' then
      var e :- UserVariableAt(s, p);
      if e.1 <= |s| then
        var next :- Skip(ctx.quotes, s, e.1);
        Ok((e.0, next))
      else Err(UnexpectedEnd)
    else SystemVariableAt(ctx, s, p + 1)
  }

  lemma VariableBounds(ctx: SqlContext, s: string, p: nat)
    requires 0 < p <= |s| && VariableAt(ctx, s, p).Ok?
    ensures var (e, next) := VariableAt(ctx, s, p).value;
            && e.start == p - 1 && p <= e.end <= next.start && Follows(s, next)
            && (s[p - 1] == '@' ==> NameInside(s, e))
  {
    if s[p] != '@' {
      var t := UserVarToken(s, p).value;
      assert t.start == p + |t.quotes| && t.curr == t.end + |t.quotes|;
      NextBounds(ctx.quotes, s, t.curr);
    } else {
      SystemVariableBounds(ctx, s, p + 1);
    }
  }

  lemma SystemVariableBounds(ctx: SqlContext, s: string, p: nat)
    requires 2 <= p <= |s| && SystemVariableAt(ctx, s, p).Ok?
    ensures var (e, next) := SystemVariableAt(ctx, s, p).value;
            SystemVariableShape(s, p, e) && e.end <= next.start && Follows(s, next)
  {
    LexBounds(ctx.quotes, s, p);
    SystemVariableFromBounds(ctx, s, p, Lex(ctx.quotes, s, p).value);
  }

  ghost predicate SystemVariableShape(s: string, p: nat, e: Expr) {
    && e.SystemVariable? && e.start + 2 == p <= e.end <= |s|
    && p + |e.name.quotes| <= e.name.start <= e.name.end <= e.end
    && e.name.text == s[e.name.start..e.name.end]
    && e.end == e.name.end + |e.name.quotes|
  }

  /** What the parser knows of a token that is neither blank nor comment. */
  ghost predicate Follows(s: string, t: Token) {
    && t.start <= t.end <= t.curr <= |s|
    && (t.typ == Sign ==> t.start < t.curr && t.end == t.curr)
    && (t.typ == Eos ==> t.start == |s| && t.end == t.curr)
    && !IsFiller(t.typ) && t.typ != Undefined
  }

  lemma SystemVariableFromBounds(ctx: SqlContext, s: string, p: nat, t: Token)
    requires 2 <= p && p + |t.quotes| <= t.start <= t.end && t.curr == t.end + |t.quotes| <= |s|
    requires SystemVariableFrom(ctx, s, p, t).Ok?
    ensures var (e, next) := SystemVariableFrom(ctx, s, p, t).value;
            SystemVariableShape(s, p, e) && e.end <= next.start && Follows(s, next)
  {
    ScopedNameBounds(ctx, s, t);
    var n := ScopedName(ctx, s, t).value.0;
    NameAtIs(ctx, s, n, SysVarId);
    NextBounds(ctx.quotes, s, n.curr);
  }

  lemma NameAtIs(ctx: SqlContext, s: string, t: Token, kind: IdKind)
    requires t.start <= t.end <= t.curr <= |s| && NameAt(ctx, s, t, kind).Ok?
    ensures Skip(ctx.quotes, s, t.curr).Ok?
    ensures NameAt(ctx, s, t, kind).value
            == (Name(s[t.start..t.end], t.quotes, t.start, t.end), Skip(ctx.quotes, s, t.curr).value)
  {
  }

  lemma NextBounds(q: char, s: string, p: nat)
    requires p <= |s| && Skip(q, s, p).Ok?
    ensures var t := Skip(q, s, p).value;
            p <= t.start && Follows(s, t)
  {
    SkipBounds(q, s, p);
    var i := SkipLandsAfterFiller(q, s, p);
    LexTyped(q, s, i);
    LexBounds(q, s, i);
  }

  lemma LexTyped(q: char, s: string, p: nat)
    requires p <= |s| && Lex(q, s, p).Ok?
    ensures Lex(q, s, p).value.typ != Undefined
  {
  }

  /** The select expression whose `@` is the token t. */
  function ExprAt(ctx: SqlContext, s: string, t: Token): Result<(Expr, Token), SqlError>
    requires t.curr <= |s|
  {
    if t.typ != Sign || t.prefix != "@" || t.curr == 0 then Err(Syntax(t.start)) else VariableAt(ctx, s, t.curr)
  }

  /** The select list from the loaded token t on: the expressions, and the
      token that ends the list. */
  function ExprsFrom(ctx: SqlContext, s: string, t: Token, acc: seq<Expr>): Result<(seq<Expr>, Token), SqlError>
    requires t.curr <= |s|
    decreases |s| - t.curr
  {
    var e :- ExprAt(ctx, s, t);
    VariableBounds(ctx, s, t.curr);
    if e.1.typ != Sign || e.1.prefix == ";" then Ok((acc + [e.0], e.1))
    else if e.1.prefix == "," then
      var next :- Skip(ctx.quotes, s, e.1.curr);
      ExprsFrom(ctx, s, next, acc + [e.0])
    else Err(NotImplemented)
  }

  lemma ExprsStep(ctx: SqlContext, s: string, t: Token, acc: seq<Expr>)
    requires t.curr <= |s| && ExprAt(ctx, s, t).Ok?
    ensures var (e, next) := ExprAt(ctx, s, t).value;
            && next.curr <= |s|
            && ExprsFrom(ctx, s, t, acc)
               == if next.typ != Sign || next.prefix == ";" then Ok((acc + [e], next))
                  else if next.prefix != "," then Err(NotImplemented)
                  else if Skip(ctx.quotes, s, next.curr).Err? then Err(Skip(ctx.quotes, s, next.curr).error)
                  else ExprsFrom(ctx, s, Skip(ctx.quotes, s, next.curr).value, acc + [e])
  {
    VariableBounds(ctx, s, t.curr);
  }

  // ---- LIMIT ----

  /** The number a loaded INT or BIGINT token denotes. */
  function NumberOf(s: string, t: Token): nat {
    if t.start <= t.end <= |s| && AllDigits(s[t.start..t.end]) then Value(s[t.start..t.end]) else 0
  }

  /** The clause after a LIMIT keyword that starts at `start` and ends at p, and
      where lexing continues. A `;` after a lone row count is consumed. */
  function LimitAt(ctx: SqlContext, s: string, start: nat, p: nat): Result<(Limit, nat), SqlError>
    requires p <= |s|
  {
    var a :- Skip(ctx.quotes, s, p);
    if !IsIntegerType(a.typ) then Err(Syntax(a.start))
    else
      var t :- Skip(ctx.quotes, s, a.curr);
      SkipBounds(ctx.quotes, s, a.curr);
      LimitFrom(ctx, s, start, a.end, NumberOf(s, a), t)
  }

  /** The clause after its first number, from the token t that follows it. */
  function LimitFrom(ctx: SqlContext, s: string, start: nat, end: nat, rows: nat, t: Token):
      Result<(Limit, nat), SqlError>
    requires t.start <= t.end <= t.curr <= |s|
  {
    if t.typ == Eos || (t.typ == Sign && t.prefix == ";") then Ok((Limit(start, end, rows, 0), t.curr))
    else
      var comma := t.typ == Sign && t.prefix == ",";
      var word := t.typ == Id && t.quotes == "" && ctx.upper(s[t.start..t.end]) == "OFFSET";
      if !comma && !word then Err(Syntax(t.start))
      else
        var b :- Skip(ctx.quotes, s, t.curr);
        if !IsIntegerType(b.typ) then Err(Syntax(b.start))
        else if comma then Ok((Limit(start, b.end, NumberOf(s, b), rows), b.curr))
        else Ok((Limit(start, b.end, rows, NumberOf(s, b)), b.curr))
  }

  lemma LimitBounds(ctx: SqlContext, s: string, start: nat, p: nat)
    requires start <= p <= |s| && LimitAt(ctx, s, start, p).Ok?
    ensures var (l, k) := LimitAt(ctx, s, start, p).value;
            l.start == start && p < l.end <= k <= |s|
  {
    SkipInteger(ctx.quotes, s, p);
    var a := Skip(ctx.quotes, s, p).value;
    SkipBounds(ctx.quotes, s, a.curr);
    var t := Skip(ctx.quotes, s, a.curr).value;
    if Skip(ctx.quotes, s, t.curr).Ok? {
      SkipInteger(ctx.quotes, s, t.curr);
    }
  }

  lemma SkipInteger(q: char, s: string, p: nat)
    requires p <= |s| && Skip(q, s, p).Ok?
    ensures var t := Skip(q, s, p).value;
            p <= t.start <= t.end <= t.curr <= |s| && (IsIntegerType(t.typ) ==> t.start < t.end)
  {
    SkipBounds(q, s, p);
    var i := SkipLandsAfterFiller(q, s, p);
    IntegerLex(q, s, i);
  }

  // ---- statements ----

  /** The statement whose SELECT keyword starts at `start`, from the first
      token after the keyword, and where lexing continues. */
  function SelectAt(ctx: SqlContext, s: string, start: nat, t: Token): Result<(Select, nat), SqlError>
    requires t.curr <= |s|
  {
    var list :- ExprsFrom(ctx, s, t, []);
    ExprsBounds(ctx, s, t, []);
    SelectFrom(ctx, s, start, list.0, list.1)
  }

  /** The statement once its list is read: n is the token that ended the list. */
  function SelectFrom(ctx: SqlContext, s: string, start: nat, exprs: seq<Expr>, n: Token):
      Result<(Select, nat), SqlError>
    requires n.start <= n.end <= n.curr <= |s|
  {
    if n.typ == Eos || (n.typ == Sign && n.prefix == ";") then
      Ok((Select(start, n.end, exprs, None, []), n.curr))
    else if n.typ != Id || n.quotes != "" || ctx.upper(s[n.start..n.end]) != "LIMIT" then Err(Syntax(n.start))
    else LimitedFrom(ctx, s, start, exprs, n)
  }

  /** The statement from its LIMIT keyword n on. */
  function LimitedFrom(ctx: SqlContext, s: string, start: nat, exprs: seq<Expr>, n: Token):
      Result<(Select, nat), SqlError>
    requires n.start <= n.curr <= |s|
  {
    var lim :- LimitAt(ctx, s, n.start, n.curr);
    LimitBounds(ctx, s, n.start, n.curr);
    var last :- Skip(ctx.quotes, s, lim.1);
    if last.typ == Eos || (last.typ == Sign && last.prefix == ";") then
      Ok((Select(start, last.end, exprs, Some(lim.0), []), last.curr))
    else Err(Syntax(last.start))
  }

  /** The comments before the first token at or after p that is not filler. */
  function CommentsAt(q: char, s: string, p: nat): seq<CommentSpan>
    requires p <= |s|
    decreases |s| - p
  {
    match Lex(q, s, p)
    case Err(_) => []
    case Ok(t) =>
      LexBounds(q, s, p);
      if t.typ == Comment then [CommentSpan(t.start, t.end, t.prefix)] + CommentsAt(q, s, t.curr)
      else if t.typ == Blank then CommentsAt(q, s, t.curr)
      else []
  }

  function ParseFrom(ctx: SqlContext, s: string, p: nat): Result<seq<Select>, SqlError>
    requires p <= |s|
    decreases |s| - p
  {
    var t :- Skip(ctx.quotes, s, p);
    SkipBounds(ctx.quotes, s, p);
    if t.typ == Eos || (t.curr == |s| && t.prefix == ";") then Ok([])
    else if t.typ != Id || t.quotes != "" || ctx.upper(s[t.start..t.end]) != "SELECT" then Err(Syntax(t.start))
    else
      var first :- Skip(ctx.quotes, s, t.curr);
      var stmt :- SelectAt(ctx, s, t.start, first);
      SelectBounds(ctx, s, t.start, t.curr);
      var rest :- ParseFrom(ctx, s, stmt.1);
      Ok([stmt.0.(comments := CommentsAt(ctx.quotes, s, p))] + rest)
  }

  /** The whole text. */
  function Parse(ctx: SqlContext, s: string): Result<seq<Select>, SqlError> {
    ParseFrom(ctx, s, 0)
  }

  // ---- spans ----

  /** The expressions lie in order and apart inside [lo, hi). */
  ghost predicate OrderedIn(exprs: seq<Expr>, lo: nat, hi: nat) {
    && lo <= hi
    && (forall i | 0 <= i < |exprs| :: lo <= exprs[i].start < exprs[i].end <= hi)
    && (forall i, j | 0 <= i < j < |exprs| :: exprs[i].end <= exprs[j].start)
  }

  /** An expression is its marks, then its name, which reaches to its end but
      for a closing quote: the spans of names nest in those of expressions. */
  ghost predicate NameInside(s: string, e: Expr) {
    && e.start < e.name.start <= e.name.end <= e.end <= |s|
    && s[e.start] == '@'
    && e.name.text == s[e.name.start..e.name.end]
    && e.end == e.name.end + |e.name.quotes|
    && match e
       case UserVariable(_, _, n) => n.start == e.start + 1 + |n.quotes|
       case SystemVariable(_, _, n, _) => e.start + 2 + |n.quotes| <= n.start && s[e.start + 1] == '@'
  }

  lemma {:induction false} ExprsBounds(ctx: SqlContext, s: string, t: Token, acc: seq<Expr>)
    requires t.curr <= |s| && ExprsFrom(ctx, s, t, acc).Ok?
    ensures var (list, n) := ExprsFrom(ctx, s, t, acc).value;
            && |list| > |acc|
            && t.curr <= n.start <= n.end <= n.curr <= |s|
            && (n.typ == Sign ==> n.end == n.curr) && (n.typ == Eos ==> n.start == n.end == n.curr == |s|)
            && !IsFiller(n.typ)
    decreases |s| - t.curr
  {
    var e := VariableAt(ctx, s, t.curr).value;
    VariableBounds(ctx, s, t.curr);
    if e.1.typ == Sign && e.1.prefix == "," {
      SkipBounds(ctx.quotes, s, e.1.curr);
      ExprsBounds(ctx, s, Skip(ctx.quotes, s, e.1.curr).value, acc + [e.0]);
    }
  }

  lemma {:induction false} ExprsOrdered(ctx: SqlContext, s: string, t: Token, acc: seq<Expr>, lo: nat)
    requires t.curr <= |s| && ExprsFrom(ctx, s, t, acc).Ok?
    requires t.typ == Sign ==> t.start + 1 == t.curr && (t.prefix == "@" ==> s[t.start] == '@')
    requires OrderedIn(acc, lo, t.start) && forall e | e in acc :: NameInside(s, e)
    ensures var (list, n) := ExprsFrom(ctx, s, t, acc).value;
            OrderedIn(list, lo, n.start) && forall e | e in list :: NameInside(s, e)
    decreases |s| - t.curr
  {
    hide Lex, Skip, VariableAt, NameInside;
    var e := VariableAt(ctx, s, t.curr).value;
    VariableBounds(ctx, s, t.curr);
    var list := acc + [e.0];
    assert OrderedIn(list, lo, e.1.start);
    assert forall x | x in list :: x in acc || x == e.0;
    if e.1.typ == Sign && e.1.prefix == "," {
      SkipBounds(ctx.quotes, s, e.1.curr);
      SkipSign(ctx.quotes, s, e.1.curr);
      ExprsOrdered(ctx, s, Skip(ctx.quotes, s, e.1.curr).value, list, lo);
    }
  }

  /** Signs the parser tests by their prefix are one character long. */
  lemma SkipSign(q: char, s: string, p: nat)
    requires p <= |s| && Skip(q, s, p).Ok?
    ensures var t := Skip(q, s, p).value;
            && (t.prefix == "@" || t.prefix == "," || t.prefix == ";" ==> t.typ == Sign)
            && (t.typ == Sign && (t.prefix == "@" || t.prefix == "," || t.prefix == ";") ==>
                  t.start + 1 == t.end == t.curr && t.start < |s| && [s[t.start]] == t.prefix)
  {
    var i := SkipLandsAfterFiller(q, s, p);
    SignShape(q, s, i);
  }

  lemma SignShape(q: char, s: string, i: nat)
    requires i <= |s| && Lex(q, s, i).Ok?
    ensures var t := Lex(q, s, i).value;
            t.prefix == "@" || t.prefix == "," || t.prefix == ";" ==>
              i < |s| && t == Token(Sign, "", [s[i]], i, i + 1, i + 1)
  {
  }

  lemma SelectBounds(ctx: SqlContext, s: string, start: nat, p: nat)
    requires start <= p <= |s| && Skip(ctx.quotes, s, p).Ok?
    requires SelectAt(ctx, s, start, Skip(ctx.quotes, s, p).value).Ok?
    ensures var (x, k) := SelectAt(ctx, s, start, Skip(ctx.quotes, s, p).value).value;
            p < x.end == k <= |s| && x.start == start
  {
    SkipBounds(ctx.quotes, s, p);
    SkipSign(ctx.quotes, s, p);
    var t := Skip(ctx.quotes, s, p).value;
    ExprsBounds(ctx, s, t, []);
    var n := ExprsFrom(ctx, s, t, []).value.1;
    if n.typ == Id {
      var k := LimitAt(ctx, s, n.start, n.curr).value.1;
      LimitBounds(ctx, s, n.start, n.curr);
      SkipBounds(ctx.quotes, s, k);
    }
  }

  /** The children of a statement are ordered, apart and inside it; the LIMIT
      clause follows the expressions. */
  ghost predicate WellSpanned(s: string, x: Select) {
    && x.start <= x.end <= |s|
    && |x.exprs| > 0
    && (forall e | e in x.exprs :: NameInside(s, e))
    && (match x.limit
        case None => OrderedIn(x.exprs, x.start, x.end)
        case Some(l) => OrderedIn(x.exprs, x.start, l.start) && l.start < l.end <= x.end)
  }

  lemma SelectSpans(ctx: SqlContext, s: string, start: nat, p: nat)
    requires start <= p <= |s| && Skip(ctx.quotes, s, p).Ok?
    requires SelectAt(ctx, s, start, Skip(ctx.quotes, s, p).value).Ok?
    ensures WellSpanned(s, SelectAt(ctx, s, start, Skip(ctx.quotes, s, p).value).value.0)
  {
    SkipBounds(ctx.quotes, s, p);
    SkipSign(ctx.quotes, s, p);
    var t := Skip(ctx.quotes, s, p).value;
    ExprsBounds(ctx, s, t, []);
    ExprsOrdered(ctx, s, t, [], start);
    var n := ExprsFrom(ctx, s, t, []).value.1;
    if n.typ == Id {
      var k := LimitAt(ctx, s, n.start, n.curr).value.1;
      LimitBounds(ctx, s, n.start, n.curr);
      SkipBounds(ctx.quotes, s, k);
    }
  }

  /** Statements from p on: filler up to each one, and after the last one
      nothing but filler and at most one final `;`. */
  ghost predicate Covers(q: char, s: string, p: nat, stmts: seq<Select>)
    decreases |stmts|
  {
    if stmts == [] then
      exists i | p <= i <= |s| :: Filler(q, s, p, i) && (i == |s| || (i + 1 == |s| && s[i] == ';'))
    else
      && p <= stmts[0].start < stmts[0].end <= |s|
      && Filler(q, s, p, stmts[0].start)
      && Covers(q, s, stmts[0].end, stmts[1..])
  }

  /** Every accepted text: the statements are well spanned, in order and apart,
      and the text outside them is filler but for one final `;`. */
  lemma {:induction false} ParsedTextIsCovered(ctx: SqlContext, s: string, p: nat)
    requires p <= |s| && ParseFrom(ctx, s, p).Ok?
    ensures Covers(ctx.quotes, s, p, ParseFrom(ctx, s, p).value)
    ensures forall x | x in ParseFrom(ctx, s, p).value :: WellSpanned(s, x)
    decreases |s| - p
  {
    var t := Skip(ctx.quotes, s, p).value;
    SkipBounds(ctx.quotes, s, p);
    SkipSign(ctx.quotes, s, p);
    var i := SkipLandsAfterFiller(ctx.quotes, s, p);
    if t.typ == Eos || (t.curr == |s| && t.prefix == ";") {
      LexBounds(ctx.quotes, s, i);
      SignShape(ctx.quotes, s, i);
    } else {
      LexBounds(ctx.quotes, s, i);
      SelectBounds(ctx, s, t.start, t.curr);
      SelectSpans(ctx, s, t.start, t.curr);
      var first := Skip(ctx.quotes, s, t.curr).value;
      var (x, k) := SelectAt(ctx, s, t.start, first).value;
      ParsedTextIsCovered(ctx, s, k);
      var rest, y := ParseFrom(ctx, s, k).value, x.(comments := CommentsAt(ctx.quotes, s, p));
      assert ParseFrom(ctx, s, p).value == [y] + rest;
      assert ([y] + rest)[1..] == rest;
    }
  }

  /** Ranges of different statements never overlap. */
  lemma {:induction false} StatementsApart(q: char, s: string, p: nat, stmts: seq<Select>, i: nat, j: nat)
    requires p <= |s| && Covers(q, s, p, stmts) && i < j < |stmts|
    ensures p <= stmts[i].start < stmts[i].end <= stmts[j].start < stmts[j].end <= |s|
    decreases |stmts|
  {
    StatementsInOrder(q, s, p, stmts, i);
    StatementsInOrder(q, s, p, stmts, j);
    if i == 0 {
      StatementsInOrder(q, s, stmts[0].end, stmts[1..], j - 1);
      assert stmts[1..][j - 1] == stmts[j];
    } else {
      StatementsApart(q, s, stmts[0].end, stmts[1..], i - 1, j - 1);
    }
  }

  lemma {:induction false} StatementsInOrder(q: char, s: string, p: nat, stmts: seq<Select>, i: nat)
    requires p <= |s| && Covers(q, s, p, stmts) && i < |stmts|
    ensures p <= stmts[i].start < stmts[i].end <= |s|
    decreases |stmts|
  {
    if i > 0 {
      StatementsInOrder(q, s, stmts[0].end, stmts[1..], i - 1);
    }
  }

  // ---- what LIMIT accepts ----

  /** Integer tokens are exactly the digit runs of the grammar. */
  lemma IntegerLex(q: char, s: string, i: nat)
    requires i <= |s|
    ensures (Lex(q, s, i).Ok? && IsIntegerType(Lex(q, s, i).value.typ)) <==> (i < |s| && IntegerAt(s, i))
    ensures i < |s| && IntegerAt(s, i) ==>
              && Lex(q, s, i).Ok? && DigitEnd(s, i) > i
              && var t := Lex(q, s, i).value;
                 t.start == i && t.end == t.curr == DigitEnd(s, i) && NumberOf(s, t) == Value(s[i..DigitEnd(s, i)])
  {
    hide WordToken, Value;
    if i < |s| {
      IntegerTokenIff(s, i);
      assert IsDigit(s[i]) ==> Lex(q, s, i) == WordToken(s, i);
    }
  }

  /** The digits of an integer token. */
  lemma SkipDigits(q: char, s: string, p: nat)
    requires p <= |s| && Skip(q, s, p).Ok? && IsIntegerType(Skip(q, s, p).value.typ)
    ensures var t := Skip(q, s, p).value;
            t.start <= t.end <= |s| && AllDigits(s[t.start..t.end]) && NumberOf(s, t) == Value(s[t.start..t.end])
  {
    var i := SkipLandsAfterFiller(q, s, p);
    IntegerLex(q, s, i);
  }

  /** A number after filler: `n` is where it starts. */
  ghost predicate NumberAfter(q: char, s: string, p: nat, n: nat) {
    p <= n < |s| && Filler(q, s, p, n) && IntegerAt(s, n)
  }

  function NumberAt(s: string, n: nat): nat
    requires n < |s|
  {
    Value(s[n..DigitEnd(s, n)])
  }

  /** An unquoted word at j that upper-cases to OFFSET, ending at k. */
  ghost predicate OffsetWord(ctx: SqlContext, s: string, j: nat, k: nat) {
    j <= k <= |s| && Lex(ctx.quotes, s, j).Ok? &&
    var t := Lex(ctx.quotes, s, j).value;
    t.typ == Id && t.quotes == "" && t.curr == k && ctx.upper(s[j..k]) == "OFFSET"
  }

  /** The three written forms of the clause: a row count up to the end or a `;`,
      `offset, rows`, and `rows OFFSET offset`; n and m are where the numbers
      start and j where the text between them does. */
  ghost predicate LimitForm(ctx: SqlContext, s: string, p: nat, l: Limit, k: nat, n: nat, j: nat, m: nat) {
    && NumberAfter(ctx.quotes, s, p, n)
    && DigitEnd(s, n) <= j <= |s| && Filler(ctx.quotes, s, DigitEnd(s, n), j)
    && if j == |s| || s[j] == ';' then
         l.rows == NumberAt(s, n) && l.offset == 0 && l.end == DigitEnd(s, n)
         && k == (if j == |s| then j else j + 1) && m == n
       else
         && NumberAfter(ctx.quotes, s, if s[j] == ',' then j + 1 else OffsetEnd(ctx, s, j), m)
         && l.end == k == DigitEnd(s, m)
         && if s[j] == ',' then l.offset == NumberAt(s, n) && l.rows == NumberAt(s, m)
            else OffsetWord(ctx, s, j, OffsetEnd(ctx, s, j)) && l.rows == NumberAt(s, n) && l.offset == NumberAt(s, m)
  }

  function OffsetEnd(ctx: SqlContext, s: string, j: nat): nat
    requires j <= |s|
  {
    if Lex(ctx.quotes, s, j).Ok? then Lex(ctx.quotes, s, j).value.curr else 0
  }

  /** A LIMIT clause is accepted exactly in its three forms, for every layout
      of blanks and comments, and denotes exactly their numbers. */
  lemma LimitAcceptsIff(ctx: SqlContext, s: string, start: nat, p: nat, l: Limit, k: nat)
    requires p <= |s| && l.start == start
    ensures LimitAt(ctx, s, start, p) == Ok((l, k)) <==>
              exists n: nat, j: nat, m: nat :: LimitForm(ctx, s, p, l, k, n, j, m)
  {
    if LimitAt(ctx, s, start, p) == Ok((l, k)) {
      var n, j, m := LimitHasForm(ctx, s, start, p, l, k);
    }
    if exists n: nat, j: nat, m: nat :: LimitForm(ctx, s, p, l, k, n, j, m) {
      var n: nat, j: nat, m: nat :| LimitForm(ctx, s, p, l, k, n, j, m);
      LimitFormParses(ctx, s, start, p, l, k, n, j, m);
    }
  }

  lemma LimitHasForm(ctx: SqlContext, s: string, start: nat, p: nat, l: Limit, k: nat)
    returns (n: nat, j: nat, m: nat)
    requires p <= |s| && LimitAt(ctx, s, start, p) == Ok((l, k))
    ensures LimitForm(ctx, s, p, l, k, n, j, m)
  {
    hide Lex, IntegerAt, DigitEnd, Filler, Value, Skip;
    var q := ctx.quotes;
    n := SkipLandsAfterFiller(q, s, p);
    IntegerLex(q, s, n);
    var a := Skip(q, s, p).value;
    j := SkipLandsAfterFiller(q, s, a.curr);
    LexBounds(q, s, j);
    SignShape(q, s, j);
    SemicolonLex(q, s, j);
    var t := Skip(q, s, a.curr).value;
    m := n;
    if !(t.typ == Eos || (t.typ == Sign && t.prefix == ";")) {
      m := SkipLandsAfterFiller(q, s, t.curr);
      IntegerLex(q, s, m);
    }
  }

  /** A comma or semicolon is a token of its own. */
  lemma SemicolonLex(q: char, s: string, j: nat)
    requires j <= |s|
    ensures j < |s| && (s[j] == ';' || s[j] == ',') ==> Lex(q, s, j) == Ok(Token(Sign, "", [s[j]], j, j + 1, j + 1))
  {
  }

  lemma LimitFormParses(ctx: SqlContext, s: string, start: nat, p: nat, l: Limit, k: nat, n: nat, j: nat, m: nat)
    requires p <= |s| && l.start == start && LimitForm(ctx, s, p, l, k, n, j, m)
    ensures LimitAt(ctx, s, start, p) == Ok((l, k))
  {
    hide Filler, IntegerAt, DigitEnd, Value, WordToken, LineStop, BlockScan, CloseQuote, BlankEnd;
    var q := ctx.quotes;
    SkipOverFiller(q, s, p, n);
    IntegerLex(q, s, n);
    SkipOverFiller(q, s, DigitEnd(s, n), j);
    SemicolonLex(q, s, j);
    LexBounds(q, s, n);
    if j < |s| && s[j] != ';' {
      var c := if s[j] == ',' then j + 1 else OffsetEnd(ctx, s, j);
      LexBounds(q, s, j);
      SkipOverFiller(q, s, c, m);
      IntegerLex(q, s, m);
    }
  }
}
