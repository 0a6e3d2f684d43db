/** The recursive-descent parser: it drives the lexer object, builds SQL objects
    and lets visitors set their replacement values. Every method is proved to
    compute what `SqlGrammar` says of the text. */
module MysqlParsing {
  import opened Wrappers
  import opened SqlText
  import opened SqlNumbers
  import opened SqlLexing
  import opened SqlGrammar
  import opened SqlObjects

  /** The replacement a visitor sets on the object of this kind and span. */
  type Visitor = (Kind, nat, nat) -> Option<SqlObjects.Value>

  function KindOf(e: Expr): Kind {
    if e.UserVariable? then UserVarExpr else SysVarExpr
  }

  /** o is the object built for an item of this kind and span of `sql`. */
  ghost predicate Built(o: SqlObject, kind: Kind, start: nat, end: nat, sql: string, quotes: char, visit: Visitor)
    reads o
  {
    && o.kind == kind && o.source == sql && o.quotes == quotes
    && o.start == start && o.end == end && o.value == visit(kind, start, end)
    && o.children == [] && o.height == 0 && o.alias == "" && o.cache == "" && !o.rewritten
  }

  /** A select list: the expressions with their objects. */
  ghost predicate BuiltExprs(nodes: seq<SqlObject>, exprs: seq<Expr>, sql: string, quotes: char, visit: Visitor)
    reads nodes
  {
    && |nodes| == |exprs|
    && (forall i | 0 <= i < |nodes| ::
          Built(nodes[i], KindOf(exprs[i]), exprs[i].start, exprs[i].end, sql, quotes, visit) && nodes[i].inSelect)
    && Distinct(nodes)
  }

  datatype Statement = Statement(select: Select, node: SqlObject, exprs: seq<SqlObject>, limit: Option<SqlObject>) {
    /** The statement object with its children: the expressions in order, then
        the LIMIT clause. The statement's own visitor only runs with a LIMIT. */
    ghost predicate Valid(sql: string, quotes: char, visit: Visitor)
      reads World()
    {
      && node.kind == SelectStatement && node.source == sql && node.quotes == quotes && node.height == 1
      && node.start == select.start && node.end == select.end
      && node.value == (if limit.Some? then visit(SelectStatement, node.start, node.end) else None)
      && node.alias == "" && node.cache == "" && !node.rewritten
      && node.children == exprs + (if limit.Some? then [limit.value] else [])
      && BuiltExprs(exprs, select.exprs, sql, quotes, visit)
      && limit.Some? == select.limit.Some?
      && (limit.Some? ==>
            && Built(limit.value, LimitClause, select.limit.value.start, select.limit.value.end, sql, quotes, visit)
            && limit.value !in exprs)
    }

    ghost function World(): set<SqlObject> {
      {node} + Members(exprs) + (if limit.Some? then {limit.value} else {})
    }
  }

  class ParseHelper {
    const lexer: SqlLexer
    const ctx: SqlContext
    const visit: Visitor

    constructor (ctx: SqlContext, visit: Visitor)
      ensures fresh(lexer) && this.ctx == ctx && this.visit == visit && Ready()
    {
      this.ctx := ctx;
      this.visit := visit;
      lexer := new SqlLexer(ctx.quotes);
    }

    ghost predicate Ready()
      reads lexer
    {
      lexer.LinesBounded() && lexer.idQuote == ctx.quotes
    }

    /** The same text is still being lexed. */
    twostate predicate SameText()
      reads lexer
    {
      Ready() && lexer.sql == old(lexer.sql)
    }

    method NewObject(kind: Kind, start: nat, end: nat) returns (o: SqlObject)
      ensures fresh(o) && Built(o, kind, start, end, lexer.sql, ctx.quotes, visit) && !o.inSelect
    {
      o := new SqlObject(kind, lexer.sql, ctx.quotes, 0);
      o.SetRange(start, end);
      o.value := visit(kind, start, end);
    }

    /** A user variable, just after its `@`. */
    method ParseUserVarExpr() returns (r: Result<(Expr, SqlObject), SqlError>)
      requires Ready() && lexer.typ == Undefined && 0 < lexer.curr
      modifies lexer
      ensures lexer.sql == old(lexer.sql)
      ensures r.Err? ==> UserVariableAt(lexer.sql, old(lexer.curr)) == Err(r.error)
      ensures r.Ok? ==>
                && SameText() && lexer.typ == Undefined
                && UserVariableAt(lexer.sql, old(lexer.curr)) == Ok((r.value.0, lexer.curr))
                && fresh(r.value.1)
                && Built(r.value.1, UserVarExpr, r.value.0.start, r.value.0.end, lexer.sql, ctx.quotes, visit)
    {
      var _ :- lexer.LoadToken(false, false, true);
      var start := lexer.start - 1;
      if lexer.quotes != "" {
        start := start - 1;
      }
      var text := lexer.Slice();
      var name := Name(text, lexer.quotes, lexer.start, lexer.end);
      var e := UserVariable(start, lexer.curr, name);
      lexer.ResetToken();
      var node := NewObject(UserVarExpr, e.start, e.end);
      r := Ok((e, node));
    }

    /** The identifier in the loaded token; moves to the token after it. */
    method ParseIdentifier(kind: IdKind) returns (r: Result<Name, SqlError>)
      requires Ready() && lexer.typ == Id && lexer.start <= lexer.end <= lexer.curr
      modifies lexer
      ensures lexer.sql == old(lexer.sql)
      ensures r.Err? ==> NameAt(ctx, lexer.sql, old(lexer.Current()), kind) == Err(r.error)
      ensures r.Ok? ==>
                SameText() && NameAt(ctx, lexer.sql, old(lexer.Current()), kind) == Ok((r.value, lexer.Current()))
    {
      var text := lexer.Slice();
      var quotes := lexer.quotes;
      if |text| > MaxLength(kind) {
        return Err(Syntax(lexer.start));
      }
      if text != "" && IsBlank(text[|text| - 1]) {
        if NoBlankEnd(kind) {
          return Err(Syntax(lexer.start));
        }
      }
      var name := Name(text, quotes, lexer.start, lexer.end);
      var _ :- lexer.SkipBlankComment();
      if lexer.prefix != "." {
        if ctx.upper(text) in ctx.reserved {
          return Err(Syntax(name.start));
        }
      }
      r := Ok(name);
    }

    /** The `SESSION.` or `GLOBAL.` in front of a system variable's name. */
    method ParseScope() returns (r: Result<bool, SqlError>)
      requires Ready() && lexer.typ == Id && lexer.start <= lexer.end <= lexer.curr
      modifies lexer
      ensures lexer.sql == old(lexer.sql)
      ensures r.Err? ==> ScopedName(ctx, lexer.sql, old(lexer.Current())) == Err(r.error)
      ensures r.Ok? ==>
                && SameText() && ScopedName(ctx, lexer.sql, old(lexer.Current())) == Ok((lexer.Current(), r.value))
                && lexer.typ == Id && lexer.start <= lexer.end
                && (old(lexer.curr == lexer.end + |lexer.quotes| && |lexer.quotes| <= 1) ==>
                      lexer.curr == lexer.end + |lexer.quotes| && |lexer.quotes| <= 1)
    {
      var global := false;
      if lexer.quotes == "" {
        var text := lexer.Slice();
        var id := ctx.upper(text);
        if id == "SESSION" || id == "GLOBAL" {
          ScopedNameBoundsOf(lexer.Current());
          var _ :- lexer.SkipBlankComment();
          if lexer.typ == Sign && lexer.prefix == "." {
            if |id| == 6 {
              global := true;
            }
          } else {
            return Err(Syntax(lexer.start));
          }
          var _ :- lexer.SkipBlankComment();
          if lexer.typ != Id {
            return Err(Syntax(lexer.start));
          }
        }
      }
      r := Ok(global);
    }

    lemma ScopedNameBoundsOf(t: Token)
      requires t.start <= t.end <= t.curr <= |lexer.sql|
      ensures ScopedName(ctx, lexer.sql, t).Ok? ==>
                var n := ScopedName(ctx, lexer.sql, t).value.0;
                n.start <= n.end <= n.curr && (n == t || (n.curr == n.end + |n.quotes| && |n.quotes| <= 1))
    {
      if ScopedName(ctx, lexer.sql, t).Ok? {
        ScopedNameBounds(ctx, lexer.sql, t);
      }
    }

    /** A system variable, just after its `@@`; moves to the token after it. */
    method ParseSysVarExpr() returns (r: Result<(Expr, SqlObject), SqlError>)
      requires Ready() && lexer.typ == Undefined && 2 <= lexer.curr
      modifies lexer
      ensures lexer.sql == old(lexer.sql)
      ensures r.Err? ==> SystemVariableAt(ctx, lexer.sql, old(lexer.curr)) == Err(r.error)
      ensures r.Ok? ==>
                && SameText()
                && SystemVariableAt(ctx, lexer.sql, old(lexer.curr)) == Ok((r.value.0, lexer.Current()))
                && fresh(r.value.1)
                && Built(r.value.1, SysVarExpr, r.value.0.start, r.value.0.end, lexer.sql, ctx.quotes, visit)
    {
      hide Lex, SystemVariableFrom, Skip, Newlines;
      LexBoundsOf(lexer.curr);
      var _ :- lexer.LoadToken(true, false, false);
      if lexer.typ != Id {
        return Err(Syntax(lexer.start));
      }
      var start := lexer.start - 2;
      if lexer.quotes != "" {
        start := start - 1;
      }
      r := FinishSysVarExpr(start);
    }

    /** The rest of a system variable that starts at `start`, from its first
        identifier on. */
    method FinishSysVarExpr(start: nat) returns (r: Result<(Expr, SqlObject), SqlError>)
      requires Ready() && lexer.typ == Id && lexer.start <= lexer.end && lexer.curr == lexer.end + |lexer.quotes|
      requires start + 2 <= |lexer.sql| && |lexer.quotes| <= 1
      modifies lexer
      ensures lexer.sql == old(lexer.sql)
      ensures r.Err? ==> SystemVariableFrom(ctx, lexer.sql, start + 2, old(lexer.Current())) == Err(r.error)
      ensures r.Ok? ==>
                && SameText()
                && SystemVariableFrom(ctx, lexer.sql, start + 2, old(lexer.Current()))
                   == Ok((r.value.0, lexer.Current()))
                && fresh(r.value.1)
                && Built(r.value.1, SysVarExpr, r.value.0.start, r.value.0.end, lexer.sql, ctx.quotes, visit)
    {
      ScopedNameBoundsOf(lexer.Current());
      var global :- ParseScope();
      r := NamedSysVarExpr(start, global);
    }

    /** The object for the system variable whose name is the loaded token. */
    method NamedSysVarExpr(start: nat, global: bool) returns (r: Result<(Expr, SqlObject), SqlError>)
      requires Ready() && lexer.typ == Id && lexer.start <= lexer.end && lexer.curr == lexer.end + |lexer.quotes|
      requires |lexer.quotes| <= 1
      modifies lexer
      ensures lexer.sql == old(lexer.sql)
      ensures r.Err? ==> NameAt(ctx, lexer.sql, old(lexer.Current()), SysVarId) == Err(r.error)
      ensures r.Ok? ==>
                && SameText()
                && r.value.0 == SystemVariable(start, old(lexer.curr), r.value.0.name, global)
                && NameAt(ctx, lexer.sql, old(lexer.Current()), SysVarId) == Ok((r.value.0.name, lexer.Current()))
                && fresh(r.value.1)
                && Built(r.value.1, SysVarExpr, r.value.0.start, r.value.0.end, lexer.sql, ctx.quotes, visit)
    {
      var end := if lexer.quotes != "" then lexer.end + 1 else lexer.end;
      var name :- ParseIdentifier(SysVarId);
      var e := SystemVariable(start, end, name, global);
      var node := NewObject(SysVarExpr, e.start, e.end);
      r := Ok((e, node));
    }

    lemma LexBoundsOf(p: nat)
      requires p <= |lexer.sql|
      ensures Lex(ctx.quotes, lexer.sql, p).Ok? ==>
                var t := Lex(ctx.quotes, lexer.sql, p).value;
                t.typ == Id ==> t.start <= t.end <= t.curr <= |lexer.sql| && t.curr == t.end + |t.quotes|
                                && t.start == p + |t.quotes| && |t.quotes| <= 1
    {
      if Lex(ctx.quotes, lexer.sql, p).Ok? {
        LexBounds(ctx.quotes, lexer.sql, p);
      }
    }

    // ---- the select list ----

    /** The token the select list goes on with: the loaded one or the next. */
    ghost function Pending(): Lexed
      requires Ready()
      reads lexer
    {
      TokenSpec(ctx.quotes, lexer.sql, lexer.Current(), true, true, false)
    }

    /** What the list comes to when `acc` has been read already. */
    ghost function Remaining(acc: seq<Expr>): Result<(seq<Expr>, Token), SqlError>
      requires Ready()
      reads lexer
    {
      match Pending()
      case Err(e) => Err(e)
      case Ok(t) => ExprsFrom(ctx, lexer.sql, t, acc)
    }

    /** One expression, from the loaded or pending `@` on, and the token after it. */
    method ParseSelectExpr() returns (r: Result<(Expr, SqlObject), SqlError>)
      requires Ready() && (lexer.typ == Sign ==> 0 < lexer.curr)
      modifies lexer
      ensures lexer.sql == old(lexer.sql)
      ensures r.Err? ==> (if old(Pending()).Err? then r.error == old(Pending()).error
                          else ExprAt(ctx, lexer.sql, old(Pending()).value) == Err(r.error))
      ensures r.Ok? ==>
                && SameText() && old(Pending()).Ok?
                && ExprAt(ctx, lexer.sql, old(Pending()).value) == Ok((r.value.0, lexer.Current()))
                && lexer.typ != Undefined && !IsFiller(lexer.typ) && (lexer.typ == Sign ==> 0 < lexer.curr)
                && fresh(r.value.1)
                && Built(r.value.1, KindOf(r.value.0), r.value.0.start, r.value.0.end, lexer.sql, ctx.quotes, visit)
    {
      PendingSign();
      var _ :- lexer.LoadToken(true, true, false);
      if lexer.typ != Sign || lexer.prefix != "@" {
        return Err(Syntax(lexer.start));
      }
      r := ParseVariable();
    }

    /** A user variable and the token after it. */
    method ParseUserItem() returns (r: Result<(Expr, SqlObject), SqlError>)
      requires Ready() && lexer.typ == Undefined && 0 < lexer.curr
      modifies lexer
      ensures lexer.sql == old(lexer.sql)
      ensures var e := UserVariableAt(lexer.sql, old(lexer.curr));
              if r.Err? then
                || e == Err(r.error)
                || (e.Ok? && e.value.1 <= |lexer.sql| && Skip(ctx.quotes, lexer.sql, e.value.1) == Err(r.error))
              else
                && SameText() && e.Ok? && e.value.0 == r.value.0 && e.value.1 <= |lexer.sql|
                && Skip(ctx.quotes, lexer.sql, e.value.1) == Ok(lexer.Current())
                && fresh(r.value.1)
                && Built(r.value.1, UserVarExpr, r.value.0.start, r.value.0.end, lexer.sql, ctx.quotes, visit)
    {
      hide Lex, Skip, UserVariableAt, Newlines;
      var e :- ParseUserVarExpr();
      var _ :- lexer.LoadToken(true, true, false);
      r := Ok(e);
    }

    /** The variable after the loaded `@`, and the token after it. */
    method ParseVariable() returns (r: Result<(Expr, SqlObject), SqlError>)
      requires Ready() && 0 < lexer.curr
      modifies lexer
      ensures lexer.sql == old(lexer.sql)
      ensures r.Err? ==> VariableAt(ctx, lexer.sql, old(lexer.curr)) == Err(r.error)
      ensures r.Ok? ==>
                && SameText()
                && VariableAt(ctx, lexer.sql, old(lexer.curr)) == Ok((r.value.0, lexer.Current()))
                && lexer.typ != Undefined && !IsFiller(lexer.typ) && (lexer.typ == Sign ==> 0 < lexer.curr)
                && fresh(r.value.1)
                && Built(r.value.1, KindOf(r.value.0), r.value.0.start, r.value.0.end, lexer.sql, ctx.quotes, visit)
    {
      hide Lex, Skip, NameAt, Newlines;
      ghost var p := lexer.curr;
      lexer.ResetToken();
      var c :- lexer.CharAt(lexer.curr);
      if c != '@' {
        r := ParseUserItem();
        if r.Err? {
          return;
        }
      } else {
        NewlinesSplit(lexer.sql, 0, lexer.curr, lexer.curr + 1);
        lexer.Skip(1);
        r := ParseSysVarExpr();
        if r.Err? {
          return;
        }
      }
      VariableBounds(ctx, lexer.sql, p);
    }

    lemma PendingSign()
      requires Ready() && (lexer.typ == Sign ==> 0 < lexer.curr)
      ensures Pending().Ok? && Pending().value.typ == Sign ==> 0 < Pending().value.curr
    {
      if Pending().Ok? && Pending().value != lexer.Current() {
        SkipBounds(ctx.quotes, lexer.sql, lexer.curr);
      }
    }

    /** The whole select list; its objects become the children of stmt. */
    method ParseSelectExprs(stmt: SqlObject) returns (r: Result<(seq<Expr>, seq<SqlObject>), SqlError>)
      requires Ready() && (lexer.typ == Sign ==> 0 < lexer.curr)
      requires stmt.children == [] && stmt.kind == SelectStatement
      modifies lexer, stmt`children, stmt`end, stmt`cache, stmt`start
      ensures lexer.sql == old(lexer.sql) && stmt.start == old(stmt.start)
      ensures r.Err? ==> old(Remaining([])) == Err(r.error)
      ensures r.Ok? ==>
                && SameText() && old(Remaining([])) == Ok((r.value.0, lexer.Current()))
                && lexer.typ != Undefined && !IsFiller(lexer.typ)
                && stmt.children == r.value.1 && stmt.cache == ""
                && BuiltExprs(r.value.1, r.value.0, lexer.sql, ctx.quotes, visit)
                && forall i | 0 <= i < |r.value.1| :: fresh(r.value.1[i])
    {
      var exprs, nodes: seq<SqlObject>, next := [], [], true;
      while next
        invariant SameText() && stmt.start == old(stmt.start) && stmt.children == nodes
        invariant exprs == [] || stmt.cache == ""
        invariant forall i | 0 <= i < |nodes| :: fresh(nodes[i])
        invariant BuiltExprs(nodes, exprs, lexer.sql, ctx.quotes, visit)
        invariant next && lexer.typ == Sign ==> 0 < lexer.curr
        invariant next ==> old(Remaining([])) == Remaining(exprs)
        invariant !next ==> exprs != [] && old(Remaining([])) == Ok((exprs, lexer.Current()))
        invariant !next ==> lexer.typ != Undefined && !IsFiller(lexer.typ)
        decreases next, |lexer.sql| - lexer.curr
      {
        var item :- ParseItem(exprs);
        AddSelectExpr(stmt, item.1, exprs, item.0);
        exprs := exprs + [item.0];
        nodes := nodes + [item.1];
        next := item.2;
      }
      r := Ok((exprs, nodes));
    }

    /** One expression after `acc`, and whether another one follows. */
    method ParseItem(ghost acc: seq<Expr>) returns (r: Result<(Expr, SqlObject, bool), SqlError>)
      requires Ready() && (lexer.typ == Sign ==> 0 < lexer.curr)
      modifies lexer
      ensures lexer.sql == old(lexer.sql)
      ensures r.Err? ==> old(Remaining(acc)) == Err(r.error)
      ensures r.Ok? ==>
                && SameText() && fresh(r.value.1)
                && Built(r.value.1, KindOf(r.value.0), r.value.0.start, r.value.0.end, lexer.sql, ctx.quotes, visit)
      ensures r.Ok? && r.value.2 ==>
                && lexer.typ == Undefined && old(lexer.curr) < lexer.curr
                && old(Remaining(acc)) == Remaining(acc + [r.value.0])
      ensures r.Ok? && !r.value.2 ==>
                && lexer.typ != Undefined && !IsFiller(lexer.typ)
                && old(Remaining(acc)) == Ok((acc + [r.value.0], lexer.Current()))
    {
      hide Lex, Skip, VariableAt, Newlines;
      PendingCurr();
      ghost var t := Pending();
      r := Err(NotImplemented);
      var item :- ParseSelectExpr();
      ExprsStep(ctx, lexer.sql, t.value, acc);
      VariableBounds(ctx, lexer.sql, t.value.curr);
      var next :- ListGoesOn();
      r := Ok((item.0, item.1, next));
    }

    /** Whether the token after an expression continues the list; a comma is
        consumed. */
    method ListGoesOn() returns (r: Result<bool, SqlError>)
      requires Ready() && lexer.typ != Undefined && !IsFiller(lexer.typ)
      modifies lexer
      ensures SameText() && lexer.curr == old(lexer.curr) && lexer.idQuote == old(lexer.idQuote)
      ensures r == if old(lexer.typ) != Sign || old(lexer.prefix) == ";" then Ok(false)
                   else if old(lexer.prefix) == "," then Ok(true) else Err(NotImplemented)
      ensures r == Ok(false) ==> lexer.Current() == old(lexer.Current())
      ensures r == Ok(true) ==> lexer.typ == Undefined
    {
      var loaded := lexer.LoadToken(true, true, false);
      var typ := lexer.typ;
      r := Ok(true);
      if typ == Eos {
        r := Ok(false);
      } else if typ == Sign {
        if lexer.prefix == ";" {
          r := Ok(false);
        } else if lexer.prefix == "," {
          lexer.ResetToken();
        } else {
          return Err(NotImplemented);
        }
      } else {
        r := Ok(false);
      }
    }

    /** Adds an expression's object to the statement. */
    method AddSelectExpr(stmt: SqlObject, node: SqlObject, ghost exprs: seq<Expr>, ghost e: Expr)
      requires stmt.kind == SelectStatement && stmt != node && node !in stmt.children && stmt !in stmt.children
      requires BuiltExprs(stmt.children, exprs, lexer.sql, ctx.quotes, visit)
      requires Built(node, KindOf(e), e.start, e.end, lexer.sql, ctx.quotes, visit)
      modifies stmt`children, stmt`end, stmt`cache, stmt`start, node`inSelect
      ensures stmt.children == old(stmt.children) + [node] && stmt.cache == "" && stmt.start == old(stmt.start)
      ensures BuiltExprs(stmt.children, exprs + [e], lexer.sql, ctx.quotes, visit)
    {
      stmt.AddChild(node);
      stmt.SetRange(stmt.start, lexer.curr);
    }

    lemma PendingCurr()
      requires Ready()
      ensures Pending().Ok? ==> lexer.curr <= Pending().value.curr <= |lexer.sql|
    {
      if Pending().Ok? && Pending().value != lexer.Current() {
        SkipBounds(ctx.quotes, lexer.sql, lexer.curr);
      }
    }

    // ---- LIMIT ----

    /** The number in the loaded integer token. */
    method Number(ghost p: nat) returns (n: nat)
      requires Ready() && p <= |lexer.sql| && Skip(ctx.quotes, lexer.sql, p) == Ok(lexer.Current())
      requires IsIntegerType(lexer.typ)
      ensures n == NumberOf(lexer.sql, lexer.Current())
    {
      SkipDigits(ctx.quotes, lexer.sql, p);
      var text := lexer.Slice();
      n := SqlNumbers.Value(text);
    }

    /** Whether the loaded token is the unquoted keyword `word`. */
    method IsWord(word: string) returns (b: bool)
      requires Ready() && lexer.typ == Id && lexer.start <= lexer.end <= |lexer.sql|
      ensures b == (lexer.quotes == "" && ctx.upper(lexer.sql[lexer.start..lexer.end]) == word)
    {
      b := false;
      if lexer.quotes == "" {
        var text := lexer.Slice();
        b := ctx.upper(text) == word;
      }
    }

    /** The clause whose LIMIT keyword starts at `start` and has just been read. */
    method ParseSelectLimit(start: nat) returns (r: Result<(Limit, SqlObject), SqlError>)
      requires Ready() && lexer.typ == Undefined
      modifies lexer
      ensures lexer.sql == old(lexer.sql)
      ensures r.Err? ==> LimitAt(ctx, lexer.sql, start, old(lexer.curr)) == Err(r.error)
      ensures r.Ok? ==>
                && SameText() && lexer.typ == Undefined
                && LimitAt(ctx, lexer.sql, start, old(lexer.curr)) == Ok((r.value.0, lexer.curr))
                && fresh(r.value.1) && !r.value.1.inSelect
                && Built(r.value.1, LimitClause, r.value.0.start, r.value.0.end, lexer.sql, ctx.quotes, visit)
    {
      ghost var p := lexer.curr;
      var typ :- lexer.LoadToken(true, true, false);
      if typ != Int && typ != BigInt {
        return Err(Syntax(lexer.start));
      }
      var end := lexer.end;
      var rows := Number(p);
      ghost var a := lexer.Current();
      var _ :- lexer.SkipBlankComment();
      SkipBounds(ctx.quotes, lexer.sql, a.curr);
      var limit :- LimitRest(start, end, rows, a);
      var node := NewObject(LimitClause, limit.start, limit.end);
      r := Ok((limit, node));
    }

    /** The clause after its first number, from the token that follows it. */
    method LimitRest(start: nat, end0: nat, rows0: nat, ghost a: Token) returns (r: Result<Limit, SqlError>)
      requires Ready() && a.curr <= |lexer.sql| && Skip(ctx.quotes, lexer.sql, a.curr) == Ok(lexer.Current())
      requires lexer.start <= lexer.end <= lexer.curr
      modifies lexer
      ensures lexer.sql == old(lexer.sql)
      ensures r.Err? ==> LimitFrom(ctx, lexer.sql, start, end0, rows0, old(lexer.Current())) == Err(r.error)
      ensures r.Ok? ==>
                && SameText() && lexer.typ == Undefined
                && LimitFrom(ctx, lexer.sql, start, end0, rows0, old(lexer.Current())) == Ok((r.value, lexer.curr))
    {
      var end, rows, typ, swap := end0, rows0, lexer.typ, true;
      if typ == Eos {
        lexer.ResetToken();
        return Ok(Limit(start, end, rows, 0));
      }
      ghost var p := lexer.curr;
      if typ == Sign {
        if lexer.prefix == "," {
          lexer.ResetToken();
          typ :- lexer.LoadToken(true, true, false);
        } else if lexer.prefix == ";" {
          lexer.ResetToken();
          return Ok(Limit(start, end, rows, 0));
        }
      } else if typ == Id {
        var offset := IsWord("OFFSET");
        if offset {
          lexer.ResetToken();
          typ :- lexer.LoadToken(true, true, false);
          swap := false;
        }
      } else {
        return Err(Syntax(lexer.start));
      }
      if typ != Int && typ != BigInt {
        return Err(Syntax(lexer.start));
      }
      var offset := Number(p);
      if swap {
        rows, offset := offset, rows;
      }
      end := lexer.end;
      lexer.ResetToken();
      r := Ok(Limit(start, end, rows, offset));
    }

    // ---- statements ----

    /** A SELECT statement whose keyword starts at `start`, from the first token
        after the keyword. */
    method ParseSelect(start: nat) returns (r: Result<Statement, SqlError>)
      requires Ready() && lexer.typ != Undefined && !IsFiller(lexer.typ) && (lexer.typ == Sign ==> 0 < lexer.curr)
      modifies lexer
      ensures lexer.sql == old(lexer.sql)
      ensures r.Err? ==> SelectAt(ctx, lexer.sql, start, old(lexer.Current())) == Err(r.error)
      ensures r.Ok? ==>
                && SameText()
                && SelectAt(ctx, lexer.sql, start, old(lexer.Current())) == Ok((r.value.select, lexer.curr))
                && r.value.Valid(lexer.sql, ctx.quotes, visit) && fresh(r.value.World())
    {
      hide Lex, Skip, ExprsFrom, LimitAt;
      ghost var t := lexer.Current();
      var stmt := new SqlObject(SelectStatement, lexer.sql, ctx.quotes, 1);
      stmt.SetRange(start, 0);
      var list := ParseSelectExprs(stmt);
      if list.Err? {
        return Err(list.error);
      }
      ExprsBounds(ctx, lexer.sql, t, []);
      r := FinishSelect(stmt, list.value.0, list.value.1);
    }

    /** The statement after its list, at the token that ended the list. */
    method FinishSelect(stmt: SqlObject, exprs: seq<Expr>, nodes: seq<SqlObject>)
        returns (r: Result<Statement, SqlError>)
      requires Ready() && lexer.start <= lexer.end <= lexer.curr && lexer.typ != Undefined && !IsFiller(lexer.typ)
      requires NewStatement(stmt, nodes, lexer.sql, ctx.quotes)
      requires BuiltExprs(nodes, exprs, lexer.sql, ctx.quotes, visit)
      modifies lexer, stmt
      ensures lexer.sql == old(lexer.sql)
      ensures r.Err? ==> SelectFrom(ctx, lexer.sql, old(stmt.start), exprs, old(lexer.Current())) == Err(r.error)
      ensures r.Ok? ==>
                && SameText()
                && SelectFrom(ctx, lexer.sql, old(stmt.start), exprs, old(lexer.Current()))
                   == Ok((r.value.select, lexer.curr))
                && r.value.Valid(lexer.sql, ctx.quotes, visit)
                && r.value.node == stmt && r.value.exprs == nodes
                && (r.value.limit.Some? ==> fresh(r.value.limit.value))
    {
      var start := stmt.start;
      var typ := lexer.typ;
      if typ == Eos || (typ == Sign && lexer.prefix == ";") {
        stmt.SetRange(start, lexer.end);
        lexer.ResetToken();
        return Ok(Statement(Select(start, stmt.end, exprs, None, []), stmt, nodes, None));
      }
      if typ != Id {
        return Err(Syntax(lexer.start));
      }
      var limited := IsWord("LIMIT");
      if !limited {
        return Err(Syntax(lexer.start));
      }
      r := LimitedSelect(stmt, exprs, nodes);
    }

    /** The statement from its LIMIT keyword on. */
    method LimitedSelect(stmt: SqlObject, exprs: seq<Expr>, nodes: seq<SqlObject>)
        returns (r: Result<Statement, SqlError>)
      requires Ready() && lexer.start <= lexer.curr
      requires NewStatement(stmt, nodes, lexer.sql, ctx.quotes)
      requires BuiltExprs(nodes, exprs, lexer.sql, ctx.quotes, visit)
      modifies lexer, stmt
      ensures lexer.sql == old(lexer.sql)
      ensures r.Err? ==> LimitedFrom(ctx, lexer.sql, old(stmt.start), exprs, old(lexer.Current())) == Err(r.error)
      ensures r.Ok? ==>
                && SameText()
                && LimitedFrom(ctx, lexer.sql, old(stmt.start), exprs, old(lexer.Current()))
                   == Ok((r.value.select, lexer.curr))
                && r.value.Valid(lexer.sql, ctx.quotes, visit)
                && r.value.node == stmt && r.value.exprs == nodes
                && (r.value.limit.Some? ==> fresh(r.value.limit.value))
    {
      var start := stmt.start;
      var from := lexer.start;
      lexer.ResetToken();
      var clause :- ParseSelectLimit(from);
      var end :- EndOfSelect();
      var statement := AddLimit(stmt, exprs, nodes, clause.0, clause.1, end);
      r := Ok(statement);
    }

    /** Adds the LIMIT clause, ends the statement and lets its visitor run. */
    method AddLimit(stmt: SqlObject, exprs: seq<Expr>, nodes: seq<SqlObject>, limit: Limit, clause: SqlObject, end: nat)
        returns (r: Statement)
      requires NewStatement(stmt, nodes, lexer.sql, ctx.quotes)
      requires BuiltExprs(nodes, exprs, lexer.sql, ctx.quotes, visit)
      requires Built(clause, LimitClause, limit.start, limit.end, lexer.sql, ctx.quotes, visit)
      requires clause !in nodes && clause != stmt
      modifies stmt, clause`inSelect
      ensures r == Statement(Select(old(stmt.start), end, exprs, Some(limit), []), stmt, nodes, Some(clause))
      ensures r.Valid(lexer.sql, ctx.quotes, visit)
    {
      stmt.AddChild(clause);
      stmt.SetRange(stmt.start, end);
      stmt.value := visit(SelectStatement, stmt.start, stmt.end);
      r := Statement(Select(stmt.start, stmt.end, exprs, Some(limit), []), stmt, nodes, Some(clause));
    }

    /** The `;` or the end of the text after a LIMIT clause. */
    method EndOfSelect() returns (r: Result<nat, SqlError>)
      requires Ready() && lexer.typ == Undefined
      modifies lexer
      ensures lexer.sql == old(lexer.sql)
      ensures var last := Skip(ctx.quotes, lexer.sql, old(lexer.curr));
              && (r.Ok? ==> SameText() && last.Ok? && r.value == last.value.end && lexer.curr == last.value.curr
                            && (last.value.typ == Eos || (last.value.typ == Sign && last.value.prefix == ";")))
              && (r.Err? ==> if last.Err? then r.error == last.error
                             else last.value.typ != Eos && !(last.value.typ == Sign && last.value.prefix == ";")
                                  && r.error == Syntax(last.value.start))
    {
      var _ :- lexer.LoadToken(true, true, false);
      if lexer.typ == Sign {
        if lexer.prefix != ";" {
          return Err(Syntax(lexer.start));
        }
        var end := lexer.end;
        lexer.ResetToken();
        r := Ok(end);
      } else if lexer.typ == Eos {
        r := Ok(lexer.end);
      } else {
        return Err(Syntax(lexer.start));
      }
    }

    // ---- the whole text ----

    /** Moves to the first token that is neither blank nor comment, collecting
        the comments. */
    method NextStatementToken() returns (r: Result<seq<CommentSpan>, SqlError>)
      requires Ready()
      modifies lexer
      ensures lexer.sql == old(lexer.sql)
      ensures r.Err? ==> Skip(ctx.quotes, lexer.sql, old(lexer.curr)) == Err(r.error)
      ensures r.Ok? ==>
                && SameText() && Skip(ctx.quotes, lexer.sql, old(lexer.curr)) == Ok(lexer.Current())
                && r.value == CommentsAt(ctx.quotes, lexer.sql, old(lexer.curr))
    {
      hide Lex;
      var comments := [];
      while true
        invariant SameText()
        invariant Skip(ctx.quotes, lexer.sql, old(lexer.curr)) == Skip(ctx.quotes, lexer.sql, lexer.curr)
        invariant comments + CommentsAt(ctx.quotes, lexer.sql, lexer.curr)
               == CommentsAt(ctx.quotes, lexer.sql, old(lexer.curr))
        decreases |lexer.sql| - lexer.curr
      {
        ghost var p := lexer.curr;
        var typ :- lexer.NexToken(true, false);
        LexBounds(ctx.quotes, lexer.sql, p);
        ghost var before, rest := comments, CommentsAt(ctx.quotes, lexer.sql, lexer.curr);
        if typ == Comment {
          var c := CommentSpan(lexer.start, lexer.end, lexer.prefix);
          comments := comments + [c];
          assert before + ([c] + rest) == comments + rest;
        } else if typ != Blank {
          assert comments + [] == comments;
          return Ok(comments);
        }
      }
    }

    /** The next statement, or None where only filler and a final `;` are left. */
    method NextStatement(ghost done: seq<Select>) returns (r: Result<Option<Statement>, SqlError>)
      requires Ready()
      modifies lexer
      ensures lexer.sql == old(lexer.sql)
      ensures r.Err? ==> Whole(ctx, lexer.sql, old(lexer.curr), done) == Err(r.error)
      ensures r.Ok? && r.value.None? ==>
                SameText() && lexer.curr == |lexer.sql| && Whole(ctx, lexer.sql, old(lexer.curr), done) == Ok(done)
      ensures r.Ok? && r.value.Some? ==>
                && SameText() && old(lexer.curr) < lexer.curr
                && Whole(ctx, lexer.sql, old(lexer.curr), done)
                   == Whole(ctx, lexer.sql, lexer.curr, done + [r.value.value.select])
                && r.value.value.Valid(lexer.sql, ctx.quotes, visit) && fresh(r.value.value.World())
    {
      ghost var p := lexer.curr;
      var comments :- NextStatementToken();
      NextBounds(ctx.quotes, lexer.sql, p);
      ParseTurn(ctx, lexer.sql, p, done);
      if lexer.typ == Eos || (lexer.curr >= |lexer.sql| && lexer.prefix == ";") {
        return Ok(None);
      }
      if lexer.typ != Id {
        return Err(Syntax(lexer.start));
      }
      var start := lexer.start;
      var select := IsWord("SELECT");
      if !select {
        return Err(Syntax(start));
      }
      ghost var k := lexer.curr;
      var _ :- lexer.SkipBlankComment();
      NextBounds(ctx.quotes, lexer.sql, k);
      var stmt :- ParseSelect(start);
      r := Ok(Some(stmt.(select := stmt.select.(comments := comments))));
    }

    /** Parses a text: statement after statement, each with the comments in
        front of it. */
    method Parse(sql: string) returns (r: Result<seq<Statement>, SqlError>, ghost objs: set<SqlObject>)
      requires lexer.idQuote == ctx.quotes
      modifies lexer
      ensures r.Err? ==> SqlGrammar.Parse(ctx, sql) == Err(r.error)
      ensures r.Ok? ==> SqlGrammar.Parse(ctx, sql) == Ok(Selects(r.value))
      ensures r.Ok? ==> Sound(r.value, objs, sql, ctx.quotes, visit) && fresh(objs)
      ensures r.Ok? ==> lexer.curr == |sql| && 1 <= lexer.line <= 1 + Newlines(sql, 0, |sql|)
    {
      lexer.Reset(sql);
      objs := {};
      var stmts: seq<Statement>, more := [], true;
      WholeIsParse(ctx, sql);
      while more
        invariant lexer.sql == sql && Ready() && (!more ==> lexer.curr == |sql|)
        invariant SqlGrammar.Parse(ctx, sql)
               == if more then Whole(ctx, sql, lexer.curr, Selects(stmts)) else Ok(Selects(stmts))
        invariant Sound(stmts, objs, sql, ctx.quotes, visit) && fresh(objs)
        decreases more, |sql| - lexer.curr
      {
        var next;
        next, objs := NextSound(stmts, objs);
        if next.Err? {
          return Err(next.error), objs;
        }
        stmts, more := next.value.0, next.value.1;
      }
      r := Ok(stmts);
    }

    /** One turn of the statement loop: adds the next statement, if there is one. */
    method NextSound(stmts: seq<Statement>, ghost objs: set<SqlObject>)
        returns (r: Result<(seq<Statement>, bool), SqlError>, ghost all: set<SqlObject>)
      requires Ready() && Sound(stmts, objs, lexer.sql, ctx.quotes, visit)
      modifies lexer
      ensures lexer.sql == old(lexer.sql) && objs <= all && fresh(all - objs)
      ensures r.Err? ==> Whole(ctx, lexer.sql, old(lexer.curr), Selects(stmts)) == Err(r.error)
      ensures r.Ok? ==>
                && Ready() && (if r.value.1 then old(lexer.curr) < lexer.curr else lexer.curr == |lexer.sql|)
                && Whole(ctx, lexer.sql, old(lexer.curr), Selects(stmts))
                   == (if r.value.1 then Whole(ctx, lexer.sql, lexer.curr, Selects(r.value.0))
                       else Ok(Selects(r.value.0)))
                && Sound(r.value.0, all, lexer.sql, ctx.quotes, visit)
    {
      all := objs;
      var next := NextStatement(Selects(stmts));
      if next.Err? {
        return Err(next.error), all;
      }
      match next.value {
        case None => r := Ok((stmts, false));
        case Some(stmt) =>
          var longer := Appended(stmts, objs, stmt);
          all := objs + stmt.World();
          r := Ok((longer, true));
      }
    }

    /** Adds a statement whose objects are new. */
    method Appended(stmts: seq<Statement>, ghost objs: set<SqlObject>, stmt: Statement) returns (r: seq<Statement>)
      requires Sound(stmts, objs, lexer.sql, ctx.quotes, visit) && stmt.Valid(lexer.sql, ctx.quotes, visit)
      requires objs !! stmt.World()
      ensures r == stmts + [stmt] && Selects(r) == Selects(stmts) + [stmt.select]
      ensures Sound(r, objs + stmt.World(), lexer.sql, ctx.quotes, visit)
    {
      r := stmts + [stmt];
      SelectsAppend(stmts, stmt);
    }
  }

  /** Well built statements with objects among `objs`, none shared. */
  ghost predicate Sound(stmts: seq<Statement>, objs: set<SqlObject>, sql: string, quotes: char, visit: Visitor)
    reads objs
  {
    && (forall i | 0 <= i < |stmts| :: stmts[i].World() <= objs && stmts[i].Valid(sql, quotes, visit))
    && Apart(stmts)
  }

  lemma WholeIsParse(ctx: SqlContext, s: string)
    ensures SqlGrammar.Parse(ctx, s) == Whole(ctx, s, 0, [])
  {
    if ParseFrom(ctx, s, 0).Ok? {
      assert [] + ParseFrom(ctx, s, 0).value == ParseFrom(ctx, s, 0).value;
    }
  }

  /** Different statements share no objects. */
  ghost predicate Apart(stmts: seq<Statement>) {
    forall i, j | 0 <= i < j < |stmts| :: stmts[i].World() !! stmts[j].World()
  }

  lemma {:induction false} SelectsAppend(stmts: seq<Statement>, x: Statement)
    ensures Selects(stmts + [x]) == Selects(stmts) + [x.select]
  {
    assert Selects(stmts + [x]) == Selects(stmts) + [x.select];
  }

  /** What parsing comes to when `done` has been read already and lexing goes on at p. */
  ghost function Whole(ctx: SqlContext, s: string, p: nat, done: seq<Select>): Result<seq<Select>, SqlError>
    requires p <= |s|
  {
    match ParseFrom(ctx, s, p)
    case Err(e) => Err(e)
    case Ok(rest) => Ok(done + rest)
  }

  function Selects(stmts: seq<Statement>): (r: seq<Select>)
    ensures |r| == |stmts| && forall i | 0 <= i < |stmts| :: r[i] == stmts[i].select
  {
    if stmts == [] then [] else [stmts[0].select] + Selects(stmts[1..])
  }

  /** One turn of the statement loop, on the text. */
  lemma ParseTurn(ctx: SqlContext, s: string, p: nat, done: seq<Select>)
    requires p <= |s| && Skip(ctx.quotes, s, p).Ok?
    ensures var t := Skip(ctx.quotes, s, p).value;
            var first := Skip(ctx.quotes, s, t.curr);
            && t.start <= t.end <= t.curr <= |s|
            && (t.typ == Eos || (t.curr == |s| && t.prefix == ";") ==> Whole(ctx, s, p, done) == Ok(done))
            && (!(t.typ == Eos || (t.curr == |s| && t.prefix == ";")) ==>
                  if t.typ != Id || t.quotes != "" || ctx.upper(s[t.start..t.end]) != "SELECT" then
                    Whole(ctx, s, p, done) == Err(Syntax(t.start))
                  else if first.Err? then Whole(ctx, s, p, done) == Err(first.error)
                  else
                    && first.value.curr <= |s|
                    && var stmt := SelectAt(ctx, s, t.start, first.value);
                       if stmt.Err? then Whole(ctx, s, p, done) == Err(stmt.error)
                       else
                         && p < stmt.value.1 <= |s|
                         && Whole(ctx, s, p, done)
                            == Whole(ctx, s, stmt.value.1,
                                     done + [stmt.value.0.(comments := CommentsAt(ctx.quotes, s, p))]))
  {
    hide Lex, Skip, ExprsFrom, SelectAt, CommentsAt;
    SkipBounds(ctx.quotes, s, p);
    var t := Skip(ctx.quotes, s, p).value;
    if t.typ == Eos || (t.curr == |s| && t.prefix == ";") {
      assert done + [] == done;
    } else if Skip(ctx.quotes, s, t.curr).Ok? && SelectAt(ctx, s, t.start, Skip(ctx.quotes, s, t.curr).value).Ok? {
      SelectBounds(ctx, s, t.start, t.curr);
      var (x, k) := SelectAt(ctx, s, t.start, Skip(ctx.quotes, s, t.curr).value).value;
      var y := x.(comments := CommentsAt(ctx.quotes, s, p));
      if ParseFrom(ctx, s, k).Ok? {
        assert done + ([y] + ParseFrom(ctx, s, k).value) == done + [y] + ParseFrom(ctx, s, k).value;
      }
    }
  }

  /** A statement object that has only its expressions yet. */
  ghost predicate NewStatement(stmt: SqlObject, nodes: seq<SqlObject>, sql: string, quotes: char)
    reads stmt
  {
    && stmt.source == sql && stmt.quotes == quotes
    && stmt.kind == SelectStatement && stmt.height == 1 && stmt.value == None && stmt.alias == ""
    && stmt.cache == "" && !stmt.rewritten && stmt.children == nodes && stmt !in nodes
  }
}
