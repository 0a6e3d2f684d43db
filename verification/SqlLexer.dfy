/** The lexer object: a cursor over one SQL text whose fields hold the current
    token. Every scan is proved against the token functions of `SqlText`. */
module SqlLexing {
  import opened Wrappers
  import opened SqlText

  /** Newlines in s[i..j]. */
  function Newlines(s: string, i: nat, j: nat): nat
    requires j <= |s|
    decreases j
  {
    if j <= i then 0 else Newlines(s, i, j - 1) + (if s[j - 1] == '\n' then 1 else 0)
  }

  lemma {:induction false} NewlinesSplit(s: string, i: nat, j: nat, k: nat)
    requires i <= j <= k <= |s|
    ensures Newlines(s, i, k) == Newlines(s, i, j) + Newlines(s, j, k)
    decreases k
  {
    if j < k {
      NewlinesSplit(s, i, j, k - 1);
    }
  }

  /** The newlines the block comment loop counts from i on: a character behind a star
      is read together with the star and not looked at. */
  function CommentLines(s: string, i: nat): nat
    requires i <= |s|
    decreases |s| - i
  {
    if i == |s| then 0
    else if s[i] == '*' && i + 1 < |s| then if s[i + 1] == '/' then 0 else CommentLines(s, i + 2)
    else (if s[i] == '\n' then 1 else 0) + CommentLines(s, i + 1)
  }

  /** How many lines the lexer goes on by when it reads a token at p: the first
      character of a blank run and of a quoted text is not looked at. */
  function TokenLines(s: string, p: nat, t: Token): nat
    requires p <= |s| && t.curr <= |s|
  {
    if t.typ == Comment then
      if t.prefix == "/*" then if p + 2 <= |s| then CommentLines(s, p + 2) else 0
      else Newlines(s, p + |t.prefix|, t.curr)
    else if t.typ == Blank || t.typ == Str || t.quotes != "" then Newlines(s, p + 1, t.curr)
    else 0
  }

  class SqlLexer {
    // sql state; `idQuote` and `upper` come from the SQL context and the runtime
    var idQuote: char
    var sql: string
    var curr: nat
    var line: nat

    // token state
    var typ: TokenType
    var quotes: string
    var prefix: string
    var start: nat
    var end: nat

    ghost predicate Valid()
      reads this
    {
      curr <= |sql|
    }

    /** The line is never past the newlines in front of the cursor. */
    ghost predicate LinesBounded()
      reads this
    {
      Valid() && 1 <= line <= 1 + Newlines(sql, 0, curr)
    }

    /** The token the fields hold. */
    ghost function Current(): Token
      reads this
    {
      Token(typ, quotes, prefix, start, end, curr)
    }

    constructor (idQuote: char)
      ensures LinesBounded() && this.idQuote == idQuote
    {
      this.idQuote := idQuote;
      sql, curr, line := "", 0, 1;
      typ, quotes, prefix, start, end := Undefined, "", "", 0, 0;
    }

    method Reset(text: string)
      modifies this
      ensures LinesBounded() && sql == text && curr == 0 && line == 1 && idQuote == old(idQuote)
      ensures Current() == Token(Undefined, "", "", 0, 0, 0)
    {
      sql, curr, line := text, 0, 1;
      ResetToken();
    }

    method ResetToken()
      modifies this`typ, this`quotes, this`prefix, this`start, this`end
      ensures Current() == Token(Undefined, "", "", 0, 0, curr)
    {
      typ, quotes, prefix, start, end := Undefined, "", "", 0, 0;
    }

    method CharAt(i: nat) returns (r: Result<char, SqlError>)
      ensures r == if i < |sql| then Ok(sql[i]) else Err(UnexpectedEnd)
    {
      if i >= |sql| {
        return Err(UnexpectedEnd);
      }
      return Ok(sql[i]);
    }

    method Skip(n: nat)
      modifies this`curr
      ensures curr == old(curr) + n
    {
      curr := curr + n;
    }

    /** The text and the line bookkeeping common to every scan: the text stays,
        and `line` grows by at most the newlines between `from` and the cursor. */
    twostate predicate Scanned(from: nat)
      requires from <= |sql| && curr <= |sql|
      reads this
    {
      sql == old(sql) && idQuote == old(idQuote) &&
      old(line) <= line <= old(line) + Newlines(sql, from, curr)
    }

    /** Counts the newlines of the run, but for one that opens it. */
    method BlankToken(c0: char, i0: nat)
      requires 0 < i0 <= |sql| && typ == Undefined && quotes == ""
      modifies this
      ensures Valid() && sql == old(sql) && Scanned(i0)
      ensures i0 <= curr && line == old(line) + Newlines(sql, i0, curr)
      ensures Current() == Token(Undefined, "", [c0], i0 - 1, BlankEnd(sql, i0), BlankEnd(sql, i0))
    {
      var c, i := c0, i0;
      prefix := [c];
      while i < |sql|
        invariant i0 <= i <= |sql| && BlankEnd(sql, i0) == BlankEnd(sql, i)
        invariant prefix == [c0] && typ == Undefined && quotes == "" && curr == old(curr)
        invariant sql == old(sql) && idQuote == old(idQuote)
        invariant line == old(line) + Newlines(sql, i0, i)
      {
        c := sql[i];
        i := i + 1;
        if c == '\n' {
          line := line + 1;
        } else if c != ' ' && c != '\r' && c != '\t' && c != '\U{000C}' && c != '\U{000B}' {
          i := i - 1;
          break;
        }
      }
      start := i0 - 1;
      end := i;
      curr := i;
    }

    method LineCommentToken(c0: char, i0: nat)
      requires 0 < i0 <= |sql| && sql[i0 - 1] == c0 && c0 != '\r' && typ == Undefined && quotes == ""
      modifies this
      ensures Valid() && sql == old(sql) && Scanned(i0)
      ensures Current() == LineComment(sql, i0, if old(prefix) == "" then "#" else old(prefix)).(typ := Undefined)
      ensures i0 <= curr && line == old(line) + Newlines(sql, i0, curr)
    {
      hide LineStop, Newlines;
      var c, i, b := c0, i0, "";
      while i < |sql|
        invariant i0 <= i <= |sql| && LineStop(sql, i0) == LineStop(sql, i)
        invariant if i == i0 then b == "" && c == c0 else b == [sql[i - 2]] && c == sql[i - 1]
        invariant Current() == old(Current()) && sql == old(sql) && idQuote == old(idQuote)
        invariant line == old(line) && forall j | i0 <= j < i :: sql[j] != '\n'
      {
        b := [c];
        c := sql[i];
        i := i + 1;
        if c == '\n' {
          line := line + 1;
          break;
        }
      }
      assert i == LineStop(sql, i0);
      LinesOfLine(sql, i0, i);
      prefix := if prefix == "" then "#" else prefix;
      start := i0;
      end := if b == "\r" then i - 2 else i - 1;
      curr := i;
    }

    method MultiComment(i0: nat)
      requires 2 <= i0 <= |sql| && typ == Undefined && quotes == "" && prefix == "/*"
      modifies this
      ensures Valid() && sql == old(sql) && Scanned(i0)
      ensures Current() == BlockComment(sql, i0).(typ := Undefined)
      ensures i0 <= curr && line == old(line) + CommentLines(sql, i0)
    {
      var c, i, star := '*', i0, false;
      while i < |sql|
        invariant i0 <= i <= |sql|
        invariant BlockScan(sql, i0, false, '*') == BlockScan(sql, i, star, c)
        invariant Current() == old(Current()) && sql == old(sql) && idQuote == old(idQuote)
        invariant old(line) <= line <= old(line) + Newlines(sql, i0, i)
        invariant line + CommentLines(sql, i) == old(line) + CommentLines(sql, i0)
      {
        c := sql[i];
        i := i + 1;
        if c == '*' && i < |sql| {
          star := true;
          c := sql[i];
          i := i + 1;
          if c == '/' {
            break;
          }
        } else if c == '\n' {
          line := line + 1;
        }
      }
      assert BlockScan(sql, i0, false, '*') == (i, star, c);
      assert line == old(line) + CommentLines(sql, i0);
      start := i0;
      end := if star && c == '/' then i - 2 else i;
      curr := i;
    }

    method QuotedIdToken(c0: char, i0: nat) returns (r: Result<(), SqlError>)
      requires 0 < i0 <= |sql| && typ == Undefined && (c0 == '`' || c0 == '[' || c0 == '"')
      modifies this
      ensures sql == old(sql) && idQuote == old(idQuote)
      ensures r.Err? ==> QuotedId(sql, i0, c0) == Err(r.error)
      ensures r.Ok? ==> QuotedId(sql, i0, c0) == Ok(Current().(typ := Id)) && Valid() && Scanned(i0)
      ensures r.Ok? ==> i0 <= curr && quotes == [c0] && line == old(line) + Newlines(sql, i0, curr)
    {
      var q := if c0 == '[' then ']' else c0;
      quotes, prefix, start := [c0], [c0], i0;
      var i := i0;
      var c :- CharAt(i);
      i := i + 1;
      while true
        invariant i0 < i <= |sql| && c == sql[i - 1]
        invariant CloseQuote(sql, i0, q, true) == CloseQuote(sql, i - 1, q, true)
        invariant quotes == [c0] && prefix == [c0] && start == i0 && typ == Undefined
        invariant sql == old(sql) && idQuote == old(idQuote)
        invariant line == old(line) + Newlines(sql, i0, i - 1)
        decreases |sql| - i
      {
        if c == q {
          if i < |sql| {
            c := sql[i];
            i := i + 1;
            if c != q {
              i := i - 1;
              break;
            }
          } else {
            break;
          }
        }
        if c == '\n' {
          line := line + 1;
        } else if c == '\0' {
          return Err(Syntax(i - 1));
        }
        c :- CharAt(i);
        i := i + 1;
      }
      end := i - 1;
      curr := i;
      r := Ok(());
    }

    method StrToken(c0: char, i0: nat) returns (r: Result<(), SqlError>)
      requires 0 < i0 <= |sql| && typ == Undefined && quotes == "" && (c0 == '"' || c0 == '\'')
      modifies this
      ensures sql == old(sql) && idQuote == old(idQuote)
      ensures r.Err? ==> StringToken(sql, i0, c0) == Err(r.error)
      ensures r.Ok? ==> StringToken(sql, i0, c0) == Ok(Current().(typ := Str)) && Valid() && Scanned(i0)
      ensures r.Ok? ==> i0 <= curr && line == old(line) + Newlines(sql, i0, curr)
    {
      prefix := [c0];
      var i := i0;
      var c :- CharAt(i);
      i := i + 1;
      while true
        invariant i0 < i <= |sql| && c == sql[i - 1]
        invariant CloseQuote(sql, i0, c0, false) == CloseQuote(sql, i - 1, c0, false)
        invariant quotes == "" && prefix == [c0] && typ == Undefined
        invariant sql == old(sql) && idQuote == old(idQuote)
        invariant line == old(line) + Newlines(sql, i0, i - 1)
        decreases |sql| - i
      {
        if c == c0 {
          if i < |sql| {
            c := sql[i];
            i := i + 1;
            if c != c0 {
              i := i - 1;
              break;
            }
          } else {
            break;
          }
        } else if c == '\n' {
          line := line + 1;
        }
        c :- CharAt(i);
        i := i + 1;
      }
      start := i0;
      end := i - 1;
      curr := i;
      r := Ok(());
    }

    /** The body of a quoted name, from just after its quote. */
    method QuotedVar(q: char, i0: nat) returns (r: Result<(), SqlError>)
      requires 0 < i0 <= |sql|
      modifies this`curr, this`end
      ensures match CloseQuote(sql, i0, q, false)
              case Ok(k) => r == Ok(()) && end == k && curr == k + 1
              case Err(e) => r == Err(e)
    {
      var i := i0;
      while true
        invariant i0 <= i <= |sql|
        invariant CloseQuote(sql, i0, q, false) == CloseQuote(sql, i, q, false)
        decreases |sql| - i
      {
        var c :- CharAt(i);
        i := i + 1;
        if c == q {
          if i < |sql| {
            c := sql[i];
            i := i + 1;
            if c == q {
              continue;
            } else {
              i := i - 1;
              break;
            }
          } else {
            break;
          }
        }
      }
      curr := i;
      end := i - 1;
      r := Ok(());
    }

    /** A name without quotes, whose first character c0 is the one at p. */
    method BareVar(c0: char, p: nat)
      requires p < |sql| && c0 == sql[p]
      modifies this`curr, this`end
      ensures end == curr == VarEnd(sql, p)
    {
      var c, i := c0, p + 1;
      while true
        invariant p < i <= |sql| && c == sql[i - 1] && VarEnd(sql, p) == VarEnd(sql, i - 1)
        decreases |sql| - i
      {
        if IsVarChar(c) {
          if i < |sql| {
            c := sql[i];
            i := i + 1;
            continue;
          } else {
            break;
          }
        }
        i := i - 1;
        break;
      }
      assert i == VarEnd(sql, p);
      end := i;
      curr := i;
    }

    method ParseUserVar() returns (r: Result<(), SqlError>)
      requires Valid() && typ == Undefined && quotes == "" && prefix == ""
      modifies this
      ensures sql == old(sql) && idQuote == old(idQuote) && line == old(line)
      ensures r.Err? ==> UserVarToken(sql, old(curr)) == Err(r.error)
      ensures r.Ok? ==> UserVarToken(sql, old(curr)) == Ok(Current().(typ := UserVar)) && Valid()
    {
      hide CloseQuote, VarEnd;
      var p, i := curr, curr;
      start := p;
      if i < |sql| {
        var c := sql[i];
        i := i + 1;
        prefix := [c];
        if c == '`' || c == '\'' || c == '"' {
          quotes := [c];
          start := i;
          var _ :- QuotedVar(c, i);
        } else {
          BareVar(c, p);
        }
      } else {
        end := i;
        curr := i;
      }
      r := Ok(());
    }

    /** The word loop from position i - 1 on: stops before the first character
        that is not part of the word, or reports what ended it early. */
    method ScanWord(p: nat, c0: char, i0: nat, isn0: bool, di0: int) returns (w: WordScan)
      requires p < i0 <= |sql| && c0 == sql[i0 - 1]
      ensures w == WordFrom(sql, p, i0 - 1, WordState(isn0, di0, -1, -1, p - 1))
    {
      var c, i, e, isn, di := c0, i0, |sql|, isn0, di0;
      var ei, si, zi := -1, -1, p - 1;
      ghost var st := WordState(isn, di, ei, si, zi);
      while true
        invariant p < i <= e == |sql| && c == sql[i - 1] && st == WordState(isn, di, ei, si, zi)
        invariant WordFrom(sql, p, i0 - 1, WordState(isn0, di0, -1, -1, p - 1)) == WordFrom(sql, p, i - 1, st)
        decreases e - i
      {
        ghost var step := WordStep(sql, p, i - 1, st);
        if '0' <= c <= '9' {
          if !isn && i == p + 1 {
            isn := true;
          }
          if c == '0' && zi == i - 2 {
            zi := i - 1;
          }
        } else if c == '.' {
          if di == -1 {
            if isn || i == p + 1 {
              di := i - 1;
            } else {
              i := i - 1;
              break;
            }
          } else {
            return WordError(i - 1);
          }
        } else if IsLetter(c) {
          if c == 'e' || c == 'E' {
            if isn && ei == -1 {
              ei := i - 1;
            } else {
              isn := false;
            }
          } else {
            isn := false;
          }
          if !isn && di != -1 {
            if di == p + 1 {
              return WordSign(i - 1);
            } else {
              return WordError(i - 1);
            }
          }
        } else if c == '+' || c == '-' {
          if ei != -1 && ei == i - 2 {
            si := i - 1;
          } else {
            i := i - 1;
            break;
          }
        } else {
          i := i - 1;
          break;
        }
        st := WordState(isn, di, ei, si, zi);
        assert step == Ok(st);
        if i < e {
          c := sql[i];
          i := i + 1;
        } else {
          break;
        }
      }
      w := WordEnd(i, WordState(isn, di, ei, si, zi));
    }

    /** Classifies the completed word [p, i). */
    method FinishWord(p: nat, i: nat, st: WordState) returns (r: Result<TokenType, SqlError>)
      requires p <= i <= |sql| && st.dot >= -1 && st.sign >= -1
      ensures r == WordType(sql, p, i, st)
    {
      var WordState(isn, di, ei, si, zi) := st;
      if isn {
        if di != -1 && ei != -1 {
          if di > ei {
            return Err(Syntax(di));
          }
        }
        if ei == i - 1 {
          isn := false;
        } else if si != -1 && si == i - 1 {
          return Err(Syntax(si));
        } else {
          if di != -1 || ei != -1 {
            return Ok(Double);
          } else {
            var n := i - zi;
            var m := |MAX_SAFE_DIGITS|;
            if n > m {
              return Ok(BigInt);
            } else if n < m {
              return Ok(Int);
            } else if StringGreater(sql[p..i], MAX_SAFE_DIGITS) {
              return Ok(BigInt);
            } else {
              return Ok(Int);
            }
          }
        }
      }
      return Ok(Id);
    }

    /** A dot, a number or an unquoted name: `c0` is the character at i0 - 1. */
    method ParseToken(c0: char, i0: nat) returns (r: Result<TokenType, SqlError>)
      requires Valid() && 0 < i0 <= |sql| && c0 == sql[i0 - 1] && typ == Undefined && quotes == ""
      modifies this
      ensures sql == old(sql) && idQuote == old(idQuote) && line == old(line)
      ensures r.Err? ==> WordToken(sql, i0 - 1) == Err(r.error)
      ensures r.Ok? ==> WordToken(sql, i0 - 1) == Ok(Current().(typ := r.value)) && Valid()
    {
      var c, i, p := c0, i0, i0 - 1;
      prefix := [c];
      start := p;
      var isn, di := false, -1;
      if c == '.' {
        c :- CharAt(i);
        i := i + 1;
        if c < '0' || c > '9' {
          end := i - 1;
          curr := i - 1;
          return Ok(Sign);
        }
        isn := true;
        di := p;
      }
      var w := ScanWord(p, c, i, isn, di);
      match w {
        case WordError(pos) =>
          return Err(Syntax(pos));
        case WordSign(k) =>
          end := k;
          curr := k;
          return Ok(Sign);
        case WordEnd(k, st) =>
          end := k;
          curr := k;
          WordStateBounds(sql, p, i - 1, WordState(isn, di, -1, -1, p - 1));
          r := FinishWord(p, k, st);
      }
    }

    /** Loads the next token, whatever it is. */
    method NexToken(checkEos: bool, userVar: bool) returns (r: Result<TokenType, SqlError>)
      requires Valid()
      modifies this
      ensures sql == old(sql) && idQuote == old(idQuote)
      ensures r == TypeOf(NextSpec(idQuote, sql, old(curr), checkEos, userVar))
      ensures r.Ok? ==> NextSpec(idQuote, sql, old(curr), checkEos, userVar) == Ok(Current())
      ensures r.Ok? ==> old(curr) <= curr <= |sql| && Scanned(old(curr))
      ensures r.Ok? && old(LinesBounded()) ==> LinesBounded()
      ensures r.Ok? ==> line == old(line) + if userVar then 0 else TokenLines(sql, old(curr), Current())
    {
      hide Newlines;
      var p, e := curr, |sql|;
      ResetToken();
      if userVar {
        var _ :- ParseUserVar();
        NewlinesSplit(sql, 0, p, curr);
        typ := UserVar;
        return Ok(UserVar);
      }
      if checkEos && p >= e {
        start, end := e, e;
        typ := Eos;
        return Ok(Eos);
      }
      var i := p;
      var c :- CharAt(i);
      i := i + 1;
      r := Dispatch(c, i);
      if r.Ok? {
        NewlinesSplit(sql, 0, p, curr);
        typ := r.value;
      }
    }

    /** The three characters that may open a comment. */
    method CommentOrOperator(c0: char, i0: nat) returns (r: Result<TokenType, SqlError>)
      requires Valid() && i0 == curr + 1 <= |sql| && c0 == sql[curr] && (c0 == '-' || c0 == '#' || c0 == '/')
      requires typ == Undefined && quotes == "" && prefix == ""
      modifies this
      ensures sql == old(sql) && idQuote == old(idQuote)
      ensures r.Err? ==> Lex(idQuote, sql, old(curr)) == Err(r.error)
      ensures r.Ok? ==> Lex(idQuote, sql, old(curr)) == Ok(Current().(typ := r.value))
      ensures r.Ok? ==> old(curr) <= curr <= |sql| && Scanned(old(curr))
      ensures r.Ok? ==> line == old(line) + TokenLines(sql, old(curr), Current().(typ := r.value))
    {
      hide Lex, LineComment, BlockComment, Newlines, CommentLines;
      var p, c, i := curr, c0, i0;
      LexByMark(idQuote, sql, p);
      if c == '-' {
        c :- CharAt(i);
        i := i + 1;
        if c != '-' {
          Accept("-", p + 1);
          r := Ok(Arith);
        } else {
          prefix := "--";
          LineCommentToken(c, i);
          r := Ok(Comment);
        }
      } else if c == '#' {
        LineCommentToken(c, i);
        r := Ok(Comment);
      } else if c == '/' {
        c :- CharAt(i);
        i := i + 1;
        if c != '/' && c != '*' {
          Accept("/", p + 1);
          r := Ok(Arith);
        } else if c == '/' {
          prefix := "//";
          LineCommentToken(c, i);
          r := Ok(Comment);
        } else {
          prefix := "/*";
          MultiComment(i);
          r := Ok(Comment);
        }
      }
      NewlinesFrom(p, p + 1);
      NewlinesFrom(p, p + 2);
    }

    /** The switch on the first character c of the next token. */
    method Dispatch(c0: char, i0: nat) returns (r: Result<TokenType, SqlError>)
      requires Valid() && i0 == curr + 1 <= |sql| && c0 == sql[curr]
      requires typ == Undefined && quotes == "" && prefix == ""
      modifies this
      ensures sql == old(sql) && idQuote == old(idQuote)
      ensures r.Err? ==> Lex(idQuote, sql, old(curr)) == Err(r.error)
      ensures r.Ok? ==> Lex(idQuote, sql, old(curr)) == Ok(Current().(typ := r.value))
      ensures r.Ok? ==> old(curr) <= curr <= |sql| && Scanned(old(curr))
      ensures r.Ok? ==> line == old(line) + TokenLines(sql, old(curr), Current().(typ := r.value))
    {
      hide Lex, QuotedId, StringToken, WordToken, BlankEnd, Newlines, CommentLines, IsBlank, IsSign;
      var p, c, i := curr, c0, i0;
      if c == '-' || c == '#' || c == '/' {
        r := CommentOrOperator(c, i);
        return;
      }
      LexByFirst(idQuote, sql, p);
      r := Ok(Undefined);
      if IsBlank(c) {
        BlankToken(c, i);
        r := Ok(Blank);
      } else if c == '`' || ((c == '[' || c == '"') && c == idQuote) {
        var _ :- QuotedIdToken(c, i);
        r := Ok(Id);
      } else if c == '[' {
        Accept([c], i);
        r := Ok(Sign);
      } else if c == '"' || c == '\'' {
        var _ :- StrToken(c, i);
        r := Ok(Str);
      } else if c == '+' || c == '*' || c == '%' {
        Accept([c], i);
        r := Ok(Arith);
      } else if IsSign(c) {
        Accept([c], i);
        r := Ok(Sign);
      } else {
        r := ParseToken(c, i);
        if r.Err? {
          return;
        }
        WordBounds(sql, p);
      }
      NewlinesFrom(p, p + 1);
      NewlinesFrom(p, p + 2);
    }

    /** Loads a one-character token that ends at i. */
    method Accept(mark: string, i: nat)
      requires Valid() && i == curr + 1 <= |sql|
      modifies this`prefix, this`start, this`end, this`curr
      ensures prefix == mark && start == old(curr) && end == i && curr == i
    {
      prefix := mark;
      start := curr;
      end := i;
      curr := i;
    }

    lemma NewlinesFrom(p: nat, i: nat)
      requires Valid() && p <= i
      ensures i <= curr ==> Newlines(sql, i, curr) <= Newlines(sql, p, curr)
    {
      if i <= curr {
        NewlinesSplit(sql, p, i, curr);
      }
    }

    /** Queries the current token if one is loaded, otherwise the next one. */
    method LoadToken(checkEos: bool, skipBc: bool, userVar: bool) returns (r: Result<TokenType, SqlError>)
      requires Valid()
      modifies this
      ensures sql == old(sql) && idQuote == old(idQuote)
      ensures r == TypeOf(TokenSpec(idQuote, sql, old(Current()), checkEos, skipBc, userVar))
      ensures r.Ok? ==> TokenSpec(idQuote, sql, old(Current()), checkEos, skipBc, userVar) == Ok(Current())
      ensures r.Ok? ==> old(curr) <= curr <= |sql| && Scanned(old(curr))
      ensures r.Ok? && old(LinesBounded()) ==> LinesBounded()
    {
      hide NextSpec, SkipNext, Newlines;
      SkipNextStep(idQuote, sql, curr, checkEos, userVar);
      var t := typ;
      if t == Undefined {
        t :- NexToken(checkEos, userVar);
      }
      if skipBc {
        while t == Blank || t == Comment
          invariant sql == old(sql) && idQuote == old(idQuote) && Valid() && t == typ
          invariant old(curr) <= curr <= |sql| && Scanned(old(curr))
          invariant TokenSpec(idQuote, sql, old(Current()), checkEos, skipBc, userVar)
                 == if IsFiller(t) then SkipNext(idQuote, sql, curr, checkEos, userVar) else Ok(Current())
          decreases |sql| - curr, if IsFiller(t) then 1 else 0
        {
          ghost var mid := curr;
          SkipNextStep(idQuote, sql, mid, checkEos, userVar);
          t :- NexToken(checkEos, userVar);
          NewlinesSplit(sql, old(curr), mid, curr);
        }
      }
      NewlinesSplit(sql, 0, old(curr), curr);
      return Ok(t);
    }

    /** Moves to the next token that is neither blank nor comment. */
    method SkipBlankComment() returns (r: Result<bool, SqlError>)
      requires Valid()
      modifies this
      ensures sql == old(sql) && idQuote == old(idQuote)
      ensures r.Err? ==> SqlText.Skip(idQuote, sql, old(curr)) == Err(r.error)
      ensures r.Ok? ==> SqlText.Skip(idQuote, sql, old(curr)) == Ok(Current())
      ensures r.Ok? ==> old(curr) <= curr <= |sql| && Scanned(old(curr))
      ensures r.Ok? ==> r.value == IsFiller(TypeAt(idQuote, sql, old(curr)))
      ensures r.Ok? && old(LinesBounded()) ==> LinesBounded()
    {
      var skipped := false;
      while true
        invariant sql == old(sql) && idQuote == old(idQuote) && Valid()
        invariant old(curr) <= curr <= |sql| && Scanned(old(curr))
        invariant SqlText.Skip(idQuote, sql, old(curr)) == SqlText.Skip(idQuote, sql, curr)
        invariant if skipped then IsFiller(TypeAt(idQuote, sql, old(curr))) else curr == old(curr)
        decreases |sql| - curr
      {
        ghost var mid := curr;
        var t :- NexToken(true, false);
        NewlinesSplit(sql, old(curr), mid, curr);
        LexBounds(idQuote, sql, mid);
        if t == Blank || t == Comment {
          skipped := true;
          continue;
        }
        NewlinesSplit(sql, 0, old(curr), curr);
        return Ok(skipped);
      }
    }

    /** The loaded token's text. */
    method Slice() returns (text: string)
      requires typ != Undefined && start <= end <= |sql|
      ensures text == sql[start..end]
    {
      text := sql[start..end];
    }
  }

  /** Which scan the first character of a token leads to. */
  lemma LexByFirst(q: char, s: string, p: nat)
    requires p < |s| && s[p] != '-' && s[p] != '#' && s[p] != '/'
    ensures var c := s[p];
            Lex(q, s, p)
            == if IsBlank(c) then Ok(Token(Blank, "", [c], p, BlankEnd(s, p + 1), BlankEnd(s, p + 1)))
               else if c == '`' || ((c == '[' || c == '"') && c == q) then QuotedId(s, p + 1, c)
               else if c == '[' then Ok(Single(Sign, s, p))
               else if c == '"' || c == '\'' then StringToken(s, p + 1, c)
               else if c == '+' || c == '*' || c == '%' then Ok(Single(Arith, s, p))
               else if IsSign(c) then Ok(Single(Sign, s, p))
               else WordToken(s, p)
  {
    hide QuotedId, StringToken, WordToken, BlankEnd, IsSign;
  }

  lemma LexByMark(q: char, s: string, p: nat)
    requires p < |s| && (s[p] == '-' || s[p] == '#' || s[p] == '/')
    ensures Lex(q, s, p)
            == if s[p] == '#' then Ok(LineComment(s, p + 1, "#"))
               else if p + 1 == |s| then Err(UnexpectedEnd)
               else if s[p] == '-' then
                 if s[p + 1] == '-' then Ok(LineComment(s, p + 2, "--")) else Ok(Single(Arith, s, p))
               else if s[p + 1] == '/' then Ok(LineComment(s, p + 2, "//"))
               else if s[p + 1] == '*' then Ok(BlockComment(s, p + 2))
               else Ok(Single(Arith, s, p))
    ensures forall i: nat, mark | 0 < i <= |s| ::
              LineComment(s, i, mark).typ == Comment && LineComment(s, i, mark).prefix == mark
    ensures forall i: nat | 2 <= i <= |s| :: BlockComment(s, i).typ == Comment && BlockComment(s, i).prefix == "/*"
  {
    hide LineStop, BlockScan;
  }

  lemma {:induction false} NoNewlines(s: string, i: nat, j: nat)
    requires i <= j <= |s| && forall k | i <= k < j :: s[k] != '\n'
    ensures Newlines(s, i, j) == 0
    decreases j
  {
    if i < j {
      NoNewlines(s, i, j - 1);
    }
  }

  lemma {:induction false} WordHasNoNewline(s: string, p: nat, k: nat, st: WordState)
    requires p <= k <= |s|
    ensures var w := WordFrom(s, p, k, st);
            w.WordEnd? || w.WordSign? ==> k <= w.end <= |s| && forall j | k <= j < w.end :: s[j] != '\n'
    decreases |s| - k
  {
    if k < |s| && WordStep(s, p, k, st).Ok? {
      assert s[k] != '\n';
      WordHasNoNewline(s, p, k + 1, WordStep(s, p, k, st).value);
    }
  }

  lemma WordTokenLines(s: string, p: nat)
    requires p < |s| && WordToken(s, p).Ok?
    ensures p <= WordToken(s, p).value.curr <= |s| && Newlines(s, p, WordToken(s, p).value.curr) == 0
  {
    hide WordFrom;
    var (k, st) := WordStart(s, p);
    WordHasNoNewline(s, p, k, st);
    NoNewlines(s, p, WordToken(s, p).value.curr);
  }

  lemma {:induction false} CommentLinesAre(s: string, i: nat, star: bool, last: char)
    requires i <= |s| && (forall j | i <= j < |s| - 1 :: s[j] == '*' ==> s[j + 1] != '\n')
    ensures var k := BlockScan(s, i, star, last).0;
            CommentLines(s, i) == Newlines(s, i, k)
    decreases |s| - i
  {
    if i < |s| {
      var k := BlockScan(s, i, star, last).0;
      if s[i] == '*' && i + 1 < |s| {
        NoNewlines(s, i, i + 2);
        if s[i + 1] != '/' {
          CommentLinesAre(s, i + 2, true, s[i + 1]);
          NewlinesSplit(s, i, i + 2, k);
        }
      } else {
        CommentLinesAre(s, i + 1, star, s[i]);
        NewlinesSplit(s, i, i + 1, k);
        OneNewline(s, i);
      }
    }
  }

  lemma LinesOfLine(s: string, i: nat, k: nat)
    requires i <= k <= |s| && forall j | i <= j < k - 1 :: s[j] != '\n'
    ensures Newlines(s, i, k) == if i < k && s[k - 1] == '\n' then 1 else 0
  {
    if i < k {
      NoNewlines(s, i, k - 1);
    }
  }

  lemma OneNewline(s: string, i: nat)
    requires i < |s|
    ensures Newlines(s, i, i + 1) == if s[i] == '\n' then 1 else 0
  {
    assert Newlines(s, i, i) == 0;
  }

  /** Every newline of a token is counted, but for one that begins a run of blanks and,
      in a block comment, for one that stands behind a star. */
  lemma TokenLinesAre(q: char, s: string, p: nat)
    requires p < |s| && Lex(q, s, p).Ok?
    ensures var t := Lex(q, s, p).value;
            && p <= t.curr <= |s|
            && var behindStar := exists j | p <= j < |s| - 1 :: s[j] == '*' && s[j + 1] == '\n';
               !(t.typ == Comment && t.prefix == "/*" && behindStar) ==>
                 Newlines(s, p, t.curr) == TokenLines(s, p, t) + if t.typ == Blank && s[p] == '\n' then 1 else 0
  {
    hide QuotedId, StringToken, BlankEnd, WordToken, Newlines, CommentLines, LineStop, BlockScan;
    LexBounds(q, s, p);
    var t := Lex(q, s, p).value;
    OneNewline(s, p);
    if s[p] == '-' || s[p] == '#' || s[p] == '/' {
      CommentTokenLines(q, s, p);
    } else {
      LexByFirst(q, s, p);
      QuotedShape(s, p);
      if p < t.curr {
        NewlinesSplit(s, p, p + 1, t.curr);
      } else {
        NoNewlines(s, p, t.curr);
      }
      if WordToken(s, p).Ok? {
        WordTokenLines(s, p);
        WordBounds(s, p);
      }
    }
  }

  lemma QuotedShape(s: string, p: nat)
    requires p < |s|
    ensures QuotedId(s, p + 1, s[p]).Ok? ==>
              QuotedId(s, p + 1, s[p]).value.typ == Id && QuotedId(s, p + 1, s[p]).value.quotes == [s[p]]
              && p < QuotedId(s, p + 1, s[p]).value.curr
    ensures StringToken(s, p + 1, s[p]).Ok? ==>
              StringToken(s, p + 1, s[p]).value.typ == Str && p < StringToken(s, p + 1, s[p]).value.curr
  {
  }

  lemma CommentTokenLines(q: char, s: string, p: nat)
    requires p < |s| && (s[p] == '-' || s[p] == '#' || s[p] == '/') && Lex(q, s, p).Ok?
    requires p <= Lex(q, s, p).value.curr <= |s|
    ensures var t := Lex(q, s, p).value;
            (t.typ == Comment && t.prefix == "/*" && exists j | p <= j < |s| - 1 :: s[j] == '*' && s[j + 1] == '\n')
            || Newlines(s, p, t.curr) == TokenLines(s, p, t)
  {
    hide Newlines, CommentLines, LineStop, BlockScan;
    LexByMark(q, s, p);
    var t := Lex(q, s, p).value;
    LexBounds(q, s, p);
    if t.typ == Comment {
      NoNewlines(s, p, p + |t.prefix|);
      NewlinesSplit(s, p, p + |t.prefix|, t.curr);
      if t.prefix == "/*" && !exists j | p <= j < |s| - 1 :: s[j] == '*' && s[j + 1] == '\n' {
        CommentLinesAre(s, p + 2, false, '*');
      }
    } else {
      NoNewlines(s, p, t.curr);
    }
  }

  lemma {:induction false} WordStateBounds(s: string, p: nat, k: nat, st: WordState)
    requires p <= k <= |s| && st.dot >= -1 && st.sign >= -1
    ensures var w := WordFrom(s, p, k, st); w.WordEnd? ==> w.st.dot >= -1 && w.st.sign >= -1
    decreases |s| - k
  {
    if k < |s| && WordStep(s, p, k, st).Ok? {
      WordStateBounds(s, p, k + 1, WordStep(s, p, k, st).value);
    }
  }

  function TypeOf(t: Lexed): Result<TokenType, SqlError> {
    match t
    case Ok(v) => Ok(v.typ)
    case Err(e) => Err(e)
  }

  function TypeAt(q: char, s: string, p: nat): TokenType
    requires p <= |s|
  {
    if Lex(q, s, p).Ok? then Lex(q, s, p).value.typ else Undefined
  }

  /** The next token: without the end-of-text check the end is an error. */
  function NextSpec(q: char, s: string, p: nat, checkEos: bool, userVar: bool): Lexed
    requires p <= |s|
  {
    if userVar then UserVarToken(s, p)
    else if !checkEos && p == |s| then Err(UnexpectedEnd)
    else Lex(q, s, p)
  }

  /** The next token that is neither blank nor comment; a user variable never is. */
  function SkipNext(q: char, s: string, p: nat, checkEos: bool, userVar: bool): Lexed
    requires p <= |s|
  {
    if userVar then UserVarToken(s, p)
    else
      var t :- Skip(q, s, p);
      if !checkEos && t.typ == Eos then Err(UnexpectedEnd) else Ok(t)
  }

  lemma SkipNextStep(q: char, s: string, p: nat, checkEos: bool, userVar: bool)
    requires p <= |s|
    ensures var n := NextSpec(q, s, p, checkEos, userVar);
            if n.Ok? && IsFiller(n.value.typ) then
              && p < n.value.curr <= |s|
              && SkipNext(q, s, p, checkEos, userVar) == SkipNext(q, s, n.value.curr, checkEos, userVar)
            else SkipNext(q, s, p, checkEos, userVar) == n
  {
    hide WordToken, LineStop, BlockScan, CloseQuote, BlankEnd;
    if !userVar && Lex(q, s, p).Ok? {
      LexBounds(q, s, p);
    }
  }

  /** The current token when one is loaded, otherwise the next one, with blanks
      and comments passed over when `skipBc` is set. */
  function TokenSpec(q: char, s: string, cur: Token, checkEos: bool, skipBc: bool, userVar: bool): Lexed
    requires cur.curr <= |s|
  {
    if cur.typ == Undefined then
      if skipBc then SkipNext(q, s, cur.curr, checkEos, userVar) else NextSpec(q, s, cur.curr, checkEos, userVar)
    else if skipBc && IsFiller(cur.typ) then SkipNext(q, s, cur.curr, checkEos, userVar)
    else Ok(cur)
  }
}
