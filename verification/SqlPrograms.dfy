/** Programs written out: statements that select user and system variables, with any
    blanks between their parts and any of the written forms of LIMIT. What is written
    is what the parser reads: the same names, numbers and spans. */
module SqlPrograms {
  import opened Wrappers
  import opened SqlText
  import opened SqlNumbers
  import opened SqlGrammar
  import opened SqlWords
  import opened SqlComments

  // ---- what is written ----

  datatype Word = Bare(text: string) | Quoted(quote: char, text: string)

  /** A scope in front of a system variable, with blanks around the dot. */
  datatype Scope = Scope(word: string, left: string, right: string)

  datatype Item = User(name: Word) | System(scope: Option<Scope>, name: Word)

  /** An item of a list with the blanks before and after it. */
  datatype Listed = Listed(before: string, item: Item, after: string)

  /** The numbers of a LIMIT clause as they are written, with the blanks in front of
      each part. */
  datatype Clause =
    | Rows(digits: string)
    | Comma(first: string, gap1: string, gap2: string, second: string)
    | Offset(first: string, gap1: string, word: string, gap2: string, second: string)

  datatype Limited = Limited(word: string, gap: string, clause: Clause, after: string)

  datatype Statement = Statement(before: string, word: string, items: seq<Listed>, limit: Option<Limited>)

  function WordText(w: Word): string {
    match w
    case Bare(text) => text
    case Quoted(c, text) => [c] + text + [Closing(c)]
  }

  function ScopeText(scope: Option<Scope>): string {
    match scope
    case None => ""
    case Some(Scope(word, left, right)) => word + left + "." + right
  }

  function ItemText(item: Item): string {
    match item
    case User(name) => "@" + WordText(name)
    case System(scope, name) => "@@" + ScopeText(scope) + WordText(name)
  }

  function ListText(items: seq<Listed>): string {
    if items == [] then ""
    else items[0].before + ItemText(items[0].item) + items[0].after
         + if |items| == 1 then "" else "," + ListText(items[1..])
  }

  function ClauseText(clause: Clause): string {
    match clause
    case Rows(digits) => digits
    case Comma(a, gap1, gap2, b) => a + gap1 + "," + gap2 + b
    case Offset(a, gap1, word, gap2, b) => a + gap1 + word + gap2 + b
  }

  function LimitText(limit: Option<Limited>): string {
    match limit
    case None => ""
    case Some(Limited(word, gap, clause, after)) => word + gap + ClauseText(clause) + after
  }

  function StatementText(x: Statement): string {
    x.before + x.word + ListText(x.items) + LimitText(x.limit)
  }

  // ---- what may be written ----

  predicate IsDigits(digits: string) {
    digits != "" && forall i | 0 <= i < |digits| :: Digit(digits[i])
  }

  predicate GoodWord(ctx: SqlContext, name: Word) {
    && |name.text| <= 64 && ctx.upper(name.text) !in ctx.reserved
    && match name
       case Bare(text) => IsName(text)
       case Quoted(c, text) =>
         (c == '`' || (c == ctx.quotes && (c == '[' || c == '"'))) && Closing(c) !in text && '\0' !in text
  }

  predicate GoodScope(ctx: SqlContext, scope: Scope) {
    && IsName(scope.word) && (ctx.upper(scope.word) == "SESSION" || ctx.upper(scope.word) == "GLOBAL")
    && IsBlanks(scope.left) && IsBlanks(scope.right)
  }

  /** A system variable is named by at most 64 characters that are no reserved word,
      and by none of the words for a scope unless it has one or is quoted. */
  predicate GoodItem(ctx: SqlContext, item: Item) {
    match item
    case User(Bare(text)) => text != "" && IsVariableName(text)
    case User(Quoted(c, text)) => c in "`'\"" && c !in text
    case System(scope, name) =>
      && GoodWord(ctx, name)
      && match scope
         case Some(x) => GoodScope(ctx, x)
         case None => name.Bare? ==> ctx.upper(name.text) != "SESSION" && ctx.upper(name.text) != "GLOBAL"
  }

  predicate GoodListed(ctx: SqlContext, x: Listed) {
    IsBlanks(x.before) && GoodItem(ctx, x.item) && IsBlanks(x.after)
  }

  predicate GoodClause(ctx: SqlContext, clause: Clause) {
    match clause
    case Rows(digits) => IsDigits(digits)
    case Comma(a, gap1, gap2, b) => IsDigits(a) && IsBlanks(gap1) && IsBlanks(gap2) && IsDigits(b)
    case Offset(a, gap1, word, gap2, b) =>
      && IsDigits(a) && IsBlanks(gap1) && gap1 != "" && IsName(word) && ctx.upper(word) == "OFFSET"
      && IsBlanks(gap2) && gap2 != "" && IsDigits(b)
  }

  predicate GoodLimit(ctx: SqlContext, limit: Limited) {
    && IsName(limit.word) && ctx.upper(limit.word) == "LIMIT" && IsBlanks(limit.gap) && limit.gap != ""
    && GoodClause(ctx, limit.clause) && IsBlanks(limit.after)
  }

  /** The keywords are names that the runtime's upper-casing makes SELECT, LIMIT and
      OFFSET of; a list in front of LIMIT ends with a blank. */
  predicate GoodStatement(ctx: SqlContext, x: Statement) {
    && IsBlanks(x.before) && IsName(x.word) && ctx.upper(x.word) == "SELECT"
    && x.items != [] && (forall i | 0 <= i < |x.items| :: GoodListed(ctx, x.items[i]))
    && (x.limit.Some? ==> GoodLimit(ctx, x.limit.value) && x.items[|x.items| - 1].after != "")
  }

  // ---- what is read ----

  function NameOf(w: Word, p: nat): Name {
    match w
    case Bare(text) => Name(text, "", p, p + |text|)
    case Quoted(c, text) => Name(text, [c], p + 1, p + 1 + |text|)
  }

  /** The expression an item at p is. */
  function ExprOf(ctx: SqlContext, item: Item, p: nat): Expr {
    match item
    case User(name) => UserVariable(p, p + |ItemText(item)|, NameOf(name, p + 1))
    case System(scope, name) =>
      SystemVariable(p, p + |ItemText(item)|, NameOf(name, p + 2 + |ScopeText(scope)|),
                     scope.Some? && ctx.upper(scope.value.word) == "GLOBAL")
  }

  /** The expressions of a list at p. */
  function ExprsOf(ctx: SqlContext, items: seq<Listed>, p: nat): seq<Expr> {
    if items == [] then []
    else
      var at := p + |items[0].before|;
      [ExprOf(ctx, items[0].item, at)]
      + ExprsOf(ctx, items[1..], at + |ItemText(items[0].item)| + |items[0].after| + 1)
  }

  // ---- words ----

  /** What may stand behind a word: nothing, a blank, a comma or a semicolon. */
  predicate Stops(s: string, k: nat) {
    k == |s| || (k < |s| && (BlankChar(s[k]) || s[k] == ',' || s[k] == ';'))
  }

  lemma StopIsNoName(s: string, k: nat)
    requires Stops(s, k)
    ensures k < |s| ==> !NameChar(s[k]) && !Digit(s[k]) && s[k] !in ".`'\"]["
  {
  }

  lemma UserParses(ctx: SqlContext, s: string, p: nat, name: Word)
    requires At(s, p, ItemText(User(name))) && GoodItem(ctx, User(name)) && Stops(s, p + |ItemText(User(name))|)
    ensures var k := p + |ItemText(User(name))|;
            p + 1 < k && UserVariableAt(s, p + 1) == Ok((ExprOf(ctx, User(name), p), k))
  {
    hide UserVarToken;
    var k := p + |ItemText(User(name))|;
    AtSplit(s, p, "@", WordText(name));
    StopIsNoName(s, k);
    match name
    case Bare(text) =>
      VariableNameLex(s, p + 1, text);
    case Quoted(c, text) =>
      QuoteCloses(c);
      QuotedVariableLex(s, p + 1, c, text);
  }

  lemma QuoteCloses(c: char)
    requires c in "`'\""
    ensures Closing(c) == c
  {
  }

  /** A name of either form is one identifier token. */
  lemma WordIsToken(ctx: SqlContext, s: string, p: nat, name: Word)
    requires At(s, p, WordText(name)) && GoodWord(ctx, name) && Stops(s, p + |WordText(name)|)
    ensures var k := p + |WordText(name)|;
            && Lex(ctx.quotes, s, p).Ok? && Skip(ctx.quotes, s, p) == Lex(ctx.quotes, s, p)
            && var t := Lex(ctx.quotes, s, p).value;
               && t.typ == Id && t.curr == k && t.prefix != "."
               && t.start <= t.end <= k && s[t.start..t.end] == name.text
               && NameOf(name, p) == Name(name.text, t.quotes, t.start, t.end)
  {
    hide Lex, Skip;
    StopIsNoName(s, p + |WordText(name)|);
    match name
    case Bare(text) =>
      NameLex(ctx.quotes, s, p, text);
    case Quoted(c, text) =>
      QuotedNameLex(ctx.quotes, s, p, c, text);
  }

  /** What is read at p when the token behind an item is still to be looked at. */
  function WithNext(e: Expr, next: Lexed): Result<(Expr, Token), SqlError> {
    match next
    case Ok(t) => Ok((e, t))
    case Err(error) => Err(error)
  }

  lemma NamedAt(ctx: SqlContext, s: string, t: Token, p: nat, name: Word)
    requires t.start <= t.end <= t.curr <= |s| && s[t.start..t.end] == name.text && GoodWord(ctx, name)
    requires NameOf(name, p) == Name(name.text, t.quotes, t.start, t.end)
    ensures NameAt(ctx, s, t, SysVarId)
            == match Skip(ctx.quotes, s, t.curr)
               case Ok(next) => Ok((NameOf(name, p), next))
               case Err(error) => Err(error)
  {
    hide Skip, GoodWord, NameOf, IsBlank;
    WordMeans(ctx, name);
  }

  lemma WordMeans(ctx: SqlContext, name: Word)
    requires GoodWord(ctx, name)
    ensures |name.text| <= 64 && ctx.upper(name.text) !in ctx.reserved
  {
  }

  /** A scope is a word, a dot behind blanks, and blanks. */
  lemma ScopeParses(q: char, s: string, p: nat, scope: Scope)
    requires IsName(scope.word) && IsBlanks(scope.left) && IsBlanks(scope.right)
    requires At(s, p, ScopeText(Some(scope)))
    requires var k := p + |ScopeText(Some(scope))|; k < |s| && !Digit(s[k])
    ensures Lex(q, s, p) == Ok(Token(Id, "", [scope.word[0]], p, p + |scope.word|, p + |scope.word|))
    ensures At(s, p, scope.word)
    ensures var dot := p + |scope.word| + |scope.left|;
            && dot + 1 <= |s| && Skip(q, s, p + |scope.word|) == Ok(Token(Sign, "", ".", dot, dot + 1, dot + 1))
            && Skip(q, s, dot + 1) == Skip(q, s, p + |ScopeText(Some(scope))|)
  {
    hide Lex, Skip, ScopeText, IsName, IsBlanks, NameChar, Digit, At;
    ScopePieces(s, p, scope);
    var dot := p + |scope.word| + |scope.left|;
    ScopeChars(s, p, scope);
    NameLex(q, s, p, scope.word);
    BlanksSkip(q, s, p + |scope.word|, scope.left);
    DotLex(q, s, dot);
    BlanksSkip(q, s, dot + 1, scope.right);
  }

  lemma ScopeChars(s: string, p: nat, scope: Scope)
    requires var dot := p + |scope.word| + |scope.left|;
             && At(s, p + |scope.word|, scope.left) && At(s, dot, ".") && At(s, dot + 1, scope.right)
             && IsBlanks(scope.left) && IsBlanks(scope.right) && dot + 1 + |scope.right| < |s|
             && !Digit(s[dot + 1 + |scope.right|])
    ensures var dot := p + |scope.word| + |scope.left|;
            && p + |scope.word| < |s| && dot + 1 < |s| && s[dot] == '.' && !Digit(s[dot + 1])
            && !NameChar(s[p + |scope.word|]) && !Digit(s[p + |scope.word|])
  {
    var dot := p + |scope.word| + |scope.left|;
    AtChars(s, p + |scope.word|, scope.left);
    AtChars(s, dot, ".");
    AtChars(s, dot + 1, scope.right);
    BlankIsNoName();
  }

  lemma BlankIsNoName()
    ensures forall c | BlankChar(c) || c == '.' :: !NameChar(c) && !Digit(c)
  {
  }

  lemma ScopePieces(s: string, p: nat, scope: Scope)
    requires At(s, p, ScopeText(Some(scope)))
    ensures var dot := p + |scope.word| + |scope.left|;
            && At(s, p, scope.word) && At(s, p + |scope.word|, scope.left) && At(s, dot, ".")
            && At(s, dot + 1, scope.right) && dot + 1 + |scope.right| == p + |ScopeText(Some(scope))| <= |s|
  {
    var Scope(word, left, right) := scope;
    AtSplit(s, p, word + left + ".", right);
    AtSplit(s, p, word + left, ".");
    AtSplit(s, p, word, left);
  }

  lemma WordStarts(ctx: SqlContext, s: string, k: nat, name: Word)
    requires At(s, k, WordText(name)) && GoodWord(ctx, name)
    ensures k < |s| && !Digit(s[k])
  {
    AtChars(s, k, WordText(name));
  }

  /** The name of a system variable, with or without its scope. */
  lemma SystemParses(ctx: SqlContext, s: string, p: nat, scope: Option<Scope>, name: Word)
    requires var item := System(scope, name);
             At(s, p, ItemText(item)) && GoodItem(ctx, item) && Stops(s, p + |ItemText(item)|)
    ensures var item := System(scope, name);
            p + 2 <= |s| && SystemVariableAt(ctx, s, p + 2)
            == WithNext(ExprOf(ctx, item, p), Skip(ctx.quotes, s, p + |ItemText(item)|))
  {
    hide Lex, Skip, GoodWord, GoodScope, WordText, SystemVariableFrom, ScopeText, Stops, IsBlanks, At, ExprOf;
    ItemPieces(s, p, scope, name);
    var k := p + 2 + |ScopeText(scope)|;
    WordIsToken(ctx, s, k, name);
    var n := Lex(ctx.quotes, s, k).value;
    match scope
    case None =>
      BareFrom(ctx, s, p, name, n);
    case Some(x) =>
      WordStarts(ctx, s, k, name);
      ScopeIsGood(ctx, x);
      ScopeParses(ctx.quotes, s, p + 2, x);
      ScopedFrom(ctx, s, p, x, name, n);
  }

  lemma ItemPieces(s: string, p: nat, scope: Option<Scope>, name: Word)
    requires At(s, p, ItemText(System(scope, name)))
    ensures p + |ItemText(System(scope, name))| <= |s|
    ensures At(s, p, "@@") && At(s, p + 2, ScopeText(scope)) && At(s, p + 2 + |ScopeText(scope)|, WordText(name))
    ensures scope == None ==> ScopeText(scope) == ""
  {
    hide WordText;
    AtSplit(s, p, "@@" + ScopeText(scope), WordText(name));
    AtSplit(s, p, "@@", ScopeText(scope));
  }

  lemma BareFrom(ctx: SqlContext, s: string, p: nat, name: Word, n: Token)
    requires GoodItem(ctx, System(None, name))
    requires n.start <= n.end <= n.curr == p + |ItemText(System(None, name))| <= |s| && 2 <= p + 2 <= |s|
    requires s[n.start..n.end] == name.text && NameOf(name, p + 2) == Name(name.text, n.quotes, n.start, n.end)
    ensures SystemVariableFrom(ctx, s, p + 2, n)
            == WithNext(ExprOf(ctx, System(None, name), p), Skip(ctx.quotes, s, n.curr))
  {
    hide Lex, Skip, NameAt, GoodItem, GoodWord, WordText, NameOf, ItemText, ScopedName, SystemVariableFrom;
    BareMeans(ctx, name);
    NameOfKeeps(name, p + 2);
    NamedAt(ctx, s, n, p + 2, name);
    NoScope(ctx, s, n, name);
    FromName(ctx, s, p + 2, n, n, false, NameOf(name, p + 2));
  }

  lemma BareMeans(ctx: SqlContext, name: Word)
    requires GoodItem(ctx, System(None, name))
    ensures GoodWord(ctx, name)
    ensures name.Quoted? || (ctx.upper(name.text) != "SESSION" && ctx.upper(name.text) != "GLOBAL")
  {
    hide GoodWord;
  }

  lemma NameOfKeeps(name: Word, p: nat)
    ensures name.Quoted? <==> NameOf(name, p).quotes != ""
  {
  }

  lemma ScopeIsGood(ctx: SqlContext, scope: Scope)
    requires GoodScope(ctx, scope)
    ensures IsName(scope.word) && IsBlanks(scope.left) && IsBlanks(scope.right)
  {
  }

  lemma ScopedFrom(ctx: SqlContext, s: string, p: nat, scope: Scope, name: Word, n: Token)
    requires GoodScope(ctx, scope) && GoodWord(ctx, name) && At(s, p + 2, scope.word) && scope.word != ""
    requires var dot := p + 2 + |scope.word| + |scope.left|;
             && dot + 1 <= |s|
             && Skip(ctx.quotes, s, p + 2 + |scope.word|) == Ok(Token(Sign, "", ".", dot, dot + 1, dot + 1))
             && Skip(ctx.quotes, s, dot + 1) == Ok(n)
    requires n.typ == Id && n.start <= n.end <= n.curr == p + |ItemText(System(Some(scope), name))| <= |s|
    requires s[n.start..n.end] == name.text
    requires NameOf(name, p + 2 + |ScopeText(Some(scope))|) == Name(name.text, n.quotes, n.start, n.end)
    ensures var t := Token(Id, "", [scope.word[0]], p + 2, p + 2 + |scope.word|, p + 2 + |scope.word|);
            t.curr <= |s| && SystemVariableFrom(ctx, s, p + 2, t)
            == WithNext(ExprOf(ctx, System(Some(scope), name), p), Skip(ctx.quotes, s, n.curr))
  {
    hide Lex, Skip, NameAt, GoodWord, WordText, ScopeText, NameOf, ItemText, ScopedName, GoodScope, SystemVariableFrom,
         ExprOf, ScopeId, IsGlobal, At;
    var from := p + 2 + |scope.word|;
    var dot := from + |scope.left|;
    var t := Token(Id, "", [scope.word[0]], p + 2, from, from);
    ScopeMeans(ctx, s, p + 2, scope);
    ScopedExpr(ctx, scope, name, p);
    WithScope(ctx, s, t, ctx.upper(scope.word), Token(Sign, "", ".", dot, dot + 1, dot + 1), n);
    NamedAt(ctx, s, n, p + 2 + |ScopeText(Some(scope))|, name);
    FromName(ctx, s, p + 2, t, n, IsGlobal(ctx.upper(scope.word)), NameOf(name, p + 2 + |ScopeText(Some(scope))|));
  }

  lemma WithScope(ctx: SqlContext, s: string, t: Token, id: string, dot: Token, n: Token)
    requires t.start <= t.end <= t.curr <= |s| && ctx.upper(s[t.start..t.end]) == id && t.quotes == ""
    requires ScopeId(id)
    requires dot.typ == Sign && dot.prefix == "." && dot.curr <= |s| && n.typ == Id
    requires Skip(ctx.quotes, s, t.curr) == Ok(dot) && Skip(ctx.quotes, s, dot.curr) == Ok(n)
    ensures ScopedName(ctx, s, t) == Ok((n, IsGlobal(id)))
  {
    hide Skip;
  }

  predicate ScopeId(id: string) {
    id == "SESSION" || id == "GLOBAL"
  }

  predicate IsGlobal(id: string) {
    id == "GLOBAL"
  }

  lemma ScopeMeans(ctx: SqlContext, s: string, p: nat, scope: Scope)
    requires GoodScope(ctx, scope) && At(s, p, scope.word)
    ensures ScopeId(ctx.upper(scope.word))
    ensures p + |scope.word| <= |s| && s[p..p + |scope.word|] == scope.word
  {
    hide IsName, IsBlanks;
  }

  lemma ScopedExpr(ctx: SqlContext, scope: Scope, name: Word, p: nat)
    ensures var item := System(Some(scope), name);
            ExprOf(ctx, item, p)
            == SystemVariable(p, p + |ItemText(item)|, NameOf(name, p + 2 + |ScopeText(Some(scope))|),
                              IsGlobal(ctx.upper(scope.word)))
  {
    hide ItemText, ScopeText, NameOf;
  }

  /** A system variable once its name token n is known. */
  lemma FromName(ctx: SqlContext, s: string, p: nat, t: Token, n: Token, global: bool, name: Name)
    requires 2 <= p <= |s| && t.start <= t.end <= t.curr <= |s| && n.start <= n.end <= n.curr <= |s|
    requires ScopedName(ctx, s, t) == Ok((n, global))
    requires NameAt(ctx, s, n, SysVarId)
             == match Skip(ctx.quotes, s, n.curr)
                case Ok(next) => Ok((name, next))
                case Err(error) => Err(error)
    ensures SystemVariableFrom(ctx, s, p, t)
            == WithNext(SystemVariable(p - 2, n.curr, name, global), Skip(ctx.quotes, s, n.curr))
  {
    hide Skip, ScopedName, NameAt;
  }

  lemma NoScope(ctx: SqlContext, s: string, t: Token, name: Word)
    requires t.start <= t.end <= t.curr <= |s| && s[t.start..t.end] == name.text
    requires t.quotes != "" || (ctx.upper(name.text) != "SESSION" && ctx.upper(name.text) != "GLOBAL")
    ensures ScopedName(ctx, s, t) == Ok((t, false))
  {
  }

  /** Either kind of variable, from its `@` on. */
  lemma ItemParses(ctx: SqlContext, s: string, p: nat, item: Item)
    requires At(s, p, ItemText(item)) && GoodItem(ctx, item) && Stops(s, p + |ItemText(item)|)
    ensures p + 1 <= |s| && s[p] == '@'
    ensures VariableAt(ctx, s, p + 1) == WithNext(ExprOf(ctx, item, p), Skip(ctx.quotes, s, p + |ItemText(item)|))
  {
    hide UserVariableAt, SystemVariableAt, Skip, Lex, GoodItem, At, Stops, WordText, ScopeText, ExprOf;
    AtChars(s, p, ItemText(item));
    match item
    case User(name) =>
      UserParses(ctx, s, p, name);
      NotTwice(ctx, name);
    case System(scope, name) =>
      SystemParses(ctx, s, p, scope, name);
  }

  lemma NotTwice(ctx: SqlContext, name: Word)
    requires GoodItem(ctx, User(name))
    ensures WordText(name) != "" && WordText(name)[0] != '@'
  {
  }

  // ---- lists ----

  /** The pieces of the first item of a list at p. */
  ghost predicate FirstAt(s: string, p: nat, items: seq<Listed>)
    requires items != []
  {
    var at := p + |items[0].before|;
    var behind := at + |ItemText(items[0].item)|;
    var k := behind + |items[0].after|;
    && k <= |s|
    && At(s, p, items[0].before) && At(s, at, ItemText(items[0].item)) && At(s, behind, items[0].after)
    && (|items| > 1 ==> k < |s| && s[k] == ',' && At(s, k + 1, ListText(items[1..])))
    && (|items| > 1 ==> p + |ListText(items)| == k + 1 + |ListText(items[1..])|)
    && (|items| == 1 ==> p + |ListText(items)| == k)
  }

  lemma ThreePieces(s: string, p: nat, a: string, b: string, c: string)
    requires At(s, p, a + b + c)
    ensures At(s, p, a) && At(s, p + |a|, b) && At(s, p + |a| + |b|, c) && p + |a| + |b| + |c| <= |s|
  {
    AtSplit(s, p, a + b, c);
    AtSplit(s, p, a, b);
  }

  lemma ListTextIs(items: seq<Listed>) returns (first: string)
    requires items != []
    ensures first == items[0].before + ItemText(items[0].item) + items[0].after
    ensures |items| == 1 ==> ListText(items) == first
    ensures |items| > 1 ==> ListText(items) == first + "," + ListText(items[1..])
  {
    hide ItemText;
    var x := items[0];
    first := x.before + ItemText(x.item) + x.after;
    assert first + "" == first;
    if |items| > 1 {
      assert first + ("," + ListText(items[1..])) == first + "," + ListText(items[1..]);
    }
  }

  lemma ListPieces(s: string, p: nat, items: seq<Listed>)
    requires items != [] && At(s, p, ListText(items))
    ensures FirstAt(s, p, items)
  {
    hide ItemText, ListText, At;
    var x := items[0];
    var first := ListTextIs(items);
    if |items| > 1 {
      ThreePieces(s, p, first, ",", ListText(items[1..]));
      AtChars(s, p + |first|, ",");
    }
    ThreePieces(s, p, x.before, ItemText(x.item), x.after);
  }

  /** The character behind an item: the first blank, or what follows without one. */
  lemma StopsBehind(s: string, p: nat, after: string)
    requires At(s, p, after) && IsBlanks(after) && (after == "" ==> Stops(s, p))
    ensures Stops(s, p)
  {
    if after != "" {
      AtChars(s, p, after);
    }
  }

  lemma CommaStops(s: string, k: nat)
    requires k < |s| && s[k] == ','
    ensures Stops(s, k) && SignChar(s[k])
  {
  }

  lemma AtSign(s: string, p: nat)
    requires p < |s| && s[p] == '@'
    ensures SignChar(s[p])
  {
  }

  /** The `@` of the first item, and what is read from it on. */
  lemma FirstParses(ctx: SqlContext, s: string, p: nat, x: Listed)
    requires GoodListed(ctx, x) && At(s, p, x.before) && At(s, p + |x.before|, ItemText(x.item))
    requires At(s, p + |x.before| + |ItemText(x.item)|, x.after)
    requires x.after == "" ==> Stops(s, p + |x.before| + |ItemText(x.item)|)
    ensures var at := p + |x.before|;
            var k := at + |ItemText(x.item)| + |x.after|;
            && k <= |s|
            && Skip(ctx.quotes, s, p) == Ok(Token(Sign, "", "@", at, at + 1, at + 1))
            && ExprAt(ctx, s, Token(Sign, "", "@", at, at + 1, at + 1))
               == WithNext(ExprOf(ctx, x.item, at), Skip(ctx.quotes, s, k))
  {
    hide Lex, Skip, VariableAt, ExprOf, ItemText, GoodItem, IsBlanks, Stops, SignChar, At;
    var at := p + |x.before|;
    var behind := at + |ItemText(x.item)|;
    StopsBehind(s, behind, x.after);
    ItemParses(ctx, s, at, x.item);
    AtSign(s, at);
    BlanksSkip(ctx.quotes, s, p, x.before);
    SignLex(ctx.quotes, s, at);
    BlanksSkip(ctx.quotes, s, behind, x.after);
    AtEnd(s, behind, x.after);
  }

  lemma AtEnd(s: string, p: nat, text: string)
    requires At(s, p, text)
    ensures p + |text| <= |s|
  {
  }

  ghost predicate GoodList(ctx: SqlContext, items: seq<Listed>) {
    items != [] && forall i | 0 <= i < |items| :: GoodListed(ctx, items[i])
  }

  lemma GoodParts(ctx: SqlContext, items: seq<Listed>)
    requires GoodList(ctx, items)
    ensures items != [] && GoodListed(ctx, items[0])
    ensures |items| > 1 ==> GoodList(ctx, items[1..])
  {
    hide GoodListed;
  }

  lemma ExprsLast(ctx: SqlContext, s: string, t: Token, acc: seq<Expr>, e: Expr, n: Token)
    requires t.curr <= |s| && ExprAt(ctx, s, t) == Ok((e, n)) && (n.typ != Sign || n.prefix == ";")
    ensures ExprsFrom(ctx, s, t, acc) == Ok((acc + [e], n))
  {
    hide ExprAt, Skip;
    ExprsStep(ctx, s, t, acc);
  }

  lemma ExprsMore(ctx: SqlContext, s: string, t: Token, acc: seq<Expr>, e: Expr, comma: Token, next: Token)
    requires t.curr <= |s| && ExprAt(ctx, s, t) == Ok((e, comma)) && comma.typ == Sign && comma.prefix == ","
    requires comma.curr <= |s| && Skip(ctx.quotes, s, comma.curr) == Ok(next) && next.curr <= |s|
    ensures ExprsFrom(ctx, s, t, acc) == ExprsFrom(ctx, s, next, acc + [e])
  {
    hide ExprAt, Skip;
    ExprsStep(ctx, s, t, acc);
  }

  /** A list is read item by item up to the token n behind it. */
  lemma {:induction false} ListParses(ctx: SqlContext, s: string, p: nat, items: seq<Listed>, acc: seq<Expr>, n: Token)
    requires GoodList(ctx, items) && At(s, p, ListText(items))
    requires Skip(ctx.quotes, s, p + |ListText(items)|) == Ok(n) && (n.typ != Sign || n.prefix == ";")
    requires items[|items| - 1].after == "" ==> Stops(s, p + |ListText(items)|)
    ensures Skip(ctx.quotes, s, p).Ok?
    ensures var t := Skip(ctx.quotes, s, p).value;
            t.curr <= |s| && ExprsFrom(ctx, s, t, acc) == Ok((acc + ExprsOf(ctx, items, p), n))
    decreases |items|
  {
    hide Lex, Skip, ExprAt, ExprsFrom, ExprOf, At, Stops, ItemText, ListText, GoodList, GoodListed, SignChar;
    GoodParts(ctx, items);
    ListPieces(s, p, items);
    var x := items[0];
    var at := p + |x.before|;
    var k := at + |ItemText(x.item)| + |x.after|;
    var t, e := Token(Sign, "", "@", at, at + 1, at + 1), ExprOf(ctx, x.item, at);
    if |items| > 1 {
      CommaStops(s, k);
      SignLex(ctx.quotes, s, k);
      FirstParses(ctx, s, p, x);
      ListParses(ctx, s, k + 1, items[1..], acc + [e], n);
      ExprsMore(ctx, s, t, acc, e, Token(Sign, "", ",", k, k + 1, k + 1), Skip(ctx.quotes, s, k + 1).value);
      assert acc + [e] + ExprsOf(ctx, items[1..], k + 1) == acc + ([e] + ExprsOf(ctx, items[1..], k + 1));
    } else {
      FirstParses(ctx, s, p, x);
      ExprsLast(ctx, s, t, acc, e, n);
      assert items[1..] == [] && [e] + [] == [e];
    }
  }

  // ---- numbers and LIMIT clauses ----

  /** A written number is the number its digits make, from the left. */
  lemma NumberValue(t: string, d: nat)
    requires d < 10 && AllDigits(t)
    ensures AllDigits(t + ["0123456789"[d]]) && Value(t + ["0123456789"[d]]) == 10 * Value(t) + d && Value("") == 0
  {
    var u := t + ["0123456789"[d]];
    assert u[..|u| - 1] == t;
  }

  lemma DigitsAreDigits(digits: string)
    requires IsDigits(digits)
    ensures AllDigits(digits)
  {
    forall i | 0 <= i < |digits| ensures IsDigit(digits[i]) {
      DigitClass(digits[i]);
    }
  }

  function Number(digits: string): nat
    requires IsDigits(digits)
  {
    DigitsAreDigits(digits);
    Value(digits)
  }

  lemma {:induction false} DigitsEnd(s: string, p: nat, k: nat)
    requires p <= k <= |s| && (forall i | p <= i < k :: Digit(s[i])) && (k < |s| ==> !Digit(s[k]))
    ensures DigitEnd(s, p) == k
    decreases k - p
  {
    if p < |s| {
      DigitClass(s[p]);
    }
    if p < k {
      DigitsEnd(s, p + 1, k);
    }
  }

  /** Digits with nothing glued to them are one integer token of their number. */
  lemma NumberLex(q: char, s: string, p: nat, digits: string)
    requires At(s, p, digits) && IsDigits(digits)
    requires var k := p + |digits|; k < |s| ==> !NameChar(s[k]) && !Digit(s[k]) && s[k] != '.'
    ensures Lex(q, s, p).Ok? && Skip(q, s, p) == Lex(q, s, p)
    ensures var t := Lex(q, s, p).value;
            && IsIntegerType(t.typ) && t.start == p && t.end == t.curr == p + |digits|
            && NumberOf(s, t) == Number(digits)
  {
    hide Lex, Value;
    var k := p + |digits|;
    AtChars(s, p, digits);
    DigitsEnd(s, p, k);
    if k < |s| {
      DigitClass(s[k]);
    }
    IntegerLex(q, s, p);
    assert s[p..k] == digits;
  }

  lemma StopIsNoNumber(s: string, k: nat)
    requires Stops(s, k)
    ensures k < |s| ==> !NameChar(s[k]) && !Digit(s[k]) && s[k] != '.'
  {
  }

  /** What a clause at p, in a statement's LIMIT that starts at `start`, says. */
  function LimitOf(clause: Clause, start: nat, p: nat): Limit
    requires match clause
             case Rows(a) => IsDigits(a)
             case Comma(a, _, _, b) => IsDigits(a) && IsDigits(b)
             case Offset(a, _, _, _, b) => IsDigits(a) && IsDigits(b)
  {
    var end := p + |ClauseText(clause)|;
    match clause
    case Rows(a) => Limit(start, end, Number(a), 0)
    case Comma(a, _, _, b) => Limit(start, end, Number(b), Number(a))
    case Offset(a, _, _, _, b) => Limit(start, end, Number(a), Number(b))
  }

  /** A lone row count takes in the end of the statement n behind it. */
  lemma RowsParse(ctx: SqlContext, s: string, start: nat, p: nat, gap: string, digits: string, after: string, n: Token)
    requires IsBlanks(gap) && IsDigits(digits) && IsBlanks(after)
    requires At(s, p, gap) && At(s, p + |gap|, digits) && At(s, p + |gap| + |digits|, after)
    requires var k := p + |gap| + |digits| + |after|;
             k <= |s| && Stops(s, k) && Skip(ctx.quotes, s, k) == Ok(n)
    requires n.typ == Eos || (n.typ == Sign && n.prefix == ";")
    ensures LimitAt(ctx, s, start, p) == Ok((LimitOf(Rows(digits), start, p + |gap|), n.curr))
  {
    hide Lex, Skip, NumberOf, Number, IsDigits, IsBlanks, At, Stops;
    var at := p + |gap|;
    var k := at + |digits|;
    BlanksSkip(ctx.quotes, s, p, gap);
    NumberThen(ctx.quotes, s, at, digits, after);
    AtEnd(s, p, gap);
    NextBounds(ctx.quotes, s, k);
  }

  /** Two numbers with a comma or the word OFFSET between them. */
  lemma TwoNumbers(ctx: SqlContext, s: string, start: nat, p: nat, a: Token, t: Token, b: Token)
    requires p <= |s| && Skip(ctx.quotes, s, p) == Ok(a) && IsIntegerType(a.typ)
    requires a.curr <= |s| && Skip(ctx.quotes, s, a.curr) == Ok(t) && t.start <= t.end <= t.curr <= |s|
    requires Skip(ctx.quotes, s, t.curr) == Ok(b) && IsIntegerType(b.typ)
    requires (t.typ == Sign && t.prefix == ",")
             || (t.typ == Id && t.quotes == "" && ctx.upper(s[t.start..t.end]) == "OFFSET")
    ensures LimitAt(ctx, s, start, p)
            == Ok((if t.typ == Sign then Limit(start, b.end, NumberOf(s, b), NumberOf(s, a))
                   else Limit(start, b.end, NumberOf(s, a), NumberOf(s, b)), b.curr))
  {
    hide Skip, NumberOf;
  }

  /** Two numbers, either way, leave what is behind them. */
  lemma CommaParses(ctx: SqlContext, s: string, start: nat, p: nat, gap: string, clause: Clause)
    requires clause.Comma? && GoodClause(ctx, clause) && IsBlanks(gap)
    requires At(s, p, gap) && At(s, p + |gap|, ClauseText(clause)) && Stops(s, p + |gap| + |ClauseText(clause)|)
    ensures var k := p + |gap| + |ClauseText(clause)|;
            LimitAt(ctx, s, start, p) == Ok((LimitOf(clause, start, p + |gap|), k))
  {
    hide Lex, Skip, NumberOf, Number, IsDigits, IsBlanks, At, Stops, SignChar, LimitAt;
    var Comma(a, gap1, gap2, b) := clause;
    var at := p + |gap|;
    var comma := at + |a| + |gap1|;
    CommaPieces(s, at, a, gap1, gap2, b);
    AtEnd(s, p, gap);
    BlanksSkip(ctx.quotes, s, p, gap);
    CommaStops(s, comma);
    NumberThen(ctx.quotes, s, at, a, gap1);
    SignLex(ctx.quotes, s, comma);
    BlanksSkip(ctx.quotes, s, comma + 1, gap2);
    NoBlanks(s, comma + 1 + |gap2| + |b|);
    NumberThen(ctx.quotes, s, comma + 1 + |gap2|, b, "");
    TwoNumbers(ctx, s, start, p, Lex(ctx.quotes, s, at).value, Token(Sign, "", ",", comma, comma + 1, comma + 1),
               Lex(ctx.quotes, s, comma + 1 + |gap2|).value);
  }

  lemma NoBlanks(s: string, k: nat)
    requires k <= |s|
    ensures IsBlanks("") && At(s, k, "")
  {
  }

  /** A number, and what stands behind the blanks behind it. */
  lemma NumberThen(q: char, s: string, p: nat, digits: string, after: string)
    requires IsDigits(digits) && At(s, p, digits) && IsBlanks(after) && At(s, p + |digits|, after)
    requires p + |digits| + |after| <= |s| && (Stops(s, p + |digits| + |after|) || after != "")
    ensures Lex(q, s, p).Ok? && Skip(q, s, p) == Lex(q, s, p)
    ensures var t := Lex(q, s, p).value;
            && IsIntegerType(t.typ) && t.start == p && t.end == t.curr == p + |digits|
            && NumberOf(s, t) == Number(digits)
    ensures Skip(q, s, p + |digits|) == Skip(q, s, p + |digits| + |after|)
  {
    hide Lex, Skip, NumberOf, Number, IsDigits, IsBlanks, At, Stops;
    StopsBehind(s, p + |digits|, after);
    StopIsNoNumber(s, p + |digits|);
    NumberLex(q, s, p, digits);
    BlanksSkip(q, s, p + |digits|, after);
  }

  lemma CommaPieces(s: string, p: nat, a: string, gap1: string, gap2: string, b: string)
    requires At(s, p, a + gap1 + "," + gap2 + b)
    ensures var comma := p + |a| + |gap1|;
            && At(s, p, a) && At(s, p + |a|, gap1) && comma + 1 + |gap2| + |b| <= |s| && s[comma] == ','
            && At(s, comma + 1, gap2) && At(s, comma + 1 + |gap2|, b)
  {
    AtSplit(s, p, a + gap1 + "," + gap2, b);
    AtSplit(s, p, a + gap1 + ",", gap2);
    AtSplit(s, p, a + gap1, ",");
    AtChars(s, p + |a + gap1|, ",");
    AtSplit(s, p, a, gap1);
  }

  lemma OffsetParses(ctx: SqlContext, s: string, start: nat, p: nat, gap: string, clause: Clause)
    requires clause.Offset? && GoodClause(ctx, clause) && IsBlanks(gap)
    requires At(s, p, gap) && At(s, p + |gap|, ClauseText(clause)) && Stops(s, p + |gap| + |ClauseText(clause)|)
    ensures var k := p + |gap| + |ClauseText(clause)|;
            LimitAt(ctx, s, start, p) == Ok((LimitOf(clause, start, p + |gap|), k))
  {
    hide Lex, Skip, NumberOf, Number, IsDigits, IsBlanks, At, Stops, IsName, LimitAt;
    var Offset(a, gap1, word, gap2, b) := clause;
    var at := p + |gap|;
    var from := at + |a| + |gap1|;
    var to := from + |word|;
    OffsetPieces(s, at, a, gap1, word, gap2, b);
    AtEnd(s, p, gap);
    BlanksSkip(ctx.quotes, s, p, gap);
    NumberThen(ctx.quotes, s, at, a, gap1);
    StopsBehind(s, to, gap2);
    StopIsNoNumber(s, to);
    NameLex(ctx.quotes, s, from, word);
    BlanksSkip(ctx.quotes, s, to, gap2);
    NoBlanks(s, to + |gap2| + |b|);
    NumberThen(ctx.quotes, s, to + |gap2|, b, "");
    TwoNumbers(ctx, s, start, p, Lex(ctx.quotes, s, at).value, Lex(ctx.quotes, s, from).value,
               Lex(ctx.quotes, s, to + |gap2|).value);
  }

  lemma OffsetPieces(s: string, p: nat, a: string, gap1: string, word: string, gap2: string, b: string)
    requires At(s, p, a + gap1 + word + gap2 + b)
    ensures var from := p + |a| + |gap1|;
            && At(s, p, a) && At(s, p + |a|, gap1) && from + |word| + |gap2| + |b| <= |s| && At(s, from, word)
            && At(s, from + |word|, gap2) && At(s, from + |word| + |gap2|, b)
  {
    AtSplit(s, p, a + gap1 + word + gap2, b);
    AtSplit(s, p, a + gap1 + word, gap2);
    AtSplit(s, p, a + gap1, word);
    AtSplit(s, p, a, gap1);
  }

  // ---- statements ----

  /** How a statement may end at k: with the text, or with a semicolon; behind a lone
      row count only the last statement ends with one semicolon, any other with two. */
  predicate Ends(s: string, k: nat, x: Statement, close: string) {
    var lone := x.limit.Some? && x.limit.value.clause.Rows?;
    && At(s, k, close)
    && ((close == "" && k == |s|) || (close == ";" && (lone ==> k + 1 == |s|)) || (close == ";;" && lone))
  }

  lemma EndsStop(s: string, k: nat, x: Statement, close: string)
    requires Ends(s, k, x, close)
    ensures Stops(s, k) && k + |close| <= |s|
    ensures close != "" ==> k < |s| && s[k] == ';' && SignChar(s[k])
    ensures |close| == 2 ==> k + 1 < |s| && s[k + 1] == ';' && SignChar(s[k + 1])
  {
    AtChars(s, k, close);
  }

  /** The token that ends a statement. */
  lemma EndToken(q: char, s: string, k: nat, x: Statement, close: string)
    requires Ends(s, k, x, close)
    ensures Skip(q, s, k)
            == Ok(if close == "" then Token(Eos, "", "", k, k, k) else Token(Sign, "", ";", k, k + 1, k + 1))
  {
    hide Lex, Skip, SignChar, Stops;
    EndsStop(s, k, x, close);
    if close == "" {
      EndLex(q, s);
    } else {
      SignLex(q, s, k);
    }
  }

  /** Behind a lone row count and the end it took in, there is another end. */
  lemma SecondEnd(q: char, s: string, k: nat, x: Statement, close: string)
    requires Ends(s, k, x, close) && x.limit.Some? && x.limit.value.clause.Rows?
    ensures var at := if close == "" then k else k + 1;
            && at <= |s| && Skip(q, s, at).Ok?
            && var t := Skip(q, s, at).value;
               (t.typ == Eos || (t.typ == Sign && t.prefix == ";")) && t.end == t.curr == k + |close|
  {
    hide Lex, Skip, SignChar, Stops;
    EndsStop(s, k, x, close);
    EndLex(q, s);
    if close == ";;" {
      SignLex(q, s, k + 1);
    }
  }

  lemma LimitPieces(s: string, p: nat, limit: Limited)
    requires At(s, p, LimitText(Some(limit)))
    ensures var (from, gap) := (p + |limit.word|, |limit.gap|);
            && At(s, p, limit.word) && At(s, from, limit.gap) && At(s, from + gap, ClauseText(limit.clause))
            && At(s, from + gap + |ClauseText(limit.clause)|, limit.after)
            && from + gap + |ClauseText(limit.clause)| + |limit.after| == p + |LimitText(Some(limit))| <= |s|
  {
    var text := ClauseText(limit.clause);
    AtSplit(s, p, limit.word + limit.gap + text, limit.after);
    AtSplit(s, p, limit.word + limit.gap, text);
    AtSplit(s, p, limit.word, limit.gap);
  }

  /** The clause behind the keyword LIMIT, and where it is left. */
  lemma ClauseParses(ctx: SqlContext, s: string, p: nat, x: Statement, close: string)
    requires x.limit.Some? && GoodLimit(ctx, x.limit.value) && At(s, p, LimitText(x.limit))
    requires Ends(s, p + |LimitText(x.limit)|, x, close)
    ensures var limit, k := x.limit.value, p + |LimitText(x.limit)|;
            var from := p + |limit.word|;
            && from <= |s|
            && LimitAt(ctx, s, p, from)
               == Ok((LimitOf(limit.clause, p, from + |limit.gap|),
                      if !limit.clause.Rows? then from + |limit.gap| + |ClauseText(limit.clause)|
                      else if close == "" then k else k + 1))
  {
    hide LimitAt, Skip, Lex, Stops, SignChar, LimitText, IsBlanks, IsDigits, IsName, At, Ends, Number;
    var limit, k := x.limit.value, p + |LimitText(x.limit)|;
    var from := p + |limit.word|;
    LimitPieces(s, p, limit);
    EndsStop(s, k, x, close);
    EndToken(ctx.quotes, s, k, x, close);
    StopsBehind(s, from + |limit.gap| + |ClauseText(limit.clause)|, limit.after);
    match limit.clause
    case Rows(digits) =>
      RowsParse(ctx, s, p, from, limit.gap, digits, limit.after, Skip(ctx.quotes, s, k).value);
    case Comma(_, _, _, _) =>
      CommaParses(ctx, s, p, from, limit.gap, limit.clause);
    case Offset(_, _, _, _, _) =>
      OffsetParses(ctx, s, p, from, limit.gap, limit.clause);
  }

  lemma LimitedStep(ctx: SqlContext, s: string, start: nat, exprs: seq<Expr>, n: Token, l: Limit, k: nat, last: Token)
    requires n.start <= n.curr <= |s| && LimitAt(ctx, s, n.start, n.curr) == Ok((l, k)) && k <= |s|
    requires Skip(ctx.quotes, s, k) == Ok(last) && (last.typ == Eos || (last.typ == Sign && last.prefix == ";"))
    ensures LimitedFrom(ctx, s, start, exprs, n) == Ok((Select(start, last.end, exprs, Some(l), []), last.curr))
  {
    hide LimitAt, Skip;
  }

  /** A statement is read from its LIMIT keyword on to its end. */
  lemma LimitedParses(ctx: SqlContext, s: string, start: nat, exprs: seq<Expr>, p: nat, x: Statement, close: string)
    requires x.limit.Some? && GoodLimit(ctx, x.limit.value) && At(s, p, LimitText(x.limit))
    requires Ends(s, p + |LimitText(x.limit)|, x, close)
    ensures var limit, k := x.limit.value, p + |LimitText(x.limit)| + |close|;
            && var n := Token(Id, "", [limit.word[0]], p, p + |limit.word|, p + |limit.word|);
               && n.curr <= |s| && s[p..n.end] == limit.word && Skip(ctx.quotes, s, p) == Ok(n)
               && LimitedFrom(ctx, s, start, exprs, n)
                  == Ok((Select(start, k, exprs, Some(LimitOf(limit.clause, p, n.end + |limit.gap|)), []), k))
  {
    hide LimitAt, LimitOf, Skip, Lex, Stops, SignChar, LimitText, IsBlanks, IsName, At, Ends, ClauseText, GoodClause,
         LimitedFrom;
    var limit, end := x.limit.value, p + |LimitText(x.limit)|;
    LimitPieces(s, p, limit);
    EndsStop(s, end, x, close);
    ClauseParses(ctx, s, p, x, close);
    StopsBehind(s, p + |limit.word|, limit.gap);
    StopIsNoNumber(s, p + |limit.word|);
    NameLex(ctx.quotes, s, p, limit.word);
    if limit.clause.Rows? {
      SecondEnd(ctx.quotes, s, end, x, close);
    } else {
      EndToken(ctx.quotes, s, end, x, close);
      BlanksSkip(ctx.quotes, s, p + |limit.word| + |limit.gap| + |ClauseText(limit.clause)|, limit.after);
      OneEnd(s, end, x, close);
    }
    var n := Skip(ctx.quotes, s, p).value;
    var (l, k) := LimitAt(ctx, s, p, n.curr).value;
    LimitedStep(ctx, s, start, exprs, n, l, k, Skip(ctx.quotes, s, k).value);
  }

  lemma OneEnd(s: string, k: nat, x: Statement, close: string)
    requires Ends(s, k, x, close) && !(x.limit.Some? && x.limit.value.clause.Rows?)
    ensures |close| == if close == "" then 0 else 1
  {
  }

  /** The statement that is read: its range reaches from its keyword over its end. */
  function SelectOf(ctx: SqlContext, x: Statement, p: nat, close: string): Select
    requires GoodStatement(ctx, x)
  {
    var start := p + |x.before|;
    var list := start + |x.word|;
    var at := list + |ListText(x.items)|;
    Select(start, p + |StatementText(x)| + |close|, ExprsOf(ctx, x.items, list),
           match x.limit
           case None => None
           case Some(l) => Some(LimitOf(l.clause, at, at + |l.word| + |l.gap|)),
           [])
  }

  lemma StatementPieces(s: string, p: nat, x: Statement)
    requires At(s, p, StatementText(x))
    ensures var list := p + |x.before| + |x.word|;
            && At(s, p, x.before) && At(s, p + |x.before|, x.word) && At(s, list, ListText(x.items))
            && At(s, list + |ListText(x.items)|, LimitText(x.limit))
            && list + |ListText(x.items)| + |LimitText(x.limit)| == p + |StatementText(x)| <= |s|
  {
    hide ListText, LimitText;
    AtSplit(s, p, x.before + x.word + ListText(x.items), LimitText(x.limit));
    AtSplit(s, p, x.before + x.word, ListText(x.items));
    AtSplit(s, p, x.before, x.word);
  }

  /** Behind the keyword stands a blank or an `@`. */
  lemma ListStarts(s: string, p: nat, items: seq<Listed>)
    requires items != [] && At(s, p, ListText(items)) && IsBlanks(items[0].before)
    ensures p < |s| && !NameChar(s[p]) && !Digit(s[p])
  {
    hide ListText;
    ListPieces(s, p, items);
    var at := p + |items[0].before|;
    AtChars(s, at, ItemText(items[0].item));
    assert s[at] == '@';
    if items[0].before != "" {
      AtChars(s, p, items[0].before);
      BlankIsNoName();
    }
  }

  lemma {:induction false} BlanksComments(q: char, s: string, p: nat, blanks: string)
    requires At(s, p, blanks) && IsBlanks(blanks) && Skip(q, s, p + |blanks|) == Lex(q, s, p + |blanks|)
    requires Lex(q, s, p + |blanks|).Ok? && Lex(q, s, p + |blanks|).value.typ == Id
    ensures CommentsAt(q, s, p) == []
    decreases |blanks|
  {
    hide Lex;
    if blanks != "" {
      AtChars(s, p, blanks);
      BlankToken(q, s, p);
      var k := Lex(q, s, p).value.curr;
      forall j | p <= j < p + |blanks| ensures BlankChar(s[j]) {
        assert s[j] == blanks[j - p];
      }
      if p + |blanks| < k {
        BlankToken(q, s, p + |blanks|);
      }
      BlanksComments(q, s, k, blanks[k - p..]) by {
        AtTail(s, p, blanks, k - p);
      }
    }
  }

  lemma AtTail(s: string, p: nat, text: string, i: nat)
    requires At(s, p, text) && i <= |text|
    ensures At(s, p + i, text[i..])
  {
    assert text[..i] + text[i..] == text;
    AtSplit(s, p, text[..i], text[i..]);
  }

  lemma BlankToken(q: char, s: string, p: nat)
    requires p < |s| && BlankChar(s[p])
    ensures Lex(q, s, p).Ok?
    ensures var t := Lex(q, s, p).value;
            && t.typ == Blank && p < t.curr <= |s| && (forall j | p <= j < t.curr :: BlankChar(s[j]))
            && (t.curr < |s| ==> !BlankChar(s[t.curr]))
  {
    hide WordToken;
    BlankClass(s[p]);
    forall j | p <= j < |s| ensures IsBlank(s[j]) <==> BlankChar(s[j]) {
      BlankClass(s[j]);
    }
  }

  /** The keyword of a statement, and the blanks before it. */
  lemma KeywordParses(ctx: SqlContext, s: string, p: nat, x: Statement)
    requires GoodStatement(ctx, x) && At(s, p, StatementText(x))
    ensures var start := p + |x.before|;
            var list := start + |x.word|;
            && list <= |s| && s[start..list] == x.word
            && Skip(ctx.quotes, s, p) == Ok(Token(Id, "", [x.word[0]], start, list, list))
            && CommentsAt(ctx.quotes, s, p) == []
  {
    hide Lex, Skip, IsBlanks, IsName, NameChar, Digit, At, StatementText, ListText, GoodListed, CommentsAt;
    StatementPieces(s, p, x);
    FirstBlanks(ctx, x);
    ListStarts(s, p + |x.before| + |x.word|, x.items);
    BlanksSkip(ctx.quotes, s, p, x.before);
    NameLex(ctx.quotes, s, p + |x.before|, x.word);
    BlanksComments(ctx.quotes, s, p, x.before);
  }

  lemma FirstBlanks(ctx: SqlContext, x: Statement)
    requires GoodStatement(ctx, x)
    ensures IsBlanks(x.items[0].before) && GoodList(ctx, x.items)
  {
  }

  lemma LastEnds(ctx: SqlContext, s: string, k: nat, x: Statement, close: string)
    requires GoodStatement(ctx, x) && (x.limit == None ==> Ends(s, k, x, close))
    ensures x.items[|x.items| - 1].after == "" ==> Stops(s, k)
  {
    hide Stops;
    if x.limit == None {
      EndsStop(s, k, x, close);
    }
  }

  /** The token behind a list, and what the statement is from there. */
  lemma BehindList(ctx: SqlContext, s: string, p: nat, x: Statement, close: string) returns (n: Token)
    requires GoodStatement(ctx, x) && At(s, p, StatementText(x)) && Ends(s, p + |StatementText(x)|, x, close)
    ensures var list := p + |x.before| + |x.word|;
            var k := list + |ListText(x.items)|;
            && k <= |s| && Skip(ctx.quotes, s, k) == Ok(n) && (n.typ != Sign || n.prefix == ";")
            && n.start <= n.end <= n.curr <= |s|
            && SelectFrom(ctx, s, p + |x.before|, ExprsOf(ctx, x.items, list), n)
               == Ok((SelectOf(ctx, x, p, close), p + |StatementText(x)| + |close|))
  {
    hide Lex, Skip, IsBlanks, IsName, At, StatementText, ListText, LimitText, LimitOf, GoodLimit, GoodListed,
         LimitedFrom, Ends, Stops, ExprsOf;
    var list := p + |x.before| + |x.word|;
    var k := list + |ListText(x.items)|;
    StatementPieces(s, p, x);
    match x.limit
    case None =>
      NoLimit();
      EndToken(ctx.quotes, s, k, x, close);
      OneEnd(s, k, x, close);
      EndsAt(s, k, x, close);
      n := Skip(ctx.quotes, s, k).value;
    case Some(l) =>
      LimitIsGood(ctx, l);
      LimitedParses(ctx, s, p + |x.before|, ExprsOf(ctx, x.items, list), k, x, close);
      n := Skip(ctx.quotes, s, k).value;
  }

  lemma LimitIsGood(ctx: SqlContext, limit: Limited)
    requires GoodLimit(ctx, limit)
    ensures ctx.upper(limit.word) == "LIMIT" && limit.word != ""
  {
  }

  /** The list and the clause of a statement, up to its end. */
  lemma BodyParses(ctx: SqlContext, s: string, p: nat, x: Statement, close: string) returns (first: Token)
    requires GoodStatement(ctx, x) && At(s, p, StatementText(x)) && Ends(s, p + |StatementText(x)|, x, close)
    ensures var start := p + |x.before|;
            && start + |x.word| <= |s| && Skip(ctx.quotes, s, start + |x.word|) == Ok(first) && first.curr <= |s|
            && SelectAt(ctx, s, start, first)
               == Ok((SelectOf(ctx, x, p, close), p + |StatementText(x)| + |close|))
  {
    hide Lex, Skip, IsBlanks, At, StatementText, ListText, LimitText, GoodList, GoodStatement, GoodListed, ExprsFrom,
         SelectFrom, SelectOf, Ends, Stops, ExprsOf;
    var list := p + |x.before| + |x.word|;
    StatementPieces(s, p, x);
    FirstBlanks(ctx, x);
    LastEnds(ctx, s, list + |ListText(x.items)|, x, close) by {
      ListEnds(s, p, x, close);
    }
    var n := BehindList(ctx, s, p, x, close);
    ListParses(ctx, s, list, x.items, [], n);
    assert [] + ExprsOf(ctx, x.items, list) == ExprsOf(ctx, x.items, list);
    first := Skip(ctx.quotes, s, list).value;
  }

  lemma ListEnds(s: string, p: nat, x: Statement, close: string)
    requires Ends(s, p + |StatementText(x)|, x, close)
    ensures x.limit == None ==> Ends(s, p + |x.before| + |x.word| + |ListText(x.items)|, x, close)
  {
    hide ListText;
  }

  lemma NoLimit()
    ensures LimitText(None) == ""
  {
  }

  lemma EndsAt(s: string, k: nat, x: Statement, close: string)
    requires Ends(s, k, x, close)
    ensures k <= k + |close| <= |s|
  {
  }

  lemma ParseStep(ctx: SqlContext, s: string, p: nat, t: Token, first: Token, x: Select, k: nat)
    requires p <= |s| && Skip(ctx.quotes, s, p) == Ok(t) && t.typ == Id && t.quotes == "" && t.prefix != ";"
    requires t.start <= t.end <= t.curr <= |s| && ctx.upper(s[t.start..t.end]) == "SELECT"
    requires Skip(ctx.quotes, s, t.curr) == Ok(first) && first.curr <= |s|
    requires SelectAt(ctx, s, t.start, first) == Ok((x, k)) && CommentsAt(ctx.quotes, s, p) == x.comments
    ensures p < k <= |s|
    ensures ParseFrom(ctx, s, p)
            == match ParseFrom(ctx, s, k)
               case Ok(rest) => Ok([x] + rest)
               case Err(error) => Err(error)
  {
    hide Skip, SelectAt, CommentsAt;
    SkipBounds(ctx.quotes, s, p);
    SelectBounds(ctx, s, t.start, t.curr);
    assert x.(comments := x.comments) == x;
  }

  /** One statement, and what is read behind it. */
  lemma StatementParses(ctx: SqlContext, s: string, p: nat, x: Statement, close: string)
    requires GoodStatement(ctx, x) && At(s, p, StatementText(x)) && Ends(s, p + |StatementText(x)|, x, close)
    ensures var k := p + |StatementText(x)| + |close|;
            p <= |s| && k <= |s|
            && ParseFrom(ctx, s, p)
               == match ParseFrom(ctx, s, k)
                  case Ok(rest) => Ok([SelectOf(ctx, x, p, close)] + rest)
                  case Err(error) => Err(error)
  {
    hide Lex, Skip, IsBlanks, At, StatementText, ListText, LimitText, SelectAt, Ends, CommentsAt, GoodStatement,
         ParseFrom, IsName, SelectOf;
    KeywordParses(ctx, s, p, x);
    var first := BodyParses(ctx, s, p, x, close);
    EndsAt(s, p + |StatementText(x)|, x, close);
    StatementPieces(s, p, x);
    KeywordMeans(ctx, x);
    ParseStep(ctx, s, p, Skip(ctx.quotes, s, p).value, first, SelectOf(ctx, x, p, close),
              p + |StatementText(x)| + |close|);
  }

  lemma KeywordMeans(ctx: SqlContext, x: Statement)
    requires GoodStatement(ctx, x)
    ensures ctx.upper(x.word) == "SELECT" && x.word != "" && [x.word[0]] != ";"
    ensures forall p: nat, close :: SelectOf(ctx, x, p, close).comments == []
  {
    NoSemicolon(x.word);
  }

  lemma NoSemicolon(word: string)
    requires IsName(word)
    ensures [word[0]] != ";"
  {
  }

  // ---- programs ----

  /** What stands behind a statement that is not the last. */
  function Separator(x: Statement): string {
    if x.limit.Some? && x.limit.value.clause.Rows? then ";;" else ";"
  }

  /** Statements one behind the other; the last may end with a semicolon or without. */
  function ProgramText(program: seq<Statement>, end: string): string {
    if program == [] then ""
    else if |program| == 1 then StatementText(program[0]) + end
    else StatementText(program[0]) + Separator(program[0]) + ProgramText(program[1..], end)
  }

  ghost predicate GoodProgram(ctx: SqlContext, program: seq<Statement>) {
    forall i | 0 <= i < |program| :: GoodStatement(ctx, program[i])
  }

  function SelectsOf(ctx: SqlContext, program: seq<Statement>, p: nat, end: string): seq<Select>
    requires GoodProgram(ctx, program)
  {
    if program == [] then []
    else
      var close := if |program| == 1 then end else Separator(program[0]);
      [SelectOf(ctx, program[0], p, close)]
      + SelectsOf(ctx, program[1..], p + |StatementText(program[0])| + |close|, end)
  }

  lemma ProgramPieces(s: string, p: nat, program: seq<Statement>, end: string)
    requires program != [] && At(s, p, ProgramText(program, end)) && p + |ProgramText(program, end)| == |s|
    requires end == "" || end == ";"
    ensures var (x, close) := (program[0], if |program| == 1 then end else Separator(program[0]));
            var k := p + |StatementText(x)|;
            && At(s, p, StatementText(x)) && Ends(s, k, x, close) && k + |close| <= |s|
            && At(s, k + |close|, ProgramText(program[1..], end))
            && k + |close| + |ProgramText(program[1..], end)| == |s|
  {
    hide StatementText, At, ProgramText, Ends;
    var x := program[0];
    ProgramTextIs(program, end);
    var close := if |program| == 1 then end else Separator(x);
    ThreePieces(s, p, StatementText(x), close, ProgramText(program[1..], end));
    Closes(s, p + |StatementText(x)|, x, close, |program| == 1);
  }

  lemma ProgramTextIs(program: seq<Statement>, end: string)
    requires program != []
    ensures var close := if |program| == 1 then end else Separator(program[0]);
            ProgramText(program, end) == StatementText(program[0]) + close + ProgramText(program[1..], end)
    ensures |program| == 1 ==> ProgramText(program[1..], end) == ""
  {
    hide StatementText;
    assert StatementText(program[0]) + end + "" == StatementText(program[0]) + end;
  }

  lemma Closes(s: string, k: nat, x: Statement, close: string, last: bool)
    requires At(s, k, close)
    requires if last then (close == "" || close == ";") && k + |close| == |s| else close == Separator(x)
    ensures Ends(s, k, x, close)
  {
  }

  /** What was written is what is read. */
  lemma {:induction false} ProgramParsesAt(ctx: SqlContext, s: string, p: nat, program: seq<Statement>, end: string)
    requires GoodProgram(ctx, program) && (end == "" || end == ";")
    requires At(s, p, ProgramText(program, end)) && p + |ProgramText(program, end)| == |s|
    ensures ParseFrom(ctx, s, p) == Ok(SelectsOf(ctx, program, p, end))
    decreases |program|
  {
    hide GoodStatement, StatementText, ProgramText, Separator, SelectOf, ParseFrom, Ends, At;
    if program == [] {
      NoProgram(ctx, s, p, program, end);
    } else {
      ProgramPieces(s, p, program, end);
      var close := if |program| == 1 then end else Separator(program[0]);
      StatementParses(ctx, s, p, program[0], close);
      ProgramParsesAt(ctx, s, p + |StatementText(program[0])| + |close|, program[1..], end);
    }
  }

  lemma NoProgram(ctx: SqlContext, s: string, p: nat, program: seq<Statement>, end: string)
    requires program == [] && p + |ProgramText(program, end)| == |s|
    ensures ParseFrom(ctx, s, p) == Ok([])
  {
  }

  /** Every program parses to its own statements: the names, quotes, scopes and numbers
      it was written with, each at the place where it stands. */
  lemma ProgramParses(ctx: SqlContext, program: seq<Statement>, end: string)
    requires GoodProgram(ctx, program) && (end == "" || end == ";")
    ensures Parse(ctx, ProgramText(program, end)) == Ok(SelectsOf(ctx, program, 0, end))
  {
    var s := ProgramText(program, end);
    assert s[0..|s|] == s;
    ProgramParsesAt(ctx, s, 0, program, end);
  }

  // ---- comments ----

  /** A comment between its marks, without a star in it, is passed over and kept with
      the statement behind it. */
  lemma BlockCommentRead(q: char, s: string, p: nat, body: string)
    requires At(s, p, "/*" + body + "*/") && '*' !in body
    ensures var k := p + |body| + 4;
            && k <= |s|
            && Lex(q, s, p) == Ok(Token(Comment, "", "/*", p + 2, p + 2 + |body|, k))
            && Skip(q, s, p) == Skip(q, s, k)
            && CommentsAt(q, s, p) == [CommentSpan(p + 2, p + 2 + |body|, "/*")] + CommentsAt(q, s, k)
  {
    hide BlockComment, Stars, Lex, Skip, CommentsAt, At, FirstClose;
    ThreePieces(s, p, "/*", body, "*/");
    var k := p + 2 + |body|;
    OnlyClose(s, p + 2, body);
    BlockCommentIff(s, p + 2, k);
    CommentLex(q, s, p);
    CommentStep(q, s, p);
  }

  lemma OnlyClose(s: string, i: nat, body: string)
    requires At(s, i, body) && At(s, i + |body|, "*/") && '*' !in body
    ensures FirstClose(s, i, i + |body|) && i + |body| + 2 <= |s| && Stars(s, i, i + |body|) % 2 == 1
  {
    var k := i + |body|;
    AtChars(s, i, body);
    AtChars(s, k, "*/");
    assert forall j | i <= j < k :: s[j] != '*';
    OneStar(s, i, k);
  }

  /** What a comment token does to the skipping behind it. */
  lemma CommentStep(q: char, s: string, p: nat)
    requires p <= |s| && Lex(q, s, p).Ok? && Lex(q, s, p).value.typ == Comment
    ensures var t := Lex(q, s, p).value;
            && p < t.curr <= |s| && Skip(q, s, p) == Skip(q, s, t.curr)
            && CommentsAt(q, s, p) == [CommentSpan(t.start, t.end, t.prefix)] + CommentsAt(q, s, t.curr)
  {
    hide Lex;
    LexBounds(q, s, p);
  }

  lemma OneStar(s: string, i: nat, k: nat)
    requires i <= k < |s| && s[k] == '*' && forall j | i <= j < k :: s[j] != '*'
    ensures Stars(s, i, k) == 1
  {
    assert k > i ==> Stars(s, i, k - 1) == 0;
  }

  /** So is a line comment, up to its line break. */
  lemma LineCommentRead(q: char, s: string, p: nat, mark: string, text: string)
    requires mark in {"--", "//", "#"} && At(s, p, mark + text + "\n")
    requires '\n' !in text && (text != "" ==> text[|text| - 1] != '\r')
    ensures var i, k := p + |mark|, p + |mark| + |text| + 1;
            && k <= |s|
            && Lex(q, s, p) == Ok(Token(Comment, "", mark, i, k - 1, k))
            && Skip(q, s, p) == Skip(q, s, k)
            && CommentsAt(q, s, p) == [CommentSpan(i, k - 1, mark)] + CommentsAt(q, s, k)
  {
    hide LineComment, Lex, Skip, CommentsAt, At;
    ThreePieces(s, p, mark, text, "\n");
    LineSpan(s, p, mark, text);
    CommentLex(q, s, p);
    CommentStep(q, s, p);
  }

  lemma LineSpan(s: string, p: nat, mark: string, text: string)
    requires mark in {"--", "//", "#"} && At(s, p, mark)
    requires At(s, p + |mark|, text) && At(s, p + |mark| + |text|, "\n")
    requires '\n' !in text && (text != "" ==> text[|text| - 1] != '\r')
    ensures var i, k := p + |mark|, p + |mark| + |text| + 1;
            k <= |s| && LineComment(s, i, mark) == Token(Comment, "", mark, i, k - 1, k)
  {
    hide LineStop, At;
    var i, k := p + |mark|, p + |mark| + |text| + 1;
    AtChars(s, p, mark);
    AtChars(s, i, text);
    AtChars(s, k - 1, "\n");
    StopsAtBreak(s, i, k);
  }

  lemma {:induction false} StopsAtBreak(s: string, i: nat, k: nat)
    requires i < k <= |s| && s[k - 1] == '\n' && forall j | i <= j < k - 1 :: s[j] != '\n'
    ensures LineStop(s, i) == k
    decreases k - i
  {
    if i < k - 1 {
      StopsAtBreak(s, i + 1, k);
    }
  }

  // ---- what is refused ----

  /** Behind the statements there may be blanks and one semicolon more, at the very end
      of the text; with anything behind it the semicolon is refused. */
  lemma OneMoreSemicolon(ctx: SqlContext, s: string, p: nat, blanks: string)
    requires IsBlanks(blanks)
    ensures At(s, p, blanks) && p + |blanks| == |s| ==> ParseFrom(ctx, s, p) == Ok([])
    ensures At(s, p, blanks + ";") ==>
              ParseFrom(ctx, s, p) == if p + |blanks| + 1 == |s| then Ok([]) else Err(Syntax(p + |blanks|))
  {
    hide Lex, Skip, SignChar, IsBlanks, At, ParseFrom;
    if At(s, p, blanks) && p + |blanks| == |s| {
      AtEnd(s, p, blanks);
      BlanksSkip(ctx.quotes, s, p, blanks);
      EndLex(ctx.quotes, s);
      ParseEnds(ctx, s, p, Token(Eos, "", "", |s|, |s|, |s|));
    }
    if At(s, p, blanks + ";") {
      AtSplit(s, p, blanks, ";");
      AtEnd(s, p, blanks);
      AtChars(s, p + |blanks|, ";");
      SemicolonSign();
      BlanksSkip(ctx.quotes, s, p, blanks);
      SignLex(ctx.quotes, s, p + |blanks|);
      ParseEnds(ctx, s, p, Token(Sign, "", ";", p + |blanks|, p + |blanks| + 1, p + |blanks| + 1));
    }
  }

  lemma ParseEnds(ctx: SqlContext, s: string, p: nat, t: Token)
    requires p <= |s| && Skip(ctx.quotes, s, p) == Ok(t) && (t.typ == Eos || (t.typ == Sign && t.prefix == ";"))
    ensures ParseFrom(ctx, s, p) == if t.typ == Eos || t.curr == |s| then Ok([]) else Err(Syntax(t.start))
  {
    hide Skip;
  }

  lemma SemicolonSign()
    ensures SignChar(';')
  {
  }

  /** A statement that begins with another word is refused at that word. */
  lemma OtherWordRefused(ctx: SqlContext, s: string, p: nat, before: string, word: string)
    requires IsBlanks(before) && IsName(word) && ctx.upper(word) != "SELECT"
    requires At(s, p, before + word) && Stops(s, p + |before| + |word|)
    ensures p <= |s| && ParseFrom(ctx, s, p) == Err(Syntax(p + |before|))
  {
    hide Lex, Skip, IsBlanks, IsName, At, Stops;
    AtSplit(s, p, before, word);
    AtEnd(s, p, before);
    BlanksSkip(ctx.quotes, s, p, before);
    StopIsNoNumber(s, p + |before| + |word|);
    NameLex(ctx.quotes, s, p + |before|, word);
    NoSemicolon(word);
  }

  /** A list that begins with a plain name is refused at that name: only variables can
      be selected. */
  lemma PlainNameRefused(ctx: SqlContext, s: string, p: nat, blanks: string, name: string, start: nat)
    requires IsBlanks(blanks) && IsName(name) && At(s, p, blanks + name) && Stops(s, p + |blanks| + |name|)
    ensures p <= |s| && Skip(ctx.quotes, s, p).Ok?
    ensures var t := Skip(ctx.quotes, s, p).value;
            t.curr <= |s| && SelectAt(ctx, s, start, t) == Err(Syntax(p + |blanks|))
  {
    hide Lex, Skip, IsBlanks, IsName, At, Stops;
    AtSplit(s, p, blanks, name);
    AtEnd(s, p, blanks);
    AtEnd(s, p + |blanks|, name);
    BlanksSkip(ctx.quotes, s, p, blanks);
    StopIsNoNumber(s, p + |blanks| + |name|);
    NameLex(ctx.quotes, s, p + |blanks|, name);
  }

  /** Behind a variable any sign but a comma or a semicolon is not implemented. */
  lemma OtherSignRefused(ctx: SqlContext, s: string, p: nat, x: Listed, c: char, acc: seq<Expr>)
    requires GoodListed(ctx, x) && SignChar(c) && c != ',' && c != ';' && x.after != ""
    requires At(s, p, x.before + ItemText(x.item) + x.after) && At(s, p + |x.before + ItemText(x.item) + x.after|, [c])
    ensures p <= |s| && Skip(ctx.quotes, s, p).Ok?
    ensures var t := Skip(ctx.quotes, s, p).value;
            t.curr <= |s| && ExprsFrom(ctx, s, t, acc) == Err(NotImplemented)
  {
    hide Lex, Skip, ExprAt, ExprsFrom, ExprOf, At, Stops, ItemText, GoodListed, SignChar;
    var k := p + |x.before + ItemText(x.item) + x.after|;
    ThreePieces(s, p, x.before, ItemText(x.item), x.after);
    AtChars(s, k, [c]);
    SignLex(ctx.quotes, s, k);
    FirstParses(ctx, s, p, x);
    var at := p + |x.before|;
    ExprsStep(ctx, s, Token(Sign, "", "@", at, at + 1, at + 1), acc);
  }

  // ---- one statement of a client ----

  function AskedItem(): Item {
    System(None, Bare("version_comment"))
  }

  function AskedLimit(): Limited {
    Limited("limit", " ", Rows("1"), "")
  }

  function Asked(): Statement {
    Statement("", "select", [Listed(" ", AskedItem(), " ")], Some(AskedLimit()))
  }

  ghost predicate AnswersVersion(ctx: SqlContext) {
    && ctx.upper("select") == "SELECT" && ctx.upper("limit") == "LIMIT"
    && ctx.upper("version_comment") !in ctx.reserved + {"SESSION", "GLOBAL"}
  }

  lemma AskedIsGood(ctx: SqlContext)
    requires AnswersVersion(ctx)
    ensures GoodProgram(ctx, [Asked()])
  {
    var name := "version_comment";
    assert IsName(name);
    assert GoodWord(ctx, Bare(name));
    assert IsName("select") && IsName("limit");
    assert IsDigits("1");
    hide IsName, GoodWord, IsDigits;
    assert GoodItem(ctx, AskedItem());
    assert GoodLimit(ctx, AskedLimit());
  }

  lemma AskedList()
    ensures ItemText(AskedItem()) == "@@version_comment" && |ItemText(AskedItem())| == 17
    ensures ListText(Asked().items) == " @@version_comment " && |ListText(Asked().items)| == 19
  {
    assert "@@" + "" + "version_comment" == "@@version_comment";
    assert " " + "@@version_comment" + " " + "" == " @@version_comment ";
  }

  lemma AskedText()
    ensures StatementText(Asked()) == "select @@version_comment limit 1" && |StatementText(Asked())| == 32
    ensures ProgramText([Asked()], "") == "select @@version_comment limit 1"
  {
    hide ListText;
    AskedList();
    assert LimitText(Some(AskedLimit())) == "limit 1";
    assert "" + "select" + " @@version_comment " + "limit 1" == "select @@version_comment limit 1";
    assert StatementText(Asked()) + "" == StatementText(Asked());
  }

  lemma AskedSelect(ctx: SqlContext)
    requires GoodStatement(ctx, Asked())
    ensures SelectOf(ctx, Asked(), 0, "")
            == Select(0, 32, [SystemVariable(7, 24, Name("version_comment", "", 9, 24), false)],
                      Some(Limit(25, 32, 1, 0)), [])
  {
    hide GoodStatement, StatementText, ListText, ItemText, ProgramText, Number, Value;
    AskedList();
    AskedText();
    NumberOne();
    var item := AskedItem();
    assert ExprOf(ctx, item, 7) == SystemVariable(7, 24, Name("version_comment", "", 9, 24), false);
    assert Asked().items[0] == Listed(" ", item, " ") && Asked().items[1..] == [];
    assert ExprsOf(ctx, Asked().items, 6) == [ExprOf(ctx, item, 7)] + ExprsOf(ctx, [], 26);
    assert LimitOf(Rows("1"), 25, 31) == Limit(25, 32, 1, 0);
  }

  lemma NumberOne()
    ensures IsDigits("1") && Number("1") == 1
  {
    assert IsDigits("1");
    NumberValue("", 1);
    assert "" + ["0123456789"[1]] == "1";
  }

  /** The one system variable the server answers by itself, asked for as clients do. */
  lemma VersionComment(ctx: SqlContext)
    requires AnswersVersion(ctx)
    ensures Parse(ctx, "select @@version_comment limit 1")
            == Ok([Select(0, 32, [SystemVariable(7, 24, Name("version_comment", "", 9, 24), false)],
                          Some(Limit(25, 32, 1, 0)), [])])
  {
    hide GoodStatement, AnswersVersion, StatementText, ProgramText, SelectOf, Parse;
    AskedIsGood(ctx);
    AskedText();
    ProgramParses(ctx, [Asked()], "");
    OnlySelect(ctx, Asked());
    AskedSelect(ctx);
  }

  lemma OnlySelect(ctx: SqlContext, x: Statement)
    requires GoodProgram(ctx, [x])
    ensures GoodStatement(ctx, x) && SelectsOf(ctx, [x], 0, "") == [SelectOf(ctx, x, 0, "")]
  {
    hide GoodStatement, SelectOf;
    assert [x][0] == x && [x][1..] == [];
    assert [SelectOf(ctx, x, 0, "")] + [] == [SelectOf(ctx, x, 0, "")];
  }

  /** The length a name of each kind may have; the name of a schema, a table or a
      column does not end with a blank. */
  predicate Fits(name: string, kind: IdKind) {
    match kind
    case AliasId => |name| <= 256
    case LabelId => |name| <= 16
    case UserId => |name| <= 80
    case RoleId => |name| <= 128
    case SchemaId | TableId | ColumnId => |name| <= 64 && (name != "" ==> !BlankChar(name[|name| - 1]))
    case SysVarId | OtherId => |name| <= 64
  }

  lemma FitsIff(name: string, kind: IdKind)
    ensures Fits(name, kind)
            <==> |name| <= MaxLength(kind) && !(NoBlankEnd(kind) && name != "" && IsBlank(name[|name| - 1]))
  {
    hide IsBlank, BlankChar;
    if name != "" {
      BlankClass(name[|name| - 1]);
    }
  }

  /** Which identifiers are accepted: those that fit and are no reserved word unless a
      dot follows. */
  lemma NameAtIff(ctx: SqlContext, s: string, t: Token, kind: IdKind)
    requires t.start <= t.end <= t.curr <= |s|
    ensures var (name, next) := (s[t.start..t.end], Skip(ctx.quotes, s, t.curr));
            && (NameAt(ctx, s, t, kind).Ok?
                <==> Fits(name, kind) && next.Ok? && (next.value.prefix == "." || ctx.upper(name) !in ctx.reserved))
            && (!Fits(name, kind) ==> NameAt(ctx, s, t, kind) == Err(Syntax(t.start)))
  {
    hide Skip, Fits, MaxLength, NoBlankEnd, IsBlank;
    FitsIff(s[t.start..t.end], kind);
  }
}
