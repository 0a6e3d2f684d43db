/** The tokens of a text character by character: names, variables, blanks, signs and
    quoted names, with every character that makes them spelled out. */
module SqlWords {
  import opened Wrappers
  import opened SqlText

  // ---- characters ----

  /** What an unquoted name is made of, apart from digits. */
  predicate NameChar(c: char) {
    'a' <= c <= 'z' || 'A' <= c <= 'Z' || c == '$' || c == '_' || '\U{0080}' <= c
  }

  predicate Digit(c: char) {
    c in "0123456789"
  }

  predicate BlankChar(c: char) {
    c in " \t\n\r\U{000B}\U{000C}"
  }

  predicate SignChar(c: char) {
    c in "<>=!:,;()]@?|^&~"
  }

  /** A name: no digit in front. */
  predicate IsName(name: string) {
    name != "" && NameChar(name[0]) && forall i | 0 <= i < |name| :: NameChar(name[i]) || Digit(name[i])
  }

  /** The name of a user variable, which may begin with anything it may hold. */
  predicate IsVariableName(name: string) {
    forall i | 0 <= i < |name| :: NameChar(name[i]) || Digit(name[i]) || name[i] == '.'
  }

  predicate IsBlanks(blanks: string) {
    forall i | 0 <= i < |blanks| :: BlankChar(blanks[i])
  }

  // ---- a text inside a text ----

  predicate At(s: string, p: nat, text: string) {
    p + |text| <= |s| && s[p..p + |text|] == text
  }

  lemma AtSplit(s: string, p: nat, a: string, b: string)
    requires At(s, p, a + b)
    ensures At(s, p, a) && At(s, p + |a|, b)
  {
    var ab := s[p..p + |a + b|];
    assert s[p..p + |a|] == ab[..|a|] && s[p + |a|..p + |a| + |b|] == ab[|a|..];
  }

  lemma AtChars(s: string, p: nat, text: string)
    requires At(s, p, text)
    ensures p + |text| <= |s| && forall i | p <= i < p + |text| :: s[i] == text[i - p]
  {
    forall i | p <= i < p + |text| ensures s[i] == text[i - p] {
      assert s[i] == s[p..p + |text|][i - p];
    }
  }

  // ---- names ----

  /** Between two characters of a word the scanner's state stays as it is, but for the
      leading zeros it remembers. */
  lemma NameStep(s: string, p: nat, k: nat, st: WordState)
    requires p <= k < |s| && !st.num && st.dot == -1 && st.exp == -1
    requires NameChar(s[k]) || (Digit(s[k]) && p < k)
    ensures WordStep(s, p, k, st).Ok?
    ensures var t := WordStep(s, p, k, st).value; !t.num && t.dot == -1 && t.exp == -1
  {
  }

  lemma {:induction false} NameScan(s: string, p: nat, j: nat, k: nat, st: WordState) returns (st': WordState)
    requires p <= j <= k <= |s| && p < k && !st.num && st.dot == -1 && st.exp == -1
    requires NameChar(s[p]) && forall i | p < i < k :: NameChar(s[i]) || Digit(s[i])
    requires k == |s| || !(NameChar(s[k]) || Digit(s[k]))
    ensures WordFrom(s, p, j, st) == WordEnd(k, st') && !st'.num
    decreases k - j
  {
    if j < k {
      NameStep(s, p, j, st);
      st' := NameScan(s, p, j + 1, k, WordStep(s, p, j, st).value);
    } else {
      st' := st;
    }
  }

  /** The characters of a name, up to the first that cannot be part of it, are one
      unquoted identifier. */
  lemma NameLex(q: char, s: string, p: nat, name: string)
    requires At(s, p, name) && IsName(name)
    requires p + |name| == |s| || !(NameChar(s[p + |name|]) || Digit(s[p + |name|]))
    ensures Lex(q, s, p) == Ok(Token(Id, "", [name[0]], p, p + |name|, p + |name|))
    ensures Skip(q, s, p) == Lex(q, s, p) && s[p..p + |name|] == name
  {
    hide WordFrom, BlankEnd, CloseQuote, LineStop, BlockScan;
    AtChars(s, p, name);
    assert forall i | p < i < p + |name| :: NameChar(s[i]) || Digit(s[i]);
    var st := NameScan(s, p, p, p + |name|, WordState(false, -1, -1, -1, p - 1));
  }

  // ---- the names of user variables ----

  lemma {:induction false} VariableScan(s: string, j: nat, k: nat)
    requires j <= k <= |s| && forall i | j <= i < k :: NameChar(s[i]) || Digit(s[i]) || s[i] == '.'
    requires k == |s| || !(NameChar(s[k]) || Digit(s[k]) || s[k] == '.')
    ensures VarEnd(s, j) == k
    decreases k - j
  {
    if j < k {
      VariableScan(s, j + 1, k);
    }
  }

  /** The name behind a single `@` reaches as far as letters, digits and dots do; it may
      be empty. */
  lemma VariableNameLex(s: string, p: nat, name: string)
    requires At(s, p, name) && IsVariableName(name)
    requires var k := p + |name|; k == |s| || !(NameChar(s[k]) || Digit(s[k]) || s[k] in ".`'\"")
    ensures UserVarToken(s, p).Ok? && s[p..p + |name|] == name
    ensures var t := UserVarToken(s, p).value;
            t.typ == UserVar && t.quotes == "" && t.start == p && t.end == t.curr == p + |name|
  {
    hide VarEnd;
    AtChars(s, p, name);
    assert forall i | p <= i < p + |name| :: NameChar(s[i]) || Digit(s[i]) || s[i] == '.';
    VariableScan(s, p, p + |name|);
  }

  // ---- quoted names ----

  lemma {:induction false} QuoteScan(s: string, i: nat, k: nat, close: char, nul: bool)
    requires i <= k < |s| && s[k] == close && (k + 1 < |s| ==> s[k + 1] != close)
    requires forall j | i <= j < k :: s[j] != close && (nul ==> s[j] != '\0')
    ensures CloseQuote(s, i, close, nul) == Ok(k)
    decreases k - i
  {
    if i < k {
      QuoteScan(s, i + 1, k, close, nul);
    }
  }

  /** What closes a quoted name: a bracket for a bracket, else the same again. */
  function Closing(c: char): char {
    if c == '[' then ']' else c
  }

  /** A name in quotes: the back quote anywhere, a bracket or a double quote where it
      is the identifier quote. It holds neither its own quote nor NUL. */
  lemma QuotedNameLex(q: char, s: string, p: nat, c: char, name: string)
    requires c == '`' || (c == q && (c == '[' || c == '"'))
    requires At(s, p, [c] + name + [Closing(c)]) && Closing(c) !in name && '\0' !in name
    requires var k := p + |name| + 2; k == |s| || s[k] != Closing(c)
    ensures Lex(q, s, p) == Ok(Token(Id, [c], [c], p + 1, p + 1 + |name|, p + 2 + |name|))
    ensures Skip(q, s, p) == Lex(q, s, p) && s[p + 1..p + 1 + |name|] == name
  {
    hide CloseQuote, WordToken;
    AtChars(s, p, [c] + name + [Closing(c)]);
    var k := p + 1 + |name|;
    forall j | p + 1 <= j < k ensures s[j] != Closing(c) && s[j] != '\0' {
      assert s[j] == name[j - p - 1];
    }
    QuoteScan(s, p + 1, k, Closing(c), true);
    assert s[p + 1..k] == name;
  }

  /** The quoted name of a user variable, in any of three quotes; NUL is allowed. */
  lemma QuotedVariableLex(s: string, p: nat, c: char, name: string)
    requires c in "`'\"" && At(s, p, [c] + name + [c]) && c !in name
    requires var k := p + |name| + 2; k == |s| || s[k] != c
    ensures UserVarToken(s, p) == Ok(Token(UserVar, [c], [c], p + 1, p + 1 + |name|, p + 2 + |name|))
    ensures s[p + 1..p + 1 + |name|] == name
  {
    hide CloseQuote;
    AtChars(s, p, [c] + name + [c]);
    var k := p + 1 + |name|;
    forall j | p + 1 <= j < k ensures s[j] != c {
      assert s[j] == name[j - p - 1];
    }
    QuoteScan(s, p + 1, k, c, false);
    assert s[p + 1..k] == name;
  }

  /** A string: the single quote anywhere, the double quote where it is not the
      identifier quote. */
  lemma StringLex(q: char, s: string, p: nat, c: char, text: string)
    requires c == '\'' || (c == '"' && c != q)
    requires At(s, p, [c] + text + [c]) && c !in text
    requires var k := p + |text| + 2; k == |s| || s[k] != c
    ensures Lex(q, s, p) == Ok(Token(Str, "", [c], p + 1, p + 1 + |text|, p + 2 + |text|))
    ensures s[p + 1..p + 1 + |text|] == text
  {
    hide CloseQuote, WordToken;
    AtChars(s, p, [c] + text + [c]);
    var k := p + 1 + |text|;
    forall j | p + 1 <= j < k ensures s[j] != c {
      assert s[j] == text[j - p - 1];
    }
    QuoteScan(s, p + 1, k, c, false);
    assert s[p + 1..k] == text;
  }

  // ---- blanks, signs and comment marks ----

  lemma BlankRun(q: char, s: string, p: nat)
    requires p < |s| && BlankChar(s[p])
    ensures Skip(q, s, p) == Skip(q, s, p + 1)
  {
    hide WordToken;
    assert Lex(q, s, p).value.typ == Blank && Lex(q, s, p).value.curr == BlankEnd(s, p + 1);
    if p + 1 < |s| && IsBlank(s[p + 1]) {
      assert Lex(q, s, p + 1).value.typ == Blank && Lex(q, s, p + 1).value.curr == BlankEnd(s, p + 2);
    }
  }

  /** Any number of the six blanks is passed over. */
  lemma {:induction false} BlanksSkip(q: char, s: string, p: nat, blanks: string)
    requires At(s, p, blanks) && IsBlanks(blanks)
    ensures Skip(q, s, p) == Skip(q, s, p + |blanks|)
    decreases |blanks|
  {
    hide Skip;
    if blanks != "" {
      assert blanks == [blanks[0]] + blanks[1..];
      AtSplit(s, p, [blanks[0]], blanks[1..]);
      AtChars(s, p, [blanks[0]]);
      BlankRun(q, s, p);
      BlanksSkip(q, s, p + 1, blanks[1..]);
    }
  }

  lemma SignClass(c: char)
    requires SignChar(c)
    ensures IsSign(c) && !IsBlank(c) && c != '-' && c != '#' && c != '/' && c != '`' && c != '[' && c != '"'
    ensures c != '\'' && c != '+' && c != '*' && c != '%'
  {
  }

  lemma SignOnly(q: char, s: string, p: nat)
    requires p < |s|
    requires var c := s[p];
             && IsSign(c) && !IsBlank(c) && c != '-' && c != '#' && c != '/' && c != '`' && c != '[' && c != '"'
             && c != '\'' && c != '+' && c != '*' && c != '%'
    ensures Lex(q, s, p) == Ok(Token(Sign, "", [s[p]], p, p + 1, p + 1))
    ensures Skip(q, s, p) == Lex(q, s, p)
  {
    hide WordToken, IsSign, IsBlank;
  }

  /** Each sign is a token of its own. */
  lemma SignLex(q: char, s: string, p: nat)
    requires p < |s| && SignChar(s[p])
    ensures Lex(q, s, p) == Ok(Token(Sign, "", [s[p]], p, p + 1, p + 1))
    ensures Skip(q, s, p) == Lex(q, s, p)
  {
    var c := s[p];
    SignClass(c);
    hide Lex, Skip, SignChar, IsSign, IsBlank;
    SignOnly(q, s, p);
  }

  /** So are a dot without a digit behind it and a bracket that quotes nothing. */
  lemma DotLex(q: char, s: string, p: nat)
    requires p + 1 < |s| && s[p] == '.' && !Digit(s[p + 1])
    ensures Lex(q, s, p) == Ok(Token(Sign, "", ".", p, p + 1, p + 1))
    ensures Skip(q, s, p) == Lex(q, s, p)
  {
    hide WordFrom;
  }

  lemma BracketLex(q: char, s: string, p: nat)
    requires p < |s| && s[p] == '[' && q != '['
    ensures Lex(q, s, p) == Ok(Token(Sign, "", "[", p, p + 1, p + 1))
  {
    hide WordToken;
  }

  /** The arithmetic signs; two of them may also begin a comment. */
  lemma ArithLex(q: char, s: string, p: nat)
    requires p < |s| && (s[p] in "+*%" || (s[p] in "-/" && p + 1 < |s|))
    requires s[p] == '-' ==> s[p + 1] != '-'
    requires s[p] == '/' ==> s[p + 1] !in "/*"
    ensures Lex(q, s, p) == Skip(q, s, p) == Ok(Token(Arith, "", [s[p]], p, p + 1, p + 1))
  {
  }

  /** Two dashes, two slashes or a hash begin a comment up to the end of the line, a
      slash and a star one up to its closing mark. */
  lemma CommentLex(q: char, s: string, p: nat)
    requires p < |s|
    ensures At(s, p, "--") ==> Lex(q, s, p) == Ok(LineComment(s, p + 2, "--"))
    ensures At(s, p, "//") ==> Lex(q, s, p) == Ok(LineComment(s, p + 2, "//"))
    ensures At(s, p, "#") ==> Lex(q, s, p) == Ok(LineComment(s, p + 1, "#"))
    ensures At(s, p, "/*") ==> Lex(q, s, p) == Ok(BlockComment(s, p + 2))
  {
    hide WordToken, LineComment, BlockComment;
    if At(s, p, "--") {
      AtChars(s, p, "--");
    }
    if At(s, p, "//") {
      AtChars(s, p, "//");
    }
    if At(s, p, "#") {
      AtChars(s, p, "#");
    }
    if At(s, p, "/*") {
      AtChars(s, p, "/*");
    }
  }

  /** Any other character is an empty name that makes no progress. */
  lemma UnknownLex(q: char, s: string, p: nat)
    requires p < |s| && !NameChar(s[p]) && !Digit(s[p]) && !BlankChar(s[p]) && !SignChar(s[p])
    requires s[p] !in "-#/`[\"'+*%."
    ensures Lex(q, s, p) == Ok(Token(Id, "", [s[p]], p, p, p))
  {
    UnknownClass(s[p]);
    hide NameChar, Digit, BlankChar, SignChar, IsDigit, IsBlank, IsSign, IsLetter;
  }

  lemma UnknownClass(c: char)
    requires !NameChar(c) && !Digit(c) && !BlankChar(c) && !SignChar(c) && c !in "-#/`[\"'+*%."
    ensures !IsLetter(c) && !IsDigit(c) && !IsBlank(c) && !IsSign(c)
    ensures c != '-' && c != '#' && c != '/' && c != '`' && c != '[' && c != '"'
    ensures c != '\'' && c != '+' && c != '*' && c != '%' && c != '.'
  {
    DigitClass(c);
    BlankClass(c);
    NotSign(c);
    var marks := "-#/`[\"'+*%.";
    assert marks[0] == '-' && marks[1] == '#' && marks[2] == '/' && marks[3] == '`' && marks[4] == '[';
    assert marks[5] == '"' && marks[6] == '\'' && marks[7] == '+' && marks[8] == '*' && marks[9] == '%';
    assert marks[10] == '.';
  }

  lemma DigitClass(c: char)
    ensures IsDigit(c) <==> Digit(c)
  {
    var digits := "0123456789";
    if IsDigit(c) {
      assert digits[c as int - '0' as int] == c;
    }
  }

  lemma BlankClass(c: char)
    ensures IsBlank(c) <==> BlankChar(c)
  {
    var blanks := " \t\n\r\U{000B}\U{000C}";
    assert blanks[0] == ' ' && blanks[1] == '\t' && blanks[2] == '\n' && blanks[3] == '\r';
    assert blanks[4] == '\U{000B}' && blanks[5] == '\U{000C}';
  }

  lemma NotSign(c: char)
    requires !SignChar(c)
    ensures !IsSign(c)
  {
    var signs := "<>=!:,;()]@?|^&~";
    assert signs[0] == '<' && signs[1] == '>' && signs[2] == '=' && signs[3] == '!' && signs[4] == ':';
    assert signs[5] == ',' && signs[6] == ';' && signs[7] == '(' && signs[8] == ')' && signs[9] == ']';
    assert signs[10] == '@' && signs[11] == '?' && signs[12] == '|' && signs[13] == '^' && signs[14] == '&';
    assert signs[15] == '~';
  }

  /** Behind the last character there is only the end of the text. */
  lemma EndLex(q: char, s: string)
    ensures Lex(q, s, |s|) == Skip(q, s, |s|) == Ok(Token(Eos, "", "", |s|, |s|, |s|))
  {
  }
}
