/** Rewritten statements written out: which text takes the place of a replaced
    variable, clause or statement, and that all text around it stays. */
module SqlRewriteTexts {
  import opened Wrappers
  import opened SqlText
  import opened SqlGrammar
  import opened SqlQuoting
  import opened SqlTree
  import opened SqlObjects
  import opened MysqlParsing
  import opened SqlRewriting

  /** The texts of values. Numbers and truth values stand as they are, timestamps and
      strings in single quotes; a string without a single quote is not changed between
      them, and one that is no part of a pair is doubled. */
  lemma ValueTexts(v: SqlObjects.Value, text: string)
    ensures v == Boolean(true) ==> ValueText(v) == Ok("true")
    ensures v == Boolean(false) ==> ValueText(v) == Ok("false")
    ensures v == Number(text, false) ==> ValueText(v) == Ok(text)
    ensures v == Number(text, true) ==> ValueText(v) == Err(NotANumber)
    ensures v == BigInteger(text) ==> ValueText(v) == Err(BigIntRefused)
    ensures v == Timestamp(text) ==> ValueText(v) == Ok("'" + text + "'")
    ensures v == Chars(text) && '\'' !in text ==> ValueText(v) == Ok("'" + text + "'")
    ensures v == Chars("it's") ==> ValueText(v) == Ok("'it''s'")
  {
    if '\'' !in text {
      NoQuoteIn(text, '\'');
    }
    OneQuote();
    assert "'" + "it''s" + "'" == "'it''s'";
  }

  lemma NoQuoteIn(text: string, q: char)
    requires q !in text
    ensures Escaped(text, q) == text
  {
    EscapedPlain(text, "", q);
    assert text + "" == text;
  }

  lemma OneQuote()
    ensures Escaped("it's", '\'') == "it''s"
  {
    EscapedPlain("it", "'s", '\'');
    assert "it" + "'s" == "it's" && "'s"[1..] == "s";
    NoQuoteIn("s", '\'');
  }

  /** Every expression and the clause are left alone but for the k-th expression. */
  ghost predicate OnlyExpr(visit: Visitor, x: Select, k: nat) {
    && k < |x.exprs|
    && (forall i | 0 <= i < |x.exprs| && i != k ::
          visit(KindOf(x.exprs[i]), x.exprs[i].start, x.exprs[i].end) == None)
    && (x.limit.Some? ==> visit(LimitClause, x.limit.value.start, x.limit.value.end) == None)
    && (x.limit.Some? ==> visit(SelectStatement, x.start, x.end) == None)
  }

  ghost predicate OnlyLimit(visit: Visitor, x: Select) {
    && x.limit.Some?
    && (forall i | 0 <= i < |x.exprs| :: visit(KindOf(x.exprs[i]), x.exprs[i].start, x.exprs[i].end) == None)
    && visit(SelectStatement, x.start, x.end) == None
  }

  lemma {:induction false} FlattenOnly(nodes: seq<Node>, k: nat)
    requires k < |nodes| && nodes[k].text.Some?
    requires forall i | 0 <= i < |nodes| && i != k :: nodes[i].text == None
    requires forall i | 0 <= i < |nodes| :: nodes[i].children == []
    ensures Flatten(nodes) == [Piece(nodes[k].start, nodes[k].end, nodes[k].text.value)]
    decreases |nodes|
  {
    if k == 0 {
      FlattenNothing(nodes[1..]);
    } else {
      FlattenOnly(nodes[1..], k - 1);
      assert Flatten(nodes[0].children) == [];
    }
  }

  /** A rendering between what stands before and behind it. */
  function Around(before: string, text: Text, behind: string): Text {
    if text.Ok? then Ok(before + text.value + behind) else text
  }

  lemma SpliceOnly(sql: string, start: nat, end: nat, p: Piece)
    requires start <= p.start <= p.end <= end <= |sql|
    ensures Splice(sql, start, end, [p]) == Around(sql[start..p.start], p.text, sql[p.end..end])
  {
    assert [p][1..] == [];
    assert Slice(sql, p.end, end) == sql[p.end..end];
    assert Splice(sql, p.end, end, []) == Ok(sql[p.end..end]);
    assert Slice(sql, start, p.start) == sql[start..p.start];
  }

  /** One replaced child: its rendering stands where its source stood. */
  lemma OneReplaced(sql: string, q: char, visit: Visitor, x: Select, k: nat)
    requires WellSpanned(sql, x)
    requires var nodes := ChildNodes(sql, q, visit, x);
             && k < |nodes| && nodes[k].text.Some? && (forall i | 0 <= i < |nodes| && i != k :: nodes[i].text == None)
    requires x.limit.Some? ==> visit(SelectStatement, x.start, x.end) == None
    ensures var n := ChildNodes(sql, q, visit, x)[k];
            && x.start <= n.start <= n.end <= x.end <= |sql|
            && RewrittenText(sql, q, visit, x) == Around(sql[x.start..n.start], n.text.value, sql[n.end..x.end])
  {
    hide Splice;
    var nodes := ChildNodes(sql, q, visit, x);
    ParsedSpansNest(sql, q, visit, x);
    SpliceComposes(sql, x.start, x.end, nodes);
    FlattenOnly(nodes, k);
    var n := nodes[k];
    SpliceOnly(sql, x.start, x.end, Piece(n.start, n.end, n.text.value));
  }

  /** A replaced variable: its value stands in its place, named by its own source text
      in identifier quotes, and everything else is the source. */
  lemma ExprReplaced(sql: string, q: char, visit: Visitor, x: Select, k: nat, v: SqlObjects.Value)
    requires WellSpanned(sql, x) && q != '@' && OnlyExpr(visit, x, k)
    requires visit(KindOf(x.exprs[k]), x.exprs[k].start, x.exprs[k].end) == Some(v)
    ensures var e := x.exprs[k];
            && x.start <= e.start < e.end <= x.end <= |sql|
            && RewrittenText(sql, q, visit, x)
               == Around(sql[x.start..e.start], ValueText(v),
                         " as " + [q] + Escaped(sql[e.start..e.end], q) + [q] + sql[e.end..x.end])
    ensures var source := sql[x.exprs[k].start..x.exprs[k].end]; q !in source ==> Escaped(source, q) == source
  {
    hide RewrittenText, ChildNodes, Around, ValueText, Escaped, ItemText, WellSpanned;
    var e := x.exprs[k];
    ExprSpan(sql, x, k);
    OnlyNode(sql, q, visit, x, k);
    OneReplaced(sql, q, visit, x, k);
    var source := sql[e.start..e.end];
    NamedText(sql, q, KindOf(e), e.start, e.end, v);
    AroundMore(sql[x.start..e.start], ValueText(v), " as " + [q] + Escaped(source, q) + [q], sql[e.end..x.end]);
    if q !in source {
      NoQuoteIn(source, q);
    }
  }

  lemma ExprSpan(sql: string, x: Select, k: nat)
    requires WellSpanned(sql, x) && k < |x.exprs|
    ensures var e := x.exprs[k]; x.start <= e.start < e.end <= x.end <= |sql| && sql[e.start] == '@'
  {
    assert x.exprs[k] in x.exprs;
  }

  lemma OnlyNode(sql: string, q: char, visit: Visitor, x: Select, k: nat)
    requires OnlyExpr(visit, x, k) && visit(KindOf(x.exprs[k]), x.exprs[k].start, x.exprs[k].end).Some?
    ensures var (nodes, e) := (ChildNodes(sql, q, visit, x), x.exprs[k]);
            var v := visit(KindOf(e), e.start, e.end).value;
            && k < |nodes| && nodes[k] == Node(e.start, e.end, Some(ItemText(sql, q, KindOf(e), e.start, e.end, v)), [])
            && (forall i | 0 <= i < |nodes| && i != k :: nodes[i].text == None)
  {
    hide ItemText;
  }

  /** An expression's rendering is its value and the name. */
  lemma NamedText(sql: string, q: char, kind: Kind, start: nat, end: nat, v: SqlObjects.Value)
    requires start < end <= |sql| && sql[start] == '@' && q != '@' && kind != LimitClause
    ensures ItemText(sql, q, kind, start, end, v)
            == Around("", ValueText(v), " as " + [q] + Escaped(sql[start..end], q) + [q])
  {
    hide ValueText, Escaped;
    var source := sql[start..end];
    assert Slice(sql, start, end) == source && source[0] == '@';
    var name := Escaped(source, q);
    assert " as " + ([q] + name + [q]) == " as " + [q] + name + [q];
    if ValueText(v).Ok? {
      assert "" + ValueText(v).value == ValueText(v).value;
    }
  }

  lemma AroundMore(a: string, text: Text, b: string, c: string)
    ensures Around(a, Around("", text, b), c) == Around(a, text, b + c)
  {
    if text.Ok? {
      assert a + ("" + text.value + b) + c == a + text.value + (b + c);
    }
  }

  /** A replaced LIMIT clause has no name. */
  lemma LimitReplaced(sql: string, q: char, visit: Visitor, x: Select, v: SqlObjects.Value)
    requires WellSpanned(sql, x) && OnlyLimit(visit, x)
    requires visit(LimitClause, x.limit.value.start, x.limit.value.end) == Some(v)
    ensures var l := x.limit.value;
            && x.start <= l.start < l.end <= x.end <= |sql|
            && RewrittenText(sql, q, visit, x) == Around(sql[x.start..l.start], ValueText(v), sql[l.end..x.end])
  {
    OneReplaced(sql, q, visit, x, |x.exprs|);
  }

  /** A statement is replaced as a whole only if it has a LIMIT clause; nothing of its
      source is left then, and no name is given. */
  lemma StatementReplaced(sql: string, q: char, visit: Visitor, x: Select, v: SqlObjects.Value)
    requires x.limit.Some? && visit(SelectStatement, x.start, x.end) == Some(v)
    ensures RewrittenText(sql, q, visit, x) == ValueText(v)
  {
  }
}
