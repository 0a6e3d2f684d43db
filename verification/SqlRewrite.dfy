/** From text to text: what a parsed statement is rewritten to, stated on the
    source text and the visitors alone. */
module SqlRewriting {
  import opened Wrappers
  import opened SqlText
  import opened SqlGrammar
  import opened SqlTree
  import opened SqlObjects
  import opened MysqlParsing

  /** The rendering of a replaced item: its value as SQL, and for a select
      expression its source text as quoted alias. */
  ghost function ItemText(sql: string, q: char, kind: Kind, start: nat, end: nat, v: SqlObjects.Value): Text {
    var text :- ValueText(v);
    Ok(if kind == LimitClause then text else text + AliasSuffix(Slice(sql, start, end), q))
  }

  ghost function ItemNode(sql: string, q: char, visit: Visitor, kind: Kind, start: nat, end: nat): Node {
    var v := visit(kind, start, end);
    Node(start, end, if v.Some? then Some(ItemText(sql, q, kind, start, end, v.value)) else None, [])
  }

  ghost function ExprNodes(sql: string, q: char, visit: Visitor, exprs: seq<Expr>): (r: seq<Node>)
    ensures |r| == |exprs|
    ensures forall i | 0 <= i < |exprs| ::
              r[i] == ItemNode(sql, q, visit, KindOf(exprs[i]), exprs[i].start, exprs[i].end)
  {
    seq(|exprs|, i requires 0 <= i < |exprs| =>
      ItemNode(sql, q, visit, KindOf(exprs[i]), exprs[i].start, exprs[i].end))
  }

  /** The spans of a statement: its expressions, then its LIMIT clause. */
  ghost function ChildNodes(sql: string, q: char, visit: Visitor, x: Select): seq<Node> {
    ExprNodes(sql, q, visit, x.exprs)
    + match x.limit
      case None => []
      case Some(l) => [ItemNode(sql, q, visit, LimitClause, l.start, l.end)]
  }

  /** The statement's text with every replaced child swapped for its rendering;
      a statement with a LIMIT clause may itself be replaced. */
  ghost function RewrittenText(sql: string, q: char, visit: Visitor, x: Select): Text {
    var v := if x.limit.Some? then visit(SelectStatement, x.start, x.end) else None;
    Composed(sql, Node(x.start, x.end, if v.Some? then Some(ValueText(v.value)) else None,
                       ChildNodes(sql, q, visit, x)))
  }

  /** The column names of a statement: the source texts of its expressions. Where
      the statement itself is replaced, an expression with a value has its rendering
      for a name. */
  ghost function ColumnTexts(sql: string, q: char, visit: Visitor, x: Select): (r: seq<Text>)
    requires WellSpanned(sql, x)
    ensures |r| == |x.exprs|
  {
    var whole := x.limit.Some? && visit(SelectStatement, x.start, x.end).Some?;
    seq(|x.exprs|, i requires 0 <= i < |x.exprs| =>
      var e := x.exprs[i];
      var v := visit(KindOf(e), e.start, e.end);
      if whole && v.Some? then ItemText(sql, q, KindOf(e), e.start, e.end, v.value)
      else Ok(sql[e.start..e.end]))
  }

  /** The names the values of a row are looked up by: the source texts, where
      rendering an expression does not throw. */
  ghost function KeyTexts(sql: string, q: char, visit: Visitor, x: Select): (r: seq<Text>)
    requires WellSpanned(sql, x)
    ensures |r| == |x.exprs|
  {
    seq(|x.exprs|, i requires 0 <= i < |x.exprs| =>
      var name := ColumnTexts(sql, q, visit, x)[i];
      if name.Ok? then Ok(sql[x.exprs[i].start..x.exprs[i].end]) else name)
  }

  /** A statement as it is sent, the names of its result columns, and those asked for
      with each row of the answer. */
  datatype Query = Query(text: Text, columns: seq<Text>, keys: seq<seq<Text>>)

  /** What running a statement gives; nothing is asked of a text that is refused. */
  ghost predicate Runs(sql: string, q: char, visit: Visitor, x: Select, rows: nat, r: Query) {
    && WellSpanned(sql, x)
    && r.text == RewrittenText(sql, q, visit, x) && r.text != Err(OutOfOrder)
    && (r.text.Ok? && q != '@' ==>
          && r.columns == ColumnTexts(sql, q, visit, x)
          && |r.keys| == rows && forall k | 0 <= k < rows :: r.keys[k] == KeyTexts(sql, q, visit, x))
  }

  // ---- nesting ----

  lemma {:induction false} NestedFlat(nodes: seq<Node>, lo: nat, hi: nat)
    requires lo <= hi
    requires forall i | 0 <= i < |nodes| :: lo <= nodes[i].start <= nodes[i].end <= hi && nodes[i].children == []
    requires forall i, j | 0 <= i < j < |nodes| :: nodes[i].end <= nodes[j].start
    ensures Nested(nodes, lo, hi)
    decreases |nodes|
  {
    if nodes != [] {
      assert forall i | 0 <= i < |nodes[1..]| :: nodes[1..][i] == nodes[i + 1];
      NestedFlat(nodes[1..], nodes[0].end, hi);
    }
  }

  /** The spans the parser records nest. */
  lemma ParsedSpansNest(sql: string, q: char, visit: Visitor, x: Select)
    requires WellSpanned(sql, x)
    ensures Nested(ChildNodes(sql, q, visit, x), x.start, x.end)
  {
    NestedFlat(ChildNodes(sql, q, visit, x), x.start, x.end);
  }

  // ---- the objects of a statement ----

  lemma StatementWorld(st: Statement, sql: string, q: char, visit: Visitor)
    requires st.Valid(sql, q, visit)
    ensures Closed(st.World()) && Below(st.node.children, st.World(), 1) && st.node in st.World()
    ensures forall i | 0 <= i < |st.node.children| :: st.node.children[i].children == []
    ensures Distinct(st.node.children)
  {
    forall i | 0 <= i < |st.node.children|
      ensures st.node.children[i] in st.World() && st.node.children[i].height == 0
              && st.node.children[i].children == []
    {
      if i < |st.exprs| {
        assert st.node.children[i] == st.exprs[i];
      }
    }
    assert forall o | o in st.World() && o != st.node :: o.children == [];
  }

  lemma {:induction false} OutermostOfLeaves(cs: seq<SqlObject>, world: set<SqlObject>, h: nat)
    requires Closed(world) && Below(cs, world, h) && Distinct(cs)
    requires forall i | 0 <= i < |cs| :: cs[i].children == []
    ensures Distinct(Outermost(cs, world, h))
    ensures forall i | 0 <= i < |Outermost(cs, world, h)| :: Outermost(cs, world, h)[i] in cs
    decreases |cs|
  {
    if cs != [] {
      OutermostOfLeaves(cs[1..], world, h);
      assert Outermost(cs[0].children, world, cs[0].height) == [];
    }
  }

  lemma {:induction false} NodesOfLeaves(cs: seq<SqlObject>, world: set<SqlObject>, h: nat, nodes: seq<Node>)
    requires Closed(world) && Below(cs, world, h) && |nodes| == |cs|
    requires forall i | 0 <= i < |cs| ::
               cs[i].children == [] && nodes[i].start == cs[i].start && nodes[i].end == cs[i].end
               && nodes[i].text == (if cs[i].value.Some? then Some(cs[i].ReplacementText()) else None)
               && nodes[i].children == []
    ensures NodesOf(cs, world, h) == nodes
    decreases |cs|
  {
    if cs != [] {
      NodesOfLeaves(cs[1..], world, h, nodes[1..]);
      assert NodesOf(cs[0].children, world, cs[0].height) == [];
      assert nodes == [nodes[0]] + nodes[1..];
    }
  }

  lemma StatementNodes(st: Statement, sql: string, q: char, visit: Visitor)
    requires st.Valid(sql, q, visit)
    requires Closed(st.World()) && Below(st.node.children, st.World(), 1)
    ensures NodesOf(st.node.children, st.World(), 1) == ChildNodes(sql, q, visit, st.select)
  {
    var nodes, cs := ChildNodes(sql, q, visit, st.select), st.node.children;
    forall i | 0 <= i < |cs|
      ensures cs[i].children == [] && nodes[i].start == cs[i].start && nodes[i].end == cs[i].end
              && nodes[i].text == (if cs[i].value.Some? then Some(cs[i].ReplacementText()) else None)
              && nodes[i].children == []
    {
      if i < |st.exprs| {
        assert cs[i] == st.exprs[i];
      }
    }
    NodesOfLeaves(cs, st.World(), 1, nodes);
  }

  // ---- the end-to-end statement ----

  /** Renders a parsed statement and asks its expressions for their names: the text
      is its source with exactly the replaced children swapped for their renderings. */
  method Render(st: Statement, sql: string, q: char, visit: Visitor, rows: nat) returns (r: Query)
    requires st.Valid(sql, q, visit) && WellSpanned(sql, st.select)
    modifies st.World()
    ensures Runs(sql, q, visit, st.select, rows, r)
  {
    hide Outermost, Distinct, Closed, ColumnTexts, KeyTexts, ColumnNames, LaterNames;
    hide RewrittenText, AllReplaced, Below, WellSpanned;
    ghost var world, names, later :=
      st.World(), ColumnNames(st.node.value.Some?, st.exprs), LaterNames(st.node.value.Some?, st.exprs);
    StatementWorld(st, sql, q, visit);
    OutermostOfLeaves(st.node.children, world, 1);
    TextOfStatement(st, sql, q, visit);
    ParsedColumns(st, sql, q, visit);
    ghost var outer;
    var text, columns, keys;
    text, columns, keys, outer := QueryAndColumns(st.node, st.exprs, rows, world);
    assert text.Ok? && q != '@' ==> columns == names;
    if text.Ok? && q != '@' {
      forall k | 0 <= k < rows ensures keys[k] == later {
      }
    }
    r := Query(text, columns, keys);
  }

  /** The objects' text is that of the spans. */
  lemma TextOfStatement(st: Statement, sql: string, q: char, visit: Visitor)
    requires st.Valid(sql, q, visit) && WellSpanned(sql, st.select)
    requires Closed(st.World()) && Below(st.node.children, st.World(), 1)
    ensures var outer := Outermost(st.node.children, st.World(), 1);
            && AllReplaced(outer)
            && RewrittenText(sql, q, visit, st.select)
               == (if st.node.value.Some? then st.node.ReplacementText() else st.node.TextFrom(outer))
            && RewrittenText(sql, q, visit, st.select) != Err(OutOfOrder)
  {
    hide Splice, Outermost, Nested, Distinct;
    OutermostBelow(st.node.children, st.World(), 1);
    if st.node.value.None? {
      StatementNodes(st, sql, q, visit);
      ParsedSpansNest(sql, q, visit, st.select);
      StatementText(st.node, st.World());
    }
  }

  /** The names asked for are those of the grammar's spans. */
  lemma ParsedColumns(st: Statement, sql: string, q: char, visit: Visitor)
    requires st.Valid(sql, q, visit) && WellSpanned(sql, st.select)
    ensures forall i | 0 <= i < |st.exprs| :: FreshExpr(st.exprs[i]) && st.exprs[i] in st.node.children
    ensures q != '@' ==> forall i | 0 <= i < |st.exprs| :: NamedBySource(st.exprs[i])
    ensures ColumnNames(st.node.value.Some?, st.exprs) == ColumnTexts(sql, q, visit, st.select)
    ensures LaterNames(st.node.value.Some?, st.exprs) == KeyTexts(sql, q, visit, st.select)
  {
    forall i | 0 <= i < |st.exprs|
      ensures FreshExpr(st.exprs[i]) && st.exprs[i] in st.node.children
      ensures q != '@' ==> NamedBySource(st.exprs[i])
      ensures ColumnName(st.node.value.Some?, st.exprs[i]) == ColumnTexts(sql, q, visit, st.select)[i]
      ensures st.exprs[i].SourceText() == sql[st.select.exprs[i].start..st.select.exprs[i].end]
    {
      var e := st.select.exprs[i];
      assert st.node.children[i] == st.exprs[i];
      assert e in st.select.exprs && NameInside(sql, e);
    }
  }

  /** Parses a text and runs its statements. Whatever the visitors replace,
      rendering is refused only for a value that has no SQL text, each result is
      the composition over that statement's spans, the column names are those of the
      source, and the spans come from the grammar of the text. `rows` says how many
      rows the answer to each statement has. */
  method Rewrite(h: ParseHelper, sql: string, rows: nat -> nat) returns (r: Result<seq<Query>, SqlError>)
    requires h.lexer.idQuote == h.ctx.quotes
    modifies h.lexer
    ensures r.Err? ==> SqlGrammar.Parse(h.ctx, sql) == Err(r.error)
    ensures r.Ok? ==>
              && SqlGrammar.Parse(h.ctx, sql).Ok?
              && var xs := SqlGrammar.Parse(h.ctx, sql).value;
                 |r.value| == |xs| && forall i | 0 <= i < |xs| ::
                   Runs(sql, h.ctx.quotes, h.visit, xs[i], rows(i), r.value[i])
  {
    ghost var objs;
    var stmts: seq<Statement>;
    stmts, objs :- h.Parse(sql);
    ParsedTextIsCovered(h.ctx, sql, 0);
    var queries := RenderAll(stmts, objs, sql, h.ctx.quotes, h.visit, rows);
    r := Ok(queries);
  }

  /** Renders statements that share no objects. */
  method RenderAll(stmts: seq<Statement>, ghost objs: set<SqlObject>, sql: string, q: char, visit: Visitor,
                   rows: nat -> nat)
      returns (queries: seq<Query>)
    requires Sound(stmts, objs, sql, q, visit)
    requires forall i | 0 <= i < |stmts| :: WellSpanned(sql, stmts[i].select)
    modifies objs
    ensures |queries| == |stmts|
    ensures forall i | 0 <= i < |stmts| :: Runs(sql, q, visit, stmts[i].select, rows(i), queries[i])
  {
    hide Runs;
    queries := [];
    for i := 0 to |stmts|
      invariant |queries| == i
      invariant forall j | i <= j < |stmts| :: stmts[j].World() <= objs && stmts[j].Valid(sql, q, visit)
      invariant forall j | 0 <= j < i :: Runs(sql, q, visit, stmts[j].select, rows(j), queries[j])
    {
      assert forall j | i < j < |stmts| :: stmts[i].World() !! stmts[j].World();
      var query := Render(stmts[i], sql, q, visit, rows(i));
      queries := queries + [query];
    }
  }

  /** Without replacements every statement is rendered as its exact source. */
  lemma UnreplacedStatement(sql: string, q: char, visit: Visitor, x: Select)
    requires WellSpanned(sql, x)
    requires forall k, a, b :: visit(k, a, b) == None
    ensures RewrittenText(sql, q, visit, x) == Ok(sql[x.start..x.end])
  {
    var nodes := ChildNodes(sql, q, visit, x);
    ParsedSpansNest(sql, q, visit, x);
    SpliceComposes(sql, x.start, x.end, nodes);
    FlattenNothing(nodes);
  }

  lemma {:induction false} FlattenNothing(nodes: seq<Node>)
    requires forall i | 0 <= i < |nodes| :: nodes[i].text == None && nodes[i].children == []
    ensures Flatten(nodes) == []
    decreases |nodes|
  {
    if nodes != [] {
      FlattenNothing(nodes[1..]);
      assert Flatten(nodes[0].children) == [];
    }
  }
}
