/** The mutable SQL objects: rendering a tree whose visitors have set
    replacement values, with the alias and cache bookkeeping it does. */
module SqlObjects {
  import opened Wrappers
  import opened SqlQuoting
  import opened SqlTree

  datatype Kind = SelectStatement | LimitClause | SysVarExpr | UserVarExpr

  /** A replacement value. Texts of numbers and timestamps come from the runtime. */
  datatype Value =
    | Number(text: string, nan: bool)
    | Boolean(b: bool)
    | BigInteger(digits: string)
    | Timestamp(formatted: string)
    | Chars(chars: string)

  /** The SQL literal for a value. */
  function ValueText(v: Value): Text {
    match v
    case Number(text, nan) => if nan then Err(NotANumber) else Ok(text)
    case Boolean(b) => Ok(if b then "true" else "false")
    case BigInteger(_) => Err(BigIntRefused)
    case Timestamp(t) => Ok("'" + t + "'")
    case Chars(s) => Ok(Literal(s))
  }

  /** The name a rewritten expression is given: its source text, or what is
      between the quotes when that text starts with the identifier quote. */
  function AliasName(a: string, q: char): string {
    if a != "" && a[0] == q then Slice(a, 1, |a| - 1) else a
  }

  /** What is appended for that name. When the text starts with the quote, the
      closing quote is lost with the right part of the escaped range. */
  function AliasSuffix(a: string, q: char): string {
    if a != "" && a[0] == q then " as " + [q] + Escaped(Slice(a, 1, |a| - 1), q) else " as " + AliasText(a, q)
  }

  class SqlObject {
    const kind: Kind
    const source: string
    const quotes: char
    var start: nat
    var end: nat
    var value: Option<Value>
    var children: seq<SqlObject>
    var inSelect: bool
    var rewritten: bool
    var alias: string
    var cache: string
    /** Bounds the depth of the tree below this object. */
    ghost const height: nat

    constructor (kind: Kind, source: string, quotes: char, ghost height: nat)
      ensures this.kind == kind && this.source == source && this.quotes == quotes && this.height == height
      ensures start == end == 0 && value == None && children == [] && !inSelect
      ensures !rewritten && alias == "" && cache == ""
    {
      this.kind, this.source, this.quotes, this.height := kind, source, quotes, height;
      start, end, value, children, inSelect := 0, 0, None, [], false;
      rewritten, alias, cache := false, "", "";
    }

    predicate IsExpr() {
      kind == SysVarExpr || kind == UserVarExpr
    }

    method SetRange(start: nat, end: nat)
      modifies this`start, this`end, this`cache
      ensures this.start == start && this.end == end && cache == ""
    {
      this.start, this.end, cache := start, end, "";
    }

    method AddChild(ch: SqlObject)
      requires ch != this
      modifies this`children, ch`inSelect
      ensures children == old(children) + [ch] && ch.inSelect == (kind == SelectStatement)
    {
      children := children + [ch];
      ch.inSelect := kind == SelectStatement;
    }

    /** Whether rendering this expression, aliased `alias`, will name it. */
    predicate UnnamedAs(alias: string)
      reads this`inSelect
    {
      IsExpr() && inSelect && alias == ""
    }

    /** The source text of this object. */
    function SourceText(): string
      reads this`start, this`end
    {
      Slice(source, start, end)
    }

    /** The rendering of this object, aliased `alias`, once it is rewritten to `sql`. */
    function NamedAs(alias: string, sql: string): string
      reads this`start, this`end, this`inSelect
    {
      if UnnamedAs(alias) then sql + AliasSuffix(SourceText(), quotes) else sql
    }

    /** The alias it has after that. */
    function AliasFrom(alias: string): string
      reads this`start, this`end, this`inSelect
    {
      if UnnamedAs(alias) then AliasName(SourceText(), quotes) else alias
    }

    /** The rendering of a replaced object. */
    function ReplacementText(): Text
      requires value.Some?
      reads this`start, this`end, this`inSelect, this`alias, this`value
    {
      var sql :- ValueText(value.value);
      Ok(NamedAs(alias, sql))
    }

    /** Appends the alias of a rewritten select expression and records it. */
    method AppendAlias(sql: string) returns (r: string)
      requires rewritten
      modifies this`alias
      ensures r == old(NamedAs(alias, sql)) && alias == old(AliasFrom(alias))
    {
      r := sql;
      if IsExpr() && rewritten && alias == "" && inSelect {
        var a := SourceText();
        var q := quotes;
        if a != "" && a[0] == q {
          var e := |a| - 1;
          var escaped := Escape(a, q, 1, e);
          assert a[..1] == [q];
          r := sql + " as " + escaped;
          assert r == sql + (" as " + [q] + Escaped(Slice(a, 1, e), q));
          a := Slice(a, 1, e);
        } else {
          var escaped := Escape(a, q, 0, -1);
          assert a[..0] + Escaped(Slice(a, 0, |a|), q) == Escaped(a, q) by {
            assert Slice(a, 0, |a|) == a;
          }
          r := sql + " as " + [q] + escaped + [q];
          assert r == sql + (" as " + AliasText(a, q));
        }
        alias := a;
      }
    }

    /** `toSql` of an object whose value is set. */
    method ReplacedSql() returns (r: Text)
      requires value.Some?
      modifies this`rewritten, this`alias
      ensures r == old(ReplacementText()) && rewritten
      ensures alias == if r.Ok? then old(AliasFrom(alias)) else old(alias)
    {
      rewritten := true;
      var sql: string;
      match value.value {
        case Number(text, nan) =>
          if nan {
            return Err(NotANumber);
          }
          sql := text;
        case Boolean(b) => sql := if b then "true" else "false";
        case BigInteger(_) => return Err(BigIntRefused);
        case Timestamp(t) => sql := "'" + t + "'";
        case Chars(s) =>
          sql := s;
          var i := IndexOf(s, '\'', 0);
          if i != -1 {
            sql := Escape(s, '\'', 0, -1);
          }
          sql := "'" + sql + "'";
          LiteralOf(s, i != -1);
      }
      var named := AppendAlias(sql);
      r := Ok(named);
    }

    /** Collects the outermost replaced objects among and below `exprs`. */
    static method CollectReplaces(exprs: seq<SqlObject>, found: seq<SqlObject>,
                                  ghost world: set<SqlObject>, ghost h: nat) returns (r: seq<SqlObject>)
      requires Closed(world) && Below(exprs, world, h)
      ensures r == found + Outermost(exprs, world, h)
      decreases h
    {
      hide Outermost;
      r := found;
      var i := 0;
      assert exprs[0..] == exprs;
      while i < |exprs|
        invariant 0 <= i <= |exprs| && Below(exprs[i..], world, h)
        invariant r + Outermost(exprs[i..], world, h) == found + Outermost(exprs, world, h)
      {
        var ch := exprs[i];
        ghost var before, first := r, OutermostOf(ch, world);
        OutermostStep(exprs, i, world, h);
        if ch.value.Some? {
          r := r + [ch];
        } else {
          r := CollectReplaces(ch.children, r, world, ch.height);
        }
        Regroup(before, first, Outermost(exprs[i + 1..], world, h));
        i := i + 1;
      }
      NoneBehind(exprs, world, h);
      assert r + [] == r;
    }

    /** The text of an object without a value, from the replacements found in it. */
    method SourceSql(found: seq<SqlObject>, ghost world: set<SqlObject>) returns (r: Text)
      requires this in world && Found(found, world) && this !in Members(found)
      modifies world`rewritten, world`alias
      ensures r == old(TextFrom(found))
      ensures Frame(world, Members(found) + {this})
      ensures r.Ok? ==> Marked(found)
      ensures !IsExpr() ==> alias == old(alias)
      ensures found == [] && !old(rewritten) ==> alias == old(alias) && !rewritten
    {
      if |found| > 0 {
        r := SpliceFound(found, world);
        if r.Err? {
          return;
        }
        rewritten := true;
      } else {
        r := Ok(Slice(source, start, end));
      }
      if rewritten {
        var named := AppendAlias(r.value);
        r := Ok(named);
      }
    }

    /** The text of this object: its own replacement, or its source with the
        outermost replaced spans swapped in. Select expressions that were
        rewritten without an alias are named after their source text. */
    method ToSql(ghost world: set<SqlObject>) returns (r: Text, ghost outer: seq<SqlObject>)
      requires this in world && Closed(world) && Distinct(Outermost(children, world, height))
      modifies world`rewritten, world`alias
      ensures value.Some? ==> outer == [this] && r == old(ReplacementText())
      ensures value.None? ==> outer == old(Outermost(children, world, height)) && old(AllReplaced(outer))
      ensures value.None? ==> r == old(TextFrom(outer))
      ensures Frame(world, Members(outer) + {this})
      ensures r.Ok? ==> Marked(outer)
      ensures value.Some? ==> alias == if r.Ok? then old(AliasFrom(alias)) else old(alias)
      ensures value.None? && !IsExpr() ==> alias == old(alias)
      ensures value.None? && outer == [] && !old(rewritten) ==> alias == old(alias) && !rewritten
    {
      if value.Some? {
        r := ReplacedSql();
        outer := [this];
      } else {
        var found := CollectReplaces(children, [], world, height);
        OuterFacts(world, found);
        outer := found;
        r := SourceSql(found, world);
      }
    }

    lemma OuterFacts(world: set<SqlObject>, found: seq<SqlObject>)
      requires this in world && Closed(world) && Distinct(Outermost(children, world, height))
      requires found == [] + Outermost(children, world, height)
      ensures found == Outermost(children, world, height) && Found(found, world) && this !in Members(found)
    {
      OutermostBelow(children, world, height);
    }

    /** The text of an object without a value whose outermost replaced objects
        are `found`. */
    ghost function TextFrom(found: seq<SqlObject>): Text
      requires AllReplaced(found)
      reads this, Members(found)
    {
      var sql :- Splice(source, start, end, Pieces(found));
      Ok(if found != [] || rewritten then NamedAs(alias, sql) else sql)
    }

    /** The `sql` getter: the last text is kept unless it was empty. */
    method Sql(ghost world: set<SqlObject>) returns (r: Text, ghost outer: seq<SqlObject>)
      requires this in world && Closed(world) && Distinct(Outermost(children, world, height))
      modifies world`rewritten, world`alias, this`cache
      ensures old(cache) != "" ==> r == Ok(old(cache)) && cache == old(cache) && outer == [] && Frame(world, {})
      ensures old(cache) == "" && value.Some? ==> outer == [this] && r == old(ReplacementText())
      ensures old(cache) == "" && value.None? ==>
                outer == old(Outermost(children, world, height)) && old(AllReplaced(outer)) && r == old(TextFrom(outer))
      ensures Frame(world, Members(outer) + {this})
      ensures r.Ok? ==> Marked(outer) && cache == r.value
      ensures r.Err? ==> cache == old(cache)
      ensures old(cache) == "" && value.Some? ==> alias == if r.Ok? then old(AliasFrom(alias)) else old(alias)
      ensures value.None? && !IsExpr() ==> alias == old(alias)
      ensures value.None? && outer == [] && !old(rewritten) ==> alias == old(alias) && !rewritten
    {
      if cache != "" {
        return Ok(cache), [];
      }
      r, outer := ToSql(world);
      if r.Ok? {
        cache := r.value;
      }
    }

    /** The `alias` getter: the recorded alias, or the SQL text. */
    method GetAlias(ghost world: set<SqlObject>) returns (r: Text)
      requires this in world && Closed(world) && Distinct(Outermost(children, world, height))
      modifies world`rewritten, world`alias, this`cache
      ensures old(alias) != "" ==> r == Ok(old(alias)) && Frame(world, {}) && cache == old(cache)
      ensures old(alias == "" && cache == "" && !rewritten && value == None && children == []) ==>
                r == Ok(old(SourceText())) && Frame(world, {this}) && alias == "" && !rewritten
      ensures old(alias == "" && cache == "" && value.Some?) ==>
                r == old(ReplacementText()) && (r.Ok? ==> alias == old(AliasFrom(alias))) && (r.Err? ==> alias == "")
      ensures old(alias == "" && cache != "") ==> r == Ok(old(cache)) && Frame(world, {})
      ensures old(alias) == "" ==> cache == if r.Ok? then r.value else old(cache)
      ensures old(children) == [] ==> Frame(world, {this})
    {
      if alias != "" {
        return Ok(alias);
      }
      ghost var outer;
      r, outer := Sql(world);
    }

    /** The loop that writes the source between the replacements. */
    method SpliceFound(found: seq<SqlObject>, ghost world: set<SqlObject>) returns (r: Text)
      requires Found(found, world)
      modifies world`rewritten, world`alias
      ensures r == old(Splice(source, start, end, Pieces(found)))
      ensures Frame(world, Members(found))
      ensures r.Ok? ==> Marked(found)
    {
      hide Splice, Pieces;
      var from: nat, sql, i := start, "", 0;
      ghost var pieces, done: set<SqlObject> := Pieces(found), {};
      ghost var goal := Splice(source, start, end, pieces);
      JoinedUnit(goal);
      assert pieces[0..] == pieces;
      while i < |found|
        invariant 0 <= i <= |found|
        invariant goal == Joined(Ok(sql), Splice(source, from, end, pieces[i..]))
        invariant done <= Members(found)
        invariant forall j | i <= j < |found| :: found[j] !in done
        invariant Frame(world, done)
        invariant forall j | 0 <= j < i :: found[j] in done && Mark(found[j])
      {
        var rep := found[i];
        assert pieces[i] == old(PieceOf(rep));
        SpliceAt(source, from, end, pieces, i);
        if from > rep.start {
          return Err(OutOfOrder);
        }
        var text := rep.ReplacedSql();
        done := done + {rep};
        if text.Err? {
          return text;
        }
        ghost var before := sql;
        sql := sql + Slice(source, from, rep.start);
        sql := sql + text.value;
        JoinedTurn(before, Slice(source, from, rep.start), text.value, Splice(source, rep.end, end, pieces[i + 1..]));
        from := rep.end;
        i := i + 1;
      }
      SpliceEnd(source, from, end, pieces);
      if from < end {
        sql := sql + Slice(source, from, end);
      } else {
        assert sql + "" == sql;
      }
      r := Ok(sql);
    }
  }

  /** Objects outside `cs` keep their alias and flag. */
  twostate predicate Frame(world: set<SqlObject>, cs: set<SqlObject>)
    reads world
  {
    forall o | o in world && o !in cs :: o.alias == old(o.alias) && o.rewritten == old(o.rewritten)
  }

  /** A replaced object after it has been rendered. */
  twostate predicate Mark(o: SqlObject)
    reads o
  {
    o.rewritten && o.alias == old(o.AliasFrom(o.alias))
  }

  twostate predicate Marked(cs: seq<SqlObject>)
    reads cs
  {
    forall i | 0 <= i < |cs| :: Mark(cs[i])
  }

  lemma LiteralOf(s: string, quoted: bool)
    requires quoted || '\'' !in s
    ensures (if quoted then s[..0] + Escaped(Slice(s, 0, |s|), '\'') else s) == Escaped(s, '\'')
    ensures "'" + Escaped(s, '\'') + "'" == Literal(s)
  {
    assert Slice(s, 0, |s|) == s && s[..0] == "" && s[0..] == s;
    if !quoted {
      EscapedAll(s, 0, '\'');
    }
  }

  lemma SpliceAt(source: string, from: nat, end: nat, pieces: seq<Piece>, i: nat)
    requires i < |pieces|
    ensures Splice(source, from, end, pieces[i..])
            == if from > pieces[i].start then Err(OutOfOrder)
               else if pieces[i].text.Err? then pieces[i].text
               else Joined(Ok(Slice(source, from, pieces[i].start) + pieces[i].text.value),
                           Splice(source, pieces[i].end, end, pieces[i + 1..]))
  {
    assert pieces[i..][0] == pieces[i] && pieces[i..][1..] == pieces[i + 1..];
  }

  lemma SpliceEnd(source: string, from: nat, end: nat, pieces: seq<Piece>)
    ensures Splice(source, from, end, pieces[|pieces|..]) == Ok(Slice(source, from, end))
  {
  }

  lemma JoinedUnit(t: Text)
    ensures Joined(Ok(""), t) == t
  {
    if t.Ok? {
      assert "" + t.value == t.value;
    }
  }

  lemma JoinedTurn(sql: string, gap: string, text: string, rest: Text)
    ensures Joined(Ok(sql), Joined(Ok(gap + text), rest)) == Joined(Ok(sql + gap + text), rest)
  {
    if rest.Ok? {
      assert sql + (gap + text + rest.value) == sql + gap + text + rest.value;
    }
  }

  // ---- trees of objects ----

  /** The children of every object of the world are in it, lower down. */
  ghost predicate Closed(world: set<SqlObject>)
    reads world`children
  {
    forall o, i | o in world && 0 <= i < |o.children| :: o.children[i] in world && o.children[i].height < o.height
  }

  ghost predicate Below(cs: seq<SqlObject>, world: set<SqlObject>, h: nat) {
    forall i | 0 <= i < |cs| :: cs[i] in world && cs[i].height < h
  }

  /** The outermost replaced objects among and below cs, left to right. */
  ghost function Outermost(cs: seq<SqlObject>, world: set<SqlObject>, h: nat): seq<SqlObject>
    requires Closed(world) && Below(cs, world, h)
    reads world`children, world`value
    decreases h, |cs|
  {
    if cs == [] then []
    else
      (if cs[0].value.Some? then [cs[0]] else Outermost(cs[0].children, world, cs[0].height))
      + Outermost(cs[1..], world, h)
  }

  /** What one object contributes: itself, or what is found below it. */
  ghost function OutermostOf(o: SqlObject, world: set<SqlObject>): seq<SqlObject>
    requires Closed(world) && o in world
    reads world`children, world`value
  {
    if o.value.Some? then [o] else Outermost(o.children, world, o.height)
  }

  lemma OutermostStep(cs: seq<SqlObject>, i: nat, world: set<SqlObject>, h: nat)
    requires Closed(world) && Below(cs, world, h) && i < |cs|
    ensures Below(cs[i..], world, h) && Below(cs[i + 1..], world, h)
    ensures Outermost(cs[i..], world, h) == OutermostOf(cs[i], world) + Outermost(cs[i + 1..], world, h)
  {
    assert cs[i..][0] == cs[i] && cs[i..][1..] == cs[i + 1..];
  }

  lemma NoneBehind(cs: seq<SqlObject>, world: set<SqlObject>, h: nat)
    requires Closed(world)
    ensures Below(cs[|cs|..], world, h) && Outermost(cs[|cs|..], world, h) == []
  {
  }

  lemma Regroup(a: seq<SqlObject>, b: seq<SqlObject>, c: seq<SqlObject>)
    ensures a + (b + c) == a + b + c
  {
  }

  ghost predicate AllReplaced(cs: seq<SqlObject>)
    reads Members(cs)`value
  {
    forall i | 0 <= i < |cs| :: cs[i].value.Some?
  }

  /** Different replaced objects of the world. */
  ghost predicate Found(cs: seq<SqlObject>, world: set<SqlObject>)
    reads Members(cs)`value
  {
    Distinct(cs) && AllReplaced(cs) && forall i | 0 <= i < |cs| :: cs[i] in world
  }

  function Members(cs: seq<SqlObject>): set<SqlObject> {
    set i | 0 <= i < |cs| :: cs[i]
  }

  ghost predicate Distinct(cs: seq<SqlObject>) {
    forall i, j | 0 <= i < j < |cs| :: cs[i] != cs[j]
  }

  lemma {:induction false} OutermostBelow(cs: seq<SqlObject>, world: set<SqlObject>, h: nat)
    requires Closed(world) && Below(cs, world, h)
    ensures Below(Outermost(cs, world, h), world, h)
    ensures AllReplaced(Outermost(cs, world, h))
    decreases h, |cs|
  {
    if cs != [] {
      OutermostBelow(cs[1..], world, h);
      if cs[0].value.None? {
        OutermostBelow(cs[0].children, world, cs[0].height);
      }
    }
  }

  /** The piece a replaced object contributes. */
  ghost function PieceOf(o: SqlObject): Piece
    requires o.value.Some?
    reads o`start, o`end, o`inSelect, o`alias, o`value
  {
    Piece(o.start, o.end, o.ReplacementText())
  }

  ghost function Pieces(cs: seq<SqlObject>): (r: seq<Piece>)
    requires AllReplaced(cs)
    reads Members(cs)`start, Members(cs)`end, Members(cs)`inSelect, Members(cs)`alias, Members(cs)`value
    ensures |r| == |cs| && forall i | 0 <= i < |cs| :: r[i] == PieceOf(cs[i])
  {
    if cs == [] then [] else [PieceOf(cs[0])] + Pieces(cs[1..])
  }

  // ---- what rendering means ----

  /** The tree of spans and renderings the objects stand for. */
  ghost function NodesOf(cs: seq<SqlObject>, world: set<SqlObject>, h: nat): seq<Node>
    requires Closed(world) && Below(cs, world, h)
    reads world
    decreases h, |cs|
  {
    if cs == [] then []
    else
      var o := cs[0];
      [Node(o.start, o.end, if o.value.Some? then Some(o.ReplacementText()) else None,
            NodesOf(o.children, world, o.height))] + NodesOf(cs[1..], world, h)
  }

  lemma {:induction false} PiecesAppend(a: seq<SqlObject>, b: seq<SqlObject>)
    requires AllReplaced(a) && AllReplaced(b)
    ensures AllReplaced(a + b) && Pieces(a + b) == Pieces(a) + Pieces(b)
  {
    hide PieceOf, Pieces;
    if a == [] {
      assert a + b == b;
    } else {
      assert (a + b)[1..] == a[1..] + b;
      PiecesAppend(a[1..], b);
    }
  }

  /** Collecting the outermost replaced objects is flattening their tree. */
  lemma {:induction false} OutermostFlattens(cs: seq<SqlObject>, world: set<SqlObject>, h: nat)
    requires Closed(world) && Below(cs, world, h)
    ensures AllReplaced(Outermost(cs, world, h))
    ensures Pieces(Outermost(cs, world, h)) == Flatten(NodesOf(cs, world, h))
    decreases h, |cs|
  {
    if cs != [] {
      var o, rest := cs[0], Outermost(cs[1..], world, h);
      OutermostFlattens(cs[1..], world, h);
      var nodes := NodesOf(cs, world, h);
      assert nodes[1..] == NodesOf(cs[1..], world, h);
      if o.value.Some? {
        PiecesAppend([o], rest);
        assert Pieces([o]) == [PieceOf(o)] + Pieces([o][1..]) && [o][1..] == [];
      } else {
        OutermostFlattens(o.children, world, o.height);
        PiecesAppend(Outermost(o.children, world, o.height), rest);
      }
    }
  }

  /** For spans that nest, the text `ToSql` gives a statement is its source with
      every outermost replaced span swapped for its rendering, composed from the
      leaves up; the order check cannot fire, and with nothing replaced the text
      is the exact source slice. */
  lemma StatementText(o: SqlObject, world: set<SqlObject>)
    requires o in world && Closed(world) && o.value.None? && o.kind == SelectStatement
    requires Nested(NodesOf(o.children, world, o.height), o.start, o.end)
    ensures var outer := Outermost(o.children, world, o.height);
            && AllReplaced(outer)
            && o.TextFrom(outer) == Composed(o.source, Node(o.start, o.end, None, NodesOf(o.children, world, o.height)))
            && o.TextFrom(outer) != Err(OutOfOrder)
            && (outer == [] ==> o.TextFrom(outer) == Ok(o.SourceText()))
  {
    hide Flatten, Nested, NodesOf, Distinct;
    var nodes := NodesOf(o.children, world, o.height);
    OutermostFlattens(o.children, world, o.height);
    SpliceComposes(o.source, o.start, o.end, nodes);
    FlattenInOrder(nodes, o.start, o.end);
    var outer := Outermost(o.children, world, o.height);
    OrderedNeverRefused(o.source, o.start, o.end, Pieces(outer));
  }

  // ---- rendering twice ----

  ghost function Aliases(cs: seq<SqlObject>): (r: seq<string>)
    reads Members(cs)`alias
    ensures |r| == |cs| && forall i | 0 <= i < |cs| :: r[i] == cs[i].alias
  {
    if cs == [] then [] else [cs[0].alias] + Aliases(cs[1..])
  }

  /** The piece o contributed when its alias was `a`. */
  ghost function PieceWith(o: SqlObject, a: string): Piece
    requires o.value.Some?
    reads o`start, o`end, o`inSelect, o`value
  {
    Piece(o.start, o.end, if ValueText(o.value.value).Ok? then Ok(o.NamedAs(a, ValueText(o.value.value).value))
                          else ValueText(o.value.value))
  }

  ghost function PiecesWith(cs: seq<SqlObject>, aliases: seq<string>): (r: seq<Piece>)
    requires AllReplaced(cs) && |aliases| == |cs|
    reads Members(cs)`start, Members(cs)`end, Members(cs)`inSelect, Members(cs)`value
    ensures |r| == |cs| && forall i | 0 <= i < |cs| :: r[i] == PieceWith(cs[i], aliases[i])
  {
    if cs == [] then [] else [PieceWith(cs[0], aliases[0])] + PiecesWith(cs[1..], aliases[1..])
  }

  /** Rendering o names it, when its alias is `a` before. */
  predicate NamesFrom(o: SqlObject, a: string)
    reads o`inSelect, o`start, o`end
  {
    o.UnnamedAs(a) && o.AliasFrom(a) != ""
  }

  ghost predicate NamesNone(cs: seq<SqlObject>, aliases: seq<string>)
    requires |aliases| == |cs|
    reads Members(cs)
  {
    forall i | 0 <= i < |cs| :: !NamesFrom(cs[i], aliases[i])
  }

  lemma PieceAgain(o: SqlObject, a: string)
    requires o.value.Some? && o.alias == o.AliasFrom(a) && PieceWith(o, a).text.Ok?
    ensures PieceOf(o).text.Ok? && PieceOf(o).text.value <= PieceWith(o, a).text.value
    ensures PieceOf(o) == PieceWith(o, a) <==> !NamesFrom(o, a)
  {
    var sql, suffix := ValueText(o.value.value).value, AliasSuffix(o.SourceText(), o.quotes);
    assert |suffix| > 0 && sql <= sql + suffix && |sql + suffix| > |sql|;
  }

  /** Splicing after the replacements were named gives the text from before
      exactly when none was newly named. */
  lemma RenderedAgain(cs: seq<SqlObject>, aliases: seq<string>, source: string, start: nat, end: nat)
    requires AllReplaced(cs) && |aliases| == |cs|
    requires forall i | 0 <= i < |cs| :: cs[i].alias == cs[i].AliasFrom(aliases[i])
    requires Splice(source, start, end, PiecesWith(cs, aliases)).Ok?
    ensures Splice(source, start, end, Pieces(cs)) == Splice(source, start, end, PiecesWith(cs, aliases))
            <==> NamesNone(cs, aliases)
  {
    var p, q := PiecesWith(cs, aliases), Pieces(cs);
    SpliceOkPieces(source, start, end, p);
    forall i | 0 <= i < |cs|
      ensures q[i].text.Ok? && q[i].text.value <= p[i].text.value && (q[i] == p[i] <==> !NamesFrom(cs[i], aliases[i]))
    {
      PieceAgain(cs[i], aliases[i]);
    }
    ShortenedSplice(source, start, end, p, q);
    if NamesNone(cs, aliases) {
      assert forall i | 0 <= i < |cs| :: p[i] == q[i];
    }
  }

  /** Rendering a statement, and what rendering it once more would give. */
  method RenderOnce(o: SqlObject, ghost world: set<SqlObject>) returns (first: Text, ghost outer: seq<SqlObject>)
    requires o in world && Closed(world) && Distinct(Outermost(o.children, world, o.height))
    requires o.value.None? && o.kind == SelectStatement
    modifies world`rewritten, world`alias
    ensures outer == old(Outermost(o.children, world, o.height)) && old(AllReplaced(outer)) && AllReplaced(outer)
    ensures first == old(o.TextFrom(outer))
    ensures first.Ok? ==> (o.TextFrom(outer) == first <==> NamesNone(outer, old(Aliases(outer))))
  {
    hide Splice, Distinct, Pieces, AliasSuffix, AliasName, AliasText, Escaped;
    ghost var aliases := Aliases(Outermost(o.children, world, o.height));
    first, outer := o.ToSql(world);
    if first.Ok? {
      assert PiecesWith(outer, aliases) == old(Pieces(outer));
      RenderedAgain(outer, aliases, o.source, o.start, o.end);
    }
  }

  /** Calling `toSql` again on a statement gives the same text exactly when the
      first call named no expression: the names it appended are not repeated. */
  method RenderTwice(o: SqlObject, ghost world: set<SqlObject>) returns (first: Text, second: Text)
    requires o in world && Closed(world) && Distinct(Outermost(o.children, world, o.height))
    requires o.value.None? && o.kind == SelectStatement
    modifies world`rewritten, world`alias
    ensures var outer := old(Outermost(o.children, world, o.height));
            first.Ok? ==> (second == first <==> NamesNone(outer, old(Aliases(Outermost(o.children, world, o.height)))))
  {
    hide Splice, Outermost, Distinct, Closed, Pieces;
    ghost var outer;
    first, outer := RenderOnce(o, world);
    second, outer := o.ToSql(world);
  }

  // ---- column names ----

  /** A select expression as the parser leaves it. */
  predicate FreshExpr(e: SqlObject)
    reads e
  {
    e.IsExpr() && e.inSelect && e.alias == "" && e.cache == "" && !e.rewritten && e.children == []
  }

  /** The name an expression is given is its source text. */
  predicate NamedBySource(e: SqlObject)
    reads e`start, e`end
  {
    e.SourceText() != "" && e.SourceText()[0] != e.quotes
  }

  lemma {:induction false} ChildIsOutermost(cs: seq<SqlObject>, world: set<SqlObject>, h: nat, k: nat)
    requires Closed(world) && Below(cs, world, h) && k < |cs| && cs[k].value.Some?
    ensures cs[k] in Members(Outermost(cs, world, h))
    decreases k
  {
    var outer, rest := Outermost(cs, world, h), Outermost(cs[1..], world, h);
    if k == 0 {
      assert outer[0] == cs[0];
    } else {
      ChildIsOutermost(cs[1..], world, h, k - 1);
      var i :| 0 <= i < |rest| && rest[i] == cs[k];
      assert outer[|outer| - |rest| + i] == cs[k];
    }
  }

  /** What `alias` will return for e. */
  ghost predicate Settled(e: SqlObject, name: Text)
    reads e
  {
    if e.alias != "" then name == Ok(e.alias)
    else if e.cache != "" then name == Ok(e.cache)
    else if e.value.Some? then name == e.ReplacementText()
    else !e.rewritten && e.children == [] && name == Ok(e.SourceText())
  }

  /** What it returns after it returned that: a rendering records an alias. */
  ghost function NextName(e: SqlObject, name: Text): Text
    reads e
  {
    if e.alias == "" && e.cache == "" && e.value.Some? && name.Ok? && e.AliasFrom("") != "" then Ok(e.AliasFrom(""))
    else name
  }

  /** The column name of e: its source text, unless the whole statement is replaced
      over it. The expression's own replacement is then rendered as its name. */
  ghost function ColumnName(replaced: bool, e: SqlObject): Text
    reads e`start, e`end, e`inSelect, e`alias, e`value
  {
    if replaced && e.value.Some? then e.ReplacementText() else Ok(e.SourceText())
  }

  ghost function ColumnNames(replaced: bool, exprs: seq<SqlObject>): (r: seq<Text>)
    reads Members(exprs)`start, Members(exprs)`end, Members(exprs)`inSelect, Members(exprs)`alias, Members(exprs)`value
    ensures |r| == |exprs| && forall i | 0 <= i < |exprs| :: r[i] == ColumnName(replaced, exprs[i])
  {
    if exprs == [] then [] else [ColumnName(replaced, exprs[0])] + ColumnNames(replaced, exprs[1..])
  }

  /** Asks every expression for its alias; `known` are the places of settled ones,
      and `later` what they will say when they are asked again. */
  method Columns(exprs: seq<SqlObject>, ghost texts: seq<Text>, ghost later: seq<Text>, ghost known: set<nat>,
                 ghost world: set<SqlObject>)
      returns (names: seq<Text>)
    requires Closed(world) && Distinct(exprs) && |texts| == |later| == |exprs|
    requires forall i | 0 <= i < |exprs| :: exprs[i] in world && exprs[i].children == []
    requires forall i | 0 <= i < |exprs| && i in known ::
               Settled(exprs[i], texts[i]) && later[i] == NextName(exprs[i], texts[i])
    modifies world`rewritten, world`alias, world`cache
    ensures |names| == |exprs| && forall i | 0 <= i < |exprs| && i in known :: names[i] == texts[i]
    ensures forall i | 0 <= i < |exprs| && i in known ::
              Settled(exprs[i], later[i]) && later[i] == NextName(exprs[i], later[i])
  {
    hide Outermost;
    names := [];
    for i := 0 to |exprs|
      invariant |names| == i && forall j | 0 <= j < i && j in known :: names[j] == texts[j]
      invariant forall j | 0 <= j < i && j in known ::
                  Settled(exprs[j], later[j]) && later[j] == NextName(exprs[j], later[j])
      invariant forall j | i <= j < |exprs| && j in known ::
                  Settled(exprs[j], texts[j]) && later[j] == NextName(exprs[j], texts[j])
    {
      ghost var e := exprs[i];
      assert forall j | 0 <= j < |exprs| && j != i :: exprs[j] != e;
      NoneOutermost(e, world);
      var name := exprs[i].GetAlias(world);
      names := names + [name];
    }
  }

  /** Asks them once for every row. */
  method Keys(exprs: seq<SqlObject>, ghost later: seq<Text>, ghost known: set<nat>, rows: nat,
              ghost world: set<SqlObject>)
      returns (keys: seq<seq<Text>>)
    requires Closed(world) && Distinct(exprs) && |later| == |exprs|
    requires forall i | 0 <= i < |exprs| :: exprs[i] in world && exprs[i].children == []
    requires forall i | 0 <= i < |exprs| && i in known ::
               Settled(exprs[i], later[i]) && later[i] == NextName(exprs[i], later[i])
    modifies world`rewritten, world`alias, world`cache
    ensures |keys| == rows
    ensures forall k | 0 <= k < rows ::
              |keys[k]| == |exprs| && forall i | 0 <= i < |exprs| && i in known :: keys[k][i] == later[i]
  {
    hide Settled, NextName, Closed, Distinct;
    keys := [];
    for k := 0 to rows
      invariant |keys| == k
      invariant forall i | 0 <= i < |exprs| && i in known ::
                  Settled(exprs[i], later[i]) && later[i] == NextName(exprs[i], later[i])
      invariant forall l | 0 <= l < k ::
                  |keys[l]| == |exprs| && forall i | 0 <= i < |exprs| && i in known :: keys[l][i] == later[i]
    {
      var row := Columns(exprs, later, later, known, world);
      keys := keys + [row];
    }
  }

  lemma NoneOutermost(e: SqlObject, world: set<SqlObject>)
    requires e in world && Closed(world) && e.children == []
    ensures Distinct(Outermost(e.children, world, e.height))
  {
  }

  /** The name e has once it was asked: its source text, unless rendering throws. */
  ghost function LaterName(replaced: bool, e: SqlObject): Text
    reads e`start, e`end, e`inSelect, e`alias, e`value
  {
    if ColumnName(replaced, e).Ok? then Ok(e.SourceText()) else ColumnName(replaced, e)
  }

  ghost function LaterNames(replaced: bool, exprs: seq<SqlObject>): (r: seq<Text>)
    reads Members(exprs)`start, Members(exprs)`end, Members(exprs)`inSelect, Members(exprs)`alias, Members(exprs)`value
    ensures |r| == |exprs| && forall i | 0 <= i < |exprs| :: r[i] == LaterName(replaced, exprs[i])
  {
    if exprs == [] then [] else [LaterName(replaced, exprs[0])] + LaterNames(replaced, exprs[1..])
  }

  /** Running a query: the statement's text goes to the backend, every select
      expression is asked for its alias for the head, and again for each row. The
      names are the source texts of the expressions whatever was replaced among them.
      Only where the statement as a whole was replaced is an expression with a value
      first named by its rendering, which records the alias it has from then on. */
  method QueryAndColumns(stmt: SqlObject, exprs: seq<SqlObject>, rows: nat, ghost world: set<SqlObject>)
      returns (sql: Text, names: seq<Text>, keys: seq<seq<Text>>, ghost outer: seq<SqlObject>)
    requires stmt in world && Closed(world) && Distinct(Outermost(stmt.children, world, stmt.height))
    requires stmt.kind == SelectStatement && stmt.cache == ""
    requires Distinct(exprs)
    requires forall i | 0 <= i < |exprs| :: FreshExpr(exprs[i]) && exprs[i] in world && exprs[i] in stmt.children
    modifies world`rewritten, world`alias, world`cache
    ensures stmt.value.Some? ==> sql == old(stmt.ReplacementText())
    ensures stmt.value.None? ==>
              outer == old(Outermost(stmt.children, world, stmt.height)) && old(AllReplaced(outer))
              && sql == old(stmt.TextFrom(outer))
    ensures sql.Ok? ==>
              |names| == |exprs| && forall i | 0 <= i < |exprs| && old(NamedBySource(exprs[i])) ::
                names[i] == old(ColumnNames(stmt.value.Some?, exprs))[i]
    ensures sql.Ok? ==>
              |keys| == rows && forall k | 0 <= k < rows ::
                |keys[k]| == |exprs| && forall i | 0 <= i < |exprs| && old(NamedBySource(exprs[i])) ::
                  keys[k][i] == old(LaterNames(stmt.value.Some?, exprs))[i]
  {
    hide Splice, Outermost, Distinct, Closed, Pieces, Settled, NextName, ColumnNames, LaterNames, NamedBySource;
    names, keys := [], [];
    ghost var texts, later := ColumnNames(stmt.value.Some?, exprs), LaterNames(stmt.value.Some?, exprs);
    ghost var known := set i: nat | i < |exprs| && NamedBySource(exprs[i]);
    sql, outer := SendStatement(stmt, exprs, world);
    if sql.Ok? {
      names := Columns(exprs, texts, later, known, world);
      keys := Keys(exprs, later, known, rows, world);
    }
  }

  /** Sends the text; the names of the expressions are settled then. */
  method SendStatement(stmt: SqlObject, exprs: seq<SqlObject>, ghost world: set<SqlObject>)
      returns (sql: Text, ghost outer: seq<SqlObject>)
    requires stmt in world && Closed(world) && Distinct(Outermost(stmt.children, world, stmt.height))
    requires stmt.kind == SelectStatement && stmt.cache == ""
    requires forall i | 0 <= i < |exprs| :: FreshExpr(exprs[i]) && exprs[i] in world && exprs[i] in stmt.children
    modifies world`rewritten, world`alias, world`cache
    ensures stmt.value.Some? ==> sql == old(stmt.ReplacementText())
    ensures stmt.value.None? ==>
              outer == old(Outermost(stmt.children, world, stmt.height)) && old(AllReplaced(outer))
              && sql == old(stmt.TextFrom(outer))
    ensures sql.Ok? ==>
              forall i | 0 <= i < |exprs| && old(NamedBySource(exprs[i])) ::
                && Settled(exprs[i], old(ColumnNames(stmt.value.Some?, exprs))[i])
                && old(LaterNames(stmt.value.Some?, exprs))[i]
                   == NextName(exprs[i], old(ColumnNames(stmt.value.Some?, exprs))[i])
  {
    hide Splice, Outermost, Distinct, Closed, Pieces, AliasSuffix, Settled, NextName;
    sql, outer := stmt.Sql(world);
    if sql.Ok? {
      forall i | 0 <= i < |exprs| && old(NamedBySource(exprs[i]))
        ensures Settled(exprs[i], old(ColumnName(stmt.value.Some?, exprs[i])))
        ensures old(LaterName(stmt.value.Some?, exprs[i]))
                == NextName(exprs[i], old(ColumnName(stmt.value.Some?, exprs[i])))
      {
        SettledAfter(stmt, exprs[i], world, outer);
        if stmt.value.None? && exprs[i] in Members(outer) {
          var k :| 0 <= k < |outer| && outer[k] == exprs[i];
          assert Mark(outer[k]);
        }
        SettledNow(stmt.value.Some?, exprs[i]);
      }
    }
  }

  /** What an expression will say, now that it was named or passed over. */
  lemma SettledNow(replaced: bool, e: SqlObject)
    requires e.IsExpr() && e.inSelect && e.cache == "" && e.children == [] && NamedBySource(e)
    requires if !replaced && e.value.Some? then e.alias == e.AliasFrom("") else e.alias == "" && !e.rewritten
    ensures Settled(e, ColumnName(replaced, e)) && LaterName(replaced, e) == NextName(e, ColumnName(replaced, e))
  {
    hide AliasSuffix;
  }

  lemma SettledAfter(stmt: SqlObject, e: SqlObject, world: set<SqlObject>, outer: seq<SqlObject>)
    requires stmt in world && Closed(world) && e in stmt.children
    requires outer == if stmt.value.Some? then [stmt] else Outermost(stmt.children, world, stmt.height)
    ensures stmt.value.None? ==> (e in Members(outer) <==> e.value.Some?)
    ensures stmt.value.Some? ==> e !in Members(outer)
    ensures e != stmt && e in world
  {
    var k :| 0 <= k < |stmt.children| && stmt.children[k] == e;
    OutermostBelow(stmt.children, world, stmt.height);
    if e.value.Some? {
      ChildIsOutermost(stmt.children, world, stmt.height, k);
    }
  }
}
