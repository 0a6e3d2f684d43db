/** Rewriting on values: splicing replacements into a source text, and the
    theorem that splicing the outermost replaced spans of a nested tree is the
    same as composing the tree's texts from the leaves up. */
module SqlTree {
  import opened Wrappers

  /** The ways rendering a replacement can throw. `isNaN` refuses BigInt values. */
  datatype RewriteError = NotANumber | BigIntRefused | OutOfOrder

  type Text = Result<string, RewriteError>

  /** A span to be replaced, with its rendering. */
  datatype Piece = Piece(start: nat, end: nat, text: Text)

  /** A span of the source with the spans inside it; a replaced node carries
      its rendering, and its children no longer matter. */
  datatype Node = Node(start: nat, end: nat, text: Option<Text>, children: seq<Node>)

  function Joined(a: Text, b: Text): Text {
    var x :- a;
    var y :- b;
    Ok(x + y)
  }

  /** The source from `start` to `end` with the pieces swapped in, in the order
      given; a piece that starts before the text already written is refused. */
  function Splice(source: string, start: nat, end: nat, pieces: seq<Piece>): Text
    decreases pieces
  {
    if pieces == [] then Ok(Slice(source, start, end))
    else if start > pieces[0].start then Err(OutOfOrder)
    else
      var t :- pieces[0].text;
      var rest :- Splice(source, pieces[0].end, end, pieces[1..]);
      Ok(Slice(source, start, pieces[0].start) + t + rest)
  }

  /** The outermost replaced spans, from left to right. */
  function Flatten(nodes: seq<Node>): seq<Piece>
    decreases nodes
  {
    if nodes == [] then []
    else
      var n := nodes[0];
      (if n.text.Some? then [Piece(n.start, n.end, n.text.value)] else Flatten(n.children)) + Flatten(nodes[1..])
  }

  /** The text of a node, as `toSql` computes it. */
  function Rendered(source: string, n: Node): Text {
    if n.text.Some? then n.text.value else Splice(source, n.start, n.end, Flatten(n.children))
  }

  /** The text of a node, composed: its rendering if it is replaced, otherwise
      its source with each child's span swapped for the child's own text. */
  function Composed(source: string, n: Node): Text
    decreases n, 0
  {
    if n.text.Some? then n.text.value else ComposedGaps(source, n.start, n.end, n.children)
  }

  function ComposedGaps(source: string, start: nat, end: nat, nodes: seq<Node>): Text
    decreases nodes
  {
    if nodes == [] then Ok(Slice(source, start, end))
    else
      Joined(Joined(Ok(Slice(source, start, nodes[0].start)), Composed(source, nodes[0])),
             ComposedGaps(source, nodes[0].end, end, nodes[1..]))
  }

  /** The nodes lie in order and apart inside [lo, hi), each nested likewise. */
  ghost predicate Nested(nodes: seq<Node>, lo: nat, hi: nat)
    decreases nodes
  {
    if nodes == [] then lo <= hi
    else
      && lo <= nodes[0].start <= nodes[0].end
      && Nested(nodes[0].children, nodes[0].start, nodes[0].end)
      && Nested(nodes[1..], nodes[0].end, hi)
  }

  /** Pieces in order and apart inside [lo, hi). */
  ghost predicate InOrder(pieces: seq<Piece>, lo: nat, hi: nat) {
    if pieces == [] then lo <= hi
    else lo <= pieces[0].start <= pieces[0].end && InOrder(pieces[1..], pieces[0].end, hi)
  }

  lemma {:induction false} InOrderAppend(a: seq<Piece>, b: seq<Piece>, lo: nat, mid: nat, hi: nat)
    requires InOrder(a, lo, mid) && InOrder(b, mid, hi)
    ensures InOrder(a + b, lo, hi)
  {
    if a == [] {
      assert a + b == b;
      InOrderFrom(b, lo, mid, hi);
    } else {
      assert (a + b)[1..] == a[1..] + b;
      InOrderAppend(a[1..], b, a[0].end, mid, hi);
    }
  }

  lemma {:induction false} InOrderFrom(b: seq<Piece>, lo: nat, mid: nat, hi: nat)
    requires lo <= mid && InOrder(b, mid, hi)
    ensures InOrder(b, lo, hi) && mid <= hi
  {
    if b != [] {
      InOrderFrom(b[1..], b[0].end, b[0].end, hi);
    }
  }

  /** The outermost replaced spans of nested nodes are in order and apart. */
  lemma {:induction false} FlattenInOrder(nodes: seq<Node>, lo: nat, hi: nat)
    requires Nested(nodes, lo, hi)
    ensures InOrder(Flatten(nodes), lo, hi)
    decreases nodes
  {
    if nodes != [] {
      var n := nodes[0];
      FlattenInOrder(nodes[1..], n.end, hi);
      if n.text.Some? {
        var one := [Piece(n.start, n.end, n.text.value)];
        assert one[1..] == [];
        InOrderAppend(one, Flatten(nodes[1..]), lo, n.end, hi);
      } else {
        FlattenInOrder(n.children, n.start, n.end);
        InOrderFrom(Flatten(n.children), lo, n.start, n.end);
        InOrderAppend(Flatten(n.children), Flatten(nodes[1..]), lo, n.end, hi);
      }
    }
  }

  // ---- splicing composes ----

  lemma SliceSplit(source: string, a: nat, b: nat, c: nat)
    requires a <= b <= c
    ensures Slice(source, a, c) == Slice(source, a, b) + Slice(source, b, c)
  {
  }

  /** Text before the first piece can be written first. */
  lemma SpliceFrom(source: string, a: nat, b: nat, end: nat, pieces: seq<Piece>)
    requires a <= b && InOrder(pieces, b, end)
    ensures Splice(source, a, end, pieces) == Joined(Ok(Slice(source, a, b)), Splice(source, b, end, pieces))
  {
    if pieces == [] {
      SliceSplit(source, a, b, end);
    } else {
      var p := pieces[0];
      SliceSplit(source, a, b, p.start);
      var x, y, t, r := Slice(source, a, b), Slice(source, b, p.start), p.text, Splice(source, p.end, end, pieces[1..]);
      if t.Ok? && r.Ok? {
        assert (x + y) + t.value + r.value == x + (y + t.value + r.value);
      }
    }
  }

  /** Splicing two groups of pieces that a position separates. */
  lemma {:induction false} SpliceAppend(source: string, a: nat, b: nat, end: nat, p: seq<Piece>, q: seq<Piece>)
    requires InOrder(p, a, b) && InOrder(q, b, end)
    ensures Splice(source, a, end, p + q) == Joined(Splice(source, a, b, p), Splice(source, b, end, q))
    decreases p
  {
    if p == [] {
      assert p + q == q;
      SpliceFrom(source, a, b, end, q);
    } else {
      assert (p + q)[0] == p[0] && (p + q)[1..] == p[1..] + q;
      SpliceAppend(source, p[0].end, b, end, p[1..], q);
      var x, t := Slice(source, a, p[0].start), p[0].text;
      var u, v := Splice(source, p[0].end, b, p[1..]), Splice(source, b, end, q);
      if t.Ok? && u.Ok? && v.Ok? {
        assert x + t.value + (u.value + v.value) == x + t.value + u.value + v.value;
      }
    }
  }

  /** What `toSql` writes for a list of nested nodes is their composition. */
  lemma {:induction false} SpliceComposes(source: string, start: nat, end: nat, nodes: seq<Node>)
    requires Nested(nodes, start, end)
    ensures Splice(source, start, end, Flatten(nodes)) == ComposedGaps(source, start, end, nodes)
    decreases nodes
  {
    if nodes != [] {
      var n, rest := nodes[0], Flatten(nodes[1..]);
      FlattenInOrder(nodes[1..], n.end, end);
      SpliceComposes(source, n.end, end, nodes[1..]);
      if n.text.Some? {
        var one := [Piece(n.start, n.end, n.text.value)];
        assert one[1..] == [] && InOrder(one, start, n.end);
        SpliceAppend(source, start, n.end, end, one, rest);
        SpliceOne(source, start, one[0]);
      } else {
        FlattenInOrder(n.children, n.start, n.end);
        InOrderFrom(Flatten(n.children), start, n.start, n.end);
        SpliceAppend(source, start, n.end, end, Flatten(n.children), rest);
        SpliceFrom(source, start, n.start, n.end, Flatten(n.children));
        SpliceComposes(source, n.start, n.end, n.children);
      }
    }
  }

  lemma SpliceOne(source: string, start: nat, p: Piece)
    requires start <= p.start <= p.end
    ensures Splice(source, start, p.end, [p]) == Joined(Ok(Slice(source, start, p.start)), p.text)
  {
    var rest := [p][1..];
    assert rest == [];
    assert Splice(source, p.end, p.end, rest) == Ok("");
    if p.text.Ok? {
      assert Slice(source, start, p.start) + p.text.value + "" == Slice(source, start, p.start) + p.text.value;
    }
  }

  /** The main theorem: for nested spans, the text `toSql` writes is the source
      slice with exactly the outermost replaced spans swapped for their
      renderings, at every depth. */
  lemma RenderedIsComposed(source: string, n: Node)
    requires Nested([n], n.start, n.end)
    ensures Rendered(source, n) == Composed(source, n)
  {
    if n.text.None? {
      SpliceComposes(source, n.start, n.end, n.children);
    }
  }

  /** The order check never fires on pieces in order. */
  lemma {:induction false} OrderedNeverRefused(source: string, start: nat, end: nat, pieces: seq<Piece>)
    requires InOrder(pieces, start, end)
    requires forall p | p in pieces :: p.text != Err(OutOfOrder)
    ensures Splice(source, start, end, pieces) != Err(OutOfOrder)
    decreases pieces
  {
    if pieces != [] {
      assert forall p | p in pieces[1..] :: p in pieces;
      OrderedNeverRefused(source, pieces[0].end, end, pieces[1..]);
    }
  }

  // ---- rendering twice ----

  /** q renders each piece of p, but possibly with less text. */
  ghost predicate Shortened(p: seq<Piece>, q: seq<Piece>) {
    |p| == |q| && forall i | 0 <= i < |p| ::
      && p[i].start == q[i].start && p[i].end == q[i].end
      && p[i].text.Ok? && q[i].text.Ok? && q[i].text.value <= p[i].text.value
  }

  /** Splicing shorter renderings gives the same text only when none is
      shorter. */
  lemma {:induction false} ShortenedSplice(source: string, start: nat, end: nat, p: seq<Piece>, q: seq<Piece>)
    requires Shortened(p, q) && Splice(source, start, end, p).Ok?
    ensures var a, b := Splice(source, start, end, p), Splice(source, start, end, q);
            b.Ok? && |b.value| <= |a.value| && (|a.value| == |b.value| <==> p == q) && (a == b <==> p == q)
    decreases p
  {
    if p != [] {
      ShortenedSplice(source, p[0].end, end, p[1..], q[1..]);
      assert p == [p[0]] + p[1..] && q == [q[0]] + q[1..];
      assert |p[0].text.value| == |q[0].text.value| ==> p[0].text.value == q[0].text.value;
    }
  }

  lemma {:induction false} SpliceOkPieces(source: string, start: nat, end: nat, p: seq<Piece>)
    requires Splice(source, start, end, p).Ok?
    ensures forall i | 0 <= i < |p| :: p[i].text.Ok?
    decreases p
  {
    if p != [] {
      SpliceOkPieces(source, p[0].end, end, p[1..]);
      assert forall i | 0 < i < |p| :: p[i] == p[1..][i - 1];
    }
  }
}
