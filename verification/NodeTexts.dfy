/** Definitions of data nodes written out: lists of names and ranges, with white space
    around their parts, and the names they are expanded to. */
module NodeTexts {
  import opened Wrappers
  import opened Texts
  import opened DataNodes

  // ---- trimming ----

  /** White space: tabulator to carriage return, the blanks of Unicode, its two line
      separators and the byte order mark. */
  lemma SpaceIff(c: char)
    ensures IsSpace(c)
            <==> c in "\t\n\U{000B}\U{000C}\r \U{00A0}\U{1680}\U{2000}\U{2001}\U{2002}\U{2003}\U{2004}\U{2005}"
                      + "\U{2006}\U{2007}\U{2008}\U{2009}\U{200A}\U{2028}\U{2029}\U{202F}\U{205F}\U{3000}\U{FEFF}"
  {
    var a := "\t\n\U{000B}\U{000C}\r \U{00A0}\U{1680}\U{2000}\U{2001}\U{2002}\U{2003}\U{2004}\U{2005}";
    var b := "\U{2006}\U{2007}\U{2008}\U{2009}\U{200A}\U{2028}\U{2029}\U{202F}\U{205F}\U{3000}\U{FEFF}";
    assert a[0] == '\t' && a[1] == '\n' && a[2] == '\U{000B}' && a[3] == '\U{000C}' && a[4] == '\r' && a[5] == ' ';
    assert a[6] == '\U{00A0}' && a[7] == '\U{1680}' && a[8] == '\U{2000}' && a[9] == '\U{2001}' && a[10] == '\U{2002}';
    assert a[11] == '\U{2003}' && a[12] == '\U{2004}' && a[13] == '\U{2005}';
    assert b[0] == '\U{2006}' && b[1] == '\U{2007}' && b[2] == '\U{2008}' && b[3] == '\U{2009}' && b[4] == '\U{200A}';
    assert b[5] == '\U{2028}' && b[6] == '\U{2029}' && b[7] == '\U{202F}' && b[8] == '\U{205F}' && b[9] == '\U{3000}';
    assert b[10] == '\U{FEFF}';
    assert c in a + b <==> c in a || c in b;
    if IsSpace(c) {
      assert c in a || c in b;
    }
  }

  predicate Bare(m: string) {
    m != "" ==> !IsSpace(m[0]) && !IsSpace(m[|m| - 1])
  }

  lemma {:induction false} TrimStartOver(a: string, t: string)
    requires AllSpace(a) && (t != "" ==> !IsSpace(t[0]))
    ensures TrimStart(a + t) == t
  {
    if a == "" {
      assert a + t == t;
    } else {
      assert (a + t)[1..] == a[1..] + t;
      TrimStartOver(a[1..], t);
    }
  }

  lemma {:induction false} TrimEndOver(t: string, b: string)
    requires AllSpace(b) && (t != "" ==> !IsSpace(t[|t| - 1]))
    ensures TrimEnd(t + b) == t
  {
    if b == "" {
      assert t + b == t;
    } else {
      assert (t + b)[..|t + b| - 1] == t + b[..|b| - 1];
      TrimEndOver(t, b[..|b| - 1]);
    }
  }

  /** What is left of a text between white space, if it begins and ends with something
      else, is its trimmed form. */
  lemma TrimIs(a: string, m: string, b: string)
    requires AllSpace(a) && AllSpace(b) && Bare(m)
    ensures Trim(a + m + b) == m
  {
    if m == "" {
      assert a + m + b == a + b;
      var all := a + b;
      assert all + "" == all;
      TrimStartOver(all, "");
    } else {
      assert a + m + b == a + (m + b);
      TrimStartOver(a, m + b);
      TrimEndOver(m, b);
    }
  }

  // ---- splitting with trimming ----

  /** A piece with its trimmed text and the white space around it. */
  datatype Padded = Padded(left: string, text: string, right: string)

  predicate GoodPadded(p: Padded, sep: char) {
    && AllSpace(p.left) && AllSpace(p.right) && Bare(p.text)
    && sep !in p.left && sep !in p.text && sep !in p.right
  }

  function Whole(p: Padded): string {
    p.left + p.text + p.right
  }

  function Wholes(ps: seq<Padded>): (r: seq<string>)
    ensures |r| == |ps|
  {
    seq(|ps|, k requires 0 <= k < |ps| => Whole(ps[k]))
  }

  function TextsOf(ps: seq<Padded>): (r: seq<string>)
    ensures |r| == |ps|
  {
    seq(|ps|, k requires 0 <= k < |ps| => ps[k].text)
  }

  /** The outer white space of a joined text belongs to its first and its last piece. */
  function Stripped(ps: seq<Padded>): (r: seq<Padded>)
    requires ps != []
    ensures |r| == |ps|
  {
    var n := |ps| - 1;
    seq(|ps|, k requires 0 <= k < |ps| =>
          Padded(if k == 0 || (k == n && ps[k].text == "") then "" else ps[k].left, ps[k].text,
                 if k == n || (k == 0 && ps[k].text == "") then "" else ps[k].right))
  }

  lemma {:induction false} JoinLast(ps: seq<string>, x: string, sep: char)
    requires ps != []
    ensures Join(ps + [x], sep) == Join(ps, sep) + [sep] + x
    decreases |ps|
  {
    assert (ps + [x])[1..] == ps[1..] + [x];
    if |ps| == 1 {
      assert ps[1..] + [x] == [x];
    } else {
      JoinLast(ps[1..], x, sep);
      var a, b := ps[0], Join(ps[1..], sep);
      assert a + [sep] + (b + [sep] + x) == a + [sep] + b + [sep] + x;
    }
  }

  lemma StrippedParts(ps: seq<Padded>, first: string, last: string) returns (mid: seq<string>)
    requires |ps| > 1
    requires first == if ps[0].text == "" then "" else ps[0].text + ps[0].right
    requires var q := ps[|ps| - 1]; last == if q.text == "" then "" else q.left + q.text
    ensures Wholes(ps) == [Whole(ps[0])] + mid + [Whole(ps[|ps| - 1])]
    ensures Wholes(Stripped(ps)) == [first] + mid + [last]
  {
    var n, rs := |ps| - 1, Stripped(ps);
    mid := Wholes(ps)[1..n];
    forall k | 1 <= k < n ensures Wholes(rs)[k] == mid[k - 1] {
    }
    assert "" + ps[0].text + rs[0].right == first && rs[n].left + ps[n].text + "" == last;
  }

  /** Trimming a joined text cuts the white space in front of its first piece and
      behind its last one. */
  lemma TrimJoin(ps: seq<Padded>, sep: char)
    requires ps != [] && !IsSpace(sep) && forall k | 0 <= k < |ps| :: GoodPadded(ps[k], sep)
    ensures Trim(Join(Wholes(ps), sep)) == Join(Wholes(Stripped(ps)), sep)
  {
    hide Join, Trim, Wholes, Stripped, IsSpace, Inner, Whole, Bare;
    if |ps| == 1 {
      TrimOne(ps, sep);
    } else {
      var n := |ps| - 1;
      var a, first := FrontOf(ps[0]);
      var last, b := BackOf(ps[n]);
      var mid := StrippedParts(ps, first, last);
      Between(a + first, mid, last + b, sep);
      Between(first, mid, last, sep);
      var inner := Inner(mid, sep);
      assert a + first + inner + (last + b) == a + (first + inner + last) + b;
      BareJoin(first, mid, last, sep);
      TrimIs(a, first + inner + last, b);
    }
  }

  lemma TrimOne(ps: seq<Padded>, sep: char)
    requires |ps| == 1 && GoodPadded(ps[0], sep)
    ensures Trim(Join(Wholes(ps), sep)) == Join(Wholes(Stripped(ps)), sep)
  {
    hide Join, Trim;
    OnePiece(Wholes(ps), sep);
    OnePiece(Wholes(Stripped(ps)), sep);
    TrimIs(ps[0].left, ps[0].text, ps[0].right);
    assert "" + ps[0].text + "" == ps[0].text;
  }

  /** White space in front of a piece, and the rest of it. */
  lemma FrontOf(p: Padded) returns (a: string, rest: string)
    requires AllSpace(p.left) && AllSpace(p.right) && Bare(p.text)
    ensures Whole(p) == a + rest && AllSpace(a) && (rest != "" ==> !IsSpace(rest[0]))
    ensures rest == if p.text == "" then "" else p.text + p.right
  {
    if p.text == "" {
      a, rest := p.left + p.right, "";
    } else {
      a, rest := p.left, p.text + p.right;
    }
  }

  lemma BackOf(p: Padded) returns (rest: string, b: string)
    requires AllSpace(p.left) && AllSpace(p.right) && Bare(p.text)
    ensures Whole(p) == rest + b && AllSpace(b) && (rest != "" ==> !IsSpace(rest[|rest| - 1]))
    ensures rest == if p.text == "" then "" else p.left + p.text
  {
    if p.text == "" {
      rest, b := "", p.left + p.right;
    } else {
      rest, b := p.left + p.text, p.right;
    }
  }

  lemma OnePiece(ps: seq<string>, sep: char)
    requires |ps| == 1
    ensures Join(ps, sep) == ps[0]
  {
  }

  /** What stands between the first and the last of several pieces. */
  function Inner(mid: seq<string>, sep: char): string {
    if mid == [] then [sep] else [sep] + Join(mid, sep) + [sep]
  }

  lemma Between(first: string, mid: seq<string>, last: string, sep: char)
    ensures Join([first] + mid + [last], sep) == first + Inner(mid, sep) + last
  {
    hide Join;
    assert [first] + mid + [last] == [first] + (mid + [last]);
    JoinCons(first, mid + [last], sep);
    if mid == [] {
      assert mid + [last] == [last];
      OnePiece([last], sep);
    } else {
      JoinLast(mid, last, sep);
      assert first + [sep] + (Join(mid, sep) + [sep] + last) == first + ([sep] + Join(mid, sep) + [sep]) + last;
    }
  }

  lemma BareJoin(first: string, mid: seq<string>, last: string, sep: char)
    requires first != "" ==> !IsSpace(first[0])
    requires last != "" ==> !IsSpace(last[|last| - 1])
    requires !IsSpace(sep)
    ensures Bare(first + Inner(mid, sep) + last)
  {
    hide IsSpace, Join;
    var inner := Inner(mid, sep);
    assert inner != "" && inner[0] == sep && inner[|inner| - 1] == sep;
  }

  lemma WholesApart(ps: seq<Padded>, sep: char)
    requires forall k | 0 <= k < |ps| :: GoodPadded(ps[k], sep)
    ensures forall k | 0 <= k < |ps| :: sep !in Wholes(ps)[k]
  {
  }

  lemma {:induction false} TrimWhole(p: Padded, sep: char)
    requires GoodPadded(p, sep)
    ensures Trim(Whole(p)) == p.text
  {
    TrimIs(p.left, p.text, p.right);
  }

  /** Pieces around a separator that is no white space, however padded, are what
      splitting with trimming finds. */
  lemma PaddedPieces(ps: seq<Padded>, sep: char)
    requires ps != [] && !IsSpace(sep) && forall k | 0 <= k < |ps| :: GoodPadded(ps[k], sep)
    ensures Parts(Join(Wholes(ps), sep), sep, true) == TextsOf(ps)
  {
    hide Join, Trim, Pieces;
    TrimJoin(ps, sep);
    var rs := Stripped(ps);
    assert forall k | 0 <= k < |rs| :: GoodPadded(rs[k], sep);
    WholesApart(rs, sep);
    var joined := Join(Wholes(rs), sep);
    JoinSplits("", Wholes(rs), sep);
    assert "" + joined == joined;
    forall k | 0 <= k < |ps| ensures TrimAll(Wholes(rs))[k] == ps[k].text {
      TrimWhole(rs[k], sep);
    }
  }

  // ---- ranges ----

  /** A range written out: a prefix, a mark, and two numbers around another mark. */
  datatype Range = Range(prefix: Padded, low: Padded, high: Padded)

  /** Both ends are in, upwards or downwards; each name is the prefix and its number. */
  ghost predicate NamesOf(num: Numbers, r: seq<string>, prefix: string, b: Brackets, low: int, high: int) {
    && |r| == (if low <= high then high - low else low - high) + 1
    && forall k | 0 <= k < |r| :: r[k] == Named(num, prefix, b, if low <= high then low + k else low - k)
  }

  /** A number stands in brackets, or behind the left one alone, or without any, where
      "0" means no bracket. */
  lemma BracketForms(num: Numbers, prefix: string, i: int)
    ensures Named(num, prefix, Brackets("[", "]"), i) == prefix + "[" + num.show(i) + "]"
    ensures Named(num, prefix, Brackets("[", "0"), i) == prefix + "[" + num.show(i)
    ensures Named(num, prefix, Brackets("0", "]"), i) == prefix + num.show(i)
    ensures Named(num, prefix, Brackets("0", "0"), i) == prefix + num.show(i)
  {
  }

  /** Neither mark stands in the prefix or the numbers. */
  ghost predicate GoodRange(num: Numbers, r: Range) {
    && GoodPadded(r.prefix, '$') && GoodPadded(r.low, '$') && GoodPadded(r.high, '$')
    && GoodPadded(r.low, '-') && GoodPadded(r.high, '-')
    && num.parse(r.low.text).Some? && num.parse(r.high.text).Some?
  }

  function RangeText(r: Range): string {
    Whole(r.prefix) + "$" + (Whole(r.low) + "-" + Whole(r.high))
  }

  lemma PlainMarks()
    ensures !IsSpace('$') && !IsSpace('-') && !IsSpace(',')
  {
  }

  lemma TwoPieces(x: string, y: string, sep: char)
    ensures Join([x, y], sep) == x + [sep] + y
  {
    assert [x, y][1..] == [y];
  }

  /** Two ends without the white space outside them. */
  function Closer(r: Range): (Padded, Padded) {
    (Padded("", r.low.text, if r.low.text == "" then "" else r.low.right),
     Padded(if r.high.text == "" then "" else r.high.left, r.high.text, ""))
  }

  /** The text behind the first mark, trimmed. */
  lemma InnerText(r: Range) returns (inner: Padded)
    requires GoodPadded(r.low, '$') && GoodPadded(r.high, '$')
    ensures Whole(inner) == Whole(r.low) + "-" + Whole(r.high) && GoodPadded(inner, '$')
    ensures inner.text == Whole(Closer(r).0) + "-" + Whole(Closer(r).1)
  {
    hide IsSpace, Whole, AllSpace, Bare, GoodPadded, Closer;
    GoodMeans(r.low);
    GoodMeans(r.high);
    var a, first := FrontOf(r.low);
    var last, b := BackOf(r.high);
    inner := Padded(a, first + "-" + last, b);
    CloserIs(r);
    WholeIs(inner);
    Regrouped(a, first, last, b);
    PartsWithout(r.low, a, first);
    PartsWithout(r.high, last, b);
    Without(first, "-", last);
    BareBetween(first, last);
    InnerGood(inner);
  }

  lemma Regrouped(a: string, first: string, last: string, b: string)
    ensures a + (first + "-" + last) + b == (a + first) + "-" + (last + b)
  {
  }

  lemma GoodMeans(p: Padded)
    requires GoodPadded(p, '$')
    ensures AllSpace(p.left) && AllSpace(p.right) && Bare(p.text)
  {
  }

  lemma InnerGood(p: Padded)
    requires AllSpace(p.left) && AllSpace(p.right) && Bare(p.text)
    requires '$' !in p.left && '$' !in p.text && '$' !in p.right
    ensures GoodPadded(p, '$')
  {
  }

  lemma WholeIs(p: Padded)
    ensures Whole(p) == p.left + p.text + p.right
  {
  }

  lemma CloserIs(r: Range)
    ensures Whole(Closer(r).0) == if r.low.text == "" then "" else r.low.text + r.low.right
    ensures Whole(Closer(r).1) == if r.high.text == "" then "" else r.high.left + r.high.text
  {
  }

  lemma PartsWithout(p: Padded, a: string, b: string)
    requires GoodPadded(p, '$') && Whole(p) == a + b
    ensures '$' !in a && '$' !in b
  {
    Without(p.left, p.text, p.right);
    assert forall c | c in a || c in b :: c in a + b;
  }

  lemma Without(a: string, b: string, c: string)
    requires '$' !in a && '$' !in b && '$' !in c
    ensures '$' !in a + b + c
  {
  }

  lemma BareBetween(first: string, last: string)
    requires first != "" ==> !IsSpace(first[0])
    requires last != "" ==> !IsSpace(last[|last| - 1])
    ensures Bare(first + "-" + last)
  {
  }

  /** Its two pieces are the two numbers. */
  lemma EndsRead(r: Range)
    requires GoodPadded(r.low, '-') && GoodPadded(r.high, '-')
    ensures Parts(Whole(Closer(r).0) + "-" + Whole(Closer(r).1), '-', true) == [r.low.text, r.high.text]
  {
    hide Parts, Join, IsSpace, Whole;
    PlainMarks();
    var (low, high) := Closer(r);
    var ps := [low, high];
    assert GoodPadded(low, '-') && GoodPadded(high, '-');
    assert Wholes(ps) == [Whole(low), Whole(high)] && TextsOf(ps) == [r.low.text, r.high.text];
    PaddedPieces(ps, '-');
    TwoPieces(Whole(low), Whole(high), '-');
  }

  /** A written range is expanded to the names of its prefix and its numbers, both ends
      included, up or down, whatever white space stands around its parts. */
  lemma RangeReads(num: Numbers, b: Brackets, r: Range)
    requires GoodRange(num, r)
    ensures var names := Ranged(num, RangeText(r), '$', '-', b, true);
            names.Ok? && NamesOf(num, names.value, r.prefix.text, b, num.parse(r.low.text).value,
                                 num.parse(r.high.text).value)
  {
    hide Parts, Join, Trim;
    PlainMarks();
    var inner := InnerText(r);
    EndsRead(r);
    var ps := [r.prefix, inner];
    assert Wholes(ps) == [Whole(r.prefix), Whole(inner)] && TextsOf(ps) == [r.prefix.text, inner.text];
    PaddedPieces(ps, '$');
    TwoPieces(Whole(r.prefix), Whole(inner), '$');
  }

  function Tight(text: string): Padded {
    Padded("", text, "")
  }

  function Db(low: string, high: string): Range {
    Range(Tight("db"), Tight(low), Tight(high))
  }

  ghost predicate ReadsAndShows(num: Numbers) {
    && num.parse("1") == Some(1) && num.parse("3") == Some(3) && num.parse("10") == Some(10)
    && num.parse("11") == Some(11)
    && num.show(1) == "1" && num.show(2) == "2" && num.show(3) == "3" && num.show(10) == "10" && num.show(11) == "11"
  }

  lemma TightIs(text: string)
    ensures Whole(Tight(text)) == text
  {
    assert "" + text + "" == text;
  }

  lemma DbTexts()
    ensures RangeText(Db("1", "3")) == "db$1-3" && RangeText(Db("10", "11")) == "db$10-11"
    ensures RangeText(Db("3", "1")) == "db$3-1"
  {
    hide Whole;
    TightIs("db");
    TightIs("1");
    TightIs("3");
    TightIs("10");
    TightIs("11");
  }

  lemma DbList()
    ensures Join(Wholes([Tight("db$1-3"), Tight("db$10-11")]), ',') == "db$1-3,db$10-11"
    ensures TextsOf([Tight("db$1-3"), Tight("db$10-11")]) == ["db$1-3", "db$10-11"]
  {
    hide Whole, Join;
    TightIs("db$1-3");
    TightIs("db$10-11");
    assert Wholes([Tight("db$1-3"), Tight("db$10-11")]) == ["db$1-3", "db$10-11"];
    TwoPieces("db$1-3", "db$10-11", ',');
  }

  lemma DbRange(num: Numbers, low: string, high: string)
    requires ReadsAndShows(num) && low in {"1", "3", "10", "11"} && high in {"1", "3", "10", "11"}
    ensures GoodRange(num, Db(low, high))
  {
    assert IsSpace('d') == IsSpace('b') == IsSpace('1') == IsSpace('3') == IsSpace('0') == false;
  }

  lemma DbNames(num: Numbers, r: seq<string>, low: int, high: int)
    requires ReadsAndShows(num) && NamesOf(num, r, "db", Brackets("0", "0"), low, high)
    ensures low == 1 && high == 3 ==> r == ["db1", "db2", "db3"]
    ensures low == 3 && high == 1 ==> r == ["db3", "db2", "db1"]
    ensures low == 10 && high == 11 ==> r == ["db10", "db11"]
  {
    var b := Brackets("0", "0");
    assert Named(num, "db", b, 1) == "db1" && Named(num, "db", b, 2) == "db2" && Named(num, "db", b, 3) == "db3";
    assert Named(num, "db", b, 10) == "db10" && Named(num, "db", b, 11) == "db11";
    if low == 1 && high == 3 {
      assert r[0] == "db1" && r[1] == "db2" && r[2] == "db3";
    }
    if low == 3 && high == 1 {
      assert r[0] == "db3" && r[1] == "db2" && r[2] == "db1";
    }
    if low == 10 && high == 11 {
      assert r[0] == "db10" && r[1] == "db11";
    }
  }

  /** The example of the documentation, with its parts close together, and a range that
      runs downwards. */
  lemma DocumentedRanges(num: Numbers)
    requires ReadsAndShows(num)
    ensures RangedAll(num, Parts("db$1-3,db$10-11", ',', true), '$', '-', Brackets("0", "0"), true)
            == Ok(["db1", "db2", "db3", "db10", "db11"])
    ensures Ranged(num, "db$3-1", '$', '-', Brackets("0", "0"), true) == Ok(["db3", "db2", "db1"])
  {
    hide Parts, Join, Ranged, NamesOf, ReadsAndShows, GoodRange, RangeText;
    var b := Brackets("0", "0");
    DbTexts();
    DbRange(num, "1", "3");
    DbRange(num, "3", "1");
    DbRange(num, "10", "11");
    RangeReads(num, b, Db("1", "3"));
    RangeReads(num, b, Db("3", "1"));
    RangeReads(num, b, Db("10", "11"));
    ParsedEnds(num);
    var x, y := Ranged(num, "db$1-3", '$', '-', b, true).value, Ranged(num, "db$10-11", '$', '-', b, true).value;
    DbNames(num, x, 1, 3);
    DbNames(num, y, 10, 11);
    DbNames(num, Ranged(num, "db$3-1", '$', '-', b, true).value, 3, 1);
    DbPieces();
    TwoRanges(num, "db$1-3", "db$10-11", b, x, y);
    assert x + y == ["db1", "db2", "db3", "db10", "db11"];
  }

  lemma ParsedEnds(num: Numbers)
    requires ReadsAndShows(num)
    ensures num.parse("1") == Some(1) && num.parse("3") == Some(3) && num.parse("10") == Some(10)
    ensures num.parse("11") == Some(11)
  {
  }

  lemma DbPieces()
    ensures Parts("db$1-3,db$10-11", ',', true) == ["db$1-3", "db$10-11"]
  {
    hide Parts, Join;
    DbList();
    PlainMarks();
    var ps := [Tight("db$1-3"), Tight("db$10-11")];
    assert GoodPadded(ps[0], ',') && GoodPadded(ps[1], ',');
    PaddedPieces(ps, ',');
  }

  lemma TwoRanges(num: Numbers, s: string, t: string, b: Brackets, x: seq<string>, y: seq<string>)
    requires Ranged(num, s, '$', '-', b, true) == Ok(x) && Ranged(num, t, '$', '-', b, true) == Ok(y)
    ensures RangedAll(num, [s, t], '$', '-', b, true) == Ok(x + y)
  {
    hide Ranged;
    assert [s, t][1..] == [t] && [t][1..] == [];
    assert RangedAll(num, [], '$', '-', b, true) == Ok([]);
    assert RangedAll(num, [t], '$', '-', b, true) == Ok(y + []);
    assert y + [] == y;
  }
}
