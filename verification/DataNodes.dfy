/** Names of data nodes: how a definition like `dn$1-3,dn$10` is expanded, how
    the names are paired with hosts and databases, and how the nodes of a table
    are dealt out over the hosts. */
module DataNodes {
  import opened Texts
  import opened Wrappers

  // ---- splitting at a separator ----

  function Count(s: string, sep: char): nat {
    if s == "" then 0 else (if s[0] == sep then 1 else 0) + Count(s[1..], sep)
  }

  function Join(pieces: seq<string>, sep: char): string {
    if pieces == [] then ""
    else if |pieces| == 1 then pieces[0]
    else pieces[0] + [sep] + Join(pieces[1..], sep)
  }

  /** The place of the next separator from p on, or the end. */
  function IndexOf(s: string, sep: char, p: nat): (i: nat)
    requires p <= |s|
    ensures p <= i <= |s| && sep !in s[p..i] && (i < |s| ==> s[i] == sep)
    decreases |s| - p
  {
    if p == |s| || s[p] == sep then p
    else
      var i := IndexOf(s, sep, p + 1);
      assert s[p..i] == [s[p]] + s[p + 1..i];
      i
  }

  /** What `split` finds from p on: the texts between the separators. */
  function Pieces(s: string, sep: char, p: nat): seq<string>
    requires p <= |s|
    decreases |s| - p
  {
    var i := IndexOf(s, sep, p);
    if i == |s| then [s[p..]] else [s[p..i]] + Pieces(s, sep, i + 1)
  }

  lemma PiecesStep(s: string, sep: char, p: nat)
    requires p <= |s|
    ensures var i := IndexOf(s, sep, p);
            Pieces(s, sep, p) == if i == |s| then [s[p..]] else [s[p..i]] + Pieces(s, sep, i + 1)
  {
    hide IndexOf;
  }

  function TrimAll(ps: seq<string>): (r: seq<string>)
    ensures |r| == |ps| && forall k | 0 <= k < |ps| :: r[k] == Trim(ps[k])
  {
    seq(|ps|, k requires 0 <= k < |ps| => Trim(ps[k]))
  }

  /** The parts of a text: its pieces, trimmed before and after the cutting where
      that is asked for. */
  function Parts(s: string, sep: char, trim: bool): seq<string> {
    if trim then TrimAll(Pieces(Trim(s), sep, 0)) else Pieces(s, sep, 0)
  }

  lemma TrimAllAppend(r: seq<string>, x: string)
    ensures TrimAll(r + [x]) == TrimAll(r) + [Trim(x)]
  {
  }

  method Split(src: string, sep: char, trim: bool) returns (r: seq<string>)
    ensures r == Parts(src, sep, trim)
  {
    hide Pieces, IndexOf, Trim, TrimAll;
    var s := if trim then Trim(src) else src;
    r := [];
    var p: nat := 0;
    var i: nat := IndexOf(s, sep, 0);
    ghost var cut: seq<string>, rest := [], Pieces(s, sep, 0);
    while i < |s|
      invariant p <= |s| && i == IndexOf(s, sep, p)
      invariant rest == Pieces(s, sep, p) && Pieces(s, sep, 0) == cut + rest
      invariant r == if trim then TrimAll(cut) else cut
      decreases |s| - p
    {
      PiecesStep(s, sep, p);
      rest := Pieces(s, sep, i + 1);
      Shift(cut, s[p..i], rest);
      TrimAllAppend(cut, s[p..i]);
      cut := cut + [s[p..i]];
      r := r + [if trim then Trim(s[p..i]) else s[p..i]];
      p := i + 1;
      i := IndexOf(s, sep, p);
    }
    PiecesStep(s, sep, p);
    TrimAllAppend(cut, s[p..]);
    r := r + [if trim then Trim(s[p..]) else s[p..]];
  }

  lemma Shift(r: seq<string>, x: string, rest: seq<string>)
    ensures r + ([x] + rest) == r + [x] + rest
  {
  }

  lemma {:induction false} CountNone(s: string, sep: char)
    requires sep !in s
    ensures Count(s, sep) == 0
  {
    if s != "" {
      CountNone(s[1..], sep);
    }
  }

  lemma {:induction false} CountOver(a: string, sep: char, b: string)
    requires sep !in a
    ensures Count(a + [sep] + b, sep) == 1 + Count(b, sep)
  {
    if a == "" {
      assert (a + [sep] + b)[1..] == b;
    } else {
      assert (a + [sep] + b)[1..] == a[1..] + [sep] + b;
      CountOver(a[1..], sep, b);
    }
  }

  lemma JoinCons(x: string, ps: seq<string>, sep: char)
    requires ps != []
    ensures Join([x] + ps, sep) == x + [sep] + Join(ps, sep)
  {
    assert ([x] + ps)[1..] == ps;
  }

  /** Splitting gives one piece more than there are separators, none of which
      contains one, and joining them gives the text back. */
  lemma {:induction false} SplitJoins(s: string, sep: char, p: nat)
    requires p <= |s|
    ensures var ps := Pieces(s, sep, p);
            && Join(ps, sep) == s[p..] && |ps| == Count(s[p..], sep) + 1
            && forall k | 0 <= k < |ps| :: sep !in ps[k]
    decreases |s| - p
  {
    hide Pieces, IndexOf, Count;
    PiecesStep(s, sep, p);
    var i := IndexOf(s, sep, p);
    if i == |s| {
      assert s[p..i] == s[p..];
      CountNone(s[p..], sep);
    } else {
      hide Join;
      SplitJoins(s, sep, i + 1);
      CountOver(s[p..i], sep, s[i + 1..]);
      assert s[p..] == s[p..i] + [sep] + s[i + 1..];
      JoinCons(s[p..i], Pieces(s, sep, i + 1), sep);
    }
  }

  lemma Around(pre: string, a: string, sep: char, tail: string)
    ensures var s := pre + (a + [sep] + tail);
            && s == pre + a + ([sep] + tail) && s == pre + a + [sep] + tail
            && s[|pre|..|pre| + |a|] == a
  {
  }

  lemma LastPiece(pre: string, a: string, sep: char)
    requires sep !in a
    ensures Pieces(pre + a, sep, |pre|) == [a]
  {
    hide Pieces, IndexOf;
    PiecesStep(pre + a, sep, |pre|);
    IndexOver(pre, a, sep, "");
    assert pre + a + "" == pre + a && (pre + a)[|pre|..] == a;
  }

  lemma FirstPiece(pre: string, a: string, sep: char, tail: string)
    requires sep !in a
    ensures Pieces(pre + (a + [sep] + tail), sep, |pre|) == [a] + Pieces(pre + a + [sep] + tail, sep, |pre + a + [sep]|)
  {
    hide Pieces, IndexOf;
    PiecesStep(pre + (a + [sep] + tail), sep, |pre|);
    Around(pre, a, sep, tail);
    IndexOver(pre, a, sep, [sep] + tail);
  }

  /** Joining pieces without separators and splitting gives the pieces back: the
      pieces of a text are the only ones that join to it. */
  lemma {:induction false} JoinSplits(pre: string, ps: seq<string>, sep: char)
    requires ps != [] && forall k | 0 <= k < |ps| :: sep !in ps[k]
    ensures Pieces(pre + Join(ps, sep), sep, |pre|) == ps
    decreases |ps|
  {
    hide Pieces, IndexOf;
    if |ps| == 1 {
      LastPiece(pre, ps[0], sep);
    } else {
      FirstPiece(pre, ps[0], sep, Join(ps[1..], sep));
      JoinSplits(pre + ps[0] + [sep], ps[1..], sep);
    }
  }

  lemma {:induction false} IndexOver(pre: string, a: string, sep: char, b: string)
    requires sep !in a && (b == "" || b[0] == sep)
    ensures IndexOf(pre + a + b, sep, |pre|) == |pre| + |a|
    decreases |a|
  {
    if a != "" {
      assert pre + [a[0]] + a[1..] + b == pre + a + b;
      IndexOver(pre + [a[0]], a[1..], sep, b);
    }
  }

  // ---- ranges of names ----

  /** How numbers are read and written: library functions. */
  datatype Numbers = Numbers(parse: string -> Option<int>, show: int -> string)

  datatype Brackets = Brackets(left: string, right: string)

  /** A name of a range; a left bracket of "0" drops the right one too. */
  function Named(num: Numbers, prefix: string, b: Brackets, i: int): string {
    if b.left == "0" then prefix + num.show(i)
    else if b.right == "0" then prefix + b.left + num.show(i)
    else prefix + b.left + num.show(i) + b.right
  }

  function Distance(min: int, max: int): nat {
    if min <= max then max - min else min - max
  }

  /** The k-th number of a range that may run downwards. */
  function Nth(min: int, max: int, k: nat): int {
    if min <= max then min + k else min - k
  }

  datatype NameError =
    | NotARange | WrongCount | NoName | BlankField
    | Duplicate(name: string) | UnknownNode(name: string) | UnknownHost(host: string)

  function Names(num: Numbers, prefix: string, b: Brackets, min: int, max: int): (r: seq<string>)
    ensures |r| == Distance(min, max) + 1
    ensures forall k | 0 <= k < |r| :: r[k] == Named(num, prefix, b, Nth(min, max, k))
  {
    seq(Distance(min, max) + 1, k requires 0 <= k => Named(num, prefix, b, Nth(min, max, k)))
  }

  /** What `range2` makes of a text: the text itself without a first separator;
      the prefix alone before an empty range; otherwise the names of the range,
      whose ends are the first and the last piece of what follows. Anything behind
      a second first separator is ignored. */
  function Ranged(num: Numbers, s: string, fi: char, se: char, b: Brackets, trim: bool):
      Result<seq<string>, NameError>
  {
    var parts := Parts(s, fi, trim);
    if |parts| <= 1 then Ok(parts)
    else
      var ends := Parts(parts[1], se, trim);
      if |ends| == 1 && ends[0] == "" then Ok([parts[0]])
      else if |ends| == 0 || num.parse(ends[0]) == None || num.parse(ends[|ends| - 1]) == None then Err(NotARange)
      else Ok(Names(num, parts[0], b, num.parse(ends[0]).value, num.parse(ends[|ends| - 1]).value))
  }

  /** Runs up or down from one end to the other: both ends are in, and the k-th name
      is that of the k-th number. */
  method Enumerate(num: Numbers, prefix: string, b: Brackets, min: int, max: int) returns (r: seq<string>)
    ensures |r| == Distance(min, max) + 1
    ensures forall k | 0 <= k < |r| :: r[k] == Named(num, prefix, b, Nth(min, max, k))
    ensures r == Names(num, prefix, b, min, max)
  {
    r := [];
    var i := min;
    if min <= max {
      while i <= max
        invariant i <= max + 1 && |r| == i - min
        invariant forall k | 0 <= k < |r| :: r[k] == Named(num, prefix, b, min + k)
      {
        r := r + [Named(num, prefix, b, i)];
        i := i + 1;
      }
    } else {
      while i >= max
        invariant max - 1 <= i && |r| == min - i
        invariant forall k | 0 <= k < |r| :: r[k] == Named(num, prefix, b, min - k)
      {
        r := r + [Named(num, prefix, b, i)];
        i := i - 1;
      }
    }
  }

  method Range2(num: Numbers, s: string, fi: char, se: char, b: Brackets, trim: bool)
    returns (r: Result<seq<string>, NameError>)
    ensures r == Ranged(num, s, fi, se, b, trim)
  {
    hide Parts, Names;
    var parts := Split(s, fi, trim);
    if |parts| <= 1 {
      return Ok(parts);
    }
    var ends := Split(parts[1], se, trim);
    var n := |ends|;
    if n == 1 && ends[0] == "" {
      return Ok([parts[0]]);
    }
    if n == 0 || num.parse(ends[0]) == None || num.parse(ends[n - 1]) == None {
      return Err(NotARange);
    }
    var names := Enumerate(num, parts[0], b, num.parse(ends[0]).value, num.parse(ends[n - 1]).value);
    r := Ok(names);
  }

  /** Names made so far, with what the rest makes; the first bad range throws. */
  function Followed(done: seq<string>, rest: Result<seq<string>, NameError>): Result<seq<string>, NameError> {
    var names :- rest;
    Ok(done + names)
  }

  function RangedAll(num: Numbers, texts: seq<string>, se: char, th: char, b: Brackets, trim: bool):
      Result<seq<string>, NameError>
  {
    if texts == [] then Ok([])
    else
      var names :- Ranged(num, texts[0], se, th, b, trim);
      Followed(names, RangedAll(num, texts[1..], se, th, b, trim))
  }

  /** A list of ranges, one behind the other. */
  method Range3(num: Numbers, s: string, fi: char, se: char, th: char, b: Brackets, trim: bool)
    returns (r: Result<seq<string>, NameError>)
    ensures r == RangedAll(num, Parts(s, fi, trim), se, th, b, trim)
  {
    hide Ranged, Parts;
    var texts := Split(s, fi, trim);
    var names: seq<string> := [];
    FollowedNone(RangedAll(num, texts, se, th, b, trim));
    assert texts[0..] == texts;
    for i := 0 to |texts|
      invariant RangedAll(num, texts, se, th, b, trim) == Followed(names, RangedAll(num, texts[i..], se, th, b, trim))
    {
      assert texts[i..][1..] == texts[i + 1..];
      FollowedTwice(names, Ranged(num, texts[i], se, th, b, trim), RangedAll(num, texts[i + 1..], se, th, b, trim));
      var more :- Range2(num, texts[i], se, th, b, trim);
      names := names + more;
    }
    assert names + [] == names;
    r := Ok(names);
  }

  lemma FollowedNone(rest: Result<seq<string>, NameError>)
    ensures Followed([], rest) == rest
  {
    if rest.Ok? {
      assert [] + rest.value == rest.value;
    }
  }

  lemma FollowedTwice(a: seq<string>, b: Result<seq<string>, NameError>, rest: Result<seq<string>, NameError>)
    ensures b.Ok? ==> Followed(a, Followed(b.value, rest)) == Followed(a + b.value, rest)
  {
    if b.Ok? && rest.Ok? {
      assert a + (b.value + rest.value) == a + b.value + rest.value;
    }
  }

  // ---- nodes, hosts and databases ----

  datatype Node = Node(name: string, database: string, host: string)

  lemma {:induction false} Multiples(a: nat, b: nat, d: nat)
    requires a > b
    ensures a * d >= b * d + d
  {
    if a > b + 1 {
      Multiples(a - 1, b, d);
      assert a * d == (a - 1) * d + d;
    }
  }

  /** Host and database of a position. */
  lemma Position(h: nat, d: nat, k: nat)
    requires k < d
    ensures (h * d + k) / d == h && (h * d + k) % d == k
  {
    var n := h * d + k;
    var q, r := n / d, n % d;
    assert n == q * d + r;
    if q > h {
      Multiples(q, h, d);
    } else if q < h {
      Multiples(h, q, d);
    }
  }

  predicate PairAt(pair: (string, string), hosts: seq<string>, databases: seq<string>, i: nat) {
    && |databases| > 0 && i / |databases| < |hosts|
    && pair == (hosts[i / |databases|], databases[i % |databases|])
  }

  lemma PairIs(hosts: seq<string>, databases: seq<string>, h: nat, k: nat, i: nat)
    requires h < |hosts| && k < |databases| && i == h * |databases| + k
    ensures PairAt((hosts[h], databases[k]), hosts, databases, i)
  {
    Position(h, |databases|, k);
  }

  lemma NextRow(h: nat, d: nat)
    ensures (h + 1) * d == h * d + d
  {
  }

  /** Every host with every database, host by host. */
  method MergeHostDatabases(hosts: seq<string>, databases: seq<string>) returns (r: seq<(string, string)>)
    ensures |r| == |hosts| * |databases|
    ensures forall i | 0 <= i < |r| :: PairAt(r[i], hosts, databases, i)
  {
    hide PairAt;
    var d := |databases|;
    r := [];
    ghost var start := 0;
    for h := 0 to |hosts|
      invariant |r| == start == h * d
      invariant forall i | 0 <= i < |r| :: PairAt(r[i], hosts, databases, i)
    {
      for k := 0 to d
        invariant |r| == start + k
        invariant forall i | 0 <= i < |r| :: PairAt(r[i], hosts, databases, i)
      {
        PairIs(hosts, databases, h, k, start + k);
        r := r + [(hosts[h], databases[k])];
      }
      NextRow(h, d);
      start := start + d;
    }
  }

  /** Host and database of the i-th node. */
  function PairOf(hosts: seq<string>, databases: seq<string>, i: nat): (string, string) {
    if |databases| > 0 && i / |databases| < |hosts| then (hosts[i / |databases|], databases[i % |databases|])
    else ("", "")
  }

  /** Why a node is refused when the names in `taken` are in use: a blank field
      first, then its name, then its host. */
  function Refusal(name: string, pair: (string, string), taken: set<string>, known: set<string>): Option<NameError> {
    if Blank(name) || Blank(pair.1) || Blank(pair.0) then Some(BlankField)
    else if name in taken then Some(Duplicate(name))
    else if pair.0 !in known then Some(UnknownHost(pair.0))
    else None
  }

  /** A blank field is reported whatever else is wrong, a name in use whatever is wrong
      with the host, and an unknown host only of a new node without blank fields. */
  lemma RefusalTells(name: string, database: string, host: string, taken: set<string>, known: set<string>)
    ensures var e := Refusal(name, (host, database), taken, known);
            var blank := Trim(name) == "" || Trim(database) == "" || Trim(host) == "";
            && (e == Some(BlankField) <==> blank)
            && (e == Some(Duplicate(name)) <==> !blank && name in taken)
            && (e == Some(UnknownHost(host)) <==> !blank && name !in taken && host !in known)
            && (e == None <==> !blank && name !in taken && host in known)
  {
    hide Trim;
  }

  function InUse(taken: set<string>, names: seq<string>, i: nat): set<string> {
    taken + set k | 0 <= k < i && k < |names| :: names[k]
  }

  function RefusalAt(names: seq<string>, databases: seq<string>, hosts: seq<string>, taken: set<string>,
                     known: set<string>, i: nat): Option<NameError>
    requires i < |names|
  {
    Refusal(names[i], PairOf(hosts, databases, i), InUse(taken, names, i), known)
  }

  /** What a definition has to be like for all its nodes to be made. */
  predicate Definable(names: seq<string>, databases: seq<string>, hosts: seq<string>, taken: set<string>,
                      known: set<string>) {
    && |names| == |hosts| * |databases| && |names| > 0
    && (forall i | 0 <= i < |names| :: !Blank(names[i]) && names[i] !in taken)
    && (forall i, j | 0 <= i < j < |names| :: names[i] != names[j])
    && (forall h | 0 <= h < |hosts| :: !Blank(hosts[h]) && hosts[h] in known)
    && (forall k | 0 <= k < |databases| :: !Blank(databases[k]))
  }

  lemma PairsExist(hosts: seq<string>, databases: seq<string>, i: nat)
    requires i < |hosts| * |databases|
    ensures |databases| > 0 && i / |databases| < |hosts| && PairAt(PairOf(hosts, databases, i), hosts, databases, i)
  {
    var d := |databases|;
    NoProduct(|hosts|, d);
    if i / d >= |hosts| {
      NoSmaller(|hosts|, i / d, d);
    }
  }

  lemma NoProduct(h: nat, d: nat)
    ensures d == 0 ==> h * d == 0
  {
  }

  lemma NoSmaller(a: nat, b: nat, d: nat)
    requires a <= b
    ensures a * d <= b * d
  {
    if a < b {
      Multiples(b, a, d);
    }
  }

  /** Every host and every database is used by some node. */
  lemma UsedSomewhere(hosts: seq<string>, databases: seq<string>, h: nat, k: nat) returns (i: nat)
    requires h < |hosts| && k < |databases|
    ensures i < |hosts| * |databases| && PairOf(hosts, databases, i) == (hosts[h], databases[k])
  {
    i := h * |databases| + k;
    PairIs(hosts, databases, h, k, i);
    NextRow(h, |databases|);
    NoSmaller(h + 1, |hosts|, |databases|);
  }

  /** No node is refused exactly when the definition is as it has to be. */
  lemma DefinableIff(names: seq<string>, databases: seq<string>, hosts: seq<string>, taken: set<string>,
                     known: set<string>)
    requires |names| == |hosts| * |databases| && |names| > 0
    ensures Definable(names, databases, hosts, taken, known)
            <==> forall i | 0 <= i < |names| :: RefusalAt(names, databases, hosts, taken, known, i) == None
  {
    hide Definable, RefusalAt;
    if Definable(names, databases, hosts, taken, known) {
      forall i | 0 <= i < |names| ensures RefusalAt(names, databases, hosts, taken, known, i) == None {
        NodeMade(names, databases, hosts, taken, known, i);
      }
    }
    if forall i | 0 <= i < |names| :: RefusalAt(names, databases, hosts, taken, known, i) == None {
      AllMade(names, databases, hosts, taken, known);
    }
  }

  lemma NodeMade(names: seq<string>, databases: seq<string>, hosts: seq<string>, taken: set<string>,
                 known: set<string>, i: nat)
    requires Definable(names, databases, hosts, taken, known) && i < |names|
    ensures RefusalAt(names, databases, hosts, taken, known, i) == None
  {
    hide Blank, PairOf;
    PairsExist(hosts, databases, i);
    var k := i % |databases|;
    assert !Blank(hosts[i / |databases|]) && !Blank(databases[k]);
    assert names[i] !in InUse(taken, names, i);
  }

  lemma AllMade(names: seq<string>, databases: seq<string>, hosts: seq<string>, taken: set<string>,
                known: set<string>)
    requires |names| == |hosts| * |databases| && |names| > 0
    requires forall i | 0 <= i < |names| :: RefusalAt(names, databases, hosts, taken, known, i) == None
    ensures Definable(names, databases, hosts, taken, known)
  {
    hide Blank, PairOf;
    PairsExist(hosts, databases, 0);
    forall h | 0 <= h < |hosts| ensures !Blank(hosts[h]) && hosts[h] in known {
      var i := UsedSomewhere(hosts, databases, h, 0);
      assert RefusalAt(names, databases, hosts, taken, known, i) == None;
    }
    forall k | 0 <= k < |databases| ensures !Blank(databases[k]) {
      var i := UsedSomewhere(hosts, databases, 0, k);
      assert RefusalAt(names, databases, hosts, taken, known, i) == None;
    }
    forall i | 0 <= i < |names|
      ensures !Blank(names[i]) && names[i] !in taken && forall j | 0 <= j < i :: names[j] != names[i]
    {
      assert RefusalAt(names, databases, hosts, taken, known, i) == None;
    }
  }

  /** The nodes of one definition, its names already expanded. The first node that
      is refused throws; without any name there is none to make. */
  method DefineNodes(names: seq<string>, databases: seq<string>, hosts: seq<string>, taken: set<string>,
                     known: set<string>)
    returns (r: Result<seq<Node>, NameError>)
    ensures r == Err(WrongCount) <==> |names| != |hosts| * |databases|
    ensures r == Err(NoName) <==> |names| == |hosts| * |databases| == 0
    ensures r.Ok? <==> Definable(names, databases, hosts, taken, known)
    ensures |names| == |hosts| * |databases| ==>
              forall i | 0 <= i < |names| && RefusalAt(names, databases, hosts, taken, known, i).Some?
                         && (forall k | 0 <= k < i :: RefusalAt(names, databases, hosts, taken, known, k) == None) ::
                r == Err(RefusalAt(names, databases, hosts, taken, known, i).value)
    ensures r.Ok? ==> |r.value| == |names|
                      && forall i | 0 <= i < |names| ::
                           && r.value[i].name == names[i]
                           && PairAt((r.value[i].host, r.value[i].database), hosts, databases, i)
  {
    hide PairAt, Blank, Definable;
    if |names| != |hosts| * |databases| {
      NotDefinable(names, databases, hosts, taken, known);
      return Err(WrongCount);
    }
    if |names| == 0 {
      NotDefinable(names, databases, hosts, taken, known);
      return Err(NoName);
    }
    DefinableIff(names, databases, hosts, taken, known);
    var pairs := MergeHostDatabases(hosts, databases);
    var nodes: seq<Node> := [];
    var all := taken;
    for i := 0 to |names|
      invariant |nodes| == i && all == InUse(taken, names, i)
      invariant forall k | 0 <= k < i :: RefusalAt(names, databases, hosts, taken, known, k) == None
      invariant forall k | 0 <= k < i ::
                  nodes[k].name == names[k] && PairAt((nodes[k].host, nodes[k].database), hosts, databases, k)
    {
      PairIsOf(pairs[i], hosts, databases, i);
      var e := Refusal(names[i], pairs[i], all, known);
      assert e == RefusalAt(names, databases, hosts, taken, known, i);
      if e.Some? {
        return Err(e.value);
      }
      nodes := nodes + [Node(names[i], pairs[i].1, pairs[i].0)];
      all := all + {names[i]};
    }
    r := Ok(nodes);
  }

  lemma PairIsOf(pair: (string, string), hosts: seq<string>, databases: seq<string>, i: nat)
    requires PairAt(pair, hosts, databases, i)
    ensures pair == PairOf(hosts, databases, i)
  {
  }

  lemma NotDefinable(names: seq<string>, databases: seq<string>, hosts: seq<string>, taken: set<string>,
                     known: set<string>)
    requires |names| != |hosts| * |databases| || |names| == 0
    ensures !Definable(names, databases, hosts, taken, known)
  {
  }

  // ---- dealing nodes out over hosts ----

  /** Every name once, where it comes first. */
  function Deduped(names: seq<string>): seq<string> {
    if names == [] then []
    else
      var before := names[..|names| - 1];
      var name := names[|names| - 1];
      if name in before then Deduped(before) else Deduped(before) + [name]
  }

  lemma {:induction false} DedupedHas(names: seq<string>)
    ensures forall x :: x in Deduped(names) <==> x in names
    ensures forall i, j | 0 <= i < j < |Deduped(names)| :: Deduped(names)[i] != Deduped(names)[j]
    ensures |Deduped(names)| <= |names|
  {
    if names != [] {
      DedupedHas(names[..|names| - 1]);
      assert names == names[..|names| - 1] + [names[|names| - 1]];
    }
  }

  predicate NoRepeats(names: seq<string>) {
    forall i, j | 0 <= i < j < |names| :: names[i] != names[j]
  }

  /** The names stay as they are, in their order, exactly when none is repeated. */
  lemma {:induction false} DedupedIsSameIff(names: seq<string>)
    ensures Deduped(names) == names <==> NoRepeats(names)
  {
    DedupedHas(names);
    if names != [] && NoRepeats(names) {
      var before := names[..|names| - 1];
      DedupedIsSameIff(before);
      assert names == before + [names[|names| - 1]];
      assert names[|names| - 1] !in before;
    }
  }

  /** A list of names kept under a key. */
  datatype Entry = Entry(key: string, names: seq<string>)

  /** Puts a fresh list under a key, in place or at the end. */
  function Put(cache: seq<Entry>, key: string, names: seq<string>): seq<Entry> {
    if cache == [] then [Entry(key, names)]
    else if cache[0].key == key then [Entry(key, names)] + cache[1..]
    else [cache[0]] + Put(cache[1..], key, names)
  }

  /** The cache of singletons in the order of their keys. */
  function Singles(names: seq<string>): seq<Entry> {
    if names == [] then [] else [Entry(names[0], [names[0]])] + Singles(names[1..])
  }

  lemma {:induction false} PutSingle(names: seq<string>, name: string)
    ensures Put(Singles(names), name, [name]) == if name in names then Singles(names) else Singles(names + [name])
  {
    if names != [] {
      PutSingle(names[1..], name);
      assert (names + [name])[1..] == names[1..] + [name];
      assert names == [names[0]] + names[1..];
      assert Singles(names)[1..] == Singles(names[1..]);
    }
  }

  lemma {:induction false} SinglesLength(names: seq<string>)
    ensures |Singles(names)| == |names|
    ensures forall i | 0 <= i < |names| :: Singles(names)[i] == Entry(names[i], [names[i]])
  {
    if names != [] {
      SinglesLength(names[1..]);
    }
  }

  /** One round takes the first name of every list that has one. */
  function Heads(cache: seq<Entry>): seq<string> {
    if cache == [] then []
    else (if cache[0].names != [] then [cache[0].names[0]] else []) + Heads(cache[1..])
  }

  function Tails(cache: seq<Entry>): (r: seq<Entry>)
    ensures |r| == |cache|
    ensures forall i | 0 <= i < |cache| ::
              r[i] == cache[i].(names := if cache[i].names != [] then cache[i].names[1..] else [])
  {
    if cache == [] then []
    else [cache[0].(names := if cache[0].names != [] then cache[0].names[1..] else [])] + Tails(cache[1..])
  }

  function Left(cache: seq<Entry>): nat {
    if cache == [] then 0 else |cache[0].names| + Left(cache[1..])
  }

  lemma {:induction false} RoundTakes(cache: seq<Entry>)
    ensures Left(Tails(cache)) + |Heads(cache)| == Left(cache)
  {
    if cache != [] {
      assert Tails(cache)[1..] == Tails(cache[1..]);
      RoundTakes(cache[1..]);
    }
  }

  /** Round after round, until all lists are empty. */
  function Dealt(cache: seq<Entry>): seq<string>
    decreases Left(cache)
  {
    RoundTakes(cache);
    if Heads(cache) == [] then [] else Heads(cache) + Dealt(Tails(cache))
  }

  lemma {:induction false} HeadsAppend(a: seq<Entry>, b: seq<Entry>)
    ensures Heads(a + b) == Heads(a) + Heads(b)
  {
    if a == [] {
      assert a + b == b;
    } else {
      assert (a + b)[1..] == a[1..] + b;
      HeadsAppend(a[1..], b);
    }
  }

  lemma HeadsStep(cache: seq<Entry>, i: nat)
    requires i < |cache|
    ensures Heads(cache[..i + 1]) == Heads(cache[..i]) + (if cache[i].names != [] then [cache[i].names[0]] else [])
  {
    assert cache[..i + 1] == cache[..i] + [cache[i]];
    HeadsAppend(cache[..i], [cache[i]]);
    assert [cache[i]][1..] == [];
  }

  /** One round, shifting the lists in place. */
  method Round(lists: seq<Entry>) returns (taken: seq<string>, cache: seq<Entry>)
    ensures taken == Heads(lists) && cache == Tails(lists)
  {
    hide Heads, Tails;
    taken, cache := [], lists;
    NoHeads(lists);
    for i := 0 to |lists|
      invariant |cache| == |lists| && taken == Heads(lists[..i])
      invariant forall j | 0 <= j < i :: cache[j] == Tails(lists)[j]
      invariant forall j | i <= j < |cache| :: cache[j] == lists[j]
    {
      HeadsStep(lists, i);
      if cache[i].names != [] {
        taken := taken + [cache[i].names[0]];
        cache := cache[i := cache[i].(names := cache[i].names[1..])];
      }
    }
    assert lists[..|lists|] == lists;
  }

  /** Rounds until one takes nothing. */
  method Deal(lists: seq<Entry>) returns (newNames: seq<string>)
    ensures newNames == Dealt(lists)
  {
    hide Dealt, Heads, Left, Tails;
    newNames := [];
    var cache := lists;
    var over := false;
    while !over
      invariant Dealt(lists) == newNames + (if over then [] else Dealt(cache))
      decreases !over, Left(cache)
    {
      DealtStep(cache);
      ghost var before, behind := newNames, Dealt(Tails(cache));
      var taken, shifted := Round(cache);
      over := taken == [];
      newNames := newNames + taken;
      cache := shifted;
      Regroup(before, taken, behind);
    }
  }

  lemma Regroup(a: seq<string>, b: seq<string>, c: seq<string>)
    ensures a + (b + c) == a + b + c && a + b + [] == a + b
  {
  }

  lemma NoHeads(cache: seq<Entry>)
    ensures Heads(cache[..0]) == []
  {
  }

  lemma DealtStep(cache: seq<Entry>)
    ensures Dealt(cache) == Heads(cache) + (if Heads(cache) == [] then [] else Dealt(Tails(cache)))
    ensures Heads(cache) != [] ==> Left(Tails(cache)) < Left(cache)
  {
    RoundTakes(cache);
  }

  lemma {:induction false} DealtSingles(names: seq<string>)
    ensures Dealt(Singles(names)) == names
  {
    var cache := Singles(names);
    SinglesLength(names);
    SingleHeads(names);
    NoneLeft(Tails(cache));
    DealtStep(cache);
    DealtStep(Tails(cache));
    assert names + [] == names;
  }

  lemma {:induction false} SingleHeads(names: seq<string>)
    ensures Heads(Singles(names)) == names
  {
    if names != [] {
      SingleHeads(names[1..]);
      assert Singles(names)[1..] == Singles(names[1..]);
    }
  }

  lemma {:induction false} NoneLeft(cache: seq<Entry>)
    requires forall i | 0 <= i < |cache| :: cache[i].names == []
    ensures Heads(cache) == []
  {
    if cache != [] {
      NoneLeft(cache[1..]);
    }
  }

  lemma NoNames(names: seq<string>)
    ensures Singles(Deduped(names[..0])) == []
  {
  }

  lemma DedupedStep(names: seq<string>, i: nat)
    requires i < |names|
    ensures var d := Deduped(names[..i]);
            Deduped(names[..i + 1]) == if names[i] in d then d else d + [names[i]]
  {
    DedupedHas(names[..i]);
    assert names[..i + 1][..i] == names[..i];
  }

  /** `distributeDataNodes` as it stands: it looks a list up by host but keeps it
      by node, so every node has a list of its own and the rounds change nothing
      but repetitions. A node stands for its name; an unknown one throws. */
  method Distribute(names: seq<string>, known: set<string>) returns (r: Result<seq<string>, NameError>)
    ensures r.Ok? <==> forall i | 0 <= i < |names| :: names[i] in known
    ensures r.Ok? ==> r.value == Deduped(names)
  {
    var cache: seq<Entry> := [];
    NoNames(names);
    hide Put, Singles, Deduped;
    for i := 0 to |names|
      invariant forall k | 0 <= k < i :: names[k] in known
      invariant cache == Singles(Deduped(names[..i]))
    {
      if names[i] !in known {
        return Err(UnknownNode(names[i]));
      }
      DedupedStep(names, i);
      PutSingle(Deduped(names[..i]), names[i]);
      cache := Put(cache, names[i], [names[i]]);
    }
    assert names[..|names|] == names;
    DealtSingles(Deduped(names));
    var newNames := Deal(cache);
    r := Ok(newNames);
  }

  // ---- as it is meant: one list a host ----

  /** The names of a host, in their order. */
  function OfHost(names: seq<string>, host: string -> string, h: string): seq<string> {
    if names == [] then []
    else (if host(names[0]) == h then [names[0]] else []) + OfHost(names[1..], host, h)
  }

  lemma {:induction false} OfHostAppend(a: seq<string>, b: seq<string>, host: string -> string, h: string)
    ensures OfHost(a + b, host, h) == OfHost(a, host, h) + OfHost(b, host, h)
  {
    if a == [] {
      assert a + b == b;
    } else {
      assert (a + b)[1..] == a[1..] + b;
      OfHostAppend(a[1..], b, host, h);
    }
  }

  lemma {:induction false} OfHostCounts(names: seq<string>, host: string -> string, x: string)
    ensures multiset(OfHost(names, host, host(x)))[x] == multiset(names)[x]
  {
    if names != [] {
      OfHostCounts(names[1..], host, x);
      var first := if host(names[0]) == host(x) then [names[0]] else [];
      assert names == [names[0]] + names[1..];
      assert multiset(first + OfHost(names[1..], host, host(x)))
          == multiset(first) + multiset(OfHost(names[1..], host, host(x)));
    }
  }

  /** A list that agrees with another host by host is a permutation of it. */
  lemma SameHostsPermute(a: seq<string>, b: seq<string>, host: string -> string)
    requires forall h :: OfHost(a, host, h) == OfHost(b, host, h)
    ensures multiset(a) == multiset(b)
  {
    forall x: string ensures multiset(a)[x] == multiset(b)[x] {
      OfHostCounts(a, host, x);
      OfHostCounts(b, host, x);
    }
  }

  function ListOf(cache: seq<Entry>, h: string): seq<string> {
    if cache == [] then [] else if cache[0].key == h then cache[0].names else ListOf(cache[1..], h)
  }

  /** Each list holds names of its own host, and no host has two. */
  predicate ByHost(cache: seq<Entry>, host: string -> string) {
    && (forall i, j | 0 <= i < j < |cache| :: cache[i].key != cache[j].key)
    && (forall i, k | 0 <= i < |cache| && 0 <= k < |cache[i].names| :: host(cache[i].names[k]) == cache[i].key)
  }

  lemma TailsByHost(cache: seq<Entry>, host: string -> string)
    requires ByHost(cache, host)
    ensures ByHost(Tails(cache), host)
  {
    hide Tails;
    var r := Tails(cache);
    forall i, k | 0 <= i < |r| && 0 <= k < |r[i].names| ensures host(r[i].names[k]) == r[i].key {
      assert r[i].names[k] == cache[i].names[k + 1];
    }
  }

  lemma RestByHost(cache: seq<Entry>, host: string -> string)
    requires ByHost(cache, host) && cache != []
    ensures ByHost(cache[1..], host) && forall i | 0 <= i < |cache[1..]| :: cache[1..][i].key != cache[0].key
  {
    var rest := cache[1..];
    assert forall i | 0 <= i < |rest| :: rest[i] == cache[i + 1];
  }

  /** What one round takes from a list. */
  function Taken(e: Entry): seq<string> {
    if e.names != [] then [e.names[0]] else []
  }

  lemma TakenOfHost(e: Entry, host: string -> string, h: string)
    requires forall k | 0 <= k < |e.names| :: host(e.names[k]) == e.key
    ensures OfHost(Taken(e), host, h) == if e.key == h then Taken(e) else []
  {
    if e.names != [] {
      assert Taken(e)[1..] == [];
    }
  }

  lemma {:induction false} RoundByHost(cache: seq<Entry>, host: string -> string, h: string)
    requires ByHost(cache, host)
    ensures OfHost(Heads(cache), host, h) + ListOf(Tails(cache), h) == ListOf(cache, h)
    ensures (forall i | 0 <= i < |cache| :: cache[i].key != h) ==> OfHost(Heads(cache), host, h) == []
  {
    if cache != [] {
      var first, rest := cache[0], cache[1..];
      RestByHost(cache, host);
      RoundByHost(rest, host, h);
      TakenOfHost(first, host, h);
      OfHostAppend(Taken(first), Heads(rest), host, h);
      assert Tails(cache)[1..] == Tails(rest) && Heads(cache) == Taken(first) + Heads(rest);
      hide Heads, OfHost, Tails, ByHost;
    }
  }

  /** Dealing keeps the order of every host's names. */
  lemma {:induction false} DealtKeepsHosts(cache: seq<Entry>, host: string -> string, h: string)
    requires ByHost(cache, host)
    ensures OfHost(Dealt(cache), host, h) == ListOf(cache, h)
    decreases Left(cache)
  {
    RoundByHost(cache, host, h);
    TailsByHost(cache, host);
    DealtStep(cache);
    if Heads(cache) == [] {
      AllEmpty(cache, h);
    } else {
      DealtKeepsHosts(Tails(cache), host, h);
      OfHostAppend(Heads(cache), Dealt(Tails(cache)), host, h);
    }
  }

  lemma {:induction false} AllEmpty(cache: seq<Entry>, h: string)
    requires Heads(cache) == []
    ensures ListOf(cache, h) == []
  {
    if cache != [] {
      AllEmpty(cache[1..], h);
    }
  }

  /** How many names of its host come before the i-th. */
  function Rank(r: seq<string>, host: string -> string, i: nat): nat
    requires i < |r|
  {
    |OfHost(r[..i], host, host(r[i]))|
  }

  /** Dealt out: no host has its next name before every host that still has one
      had its turn. */
  predicate RanksRise(r: seq<string>, host: string -> string) {
    forall i, j | 0 <= i < j < |r| :: Rank(r, host, i) <= Rank(r, host, j)
  }

  lemma {:induction false} ShiftedList(cache: seq<Entry>, h: string)
    ensures ListOf(Tails(cache), h) == if ListOf(cache, h) == [] then [] else ListOf(cache, h)[1..]
  {
    if cache != [] {
      assert Tails(cache)[1..] == Tails(cache[1..]);
      ShiftedList(cache[1..], h);
    }
  }

  /** A round takes one name from each host that has one. */
  lemma RoundTakesOne(cache: seq<Entry>, host: string -> string, h: string)
    requires ByHost(cache, host)
    ensures |OfHost(Heads(cache), host, h)| == if ListOf(cache, h) == [] then 0 else 1
  {
    hide Heads, OfHost, Tails, ByHost, ListOf;
    RoundByHost(cache, host, h);
    ShiftedList(cache, h);
  }

  lemma OfHostOne(x: string, host: string -> string)
    ensures OfHost([x], host, host(x)) == [x]
  {
    assert [x][1..] == [];
  }

  /** A name's own host has one more name with it than before it. */
  lemma RankBelow(r: seq<string>, host: string -> string, i: nat)
    requires i < |r|
    ensures Rank(r, host, i) < |OfHost(r, host, host(r[i]))|
  {
    var h := host(r[i]);
    assert r == r[..i] + [r[i]] + r[i + 1..];
    OfHostAppend(r[..i] + [r[i]], r[i + 1..], host, h);
    OfHostAppend(r[..i], [r[i]], host, h);
    OfHostOne(r[i], host);
  }

  lemma RankFront(a: seq<string>, b: seq<string>, host: string -> string, i: nat)
    requires i < |a|
    ensures Rank(a + b, host, i) == Rank(a, host, i)
  {
    assert (a + b)[..i] == a[..i];
  }

  lemma RankBehind(a: seq<string>, b: seq<string>, host: string -> string, i: nat)
    requires i < |b|
    ensures Rank(a + b, host, |a| + i) == |OfHost(a, host, host(b[i]))| + Rank(b, host, i)
  {
    assert (a + b)[..|a| + i] == a + b[..i];
    OfHostAppend(a, b[..i], host, host(b[i]));
  }

  lemma {:induction false} DealtRises(cache: seq<Entry>, host: string -> string)
    requires ByHost(cache, host)
    ensures RanksRise(Dealt(cache), host)
    decreases Left(cache)
  {
    DealtStep(cache);
    if Heads(cache) != [] {
      TailsByHost(cache, host);
      DealtRises(Tails(cache), host);
      RoundRises(cache, host);
    }
  }

  lemma RoundRises(cache: seq<Entry>, host: string -> string)
    requires ByHost(cache, host) && ByHost(Tails(cache), host) && RanksRise(Dealt(Tails(cache)), host)
    ensures RanksRise(Heads(cache) + Dealt(Tails(cache)), host)
  {
    hide Heads, OfHost, Tails, ByHost, ListOf, Dealt, Rank;
    var a, b := Heads(cache), Dealt(Tails(cache));
    forall i | 0 <= i < |a| ensures Rank(a + b, host, i) == 0 {
      RankFront(a, b, host, i);
      RankBelow(a, host, i);
      RoundTakesOne(cache, host, host(a[i]));
    }
    forall i | 0 <= i < |b| ensures Rank(a + b, host, |a| + i) == 1 + Rank(b, host, i) {
      RankBehind(a, b, host, i);
      RankBelow(b, host, i);
      DealtKeepsHosts(Tails(cache), host, host(b[i]));
      ShiftedList(cache, host(b[i]));
      RoundTakesOne(cache, host, host(b[i]));
    }
    forall i, j | 0 <= i < j < |a + b| ensures Rank(a + b, host, i) <= Rank(a + b, host, j) {
      if i >= |a| {
        assert Rank(a + b, host, |a| + (i - |a|)) == 1 + Rank(b, host, i - |a|);
        assert Rank(a + b, host, |a| + (j - |a|)) == 1 + Rank(b, host, j - |a|);
      }
    }
  }

  /** Adds a name to the list of its host, or starts one. */
  function Add(cache: seq<Entry>, h: string, name: string): seq<Entry> {
    if cache == [] then [Entry(h, [name])]
    else if cache[0].key == h then [Entry(h, cache[0].names + [name])] + cache[1..]
    else [cache[0]] + Add(cache[1..], h, name)
  }

  lemma {:induction false} AddByHost(cache: seq<Entry>, host: string -> string, name: string, h: string)
    requires ByHost(cache, host)
    ensures ByHost(Add(cache, host(name), name), host)
    ensures ListOf(Add(cache, host(name), name), h)
            == if h == host(name) then ListOf(cache, h) + [name] else ListOf(cache, h)
    ensures forall i | 0 <= i < |Add(cache, host(name), name)| ::
              Add(cache, host(name), name)[i].key == host(name) || exists j | 0 <= j < |cache| ::
                cache[j].key == Add(cache, host(name), name)[i].key
  {
    if cache != [] {
      var rest := cache[1..];
      assert forall i | 0 <= i < |rest| :: rest[i] == cache[i + 1];
      AddByHost(rest, host, name, h);
    }
  }

  /** `distributeDataNodes` with its lists kept by host: a permutation that keeps
      the order of every host's names and gives the hosts their turns. */
  method DistributeByHost(names: seq<string>, host: string -> string) returns (r: seq<string>)
    ensures forall h :: OfHost(r, host, h) == OfHost(names, host, h)
    ensures multiset(r) == multiset(names)
    ensures RanksRise(r, host)
  {
    var cache: seq<Entry> := [];
    for i := 0 to |names|
      invariant ByHost(cache, host)
      invariant forall h :: ListOf(cache, h) == OfHost(names[..i], host, h)
    {
      assert names[..i + 1] == names[..i] + [names[i]];
      forall h ensures ListOf(Add(cache, host(names[i]), names[i]), h) == OfHost(names[..i + 1], host, h) {
        AddByHost(cache, host, names[i], h);
        OfHostAppend(names[..i], [names[i]], host, h);
        assert [names[i]][1..] == [];
      }
      AddByHost(cache, host, names[i], "");
      cache := Add(cache, host(names[i]), names[i]);
    }
    assert names[..|names|] == names;
    r := Deal(cache);
    forall h ensures OfHost(r, host, h) == OfHost(names, host, h) {
      DealtKeepsHosts(cache, host, h);
    }
    SameHostsPermute(r, names, host);
    DealtRises(cache, host);
  }

  // ---- when the code as it stands deals ----

  /** How many different names a list has of a host. */
  function Different(names: seq<string>, host: string -> string, h: string): nat {
    if names == [] then 0
    else
      var before, x := names[..|names| - 1], names[|names| - 1];
      Different(before, host, h) + if host(x) == h && x !in before then 1 else 0
  }

  predicate IsNew(names: seq<string>, i: nat)
    requires i < |names|
  {
    names[i] !in names[..i]
  }

  function Turn(names: seq<string>, host: string -> string, i: nat): nat
    requires i < |names|
  {
    Different(names[..i], host, host(names[i]))
  }

  /** The table lists its nodes by turns: where a name is new, its host has had no
      more turns than the host of any name that is new further on. */
  predicate ListedByTurns(names: seq<string>, host: string -> string) {
    forall i, j | 0 <= i < j < |names| && IsNew(names, i) && IsNew(names, j) ::
      Turn(names, host, i) <= Turn(names, host, j)
  }

  lemma {:induction false} DifferentCounts(names: seq<string>, host: string -> string, h: string)
    ensures Different(names, host, h) == |OfHost(Deduped(names), host, h)|
  {
    if names != [] {
      var before, x := names[..|names| - 1], names[|names| - 1];
      DifferentCounts(before, host, h);
      OfHostAppend(Deduped(before), [x], host, h);
      assert [x][1..] == [];
    }
  }

  /** Where a new name stands in the list without repetitions. */
  lemma {:induction false} NewPlace(names: seq<string>, host: string -> string, i: nat) returns (k: nat)
    requires i < |names| && IsNew(names, i)
    ensures k == |Deduped(names[..i])| < |Deduped(names)| && Deduped(names)[k] == names[i]
    ensures Rank(Deduped(names), host, k) == Turn(names, host, i)
    decreases |names|
  {
    hide OfHost;
    var n := |names| - 1;
    var before, d := names[..n], Deduped(names[..n]);
    DifferentCounts(names[..i], host, host(names[i]));
    if i == n {
      k := |d|;
      assert Deduped(names)[..k] == d;
    } else {
      assert before[..i] == names[..i];
      k := NewPlace(before, host, i);
      assert Deduped(names)[..k] == d[..k];
    }
  }

  lemma {:induction false} PlaceIsNew(names: seq<string>, k: nat) returns (i: nat)
    requires k < |Deduped(names)|
    ensures i < |names| && IsNew(names, i) && |Deduped(names[..i])| == k
  {
    var n := |names| - 1;
    var before, d := names[..n], Deduped(names[..n]);
    if k == |d| {
      i := n;
    } else {
      i := PlaceIsNew(before, k);
      assert names[..i] == before[..i];
    }
  }

  lemma {:induction false} ListGrows(names: seq<string>, i: nat, j: nat)
    requires i <= j <= |names|
    ensures |Deduped(names[..i])| <= |Deduped(names[..j])|
    decreases j
  {
    if i < j {
      assert names[..j][..j - 1] == names[..j - 1];
      ListGrows(names, i, j - 1);
    }
  }

  lemma NewGrows(names: seq<string>, i: nat, j: nat)
    requires i < j <= |names| && IsNew(names, i)
    ensures |Deduped(names[..i])| < |Deduped(names[..j])|
  {
    DedupedHas(names[..i]);
    DedupedStep(names, i);
    ListGrows(names, i + 1, j);
  }

  /** The code as it stands deals the nodes out over the hosts exactly when the
      table already lists them by turns. */
  lemma DistributeDealsIff(names: seq<string>, host: string -> string)
    ensures RanksRise(Deduped(names), host) <==> ListedByTurns(names, host)
  {
    hide Deduped, Rank, Turn, IsNew;
    var d := Deduped(names);
    if RanksRise(d, host) {
      forall i, j | 0 <= i < j < |names| && IsNew(names, i) && IsNew(names, j)
        ensures Turn(names, host, i) <= Turn(names, host, j)
      {
        var k := NewPlace(names, host, i);
        var l := NewPlace(names, host, j);
        NewGrows(names, i, j);
      }
    }
    if ListedByTurns(names, host) {
      forall k, l | 0 <= k < l < |d| ensures Rank(d, host, k) <= Rank(d, host, l) {
        var i := PlaceIsNew(names, k);
        var j := PlaceIsNew(names, l);
        ListGrows(names, if j <= i then j else i, i);
        var k' := NewPlace(names, host, i);
        var l' := NewPlace(names, host, j);
      }
    }
  }

  lemma OfHostTwo(x: string, y: string, host: string -> string, h: string)
    ensures OfHost([x], host, h) == if host(x) == h then [x] else []
    ensures OfHost([x, y], host, h) == (if host(x) == h then [x] else []) + if host(y) == h then [y] else []
  {
    assert [x, y][1..] == [y] && [x][1..] == [] && [y][1..] == [];
  }

  lemma RanksOfThree(x: string, y: string, z: string, host: string -> string)
    ensures var r := [x, y, z];
            && Rank(r, host, 0) == 0 && Rank(r, host, 1) == (if host(x) == host(y) then 1 else 0)
            && Rank(r, host, 2) == (if host(x) == host(z) then 1 else 0) + (if host(y) == host(z) then 1 else 0)
  {
    hide OfHost;
    var r := [x, y, z];
    assert r[..0] == [] && r[..1] == [x] && r[..2] == [x, y];
    OfHostTwo(x, y, host, host(y));
    OfHostTwo(x, y, host, host(z));
    OfHostNone(host, host(x));
  }

  lemma OfHostNone(host: string -> string, h: string)
    ensures OfHost([], host, h) == []
  {
  }

  /** Two nodes of one host in front of a node of another stay there, where the
      rounds by host would put the other host's node between them. */
  lemma NotDealt(host: string -> string)
    requires host("a1") == host("a2") != host("b1")
    ensures var names := ["a1", "a2", "b1"];
            && Deduped(names) == names && !ListedByTurns(names, host) && !RanksRise(names, host)
    ensures Dealt([Entry("a", ["a1", "a2"]), Entry("b", ["b1"])]) == ["a1", "b1", "a2"]
    ensures RanksRise(["a1", "b1", "a2"], host)
  {
    hide Rank, Dealt, Deduped, ListedByTurns;
    var names := ["a1", "a2", "b1"];
    DedupedIsSameIff(names);
    RanksOfThree("a1", "a2", "b1", host);
    assert Rank(names, host, 1) > Rank(names, host, 2);
    DistributeDealsIff(names, host);
    ThreeDealt();
    RanksOfThree("a1", "b1", "a2", host);
  }

  lemma ThreeDealt()
    ensures Dealt([Entry("a", ["a1", "a2"]), Entry("b", ["b1"])]) == ["a1", "b1", "a2"]
  {
    var c := [Entry("a", ["a1", "a2"]), Entry("b", ["b1"])];
    DealtStep(c);
    DealtStep(Tails(c));
    DealtStep(Tails(Tails(c)));
  }
}
