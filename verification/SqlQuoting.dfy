/** Quote escaping: the `escape` loop, what it computes, and what the lexer
    reads back from the texts the rewriter quotes with it. */
module SqlQuoting {
  import opened Wrappers
  import opened SqlText

  /** Every quote that is not already one of a pair becomes a pair. */
  function Escaped(s: string, c: char): (r: string) {
    if s == "" then ""
    else if s[0] != c then [s[0]] + Escaped(s[1..], c)
    else if |s| > 1 && s[1] == c then [c, c] + Escaped(s[2..], c)
    else [c, c] + Escaped(s[1..], c)
  }

  /** Reads doubled quotes as one: what a reader of the quoted text recovers. */
  function Collapsed(s: string, c: char): string {
    if s == "" then ""
    else if |s| > 1 && s[0] == c && s[1] == c then [c] + Collapsed(s[2..], c)
    else [s[0]] + Collapsed(s[1..], c)
  }

  predicate Repeats(s: string, c: char) {
    exists i | 0 <= i < |s| - 1 :: s[i] == c && s[i + 1] == c
  }

  function Run(c: char, k: nat): (r: string)
    ensures |r| == k && forall i | 0 <= i < k :: r[i] == c
  {
    if k == 0 then "" else [c] + Run(c, k - 1)
  }

  /** JavaScript's `indexOf` for one character, from index i on. */
  method IndexOf(s: string, c: char, from: nat) returns (k: int)
    requires from <= |s|
    ensures k == -1 || from <= k < |s|
    ensures k == -1 ==> c !in s[from..]
    ensures k != -1 ==> s[k] == c && c !in s[from..k]
  {
    k := from;
    while k < |s|
      invariant from <= k <= |s| && c !in s[from..k]
    {
      if s[k] == c {
        return;
      }
      k := k + 1;
    }
    k := -1;
  }

  lemma {:induction false} EscapedPlain(u: string, v: string, c: char)
    requires c !in u
    ensures Escaped(u + v, c) == u + Escaped(v, c)
  {
    if u == "" {
      assert u + v == v;
    } else {
      assert (u + v)[1..] == u[1..] + v;
      EscapedPlain(u[1..], v, c);
    }
  }

  lemma EscapedHead(s: string, b: nat, i: nat, c: char)
    requires b <= i < |s| && s[i] == c && c !in s[b..i]
    ensures Escaped(s[b..], c) == s[b..i] + [c, c]
                                  + Escaped(s[if i + 1 < |s| && s[i + 1] == c then i + 2 else i + 1..], c)
  {
    EscapedPlain(s[b..i], s[i..], c);
    assert s[b..] == s[b..i] + s[i..];
    assert s[i..][1..] == s[i + 1..];
    if i + 1 < |s| {
      assert s[i..][2..] == s[i + 2..];
    }
  }

  /** `mid` is the escaped text up to index b. */
  ghost predicate EscapedUpTo(s: string, b: nat, c: char, mid: string)
    requires b <= |s|
  {
    mid + Escaped(s[b..], c) == Escaped(s, c)
  }

  /** One turn of the escape loop: the quote at i is written twice, and the
      character after it is consumed. */
  lemma EscapeTurn(s: string, b: nat, i: nat, c: char, mid: string, mid': string)
    requires b <= i < |s| && s[i] == c && c !in s[b..i] && EscapedUpTo(s, b, c, mid)
    requires var written := mid + s[b..i + 1] + [c];
             mid' == if i + 1 < |s| && s[i + 1] != c then written + [s[i + 1]] else written
    ensures EscapedUpTo(s, if i + 1 < |s| then i + 2 else i + 1, c, mid')
  {
    hide Escaped;
    EscapedHead(s, b, i, c);
    assert s[b..i + 1] == s[b..i] + [c];
    if i + 1 < |s| && s[i + 1] != c {
      var e := Escaped(s[i + 2..], c);
      EscapedPlain([s[i + 1]], s[i + 2..], c);
      assert s[i + 1..] == [s[i + 1]] + s[i + 2..];
      Reassociate(mid, s[b..i], [c], [s[i + 1]], e);
    } else {
      var e := Escaped(s[if i + 1 < |s| then i + 2 else i + 1..], c);
      Reassociate(mid, s[b..i], [c], "", e);
    }
  }

  lemma Reassociate(mid: string, a: string, c: string, x: string, e: string)
    ensures mid + (a + (c + c) + (x + e)) == mid + (a + c) + c + x + e
    ensures x == "" ==> mid + (a + (c + c) + e) == mid + (a + c) + c + e
  {
  }

  lemma EscapedToEnd(s: string, b: nat, c: char, mid: string)
    requires b <= |s| && EscapedUpTo(s, b, c, mid) && c !in s[b..]
    ensures mid + s[b..] == Escaped(s, c)
  {
    EscapedAll(s, b, c);
  }

  /** The escape loop, which jumps from quote to quote. */
  method EscapeAll(s: string, c: char) returns (mid: string)
    ensures mid == Escaped(s, c)
  {
    EscapedAll(s, 0, c);
    var i := IndexOf(s, c, 0);
    mid := s;
    if i != -1 {
      mid := EscapeFrom(s, c, i);
    }
  }

  method EscapeFrom(s: string, c: char, first: nat) returns (mid: string)
    requires first < |s| && s[first] == c && c !in s[0..first]
    ensures mid == Escaped(s, c)
  {
    var i, n, b := first, |s|, 0;
    mid := "";
    assert EscapedUpTo(s, 0, c, "") by { EscapedAll(s, 0, c); }
    while true
      invariant 0 <= b <= i < n == |s| && s[i] == c && c !in s[b..i]
      invariant EscapedUpTo(s, b, c, mid)
      decreases n - i
    {
      ghost var b0, i0, mid0 := b, i, mid;
      i := i + 1;
      mid := mid + s[b..i];
      mid := mid + [c];
      if i < n {
        var a := s[i];
        i := i + 1;
        if a != c {
          mid := mid + [a];
        }
      } else {
        EscapeTurn(s, b0, i0, c, mid0, mid);
        EscapedToEnd(s, i, c, mid);
        return mid;
      }
      EscapeTurn(s, b0, i0, c, mid0, mid);
      var j := IndexOf(s, c, i);
      if j == -1 {
        EscapedToEnd(s, i, c, mid);
        if i < n {
          mid := mid + s[i..];
        }
        break;
      }
      b := i;
      i := j;
    }
  }

  lemma EscapedAll(s: string, i: nat, c: char)
    requires i <= |s|
    ensures c !in s[i..] ==> Escaped(s[i..], c) == s[i..]
    ensures i == 0 ==> s[i..] == s
  {
    if c !in s[i..] {
      EscapedPlain(s[i..], "", c);
      assert s[i..] + "" == s[i..];
    }
  }

  /** `SqlObject.escape`: the whole-text call is `Escaped`; a call for a
      sub-range drops what follows the range, because the text is replaced by
      the range before the rest is taken from it. */
  method Escape(text: string, c: char, start: nat, end0: int) returns (r: string)
    requires start <= |text| && -1 <= end0 <= |text|
    ensures var end := if end0 == -1 then |text| else end0;
            && r == text[..start] + Escaped(Slice(text, start, end), c)
            && (r == text[..start] + Escaped(Slice(text, start, end), c) + text[end..] <==> end == |text|)
  {
    var left, right, s := "", "", text;
    var end: nat := if end0 == -1 then |text| else end0;
    if start != 0 || end != |s| {
      left := Slice(s, 0, start);
      s := Slice(s, start, end);
      right := Slice(s, end, |s|);
    }
    assert s == Slice(text, start, end) && right == "" && left == text[..start];
    var mid := EscapeAll(s, c);
    r := left + mid + right;
    assert |r + text[end..]| == |r| + |text| - end;
    assert end == |text| ==> r + text[end..] == r;
  }

  // ---- what escaping means ----

  /** Escaping rounds each maximal run of the quote up to even length and keeps
      everything else. */
  lemma {:induction false} EscapedRun(u: string, k: nat, v: string, c: char)
    requires c !in u && (v != "" ==> v[0] != c)
    ensures Escaped(u + Run(c, k) + v, c) == u + Run(c, k + k % 2) + Escaped(v, c)
  {
    EscapedPlain(u, Run(c, k) + v, c);
    assert u + Run(c, k) + v == u + (Run(c, k) + v);
    EscapedOnlyRun(k, v, c);
    assert u + (Run(c, k + k % 2) + Escaped(v, c)) == u + Run(c, k + k % 2) + Escaped(v, c);
  }

  lemma EscapedPair(w: string, c: char)
    ensures Escaped([c, c] + w, c) == [c, c] + Escaped(w, c)
  {
    assert ([c, c] + w)[2..] == w;
  }

  lemma {:induction false} EscapedOnlyRun(k: nat, v: string, c: char)
    requires v != "" ==> v[0] != c
    ensures Escaped(Run(c, k) + v, c) == Run(c, k + k % 2) + Escaped(v, c)
  {
    if k <= 1 {
      EscapedShortRun(k, v, c);
    } else {
      hide Escaped, Run;
      var even := k + k % 2;
      assert k - 2 + (k - 2) % 2 == even - 2;
      EscapedOnlyRun(k - 2, v, c);
      EscapedPair(Run(c, k - 2) + v, c);
      TwoMore(c, k, v);
      TwoMore(c, even, Escaped(v, c));
    }
  }

  lemma EscapedShortRun(k: nat, v: string, c: char)
    requires k <= 1 && (v != "" ==> v[0] != c)
    ensures Escaped(Run(c, k) + v, c) == Run(c, k + k % 2) + Escaped(v, c)
  {
    if k == 0 {
      assert Run(c, 0) + v == v && Run(c, 0) + Escaped(v, c) == Escaped(v, c);
    } else {
      assert Run(c, 1) + v == [c] + v && ([c] + v)[1..] == v;
      assert Run(c, 2) == [c, c];
    }
  }

  lemma TwoMore(c: char, k: nat, v: string)
    requires k >= 2
    ensures Run(c, k) + v == [c, c] + (Run(c, k - 2) + v)
  {
    assert Run(c, k) == [c] + ([c] + Run(c, k - 2));
  }

  lemma {:induction false} EscapedIdempotent(s: string, c: char)
    ensures Escaped(Escaped(s, c), c) == Escaped(s, c)
  {
    if s != "" {
      var rest := if s[0] != c then s[1..] else if |s| > 1 && s[1] == c then s[2..] else s[1..];
      var t := Escaped(rest, c);
      EscapedIdempotent(rest, c);
      if s[0] != c {
        assert ([s[0]] + t)[1..] == t;
      } else {
        assert ([c, c] + t)[2..] == t;
      }
    }
  }

  /** Reading an escaped text back gives the original exactly when the original
      has no two adjacent quotes. */
  lemma {:induction false} CollapsedEscapedIff(s: string, c: char)
    ensures Collapsed(Escaped(s, c), c) == s <==> !Repeats(s, c)
    ensures |Collapsed(Escaped(s, c), c)| <= |s|
  {
    if s != "" {
      if s[0] != c {
        var t := s[1..];
        CollapsedEscapedIff(t, c);
        assert Escaped(s, c)[1..] == Escaped(t, c);
        assert Collapsed(Escaped(s, c), c) == [s[0]] + Collapsed(Escaped(t, c), c);
        assert s == [s[0]] + t;
        RepeatsTail(s, c);
        assert ([s[0]] + Collapsed(Escaped(t, c), c))[1..] == Collapsed(Escaped(t, c), c);
      } else if |s| > 1 && s[1] == c {
        var t := s[2..];
        CollapsedEscapedIff(t, c);
        assert Escaped(s, c)[2..] == Escaped(t, c);
        assert Collapsed(Escaped(s, c), c) == [c] + Collapsed(Escaped(t, c), c);
        assert Repeats(s, c);
      } else {
        var t := s[1..];
        CollapsedEscapedIff(t, c);
        assert Escaped(s, c)[2..] == Escaped(t, c);
        assert Collapsed(Escaped(s, c), c) == [c] + Collapsed(Escaped(t, c), c);
        assert s == [c] + t;
        RepeatsTail(s, c);
        assert ([c] + Collapsed(Escaped(t, c), c))[1..] == Collapsed(Escaped(t, c), c);
      }
    }
  }

  lemma RepeatsTail(s: string, c: char)
    requires s != "" && !(|s| > 1 && s[0] == c && s[1] == c)
    ensures Repeats(s, c) <==> Repeats(s[1..], c)
  {
    if Repeats(s, c) {
      var i :| 0 <= i < |s| - 1 && s[i] == c && s[i + 1] == c;
      assert s[1..][i - 1] == c && s[1..][i - 1 + 1] == c;
    }
    if Repeats(s[1..], c) {
      var i :| 0 <= i < |s[1..]| - 1 && s[1..][i] == c && s[1..][i + 1] == c;
      assert s[i + 1] == c && s[i + 1 + 1] == c;
    }
  }

  // ---- reading quoted texts back ----

  /** A plain character in front of a text moves everything by one. */
  lemma PlainInFront(x: char, u: string, c: char, text: string, i: nat, nul: bool)
    requires x != c && i + 1 + |Escaped(u, c)| < |text|
    requires text[i..i + 1 + |Escaped(u, c)|] == [x] + Escaped(u, c)
    ensures text[i + 1..i + 1 + |Escaped(u, c)|] == Escaped(u, c)
    ensures CloseQuote(text, i, c, nul) == if nul && x == '\0' then Err(Syntax(i)) else CloseQuote(text, i + 1, c, nul)
  {
    hide Escaped;
    var e := Escaped(u, c);
    assert text[i] == text[i..i + 1 + |e|][0];
    assert text[i + 1..i + 1 + |e|] == text[i..i + 1 + |e|][1..];
  }

  /** A pair of quotes in front moves everything by two. */
  lemma PairInFront(u: string, c: char, text: string, i: nat, nul: bool)
    requires i + 2 + |Escaped(u, c)| < |text|
    requires text[i..i + 2 + |Escaped(u, c)|] == [c, c] + Escaped(u, c)
    ensures text[i + 2..i + 2 + |Escaped(u, c)|] == Escaped(u, c)
    ensures CloseQuote(text, i, c, nul) == CloseQuote(text, i + 2, c, nul)
  {
    hide Escaped;
    var e := Escaped(u, c);
    assert text[i] == text[i..i + 2 + |e|][0] && text[i + 1] == text[i..i + 2 + |e|][1];
    assert text[i + 2..i + 2 + |e|] == text[i..i + 2 + |e|][2..];
  }

  lemma EscapedStep(v: string, c: char) returns (u: string)
    requires v != ""
    ensures |u| < |v|
    ensures if v[0] != c then u == v[1..] && Escaped(v, c) == [v[0]] + Escaped(u, c)
            else u == (if |v| > 1 && v[1] == c then v[2..] else v[1..]) && Escaped(v, c) == [c, c] + Escaped(u, c)
    ensures c != '\0' ==> ('\0' in v <==> '\0' in u || v[0] == '\0')
  {
    u := if v[0] == c && |v| > 1 && v[1] == c then v[2..] else v[1..];
    assert v == v[..|v| - |u|] + u;
    assert |v| - |u| == 2 ==> v[..2] == [v[0], v[1]];
  }

  /** Inside any text, the quote closing an escaped body is the one right after
      it, unless a quote follows; a NUL in the body is refused where asked. */
  lemma {:induction false} CloseAfterEscaped(v: string, c: char, text: string, i: nat, nul: bool)
    requires i + |Escaped(v, c)| < |text|
    requires text[i..i + |Escaped(v, c)|] == Escaped(v, c) && text[i + |Escaped(v, c)|] == c
    requires i + |Escaped(v, c)| + 1 < |text| ==> text[i + |Escaped(v, c)| + 1] != c
    requires c != '\0'
    ensures if nul && '\0' in v then CloseQuote(text, i, c, nul).Err?
            else CloseQuote(text, i, c, nul) == Ok(i + |Escaped(v, c)|)
    decreases |v|
  {
    if v != "" {
      hide Escaped, CloseQuote;
      var u := EscapedStep(v, c);
      if v[0] != c {
        PlainInFront(v[0], u, c, text, i, nul);
        CloseAfterEscaped(u, c, text, i + 1, nul);
      } else {
        PairInFront(u, c, text, i, nul);
        CloseAfterEscaped(u, c, text, i + 2, nul);
      }
    }
  }

  /** The literal the rewriter writes for a text value. */
  function Literal(v: string): string {
    "'" + Escaped(v, '\'') + "'"
  }

  /** Wherever a literal is put, unless a quote follows it, the lexer reads it
      as exactly one STRING token whose text is the escaped value. */
  lemma LiteralIsOneString(q: char, pre: string, v: string, post: string)
    requires post != "" ==> post[0] != '\''
    ensures var e := |Escaped(v, '\'')|;
            Lex(q, pre + Literal(v) + post, |pre|)
            == Ok(Token(Str, "", "'", |pre| + 1, |pre| + 1 + e, |pre| + 2 + e))
  {
    hide Escaped, CloseQuote;
    var e := Escaped(v, '\'');
    var text := Enclosed(pre, '\'', e, post);
    assert text == pre + Literal(v) + post;
    CloseAfterEscaped(v, '\'', text, |pre| + 1, false);
  }

  /** A quoted body inside a text, by position. */
  lemma Enclosed(pre: string, q: char, e: string, post: string) returns (text: string)
    ensures text == pre + ([q] + e + [q]) + post
    ensures |text| == |pre| + |e| + 2 + |post|
    ensures text[|pre|] == q && text[|pre| + 1 + |e|] == q
    ensures text[|pre| + 1..|pre| + 1 + |e|] == e
    ensures post != "" ==> text[|pre| + 2 + |e|] == post[0]
  {
    text := pre + ([q] + e + [q]) + post;
    assert text == (pre + [q]) + e + ([q] + post);
  }

  /** The alias name written after " as " in the context's identifier quotes. */
  function AliasText(a: string, q: char): string {
    [q] + Escaped(a, q) + [q]
  }

  /** With a back quote or a double quote the alias reads back as one quoted
      name, provided it holds no NUL; with `[` it never does, because the text
      is closed by `[` and not by `]`. */
  lemma AliasReadsBackIff(q: char, pre: string, a: string, post: string)
    requires q == '`' || q == '"' || q == '['
    requires post != "" ==> post[0] != q
    ensures var e := |Escaped(a, q)|;
            Lex(q, pre + AliasText(a, q) + post, |pre|)
            == Ok(Token(Id, [q], [q], |pre| + 1, |pre| + 1 + e, |pre| + 2 + e))
            <==> q != '[' && '\0' !in a
  {
    hide Escaped;
    var e := Escaped(a, q);
    var text := Enclosed(pre, q, e, post);
    if q != '[' {
      CloseAfterEscaped(a, q, text, |pre| + 1, true);
    }
  }
}
