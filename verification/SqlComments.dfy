/** Where comments end: the lexer's two comment loops against the comments a
    reader sees. A block comment should end at the first star with a slash behind
    it, a line comment at its line break or at the end of the text. */
module SqlComments {
  import opened SqlText

  // ---- block comments ----

  predicate ClosesAt(s: string, k: nat) {
    k + 1 < |s| && s[k] == '*' && s[k + 1] == '/'
  }

  predicate FirstClose(s: string, i: nat, k: nat) {
    i <= k && ClosesAt(s, k) && forall j | i <= j < k :: !ClosesAt(s, j)
  }

  /** How many stars in a row end at k, none of them before i. */
  function Stars(s: string, i: nat, k: nat): nat
    requires i <= k < |s|
    decreases k
  {
    if s[k] != '*' then 0 else if k == i then 1 else 1 + Stars(s, i, k - 1)
  }

  /** Two characters in front do not change whether the number is odd, if the first
      of them is a star. */
  lemma {:induction false} StarsFromNext(s: string, i: nat, k: nat)
    requires i < k < |s|
    ensures s[i] != '*' ==> Stars(s, i, k) == Stars(s, i + 1, k)
    ensures s[i] == '*' && i + 2 <= k ==> Stars(s, i, k) % 2 == Stars(s, i + 2, k) % 2
    decreases k
  {
    if s[k] == '*' {
      if s[i] != '*' && i + 1 < k {
        StarsFromNext(s, i, k - 1);
      }
      if s[i] == '*' && i + 2 < k {
        StarsFromNext(s, i, k - 1);
      } else if s[i] == '*' && i + 2 == k {
        assert Stars(s, i, i + 1) == if s[i + 1] == '*' then 2 else 0;
      }
    }
  }

  lemma ScanMoves(s: string, i: nat, star: bool, last: char)
    requires i < |s|
    ensures BlockScan(s, i, star, last).0 > i
  {
  }

  /** The loop stops at the first closing mark exactly when the stars that end
      there are odd in number, or nothing follows the mark; otherwise it reads the
      mark's star as the second of a pair and goes on. */
  lemma {:induction false} BlockScanClosesIff(s: string, i: nat, star: bool, last: char, k: nat)
    requires i <= |s| && FirstClose(s, i, k)
    ensures BlockScan(s, i, star, last) == (k + 2, true, '/') <==> Stars(s, i, k) % 2 == 1 || k + 2 == |s|
    ensures BlockScan(s, i, star, last).0 >= k + 2
    decreases k - i
  {
    assert !ClosesAt(s, i) || i == k;
    if s[i] != '*' {
      StarsFromNext(s, i, k);
      BlockScanClosesIff(s, i + 1, star, s[i], k);
    } else if i + 2 <= k {
      StarsFromNext(s, i, k);
      BlockScanClosesIff(s, i + 2, true, s[i + 1], k);
    } else if i + 1 == k {
      assert Stars(s, i, k) == 2;
      var r := BlockScan(s, k + 2, true, '/');
      assert BlockScan(s, i, star, last) == BlockScan(s, k + 1, true, '*') == r;
      if k + 2 < |s| {
        ScanMoves(s, k + 2, true, '/');
      }
    }
  }

  /** Without a closing mark the loop reads to the end, and remembers whether a
      star was read before the last character. */
  lemma {:induction false} BlockScanOpen(s: string, i: nat, star: bool, last: char)
    requires i <= |s| && forall j | i <= j < |s| :: !ClosesAt(s, j)
    ensures var r := BlockScan(s, i, star, last);
            && r.0 == |s| && r.2 == (if i == |s| then last else s[|s| - 1])
            && (r.1 <==> star || exists j | i <= j < |s| - 1 :: s[j] == '*')
    decreases |s| - i
  {
    if i < |s| {
      assert !ClosesAt(s, i);
      if s[i] == '*' && i + 1 < |s| {
        BlockScanOpen(s, i + 2, true, s[i + 1]);
      } else {
        BlockScanOpen(s, i + 1, star, s[i]);
      }
    }
  }

  /** A block comment's token is the comment a reader sees exactly when the stars
      in front of the closing slash are odd in number or the text ends there. */
  lemma BlockCommentIff(s: string, i: nat, k: nat)
    requires 2 <= i <= |s| && FirstClose(s, i, k)
    ensures BlockComment(s, i) == Token(Comment, "", "/*", i, k, k + 2) <==> Stars(s, i, k) % 2 == 1 || k + 2 == |s|
    ensures BlockComment(s, i).curr >= k + 2
  {
    BlockScanClosesIff(s, i, false, '*', k);
  }

  /** A comment that is never closed takes the rest of the text. Its span is all
      of that exactly when it does not end in a slash behind some earlier star. */
  lemma OpenCommentIff(s: string, i: nat)
    requires 2 <= i <= |s| && forall j | i <= j < |s| :: !ClosesAt(s, j)
    ensures BlockComment(s, i).curr == |s|
    ensures BlockComment(s, i).end == |s|
            <==> i == |s| || s[|s| - 1] != '/' || forall j | i <= j < |s| - 1 :: s[j] != '*'
  {
    BlockScanOpen(s, i, false, '*');
  }

  /** Four stars between the slashes are read in pairs: closed. Three are not. */
  lemma StarsInARow()
    ensures BlockComment("/****/ x", 2) == Token(Comment, "", "/*", 2, 4, 6)
    ensures BlockComment("/***/ x", 2).curr == 7
    ensures BlockComment("/***/", 2) == Token(Comment, "", "/*", 2, 3, 5)
  {
  }

  // ---- line comments ----

  /** Where a line comment ends for a reader: before its line break, with the
      carriage return in it, or at the end of the text. */
  function LineEnd(s: string, i: nat): nat
    requires i <= |s|
  {
    var k := LineStop(s, i);
    if k == i || s[k - 1] != '\n' then k
    else if i + 2 <= k && s[k - 2] == '\r' then k - 2
    else k - 1
  }

  /** A line comment's span is the text of the comment exactly when a line break
      ends it. At the end of the text it falls short, by one character, or by two
      behind a carriage return; an empty comment there ends before it starts. The
      mark in front is never a carriage return. */
  lemma LineCommentIff(s: string, i: nat, mark: string)
    requires 0 < i <= |s| && s[i - 1] != '\r'
    ensures var t := LineComment(s, i, mark);
            && t.start == i && t.curr == LineStop(s, i)
            && (t.end == LineEnd(s, i) <==> '\n' in s[i..])
            && ('\n' !in s[i..] ==>
                  && t.curr == |s|
                  && t.end == |s| - (if i + 2 <= |s| && s[|s| - 2] == '\r' then 2 else 1))
            && (t.end < t.start <==> i == |s|)
  {
    var k := LineStop(s, i);
    if '\n' in s[i..] {
      var j :| 0 <= j < |s[i..]| && s[i..][j] == '\n';
      assert s[i + j] == '\n';
    }
    if k > i && s[k - 1] == '\n' {
      assert s[i..][k - 1 - i] == '\n';
    }
  }
}
