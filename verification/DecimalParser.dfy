/** The decimal parser of configuration values: a four-step automaton over a
    text, trimmed or not, and the formats it is meant to accept. */
module DecimalParser {
  import opened Wrappers
  import opened SqlText
  import opened SqlNumbers
  import opened SqlWords
  import opened Texts

  datatype DecimalError = NotDecimal | NotInteger | TooLarge

  // ---- the formats ----

  predicate IsPlusMinus(c: char) {
    c == '+' || c == '-'
  }

  predicate OptionalSign(t: string) {
    t == "" || t == "+" || t == "-"
  }

  /** Digits, with a point and any digits behind them or not; or a point and at
      least one digit. */
  predicate Unsigned(whole: string, rest: string) {
    && AllDigits(whole)
    && (if rest == "" then whole != ""
        else rest[0] == '.' && AllDigits(rest[1..]) && (whole != "" || rest != "."))
  }

  /** The text is a sign or none, then one of the two forms. */
  ghost predicate DecimalFormat(s: string) {
    exists sign, whole, rest :: OptionalSign(sign) && Unsigned(whole, rest) && s == sign + whole + rest
  }

  ghost predicate IntegerFormat(s: string) {
    exists sign, whole :: OptionalSign(sign) && Unsigned(whole, "") && s == sign + whole
  }

  function SignLength(s: string): nat {
    if s != "" && IsPlusMinus(s[0]) then 1 else 0
  }

  /** The number an integer text denotes. */
  function SignedValue(s: string): int
    requires AllDigits(s[SignLength(s)..])
  {
    var v: int := Value(s[SignLength(s)..]);
    if s != "" && s[0] == '-' then -v else v
  }

  // ---- the formats found from the left ----

  /** Where the digits behind the sign end. */
  function WholeEnd(s: string): (d: nat)
    ensures SignLength(s) <= d <= |s|
  {
    DigitEnd(s, SignLength(s))
  }

  predicate IntegerShape(s: string) {
    SignLength(s) < |s| == WholeEnd(s)
  }

  predicate DecimalShape(s: string) {
    var w, d := SignLength(s), WholeEnd(s);
    if d == |s| then w < d
    else s[d] == '.' && DigitEnd(s, d + 1) == |s| && (w < d || d + 1 < |s|)
  }

  lemma {:induction false} DigitEndIs(s: string, i: nat, k: nat)
    requires i <= k <= |s| && (forall j | i <= j < k :: IsDigit(s[j])) && (k < |s| ==> !IsDigit(s[k]))
    ensures DigitEnd(s, i) == k
    decreases k - i
  {
    if i < k {
      DigitEndIs(s, i + 1, k);
    }
  }

  lemma DecimalIff(s: string)
    ensures DecimalFormat(s) <==> DecimalShape(s)
  {
    var w, d := SignLength(s), WholeEnd(s);
    if DecimalShape(s) {
      var sign, whole, rest := s[..w], s[w..d], s[d..];
      assert s == sign + whole + rest;
      assert OptionalSign(sign);
      assert d < |s| ==> rest[1..] == s[d + 1..];
      assert Unsigned(whole, rest);
    }
    if DecimalFormat(s) {
      var sign, whole, rest :| OptionalSign(sign) && Unsigned(whole, rest) && s == sign + whole + rest;
      FormatShape(s, sign, whole, rest);
    }
  }

  lemma FormatShape(s: string, sign: string, whole: string, rest: string)
    requires OptionalSign(sign) && Unsigned(whole, rest) && s == sign + whole + rest
    ensures SignLength(s) == |sign| && WholeEnd(s) == |sign| + |whole|
    ensures rest != "" ==> s[WholeEnd(s)] == '.' && DigitEnd(s, WholeEnd(s) + 1) == |s|
  {
    var w, d := |sign|, |sign| + |whole|;
    hide DigitEnd, OptionalSign;
    assert sign + (whole + rest) == s;
    assert whole != "" ==> (whole + rest)[0] == whole[0];
    assert whole == "" ==> whole + rest == rest;
    SignOf(s, sign, whole + rest);
    assert s[w..d] == whole && s[d..] == rest;
    assert forall j | w <= j < d :: s[j] == whole[j - w];
    assert d < |s| ==> s[d] == rest[0];
    DigitEndIs(s, w, d);
    if rest != "" {
      assert forall j | d + 1 <= j < |s| :: s[j] == rest[1..][j - d - 1];
      DigitEndIs(s, d + 1, |s|);
    }
  }

  lemma SignOf(s: string, sign: string, tail: string)
    requires OptionalSign(sign) && s == sign + tail && (tail != "" ==> !IsPlusMinus(tail[0]))
    ensures SignLength(s) == |sign|
  {
  }

  lemma IntegerIff(s: string)
    ensures IntegerFormat(s) <==> IntegerShape(s)
    ensures IntegerShape(s) ==> AllDigits(s[SignLength(s)..])
  {
    var w, d := SignLength(s), WholeEnd(s);
    if IntegerShape(s) {
      assert s == s[..w] + s[w..] && OptionalSign(s[..w]) && Unsigned(s[w..], "");
    }
    if IntegerFormat(s) {
      var sign, whole :| OptionalSign(sign) && Unsigned(whole, "") && s == sign + whole;
      assert s == sign + whole + "";
      FormatShape(s, sign, whole, "");
    }
  }

  // ---- the formats by their characters ----

  /** The text without the one sign it may begin with. */
  function Unsign(s: string): string {
    if s != "" && (s[0] == '+' || s[0] == '-') then s[1..] else s
  }

  predicate OneDot(t: string) {
    forall i, j | 0 <= i < j < |t| :: !(t[i] == '.' && t[j] == '.')
  }

  lemma UnsignIs(s: string)
    ensures Unsign(s) == s[SignLength(s)..]
  {
  }

  /** A text is a decimal exactly when, but for a sign in front, it has only digits and
      at most one point, and at least one digit. */
  lemma DecimalByChars(s: string)
    ensures DecimalFormat(s)
            <==> var t := Unsign(s);
                 && (forall i | 0 <= i < |t| :: t[i] in "0123456789.") && OneDot(t)
                 && exists i | 0 <= i < |t| :: t[i] in "0123456789"
  {
    DecimalIff(s);
    hide DecimalFormat;
    UnsignIs(s);
    var t, w, d := Unsign(s), SignLength(s), WholeEnd(s);
    forall c: char ensures (IsDigit(c) <==> c in "0123456789") && (c in "0123456789." <==> IsDigit(c) || c == '.') {
      DigitClass(c);
      DotOrDigit(c);
    }
    forall i | 0 <= i < |t| ensures t[i] == s[w + i] {
    }
    if DecimalShape(s) {
      ShapeChars(s);
    }
    if exists i | 0 <= i < |t| :: IsDigit(t[i]) {
      var i :| 0 <= i < |t| && IsDigit(t[i]);
      if OneDot(t) && forall i | 0 <= i < |t| :: IsDigit(t[i]) || t[i] == '.' {
        CharsShape(s, i);
      }
    }
  }

  lemma DotOrDigit(c: char)
    ensures c in "0123456789." <==> c in "0123456789" || c == '.'
  {
    var t := "0123456789.";
    assert t == "0123456789" + ".";
    assert t[10] == '.';
  }

  lemma ShapeChars(s: string)
    requires DecimalShape(s)
    ensures var t := s[SignLength(s)..];
            && (forall i | 0 <= i < |t| :: IsDigit(t[i]) || t[i] == '.') && OneDot(t)
            && exists i | 0 <= i < |t| :: IsDigit(t[i])
  {
    var t, w, d := s[SignLength(s)..], SignLength(s), WholeEnd(s);
    forall i | 0 <= i < |t| ensures t[i] == s[w + i] && if w + i == d then t[i] == '.' else IsDigit(t[i]) {
    }
    if w < d {
      assert IsDigit(t[0]);
    } else {
      assert IsDigit(t[d + 1 - w]);
    }
  }

  lemma CharsShape(s: string, i: nat)
    requires var t := s[SignLength(s)..];
             && OneDot(t) && (forall j | 0 <= j < |t| :: IsDigit(t[j]) || t[j] == '.') && i < |t| && IsDigit(t[i])
    ensures DecimalShape(s)
  {
    var t, w, d := s[SignLength(s)..], SignLength(s), WholeEnd(s);
    assert forall j | w <= j < |s| :: s[j] == t[j - w];
    if d < |s| {
      assert s[d] == '.';
      assert forall j | d + 1 <= j < |s| :: IsDigit(s[j]);
      DigitEndIs(s, d + 1, |s|);
    }
  }

  /** And an integer exactly when it has only digits, and at least one. */
  lemma IntegerByChars(s: string)
    ensures IntegerFormat(s) <==> Unsign(s) != "" && forall i | 0 <= i < |Unsign(s)| :: Unsign(s)[i] in "0123456789"
  {
    IntegerIff(s);
    hide IntegerFormat;
    UnsignIs(s);
    var t, w := Unsign(s), SignLength(s);
    forall i | 0 <= i < |t| ensures t[i] == s[w + i] && (IsDigit(t[i]) <==> t[i] in "0123456789") {
      DigitClass(t[i]);
    }
    if t != "" && forall i | 0 <= i < |t| :: IsDigit(t[i]) {
      forall j | w <= j < |s| ensures IsDigit(s[j]) {
        assert s[j] == t[j - w];
      }
      DigitEndIs(s, w, |s|);
    }
  }

  /** The number of an integer text: the last digit counts once, the ones before it ten
      times, and a minus turns the whole round. */
  lemma SignedValueIs(t: string, d: nat)
    requires AllDigits(t) && d < 10
    ensures var u := t + ["0123456789"[d]];
            && AllDigits(u) && Value(u) == 10 * Value(t) + d && Value("") == 0
            && Unsign("-" + u) == u && Unsign("+" + u) == u && Unsign(u) == u
            && SignLength(u) == 0 && SignLength("-" + u) == 1 && SignLength("+" + u) == 1
            && SignedValue(u) == Value(u) && SignedValue("+" + u) == Value(u) && SignedValue("-" + u) == 0 - Value(u)
  {
    var u := t + ["0123456789"[d]];
    assert u[..|u| - 1] == t;
    assert ("-" + u)[1..] == u && ("+" + u)[1..] == u && u[0..] == u;
    assert IsDigit(u[0]);
  }

  // ---- the automaton ----

  /** The text denotes an integer that a number holds exactly. */
  ghost predicate SafeInteger(s: string) {
    && IntegerFormat(s) && AllDigits(s[SignLength(s)..])
    && -MAX_SAFE_INTEGER <= SignedValue(s) <= MAX_SAFE_INTEGER
  }

  /** Reads the text from the left: 1) sign, 2) digits, 3) point, 4) digits, 5)
      over. Accepts exactly the decimal format, or, asked for an integer, the
      integer format with a magnitude that is safe, and returns that integer. */
  method ParseDecimal(d: string, onlyInt: bool, trim: bool) returns (r: Result<Option<int>, DecimalError>)
    ensures !onlyInt ==> (r.Ok? <==> DecimalFormat(Trimmed(d, trim))) && (r.Ok? ==> r.value == None)
    ensures onlyInt ==> (r.Ok? <==> SafeInteger(Trimmed(d, trim)))
    ensures onlyInt && r.Ok? ==> r.value == Some(SignedValue(Trimmed(d, trim)))
  {
    hide Trim;
    var s := if trim then Trim(d) else d;
    DecimalIff(s);
    IntegerIff(s);
    hide DecimalFormat, IntegerFormat;
    var m, step, i := |s|, 1, 0;
    var intPart := false;
    while step < 5
      invariant step in {1, 2, 4, 5}
      invariant step == 1 ==> i == 0 && !intPart
      invariant step == 2 ==> i == 1 == SignLength(s) && !intPart
      invariant step == 4 ==> i == WholeEnd(s) + 1 < m && s[i - 1] == '.' && !onlyInt
      invariant step == 5 ==> if onlyInt then IntegerShape(s) else DecimalShape(s)
      decreases 5 - step
    {
      if i >= m {
        return Err(NotDecimal);
      }
      if step == 1 {
        step := 2;
        if IsPlusMinus(s[i]) {
          i := i + 1;
          continue;
        }
      }
      if step == 2 {
        while i < m && IsDigit(s[i])
          invariant SignLength(s) <= i <= m && (intPart <==> SignLength(s) < i)
          invariant WholeEnd(s) == DigitEnd(s, i)
        {
          intPart := true;
          i := i + 1;
        }
        if i >= m {
          step := 5;
          continue;
        } else if onlyInt {
          return Err(NotInteger);
        }
        step := 3;
      }
      if step == 3 {
        if s[i] != '.' || (i + 1 >= m && !intPart) {
          return Err(NotDecimal);
        }
        step := if i + 1 >= m then 5 else 4;
        i := i + 1;
        continue;
      }
      while i < m && IsDigit(s[i])
        invariant WholeEnd(s) < i <= m
        invariant DigitEnd(s, WholeEnd(s) + 1) == DigitEnd(s, i)
      {
        i := i + 1;
      }
      if i < m {
        return Err(NotDecimal);
      }
      step := 5;
    }
    if !onlyInt {
      return Ok(None);
    }
    var n := SignedValue(s);
    if -MAX_SAFE_INTEGER <= n <= MAX_SAFE_INTEGER {
      return Ok(Some(n));
    }
    r := Err(TooLarge);
  }
}
