/** What number tokens are: which texts lex as integers and floats, and how the
    lexer's INT / BIGINT split relates to the numeric value. */
module SqlNumbers {
  import opened Wrappers
  import opened SqlText

  function DigitValue(c: char): nat
    requires IsDigit(c)
  {
    c as int - '0' as int
  }

  predicate AllDigits(t: string) {
    forall i | 0 <= i < |t| :: IsDigit(t[i])
  }

  /** The number a text of digits denotes: JavaScript's `BigInt(text)`. */
  function Value(t: string): nat
    requires AllDigits(t)
  {
    if |t| == 0 then 0 else 10 * Value(t[..|t| - 1]) + DigitValue(t[|t| - 1])
  }

  function Pow10(n: nat): (r: nat)
    ensures r >= 1
  {
    if n == 0 then 1 else 10 * Pow10(n - 1)
  }

  function DigitEnd(s: string, i: nat): (k: nat)
    requires i <= |s|
    ensures i <= k <= |s|
    ensures forall j | i <= j < k :: IsDigit(s[j])
    ensures k < |s| ==> !IsDigit(s[k])
    decreases |s| - i
  {
    if i < |s| && IsDigit(s[i]) then DigitEnd(s, i + 1) else i
  }

  // ---- the value of a digit text ----

  lemma {:induction false} ValueBelowPow10(t: string)
    requires AllDigits(t)
    ensures Value(t) < Pow10(|t|)
  {
    if |t| > 0 {
      ValueBelowPow10(t[..|t| - 1]);
    }
  }

  lemma {:induction false} ValueFromLeft(t: string)
    requires AllDigits(t) && |t| > 0
    ensures Value(t) == DigitValue(t[0]) * Pow10(|t| - 1) + Value(t[1..])
  {
    if |t| > 1 {
      var u, last := t[..|t| - 1], DigitValue(t[|t| - 1]);
      ValueFromLeft(u);
      assert t[1..][..|t| - 2] == u[1..];
      assert Value(t) == 10 * Value(u) + last && Value(t[1..]) == 10 * Value(u[1..]) + last;
      assert Pow10(|t| - 1) == 10 * Pow10(|t| - 2);
      hide Value, Pow10, AllDigits, DigitValue;
      TenTimes(DigitValue(t[0]), Pow10(|t| - 2));
    } else {
      assert t[..0] == "" && t[1..] == "";
    }
  }

  lemma TenTimes(d: nat, w: nat)
    ensures 10 * (d * w) == d * (10 * w)
  {
  }

  lemma {:induction false} ValueIgnoresLeadingZeros(t: string, z: nat)
    requires z <= |t| && AllDigits(t) && forall i | 0 <= i < z :: t[i] == '0'
    ensures Value(t) == Value(t[z..])
    decreases z
  {
    if z > 0 {
      hide Value, Pow10;
      ValueFromLeft(t);
      assert DigitValue(t[0]) == 0 && 0 * Pow10(|t| - 1) == 0;
      ValueIgnoresLeadingZeros(t[1..], z - 1);
      assert t[1..][z - 1..] == t[z..];
    } else {
      assert t[0..] == t;
    }
  }

  lemma {:induction false} MulStep(x: nat, y: nat, w: nat)
    requires x > y
    ensures x * w >= y * w + w
  {
    if x > y + 1 {
      MulStep(x - 1, y, w);
    }
  }

  /** JavaScript's string order on digit texts of one length is numeric order. */
  lemma {:induction false} EqualLengthGreater(a: string, b: string)
    requires AllDigits(a) && AllDigits(b) && |a| == |b|
    ensures StringGreater(a, b) <==> Value(a) > Value(b)
  {
    if |a| > 0 {
      var a', b' := a[1..], b[1..];
      var x, y, w := DigitValue(a[0]), DigitValue(b[0]), Pow10(|a| - 1);
      assert Value(a) == x * w + Value(a') && Value(b) == y * w + Value(b') by {
        ValueFromLeft(a);
        ValueFromLeft(b);
      }
      assert Value(a') < w && Value(b') < w by {
        ValueBelowPow10(a');
        ValueBelowPow10(b');
      }
      if x > y {
        MulStep(x, y, w);
      } else if x < y {
        MulStep(y, x, w);
      } else {
        EqualLengthGreater(a', b');
      }
    }
  }

  /** A shorter text exceeds a longer one exactly when it exceeds its prefix. */
  lemma {:induction false} ShorterGreater(a: string, b: string)
    requires |a| < |b|
    ensures StringGreater(a, b) <==> StringGreater(a, b[..|a|])
  {
    if |a| > 0 {
      ShorterGreater(a[1..], b[1..]);
      assert b[..|a|][1..] == b[1..][..|a| - 1];
    }
  }

  // ---- the shape of what the word scanner has read ----

  /** Everything the state says about s[p..k] while the word may be a number:
      only the recorded dot, exponent mark and exponent sign are not digits. */
  ghost predicate NumberShape(s: string, p: nat, k: nat, st: WordState) {
    && p < k <= |s|
    && (st.dot == -1 || (p <= st.dot < k && s[st.dot] == '.'))
    && (st.exp == -1 || (p < st.exp < k && (s[st.exp] == 'e' || s[st.exp] == 'E')))
    && (st.sign == -1 || (st.exp != -1 && st.sign == st.exp + 1 < k && (s[st.sign] == '+' || s[st.sign] == '-')))
    && (forall j | p <= j < k :: j == st.dot || j == st.exp || j == st.sign || IsDigit(s[j]))
    && (st.dot == p ==> p + 1 < |s| && IsDigit(s[p + 1]) && st.exp != p + 1)
    && (st.dot == st.exp ==> st.dot == -1)
    && ZeroShape(s, p, k, st)
  }

  /** `zero` is the last of the leading zeros of an integer text. */
  ghost predicate ZeroShape(s: string, p: nat, k: nat, st: WordState) {
    && p - 1 <= st.zero < k <= |s|
    && (forall j | p <= j <= st.zero :: s[j] == '0')
    && (st.dot == -1 && st.exp == -1 && st.zero + 1 < k ==> s[st.zero + 1] != '0')
  }

  ghost predicate WordInvariant(s: string, p: nat, k: nat, st: WordState) {
    && p <= k <= |s|
    && (k == p ==> st == WordState(false, -1, -1, -1, p - 1))
    && (p < k && st.num ==> NumberShape(s, p, k, st))
    && (p < k && st.num && st.dot != p ==> IsDigit(s[p]))
  }

  lemma WordStepKeepsShape(s: string, p: nat, k: nat, st: WordState)
    requires p <= k < |s| && WordInvariant(s, p, k, st)
    requires (k == p ==> s[p] != '.') && (st.dot == p && k == p + 1 ==> IsDigit(s[k]))
    requires WordStep(s, p, k, st).Ok?
    ensures WordInvariant(s, p, k + 1, WordStep(s, p, k, st).value)
  {
  }

  lemma {:induction false} WordEndShape(s: string, p: nat, k: nat, st: WordState)
    requires p <= k <= |s| && p < |s| && WordInvariant(s, p, k, st)
    requires (k == p ==> s[p] != '.') && (st.dot == p && k == p + 1 ==> k < |s| && IsDigit(s[k]))
    requires WordFrom(s, p, k, st).WordEnd?
    ensures var r := WordFrom(s, p, k, st);
            r.end <= |s| && WordInvariant(s, p, r.end, r.st)
    decreases |s| - k
  {
    if k < |s| && WordStep(s, p, k, st).Ok? {
      WordStepKeepsShape(s, p, k, st);
      WordEndShape(s, p, k + 1, WordStep(s, p, k, st).value);
    }
  }

  /** The shape of the word at p, once the scanner has accepted it. */
  lemma WordShape(s: string, p: nat) returns (st: WordState)
    requires p < |s| && WordToken(s, p).Ok? && WordToken(s, p).value.typ != Sign
    ensures var t := WordToken(s, p).value;
            && t.start == p && t.end == t.curr && t.end <= |s|
            && WordInvariant(s, p, t.end, st)
            && WordType(s, p, t.end, st) == Ok(t.typ)
  {
    var (k, st0) := WordStart(s, p);
    WordEndShape(s, p, k, st0);
    st := WordFrom(s, p, k, st0).st;
  }

  // ---- integers ----

  predicate IsIntegerType(t: TokenType) {
    t == Int || t == BigInt
  }

  /** A run of digits that nothing glues onto: the integers of the grammar. */
  predicate IntegerAt(s: string, p: nat)
    requires p < |s|
  {
    var k := DigitEnd(s, p);
    p < k && (k == |s| || !IsVarChar(s[k]))
  }

  lemma {:induction false} ScanDigits(s: string, p: nat, k: nat, st: WordState)
    requires p <= k <= |s| && p < |s| && WordInvariant(s, p, k, st)
    requires k == p ==> IsDigit(s[p])
    requires (p < k ==> st.num) && st.dot == -1 && st.exp == -1
    requires DigitEnd(s, k) == |s| || !IsVarChar(s[DigitEnd(s, k)])
    ensures var r := WordFrom(s, p, k, st);
            && r.WordEnd? && r.end == DigitEnd(s, k) && p < r.end
            && r.st.num && r.st.dot == -1 && r.st.exp == -1
            && WordInvariant(s, p, r.end, r.st)
    decreases |s| - k
  {
    if k < |s| && IsDigit(s[k]) {
      WordStepKeepsShape(s, p, k, st);
      ScanDigits(s, p, k + 1, WordStep(s, p, k, st).value);
    }
  }

  /** Once the word is no longer a number it never becomes one again, and a
      word that keeps being one keeps its dot and exponent. */
  lemma {:induction false} StopIsNotGlued(s: string, p: nat, k: nat, st: WordState)
    requires p < k <= |s|
    requires WordFrom(s, p, k, st).WordEnd? && WordFrom(s, p, k, st).st.num
    ensures var r := WordFrom(s, p, k, st);
            && st.num
            && (st.dot != -1 ==> r.st.dot != -1) && (st.exp != -1 ==> r.st.exp != -1)
            && (r.st.dot == -1 && r.end < |s| ==> s[r.end] != '.')
            && (r.end < |s| ==> !IsDigit(s[r.end]) && !IsLetter(s[r.end]))
    decreases |s| - k
  {
    if k < |s| && WordStep(s, p, k, st).Ok? {
      StopIsNotGlued(s, p, k + 1, WordStep(s, p, k, st).value);
    }
  }

  /** A word lexes as INT or BIGINT exactly when it is a run of digits not
      followed by a letter or a dot, and the token is that whole run. */
  lemma IntegerTokenIff(s: string, p: nat)
    requires p < |s|
    ensures (WordToken(s, p).Ok? && IsIntegerType(WordToken(s, p).value.typ)) <==> IntegerAt(s, p)
    ensures IntegerAt(s, p) ==>
              var t := WordToken(s, p).value;
              t.start == p && t.end == t.curr == DigitEnd(s, p) && t.quotes == ""
  {
    if IntegerAt(s, p) {
      ScanDigits(s, p, p, WordStart(s, p).1);
    }
    if WordToken(s, p).Ok? && IsIntegerType(WordToken(s, p).value.typ) {
      var st := WordShape(s, p);
      var t := WordToken(s, p).value;
      assert forall j | p <= j < t.end :: IsDigit(s[j]);
      assert s[p] != '.';
      DigitRun(s, p, t.end);
      assert WordFrom(s, p, p, WordStart(s, p).1).WordEnd?;
      StopIsNotGlued(s, p, p + 1, WordStep(s, p, p, WordStart(s, p).1).value);
    }
  }

  lemma {:induction false} DigitRun(s: string, i: nat, k: nat)
    requires i <= k <= |s| && forall j | i <= j < k :: IsDigit(s[j])
    ensures DigitEnd(s, i) == DigitEnd(s, k)
    decreases k - i
  {
    if i < k {
      DigitRun(s, i + 1, k);
    }
  }

  /** The lexer's classification in terms of the value alone: t is the token,
      u what follows its z leading zeros. */
  lemma IntegerTypeByValue(t: string, z: nat)
    requires 0 < |t| && AllDigits(t) && z <= |t|
    requires forall i | 0 <= i < z :: t[i] == '0'
    requires z < |t| ==> t[z] != '0'
    ensures IntegerType(t, 0, |t|, z - 1) == Int <==>
              Value(t) < 100_000_000_000_000
              || (Value(t) < 1_000_000_000_000_000 && (t[0] == '0' || Value(t) <= 900_719_925_474_099))
  {
    var u := t[z..];
    assert t[0..|t|] == t;
    assert Value(t) == Value(u) by { ValueIgnoresLeadingZeros(t, z); }
    SignificantDigits(u);
    if |u| == 15 && z == 0 {
      assert u == t;
      FifteenDigits(t);
    }
  }

  lemma SignificantDigits(u: string)
    requires AllDigits(u) && (|u| > 0 ==> u[0] != '0')
    ensures |u| <= 14 <==> Value(u) < 100_000_000_000_000
    ensures |u| <= 15 <==> Value(u) < 1_000_000_000_000_000
  {
    SignificantBounds(u);
    Pow10Table();
    if |u| > 15 {
      Pow10Monotone(15, |u| - 1);
    } else if |u| < 15 {
      Pow10Monotone(|u|, 14);
    }
  }

  lemma FifteenDigits(t: string)
    requires AllDigits(t) && |t| == 15
    ensures StringGreater(t, MAX_SAFE_DIGITS) <==> Value(t) > 900_719_925_474_099
  {
    MaxSafePrefix();
    ShorterGreater(t, MAX_SAFE_DIGITS);
    EqualLengthGreater(t, MAX_SAFE_DIGITS[..15]);
  }

  /** Positions can be counted from the start of the word. */
  lemma IntegerTypeOfSlice(s: string, p: nat, k: nat, zero: int)
    requires p <= k <= |s|
    ensures IntegerType(s, p, k, zero) == IntegerType(s[p..k], 0, k - p, zero - p)
  {
    assert s[p..k][0..k - p] == s[p..k];
  }

  lemma IntegerShape(s: string, p: nat) returns (st: WordState)
    requires p < |s| && IntegerAt(s, p)
    ensures var k := DigitEnd(s, p);
            && p < k && WordToken(s, p).Ok?
            && WordToken(s, p).value.typ == IntegerType(s, p, k, st.zero)
            && p - 1 <= st.zero < k
            && (forall j | p <= j <= st.zero :: s[j] == '0')
            && (st.zero + 1 < k ==> s[st.zero + 1] != '0')
  {
    ScanDigits(s, p, p, WordStart(s, p).1);
    st := WordFrom(s, p, p, WordStart(s, p).1).st;
  }

  /** The exact meaning of INT: fewer than fifteen significant digits, or
      fifteen of them when the text has a leading zero or its value is at most
      the first fifteen digits of 2^53 - 1. */
  lemma IntClassIff(s: string, p: nat)
    requires p < |s| && IntegerAt(s, p)
    ensures var v := Value(s[p..DigitEnd(s, p)]);
            WordToken(s, p).Ok? &&
            (WordToken(s, p).value.typ == Int <==>
              v < 100_000_000_000_000
              || (v < 1_000_000_000_000_000 && (s[p] == '0' || v <= 900_719_925_474_099)))
  {
    hide Value, IntegerType, WordToken, DigitEnd;
    var k := DigitEnd(s, p);
    var st := IntegerShape(s, p);
    IntegerTypeOfSlice(s, p, k, st.zero);
    IntegerTypeByValue(s[p..k], st.zero - p + 1);
  }

  /** A digit text without leading zeros lies between two powers of ten. */
  lemma SignificantBounds(u: string)
    requires AllDigits(u) && (|u| > 0 ==> u[0] != '0')
    ensures Value(u) < Pow10(|u|)
    ensures |u| > 0 ==> Pow10(|u| - 1) <= Value(u)
  {
    ValueBelowPow10(u);
    if |u| > 0 {
      var w, d := Pow10(|u| - 1), DigitValue(u[0]);
      assert Value(u) == d * w + Value(u[1..]) by { ValueFromLeft(u); }
      MulStep(d, 0, w);
    }
  }

  lemma {:induction false} Pow10Monotone(m: nat, n: nat)
    requires m <= n
    ensures Pow10(m) <= Pow10(n)
    decreases n - m
  {
    if m < n {
      Pow10Monotone(m, n - 1);
    }
  }

  lemma Pow10Table()
    ensures Pow10(14) == 100_000_000_000_000
    ensures Pow10(15) == 1_000_000_000_000_000
  {
    assert Pow10(4) == 10000;
    assert Pow10(8) == 100000000;
    assert Pow10(12) == 1000000000000;
  }

  lemma MaxSafePrefix()
    ensures AllDigits(MAX_SAFE_DIGITS)
    ensures Value(MAX_SAFE_DIGITS[..15]) == 900_719_925_474_099
    ensures Value(MAX_SAFE_DIGITS) == MAX_SAFE_INTEGER
  {
    var m := MAX_SAFE_DIGITS;
    assert m[..16] == m;
    MaxSafeFront(m);
    hide Value;
    ValueStep(m, 9); ValueStep(m, 10); ValueStep(m, 11); ValueStep(m, 12);
    ValueStep(m, 13); ValueStep(m, 14); ValueStep(m, 15); ValueStep(m, 16);
  }

  lemma MaxSafeFront(m: string)
    requires |m| >= 8 && AllDigits(m)
    requires m[0] == '9' && m[1] == '0' && m[2] == '0' && m[3] == '7'
    requires m[4] == '1' && m[5] == '9' && m[6] == '9' && m[7] == '2'
    ensures Value(m[..8]) == 90_071_992
  {
    assert Value(m[..0]) == 0;
    hide Value;
    ValueStep(m, 1); ValueStep(m, 2); ValueStep(m, 3); ValueStep(m, 4);
    ValueStep(m, 5); ValueStep(m, 6); ValueStep(m, 7); ValueStep(m, 8);
  }

  lemma ValueStep(t: string, n: nat)
    requires 0 < n <= |t| && AllDigits(t)
    ensures Value(t[..n]) == 10 * Value(t[..n - 1]) + DigitValue(t[n - 1])
  {
    assert t[..n][..n - 1] == t[..n - 1];
  }

  /** An INT token is always exact as a JavaScript number. The converse, which
      the lexer's comment promises for BIGINT, holds for an integer text exactly
      outside the range the one-too-high digit count misjudges. */
  lemma IntIsSafe(s: string, p: nat)
    requires p < |s| && IntegerAt(s, p)
    ensures var v := Value(s[p..DigitEnd(s, p)]);
            && (WordToken(s, p).Ok? && WordToken(s, p).value.typ == Int ==> v <= MAX_SAFE_INTEGER)
            && ((WordToken(s, p).Ok? && WordToken(s, p).value.typ == BigInt <==> v > MAX_SAFE_INTEGER)
                <==> !(900_719_925_474_099 < v <= MAX_SAFE_INTEGER
                       && (v >= 1_000_000_000_000_000 || s[p] != '0')))
  {
    IntClassIff(s, p);
    IntegerTokenIff(s, p);
  }

  /** Fifteen nines are a safe integer, yet the lexer calls them BIGINT. */
  lemma SafeBigInt(s: string)
    requires s == "999999999999999"
    ensures DigitEnd(s, 0) == 15 && Value(s) < MAX_SAFE_INTEGER
    ensures WordToken(s, 0).Ok? && WordToken(s, 0).value.typ == BigInt
  {
    hide Value, Pow10, IntegerType, WordFrom, DigitEnd;
    DigitRun(s, 0, 15);
    IntegerTokenIff(s, 0);
    var st := IntegerShape(s, 0);
    IntegerTypeOfSlice(s, 0, 15, st.zero);
    assert s[0..15] == s;
    Nines(s);
    IntClassIff(s, 0);
    ValueBelowPow10(s);
    Pow10Table();
  }

  lemma Nines(s: string)
    requires |s| == 15 && AllDigits(s) && s[0] == '9' && s[1] == '9'
    ensures Value(s) >= 990_000_000_000_000
  {
    ValueFromLeft(s);
    ValueFromLeft(s[1..]);
    Pow10Table();
    assert Pow10(14) == 10 * Pow10(13);
    hide Value, Pow10;
  }

  // ---- floats ----

  /** digits, an optional dot and digits; at least one digit. */
  ghost predicate DecimalText(t: string) {
    |t| > 0 && (AllDigits(t) || exists d | 0 <= d < |t| :: DotAt(t, d) && |t| > 1)
  }

  ghost predicate DotAt(t: string, d: nat)
    requires d < |t|
  {
    t[d] == '.' && AllDigits(t[..d]) && AllDigits(t[d + 1..])
  }

  /** e or E, an optional sign, and at least one digit, from index e on. */
  ghost predicate ExponentAt(t: string, e: nat)
    requires e < |t|
  {
    && (t[e] == 'e' || t[e] == 'E')
    && (var signed := e + 1 < |t| && (t[e + 1] == '+' || t[e + 1] == '-');
        var rest := t[if signed then e + 2 else e + 1..];
        |rest| > 0 && AllDigits(rest))
  }

  /** The five float formats of the lexer's documentation in one predicate. */
  ghost predicate FloatText(t: string) {
    (DecimalText(t) && !AllDigits(t)) || exists e | 0 < e < |t| :: ExponentAt(t, e) && DecimalText(t[..e])
  }

  /** Every DOUBLE token is a float text. */
  lemma DoubleIsFloatText(s: string, p: nat)
    requires p < |s| && WordToken(s, p).Ok? && WordToken(s, p).value.typ == Double
    ensures FloatText(s[p..WordToken(s, p).value.end])
  {
    var st := WordShape(s, p);
    var k := WordToken(s, p).value.end;
    if st.exp == -1 {
      DotShape(s, p, k, st);
    } else {
      ExponentShape(s, p, k, st);
    }
  }

  lemma ExponentShape(s: string, p: nat, k: nat, st: WordState)
    requires p < k && NumberShape(s, p, k, st) && st.exp != -1 && st.dot < st.exp < k - 1 && st.sign != k - 1
    requires st.dot != p ==> IsDigit(s[p])
    ensures FloatText(s[p..k])
  {
    var t, e := s[p..k], st.exp - p;
    var body := t[..e];
    assert body == s[p..st.exp];
    assert DecimalText(body) by {
      if st.dot == -1 {
        assert AllDigits(body);
      } else {
        DotShape(s, p, st.exp, st);
      }
    }
    assert ExponentAt(t, e) by { ExponentDigits(s, p, k, st); }
  }

  lemma ExponentDigits(s: string, p: nat, k: nat, st: WordState)
    requires p < k && NumberShape(s, p, k, st) && st.exp != -1 && st.dot < st.exp < k - 1 && st.sign != k - 1
    ensures ExponentAt(s[p..k], st.exp - p)
  {
    var t, e := s[p..k], st.exp - p;
    assert t[e] == s[st.exp] && t[e + 1] == s[st.exp + 1];
    var from := if t[e + 1] == '+' || t[e + 1] == '-' then e + 2 else e + 1;
    assert st.sign == -1 ==> IsDigit(s[st.exp + 1]);
    assert forall j | from <= j < |t| :: t[j] == s[p + j] && IsDigit(t[j]);
    assert AllDigits(t[from..]);
  }

  lemma DotShape(s: string, p: nat, k: nat, st: WordState)
    requires p < k <= |s| && p <= st.dot < k && s[st.dot] == '.'
    requires forall j | p <= j < k :: j == st.dot || IsDigit(s[j])
    requires st.dot == p ==> p + 1 < k
    ensures DecimalText(s[p..k])
    ensures !AllDigits(s[p..k])
  {
    var t, d := s[p..k], st.dot - p;
    assert t[d] == '.';
    assert DotAt(t, d);
    assert |t| > 1;
  }

  // ---- which float texts are tokens ----

  /** Where a number ends, nothing is glued to it. */
  lemma {:induction false} NumberStops(s: string, p: nat, k: nat, st: WordState)
    requires p <= k <= |s|
    ensures var r := WordFrom(s, p, k, st);
            r.WordEnd? && r.st.num && (p < k || r.end > k) && r.end < |s| ==> !IsVarChar(s[r.end])
    decreases |s| - k
  {
    if k < |s| && WordStep(s, p, k, st).Ok? {
      NumberStops(s, p, k + 1, WordStep(s, p, k, st).value);
    }
  }

  /** Digits only make a word a number. */
  lemma {:induction false} OverDigits(s: string, p: nat, k: nat, m: nat, st: WordState) returns (st': WordState)
    requires p <= k <= m <= |s| && (forall j | k <= j < m :: IsDigit(s[j])) && (st.num || (k == p && k < m))
    ensures WordFrom(s, p, k, st) == WordFrom(s, p, m, st')
    ensures st'.num && st'.dot == st.dot && st'.exp == st.exp && st'.sign == st.sign
    decreases m - k
  {
    if k == m {
      st' := st;
    } else {
      st' := OverDigits(s, p, k + 1, m, WordStep(s, p, k, st).value);
    }
  }

  /** Digits with at most one dot among them, from the start of the word. */
  lemma OverDecimal(s: string, p: nat, m: nat) returns (st: WordState)
    requires p < m <= |s| && DecimalText(s[p..m])
    ensures s[p] == '.' ==> p + 1 < |s| && IsDigit(s[p + 1])
    ensures WordFrom(s, p, WordStart(s, p).0, WordStart(s, p).1) == WordFrom(s, p, m, st)
    ensures st.num && st.exp == -1 && st.sign == -1 && -1 <= st.dot < m
    ensures st.dot == -1 <==> AllDigits(s[p..m])
  {
    var t := s[p..m];
    if AllDigits(t) {
      assert forall j | p <= j < m :: s[j] == t[j - p];
      st := OverDigits(s, p, p, m, WordStart(s, p).1);
    } else {
      st := OverDot(s, p, m);
    }
  }

  lemma OverDot(s: string, p: nat, m: nat) returns (st: WordState)
    requires p < m <= |s| && DecimalText(s[p..m]) && !AllDigits(s[p..m])
    ensures s[p] == '.' ==> p + 1 < |s| && IsDigit(s[p + 1])
    ensures WordFrom(s, p, WordStart(s, p).0, WordStart(s, p).1) == WordFrom(s, p, m, st)
    ensures st.num && st.exp == -1 && st.sign == -1 && p <= st.dot < m
  {
    hide WordFrom, WordStep;
    var t := s[p..m];
    var d :| 0 <= d < |t| && DotAt(t, d) && |t| > 1;
    DotDigits(s, p, m, d);
    var (k, st0) := WordStart(s, p);
    if d == 0 {
      st := OverDigits(s, p, p + 1, m, st0);
    } else {
      var before := OverDigits(s, p, p, p + d, st0);
      DotStep(s, p, p + d, before);
      st := OverDigits(s, p, p + d + 1, m, before.(dot := p + d));
    }
  }

  lemma DotDigits(s: string, p: nat, m: nat, d: nat)
    requires p < m <= |s| && d < m - p && DotAt(s[p..m], d)
    ensures s[p + d] == '.' && forall j | p <= j < m && j != p + d :: IsDigit(s[j])
  {
    var t := s[p..m];
    forall j | p <= j < m && j != p + d ensures IsDigit(s[j]) {
      assert s[j] == t[j - p];
      if j - p < d {
        assert t[..d][j - p] == s[j];
      } else {
        assert t[d + 1..][j - p - d - 1] == s[j];
      }
    }
  }

  lemma DotStep(s: string, p: nat, k: nat, st: WordState)
    requires p <= k < |s| && s[k] == '.' && st.num && st.dot == -1
    ensures WordFrom(s, p, k, st) == WordFrom(s, p, k + 1, st.(dot := k))
  {
  }

  /** The exponent mark, its sign and its digits. */
  lemma OverExponent(s: string, p: nat, k: nat, e: nat, st: WordState) returns (st': WordState)
    requires p < k <= |s| && 0 < e < k - p && ExponentAt(s[p..k], e)
    requires st.num && st.exp == -1 && st.sign == -1
    ensures WordFrom(s, p, p + e, st) == WordFrom(s, p, k, st')
    ensures st'.num && st'.dot == st.dot && st'.exp == p + e < k - 1 && st'.sign < k - 1
  {
    var t := s[p..k];
    assert forall j | p <= j < k :: s[j] == t[j - p];
    var from := if t[e + 1] == '+' || t[e + 1] == '-' then e + 2 else e + 1;
    forall j | p + from <= j < k ensures IsDigit(s[j]) {
      assert t[from..][j - p - from] == s[j];
    }
    var marked := st.(exp := p + e);
    MarkStep(s, p, p + e, st);
    if from == e + 2 {
      SignStep(s, p, p + e + 1, marked);
      marked := marked.(sign := p + e + 1);
    }
    st' := OverDigits(s, p, p + from, k, marked);
  }

  lemma MarkStep(s: string, p: nat, k: nat, st: WordState)
    requires p <= k < |s| && (s[k] == 'e' || s[k] == 'E') && st.num && st.exp == -1
    ensures WordFrom(s, p, k, st) == WordFrom(s, p, k + 1, st.(exp := k))
  {
  }

  lemma SignStep(s: string, p: nat, k: nat, st: WordState)
    requires p <= k < |s| && (s[k] == '+' || s[k] == '-') && st.exp == k - 1 && st.exp != -1
    ensures WordFrom(s, p, k, st) == WordFrom(s, p, k + 1, st.(sign := k))
  {
  }

  lemma FloatScans(s: string, p: nat, k: nat) returns (st: WordState)
    requires p < k <= |s| && FloatText(s[p..k])
    ensures s[p] == '.' ==> p + 1 < |s| && IsDigit(s[p + 1])
    ensures WordFrom(s, p, WordStart(s, p).0, WordStart(s, p).1) == WordFrom(s, p, k, st)
    ensures WordType(s, p, k, st) == Ok(Double) && st.num && st.exp != k - 1
  {
    hide WordFrom, WordStep, WordStart, DecimalText, ExponentAt;
    var t := s[p..k];
    if DecimalText(t) && !AllDigits(t) {
      st := OverDecimal(s, p, k);
    } else {
      var e :| 0 < e < |t| && ExponentAt(t, e) && DecimalText(t[..e]);
      assert s[p..p + e] == t[..e];
      st := OverDecimal(s, p, p + e);
      st := OverExponent(s, p, k, e, st);
    }
  }

  /** A word lexes as DOUBLE exactly when it is a float text that no digit, letter
      or dot is glued to. */
  lemma DoubleTokenIff(s: string, p: nat, k: nat)
    requires p < k <= |s|
    ensures (WordToken(s, p).Ok? && WordToken(s, p).value.typ == Double && WordToken(s, p).value.end == k)
            <==> FloatText(s[p..k]) && (k == |s| || !IsVarChar(s[k]))
  {
    hide FloatText, WordStep;
    if FloatText(s[p..k]) && (k == |s| || !IsVarChar(s[k])) {
      var st := FloatScans(s, p, k);
      NotGlued(s, p, k, st);
    }
    if WordToken(s, p).Ok? && WordToken(s, p).value.typ == Double && WordToken(s, p).value.end == k {
      DoubleIsFloatText(s, p);
      NumberStops(s, p, WordStart(s, p).0, WordStart(s, p).1);
    }
  }

  lemma NotGlued(s: string, p: nat, k: nat, st: WordState)
    requires p <= k <= |s| && (k == |s| || !IsVarChar(s[k])) && (st.exp == -1 || st.exp != k - 1)
    ensures WordFrom(s, p, k, st) == WordEnd(k, st)
  {
  }
}
