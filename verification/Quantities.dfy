/** CPU and memory quantities: how the scheduler reads them, and what they denote. */
module Quantities {
  import opened Text
  import Arith

  datatype Option<+T> = None | Some(value: T)

  const MAX_INT64: int := 0x7fff_ffff_ffff_ffff

  /** Two's complement wrap-around of an int64 result. */
  function Wrap64(n: int): (w: int)
    ensures -MAX_INT64 - 1 <= w <= MAX_INT64
    ensures -MAX_INT64 - 1 <= n <= MAX_INT64 ==> w == n
  {
    if -MAX_INT64 - 1 <= n <= MAX_INT64 then n
    else (n + MAX_INT64 + 1) % 0x1_0000_0000_0000_0000 - MAX_INT64 - 1
  }

  /** `strconv.ParseInt(s, 10, 64)`: None is its error. */
  function ParseInt64(s: string): (r: Option<int>)
    ensures r.Some? ==> -MAX_INT64 - 1 <= r.value <= MAX_INT64
  {
    var negative := s != "" && s[0] == '-';
    var digits := if s != "" && (s[0] == '-' || s[0] == '+') then s[1..] else s;
    if digits == "" || !AllDigits(digits) then None
    else
      var n: int := if negative then -(Value(digits) as int) else Value(digits);
      if -MAX_INT64 - 1 <= n <= MAX_INT64 then Some(n) else None
  }

  function Pow10(k: nat): (p: nat)
    ensures p >= 1
  {
    if k == 0 then 1 else 10 * Pow10(k - 1)
  }

  lemma {:induction false} Pow10Add(a: nat, b: nat)
    ensures Pow10(a + b) == Pow10(a) * Pow10(b)
  {
    if a > 0 {
      Pow10Add(a - 1, b);
      Arith.Associate(10, Pow10(a - 1), Pow10(b));
    }
  }

  lemma {:induction false} ValueAppend(a: string, b: string)
    requires AllDigits(a) && AllDigits(b)
    ensures AllDigits(a + b)
    ensures Value(a + b) == Value(a) * Pow10(|b|) + Value(b)
  {
    if b == "" {
      assert a + b == a;
    } else {
      var c := b[..|b| - 1];
      ValueAppend(a, c);
      assert (a + b)[..|a + b| - 1] == a + c;
      assert (a + b)[|a + b| - 1] == b[|b| - 1];
      Arith.AppendDigit(Value(a), Pow10(|c|), Value(c), DigitValue(b[|b| - 1]));
    }
  }

  lemma {:induction false} ValueBound(s: string)
    requires AllDigits(s)
    ensures Value(s) < Pow10(|s|)
    ensures Value(s) == 0 <==> AllZeros(s)
  {
    if s != "" {
      var t := s[..|s| - 1];
      ValueBound(t);
      assert AllZeros(s) <==> AllZeros(t) && s[|s| - 1] == '0';
    }
  }

  predicate AllZeros(s: string) {
    forall i :: 0 <= i < |s| ==> s[i] == '0'
  }

  function Zeros(n: nat): (z: string)
    ensures |z| == n && AllDigits(z) && AllZeros(z)
  {
    seq(n, _ => '0')
  }

  // ---------------------------------------------------------------- CPU

  /** What the regular expression for CPU limits accepts: a positive decimal, no sign,
      no leading zero but the one of "0.", and a digit after any point. */
  predicate CpuLimit(s: string) {
    var point := IndexOf(s, '.');
    var whole, frac := s[..point], if point < |s| then s[point + 1..] else "";
    && whole != "" && AllDigits(whole) && AllDigits(frac)
    && (whole[0] == '0' ==> whole == "0" && !AllZeros(frac))
    && (point < |s| ==> frac != "")
  }

  function Whole(s: string): string {
    s[..IndexOf(s, '.')]
  }

  function Fraction(s: string): string {
    if IndexOf(s, '.') < |s| then s[IndexOf(s, '.') + 1..] else ""
  }

  /** A CPU limit denotes Digits / 10^Places exactly. */
  function Digits(s: string): nat
    requires CpuLimit(s)
  {
    ValueAppend(Whole(s), Fraction(s));
    Value(Whole(s) + Fraction(s))
  }

  function Places(s: string): nat {
    |Fraction(s)|
  }

  /** m is the least integer with n <= m * p, that is, n / p rounded up. */
  ghost predicate Ceiling(m: int, n: int, p: int) {
    (m - 1) * p < n <= m * p
  }

  /** m is the least number of thousandths that is at least the limit. */
  ghost predicate IsCeiling(s: string, m: int)
    requires CpuLimit(s)
  {
    Ceiling(m, 1000 * Digits(s), Pow10(Places(s)))
  }

  /** The first three fraction digits, padded with zeros. */
  function Thousandths(frac: string): (t: string)
    ensures |t| == 3
  {
    if |frac| > 3 then frac[..3] else frac + Zeros(3 - |frac|)
  }

  /** One more thousandth when a digit past the third is not zero. */
  function RoundUp(frac: string): (n: nat)
    ensures n <= 1
  {
    if |frac| > 3 && !AllZeros(frac[3..]) then 1 else 0
  }

  /** The reading the scheduler makes, on every string. */
  function CpuMilli(raw: string): (r: Option<int>) {
    var value := TrimSpace(raw);
    if value == "" then Some(0)
    else
      var whole := ParseInt64(Whole(value));
      if whole.None? || whole.value > MAX_INT64 / 1000 then None
      else
        var milli := Wrap64(whole.value * 1000);
        if IndexOf(value, '.') == |value| then Some(milli) else AddFraction(milli, Fraction(value))
  }

  function AddFraction(milli: int, frac: string): (r: Option<int>)
    requires milli <= MAX_INT64
  {
    var fraction := ParseInt64(Thousandths(frac));
    if fraction.None? then None else Some(Wrap64(Wrap64(milli + RoundUp(frac)) + fraction.value))
  }

  method ParseCPUMilli(raw: string) returns (r: Option<int>)
    ensures r == CpuMilli(raw)
  {
    var value := TrimSpace(raw);
    if value == "" {
      return Some(0);
    }
    var point := IndexOf(value, '.');
    var wholeValue := ParseInt64(value[..point]);
    if wholeValue.None? {
      return None;
    }
    if wholeValue.value > MAX_INT64 / 1000 {
      return None;
    }
    var milli := Wrap64(wholeValue.value * 1000);
    if point == |value| {
      return Some(milli);
    }
    r := ParseFraction(milli, value[point + 1..]);
  }

  method ParseFraction(whole: int, digits: string) returns (r: Option<int>)
    requires -MAX_INT64 - 1 <= whole <= MAX_INT64
    ensures r == AddFraction(whole, digits)
  {
    var milli, frac := whole, digits;
    if |frac| > 3 {
      var roundUp := HasNonZero(frac[3..]);
      frac := frac[..3];
      if roundUp {
        milli := Wrap64(milli + 1);
      }
    }
    while |frac| < 3
      invariant |frac| <= 3
      invariant |digits| <= 3 ==> |digits| <= |frac| && frac == digits + Zeros(|frac| - |digits|)
      invariant |digits| > 3 ==> frac == digits[..3]
    {
      assert Zeros(|frac| + 1 - |digits|) == Zeros(|frac| - |digits|) + "0";
      frac := frac + "0";
    }
    assert frac == Thousandths(digits);
    var fraction := ParseInt64(frac);
    if fraction.None? {
      return None;
    }
    return Some(Wrap64(milli + fraction.value));
  }

  /** `strings.Trim(s, "0") != ""`. */
  method HasNonZero(s: string) returns (found: bool)
    ensures found <==> !AllZeros(s)
  {
    found := false;
    for i := 0 to |s|
      invariant found <==> exists j :: 0 <= j < i && s[j] != '0'
    {
      found := found || s[i] != '0';
    }
  }

  lemma TrimAccepted(s: string)
    requires CpuLimit(s)
    ensures TrimSpace(s) == s
  {
    var point := IndexOf(s, '.');
    assert s[0] == Whole(s)[0];
    if point < |s| {
      assert s[|s| - 1] == Fraction(s)[|Fraction(s)| - 1];
    } else {
      assert s[|s| - 1] == Whole(s)[|s| - 1];
    }
  }

  lemma PowThree()
    ensures Pow10(3) == 1000
  {
    assert Pow10(3) == 10 * Pow10(2) && Pow10(2) == 10 * Pow10(1);
  }

  /** The padded or cut thousandths, with the rounding, are the ceiling of a thousand
      times the fraction. */
  lemma FractionCeiling(frac: string)
    requires AllDigits(frac)
    ensures AllDigits(Thousandths(frac))
    ensures Ceiling(Value(Thousandths(frac)) + RoundUp(frac), 1000 * Value(frac), Pow10(|frac|))
    ensures Value(Thousandths(frac)) + RoundUp(frac) <= 1000
  {
    hide Ceiling, Value, Pow10, RoundUp;
    if |frac| > 3 {
      CutFraction(frac);
    } else {
      assert RoundUp(frac) == 0 by { NoRounding(frac); }
      PadFraction(frac, Zeros(3 - |frac|));
    }
    ThreeDigits(Thousandths(frac));
  }

  lemma NoRounding(frac: string)
    requires |frac| <= 3
    ensures RoundUp(frac) == 0
  {
  }

  lemma ThreeDigits(s: string)
    requires AllDigits(s) && |s| == 3
    ensures Value(s) <= 999
  {
    ValueBound(s);
    PowThree();
  }

  lemma PadFraction(frac: string, pad: string)
    requires AllDigits(frac) && |frac| + |pad| == 3 && pad == Zeros(|pad|)
    ensures AllDigits(frac + pad)
    ensures Ceiling(Value(frac + pad), 1000 * Value(frac), Pow10(|frac|))
  {
    ValueBound(pad);
    ValueAppend(frac, pad);
    PowThree();
    Pow10Add(|pad|, |frac|);
    ScaleUp(Value(frac), Pow10(|pad|), Pow10(|frac|));
  }

  lemma ScaleUp(v: int, a: int, b: int)
    requires a * b == 1000 && b > 0
    ensures Ceiling(v * a, 1000 * v, b)
  {
    Arith.Associate(v, a, b);
    Arith.Distribute(v * a, 1, b);
  }

  lemma CutFraction(frac: string)
    requires AllDigits(frac) && |frac| > 3
    ensures AllDigits(Thousandths(frac))
    ensures Ceiling(Value(Thousandths(frac)) + RoundUp(frac), 1000 * Value(frac), Pow10(|frac|))
  {
    hide Ceiling, Value, Pow10;
    var three, rest := frac[..3], frac[3..];
    assert frac == three + rest;
    ValueAppend(three, rest);
    ValueBound(rest);
    PowShift(|rest|);
    CeilingOfCut(Value(three), Value(rest), Pow10(|rest|), RoundUp(frac));
  }

  lemma PowShift(k: nat)
    ensures Pow10(3 + k) == 1000 * Pow10(k)
  {
    assert Pow10(3 + k) == 10 * Pow10(2 + k) && Pow10(2 + k) == 10 * Pow10(1 + k);
  }

  lemma CeilingOfCut(v: int, w: int, p: int, up: int)
    requires 0 <= w < p && up == if w == 0 then 0 else 1
    ensures Ceiling(v + up, 1000 * (v * p + w), 1000 * p)
  {
    Arith.Associate(v, 1000, p);
    Arith.Distribute(v, up, 1000 * p);
    Arith.Distribute(v + up, 1, 1000 * p);
  }

  /** What the reading computes on an accepted limit, before asking whether it is right. */
  lemma CpuReading(s: string)
    requires CpuLimit(s)
    ensures AllDigits(Thousandths(Fraction(s)))
    ensures var whole: int := Value(Whole(s));
            var f := RoundUp(Fraction(s)) + Value(Thousandths(Fraction(s)));
            CpuMilli(s) == if whole > MAX_INT64 / 1000 then None else Some(Wrap64(whole * 1000 + f))
  {
    TrimAccepted(s);
    FractionCeiling(Fraction(s));
    var whole, three := Whole(s), Thousandths(Fraction(s));
    ThreeDigits(three);
    assert whole[0] != '-' && whole[0] != '+' && three[0] != '-' && three[0] != '+';
    assert ParseInt64(three) == Some(Value(three));
  }

  /** CPU parsing is an exact ceiling. On an accepted limit it fails exactly when the
      whole part exceeds MaxInt64/1000; otherwise the result is the least number of
      thousandths not below the limit, as an int64. */
  lemma CpuExactCeiling(s: string) returns (m: nat)
    requires CpuLimit(s)
    ensures IsCeiling(s, m)
    ensures CpuMilli(s) == if Value(Whole(s)) > MAX_INT64 / 1000 then None else Some(Wrap64(m))
    ensures Value(Whole(s)) < MAX_INT64 / 1000 ==> CpuMilli(s) == Some(m)
    ensures m <= 1000 * Value(Whole(s)) + 1000
  {
    hide Ceiling;
    CpuReading(s);
    FractionCeiling(Fraction(s));
    var w, f := Value(Whole(s)), Value(Thousandths(Fraction(s))) + RoundUp(Fraction(s));
    m := 1000 * w + f;
    SplitDigits(s);
    CeilingOfSum(w, f, Value(Fraction(s)), Pow10(Places(s)));
  }

  lemma SplitDigits(s: string)
    requires CpuLimit(s)
    ensures AllDigits(Whole(s)) && AllDigits(Fraction(s))
    ensures Digits(s) == Value(Whole(s)) * Pow10(Places(s)) + Value(Fraction(s))
  {
    ValueAppend(Whole(s), Fraction(s));
  }

  lemma CeilingOfSum(w: int, f: int, v: int, p: int)
    requires Ceiling(f, 1000 * v, p)
    ensures Ceiling(1000 * w + f, 1000 * (w * p + v), p)
  {
    Arith.Associate(1000, w, p);
    Arith.Distribute(1000 * w, f, p);
    Arith.Distribute(1000 * w, f - 1, p);
  }

  lemma CeilingUnique(s: string, m: int, n: int)
    requires CpuLimit(s) && IsCeiling(s, m)
    ensures IsCeiling(s, n) <==> m == n
  {
    var p := Pow10(Places(s));
    if m < n {
      Arith.Monotone(m, n - 1, p);
    } else if n < m {
      Arith.Monotone(n, m - 1, p);
    }
  }

  /** A larger limit never requests less. */
  lemma CpuMonotone(a: string, b: string)
    requires CpuLimit(a) && CpuLimit(b)
    requires Value(Whole(a)) < MAX_INT64 / 1000 && Value(Whole(b)) < MAX_INT64 / 1000
    requires Digits(a) * Pow10(Places(b)) <= Digits(b) * Pow10(Places(a))
    ensures CpuMilli(a).Some? && CpuMilli(b).Some? && CpuMilli(a).value <= CpuMilli(b).value
  {
    var m := CpuExactCeiling(a);
    var n := CpuExactCeiling(b);
    CeilingOrder(Digits(a), Pow10(Places(a)), m, Digits(b), Pow10(Places(b)), n);
  }

  lemma CeilingOrder(d: int, p: int, m: int, e: int, q: int, n: int)
    requires p > 0 && q > 0 && d * q <= e * p
    requires Ceiling(m, 1000 * d, p) && Ceiling(n, 1000 * e, q)
    ensures m <= n
  {
    if n <= m - 1 {
      Arith.Monotone(n, m - 1, p);
      Arith.StrictMonotone(n * p, 1000 * d, q);
      Arith.Monotone(1000 * e, n * q, p);
      Arith.Associate(n, p, q);
      Arith.Associate(1000, d, q);
      Arith.Associate(1000, e, p);
      assert false;
    }
  }

  /** The one accepted family that overflows int64: the reading is exact if and only if
      the ceiling fits, and otherwise it is negative. */
  lemma CpuOverflow(s: string, m: nat)
    requires CpuLimit(s) && IsCeiling(s, m) && Value(Whole(s)) <= MAX_INT64 / 1000
    ensures CpuMilli(s) == Some(m) <==> m <= MAX_INT64
    ensures m > MAX_INT64 ==> CpuMilli(s).Some? && CpuMilli(s).value < 0
  {
    hide Ceiling;
    var c := CpuExactCeiling(s);
    CeilingUnique(s, m, c);
  }

  /** An accepted limit that reads as the smallest int64. */
  lemma CpuOverflowWitness()
    ensures CpuLimit("9223372036854775" + "." + "808")
    ensures CpuMilli("9223372036854775" + "." + "808") == Some(-MAX_INT64 - 1)
  {
    SixteenDigits();
    OverflowAt("9223372036854775", "808");
  }

  lemma OverflowAt(whole: string, frac: string)
    requires AllDigits(whole) && AllDigits(frac) && |frac| == 3 && whole != "" && whole[0] != '0'
    requires Value(whole) == MAX_INT64 / 1000 && Value(frac) == 808
    ensures CpuLimit(whole + "." + frac)
    ensures CpuMilli(whole + "." + frac) == Some(-MAX_INT64 - 1)
  {
    hide Value, Pow10, CpuMilli, AddFraction, ParseInt64;
    CutAt(whole, frac);
    CpuReading(whole + "." + frac);
    assert frac + Zeros(0) == frac;
  }

  lemma CutAt(whole: string, frac: string)
    requires AllDigits(whole)
    ensures Whole(whole + "." + frac) == whole && Fraction(whole + "." + frac) == frac
  {
    var s := whole + "." + frac;
    assert s[|whole|] == '.';
    assert forall i :: 0 <= i < |whole| ==> s[i] == whole[i] && s[i] != '.';
  }

  lemma SixteenDigits()
    ensures Value("9223372036854775") == 9223372036854775
    ensures Value("808") == 808
  {
    EightDigits("92233720");
    EightDigits("36854775");
    assert "92233720" + "36854775" == "9223372036854775";
    ValueAppend("92233720", "36854775");
    Pow10Add(4, 4);
    PowThree();
    assert Pow10(4) == 10 * Pow10(3);
    FourDigits("0808");
    ValueAppend("0", "808");
    assert "0" + "808" == "0808" && Value("0") == 0;
  }

  lemma EightDigits(s: string)
    requires |s| == 8 && AllDigits(s)
    ensures Value(s) ==
            10000 * (1000 * DigitValue(s[0]) + 100 * DigitValue(s[1]) + 10 * DigitValue(s[2]) + DigitValue(s[3]))
            + 1000 * DigitValue(s[4]) + 100 * DigitValue(s[5]) + 10 * DigitValue(s[6]) + DigitValue(s[7])
  {
    FourDigits(s[..4]);
    FourDigits(s[4..]);
    ValueAppend(s[..4], s[4..]);
    assert s == s[..4] + s[4..];
    assert Pow10(4) == 10 * Pow10(3) == 100 * Pow10(2);
  }

  lemma FourDigits(s: string)
    requires |s| == 4 && AllDigits(s)
    ensures Value(s) == 1000 * DigitValue(s[0]) + 100 * DigitValue(s[1]) + 10 * DigitValue(s[2]) + DigitValue(s[3])
  {
    assert Value(s) == 10 * Value(s[..3]) + DigitValue(s[3]);
    assert s[..3][..2] == s[..2] && s[..2][..1] == s[..1] && s[..1][..0] == "";
    assert Value(s[..3]) == 10 * Value(s[..2]) + DigitValue(s[2]);
    assert Value(s[..2]) == 10 * Value(s[..1]) + DigitValue(s[1]);
    assert Value(s[..1]) == 10 * Value("") + DigitValue(s[0]);
  }

  // ------------------------------------------------------------- memory

  const SUFFIXES: set<string> :=
    {"", "b", "k", "m", "g", "t", "kb", "mb", "gb", "tb", "ki", "mi", "gi", "ti", "kib", "mib", "gib", "tib"}

  function LeadingDigits(s: string): (n: nat)
    ensures n <= |s| && AllDigits(s[..n])
    ensures n < |s| ==> !IsDigit(s[n])
  {
    if s == "" || !IsDigit(s[0]) then 0
    else
      var n := 1 + LeadingDigits(s[1..]);
      assert s[..n] == [s[0]] + s[1..][..n - 1];
      n
  }

  /** What the regular expression for memory limits accepts, after trimming and folding. */
  predicate MemoryLimit(s: string) {
    var n := LeadingDigits(s);
    n > 0 && s[0] != '0' && s[n..] in SUFFIXES
  }

  function MemoryMultiplier(suffix: string): (unit: int)
    ensures unit > 0 <==> suffix in SUFFIXES
  {
    match suffix
    case "" => 1
    case "b" => 1
    case "k" => 1000
    case "kb" => 1000
    case "m" => 1000 * 1000
    case "mb" => 1000 * 1000
    case "g" => 1000 * 1000 * 1000
    case "gb" => 1000 * 1000 * 1000
    case "t" => 1000 * 1000 * 1000 * 1000
    case "tb" => 1000 * 1000 * 1000 * 1000
    case "ki" => 1024
    case "kib" => 1024
    case "mi" => 1024 * 1024
    case "mib" => 1024 * 1024
    case "gi" => 1024 * 1024 * 1024
    case "gib" => 1024 * 1024 * 1024
    case "ti" => 1024 * 1024 * 1024 * 1024
    case "tib" => 1024 * 1024 * 1024 * 1024
    case _ => 0
  }

  const SCALES: seq<string> := ["", "k", "m", "g", "t"]

  function Power(base: int, k: nat): int {
    if k == 0 then 1 else base * Power(base, k - 1)
  }

  /** The units: each decimal suffix is a thousand of the one before, each binary one 1024, and a
      "b" at the end changes nothing. */
  lemma UnitsExactly(k: nat)
    requires k < |SCALES|
    ensures MemoryMultiplier(SCALES[k]) == MemoryMultiplier(SCALES[k] + "b") == Power(1000, k)
    ensures k > 0 ==> MemoryMultiplier(SCALES[k] + "i") == MemoryMultiplier(SCALES[k] + "ib") == Power(1024, k)
  {
    assert "" + "b" == "b" && "k" + "b" == "kb" && "m" + "b" == "mb" && "g" + "b" == "gb" && "t" + "b" == "tb";
    assert "k" + "i" == "ki" && "m" + "i" == "mi" && "g" + "i" == "gi" && "t" + "i" == "ti";
    assert "k" + "ib" == "kib" && "m" + "ib" == "mib" && "g" + "ib" == "gib" && "t" + "ib" == "tib";
    assert Power(1000, 0) == 1 && Power(1000, 1) == 1000 && Power(1000, 2) == 1000 * 1000;
    assert Power(1000, 3) == 1000 * 1000 * 1000 && Power(1000, 4) == 1000 * 1000 * 1000 * 1000;
    assert Power(1024, 0) == 1 && Power(1024, 1) == 1024 && Power(1024, 2) == 1024 * 1024;
    assert Power(1024, 3) == 1024 * 1024 * 1024 && Power(1024, 4) == 1024 * 1024 * 1024 * 1024;
  }

  function MemoryBytes(raw: string): (r: Option<int>) {
    var value := Lower(TrimSpace(raw));
    if value == "" then Some(0)
    else
      var n := LeadingDigits(value);
      var number := if n == 0 then None else ParseInt64(value[..n]);
      var unit := MemoryMultiplier(value[n..]);
      if number.None? || unit <= 0 || number.value > MAX_INT64 / unit then None
      else Some(Wrap64(number.value * unit))
  }

  method ParseMemoryBytes(raw: string) returns (r: Option<int>)
    ensures r == MemoryBytes(raw)
  {
    hide MemoryMultiplier, ParseInt64, TrimSpace, Wrap64;
    var value := Lower(TrimSpace(raw));
    if value == "" {
      return Some(0);
    }
    var index := 0;
    while index < |value| && '0' <= value[index] <= '9'
      invariant index <= LeadingDigits(value)
    {
      assert IsDigit(value[index]);
      index := index + 1;
    }
    if index == 0 {
      return None;
    }
    var number := ParseInt64(value[..index]);
    if number.None? {
      return None;
    }
    var unit := MemoryMultiplier(value[index..]);
    if unit <= 0 {
      return None;
    }
    if number.value > MAX_INT64 / unit {
      return None;
    }
    return Some(Wrap64(number.value * unit));
  }

  /** Memory parsing is overflow-exact: an accepted limit is read if and only if number
      times unit fits int64, and then as exactly that product. */
  lemma MemoryExact(raw: string)
    requires MemoryLimit(Lower(TrimSpace(raw)))
    ensures var s := Lower(TrimSpace(raw));
            var n := LeadingDigits(s);
            var bytes := Value(s[..n]) * MemoryMultiplier(s[n..]);
            bytes > 0 && MemoryBytes(raw) == if bytes <= MAX_INT64 then Some(bytes) else None
  {
    var s := Lower(TrimSpace(raw));
    var n := LeadingDigits(s);
    ValueBound(s[..n]);
    assert s[..n][0] != '0' && s[..n][0] != '-' && s[..n][0] != '+';
    ProductFits(Value(s[..n]), MemoryMultiplier(s[n..]));
  }

  lemma ProductFits(number: int, unit: int)
    requires number > 0 && unit > 0
    ensures number * unit >= number
    ensures number * unit <= MAX_INT64 <==> number <= MAX_INT64 / unit
  {
    var q := MAX_INT64 / unit;
    assert q * unit <= MAX_INT64 < q * unit + unit;
    Arith.Monotone(1, unit, number);
    if number <= q {
      Arith.Monotone(number, q, unit);
    } else {
      Arith.Monotone(q + 1, number, unit);
      Arith.Distribute(q, 1, unit);
    }
  }
}
