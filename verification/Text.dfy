/** Strings as the controller uses them: lexicographic order, decimal numerals, and joins with '/'. */
module Text {

  predicate SlashFree(s: string) {
    forall i :: 0 <= i < |s| ==> s[i] != '/'
  }

  /** If two slash-free strings are both followed by '/' and what follows agrees up to a
      prefix, the split point is the same: the first '/' of the longer string. */
  lemma SlashSplit(a: string, b: string, restA: string, restB: string)
    requires SlashFree(a) && SlashFree(b)
    requires a + "/" + restA <= b + "/" + restB
    ensures a == b
    ensures restA <= restB
  {
    var x, y := a + "/" + restA, b + "/" + restB;
    assert forall i :: 0 <= i < |x| ==> x[i] == y[i];
    assert x[|a|] == '/' == y[|a|];
    assert y[|b|] == '/';
    assert forall i :: 0 <= i < |a| ==> x[i] == a[i];
    assert forall i :: 0 <= i < |b| ==> y[i] == b[i];
    assert |a| == |b|;
    assert forall i :: 0 <= i < |a| ==> a[i] == x[i] && b[i] == y[i];
    assert restA == x[|a| + 1..] && restB == y[|a| + 1..];
  }

  // ---- lexicographic order: Go's `<` on strings ----

  predicate Less(a: string, b: string) {
    if b == "" then false
    else if a == "" then true
    else a[0] < b[0] || (a[0] == b[0] && Less(a[1..], b[1..]))
  }

  lemma {:induction false} LessTransitive(a: string, b: string, c: string)
    ensures !Less(a, a)
    ensures Less(a, b) && Less(b, c) ==> Less(a, c)
  {
    if a != "" {
      LessTransitive(a[1..], if b == "" then "" else b[1..], if c == "" then "" else c[1..]);
    }
  }

  lemma {:induction false} LessTotal(a: string, b: string)
    ensures Less(a, b) || a == b || Less(b, a)
  {
    if a != "" && b != "" {
      LessTotal(a[1..], b[1..]);
      if a[0] == b[0] && a[1..] == b[1..] {
        assert a == [a[0]] + a[1..] == b;
      }
    }
  }

  /** What the order is: the first difference decides, and a text comes before what extends it. */
  lemma {:induction false} LessExactly(a: string, b: string)
    ensures Less(a, b) <==>
              exists i :: 0 <= i <= |a| && i < |b| && a[..i] == b[..i] && (i == |a| || a[i] < b[i])
  {
    if a != "" && b != "" {
      LessExactly(a[1..], b[1..]);
      if Less(a, b) {
        if a[0] < b[0] {
          assert a[..0] == b[..0];
        } else {
          var i :| 0 <= i <= |a| - 1 && i < |b| - 1 && a[1..][..i] == b[1..][..i] && (i == |a| - 1 || a[1..][i] < b[1..][i]);
          assert a[..i + 1] == [a[0]] + a[1..][..i] == b[..i + 1];
        }
      }
      if i :| 0 <= i <= |a| && i < |b| && a[..i] == b[..i] && (i == |a| || a[i] < b[i]) {
        if i > 0 {
          assert a[0] == a[..i][0] == b[..i][0] == b[0];
          assert a[1..][..i - 1] == a[..i][1..] == b[..i][1..] == b[1..][..i - 1];
        }
      }
    } else if b != "" {
      assert a[..0] == b[..0];
    }
  }

  // ---- decimal numerals ----

  predicate IsDigit(c: char) {
    '0' <= c <= '9'
  }

  predicate AllDigits(s: string) {
    forall i :: 0 <= i < |s| ==> IsDigit(s[i])
  }

  function DigitValue(c: char): (v: nat)
    requires IsDigit(c)
    ensures v <= 9
  {
    c as int - '0' as int
  }

  function DigitChar(v: nat): (c: char)
    requires v <= 9
    ensures IsDigit(c) && DigitValue(c) == v
  {
    (v + '0' as int) as char
  }

  /** The number a numeral denotes, most significant digit first. */
  function Value(s: string): (n: nat)
    requires AllDigits(s)
  {
    if s == "" then 0 else 10 * Value(s[..|s| - 1]) + DigitValue(s[|s| - 1])
  }

  /** `%d` of a non-negative number. */
  function Numeral(n: nat): (s: string)
    ensures |s| > 0 && AllDigits(s)
  {
    if n < 10 then [DigitChar(n)] else Numeral(n / 10) + [DigitChar(n % 10)]
  }

  lemma {:induction false} NumeralValue(n: nat)
    ensures Value(Numeral(n)) == n
  {
    var s := Numeral(n);
    if n < 10 {
      assert s[..|s| - 1] == "";
    } else {
      NumeralValue(n / 10);
      assert s[..|s| - 1] == Numeral(n / 10);
    }
  }

  lemma NumeralInjective(m: nat, n: nat)
    requires Numeral(m) == Numeral(n)
    ensures m == n
  {
    NumeralValue(m);
    NumeralValue(n);
  }

  /** `%d` of any integer. */
  function Signed(n: int): (s: string)
    ensures |s| > 0 && IsDigit(s[|s| - 1])
  {
    if n < 0 then "-" + Numeral(-n) else Numeral(n)
  }

  // ---- trimming, folding, cutting ----

  predicate IsSpace(c: char) {
    c == ' ' || c == '\t' || c == '\n' || c == '\r' || c as int == 11 || c as int == 12
  }

  /** `strings.TrimSpace` on ASCII text. */
  function TrimSpace(s: string): (t: string)
    decreases |s|
  {
    if s == "" then ""
    else if IsSpace(s[0]) then TrimSpace(s[1..])
    else if IsSpace(s[|s| - 1]) then TrimSpace(s[..|s| - 1])
    else s
  }

  /** What trimming cuts off: blanks on both sides, and all of them. */
  lemma {:induction false} TrimSpaceExactly(s: string) returns (i: nat, j: nat)
    ensures i <= j <= |s| && TrimSpace(s) == s[i..j]
    ensures forall k :: 0 <= k < i || j <= k < |s| ==> IsSpace(s[k])
    ensures i < j ==> !IsSpace(s[i]) && !IsSpace(s[j - 1])
    decreases |s|
  {
    if s == "" {
      i, j := 0, 0;
    } else if IsSpace(s[0]) {
      i, j := TrimSpaceExactly(s[1..]);
      assert s[1..][i..j] == s[i + 1..j + 1];
      i, j := i + 1, j + 1;
    } else if IsSpace(s[|s| - 1]) {
      i, j := TrimSpaceExactly(s[..|s| - 1]);
      assert s[..|s| - 1][i..j] == s[i..j];
    } else {
      i, j := 0, |s|;
      assert s[0..|s|] == s;
    }
  }

  function LowerChar(c: char): (l: char) {
    if 'A' <= c <= 'Z' then (c as int + 32) as char else c
  }

  /** `strings.ToLower` on ASCII text. */
  function Lower(s: string): (l: string)
    ensures |l| == |s|
    ensures forall i :: 0 <= i < |s| ==> l[i] == LowerChar(s[i])
  {
    seq(|s|, i requires 0 <= i < |s| => LowerChar(s[i]))
  }

  /** The index of the first `c`, or the length when there is none. */
  function IndexOf(s: string, c: char): (n: nat)
    ensures n <= |s|
    ensures forall i :: 0 <= i < n ==> s[i] != c
    ensures n < |s| ==> s[n] == c
  {
    if s == "" || s[0] == c then 0 else 1 + IndexOf(s[1..], c)
  }

  /** `strings.TrimRight(s, "/")`. */
  function TrimSlashes(s: string): (t: string)
    ensures t <= s
    ensures t == "" || t[|t| - 1] != '/'
    ensures forall i :: |t| <= i < |s| ==> s[i] == '/'
  {
    if s == "" || s[|s| - 1] != '/' then s else TrimSlashes(s[..|s| - 1])
  }
}
