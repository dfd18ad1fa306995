/** Container names. They join labels with '-', so they tell replicas of one deployment
    revision apart, but not runtimes: two valid runtimes can share a container name. */
module Naming {
  import opened Text
  import opened Runtimes

  function SafeChar(c: char): (s: char) {
    if 'a' <= c <= 'z' || IsDigit(c) || c == '-' || c == '_' || c == '.' then c else '-'
  }

  function SafeChars(s: string): (t: string)
    ensures |t| == |s|
    ensures forall i :: 0 <= i < |s| ==> t[i] == SafeChar(s[i])
  {
    seq(|s|, i requires 0 <= i < |s| => SafeChar(s[i]))
  }

  predicate Punctuation(c: char) {
    c == '-' || c == '_' || c == '.'
  }

  /** `strings.Trim(s, "-_.")` */
  function TrimPunctuation(s: string): (t: string)
    decreases |s|
  {
    if s == "" then ""
    else if Punctuation(s[0]) then TrimPunctuation(s[1..])
    else if Punctuation(s[|s| - 1]) then TrimPunctuation(s[..|s| - 1])
    else s
  }

  function Sanitized(value: string): (out: string) {
    var folded := Lower(TrimSpace(value));
    var trimmed := TrimPunctuation(SafeChars(folded));
    if trimmed == "" then "aifar-pod" else trimmed
  }

  method SanitizeDockerName(raw: string) returns (out: string)
    ensures out == Sanitized(raw)
  {
    var value := Lower(TrimSpace(raw));
    if value == "" {
      return "aifar-pod";
    }
    out := "";
    for i := 0 to |value|
      invariant |out| == i && forall j :: 0 <= j < i ==> out[j] == SafeChar(value[j])
    {
      var r := value[i];
      if 'a' <= r <= 'z' || '0' <= r <= '9' || r == '-' || r == '_' || r == '.' {
        out := out + [r];
      } else {
        out := out + ['-'];
      }
    }
    assert out == SafeChars(value);
    out := TrimPunctuation(out);
    if out == "" {
      return "aifar-pod";
    }
  }

  function Revision(d: Deployment): string {
    if TrimSpace(d.revision) == "" then "current" else TrimSpace(d.revision)
  }

  /** Everything in a canonical name before the replica number. */
  function Stem(key: Key, d: Deployment): string {
    "aifar-pod-" + key.namespace + "-" + key.name + "-" + d.name + "-" + Revision(d) + "-r"
  }

  /** `containerNameForDeployment` */
  function Canonical(key: Key, d: Deployment, replica: nat): (name: string) {
    Sanitized(Stem(key, d) + Numeral(replica))
  }

  /** The name a replacement runs under until it takes the canonical one. */
  function SurgeName(key: Key, d: Deployment, replica: nat, generation: int): (name: string) {
    Sanitized(Canonical(key, d, replica) + "-surge-g" + Signed(generation))
  }

  /** Text that starts with a letter and ends with a digit is only folded, character by character. */
  lemma SanitizedPlain(s: string)
    requires s != "" && 'a' <= s[0] <= 'z' && IsDigit(s[|s| - 1])
    ensures Sanitized(s) == SafeChars(Lower(s))
  {
    assert TrimSpace(s) == s;
    var t := SafeChars(Lower(s));
    assert t[0] == s[0] && t[|t| - 1] == s[|s| - 1];
    assert TrimPunctuation(t) == t;
  }

  lemma SafeConcat(a: string, b: string)
    ensures SafeChars(Lower(a + b)) == SafeChars(Lower(a)) + SafeChars(Lower(b))
  {
  }

  lemma SafeFixed(s: string)
    requires forall i :: 0 <= i < |s| ==> LowerChar(s[i]) == s[i] && SafeChar(s[i]) == s[i]
    ensures SafeChars(Lower(s)) == s
  {
  }

  lemma CanonicalShape(key: Key, d: Deployment, replica: nat)
    ensures Canonical(key, d, replica) == SafeChars(Lower(Stem(key, d))) + Numeral(replica)
    ensures 'a' == Canonical(key, d, replica)[0]
  {
    var stem, n := Stem(key, d), Numeral(replica);
    assert stem[0] == 'a';
    SanitizedPlain(stem + n);
    SafeConcat(stem, n);
    SafeFixed(n) by { assert forall i :: 0 <= i < |n| ==> IsDigit(n[i]); }
  }

  lemma SurgeShape(key: Key, d: Deployment, replica: nat, generation: int)
    ensures SurgeName(key, d, replica, generation)
            == Canonical(key, d, replica) + "-surge-g" + SafeChars(Lower(Signed(generation)))
  {
    CanonicalShape(key, d, replica);
    hide Canonical;
    var c, g := Canonical(key, d, replica), Signed(generation);
    SanitizedPlain(c + "-surge-g" + g);
    CanonicalSafe(key, d, replica);
    hide Sanitized, SafeChars, Lower, Signed;
    SafeConcat(c + "-surge-g", g);
    SafeConcat(c, "-surge-g");
    SurgeInfixSafe();
  }

  /** Text that sanitizing leaves as it is, inside a name. */
  predicate Word(s: string) {
    forall i :: 0 <= i < |s| ==> 'a' <= s[i] <= 'z' || IsDigit(s[i]) || s[i] == '-' || s[i] == '_' || s[i] == '.'
  }

  lemma WordFixed(s: string)
    requires Word(s)
    ensures SafeChars(Lower(s)) == s && TrimSpace(s) == s
  {
  }

  /** How the names of a valid runtime's containers are spelled. */
  lemma CanonicalSpelled(key: Key, d: Deployment, replica: nat)
    requires Word(key.namespace) && Word(key.name) && Word(d.name) && Word(d.revision)
    ensures Canonical(key, d, replica)
            == "aifar-pod-" + key.namespace + "-" + key.name + "-" + d.name + "-"
               + (if d.revision == "" then "current" else d.revision) + "-r" + Numeral(replica)
  {
    CanonicalShape(key, d, replica);
    StemSpelled(key, d);
    hide Canonical, Stem;
    WordFixed(Stem(key, d));
  }

  lemma StemSpelled(key: Key, d: Deployment)
    requires Word(key.namespace) && Word(key.name) && Word(d.name) && Word(d.revision)
    ensures Word(Stem(key, d))
    ensures Stem(key, d) == "aifar-pod-" + key.namespace + "-" + key.name + "-" + d.name + "-"
                            + (if d.revision == "" then "current" else d.revision) + "-r"
  {
    WordFixed(d.revision);
    var rev := if d.revision == "" then "current" else d.revision;
    assert Word(rev) && Word("aifar-pod-") && Word("-") && Word("-r");
    assert Revision(d) == rev;
    hide Word, Revision, TrimSpace;
    WordJoin("aifar-pod-", key.namespace);
    WordJoin("aifar-pod-" + key.namespace, "-");
    WordJoin("aifar-pod-" + key.namespace + "-", key.name);
    var front := "aifar-pod-" + key.namespace + "-" + key.name;
    WordJoin(front, "-");
    WordJoin(front + "-", d.name);
    WordJoin(front + "-" + d.name, "-");
    WordJoin(front + "-" + d.name + "-", rev);
    WordJoin(front + "-" + d.name + "-" + rev, "-r");
  }

  lemma WordJoin(a: string, b: string)
    requires Word(a) && Word(b)
    ensures Word(a + b)
  {
  }

  lemma SurgeSpelled(key: Key, d: Deployment, replica: nat, generation: nat)
    requires Word(key.namespace) && Word(key.name) && Word(d.name) && Word(d.revision)
    ensures SurgeName(key, d, replica, generation)
            == "aifar-pod-" + key.namespace + "-" + key.name + "-" + d.name + "-"
               + (if d.revision == "" then "current" else d.revision) + "-r" + Numeral(replica) + "-surge-g" + Numeral(generation)
  {
    SurgeShape(key, d, replica, generation);
    CanonicalSpelled(key, d, replica);
    DigitsSafe(Numeral(generation));
    hide Canonical, SurgeName;
  }

  /** What sanitizing makes of any text: something, of harmless characters, with no punctuation at
      either end. */
  lemma SanitizedIsSafe(value: string)
    ensures var s := Sanitized(value);
            && s != "" && Word(s) && !Punctuation(s[0]) && !Punctuation(s[|s| - 1])
  {
    var t := SafeChars(Lower(TrimSpace(value)));
    TrimmedWord(t);
  }

  lemma {:induction false} TrimmedWord(s: string)
    requires forall i :: 0 <= i < |s| ==> SafeChar(s[i]) == s[i]
    ensures var t := TrimPunctuation(s);
            Word(t) && (t != "" ==> !Punctuation(t[0]) && !Punctuation(t[|t| - 1]))
    decreases |s|
  {
    if s != "" {
      if Punctuation(s[0]) {
        TrimmedWord(s[1..]);
      } else if Punctuation(s[|s| - 1]) {
        TrimmedWord(s[..|s| - 1]);
      }
    }
  }

  lemma SurgeInfixSafe()
    ensures SafeChars(Lower("-surge-g")) == "-surge-g"
  {
    SafeFixed("-surge-g");
  }

  lemma CanonicalSafe(key: Key, d: Deployment, replica: nat)
    ensures SafeChars(Lower(Canonical(key, d, replica))) == Canonical(key, d, replica)
  {
    CanonicalShape(key, d, replica);
    hide Canonical;
    var n := Numeral(replica);
    forall i | 0 <= i < |Canonical(key, d, replica)|
      ensures var c := Canonical(key, d, replica)[i]; LowerChar(c) == c && SafeChar(c) == c
    {
      var stem := Lower(Stem(key, d));
      if i < |stem| {
        assert Canonical(key, d, replica)[i] == SafeChar(stem[i]);
      } else {
        assert Canonical(key, d, replica)[i] == n[i - |stem|] && IsDigit(n[i - |stem|]);
      }
    }
    SafeFixed(Canonical(key, d, replica));
  }

  /** Replicas of one deployment revision have distinct names. */
  lemma CanonicalInjective(key: Key, d: Deployment, i: nat, j: nat)
    requires Canonical(key, d, i) == Canonical(key, d, j)
    ensures i == j
  {
    CanonicalShape(key, d, i);
    CanonicalShape(key, d, j);
    var stem := SafeChars(Lower(Stem(key, d)));
    assert Numeral(i) == (stem + Numeral(i))[|stem|..] == Numeral(j);
    NumeralInjective(i, j);
  }

  /** Text that ends in digits splits in one way into digits and what comes before them. */
  lemma DigitsSplit(a: string, m: string, b: string, n: string)
    requires AllDigits(m) && AllDigits(n) && a != "" && b != ""
    requires !IsDigit(a[|a| - 1]) && !IsDigit(b[|b| - 1]) && a + m == b + n
    ensures a == b && m == n
  {
    NotLonger(a, m, b, n);
    NotLonger(b, n, a, m);
    var s := a + m;
    assert a == s[..|a|] && b == s[..|a|] && m == s[|a|..] && n == s[|a|..];
  }

  lemma NotLonger(a: string, m: string, b: string, n: string)
    requires AllDigits(n) && a != "" && !IsDigit(a[|a| - 1]) && a + m == b + n
    ensures |a| <= |b|
  {
    var s := a + m;
    assert s[|a| - 1] == a[|a| - 1];
    forall k | |b| <= k < |s|
      ensures IsDigit(s[k])
    {
      assert s == b + n && s[k] == n[k - |b|];
    }
  }

  lemma StemEnds(key: Key, d: Deployment)
    ensures var stem := SafeChars(Lower(Stem(key, d))); stem != "" && stem[|stem| - 1] == 'r'
  {
    var stem := Stem(key, d);
    assert stem[|stem| - 1] == 'r';
  }

  /** A surge name is its digits after a character that is not the 'r' of a canonical name. */
  lemma SurgeEnds(key: Key, d: Deployment, replica: nat, generation: int) returns (head: string, digits: string)
    ensures SurgeName(key, d, replica, generation) == head + digits && AllDigits(digits)
    ensures head != "" && !IsDigit(head[|head| - 1]) && head[|head| - 1] != 'r'
  {
    SurgeShape(key, d, replica, generation);
    var c := Canonical(key, d, replica);
    hide Canonical, SurgeName;
    if generation >= 0 {
      digits := Numeral(generation);
      DigitsSafe(digits);
      head := c + "-surge-g";
    } else {
      digits := Numeral(-generation);
      DigitsSafe(digits);
      FixedTexts();
      SafeConcat("-", digits);
      hide SafeChars, Lower;
      head := c + "-surge-g" + "-";
      assert c + "-surge-g" + ("-" + digits) == head + digits;
    }
  }

  lemma DigitsSafe(s: string)
    requires AllDigits(s)
    ensures SafeChars(Lower(s)) == s
  {
    forall i | 0 <= i < |s|
      ensures LowerChar(s[i]) == s[i] && SafeChar(s[i]) == s[i]
    {
      assert IsDigit(s[i]);
    }
    SafeFixed(s);
  }

  /** A surge name is never a canonical name, of whatever runtime and deployment: what comes
      before its last number is no 'r'. */
  lemma SurgeNeverCanonical(a: Key, d: Deployment, i: nat, generation: int, b: Key, e: Deployment, j: nat)
    ensures SurgeName(a, d, i, generation) != Canonical(b, e, j)
  {
    var head, digits := SurgeEnds(a, d, i, generation);
    CanonicalShape(b, e, j);
    StemEnds(b, e);
    hide Canonical, SurgeName;
    var stem, n := SafeChars(Lower(Stem(b, e))), Numeral(j);
    if head + digits == stem + n {
      DigitsSplit(head, digits, stem, n);
    }
  }

  lemma SurgeNotCanonical(key: Key, d: Deployment, i: nat, generation: int, j: nat)
    ensures SurgeName(key, d, i, generation) != Canonical(key, d, j)
  {
    SurgeNeverCanonical(key, d, i, generation, key, d, j);
    hide SurgeName, Canonical;
  }

  /** The part of a container name that stands for runtime, deployment and revision. */
  function Spelling(key: Key, d: Deployment): (text: string) {
    SafeChars(Lower(key.namespace + "-" + key.name + "-" + d.name + "-" + Revision(d)))
  }

  lemma StemSpelling(key: Key, d: Deployment)
    ensures SafeChars(Lower(Stem(key, d))) == "aifar-pod-" + Spelling(key, d) + "-r"
  {
    var text := key.namespace + "-" + key.name + "-" + d.name + "-" + Revision(d);
    assert Stem(key, d) == "aifar-pod-" + text + "-r";
    hide SafeChars, Lower, Stem;
    SafeConcat("aifar-pod-" + text, "-r");
    SafeConcat("aifar-pod-", text);
    FixedTexts();
  }

  /** Exactly when two containers of any two runtimes and deployments share a name: when they
      are the same replica, and namespace, name, deployment and revision read the same once
      joined and made safe. */
  lemma CollideExactly(a: Key, d: Deployment, i: nat, b: Key, e: Deployment, j: nat)
    ensures Canonical(a, d, i) == Canonical(b, e, j) <==> i == j && Spelling(a, d) == Spelling(b, e)
  {
    CanonicalShape(a, d, i);
    CanonicalShape(b, e, j);
    StemSpelling(a, d);
    StemSpelling(b, e);
    StemEnds(a, d);
    StemEnds(b, e);
    hide Canonical, Spelling, Stem, SafeChars, Lower;
    var x, y := "aifar-pod-" + Spelling(a, d) + "-r", "aifar-pod-" + Spelling(b, e) + "-r";
    if x + Numeral(i) == y + Numeral(j) {
      DigitsSplit(x, Numeral(i), y, Numeral(j));
      NumeralInjective(i, j);
      assert Spelling(a, d) == x[10..|x| - 2] && Spelling(b, e) == y[10..|y| - 2];
    }
  }

  /** Names do not tell runtimes apart: both runtimes below are valid and different, and all
      their container names agree. */
  lemma NamesCollide(d: Deployment, replica: nat)
    ensures var a, b := Key("a-b", "c"), Key("a", "b-c");
            ValidKey(a) && ValidKey(b) && a != b && Canonical(a, d, replica) == Canonical(b, d, replica)
  {
    var a, b := Key("a-b", "c"), Key("a", "b-c");
    assert a.namespace + "-" + a.name == "a-b-c" == b.namespace + "-" + b.name;
    assert Stem(a, d) == "aifar-pod-" + (a.namespace + "-" + a.name) + "-" + d.name + "-" + Revision(d) + "-r";
    assert Stem(b, d) == "aifar-pod-" + (b.namespace + "-" + b.name) + "-" + d.name + "-" + Revision(d) + "-r";
  }

  /** Different deployments can make up for different keys: these two runtimes are valid, their
      keys read differently once joined, and yet they share every container name. */
  lemma DeploymentsCollide(d: Deployment, e: Deployment, replica: nat)
    requires d.name == "z-w" && e.name == "w" && d.revision == e.revision
    ensures var a, b := Key("x", "y"), Key("x", "y-z");
            && ValidKey(a) && ValidKey(b) && Joined(a) != Joined(b)
            && Canonical(a, d, replica) == Canonical(b, e, replica)
  {
    var a, b := Key("x", "y"), Key("x", "y-z");
    assert a.namespace + "-" + a.name + "-" + d.name == "x-y-z-w" == b.namespace + "-" + b.name + "-" + e.name;
    CollideExactly(a, d, replica, b, e, replica);
  }

  lemma LabelFixed(s: string)
    requires DnsLabel(s)
    ensures SafeChars(Lower(s)) == s
  {
    forall i | 0 <= i < |s|
      ensures LowerChar(s[i]) == s[i] && SafeChar(s[i]) == s[i]
    {
      assert LabelChar(s[i]);
    }
    SafeFixed(s);
  }

  function Joined(key: Key): string {
    key.namespace + "-" + key.name
  }

  /** For one and the same deployment, two valid runtimes share a name exactly when their
      namespaces and names read the same once joined. */
  lemma CollideAlike(a: Key, b: Key, d: Deployment, replica: nat)
    requires ValidKey(a) && ValidKey(b)
    ensures Canonical(a, d, replica) == Canonical(b, d, replica) <==> Joined(a) == Joined(b)
  {
    CanonicalParts(a, d, replica);
    CanonicalParts(b, d, replica);
    hide Canonical, Joined;
    var tail := SafeChars(Lower("-" + d.name + "-" + Revision(d) + "-r")) + Numeral(replica);
    if Canonical(a, d, replica) == Canonical(b, d, replica) {
      var x, y := "aifar-pod-" + (Joined(a) + tail), "aifar-pod-" + (Joined(b) + tail);
      assert Joined(a) + tail == x[10..] && Joined(b) + tail == y[10..];
      assert Joined(a) == (Joined(a) + tail)[..|Joined(a)|];
      assert Joined(b) == (Joined(b) + tail)[..|Joined(b)|];
    }
  }

  lemma CanonicalParts(key: Key, d: Deployment, replica: nat)
    requires ValidKey(key)
    ensures Canonical(key, d, replica)
            == "aifar-pod-" + (Joined(key) + (SafeChars(Lower("-" + d.name + "-" + Revision(d) + "-r")) + Numeral(replica)))
  {
    CanonicalShape(key, d, replica);
    hide Canonical, SafeChars, Lower, Numeral;
    var rest := "-" + d.name + "-" + Revision(d) + "-r";
    SafeStem(key, rest);
    StemSplit(key, d, rest);
    Regroup("aifar-pod-", Joined(key), SafeChars(Lower(rest)), Numeral(replica));
  }

  lemma StemSplit(key: Key, d: Deployment, rest: string)
    requires rest == "-" + d.name + "-" + Revision(d) + "-r"
    ensures Stem(key, d) == "aifar-pod-" + (Joined(key) + rest)
  {
  }

  lemma Regroup(a: string, b: string, c: string, d: string)
    ensures (a + (b + c)) + d == a + (b + (c + d))
  {
  }

  lemma SafeStem(key: Key, rest: string)
    requires ValidKey(key)
    ensures SafeChars(Lower("aifar-pod-" + (Joined(key) + rest))) == "aifar-pod-" + (Joined(key) + SafeChars(Lower(rest)))
  {
    hide SafeChars, Lower;
    SafeConcat("aifar-pod-", Joined(key) + rest);
    SafeConcat(Joined(key), rest);
    SafeConcat(key.namespace + "-", key.name);
    SafeConcat(key.namespace, "-");
    FixedTexts();
    LabelFixed(key.namespace);
    LabelFixed(key.name);
  }

  lemma FixedTexts()
    ensures SafeChars(Lower("aifar-pod-")) == "aifar-pod-"
    ensures SafeChars(Lower("-")) == "-"
    ensures SafeChars(Lower("-r")) == "-r"
  {
    SafeFixed("aifar-pod-");
    SafeFixed("-");
    SafeFixed("-r");
  }
}
