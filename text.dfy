/**
 * The handful of Python string operations the core relies on: prefix and
 * suffix tests, `in`, ASCII `lower()`, `strip(' \n\t')`, `split(':')`,
 * `"\n".join(...)`, `str(int)` and the decimal forms of `int(str)` and
 * `float(str)`.
 */
module Text {
  import opened Wrappers

  predicate StartsWith(s: string, prefix: string) {
    |prefix| <= |s| && s[..|prefix|] == prefix
  }

  predicate EndsWith(s: string, suffix: string) {
    |suffix| <= |s| && s[|s| - |suffix|..] == suffix
  }

  /** Python's `sub in s` on strings. */
  predicate Contains(s: string, sub: string)
    decreases |s|
  {
    StartsWith(s, sub) || (|s| > 0 && Contains(s[1..], sub))
  }

  function LowerChar(c: char): char {
    if 'A' <= c <= 'Z' then (c as int + 32) as char else c
  }

  /** `str.lower()`, restricted to ASCII letters. */
  function Lower(s: string): string {
    seq(|s|, i requires 0 <= i < |s| => LowerChar(s[i]))
  }

  // ---- strip(' \n\t') ---------------------------------------------------

  predicate IsBlank(c: char) {
    c == ' ' || c == '\n' || c == '\t'
  }

  predicate AllBlank(s: string) {
    forall i :: 0 <= i < |s| ==> IsBlank(s[i])
  }

  function LStrip(s: string): string
    decreases |s|
  {
    if |s| > 0 && IsBlank(s[0]) then LStrip(s[1..]) else s
  }

  function RStrip(s: string): string
    decreases |s|
  {
    if |s| > 0 && IsBlank(s[|s| - 1]) then RStrip(s[..|s| - 1]) else s
  }

  /** `s.strip(' \n\t')`: blanks removed from both ends. */
  function Strip(s: string): string {
    RStrip(LStrip(s))
  }

  /** A trimmed string neither starts nor ends with a blank. */
  predicate Trimmed(r: string) {
    r == "" || (!IsBlank(r[0]) && !IsBlank(r[|r| - 1]))
  }

  lemma {:induction false} LStripShape(s: string)
    ensures |LStrip(s)| <= |s|
    ensures LStrip(s) == s[|s| - |LStrip(s)|..]
    ensures AllBlank(s[..|s| - |LStrip(s)|])
    ensures LStrip(s) == "" || !IsBlank(LStrip(s)[0])
    decreases |s|
  {
    if |s| > 0 && IsBlank(s[0]) {
      LStripShape(s[1..]);
      var k := |s| - |LStrip(s)|;
      assert s[1..][..k - 1] == s[1..k];
      forall i | 0 <= i < k ensures IsBlank(s[..k][i]) {
        if i > 0 { assert s[..k][i] == s[1..][..k - 1][i - 1]; }
      }
    }
  }

  lemma {:induction false} RStripShape(s: string)
    ensures |RStrip(s)| <= |s|
    ensures RStrip(s) == s[..|RStrip(s)|]
    ensures AllBlank(s[|RStrip(s)|..])
    ensures RStrip(s) == "" || !IsBlank(RStrip(s)[|RStrip(s)| - 1])
    decreases |s|
  {
    if |s| > 0 && IsBlank(s[|s| - 1]) {
      var t := s[..|s| - 1];
      RStripShape(t);
      var k := |RStrip(s)|;
      assert t[..k] == s[..k];
      forall i | k <= i < |s| ensures IsBlank(s[i]) {
        if i < |s| - 1 { assert s[i] == t[k..][i - k]; }
      }
    }
  }

  lemma RStripKeepsHead(s: string)
    requires s != "" && !IsBlank(s[0])
    ensures RStrip(s) != "" && RStrip(s)[0] == s[0]
  {
    RStripShape(s);
  }

  /**
   * `r` is `s` with the blanks at both ends removed: a slice of `s` that
   * neither starts nor ends with a blank, with only blanks around it.
   */
  predicate StrippedFrom(s: string, r: string) {
    && Trimmed(r)
    && exists lo :: 0 <= lo <= |s| - |r| && s[lo..lo + |r|] == r
         && AllBlank(s[..lo]) && AllBlank(s[lo + |r|..])
  }

  /**
   * `Strip(s)` is a slice of `s` obtained by removing a run of blanks at each
   * end, and it neither starts nor ends with a blank.
   */
  lemma StripSpec(s: string)
    ensures StrippedFrom(s, Strip(s))
  {
    var l := LStrip(s);
    var r := Strip(s);
    LStripShape(s);
    RStripShape(l);
    if l != "" { if r != "" { RStripKeepsHead(l); } }
    var lo := |s| - |l|;
    assert s[lo..lo + |r|] == l[..|r|];
    assert s[lo + |r|..] == l[|r|..];
    assert s[lo..lo + |r|] == r && AllBlank(s[..lo]) && AllBlank(s[lo + |r|..]);
    assert StrippedFrom(s, r);
  }

  lemma LStripTrimmed(r: string)
    requires Trimmed(r)
    ensures LStrip(r) == r
  {}

  lemma RStripTrimmed(r: string)
    requires Trimmed(r)
    ensures RStrip(r) == r
  {}

  /** Stripping twice is the same as stripping once. */
  lemma StripIdempotent(s: string)
    ensures Strip(Strip(s)) == Strip(s)
  {
    StripSpec(s);
    LStripTrimmed(Strip(s));
    RStripTrimmed(Strip(s));
  }

  // ---- split(sep) and sep.join(parts) ------------------------------------

  function IndexOf(s: string, c: char): (i: nat)
    requires c in s
    ensures i < |s| && s[i] == c && c !in s[..i]
  {
    if s[0] == c then 0 else 1 + IndexOf(s[1..], c)
  }

  /** `s.split(sep)` for a one-character separator: never an empty list. */
  function Split(s: string, sep: char): (parts: seq<string>)
    ensures |parts| >= 1
    decreases |s|
  {
    if sep !in s then [s]
    else
      var i := IndexOf(s, sep);
      [s[..i]] + Split(s[i + 1..], sep)
  }

  /** `sep.join(parts)`. */
  function Join(parts: seq<string>, sep: string): string
    decreases |parts|
  {
    if |parts| == 0 then ""
    else if |parts| == 1 then parts[0]
    else parts[0] + sep + Join(parts[1..], sep)
  }

  /** Joining the pieces of a split with the separator gives the input back. */
  lemma {:induction false} JoinSplit(s: string, sep: char)
    ensures Join(Split(s, sep), [sep]) == s
    ensures forall p :: p in Split(s, sep) ==> sep !in p
    decreases |s|
  {
    if sep in s {
      var i := IndexOf(s, sep);
      JoinSplit(s[i + 1..], sep);
      assert s == s[..i] + [sep] + s[i + 1..];
    }
  }

  /** Splitting a join of separator-free pieces gives the pieces back. */
  lemma {:induction false} SplitJoin(parts: seq<string>, sep: char)
    requires |parts| >= 1
    requires forall p :: p in parts ==> sep !in p
    ensures Split(Join(parts, [sep]), sep) == parts
    decreases |parts|
  {
    if |parts| > 1 {
      var s := Join(parts, [sep]);
      var rest := Join(parts[1..], [sep]);
      assert s == parts[0] + [sep] + rest;
      assert sep !in parts[0];
      assert s[|parts[0]|] == sep;
      assert sep in s;
      var i := IndexOf(s, sep);
      assert i == |parts[0]|;
      assert s[..i] == parts[0];
      assert s[i + 1..] == rest;
      SplitJoin(parts[1..], sep);
      assert parts == [parts[0]] + parts[1..];
    }
  }

  /** Each piece of a `Join` stands in its place: useful to count lines. */
  lemma JoinLength(parts: seq<string>, sep: char)
    requires |parts| >= 1
    requires forall p :: p in parts ==> sep !in p
    ensures |Split(Join(parts, [sep]), sep)| == |parts|
  {
    SplitJoin(parts, sep);
  }

  // ---- str(int), int(str) and float(str) ----------------------------------

  predicate IsDigit(c: char) {
    '0' <= c <= '9'
  }

  predicate AllDigits(s: string) {
    forall i :: 0 <= i < |s| ==> IsDigit(s[i])
  }

  function DigitChar(d: nat): char
    requires d < 10
  {
    ('0' as int + d) as char
  }

  /** `str(n)` for a non-negative integer. */
  function NatToString(n: nat): (s: string)
    ensures |s| >= 1 && AllDigits(s)
    decreases n
  {
    if n < 10 then [DigitChar(n)] else NatToString(n / 10) + [DigitChar(n % 10)]
  }

  /** The value of a string of decimal digits (the empty string is 0). */
  function DigitsValue(s: string): nat
    requires AllDigits(s)
    decreases |s|
  {
    if |s| == 0 then 0 else DigitsValue(s[..|s| - 1]) * 10 + (s[|s| - 1] as int - '0' as int)
  }

  /** `int(s)` for a plain run of decimal digits; anything else raises. */
  function ParseNat(s: string): Option<nat> {
    if |s| > 0 && AllDigits(s) then Some(DigitsValue(s)) else None
  }

  /** `str(n)` read back by `int(...)` is `n`. */
  lemma {:induction false} ParseNatToString(n: nat)
    ensures ParseNat(NatToString(n)) == Some(n)
    decreases n
  {
    if n >= 10 {
      ParseNatToString(n / 10);
      var s := NatToString(n);
      assert s[..|s| - 1] == NatToString(n / 10);
      assert s[|s| - 1] as int - '0' as int == n % 10;
      assert DigitsValue(s) == (n / 10) * 10 + n % 10;
    }
  }

  lemma NatToStringInjective(a: nat, b: nat)
    requires NatToString(a) == NatToString(b)
    ensures a == b
  {
    ParseNatToString(a);
    ParseNatToString(b);
  }

  /** `int(s)`: an optional sign followed by decimal digits. */
  function ParseInt(s: string): Option<int> {
    if |s| > 0 && s[0] == '-' then
      match ParseNat(s[1..]) case Some(n) => Some(0 - n) case None => None
    else if |s| > 0 && s[0] == '+' then
      match ParseNat(s[1..]) case Some(n) => Some(n) case None => None
    else
      match ParseNat(s) case Some(n) => Some(n) case None => None
  }

  function Pow10(k: nat): (r: nat)
    ensures r >= 1
  {
    if k == 0 then 1 else 10 * Pow10(k - 1)
  }

  /** Digits with at most one '.', and at least one digit. */
  function ParseUnsignedDecimal(s: string): Option<real> {
    if '.' !in s then
      (if |s| > 0 && AllDigits(s) then Some(DigitsValue(s) as real) else None)
    else
      var i := IndexOf(s, '.');
      var whole, frac := s[..i], s[i + 1..];
      if AllDigits(whole) && AllDigits(frac) && |whole| + |frac| > 0 then
        Some(DigitsValue(whole) as real + DigitsValue(frac) as real / Pow10(|frac|) as real)
      else None
  }

  /** `float(s)`: an optional sign and a plain decimal numeral. */
  function ParseFloat(s: string): Option<real> {
    if |s| > 0 && s[0] == '-' then
      match ParseUnsignedDecimal(s[1..]) case Some(r) => Some(-r) case None => None
    else if |s| > 0 && s[0] == '+' then ParseUnsignedDecimal(s[1..])
    else ParseUnsignedDecimal(s)
  }

  /** `str(b)` for a Python bool. */
  function PyBool(b: bool): string {
    if b then "True" else "False"
  }
}
