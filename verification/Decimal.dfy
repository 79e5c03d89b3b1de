/** Decimal digits and the string operations the duration parsers use. */
module Decimal {
  import opened Options

  predicate IsDigit(c: char) {
    '0' <= c <= '9'
  }

  predicate AllDigits(s: string) {
    forall i | 0 <= i < |s| :: IsDigit(s[i])
  }

  function DigitOf(c: char): nat
    requires IsDigit(c)
  {
    c as int - '0' as int
  }

  function CharOf(d: nat): char
    requires d < 10
  {
    ('0' as int + d) as char
  }

  /** String(n) for a whole number. */
  function Digits(n: nat): string {
    if n < 10 then [CharOf(n)] else Digits(n / 10) + [CharOf(n % 10)]
  }

  /** Two places at least. */
  function Pad(n: nat): string {
    if n < 10 then "0" + Digits(n) else Digits(n)
  }

  function Value(s: string): nat
    requires AllDigits(s)
  {
    if s == "" then 0 else Value(s[..|s| - 1]) * 10 + DigitOf(s[|s| - 1])
  }

  lemma {:induction false} DigitsValue(n: nat)
    ensures AllDigits(Digits(n)) && Digits(n) != "" && Value(Digits(n)) == n
  {
    if n >= 10 {
      DigitsValue(n / 10);
      assert Digits(n)[..|Digits(n)| - 1] == Digits(n / 10);
    }
  }

  lemma PadValue(n: nat)
    ensures AllDigits(Pad(n)) && Pad(n) != "" && Value(Pad(n)) == n
  {
    DigitsValue(n);
    if n < 10 {
      assert Pad(n)[..1] == "0";
      assert Value("0") == 0;
    }
  }

  lemma PadWidth(n: nat)
    requires n < 100
    ensures |Pad(n)| == 2
  {
    if n >= 10 {
      assert |Digits(n / 10)| == 1;
    }
  }

  /** A sign in front is read as one. */
  lemma SignedRead(n: nat, t: string)
    requires t == "-" + Digits(n) || t == "+" + Digits(n)
    ensures ParseInt(t) == Some(if t[0] == '-' then 0 - n else n)
  {
    DigitsValue(n);
    LeadingAll(Digits(n));
    assert t[1..] == Digits(n);
  }

  // ---------------------------------------------------------------- splitting and trimming

  function Split(s: string, sep: char): (parts: seq<string>)
    ensures |parts| >= 1
  {
    if s == "" then [""]
    else
      var rest := Split(s[1..], sep);
      if s[0] == sep then [""] + rest else [[s[0]] + rest[0]] + rest[1..]
  }

  lemma {:induction false} SplitAt(a: string, b: string, sep: char)
    requires sep !in a
    ensures Split(a + [sep] + b, sep) == [a] + Split(b, sep)
    decreases |a|
  {
    var s := a + [sep] + b;
    if a == "" {
      assert s[1..] == b;
    } else {
      assert s[1..] == a[1..] + [sep] + b;
      SplitAt(a[1..], b, sep);
      assert a == [a[0]] + a[1..];
    }
  }

  lemma {:induction false} SplitNone(a: string, sep: char)
    requires sep !in a
    ensures Split(a, sep) == [a]
    decreases |a|
  {
    if a != "" {
      SplitNone(a[1..], sep);
      assert a == [a[0]] + a[1..];
    }
  }

  /** What trim() removes: white space and line terminators. */
  predicate IsSpace(c: char) {
    || '\t' <= c <= '\r' || c == ' ' || c == '\U{00A0}' || c == '\U{1680}' || '\U{2000}' <= c <= '\U{200A}'
    || c == '\U{2028}' || c == '\U{2029}' || c == '\U{202F}' || c == '\U{205F}' || c == '\U{3000}' || c == '\U{FEFF}'
  }

  function TrimStart(s: string): string {
    if s != "" && IsSpace(s[0]) then TrimStart(s[1..]) else s
  }

  function TrimEnd(s: string): string {
    if s != "" && IsSpace(s[|s| - 1]) then TrimEnd(s[..|s| - 1]) else s
  }

  function Trim(s: string): string {
    TrimEnd(TrimStart(s))
  }

  lemma DigitsAreNotSpace(s: string)
    requires s != "" && IsDigit(s[0]) && IsDigit(s[|s| - 1])
    ensures Trim(s) == s
  {
  }

  // ---------------------------------------------------------------- parseInt

  function LeadingDigits(s: string): (r: string)
    ensures AllDigits(r)
  {
    if s != "" && IsDigit(s[0]) then [s[0]] + LeadingDigits(s[1..]) else ""
  }

  /** parseInt(s, 10): white space, an optional sign, then as many digits as follow; NaN without any. */
  function ParseInt(s: string): Option<int> {
    var t := TrimStart(s);
    var negative := t != "" && t[0] == '-';
    var digits := LeadingDigits(if t != "" && (t[0] == '-' || t[0] == '+') then t[1..] else t);
    var v: int := Value(digits);
    if digits == "" then None else Some(if negative then -v else v)
  }

  lemma {:induction false} LeadingAll(s: string)
    requires AllDigits(s)
    ensures LeadingDigits(s) == s
    decreases |s|
  {
    if s != "" {
      LeadingAll(s[1..]);
      assert s == [s[0]] + s[1..];
    }
  }

  lemma ParseIntOfDigits(s: string)
    requires AllDigits(s) && s != ""
    ensures ParseInt(s) == Some(Value(s))
  {
    assert IsDigit(s[0]);
    LeadingAll(s);
  }

  /** Trimming the end leaves a prefix, and white space after it. */
  lemma {:induction false} TrimEndPrefix(s: string, d: string)
    requires d == TrimEnd(s)
    ensures |d| <= |s| && s[..|d|] == d && (|d| < |s| ==> IsSpace(s[|d|]))
    decreases |s|
  {
    if s != "" && IsSpace(s[|s| - 1]) {
      var init := s[..|s| - 1];
      TrimEndPrefix(init, d);
      assert s[..|d|] == init[..|d|];
    }
  }

  lemma {:induction false} LeadingStops(d: string, s: string)
    requires AllDigits(d) && |d| <= |s| && s[..|d|] == d && (|d| < |s| ==> !IsDigit(s[|d|]))
    ensures LeadingDigits(s) == d
    decreases |d|
  {
    if d != "" {
      assert s[0] == d[0];
      assert s[1..][..|d| - 1] == s[..|d|][1..];
      LeadingStops(d[1..], s[1..]);
      assert d == [d[0]] + d[1..];
    }
  }

  /** White space around a number does not change what is read. */
  lemma ParseIntOfTrimmed(p: string, d: string)
    requires d == Trim(p) && AllDigits(d) && d != ""
    ensures ParseInt(p) == Some(Value(d))
  {
    var t := TrimStart(p);
    TrimEndPrefix(t, d);
    assert t[0] == d[0] && IsDigit(d[0]);
    LeadingStops(d, t);
  }

  /** Trimming keeps a number in front, and shortens the text at its end only. */
  lemma TrimKeepsFront(s: string, d: string, t: string)
    requires AllDigits(d) && d != "" && |d| <= |s| && s[..|d|] == d && t == Trim(s)
    ensures |d| <= |t| <= |s| && t == s[..|t|] && TrimStart(t) == t
  {
    assert s[0] == d[0] && IsDigit(d[0]) && TrimStart(s) == s;
    TrimEndPrefix(s, t);
    assert forall i | 0 <= i < |d| :: s[i] == d[i] && !IsSpace(s[i]);
    assert t[0] == s[0];
  }

  lemma NumberInFront(s: string, d: string, t: string)
    requires AllDigits(d) && d != "" && |d| <= |s| && s[..|d|] == d && (|d| < |s| ==> !IsDigit(s[|d|])) && t == Trim(s)
    ensures ParseInt(t) == Some(Value(d)) && |t| <= |s| && t == s[..|t|]
  {
    TrimKeepsFront(s, d, t);
    assert t[..|d|] == d && (|d| < |t| ==> t[|d|] == s[|d|]);
    LeadingStops(d, t);
    assert t[0] == d[0] && IsDigit(d[0]);
  }
}
