/** The duration printers and parsers of three views of the web client. */
module Durations {
  import opened Options
  import opened Decimal

  function Clock2(a: string, b: string): string {
    a + ":" + b
  }

  function Clock3(a: string, b: string, c: string): string {
    a + ":" + b + ":" + c
  }

  // ---------------------------------------------------------------- the running timer

  /** "mm:ss", or "h:mm:ss" from an hour on; a missing or negative value shows as zero. */
  function FormatTimerDisplay(value: Option<int>): string {
    var secs: nat := if value.None? || value.value < 0 then 0 else value.value;
    var h, m, s := secs / 3600, secs % 3600 / 60, secs % 60;
    if h > 0 then Clock3(Digits(h), Pad(m), Pad(s)) else Clock2(Pad(m), Pad(s))
  }

  /** The values of the parts, if every part is a run of digits. */
  method ParseParts(parts: seq<string>) returns (values: Option<seq<nat>>)
    ensures values == PartValues(parts)
  {
    var vs := [];
    for i := 0 to |parts|
      invariant |vs| == i && forall k | 0 <= k < i :: IsNumber(parts[k]) && vs[k] == Value(parts[k])
    {
      if !IsNumber(parts[i]) {
        return None;
      }
      vs := vs + [Value(parts[i])];
    }
    assert vs == PartValues(parts).value;
    return Some(vs);
  }

  predicate IsNumber(s: string) {
    s != "" && AllDigits(s)
  }

  function PartValues(parts: seq<string>): Option<seq<nat>> {
    if forall i | 0 <= i < |parts| :: IsNumber(parts[i])
    then Some(seq(|parts|, i requires 0 <= i < |parts| => if IsNumber(parts[i]) then Value(parts[i]) else 0))
    else None
  }

  function TrimAll(parts: seq<string>): (r: seq<string>)
    ensures |r| == |parts| && forall i | 0 <= i < |parts| :: r[i] == Trim(parts[i])
  {
    seq(|parts|, i requires 0 <= i < |parts| => Trim(parts[i]))
  }

  /** Seconds as digits, "mm:ss" or "hh:mm:ss"; a colon form must come to more than zero. */
  function DurationInput(value: Option<string>): Option<int> {
    if value.None? then None
    else
      var t := Trim(value.value);
      if t == "" then None
      else if AllDigits(t) then Some(Value(t))
      else ClockInput(PartValues(TrimAll(Split(t, ':'))))
  }

  function ClockInput(vs: Option<seq<nat>>): Option<int> {
    if vs.None? || |vs.value| < 2 || |vs.value| > 3 then None
    else Positive(if |vs.value| == 2 then vs.value[0] * 60 + vs.value[1]
                  else vs.value[0] * 3600 + vs.value[1] * 60 + vs.value[2])
  }

  function Positive(total: int): Option<int> {
    if total > 0 then Some(total) else None
  }

  method ParseDurationInput(value: Option<string>) returns (r: Option<int>)
    ensures r == DurationInput(value)
  {
    if value.None? {
      return None;
    }
    var t := Trim(value.value);
    if t == "" {
      return None;
    }
    if AllDigits(t) {
      return Some(Value(t));
    }
    var parts := TrimAll(Split(t, ':'));
    if |parts| < 2 || |parts| > 3 {
      return None;
    }
    var vs := ParseParts(parts);
    if vs.None? {
      return None;
    }
    var total := 0;
    if |parts| == 2 {
      total := vs.value[0] * 60 + vs.value[1];
    } else {
      total := vs.value[0] * 3600 + vs.value[1] * 60 + vs.value[2];
    }
    return if total > 0 then Some(total) else None;
  }

  // ---------------------------------------------------------------- the probe sheet

  function FormatDuration(value: Option<int>): string {
    if value.None? || value.value <= 0 then ""
    else
      var secs := value.value;
      var h, m, s := secs / 3600, secs % 3600 / 60, secs % 60;
      if h > 0 then Clock3(Digits(h), Pad(m), Pad(s)) else Clock2(Digits(m), Pad(s))
  }

  function ParseIntAll(parts: seq<string>): (r: seq<Option<int>>)
    ensures |r| == |parts| && forall i | 0 <= i < |parts| :: r[i] == ParseInt(parts[i])
  {
    seq(|parts|, i requires 0 <= i < |parts| => ParseInt(parts[i]))
  }

  /** None stands for NaN. */
  function ParseDuration(value: Option<string>): Option<int> {
    if value.None? then None
    else
      var t := Trim(value.value);
      if t == "" then None
      else if ':' !in t then ParseInt(t)
      else ClockSheet(ParseIntAll(Split(t, ':')))
  }

  function ClockSheet(p: seq<Option<int>>): Option<int> {
    if exists i | 0 <= i < |p| :: p[i].None? || p[i].value < 0 then None
    else if |p| == 2 then Some(p[0].value * 60 + p[1].value)
    else if |p| == 3 then Some(p[0].value * 3600 + p[1].value * 60 + p[2].value)
    else None
  }

  // ---------------------------------------------------------------- the start-cook flow

  function FormatHHMM(secs: int): string {
    if secs <= 0 then "" else Clock2(Pad(secs / 3600), Pad(secs % 3600 / 60))
  }

  /** Math.round */
  function Round(x: real): int {
    (x + 0.5).Floor
  }

  /** None stands for NaN. Without a colon the text is hours, read by `parseFloat`. */
  function ParseHHMM(value: Option<string>, parseFloat: string -> Option<real>): Option<int> {
    if value.None? then Some(0)
    else
      var t := Trim(value.value);
      if t == "" then Some(0)
      else if ':' !in t then
        var n := parseFloat(t);
        if n.None? || n.value < 0.0 then None else Some(Round(n.value * 3600.0))
      else ClockHHMM(ParseIntAll(Split(t, ':')))
  }

  function ClockHHMM(p: seq<Option<int>>): Option<int> {
    if |p| != 2 || p[0].None? || p[1].None? || p[0].value < 0 || p[1].value < 0 || p[1].value >= 60 then None
    else Some(p[0].value * 3600 + p[1].value * 60)
  }

  // ---------------------------------------------------------------- round trips

  lemma ColonNotInDigits(s: string)
    requires AllDigits(s)
    ensures ':' !in s
  {
  }

  /** A text that trims to itself and holds a colon is read part by part. */
  ghost predicate ReadsAs(t: string, parts: seq<string>) {
    t != "" && !IsSpace(t[0]) && !IsSpace(t[|t| - 1]) && Trim(t) == t && !AllDigits(t) && ':' in t && Split(t, ':') == parts && TrimAll(parts) == parts
  }

  lemma Clock2Reads(a: string, b: string)
    requires IsNumber(a) && IsNumber(b)
    ensures ReadsAs(Clock2(a, b), [a, b])
  {
    var t := Clock2(a, b);
    ColonNotInDigits(a);
    ColonNotInDigits(b);
    SplitAt(a, b, ':');
    SplitNone(b, ':');
    assert t[|a|] == ':';
    assert IsDigit(t[0]) && t[|t| - 1] == b[|b| - 1];
    DigitsAreNotSpace(t);
    DigitsAreNotSpace(a);
    DigitsAreNotSpace(b);
    assert TrimAll([a, b]) == [a, b];
  }

  lemma Clock3Splits(a: string, b: string, c: string)
    requires IsNumber(a) && IsNumber(b) && IsNumber(c)
    ensures Split(Clock3(a, b, c), ':') == [a, b, c]
  {
    ColonNotInDigits(a);
    ColonNotInDigits(b);
    ColonNotInDigits(c);
    assert Clock3(a, b, c) == a + ":" + Clock2(b, c);
    SplitAt(a, Clock2(b, c), ':');
    SplitAt(b, c, ':');
    SplitNone(c, ':');
  }

  lemma Clock3Reads(a: string, b: string, c: string)
    requires IsNumber(a) && IsNumber(b) && IsNumber(c)
    ensures ReadsAs(Clock3(a, b, c), [a, b, c])
  {
    var t := Clock3(a, b, c);
    Clock3Splits(a, b, c);
    assert ':' in t && !AllDigits(t) && t != "" by {
      assert t[|a|] == ':';
    }
    assert Trim(t) == t by {
      assert IsDigit(t[0]) && t[|t| - 1] == c[|c| - 1];
      DigitsAreNotSpace(t);
    }
    assert TrimAll([a, b, c]) == [a, b, c] by {
      DigitsAreNotSpace(a);
      DigitsAreNotSpace(b);
      DigitsAreNotSpace(c);
    }
  }

  /** The parts of `t` are the numbers `vs`. */
  ghost predicate Numbers(t: string, parts: seq<string>, vs: seq<nat>) {
    ReadsAs(t, parts) && |parts| == |vs| && forall i | 0 <= i < |vs| :: IsNumber(parts[i]) && Value(parts[i]) == vs[i]
  }

  function Somes(vs: seq<nat>): seq<Option<int>> {
    seq(|vs|, i requires 0 <= i < |vs| => Some(vs[i]))
  }

  lemma PartwiseValues(t: string, parts: seq<string>, vs: seq<nat>)
    requires Numbers(t, parts, vs)
    ensures PartValues(parts) == Some(vs)
  {
    assert PartValues(parts).value == vs;
  }

  lemma PartwiseInts(t: string, parts: seq<string>, vs: seq<nat>)
    requires Numbers(t, parts, vs)
    ensures ParseIntAll(parts) == Somes(vs)
  {
    forall i | 0 <= i < |parts| ensures ParseIntAll(parts)[i] == Somes(vs)[i] {
      ParseIntOfDigits(parts[i]);
    }
  }

  lemma PartwiseReading(t: string, parts: seq<string>, vs: seq<nat>)
    requires Numbers(t, parts, vs)
    ensures DurationInput(Some(t)) == ClockInput(Some(vs))
    ensures ParseDuration(Some(t)) == ClockSheet(Somes(vs))
  {
    PartwiseValues(t, parts, vs);
    PartwiseInts(t, parts, vs);
  }

  lemma PartwiseHHMM(t: string, parts: seq<string>, vs: seq<nat>, parseFloat: string -> Option<real>)
    requires Numbers(t, parts, vs)
    ensures ParseHHMM(Some(t), parseFloat) == ClockHHMM(Somes(vs))
  {
    PartwiseInts(t, parts, vs);
  }

  lemma ClockParts(n: nat)
    ensures var h, m, s := n / 3600, n % 3600 / 60, n % 60;
      h * 3600 + m * 60 + s == n && 0 <= m < 60 && h * 3600 + m * 60 == n - n % 60
  {
    assert n % 3600 % 60 == n % 60;
  }

  /** The parts as numbers again. */
  lemma ClockDigits(m: nat, s: nat)
    ensures IsNumber(Digits(m)) && IsNumber(Pad(m)) && IsNumber(Pad(s))
    ensures Value(Digits(m)) == m && Value(Pad(m)) == m && Value(Pad(s)) == s
  {
    DigitsValue(m);
    PadValue(m);
    PadValue(s);
  }

  lemma ClockOfTwo(m: nat, s: nat)
    ensures ClockInput(Some([m, s])) == Positive(m * 60 + s)
    ensures ClockSheet(Somes([m, s])) == Some(m * 60 + s)
  {
  }

  lemma ClockOfThree(h: nat, m: nat, s: nat)
    ensures ClockInput(Some([h, m, s])) == Positive(h * 3600 + m * 60 + s)
    ensures ClockSheet(Somes([h, m, s])) == Some(h * 3600 + m * 60 + s)
  {
  }

  lemma TwoAre(a: string, b: string, t: string, m: nat, s: nat)
    requires ReadsAs(t, [a, b]) && IsNumber(a) && IsNumber(b) && Value(a) == m && Value(b) == s
    ensures Numbers(t, [a, b], [m, s])
  {
  }

  lemma ThreeAre(a: string, b: string, c: string, t: string, h: nat, m: nat, s: nat)
    requires ReadsAs(t, [a, b, c]) && IsNumber(a) && IsNumber(b) && IsNumber(c)
    requires Value(a) == h && Value(b) == m && Value(c) == s
    ensures Numbers(t, [a, b, c], [h, m, s])
  {
  }

  lemma ReadClock2(a: string, b: string, t: string, m: nat, s: nat)
    requires Numbers(t, [a, b], [m, s])
    ensures DurationInput(Some(t)) == Positive(m * 60 + s)
    ensures ParseDuration(Some(t)) == Some(m * 60 + s)
  {
    PartwiseReading(t, [a, b], [m, s]);
    ClockOfTwo(m, s);
  }

  lemma ReadClock3(a: string, b: string, c: string, t: string, h: nat, m: nat, s: nat)
    requires Numbers(t, [a, b, c], [h, m, s])
    ensures DurationInput(Some(t)) == Positive(h * 3600 + m * 60 + s)
    ensures ParseDuration(Some(t)) == Some(h * 3600 + m * 60 + s)
  {
    PartwiseReading(t, [a, b, c], [h, m, s]);
    ClockOfThree(h, m, s);
  }

  lemma ReadMinutes(m: nat, s: nat, minutes: string, t: string, n: nat)
    requires minutes == Digits(m) || minutes == Pad(m)
    requires t == Clock2(minutes, Pad(s)) && n == m * 60 + s
    ensures DurationInput(Some(t)) == Positive(n)
    ensures ParseDuration(Some(t)) == Some(n)
  {
    ClockDigits(m, s);
    Clock2Reads(minutes, Pad(s));
    TwoAre(minutes, Pad(s), t, m, s);
    ReadClock2(minutes, Pad(s), t, m, s);
  }

  lemma ReadHours(h: nat, m: nat, s: nat, t: string, n: nat)
    requires t == Clock3(Digits(h), Pad(m), Pad(s)) && n == h * 3600 + m * 60 + s
    ensures DurationInput(Some(t)) == Positive(n)
    ensures ParseDuration(Some(t)) == Some(n)
  {
    ClockDigits(h, m);
    ClockDigits(m, s);
    Clock3Reads(Digits(h), Pad(m), Pad(s));
    ThreeAre(Digits(h), Pad(m), Pad(s), t, h, m, s);
    ReadClock3(Digits(h), Pad(m), Pad(s), t, h, m, s);
  }

  /** Both views read two numbers as minutes and seconds, three as hours, minutes and seconds. */
  lemma ReadClock(h: nat, m: nat, s: nat, minutes: string, t: string, n: nat)
    requires n == h * 3600 + m * 60 + s
    requires h > 0 ==> t == Clock3(Digits(h), Pad(m), Pad(s))
    requires h == 0 ==> t == Clock2(minutes, Pad(s)) && (minutes == Digits(m) || minutes == Pad(m))
    ensures DurationInput(Some(t)) == Positive(n)
    ensures ParseDuration(Some(t)) == Some(n)
  {
    if h > 0 {
      ReadHours(h, m, s, t, n);
    } else {
      ReadMinutes(m, s, minutes, t, n);
    }
  }

  /** Both views read a text that shows `n` seconds in full as `n`. */
  lemma ShownIsRead(n: nat, minutes: string, t: string)
    requires minutes == Digits(n % 3600 / 60) || minutes == Pad(n % 3600 / 60)
    requires t == if n / 3600 > 0 then Clock3(Digits(n / 3600), Pad(n % 3600 / 60), Pad(n % 60)) else Clock2(minutes, Pad(n % 60))
    ensures DurationInput(Some(t)) == Positive(n) && ParseDuration(Some(t)) == Some(n)
  {
    ClockParts(n);
    ReadClock(n / 3600, n % 3600 / 60, n % 60, minutes, t, n);
  }

  /** What the timer shows is read back as the same number exactly when there is something to show. */
  lemma TimerDisplayRoundTrip(n: int)
    ensures DurationInput(Some(FormatTimerDisplay(Some(n)))) == if n >= 1 then Some(n) else None
  {
    var secs: nat := if n < 0 then 0 else n;
    ShownIsRead(secs, Pad(secs % 3600 / 60), FormatTimerDisplay(Some(n)));
  }

  /** The same for the probe sheet. */
  lemma DurationRoundTrip(n: int)
    ensures ParseDuration(Some(FormatDuration(Some(n)))) == if n >= 1 then Some(n) else None
  {
    if n >= 1 {
      ShownIsRead(n, Digits(n % 3600 / 60), FormatDuration(Some(n)));
    }
  }

  /** Every field that is not the leading hours or minutes is two digits, below 60; hours show from 3600 on. */
  lemma TimerDisplayFields(n: nat)
    ensures var parts := Split(FormatTimerDisplay(Some(n)), ':');
      && |parts| == (if n >= 3600 then 3 else 2)
      && (forall i | 0 <= i < |parts| :: IsNumber(parts[i]))
      && (forall i | 0 <= i < |parts| && (i > 0 || n < 3600) :: |parts[i]| == 2 && Value(parts[i]) < 60)
  {
    var h, m, s := n / 3600, n % 3600 / 60, n % 60;
    ClockParts(n);
    ClockDigits(h, s);
    ClockDigits(m, s);
    PadWidth(m);
    PadWidth(s);
    if h > 0 {
      Clock3Splits(Digits(h), Pad(m), Pad(s));
    } else {
      Clock2Reads(Pad(m), Pad(s));
    }
  }

  /** Either view reads what the other one shows. */
  lemma ViewsAgree(n: int)
    requires n >= 1
    ensures DurationInput(Some(FormatDuration(Some(n)))) == Some(n)
    ensures ParseDuration(Some(FormatTimerDisplay(Some(n)))) == Some(n)
  {
    ShownIsRead(n, Digits(n % 3600 / 60), FormatDuration(Some(n)));
    ShownIsRead(n, Pad(n % 3600 / 60), FormatTimerDisplay(Some(n)));
  }

  lemma HoursAndMinutes(a: string, b: string, t: string, h: nat, m: nat, parseFloat: string -> Option<real>)
    requires Numbers(t, [a, b], [h, m]) && m < 60
    ensures ParseHHMM(Some(t), parseFloat) == Some(h * 3600 + m * 60)
  {
    PartwiseHHMM(t, [a, b], [h, m], parseFloat);
    assert ClockHHMM(Somes([h, m])) == Some(h * 3600 + m * 60);
  }

  /** Hours and minutes are read back; the seconds of a positive duration are not shown, and so lost. */
  lemma HHMMRoundTrip(n: int, parseFloat: string -> Option<real>)
    ensures ParseHHMM(Some(FormatHHMM(n)), parseFloat) == Some(if n <= 0 then 0 else n - n % 60)
  {
    if n > 0 {
      var h, m := n / 3600, n % 3600 / 60;
      ClockParts(n);
      PadValue(h);
      PadValue(m);
      Clock2Reads(Pad(h), Pad(m));
      TwoAre(Pad(h), Pad(m), FormatHHMM(n), h, m);
      HoursAndMinutes(Pad(h), Pad(m), FormatHHMM(n), h, m, parseFloat);
    }
  }

  // ---------------------------------------------------------------- exactly when two views agree

  /** Two or three parts that are numbers once trimmed. */
  predicate IsClock(parts: seq<string>) {
    (|parts| == 2 || |parts| == 3) && forall i | 0 <= i < |parts| :: IsNumber(Trim(parts[i]))
  }

  lemma NumbersOnly(parts: seq<string>)
    ensures PartValues(TrimAll(parts)).Some? <==> forall i | 0 <= i < |parts| :: IsNumber(Trim(parts[i]))
  {
    var trimmed := TrimAll(parts);
    if PartValues(trimmed).Some? {
      forall i | 0 <= i < |parts| ensures IsNumber(Trim(parts[i])) {
        assert IsNumber(trimmed[i]);
      }
    }
  }

  lemma SameValues(parts: seq<string>, vs: seq<nat>)
    requires PartValues(TrimAll(parts)) == Some(vs)
    ensures ParseIntAll(parts) == Somes(vs)
  {
    NumbersOnly(parts);
    forall i | 0 <= i < |parts| ensures ParseIntAll(parts)[i] == Somes(vs)[i] {
      ParseIntOfTrimmed(parts[i], Trim(parts[i]));
    }
  }

  lemma ClockReadings(vs: seq<nat>)
    ensures |vs| == 2 || |vs| == 3 ==>
      ClockSheet(Somes(vs)).Some? && ClockInput(Some(vs)) == Positive(ClockSheet(Somes(vs)).value) && ClockSheet(Somes(vs)).value >= 0
    ensures |vs| != 2 && |vs| != 3 ==> ClockSheet(Somes(vs)) == None && ClockInput(Some(vs)) == None
  {
  }

  lemma ClocksAgreeExactlyWhen(parts: seq<string>, input: Option<int>, sheet: Option<int>)
    requires input == ClockInput(PartValues(TrimAll(parts))) && sheet == ClockSheet(ParseIntAll(parts))
    ensures input == sheet <==> sheet == None || (IsClock(parts) && sheet != Some(0))
  {
    NumbersOnly(parts);
    if PartValues(TrimAll(parts)).Some? {
      var vs := PartValues(TrimAll(parts)).value;
      SameValues(parts, vs);
      ClockReadings(vs);
    }
  }

  lemma OnePartIsNoClock(t: string)
    requires ':' !in t
    ensures Split(t, ':') == [t] && !IsClock(Split(t, ':')) && ClockInput(PartValues(TrimAll(Split(t, ':')))) == None
  {
    SplitNone(t, ':');
  }

  /** The timer input and the probe sheet read a text alike exactly when the sheet reads nothing, or the text is all
      digits, or it is a clock of numbers that does not come to zero. So they differ on a sign, on anything after a
      number, and on a clock of zero. */
  lemma {:induction false} ParsersAgreeExactlyWhen(s: string, t: string)
    requires t == Trim(s)
    ensures DurationInput(Some(s)) == ParseDuration(Some(s)) <==>
      || ParseDuration(Some(s)) == None
      || (t != "" && AllDigits(t))
      || (IsClock(Split(t, ':')) && ParseDuration(Some(s)) != Some(0))
  {
    if t == "" {
    } else if AllDigits(t) {
      ColonNotInDigits(t);
      ParseIntOfDigits(t);
    } else if ':' !in t {
      OnePartIsNoClock(t);
    } else {
      ClocksAgreeExactlyWhen(Split(t, ':'), DurationInput(Some(s)), ParseDuration(Some(s)));
    }
  }

  /** The timer input takes no sign; the probe sheet takes either one, so it can come to a negative duration. */
  lemma OnlyTheSheetReadsSigns(n: nat, t: string)
    requires t == "-" + Digits(n) || t == "+" + Digits(n)
    ensures DurationInput(Some(t)) == None
    ensures ParseDuration(Some(t)) == Some(if t[0] == '-' then 0 - n else n)
  {
    DigitsValue(n);
    ColonNotInDigits(Digits(n));
    assert !IsDigit(t[0]);
    assert t[|t| - 1] == Digits(n)[|Digits(n)| - 1];
    assert Trim(t) == t;
    SplitNone(t, ':');
    SignedRead(n, t);
  }

  // ---------------------------------------------------------------- other texts

  lemma NothingShowsAsZero(n: int)
    requires n <= 0
    ensures FormatTimerDisplay(Some(n)) == "00:00" && FormatTimerDisplay(None) == "00:00"
    ensures FormatDuration(Some(n)) == "" && FormatDuration(None) == "" && FormatHHMM(n) == ""
  {
    assert Digits(0) == "0" && Pad(0) == "00";
  }

  predicate Blank(c: char) {
    c == ' ' || c == '\t' || c == '\n' || c == '\r' || c == '\U{00A0}' || c == '\U{2003}' || c == '\U{3000}' || c == '\U{FEFF}'
  }

  /** Blanks around a number are not part of it, for any of the views. */
  lemma BlanksAround(d: string, a: char, b: char, t: string, parseFloat: string -> Option<real>)
    requires IsNumber(d) && Blank(a) && Blank(b) && t == [a] + d + [b]
    ensures DurationInput(Some(t)) == DurationInput(Some(d)) == Some(Value(d))
    ensures ParseDuration(Some(t)) == ParseDuration(Some(d)) == Some(Value(d))
    ensures ParseHHMM(Some(t), parseFloat) == ParseHHMM(Some(d), parseFloat)
  {
    var u := d + [b];
    assert t[0] == a && t[1..] == u && u[0] == d[0] && IsDigit(d[0]);
    assert TrimStart(t) == u by {
      assert TrimStart(u) == u;
    }
    assert TrimEnd(u) == d by {
      assert u[..|u| - 1] == d && IsDigit(d[|d| - 1]);
    }
    DigitsAreNotSpace(d);
    ColonNotInDigits(d);
    ParseIntOfDigits(d);
  }

  /** The sheet reads the number a text without a colon begins with, whatever follows. */
  lemma SheetReadsNumberInFront(d: string, s: string)
    requires AllDigits(d) && d != "" && |d| <= |s| && s[..|d|] == d && (|d| < |s| ==> !IsDigit(s[|d|])) && ':' !in s
    ensures ParseDuration(Some(s)) == Some(Value(d))
  {
    var t := Trim(s);
    NumberInFront(s, d, t);
    assert forall i | 0 <= i < |t| :: t[i] == s[i];
  }

  /** With a colon the sheet reads two or three numbers, none of them negative, and nothing else. */
  lemma SheetReadsClocksExactly(s: string, parts: seq<string>)
    requires ':' in Trim(s) && parts == Split(Trim(s), ':')
    ensures ParseDuration(Some(s)).Some? <==>
      (|parts| == 2 || |parts| == 3) && forall i | 0 <= i < |parts| :: ParseInt(parts[i]).Some? && ParseInt(parts[i]).value >= 0
    ensures ParseDuration(Some(s)).Some? ==> ParseDuration(Some(s)).value >= 0
  {
    assert forall i | 0 <= i < |parts| :: ParseIntAll(parts)[i] == ParseInt(parts[i]);
  }

  /** The start-cook field: empty is no duration; without a colon it is hours, to the nearest second; with one it is
      two numbers, the second below 60. */
  lemma HHMMExactly(s: string, t: string, parseFloat: string -> Option<real>)
    requires t == Trim(s)
    ensures ParseHHMM(None, parseFloat) == Some(0) && (t == "" ==> ParseHHMM(Some(s), parseFloat) == Some(0))
    ensures t != "" && ':' !in t ==>
      var x := parseFloat(t);
      && (ParseHHMM(Some(s), parseFloat).Some? <==> x.Some? && x.value >= 0.0)
      && (x.Some? && x.value >= 0.0 ==>
            var secs := ParseHHMM(Some(s), parseFloat).value as real; secs - 0.5 <= x.value * 3600.0 < secs + 0.5)
    ensures ':' in t ==>
      var parts := Split(t, ':');
      && (ParseHHMM(Some(s), parseFloat).Some? <==> ReadsHoursAndMinutes(parts))
      && (ReadsHoursAndMinutes(parts) ==>
            ParseHHMM(Some(s), parseFloat) == Some((ParseInt(parts[0]).value * 60 + ParseInt(parts[1]).value) * 60))
  {
  }

  predicate ReadsHoursAndMinutes(parts: seq<string>) {
    && |parts| == 2 && ParseInt(parts[0]).Some? && ParseInt(parts[1]).Some?
    && ParseInt(parts[0]).value >= 0 && 0 <= ParseInt(parts[1]).value < 60
  }
}
