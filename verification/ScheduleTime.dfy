/** The time of day of a snapshot schedule: one parser and two printers. */
module ScheduleTime {
  import opened Prelude
  import opened Text

  datatype Time = Time(hour: nat, minute: nat)

  predicate OnTheClock(t: Time) {
    t.hour < 24 && t.minute < 60
  }

  function DigitsRun(s: string): (n: nat)
    ensures n <= |s| && AllDigits(s[..n])
  {
    if s != "" && IsDigit(s[0]) then
      var n := DigitsRun(s[1..]);
      assert s[..n + 1] == [s[0]] + s[1..][..n];
      n + 1
    else 0
  }

  /** One or two digits at the front: their value and the text behind them. */
  function TakeNumber(s: string): (r: Option<(nat, string)>)
    ensures r.Some? ==> |r.value.1| < |s|
  {
    var n := DigitsRun(s);
    if 1 <= n <= 2 then Some((DigitsValue(s[..n]), s[n..])) else None
  }

  predicate StartsWithColon(s: string) {
    s != "" && s[0] == ':'
  }

  /** Optional seconds: ":" and one or two digits, whose value is ignored. */
  function SkipSeconds(s: string): Option<string> {
    if !StartsWithColon(s) then Some(s)
    else
      match TakeNumber(s[1..])
      case None => None
      case Some((_, rest)) => Some(rest)
  }

  datatype Suffix = NoSuffix | Am | Pm

  /** Optional spaces, an optional am/pm in either case, and spaces to the end. */
  function ParseSuffix(s: string): Option<Suffix> {
    var t := SkipSpaces(s);
    if t == "" then Some(NoSuffix)
    else if |t| < 2 || SkipSpaces(t[2..]) != "" then None
    else
      var word := Lower(t[..2]);
      if word == "am" then Some(Am) else if word == "pm" then Some(Pm) else None
  }

  /** Turn a 12-hour reading into a 24-hour one and check the ranges. */
  function OnClock(hour: nat, minute: nat, suffix: Suffix): (r: Option<Time>)
    ensures r.Some? ==> OnTheClock(r.value)
  {
    if !suffix.NoSuffix? && !(1 <= hour <= 12) then None
    else
      var h := if suffix.Am? && hour == 12 then 0 else if suffix.Pm? && hour < 12 then hour + 12 else hour;
      if h < 24 && minute < 60 then Some(Time(h, minute)) else None
  }

  /** `_schedule_time_parts`; None stands for its ValueError. */
  function ParseTime(text: string): (r: Option<Time>)
    ensures r.Some? ==> OnTheClock(r.value)
  {
    match TakeNumber(SkipSpaces(text))
    case None => None
    case Some((hour, rest)) =>
      if !StartsWithColon(rest) then None
      else
        match TakeNumber(rest[1..])
        case None => None
        case Some((minute, tail)) => FinishTime(hour, minute, tail)
  }

  function FinishTime(hour: nat, minute: nat, tail: string): (r: Option<Time>)
    ensures r.Some? ==> OnTheClock(r.value)
  {
    match SkipSeconds(tail)
    case None => None
    case Some(rest) =>
      match ParseSuffix(rest)
      case None => None
      case Some(suffix) => OnClock(hour, minute, suffix)
  }

  /** `{n:02d}` */
  function Pad2(n: nat): (r: string)
    ensures r != "" && AllDigits(r)
  {
    if n < 10 then "0" + NatText(n) else NatText(n)
  }

  /** The form published to Home Assistant: `HH:MM`. */
  function PrintPadded(t: Time): string {
    Pad2(t.hour) + ":" + Pad2(t.minute)
  }

  /** The form written to the device: `H:MM`. */
  function PrintPlain(t: Time): string {
    NatText(t.hour) + ":" + Pad2(t.minute)
  }

  lemma {:induction false} RunOfDigits(d: string, rest: string)
    requires AllDigits(d) && (rest == "" || !IsDigit(rest[0]))
    ensures DigitsRun(d + rest) == |d|
  {
    if d == "" {
      assert d + rest == rest;
    } else {
      RunOfDigits(d[1..], rest);
      assert (d + rest)[1..] == d[1..] + rest;
    }
  }

  lemma Taken(d: string, rest: string)
    requires AllDigits(d) && 1 <= |d| <= 2 && (rest == "" || !IsDigit(rest[0]))
    ensures TakeNumber(d + rest) == Some((DigitsValue(d), rest))
  {
    RunOfDigits(d, rest);
    assert (d + rest)[..|d|] == d && (d + rest)[|d|..] == rest;
  }

  lemma NoTail(hour: nat, minute: nat)
    ensures FinishTime(hour, minute, "") == OnClock(hour, minute, NoSuffix)
  {
  }

  lemma AfterHour(text: string, hour: nat, rest: string, m: string)
    requires TakeNumber(SkipSpaces(text)) == Some((hour, rest)) && rest == ":" + m
    requires AllDigits(m) && 1 <= |m| <= 2
    ensures ParseTime(text) == FinishTime(hour, DigitsValue(m), "")
  {
    assert rest[1..] == m && m + "" == m;
    Taken(m, "");
  }

  /** Hour digits, a colon and minute digits read as their values. */
  lemma ReadTime(h: string, m: string)
    requires AllDigits(h) && AllDigits(m) && 1 <= |h| <= 2 && 1 <= |m| <= 2
    ensures ParseTime(h + ":" + m) == OnClock(DigitsValue(h), DigitsValue(m), NoSuffix)
  {
    var text := h + ":" + m;
    assert text[0] == h[0] && IsDigit(h[0]) && SkipSpaces(text) == text;
    assert text == h + (":" + m);
    Taken(h, ":" + m);
    AfterHour(text, DigitsValue(h), ":" + m, m);
    NoTail(DigitsValue(h), DigitsValue(m));
  }

  lemma PaddedDigits(n: nat)
    requires n < 100
    ensures |Pad2(n)| == 2 && DigitsValue(Pad2(n)) == n
  {
    ShortNatText(n);
    NatTextValue(n);
    if n < 10 {
      assert Pad2(n)[..1] == "0" && "0"[..0] == "";
      assert Pad2(n)[1] == DigitChar(n);
    } else {
      assert NatText(n) == NatText(n / 10) + [DigitChar(n % 10)];
    }
  }

  /** Reading either printed form of a time gives the time back. */
  lemma TimeRoundTrips(t: Time)
    requires OnTheClock(t)
    ensures ParseTime(PrintPadded(t)) == Some(t) == ParseTime(PrintPlain(t))
  {
    PaddedDigits(t.hour);
    PaddedDigits(t.minute);
    ShortNatText(t.hour);
    NatTextValue(t.hour);
    ReadTime(Pad2(t.hour), Pad2(t.minute));
    ReadTime(NatText(t.hour), Pad2(t.minute));
  }

  /** The hour as a 12-hour clock shows it. */
  function DialHour(t: Time): (h: nat)
    ensures 1 <= h <= 12
  {
    if t.hour % 12 == 0 then 12 else t.hour % 12
  }

  /** `H:MM am` or `H:MM pm` */
  function PrintDial(t: Time): string {
    NatText(DialHour(t)) + ":" + (Pad2(t.minute) + if t.hour < 12 then " am" else " pm")
  }

  lemma DialSuffix(before: bool)
    ensures ParseSuffix(if before then " am" else " pm") == Some(if before then Am else Pm)
  {
    assert " am"[1..] == "am" && " pm"[1..] == "pm";
    assert SkipSpaces("am") == "am" && SkipSpaces("pm") == "pm";
    assert "am"[..2] == "am" && "pm"[..2] == "pm";
    assert Lower("am") == "am" && Lower("pm") == "pm";
    assert "am"[0] == 'a' && "pm"[0] == 'p';
  }

  lemma FinishDial(hour: nat, minute: nat, before: bool)
    ensures FinishTime(hour, minute, if before then " am" else " pm")
        == OnClock(hour, minute, if before then Am else Pm)
  {
    DialSuffix(before);
  }

  lemma AfterDialHour(text: string, hour: nat, rest: string, m: string, tail: string)
    requires TakeNumber(SkipSpaces(text)) == Some((hour, rest)) && rest == ":" + (m + tail)
    requires AllDigits(m) && 1 <= |m| <= 2 && tail != "" && !IsDigit(tail[0])
    ensures ParseTime(text) == FinishTime(hour, DigitsValue(m), tail)
  {
    assert rest[1..] == m + tail;
    Taken(m, tail);
  }

  /** The same with an am or pm behind the minute. */
  lemma ReadDial(h: string, m: string, before: bool)
    requires AllDigits(h) && AllDigits(m) && 1 <= |h| <= 2 && 1 <= |m| <= 2
    ensures ParseTime(h + ":" + (m + if before then " am" else " pm"))
         == OnClock(DigitsValue(h), DigitsValue(m), if before then Am else Pm)
  {
    var tail := if before then " am" else " pm";
    var text := h + ":" + (m + tail);
    assert text == h + (":" + (m + tail));
    assert text[0] == h[0] && IsDigit(h[0]) && SkipSpaces(text) == text;
    Taken(h, ":" + (m + tail));
    AfterDialHour(text, DigitsValue(h), ":" + (m + tail), m, tail);
    FinishDial(DigitsValue(h), DigitsValue(m), before);
  }

  /** What the numbers of a time mean: without a suffix any hour of the day, with one an hour from 1 to
      12, of which 12 is the first; everything else is rejected. */
  lemma ClockMeans(hour: nat, minute: nat, suffix: Suffix)
    ensures OnClock(hour, minute, suffix) ==
            match suffix
            case NoSuffix => if hour <= 23 && minute <= 59 then Some(Time(hour, minute)) else None
            case Am => if 1 <= hour <= 12 && minute <= 59 then Some(Time(hour % 12, minute)) else None
            case Pm => if 1 <= hour <= 12 && minute <= 59 then Some(Time(hour % 12 + 12, minute)) else None
  {
  }

  /** Hour or minute of more than two digits: no time. */
  lemma LongNumbersAreRejected(h: string, m: string)
    requires AllDigits(h) && AllDigits(m) && h != "" && m != "" && (|h| > 2 || |m| > 2)
    ensures ParseTime(h + ":" + m) == None
  {
    var text := h + ":" + m;
    assert text[0] == h[0] && IsDigit(h[0]) && SkipSpaces(text) == text;
    assert text == h + (":" + m);
    RunOfDigits(h, ":" + m);
    if |h| <= 2 {
      Taken(h, ":" + m);
      assert (":" + m)[1..] == m && m + "" == m;
      RunOfDigits(m, "");
    }
  }

  /** The dial hour and its suffix name the hour. */
  lemma DialOnClock(t: Time)
    requires OnTheClock(t)
    ensures OnClock(DialHour(t), t.minute, if t.hour < 12 then Am else Pm) == Some(t)
  {
  }

  /** Reading the 12-hour form of a time gives the time, midnight and noon included. */
  lemma DialTimeRoundTrips(t: Time)
    requires OnTheClock(t)
    ensures ParseTime(PrintDial(t)) == Some(t)
  {
    ShortNatText(DialHour(t));
    NatTextValue(DialHour(t));
    PaddedDigits(t.minute);
    ReadDial(NatText(DialHour(t)), Pad2(t.minute), t.hour < 12);
    DialOnClock(t);
  }
}
