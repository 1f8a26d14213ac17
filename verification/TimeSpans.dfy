/** PowerShell's text form of a TimeSpan and the parsers that read it. */
module TimeSpans {
  import opened Common
  import opened PowerShellText

  /* ---- Reading ---- */

  predicate IsDigits(s: string) {
    s != "" && forall i :: 0 <= i < |s| ==> '0' <= s[i] <= '9'
  }

  function DigitsValue(s: string): nat
    requires forall i :: 0 <= i < |s| ==> '0' <= s[i] <= '9'
  {
    if s == "" then 0 else 10 * DigitsValue(s[..|s| - 1]) + (s[|s| - 1] as int - '0' as int)
  }

  /** Python's int() on unsigned digits; anything else is an error here. */
  function ToInt(s: string): Option<nat> {
    if IsDigits(s) then Some(DigitsValue(s)) else None
  }

  /** The text before and after the first separator; None if there is none. */
  function SplitOnce(s: string, sep: char): (r: Option<(string, string)>)
    ensures r.Some? ==> |r.value.1| < |s|
  {
    if s == "" then None
    else if s[0] == sep then Some(("", s[1..]))
    else match SplitOnce(s[1..], sep)
         case None => None
         case Some(p) => Some(([s[0]] + p.0, p.1))
  }

  function Split(s: string, sep: char): seq<string>
    decreases |s|
  {
    match SplitOnce(s, sep)
    case None => [s]
    case Some(p) => [p.0] + Split(p.1, sep)
  }

  /** `parse_timespan_days` */
  function ParseDays(ts: string): Option<nat> {
    match SplitOnce(ts, '.')
    case None => Some(0)
    case Some(p) => ToInt(p.0)
  }

  /** `parse_timespan_minutes`: a day part that is no number counts as 0. */
  function ParseMinutes(ts: string): Option<nat> {
    var split := SplitOnce(ts, '.');
    var days := if split.None? || ToInt(split.value.0).None? then 0 else ToInt(split.value.0).value;
    var parts := Split(if split.None? then ts else split.value.1, ':');
    if |parts| != 3 || ToInt(parts[0]).None? || ToInt(parts[1]).None? then None
    else Some(days * 24 * 60 + ToInt(parts[0]).value * 60 + ToInt(parts[1]).value)
  }

  /* ---- Printing ---- */

  function TwoDigits(n: nat): string
    requires n < 100
  {
    [Digit(n / 10), Digit(n % 10)]
  }

  /** [d.]hh:mm:00, the day part only when there are days. */
  function PrintSpan(minutes: nat): string {
    var clock := TwoDigits(minutes % 1440 / 60) + (":" + (TwoDigits(minutes % 60) + (":" + "00")));
    if minutes < 1440 then clock else Decimal(minutes / 1440) + ("." + clock)
  }

  /* ---- Round trips ---- */

  lemma {:induction false} SplitsAtFirst(a: string, sep: char, b: string)
    requires sep !in a
    ensures SplitOnce(a + ([sep] + b), sep) == Some((a, b))
  {
    if a == "" {
      assert a + ([sep] + b) == [sep] + b;
    } else {
      assert (a + ([sep] + b))[1..] == a[1..] + ([sep] + b);
      SplitsAtFirst(a[1..], sep, b);
      assert [a[0]] + a[1..] == a;
    }
  }

  lemma {:induction false} NothingToSplit(a: string, sep: char)
    requires sep !in a
    ensures SplitOnce(a, sep) == None
  {
    if a != "" {
      NothingToSplit(a[1..], sep);
    }
  }

  lemma SplitsOff(a: string, sep: char, rest: string)
    requires sep !in a
    ensures Split(a + [sep] + rest, sep) == [a] + Split(rest, sep)
  {
    SplitsAtFirst(a, sep, rest);
    assert a + [sep] + rest == a + ([sep] + rest);
  }

  lemma SplitsNothing(a: string, sep: char)
    requires sep !in a
    ensures Split(a, sep) == [a]
  {
    NothingToSplit(a, sep);
  }

  lemma {:induction false} SplitOnceJoins(s: string, sep: char)
    ensures match SplitOnce(s, sep) case None => true case Some(p) => s == p.0 + [sep] + p.1
  {
    if s != "" && s[0] != sep {
      SplitOnceJoins(s[1..], sep);
    }
  }

  lemma SplitStep(s: string, sep: char)
    ensures |Split(s, sep)| >= 1
    ensures |Split(s, sep)| == 1 ==> Split(s, sep) == [s]
    ensures |Split(s, sep)| > 1 ==> SplitOnce(s, sep).Some? && var p := SplitOnce(s, sep).value;
                                    Split(s, sep) == [p.0] + Split(p.1, sep) && s == p.0 + [sep] + p.1
  {
    SplitOnceJoins(s, sep);
  }

  lemma {:induction false} DecimalValue(n: nat)
    ensures ToInt(Decimal(n)) == Some(n)
  {
    DecimalIsWord(n);
    if n < 10 {
      assert Decimal(n) == [Digit(n)] && Decimal(n)[..0] == "";
      assert DigitsValue(Decimal(n)) == 10 * DigitsValue("") + (Digit(n) as int - '0' as int);
    } else {
      DecimalValue(n / 10);
      DecimalIsWord(n / 10);
      assert Decimal(n)[..|Decimal(n)| - 1] == Decimal(n / 10);
    }
  }

  lemma TwoDigitsValue(n: nat)
    requires n < 100
    ensures ToInt(TwoDigits(n)) == Some(n) && ':' !in TwoDigits(n) && '.' !in TwoDigits(n)
  {
    var s := TwoDigits(n);
    assert s[..1] == [Digit(n / 10)] && s[..1][..0] == "";
    assert DigitsValue(s[..1]) == n / 10;
  }

  lemma ClockParts(h: nat, m: nat)
    requires h < 100 && m < 100
    ensures var clock := TwoDigits(h) + (":" + (TwoDigits(m) + (":" + "00")));
            Split(clock, ':') == [TwoDigits(h), TwoDigits(m), "00"] && '.' !in clock
  {
    TwoDigitsValue(h);
    TwoDigitsValue(m);
    SplitsAtFirst(TwoDigits(h), ':', TwoDigits(m) + (":" + "00"));
    SplitsAtFirst(TwoDigits(m), ':', "00");
    NothingToSplit("00", ':');
    assert Split("00", ':') == ["00"];
    assert Split(TwoDigits(m) + (":" + "00"), ':') == [TwoDigits(m)] + ["00"];
  }

  lemma MinutesAddUp(minutes: nat)
    ensures minutes / 1440 * 24 * 60 + minutes % 1440 / 60 * 60 + minutes % 60 == minutes
  {
  }

  /** Parsing the printed span gives it back, for every whole number of minutes. */
  lemma SpanRoundTrip(minutes: nat)
    ensures ParseMinutes(PrintSpan(minutes)) == Some(minutes)
    ensures ParseDays(PrintSpan(minutes)) == Some(minutes / 1440)
  {
    hide ToInt, TwoDigits, Decimal, Split;
    var h, m := minutes % 1440 / 60, minutes % 60;
    var clock := TwoDigits(h) + (":" + (TwoDigits(m) + (":" + "00")));
    ClockParts(h, m);
    TwoDigitsValue(h);
    TwoDigitsValue(m);
    if minutes < 1440 {
      NothingToSplit(clock, '.');
    } else {
      var days := Decimal(minutes / 1440);
      DecimalIsWord(minutes / 1440);
      DecimalValue(minutes / 1440);
      SplitsAtFirst(days, '.', clock);
    }
    MinutesAddUp(minutes);
  }

  /** A clock, after a day part and a dot or without them. */
  function SpanText(day: Option<string>, h: string, m: string, z: string): string {
    (if day.Some? then day.value + "." else "") + (h + ":" + (m + ":" + z))
  }

  /** The parts of a span, the first of each kind of separator being the one that counts. */
  predicate SpanParts(day: Option<string>, h: string, m: string, z: string) {
    && ':' !in h && ':' !in m && ':' !in z
    && if day.Some? then '.' !in day.value else '.' !in h && '.' !in m && '.' !in z
  }

  /** Hours and minutes must be digits and seconds may be anything; a day part that is no number
      counts as no days for the minutes, but fails for the days. */
  lemma SpanTextParses(day: Option<string>, h: string, m: string, z: string)
    requires SpanParts(day, h, m, z)
    ensures ParseMinutes(SpanText(day, h, m, z)) ==
              if IsDigits(h) && IsDigits(m) then
                Some((if day.Some? && IsDigits(day.value) then 1440 * DigitsValue(day.value) else 0)
                     + 60 * DigitsValue(h) + DigitsValue(m))
              else None
    ensures ParseDays(SpanText(day, h, m, z)) == if day.Some? then ToInt(day.value) else Some(0)
  {
    hide Split, DigitsValue;
    var clock := h + ":" + (m + ":" + z);
    SplitsOff(h, ':', m + ":" + z);
    SplitsOff(m, ':', z);
    SplitsNothing(z, ':');
    assert [':'] == ":";
    if day.Some? {
      SplitsAtFirst(day.value, '.', clock);
      assert SpanText(day, h, m, z) == day.value + (['.'] + clock);
    } else {
      assert SpanText(day, h, m, z) == clock;
      NothingToSplit(clock, '.');
    }
  }

  /** And nothing else is a span. */
  lemma ParsedSpanHasParts(ts: string) returns (day: Option<string>, h: string, m: string, z: string)
    requires ParseMinutes(ts).Some?
    ensures SpanParts(day, h, m, z) && ts == SpanText(day, h, m, z)
  {
    hide Split, DigitsValue, SplitOnce;
    var split := SplitOnce(ts, '.');
    SplitOnceJoins(ts, '.');
    SplitOnceFirst(ts, '.');
    day := if split.None? then None else Some(split.value.0);
    var clock := if split.None? then ts else split.value.1;
    SplitStep(clock, ':');
    SplitOnceFirst(clock, ':');
    var rest := SplitOnce(clock, ':').value.1;
    SplitStep(rest, ':');
    SplitOnceFirst(rest, ':');
    var last := SplitOnce(rest, ':').value.1;
    SplitStep(last, ':');
    SplitOnceFirst(last, ':');
    h, m, z := SplitOnce(clock, ':').value.0, SplitOnce(rest, ':').value.0, last;
    assert Split(rest, ':') == Split(clock, ':')[1..] && Split(last, ':') == Split(clock, ':')[2..];
    SplitOnceNone(last, ':');
  }

  lemma {:induction false} SplitOnceFirst(s: string, sep: char)
    ensures SplitOnce(s, sep).Some? ==> sep !in SplitOnce(s, sep).value.0
    ensures SplitOnce(s, sep).None? ==> sep !in s
  {
    if s != "" && s[0] != sep {
      SplitOnceFirst(s[1..], sep);
      assert s == [s[0]] + s[1..];
    }
  }

  lemma SplitOnceNone(s: string, sep: char)
    requires |Split(s, sep)| == 1
    ensures sep !in s
  {
    SplitOnceFirst(s, sep);
    SplitStep(s, sep);
    if SplitOnce(s, sep).Some? {
      SplitStep(SplitOnce(s, sep).value.1, sep);
    }
  }

  method ParseTimespanMinutes(ts: string) returns (minutes: Option<nat>)
    ensures minutes == ParseMinutes(ts)
  {
    var days := 0;
    var timePart := ts;
    var split := SplitOnce(ts, '.');
    if split.Some? {
      timePart := split.value.1;
      var parsed := ToInt(split.value.0);
      if parsed.Some? {
        days := parsed.value;
      }
    }
    var parts := Split(timePart, ':');
    if |parts| == 3 {
      var hours, mins := ToInt(parts[0]), ToInt(parts[1]);
      if hours.Some? && mins.Some? {
        return Some(days * 24 * 60 + hours.value * 60 + mins.value);
      }
    }
    return None;
  }
}
