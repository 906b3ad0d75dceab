/** Time-of-day text as the two Python services write it: `"H:M:S"` read into
    seconds after midnight (the route planner's `hms_to_sec` and the timetable
    tool's `to_seconds` are the same code), and seconds written back as
    `"HH:MM"` or `"HH:MM:SS"`, reduced to one day. */
module ClockText {
  import opened Wrappers
  import opened Text

  const DAY: int := 86400

  /** `hh, mm, ss = map(int, s.split(":"))` then `hh*3600 + mm*60 + ss`;
      `None` when the text does not have exactly three `int()`-readable fields. */
  function HmsToSeconds(s: string): Option<int>
  {
    HmsFields(Split(s, ':'))
  }

  /** The three fields read with `int()` and combined; `None` for any other count. */
  function HmsFields(parts: seq<string>): Option<int>
  {
    if |parts| != 3 then None else Seconds(PyInt(parts[0]), PyInt(parts[1]), PyInt(parts[2]))
  }

  function Seconds(h: Option<int>, m: Option<int>, x: Option<int>): Option<int>
  {
    if h.None? || m.None? || x.None? then None
    else Some(h.value * 3600 + m.value * 60 + x.value)
  }

  /** `sec_to_hm`: reduce modulo a day, then zero-padded `"HH:MM"`, seconds dropped. */
  function SecToHm(s: int): string
  {
    var q := s % DAY;
    Pad2(q / 3600) + ":" + Pad2((q % 3600) / 60)
  }

  /** `from_seconds`: reduce modulo a day, then zero-padded `"HH:MM:SS"`. */
  function FromSeconds(sec: int): string
  {
    var q := sec % DAY;
    Hms(q / 3600, (q % 3600) / 60, q % 60)
  }

  /* ---------------- arithmetic of a day ---------------- */

  lemma DayFields(q: int)
    requires 0 <= q < DAY
    ensures 0 <= q / 3600 < 24 && 0 <= (q % 3600) / 60 < 60 && 0 <= q % 60 < 60
    ensures (q / 3600) * 3600 + ((q % 3600) / 60) * 60 + q % 60 == q
  {
    var a, r := q / 3600, q % 3600;
    var b, c := r / 60, r % 60;
    assert q == a * 3600 + r;
    assert r == b * 60 + c;
    assert q == (a * 60 + b) * 60 + c;
    assert q % 60 == c;
  }

  lemma FieldsToDay(h: int, m: int, x: int)
    requires 0 <= h < 24 && 0 <= m < 60 && 0 <= x < 60
    ensures var q := h * 3600 + m * 60 + x;
      0 <= q < DAY && q / 3600 == h && (q % 3600) / 60 == m && q % 60 == x
  {
    var q := h * 3600 + m * 60 + x;
    assert 0 <= m * 60 + x < 3600;
    assert q / 3600 == h;
    assert q % 3600 == m * 60 + x;
    assert q == (h * 60 + m) * 60 + x;
  }

  /* ---------------- reading the fields ---------------- */

  /** Any three digit strings, each of any width, are read field by field;
      hours are not limited to a day. */
  lemma SplitThree(a: string, b: string, c: string)
    requires ':' !in a && ':' !in b && ':' !in c
    ensures Split(a + ":" + b + ":" + c, ':') == [a, b, c]
  {
    assert a + ":" + b + ":" + c == a + [':'] + (b + [':'] + c);
    SplitCons(a, ':', b + [':'] + c);
    SplitCons(b, ':', c);
    SplitNoSep(c, ':');
  }

  lemma HmsFieldsOfThree(a: string, b: string, c: string, h: int, m: int, x: int)
    requires PyInt(a) == Some(h) && PyInt(b) == Some(m) && PyInt(c) == Some(x)
    ensures HmsFields([a, b, c]) == Some(h * 3600 + m * 60 + x)
  {
    var parts := [a, b, c];
    assert parts[0] == a && parts[1] == b && parts[2] == c;
    SecondsOfSome(PyInt(a), PyInt(b), PyInt(c), h, m, x);
  }

  lemma SecondsOfSome(p: Option<int>, q: Option<int>, r: Option<int>, h: int, m: int, x: int)
    requires p == Some(h) && q == Some(m) && r == Some(x)
    ensures Seconds(p, q, r) == Some(h * 3600 + m * 60 + x)
  {
  }

  /** Three colon-free fields that `int()` accepts are read and combined. */
  lemma HmsToSecondsOfFields(a: string, b: string, c: string, h: int, m: int, x: int)
    requires ':' !in a && ':' !in b && ':' !in c
    requires PyInt(a) == Some(h) && PyInt(b) == Some(m) && PyInt(c) == Some(x)
    ensures HmsToSeconds(a + ":" + b + ":" + c) == Some(h * 3600 + m * 60 + x)
  {
    SplitThree(a, b, c);
    HmsFieldsOfThree(a, b, c, h, m, x);
  }

  lemma IntToStringNoColon(i: int)
    ensures ':' !in IntToString(i)
  {
  }

  /** Any three integers written with `str` are read back and combined; hours
      are not limited to a day and negative fields are accepted. */
  lemma HmsToSecondsOfInts(h: int, m: int, x: int)
    ensures HmsToSeconds(IntToString(h) + ":" + IntToString(m) + ":" + IntToString(x))
         == Some(h * 3600 + m * 60 + x)
  {
    IntToStringNoColon(h);
    IntToStringNoColon(m);
    IntToStringNoColon(x);
    PyIntOfIntToString(h);
    PyIntOfIntToString(m);
    PyIntOfIntToString(x);
    HmsToSecondsOfFields(IntToString(h), IntToString(m), IntToString(x), h, m, x);
  }

  lemma Pad2NoColon(i: int)
    requires 0 <= i < 100
    ensures ':' !in Pad2(i)
  {
    Pad2Digits(i);
  }

  /** `"HH:MM:SS"` text for in-range fields. */
  function Hms(h: int, m: int, x: int): string
  {
    Pad2(h) + ":" + Pad2(m) + ":" + Pad2(x)
  }

  lemma HmsToSecondsOfHms(h: int, m: int, x: int)
    requires 0 <= h < 100 && 0 <= m < 100 && 0 <= x < 100
    ensures HmsToSeconds(Hms(h, m, x)) == Some(h * 3600 + m * 60 + x)
  {
    Pad2NoColon(h);
    Pad2NoColon(m);
    Pad2NoColon(x);
    PyIntOfPad2(h);
    PyIntOfPad2(m);
    PyIntOfPad2(x);
    HmsToSecondsOfFields(Pad2(h), Pad2(m), Pad2(x), h, m, x);
  }

  /** Writing seconds out and reading them back gives the time of day:
      `to_seconds(from_seconds(x)) == x % 86400`. */
  lemma FromSecondsRoundTrip(sec: int)
    ensures HmsToSeconds(FromSeconds(sec)) == Some(sec % DAY)
  {
    var q := sec % DAY;
    DayFields(q);
    var h, m, x := q / 3600, (q % 3600) / 60, q % 60;
    SomeOfEqual(h * 3600 + m * 60 + x, q);
    HmsToSecondsOfHmsIs(h, m, x, q);
  }

  /** `HmsToSecondsOfHms` with the combined seconds named `v`. */
  lemma HmsToSecondsOfHmsIs(h: int, m: int, x: int, v: int)
    requires 0 <= h < 100 && 0 <= m < 100 && 0 <= x < 100
    requires Some(h * 3600 + m * 60 + x) == Some(v)
    ensures HmsToSeconds(Hms(h, m, x)) == Some(v)
  {
    HmsToSecondsOfHms(h, m, x);
  }

  lemma HmsToSecondsOfHmsAs(h: int, m: int, x: int, r: Option<int>)
    requires 0 <= h < 100 && 0 <= m < 100 && 0 <= x < 100
    requires r == Some(h * 3600 + m * 60 + x)
    ensures HmsToSeconds(Hms(h, m, x)) == r
  {
    HmsToSecondsOfHms(h, m, x);
  }

  /** Lifts an equation between integers to the `Option` values built from them. */
  lemma SomeOfEqual(a: int, b: int)
    requires a == b
    ensures Some(a) == Some(b)
  {
  }

  /** `from_seconds` depends only on the time of day. */
  lemma FromSecondsSameDay(a: int, b: int)
    requires a % DAY == b % DAY
    ensures FromSeconds(a) == FromSeconds(b)
  {
  }

  /** The other direction: an in-range clock text is what `from_seconds` writes
      for the seconds it denotes. */
  lemma HmsRoundTrip(h: int, m: int, x: int)
    requires 0 <= h < 24 && 0 <= m < 60 && 0 <= x < 60
    ensures FromSeconds(h * 3600 + m * 60 + x) == Hms(h, m, x)
  {
    var q := h * 3600 + m * 60 + x;
    FieldsToDay(h, m, x);
    assert q % DAY == q;
    var hh, mm, xx := q / 3600, (q % 3600) / 60, q % 60;
    assert hh == h && mm == m && xx == x;
  }

  /* ---------------- clock text as the timetables write it ---------------- */

  /** The two-digit number written at `s[i]`, `s[i + 1]`. */
  function Field2(s: string, i: nat): nat
    requires i + 1 < |s| && IsDigit(s[i]) && IsDigit(s[i + 1])
  {
    DigitValue(s[i]) * 10 + DigitValue(s[i + 1])
  }

  /** Zero-padded `"HH:MM:SS"` naming a time of day: hours 00 to 23, minutes
      and seconds 00 to 59. */
  predicate DayClock(s: string)
  {
    && |s| == 8 && s[2] == ':' && s[5] == ':'
    && (('0' <= s[0] <= '1' && '0' <= s[1] <= '9') || (s[0] == '2' && '0' <= s[1] <= '3'))
    && '0' <= s[3] <= '5' && '0' <= s[4] <= '9'
    && '0' <= s[6] <= '5' && '0' <= s[7] <= '9'
  }

  /** The seconds after midnight a `DayClock` text names. */
  function DayClockSeconds(s: string): nat
    requires DayClock(s)
  {
    Field2(s, 0) * 3600 + Field2(s, 3) * 60 + Field2(s, 6)
  }

  /** Two digit characters are the zero-padded text of the number they spell. */
  lemma TwoDigitsPad2(a: string)
    requires |a| == 2 && IsDigit(a[0]) && IsDigit(a[1])
    ensures a == Pad2(Field2(a, 0))
  {
    var v := Field2(a, 0);
    var p := Pad2(v);
    Pad2Digits(v);
    assert DigitsValue(p) == DigitValue(p[0]) * 10 + DigitValue(p[1]) by {
      assert p[..1][..0] == [];
      assert DigitsValue(p[..1]) == DigitValue(p[0]);
    }
    assert DigitValue(p[0]) == DigitValue(a[0]) && DigitValue(p[1]) == DigitValue(a[1]);
    assert p[0] == a[0] && p[1] == a[1];
  }

  lemma DayClockIsHms(s: string)
    requires DayClock(s)
    ensures s == Hms(Field2(s, 0), Field2(s, 3), Field2(s, 6))
  {
    var a, b, c := s[..2], s[3..5], s[6..];
    assert Field2(a, 0) == Field2(s, 0) && Field2(b, 0) == Field2(s, 3) && Field2(c, 0) == Field2(s, 6);
    TwoDigitsPad2(a);
    TwoDigitsPad2(b);
    TwoDigitsPad2(c);
    assert s == a + ":" + b + ":" + c;
  }

  /** A `DayClock` text reads as the seconds it names, within a day, and
      `from_seconds` writes those seconds back as the same text. */
  lemma DayClockRoundTrip(s: string)
    requires DayClock(s)
    ensures DayClockSeconds(s) < DAY
    ensures HmsToSeconds(s) == Some(DayClockSeconds(s))
    ensures FromSeconds(DayClockSeconds(s)) == s
  {
    DayClockIsHms(s);
    HmsText(s, Field2(s, 0), Field2(s, 3), Field2(s, 6), DayClockSeconds(s));
  }

  lemma HmsText(s: string, h: int, m: int, x: int, v: int)
    requires 0 <= h < 24 && 0 <= m < 60 && 0 <= x < 60
    requires s == Hms(h, m, x) && v == h * 3600 + m * 60 + x
    ensures v < DAY && HmsToSeconds(s) == Some(v) && FromSeconds(v) == s
  {
    FieldsToDay(h, m, x);
    HmsRoundTrip(h, m, x);
    SomeOfEqual(h * 3600 + m * 60 + x, v);
    HmsToSecondsOfHmsIs(h, m, x, v);
  }

  /** `sec_to_hm` of the seconds `hms_to_sec("hh:mm:ss")` gives (see
      `HmsToSecondsOfHms`) is `"hh:mm"` for times within a day. */
  lemma SecToHmOfFields(h: int, m: int, x: int)
    requires 0 <= h < 24 && 0 <= m < 60 && 0 <= x < 60
    ensures SecToHm(h * 3600 + m * 60 + x) == Pad2(h) + ":" + Pad2(m)
  {
    var q := h * 3600 + m * 60 + x;
    FieldsToDay(h, m, x);
    assert q % DAY == q;
    var hh, mm := q / 3600, (q % 3600) / 60;
    assert hh == h && mm == m;
  }

  /** `sec_to_hm` always yields five characters `HH:MM` naming a valid time of
      day, and it cannot tell apart instants a whole number of days apart. */
  lemma SecToHmShape(s: int, days: int)
    ensures |SecToHm(s)| == 5 && SecToHm(s)[2] == ':'
    ensures var q := s % DAY;
      DigitsValue(SecToHm(s)[..2]) == q / 3600 < 24 && DigitsValue(SecToHm(s)[3..]) == (q % 3600) / 60 < 60
    ensures SecToHm(s + days * DAY) == SecToHm(s)
  {
    SecToHmFields(s);
    SecToHmPeriodic(s, days);
  }

  lemma SecToHmFields(s: int)
    ensures |SecToHm(s)| == 5 && SecToHm(s)[2] == ':'
    ensures var q := s % DAY;
      DigitsValue(SecToHm(s)[..2]) == q / 3600 < 24 && DigitsValue(SecToHm(s)[3..]) == (q % 3600) / 60 < 60
  {
    var q := s % DAY;
    DayFields(q);
    Pad2Digits(q / 3600);
    Pad2Digits((q % 3600) / 60);
    var t := SecToHm(s);
    assert t[..2] == Pad2(q / 3600);
    assert t[3..] == Pad2((q % 3600) / 60);
  }

  lemma SecToHmPeriodic(s: int, days: int)
    ensures SecToHm(s + days * DAY) == SecToHm(s)
  {
    assert (s + days * DAY) % DAY == s % DAY;
  }
}
