/** The timetable tool that turns printed bus timetables into GTFS
    `stop_times.txt` rows: 12-hour clock parsing, stop times spread evenly over
    a trip whose arrival may fall after midnight, and the per-route stop lists
    whose inbound direction is the outbound list reversed. */
module Timetable {
  import opened Wrappers
  import opened Text
  import opened Seqs
  import opened ClockText

  /* ---------------- to_24h ---------------- */

  /** Stripped, lower-cased, every space removed. */
  function Normalize(s: string): string
  {
    ReplaceAll(LowerAscii(Strip(s)), " ", "")
  }

  /** Every `am` and `pm` removed, then every `.` turned into `:`. */
  function DropMarkers(s: string): string
  {
    ReplaceAll(ReplaceAll(ReplaceAll(s, "am", ""), "pm", ""), ".", ":")
  }

  /** The 12-hour to 24-hour rule: 12am is hour 0, other pm hours gain 12. */
  function Hour24(h: int, pm: bool): int
  {
    if pm && h != 12 then h + 12 else if !pm && h == 12 then 0 else h
  }

  /** `"HH:MM:00"` from the two fields, once both were read by `int()`. */
  function ClockOf(h: Option<int>, m: Option<int>, pm: bool): (r: Option<string>)
    ensures r.Some? <==> h.Some? && m.Some?
    ensures r.Some? ==> |r.value| >= 3 && r.value[|r.value| - 3..] == ":00"
  {
    if h.None? || m.None? then None
    else Some(Pad2(Hour24(h.value, pm)) + ":" + Pad2(m.value) + ":00")
  }

  /** Unpacking `hh, mm = parts` and reading both with `int()`. */
  function ClockFields(parts: seq<string>, pm: bool): Option<string>
  {
    if |parts| != 2 then None else ClockOf(PyInt(parts[0]), PyInt(parts[1]), pm)
  }

  /** `to_24h`: any text without `am` counts as pm; `None` stands for the
      `ValueError` raised on a malformed time. */
  function To24h(hmAmPm: string): (r: Option<string>)
    ensures r.Some? ==> |r.value| >= 3 && r.value[|r.value| - 3..] == ":00"
  {
    var s := Normalize(hmAmPm);
    ClockFields(Split(DropMarkers(s), ':'), !Contains(s, "am"))
  }

  /** On a 12-hour clock hour the rule is a bijection onto 0..23: pm hours are
      exactly those from 12 on, and the hour is kept modulo 12. */
  lemma Hour24OfClockHour(h: int, pm: bool)
    requires 1 <= h <= 12
    ensures 0 <= Hour24(h, pm) < 24
    ensures Hour24(h, pm) >= 12 <==> pm
    ensures Hour24(h, pm) % 12 == h % 12
  {
  }

  lemma OnlySpacesVanish(gap: string)
    requires forall i :: 0 <= i < |gap| ==> gap[i] == ' '
    ensures ReplaceAll(gap, " ", "") == []
  {
    if |gap| > 0 {
      assert gap[..1] == " ";
      OnlySpacesVanish(gap[1..]);
    }
  }

  /** A marker that lower-cases to `am` or `pm` has two letters ending in `m`. */
  lemma MarkerShape(marker: string)
    requires LowerAscii(marker) == "am" || LowerAscii(marker) == "pm"
    ensures |marker| == 2 && (marker[1] == 'm' || marker[1] == 'M')
  {
    LowerAsciiAt(marker, 1);
  }

  predicate Spaces(gap: string)
  {
    forall i :: 0 <= i < |gap| ==> gap[i] == ' '
  }

  /** No marker at all, or one that lower-cases to `am` or `pm`. */
  predicate Marker(gap: string, marker: string)
  {
    LowerAscii(marker) == "am" || LowerAscii(marker) == "pm" || (marker == [] && gap == [])
  }

  /** None of the characters the normalisation acts on occurs in a digit string. */
  lemma DigitsUntouched(s: string)
    requires AllDigits(s)
    ensures ' ' !in s && 'a' !in s && 'p' !in s && '.' !in s && ':' !in s
    ensures LowerAscii(s) == s
  {
    LowerAsciiNoUpper(s);
  }

  lemma StripClock(body: string, gap: string, marker: string)
    requires |body| > 0 && IsDigit(body[0]) && IsDigit(body[|body| - 1]) && Marker(gap, marker)
    ensures Strip(body + gap + marker) == body + gap + marker
  {
    var x := body + gap + marker;
    if marker == [] {
      assert x == body;
    } else {
      MarkerShape(marker);
      assert x[|x| - 1] == marker[1];
    }
    assert x[0] == body[0];
    StripNoWhiteEnds(x);
  }

  lemma LowerClock(body: string, gap: string, marker: string)
    requires LowerAscii(body) == body && Spaces(gap)
    ensures LowerAscii(body + gap + marker) == body + gap + LowerAscii(marker)
  {
    LowerAsciiConcat(body + gap, marker);
    LowerAsciiConcat(body, gap);
    LowerAsciiNoUpper(gap);
  }

  lemma SpacesClock(body: string, gap: string, lm: string)
    requires ' ' !in body && Spaces(gap) && ' ' !in lm
    ensures ReplaceAll(body + gap + lm, " ", "") == body + lm
  {
    ReplaceAllAbsentChar(body, ' ', "");
    OnlySpacesVanish(gap);
    ReplaceAllAbsentChar(lm, ' ', "");
    SpacesRemovedAround(body, gap, lm, body, lm);
  }

  lemma SpacesRemovedAround(a: string, b: string, c: string, ra: string, rc: string)
    requires ReplaceAll(a, " ", "") == ra && ReplaceAll(b, " ", "") == [] && ReplaceAll(c, " ", "") == rc
    ensures ReplaceAll(a + b + c, " ", "") == ra + rc
  {
    ReplaceAllConcatChar(a + b, c, ' ', "");
    ReplaceAllConcatChar(a, b, ' ', "");
    assert ra + [] == ra;
  }

  lemma LowerBody(d: string, sep: char, p: string)
    requires LowerAscii(d) == d && LowerAscii(p) == p && (sep == ':' || sep == '.')
    ensures LowerAscii(d + [sep] + p) == d + [sep] + p
  {
    LowerAsciiConcat(d + [sep], p);
    LowerAsciiConcat(d, [sep]);
  }

  /** The digits, the separator and the minutes survive normalisation; the
      gap vanishes and the marker is lower-cased. */
  lemma NormalizeClock(body: string, gap: string, marker: string)
    requires |body| > 0 && IsDigit(body[0]) && IsDigit(body[|body| - 1]) && Marker(gap, marker)
    requires LowerAscii(body) == body && ' ' !in body && Spaces(gap)
    ensures Normalize(body + gap + marker) == body + LowerAscii(marker)
  {
    StripClock(body, gap, marker);
    LowerClock(body, gap, marker);
    SpacesClock(body, gap, LowerAscii(marker));
  }

  lemma ClockBodyFacts(d: string, sep: char, p: string)
    requires |d| > 0 && AllDigits(d) && |p| > 0 && AllDigits(p) && (sep == ':' || sep == '.')
    ensures var body := d + [sep] + p;
      |body| > 0 && IsDigit(body[0]) && IsDigit(body[|body| - 1]) && LowerAscii(body) == body && ' ' !in body
  {
    var body := d + [sep] + p;
    assert body[0] == d[0] && body[|body| - 1] == p[|p| - 1];
    DigitsUntouched(d);
    DigitsUntouched(p);
    LowerBody(d, sep, p);
  }

  lemma ContainsAmClock(body: string, lm: string)
    requires 'a' !in body && (lm == "am" || lm == "pm" || lm == "")
    ensures Contains(body + lm, "am") <==> lm == "am"
  {
    if lm == "am" {
      ContainsEnding(body, "am");
    } else {
      assert 'a' !in body + lm;
      NotContainsAbsentHead(body + lm, "am");
    }
  }

  lemma MarkersGone(body: string, lm: string)
    requires 'a' !in body && 'p' !in body && (lm == "am" || lm == "pm" || lm == "")
    ensures ReplaceAll(ReplaceAll(body + lm, "am", ""), "pm", "") == body
  {
    ReplaceAllSkip(body, lm, "am", "");
    var lm1 := ReplaceAll(lm, "am", "");
    assert lm1 == "" || lm1 == "pm";
    ReplaceAllSkip(body, lm1, "pm", "");
    assert ReplaceAll(lm1, "pm", "") == "";
    assert body + [] == body;
  }

  lemma DotsToColons(d: string, sep: char, p: string)
    requires '.' !in d && '.' !in p && (sep == ':' || sep == '.')
    ensures ReplaceAll(d + [sep] + p, ".", ":") == d + ":" + p
  {
    ReplaceAllConcatChar(d + [sep], p, '.', ":");
    ReplaceAllConcatChar(d, [sep], '.', ":");
    ReplaceAllAbsentChar(d, '.', ":");
    ReplaceAllAbsentChar(p, '.', ":");
    assert ReplaceAll([sep], ".", ":") == ":";
  }

  /** After normalisation the markers go and `.` becomes `:`; the text contains
      `am` exactly when the marker was am. */
  lemma DropMarkersClock(d: string, sep: char, p: string, lm: string)
    requires AllDigits(d) && AllDigits(p) && (sep == ':' || sep == '.')
    requires lm == "am" || lm == "pm" || lm == ""
    ensures Contains(d + [sep] + p + lm, "am") <==> lm == "am"
    ensures DropMarkers(d + [sep] + p + lm) == d + ":" + p
  {
    DigitsUntouched(d);
    DigitsUntouched(p);
    var body := d + [sep] + p;
    ContainsAmClock(body, lm);
    MarkersGone(body, lm);
    DotsToColons(d, sep, p);
  }

  lemma ClockFieldsOfTwo(a: string, b: string, h: int, m: int, pm: bool)
    requires PyInt(a) == Some(h) && PyInt(b) == Some(m)
    ensures ClockFields([a, b], pm) == Some(Pad2(Hour24(h, pm)) + ":" + Pad2(m) + ":00")
  {
  }

  /** Clock text as timetables print it: hour digits, `:` or `.`, two minute
      digits, then optionally spaces and an am/pm marker in any letter case.
      The result is the 24-hour time with seconds `00`; no marker means pm. */
  lemma To24hOfFields(x: string, n: string, d: string, p: string, pm: bool, h: int, m: int)
    requires Normalize(x) == n && (Contains(n, "am") <==> !pm)
    requires Split(DropMarkers(n), ':') == [d, p]
    requires PyInt(d) == Some(h) && PyInt(p) == Some(m)
    ensures To24h(x) == Some(Pad2(Hour24(h, pm)) + ":" + Pad2(m) + ":00")
  {
    ClockFieldsOfTwo(d, p, h, m, pm);
  }

  lemma SplitClock(d: string, p: string)
    requires AllDigits(d) && AllDigits(p)
    ensures Split(d + ":" + p, ':') == [d, p]
  {
    DigitsUntouched(d);
    DigitsUntouched(p);
    SplitCons(d, ':', p);
    SplitNoSep(p, ':');
    assert d + ":" + p == d + [':'] + p;
  }

  /** Clock text as timetables print it: hour digits, `:` or `.`, two minute
      digits, then optionally spaces and an am/pm marker in any letter case.
      The result is the 24-hour time with seconds `00`; no marker means pm. */
  lemma To24hOfClock(h: nat, m: nat, sep: char, gap: string, marker: string)
    requires 1 <= h <= 12 && m < 60 && (sep == ':' || sep == '.')
    requires Spaces(gap) && Marker(gap, marker)
    ensures To24h(NatToString(h) + [sep] + Pad2(m) + gap + marker)
         == Some(Pad2(Hour24(h, LowerAscii(marker) != "am")) + ":" + Pad2(m) + ":00")
  {
    var d, p := NatToString(h), Pad2(m);
    Pad2Digits(m);
    var lm := LowerAscii(marker);
    ClockBodyFacts(d, sep, p);
    NormalizeClock(d + [sep] + p, gap, marker);
    DropMarkersClock(d, sep, p, lm);
    SplitClock(d, p);
    PyIntOfIntToString(h);
    PyIntOfPad2(m);
    To24hOfFields(d + [sep] + p + gap + marker, d + [sep] + p + lm, d, p, lm != "am", h, m);
  }

  /* ---------------- evenly_spaced_times ---------------- */

  lemma {:induction false} MulNonNegative(a: int, e: int)
    requires a >= 0 && e >= 0
    ensures a * e >= 0
  {
    if e > 0 {
      MulNonNegative(a, e - 1);
      assert a * e == a * (e - 1) + a;
    }
  }

  lemma MulMonotone(a: int, i: int, j: int)
    requires a >= 0 && i <= j
    ensures a * i <= a * j
  {
    MulNonNegative(a, j - i);
    assert a * j == a * i + a * (j - i);
  }

  /** Python 3 `round` of the exact quotient `p / q`: the nearest integer,
      a tie going to the even neighbour. */
  function RoundHalfEven(p: int, q: int): int
    requires q > 0
  {
    var f, r := p / q, p % q;
    if 2 * r < q then f else if 2 * r > q then f + 1 else if f % 2 == 0 then f else f + 1
  }

  /** The result is within half a unit of the quotient, and even on a tie. */
  lemma RoundHalfEvenNearest(p: int, q: int)
    requires q > 0
    ensures var k := RoundHalfEven(p, q); -q <= 2 * (p - q * k) <= q
    ensures var k := RoundHalfEven(p, q); (2 * (p - q * k) == q || 2 * (p - q * k) == -q) ==> k % 2 == 0
  {
    var f, r := p / q, p % q;
    assert p == q * f + r;
    assert q * (f + 1) == q * f + q;
  }

  /** An exact quotient is returned unchanged. */
  lemma RoundHalfEvenExact(k: int, q: int)
    requires q > 0
    ensures RoundHalfEven(k * q, q) == k
  {
    var j := RoundHalfEven(k * q, q);
    RoundHalfEvenNearest(k * q, q);
    assert k * q - q * j == q * (k - j);
    if k - j >= 1 {
      MulMonotone(q, 1, k - j);
    } else if k - j <= -1 {
      MulMonotone(q, k - j, -1);
    }
  }

  lemma DivMonotone(p1: int, p2: int, q: int)
    requires q > 0 && p1 <= p2
    ensures p1 / q <= p2 / q
  {
    var f1, f2 := p1 / q, p2 / q;
    if f1 > f2 {
      MulMonotone(q, f2 + 1, f1);
      assert false;
    }
  }

  /** Rounding preserves order. */
  lemma RoundHalfEvenMonotone(p1: int, p2: int, q: int)
    requires q > 0 && p1 <= p2
    ensures RoundHalfEven(p1, q) <= RoundHalfEven(p2, q)
  {
    DivMonotone(p1, p2, q);
    var f1, f2 := p1 / q, p2 / q;
    if f1 == f2 {
      assert p1 == q * f1 + p1 % q && p2 == q * f2 + p2 % q;
    }
  }

  /** `if arr <= dep: arr += 24*3600`. */
  function Unwrap(dep: int, arr: int): (a: int)
    ensures a % DAY == arr % DAY
    ensures 0 <= dep < DAY && 0 <= arr < DAY ==> dep < a <= dep + DAY
  {
    if arr <= dep then arr + DAY else arr
  }

  /** `int(round(dep + step*i))` for `i` in `range(n)` with
      `step = (arr - dep)/(n - 1)`, computed on exact rationals: the i-th value
      rounds `(dep*(n-1) + (arr-dep)*i) / (n-1)`. */
  function SpacedSeconds(dep: int, arr: int, n: int): (u: seq<int>)
    requires n >= 2
    ensures |u| == n
  {
    seq(n, i requires 0 <= i < n => RoundHalfEven(dep * (n - 1) + (arr - dep) * i, n - 1))
  }

  /** The spaced instants start at `dep`, end at `arr`, never decrease and stay
      between the two. */
  lemma SpacedSecondsShape(dep: int, arr: int, n: int)
    requires n >= 2 && dep <= arr
    ensures SpacedSeconds(dep, arr, n)[0] == dep
    ensures SpacedSeconds(dep, arr, n)[n - 1] == arr
    ensures forall i, j :: 0 <= i <= j < n ==> SpacedSeconds(dep, arr, n)[i] <= SpacedSeconds(dep, arr, n)[j]
    ensures forall i :: 0 <= i < n ==> dep <= SpacedSeconds(dep, arr, n)[i] <= arr
  {
    var u := SpacedSeconds(dep, arr, n);
    var q := n - 1;
    RoundHalfEvenExact(dep, q);
    assert u[0] == RoundHalfEven(dep * q, q);
    assert dep * q + (arr - dep) * q == arr * q;
    RoundHalfEvenExact(arr, q);
    forall i, j | 0 <= i <= j < n ensures u[i] <= u[j] {
      MulMonotone(arr - dep, i, j);
      RoundHalfEvenMonotone(dep * q + (arr - dep) * i, dep * q + (arr - dep) * j, q);
    }
    forall i | 0 <= i < n ensures dep <= u[i] <= arr {
      assert u[0] <= u[i] <= u[n - 1];
    }
  }

  /** `evenly_spaced_times`; `None` stands for the exception raised when a time
      does not parse (`ValueError`) or when there is exactly one stop
      (`ZeroDivisionError`). */
  function EvenlySpacedTimes(depHms: string, arrHms: string, nStops: int): Option<seq<string>>
  {
    var dep, arr := HmsToSeconds(depHms), HmsToSeconds(arrHms);
    if dep.None? || arr.None? || nStops == 1 then None
    else if nStops <= 0 then Some([])
    else
      var u := SpacedSeconds(dep.value, Unwrap(dep.value, arr.value), nStops);
      Some(seq(nStops, i requires 0 <= i < nStops => FromSeconds(u[i])))
  }

  /** The error cases: a malformed time or a single stop raises; no stops
      gives no times. */
  lemma EvenlySpacedTimesEdges(depHms: string, arrHms: string, nStops: int)
    ensures HmsToSeconds(depHms).None? || HmsToSeconds(arrHms).None? || nStops == 1
        <==> EvenlySpacedTimes(depHms, arrHms, nStops).None?
    ensures HmsToSeconds(depHms).Some? && HmsToSeconds(arrHms).Some? && nStops <= 0
        ==> EvenlySpacedTimes(depHms, arrHms, nStops) == Some([])
  {
  }

  /** For departure and arrival times of day and at least two stops: one time
      per stop, the first at the departure, the last at the arrival (reduced
      to a day), each the time of day of an unwrapped instant, the instants
      running from the departure to the (possibly next-day) arrival without
      ever going back. */
  lemma EvenlySpacedTimesShape(depHms: string, arrHms: string, nStops: int, dep: int, arr: int)
    requires HmsToSeconds(depHms) == Some(dep) && HmsToSeconds(arrHms) == Some(arr)
    requires 0 <= dep < DAY && 0 <= arr < DAY && nStops >= 2
    ensures var r := EvenlySpacedTimes(depHms, arrHms, nStops);
      && r.Some? && |r.value| == nStops
      && r.value[0] == FromSeconds(dep)
      && r.value[nStops - 1] == FromSeconds(arr)
      && forall i :: 0 <= i < nStops ==> r.value[i] == FromSeconds(SpacedSeconds(dep, Unwrap(dep, arr), nStops)[i])
    ensures var u := SpacedSeconds(dep, Unwrap(dep, arr), nStops);
      && u[0] == dep && u[nStops - 1] == Unwrap(dep, arr) <= dep + DAY
      && forall i, j :: 0 <= i <= j < nStops ==> u[i] <= u[j]
  {
    SpacedTimesValues(depHms, arrHms, nStops, dep, arr);
    SpacedTimesEnds(depHms, arrHms, nStops, dep, arr);
    SpacedSecondsShape(dep, Unwrap(dep, arr), nStops);
  }

  lemma SpacedTimesValues(depHms: string, arrHms: string, nStops: int, dep: int, arr: int)
    requires HmsToSeconds(depHms) == Some(dep) && HmsToSeconds(arrHms) == Some(arr) && nStops >= 2
    ensures var r := EvenlySpacedTimes(depHms, arrHms, nStops);
      && r.Some? && |r.value| == nStops
      && forall i :: 0 <= i < nStops ==> r.value[i] == FromSeconds(SpacedSeconds(dep, Unwrap(dep, arr), nStops)[i])
  {
  }

  lemma SpacedTimesEnds(depHms: string, arrHms: string, nStops: int, dep: int, arr: int)
    requires HmsToSeconds(depHms) == Some(dep) && HmsToSeconds(arrHms) == Some(arr)
    requires 0 <= dep < DAY && 0 <= arr < DAY && nStops >= 2
    ensures var r := EvenlySpacedTimes(depHms, arrHms, nStops);
      r.Some? && |r.value| == nStops && r.value[0] == FromSeconds(dep) && r.value[nStops - 1] == FromSeconds(arr)
  {
    var a := Unwrap(dep, arr);
    SpacedTimesValues(depHms, arrHms, nStops, dep, arr);
    SpacedSecondsShape(dep, a, nStops);
    FromSecondsSameDay(a, arr);
  }

  /** When the departure and arrival are written the way `from_seconds` writes
      them (zero-padded `HH:MM:SS` within a day, see `HmsRoundTrip`), the first
      stop time is the departure text itself and the last the arrival text. */
  lemma EvenlySpacedTimesEndpoints(depHms: string, arrHms: string, nStops: int, dep: int, arr: int)
    requires HmsToSeconds(depHms) == Some(dep) && HmsToSeconds(arrHms) == Some(arr)
    requires 0 <= dep < DAY && 0 <= arr < DAY && nStops >= 2
    requires FromSeconds(dep) == depHms && FromSeconds(arr) == arrHms
    ensures var r := EvenlySpacedTimes(depHms, arrHms, nStops);
      r.Some? && |r.value| == nStops && r.value[0] == depHms && r.value[nStops - 1] == arrHms
  {
    EvenlySpacedTimesShape(depHms, arrHms, nStops, dep, arr);
  }

  /* ---------------- ROUTE_STOPS ---------------- */

  const R1_OUT: seq<string> := ["S01", "S02", "S03", "S04", "S05", "S06", "S07", "S08", "S09",
    "S10", "S11", "S12", "S13", "S14", "S15", "S16", "S17"]
  const R2_OUT: seq<string> := ["S01", "S02", "S03", "S04", "S05", "S06", "S07", "S08", "S09",
    "S10", "S11", "S12", "S13", "S14", "S15", "S16", "S17", "S18", "S19", "S20", "S21", "S22",
    "S23", "S24", "S25"]
  const R255_OUT: seq<string> := ["S01", "S26", "S27", "S28", "S29", "S30", "S11", "S12", "S13",
    "S14", "S15", "S16", "S17", "S18", "S19", "S20", "S21", "S22", "S23", "S24", "S25"]

  /** Stop lists by (route, direction). */
  const ROUTE_STOPS: map<(string, string), seq<string>> := map[
    ("RNCG1", "out") := R1_OUT, ("RNCG1", "in") := Reverse(R1_OUT),
    ("RNCG2", "out") := R2_OUT, ("RNCG2", "in") := Reverse(R2_OUT),
    ("RSLTB1", "out") := R1_OUT, ("RSLTB1", "in") := Reverse(R1_OUT),
    ("RSLTB2", "out") := R2_OUT, ("RSLTB2", "in") := Reverse(R2_OUT),
    ("RSLTB255", "out") := R255_OUT, ("RSLTB255", "in") := Reverse(R255_OUT)]

  function Opposite(direction: string): string
  {
    if direction == "out" then "in" else "out"
  }

  /** Every key names a direction, and every route has both directions. */
  lemma RouteStopsBothDirections()
    ensures forall k :: k in ROUTE_STOPS ==> k.1 == "out" || k.1 == "in"
    ensures forall k :: k in ROUTE_STOPS ==> (k.0, Opposite(k.1)) in ROUTE_STOPS
  {
  }

  /** Each direction's stop list is the other direction's list reversed. */
  lemma RouteStopsReversed()
    ensures forall k :: k in ROUTE_STOPS ==> ROUTE_STOPS[(k.0, Opposite(k.1))] == Reverse(ROUTE_STOPS[k])
  {
    ReverseReverse(R1_OUT);
    ReverseReverse(R2_OUT);
    ReverseReverse(R255_OUT);
  }

  /** Every stop list has at least two stops, so spacing times over it never
      divides by zero. */
  lemma RouteStopsLong()
    ensures forall k :: k in ROUTE_STOPS ==> |ROUTE_STOPS[k]| >= 2
  {
  }

  /* ---------------- the timetables ---------------- */

  datatype TimetableTrip = TimetableTrip(tripId: string, routeId: string, direction: string, dep: string, arr: string)

  const NCG_R1: seq<TimetableTrip> := [
    TimetableTrip("TNCG1R_0530", "RNCG1", "in", "05:30:00", "08:10:00"),
    TimetableTrip("TNCG1R_0550", "RNCG1", "in", "05:50:00", "08:30:00"),
    TimetableTrip("TNCG1_1630", "RNCG1", "out", "16:30:00", "19:40:00"),
    TimetableTrip("TNCG1_1700", "RNCG1", "out", "17:00:00", "20:10:00")]

  /** The NCG route 2 list, written as its outbound trips followed by its
      inbound trips (the same sequence, in the same order). */
  const NCG_R2: seq<TimetableTrip> := NCG_R2_OUT + NCG_R2_IN

  const NCG_R2_OUT: seq<TimetableTrip> := [
    TimetableTrip("TNCG2_0330", "RNCG2", "out", "03:30:00", "07:20:00"),
    TimetableTrip("TNCG2_0400", "RNCG2", "out", "04:00:00", "07:50:00"),
    TimetableTrip("TNCG2_0430", "RNCG2", "out", "04:30:00", "08:15:00"),
    TimetableTrip("TNCG2_0450", "RNCG2", "out", "04:50:00", "08:45:00"),
    TimetableTrip("TNCG2_0515", "RNCG2", "out", "05:15:00", "09:30:00"),
    TimetableTrip("TNCG2_0540", "RNCG2", "out", "05:40:00", "09:40:00"),
    TimetableTrip("TNCG2_0615", "RNCG2", "out", "06:15:00", "10:10:00"),
    TimetableTrip("TNCG2_0700", "RNCG2", "out", "07:00:00", "10:50:00"),
    TimetableTrip("TNCG2_0730", "RNCG2", "out", "07:30:00", "11:20:00"),
    TimetableTrip("TNCG2_0810", "RNCG2", "out", "08:10:00", "13:00:00"),
    TimetableTrip("TNCG2_0830", "RNCG2", "out", "08:30:00", "13:40:00"),
    TimetableTrip("TNCG2_0910", "RNCG2", "out", "09:10:00", "13:50:00"),
    TimetableTrip("TNCG2_0950", "RNCG2", "out", "09:50:00", "15:15:00")]

  const NCG_R2_IN: seq<TimetableTrip> := [
    TimetableTrip("TNCG2R_0900", "RNCG2", "in", "09:00:00", "14:00:00"),
    TimetableTrip("TNCG2R_0950", "RNCG2", "in", "09:50:00", "15:00:00"),
    TimetableTrip("TNCG2R_1300", "RNCG2", "in", "13:00:00", "18:30:00"),
    TimetableTrip("TNCG2R_1400", "RNCG2", "in", "14:00:00", "19:15:00"),
    TimetableTrip("TNCG2R_1625", "RNCG2", "in", "16:25:00", "21:15:00"),
    TimetableTrip("TNCG2R_1725", "RNCG2", "in", "17:25:00", "22:15:00"),
    TimetableTrip("TNCG2R_1850", "RNCG2", "in", "18:50:00", "23:00:00")]

  const SLTB_R1: seq<TimetableTrip> := []

  const SLTB_R2_OUT: seq<TimetableTrip> := [
    TimetableTrip("TSLTB2_0500", "RSLTB2", "out", "05:00:00", "10:00:00"),
    TimetableTrip("TSLTB2_0710", "RSLTB2", "out", "07:10:00", "12:20:00"),
    TimetableTrip("TSLTB2_0750", "RSLTB2", "out", "07:50:00", "13:45:00"),
    TimetableTrip("TSLTB2_0850", "RSLTB2", "out", "08:50:00", "14:15:00"),
    TimetableTrip("TSLTB2_0930", "RSLTB2", "out", "09:30:00", "14:30:00"),
    TimetableTrip("TSLTB2_1130", "RSLTB2", "out", "11:30:00", "17:00:00"),
    TimetableTrip("TSLTB2_1230", "RSLTB2", "out", "12:30:00", "17:40:00"),
    TimetableTrip("TSLTB2_1330", "RSLTB2", "out", "13:30:00", "18:30:00"),
    TimetableTrip("TSLTB2_1640", "RSLTB2", "out", "16:40:00", "21:40:00")]

  const SLTB_R2_IN: seq<TimetableTrip> := [
    TimetableTrip("TSLTB2R_0445", "RSLTB2", "in", "04:45:00", "10:10:00"),
    TimetableTrip("TSLTB2R_0630", "RSLTB2", "in", "06:30:00", "11:30:00"),
    TimetableTrip("TSLTB2R_0745", "RSLTB2", "in", "07:45:00", "12:45:00"),
    TimetableTrip("TSLTB2R_1145", "RSLTB2", "in", "11:45:00", "16:00:00"),
    TimetableTrip("TSLTB2R_1320", "RSLTB2", "in", "13:20:00", "19:30:00"),
    TimetableTrip("TSLTB2R_1420", "RSLTB2", "in", "14:20:00", "19:15:00"),
    TimetableTrip("TSLTB2R_1500", "RSLTB2", "in", "15:00:00", "20:15:00"),
    TimetableTrip("TSLTB2R_1615", "RSLTB2", "in", "16:15:00", "21:15:00"),
    TimetableTrip("TSLTB2R_1830", "RSLTB2", "in", "18:30:00", "22:40:00")]

  const SLTB_R255: seq<TimetableTrip> := [
    TimetableTrip("TSLTB255_1410", "RSLTB255", "out", "14:10:00", "19:10:00"),
    TimetableTrip("TSLTB255R_0815", "RSLTB255", "in", "08:15:00", "13:00:00")]

  const ALL: seq<TimetableTrip> := NCG_R1 + NCG_R2 + SLTB_R1 + (SLTB_R2_OUT + SLTB_R2_IN) + SLTB_R255

  predicate Routed(trips: seq<TimetableTrip>)
  {
    forall t :: t in trips ==> (t.routeId, t.direction) in ROUTE_STOPS
  }

  lemma RoutedConcat(a: seq<TimetableTrip>, b: seq<TimetableTrip>)
    requires Routed(a) && Routed(b)
    ensures Routed(a + b)
  {
    forall t | t in a + b ensures (t.routeId, t.direction) in ROUTE_STOPS {
      assert t in a || t in b;
    }
  }

  const ROUTE_IDS: set<string> := {"RNCG1", "RNCG2", "RSLTB1", "RSLTB2", "RSLTB255"}

  /** Both directions of every bundled route have a stop list. */
  lemma RouteKnown(r: string, d: string)
    requires r in ROUTE_IDS && (d == "out" || d == "in")
    ensures (r, d) in ROUTE_STOPS
  {
  }

  lemma RoutedOn(trips: seq<TimetableTrip>, r: string)
    requires r in ROUTE_IDS
    requires forall t :: t in trips ==> t.routeId == r && (t.direction == "out" || t.direction == "in")
    ensures Routed(trips)
  {
    forall t | t in trips ensures (t.routeId, t.direction) in ROUTE_STOPS {
      RouteKnown(t.routeId, t.direction);
    }
  }

  lemma NcgR1Routed()
    ensures Routed(NCG_R1)
  {
    RoutedOn(NCG_R1, "RNCG1");
  }

  lemma NcgR2Routed()
    ensures Routed(NCG_R2)
  {
    RoutedOn(NCG_R2, "RNCG2");
  }

  lemma SltbRouted()
    ensures Routed(SLTB_R1) && Routed(SLTB_R2_OUT) && Routed(SLTB_R2_IN) && Routed(SLTB_R255)
  {
    RoutedOn(SLTB_R1, "RSLTB1");
    RoutedOn(SLTB_R2_OUT, "RSLTB2");
    RoutedOn(SLTB_R2_IN, "RSLTB2");
    RoutedOn(SLTB_R255, "RSLTB255");
  }

  /** Every bundled trip names a (route, direction) that has a stop list, so
      the lookup in the row loop never raises `KeyError`. */
  lemma AllTripsRouted()
    ensures forall t :: t in ALL ==> (t.routeId, t.direction) in ROUTE_STOPS
  {
    NcgR1Routed();
    NcgR2Routed();
    SltbRouted();
    RoutedConcat(NCG_R1, NCG_R2);
    RoutedConcat(NCG_R1 + NCG_R2, SLTB_R1);
    RoutedConcat(SLTB_R2_OUT, SLTB_R2_IN);
    RoutedConcat(NCG_R1 + NCG_R2 + SLTB_R1, SLTB_R2_OUT + SLTB_R2_IN);
    RoutedConcat(NCG_R1 + NCG_R2 + SLTB_R1 + (SLTB_R2_OUT + SLTB_R2_IN), SLTB_R255);
  }

  /** Every departure and arrival text is a zero-padded time of day. */
  predicate ClockTimed(trips: seq<TimetableTrip>)
  {
    forall t :: t in trips ==> DayClock(t.dep) && DayClock(t.arr)
  }

  lemma ClockTimedConcat(a: seq<TimetableTrip>, b: seq<TimetableTrip>)
    requires ClockTimed(a) && ClockTimed(b)
    ensures ClockTimed(a + b)
  {
    forall t | t in a + b ensures DayClock(t.dep) && DayClock(t.arr) {
      assert t in a || t in b;
    }
  }

  /** The check on the trips at indices `lo` to `hi`. */
  predicate ClockedRange(trips: seq<TimetableTrip>, lo: nat, hi: nat)
    requires hi <= |trips|
  {
    forall k :: lo <= k < hi ==> DayClock(trips[k].dep) && DayClock(trips[k].arr)
  }

  /** The same check trip by trip, in a form the verifier evaluates on the
      literal lists, a few trips at a time. */
  predicate ClockedFrom(trips: seq<TimetableTrip>, lo: nat, hi: nat)
    requires hi <= |trips|
    decreases hi - lo
  {
    lo >= hi || (DayClock(trips[lo].dep) && DayClock(trips[lo].arr) && ClockedFrom(trips, lo + 1, hi))
  }

  lemma {:induction false} ClockedRangeOf(trips: seq<TimetableTrip>, lo: nat, hi: nat)
    requires hi <= |trips| && ClockedFrom(trips, lo, hi)
    ensures ClockedRange(trips, lo, hi)
    decreases hi - lo
  {
    if lo < hi {
      ClockedRangeOf(trips, lo + 1, hi);
    }
  }

  lemma ClockTimedOfRange(trips: seq<TimetableTrip>)
    requires ClockedRange(trips, 0, |trips|)
    ensures ClockTimed(trips)
  {
    forall t | t in trips ensures DayClock(t.dep) && DayClock(t.arr) {
      var k :| 0 <= k < |trips| && trips[k] == t;
    }
  }

  lemma NcgR1Clocked()
    ensures ClockTimed(NCG_R1)
  {
    ClockedRangeOf(NCG_R1, 0, 4);
    ClockTimedOfRange(NCG_R1);
  }

  lemma NcgR2Clocked()
    ensures ClockTimed(NCG_R2)
  {
    NcgR2OutClocked0();
    NcgR2OutClocked3();
    NcgR2OutClocked6();
    NcgR2OutClocked9();
    NcgR2InClocked0();
    NcgR2InClocked4();
    ClockTimedOfRange(NCG_R2_OUT);
    ClockTimedOfRange(NCG_R2_IN);
    ClockTimedConcat(NCG_R2_OUT, NCG_R2_IN);
  }

  lemma NcgR2OutClocked0()
    ensures 3 <= |NCG_R2_OUT| && ClockedRange(NCG_R2_OUT, 0, 3)
  {
    ClockedRangeOf(NCG_R2_OUT, 0, 3);
  }

  lemma NcgR2OutClocked3()
    ensures 6 <= |NCG_R2_OUT| && ClockedRange(NCG_R2_OUT, 3, 6)
  {
    ClockedRangeOf(NCG_R2_OUT, 3, 6);
  }

  lemma NcgR2OutClocked6()
    ensures 9 <= |NCG_R2_OUT| && ClockedRange(NCG_R2_OUT, 6, 9)
  {
    ClockedRangeOf(NCG_R2_OUT, 6, 9);
  }

  lemma NcgR2OutClocked9()
    ensures 13 <= |NCG_R2_OUT| && ClockedRange(NCG_R2_OUT, 9, 13)
  {
    ClockedRangeOf(NCG_R2_OUT, 9, 13);
  }

  lemma NcgR2InClocked0()
    ensures 4 <= |NCG_R2_IN| && ClockedRange(NCG_R2_IN, 0, 4)
  {
    ClockedRangeOf(NCG_R2_IN, 0, 4);
  }

  lemma NcgR2InClocked4()
    ensures 7 <= |NCG_R2_IN| && ClockedRange(NCG_R2_IN, 4, 7)
  {
    ClockedRangeOf(NCG_R2_IN, 4, 7);
  }

  lemma SltbR2Clocked()
    ensures ClockTimed(SLTB_R2_OUT) && ClockTimed(SLTB_R2_IN)
  {
    SltbR2OutClocked0();
    SltbR2OutClocked5();
    SltbR2InClocked0();
    SltbR2InClocked5();
    ClockTimedOfRange(SLTB_R2_OUT);
    ClockTimedOfRange(SLTB_R2_IN);
  }

  lemma SltbR2OutClocked0()
    ensures 5 <= |SLTB_R2_OUT| && ClockedRange(SLTB_R2_OUT, 0, 5)
  {
    ClockedRangeOf(SLTB_R2_OUT, 0, 5);
  }

  lemma SltbR2OutClocked5()
    ensures 9 <= |SLTB_R2_OUT| && ClockedRange(SLTB_R2_OUT, 5, 9)
  {
    ClockedRangeOf(SLTB_R2_OUT, 5, 9);
  }

  lemma SltbR2InClocked0()
    ensures 5 <= |SLTB_R2_IN| && ClockedRange(SLTB_R2_IN, 0, 5)
  {
    ClockedRangeOf(SLTB_R2_IN, 0, 5);
  }

  lemma SltbR2InClocked5()
    ensures 9 <= |SLTB_R2_IN| && ClockedRange(SLTB_R2_IN, 5, 9)
  {
    ClockedRangeOf(SLTB_R2_IN, 5, 9);
  }

  lemma SltbR255Clocked()
    ensures ClockTimed(SLTB_R1) && ClockTimed(SLTB_R255)
  {
    ClockedRangeOf(SLTB_R255, 0, 2);
    ClockTimedOfRange(SLTB_R255);
  }

  /** Every bundled trip's times are zero-padded times of day, so
      `evenly_spaced_times` never raises on them. */
  lemma AllTripsClockTimed()
    ensures ClockTimed(ALL)
  {
    NcgR1Clocked();
    NcgR2Clocked();
    SltbR2Clocked();
    SltbR255Clocked();
    ClockTimedConcat(NCG_R1, NCG_R2);
    ClockTimedConcat(NCG_R1 + NCG_R2, SLTB_R1);
    ClockTimedConcat(SLTB_R2_OUT, SLTB_R2_IN);
    ClockTimedConcat(NCG_R1 + NCG_R2 + SLTB_R1, SLTB_R2_OUT + SLTB_R2_IN);
    ClockTimedConcat(NCG_R1 + NCG_R2 + SLTB_R1 + (SLTB_R2_OUT + SLTB_R2_IN), SLTB_R255);
  }

  /* ---------------- stop_times rows ---------------- */

  datatype StopTime = StopTime(tripId: string, arrival: string, departure: string, stopId: string, sequence: int)

  /** `enumerate(zip(stops, times), start=1)`, one row per pair. */
  function Rows(tripId: string, stops: seq<string>, times: seq<string>): seq<StopTime>
  {
    var n := if |stops| <= |times| then |stops| else |times|;
    seq(n, i requires 0 <= i < n => StopTime(tripId, times[i], times[i], stops[i], i + 1))
  }

  /** The rows one trip contributes to `stop_times.txt`, its stop list looked up
      in `routeStops` (the tool passes `ROUTE_STOPS`); `None` stands for the
      exception (`KeyError` on an unknown route, or one raised by
      `evenly_spaced_times`) that stops the writing loop. */
  function TripStopTimes(routeStops: map<(string, string), seq<string>>, t: TimetableTrip): Option<seq<StopTime>>
  {
    var key := (t.routeId, t.direction);
    if key !in routeStops then None
    else match EvenlySpacedTimes(t.dep, t.arr, |routeStops[key]|)
      case None => None
      case Some(times) => Some(Rows(t.tripId, routeStops[key], times))
  }

  /** One row per stop, numbered from 1, arriving when departing. */
  lemma RowsShape(tripId: string, stops: seq<string>, times: seq<string>)
    requires |times| == |stops|
    ensures var rows := Rows(tripId, stops, times);
      && |rows| == |stops|
      && forall i :: 0 <= i < |stops| ==>
           rows[i].tripId == tripId && rows[i].stopId == stops[i] && rows[i].arrival == times[i]
           && rows[i].sequence == i + 1 && rows[i].arrival == rows[i].departure
  {
  }

  lemma TripStopTimesOf(routeStops: map<(string, string), seq<string>>, t: TimetableTrip, stops: seq<string>, times: seq<string>)
    requires (t.routeId, t.direction) in routeStops && routeStops[(t.routeId, t.direction)] == stops
    requires EvenlySpacedTimes(t.dep, t.arr, |stops|) == Some(times)
    ensures TripStopTimes(routeStops, t) == Some(Rows(t.tripId, stops, times))
  {
  }

  /** The rows of trip `tripId` over `stops` at the instants `u`: one row per
      stop, in the stop list's order, numbered from 1, arriving when
      departing, at the time of day of its instant. */
  predicate RowsAt(rows: seq<StopTime>, tripId: string, stops: seq<string>, u: seq<int>)
  {
    && |rows| == |stops| == |u|
    && forall i :: 0 <= i < |stops| ==>
         && rows[i].tripId == tripId && rows[i].stopId == stops[i]
         && rows[i].sequence == i + 1 && rows[i].arrival == rows[i].departure
         && rows[i].arrival == FromSeconds(u[i])
  }

  /** `r` holds the rows `RowsAt` the instants `u`, the first row arriving at
      `first` and the last at `last`. */
  predicate SpacedRows(r: Option<seq<StopTime>>, tripId: string, stops: seq<string>, u: seq<int>, first: string, last: string)
  {
    Ends(r, |stops|, first, last) && RowsAt(r.value, tripId, stops, u)
  }

  /** `r` holds `n` rows, at least one, the first arriving at `first` and the last at `last`. */
  predicate Ends(r: Option<seq<StopTime>>, n: int, first: string, last: string)
  {
    r.Some? && |r.value| == n >= 1 && r.value[0].arrival == first && r.value[n - 1].arrival == last
  }

  /** The times are the times of day of the instants, one for one. */
  predicate TimesOf(times: seq<string>, u: seq<int>)
  {
    |times| == |u| && forall i :: 0 <= i < |u| ==> times[i] == FromSeconds(u[i])
  }

  /** `r` holds the times of day of the instants `u`, from `first` to `last`. */
  predicate SpacedTimes(r: Option<seq<string>>, u: seq<int>, first: string, last: string)
  {
    && r.Some? && TimesOf(r.value, u) && |u| >= 1
    && r.value[0] == first && r.value[|u| - 1] == last
  }

  lemma SpacedTimesOf(depHms: string, arrHms: string, nStops: int, dep: int, arr: int)
    requires HmsToSeconds(depHms) == Some(dep) && HmsToSeconds(arrHms) == Some(arr)
    requires 0 <= dep < DAY && 0 <= arr < DAY && nStops >= 2
    ensures SpacedTimes(EvenlySpacedTimes(depHms, arrHms, nStops), SpacedSeconds(dep, Unwrap(dep, arr), nStops),
                        FromSeconds(dep), FromSeconds(arr))
  {
    EvenlySpacedTimesShape(depHms, arrHms, nStops, dep, arr);
    SpacedTimesFrom(EvenlySpacedTimes(depHms, arrHms, nStops), SpacedSeconds(dep, Unwrap(dep, arr), nStops), nStops,
                    FromSeconds(dep), FromSeconds(arr));
  }

  lemma SpacedTimesFrom(r: Option<seq<string>>, u: seq<int>, n: int, first: string, last: string)
    requires n >= 2 && |u| == n && r.Some? && |r.value| == n && r.value[0] == first && r.value[n - 1] == last
    requires forall i :: 0 <= i < n ==> r.value[i] == FromSeconds(u[i])
    ensures SpacedTimes(r, u, first, last)
  {
  }

  /** A routed trip whose departure and arrival read as times of day, on a
      stop list of at least two stops, is written as `RowsAt` the evenly
      spaced instants from the departure to the (possibly next-day) arrival
      (`SpacedSecondsShape`: they start at the departure, end at the arrival
      and never go back), so the first row is at the departure and the last
      at the arrival. */
  lemma TripStopTimesShape(routeStops: map<(string, string), seq<string>>, t: TimetableTrip, dep: int, arr: int)
    requires (t.routeId, t.direction) in routeStops && |routeStops[(t.routeId, t.direction)]| >= 2
    requires HmsToSeconds(t.dep) == Some(dep) && HmsToSeconds(t.arr) == Some(arr)
    requires 0 <= dep < DAY && 0 <= arr < DAY
    ensures var stops := routeStops[(t.routeId, t.direction)];
      SpacedRows(TripStopTimes(routeStops, t), t.tripId, stops, SpacedSeconds(dep, Unwrap(dep, arr), |stops|),
                 FromSeconds(dep), FromSeconds(arr))
  {
    var stops := routeStops[(t.routeId, t.direction)];
    SpacedTimesOf(t.dep, t.arr, |stops|, dep, arr);
    var times := EvenlySpacedTimes(t.dep, t.arr, |stops|).value;
    assert |SpacedSeconds(dep, Unwrap(dep, arr), |stops|)| == |stops|;
    TripRowsOfTimes(routeStops, t, stops, times, SpacedSeconds(dep, Unwrap(dep, arr), |stops|), FromSeconds(dep), FromSeconds(arr));
  }

  lemma TripRowsOfTimes(routeStops: map<(string, string), seq<string>>, t: TimetableTrip, stops: seq<string>,
                        times: seq<string>, u: seq<int>, first: string, last: string)
    requires (t.routeId, t.direction) in routeStops && routeStops[(t.routeId, t.direction)] == stops && |stops| >= 2
    requires EvenlySpacedTimes(t.dep, t.arr, |stops|) == Some(times) && SpacedTimes(Some(times), u, first, last)
    requires |u| == |stops|
    ensures SpacedRows(TripStopTimes(routeStops, t), t.tripId, stops, u, first, last)
  {
    TripStopTimesOf(routeStops, t, stops, times);
    RowsOfSpaced(TripStopTimes(routeStops, t), t.tripId, stops, times, u, first, last);
  }

  lemma RowsOfSpaced(r: Option<seq<StopTime>>, tripId: string, stops: seq<string>, times: seq<string>, u: seq<int>,
                     first: string, last: string)
    requires |stops| >= 2 && |u| == |stops| && SpacedTimes(Some(times), u, first, last)
    requires r == Some(Rows(tripId, stops, times))
    ensures SpacedRows(r, tripId, stops, u, first, last)
  {
    RowsShape(tripId, stops, times);
  }

  /** Every bundled trip is written: its rows cover its whole stop list, and
      the first and last rows carry the timetable's own departure and
      arrival texts. */
  lemma AllTripsWritten()
    ensures forall t :: t in ALL ==> Written(ROUTE_STOPS, t)
  {
    AllTripsRouted();
    AllTripsClockTimed();
    RouteStopsLong();
    forall t | t in ALL
      ensures Written(ROUTE_STOPS, t)
    {
      TripWritten(ROUTE_STOPS, t);
    }
  }

  /** The trip's route is known and its rows cover the whole stop list, the
      first and last rows carrying the trip's own departure and arrival texts. */
  predicate Written(routeStops: map<(string, string), seq<string>>, t: TimetableTrip)
  {
    && (t.routeId, t.direction) in routeStops
    && Ends(TripStopTimes(routeStops, t), |routeStops[(t.routeId, t.direction)]|, t.dep, t.arr)
  }

  /** A routed trip of at least two stops whose times are zero-padded times of
      day is written. */
  lemma TripWritten(routeStops: map<(string, string), seq<string>>, t: TimetableTrip)
    requires (t.routeId, t.direction) in routeStops && |routeStops[(t.routeId, t.direction)]| >= 2
    requires DayClock(t.dep) && DayClock(t.arr)
    ensures Written(routeStops, t)
  {
    DayClockRoundTrip(t.dep);
    DayClockRoundTrip(t.arr);
    var dep, arr := DayClockSeconds(t.dep), DayClockSeconds(t.arr);
    TripStopTimesShape(routeStops, t, dep, arr);
  }

  /** An unknown (route, direction) raises before any row of the trip is written. */
  lemma TripStopTimesUnknownRoute(routeStops: map<(string, string), seq<string>>, t: TimetableTrip)
    requires (t.routeId, t.direction) !in routeStops
    ensures TripStopTimes(routeStops, t).None?
  {
  }
}
