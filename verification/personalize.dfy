/** The personalization page of the web app: the preferences it shows and
    saves, the suggestions it ranks and applies, the three scenario switches
    and the debounced save of the preferences. */
module Personalize {
  import opened Wrappers
  import opened Text
  import opened Seqs
  import Personalizer

  type DeltaValue = Personalizer.DeltaValue

  /* ---------------- localized text ---------------- */

  datatype Lang = En | Si | Ta

  /** A text object `{ en?, si?, ta? }`. */
  datatype LocalText = LocalText(en: Option<string>, si: Option<string>, ta: Option<string>)

  function InLang(x: LocalText, lang: Lang): Option<string>
  {
    match lang
    case En => x.en
    case Si => x.si
    case Ta => x.ta
  }

  /** `t(textObj, lang)`: the text in the requested language if the object has
      one, else the English text, else the empty string; no object gives the
      empty string. A present empty text is returned as it is (`??` only skips
      missing values). */
  function T(textObj: Option<LocalText>, lang: Lang): (r: string)
    ensures textObj.None? ==> r == ""
    ensures textObj.Some? && InLang(textObj.value, lang).Some? ==> r == InLang(textObj.value, lang).value
    ensures textObj.Some? && InLang(textObj.value, lang).None? ==> r == textObj.value.en.GetOr("")
  {
    if textObj.None? then ""
    else match InLang(textObj.value, lang)
      case Some(s) => s
      case None => textObj.value.en.GetOr("")
  }

  /** The text shown is always one the object holds, in the requested language
      or in English, or the empty string; English is never overridden. */
  lemma TFromObject(x: LocalText, lang: Lang)
    ensures var r := T(Some(x), lang);
      && (r == "" || Some(r) == InLang(x, lang) || Some(r) == x.en)
      && (x.en.Some? ==> T(Some(x), En) == x.en.value)
      && (InLang(x, lang).None? && x.en.None? ==> r == "")
  {
  }

  /* ---------------- preferences ---------------- */

  /** `Weights`: the three core weights are always present; the server may
      send more (onboarding stores `train`, `bus` and `tuk` too). */
  type Weights = w: map<string, int> | "time" in w && "cost" in w && "comfort" in w
    witness map["time" := 60, "cost" := 50, "comfort" := 50]

  datatype Prefs = Prefs(weights: Weights, language: Lang, walkLimit: int, voice: bool)

  /** The preferences the page starts with. */
  const DEFAULT_PREFS: Prefs := Prefs(map["time" := 60, "cost" := 50, "comfort" := 50], En, 900, true)

  /** `SuggestionRow`; `payload` is `payload?.weights`, in entry order. */
  datatype SuggestionRow = SuggestionRow(id: string, kind: string, title: LocalText, body: LocalText,
                                         payload: Option<seq<(string, DeltaValue)>>)

  /* ---------------- delta parsing ---------------- */

  /** The client's delta: a string loses its first `+` and goes through
      `parseInt(…, 10)`, `NaN` counting 0; a number is taken as it is. */
  function ClientDelta(v: DeltaValue): int
  {
    match v
    case Int(i) => i
    case Str(s) => JsParseInt(ReplaceFirst(s, "+", "")).GetOr(0)
  }

  /** For the canonical forms `d`, `+d` and `-d` the client and the service
      read the same number. */
  lemma DeltaAgreesPlain(d: string)
    requires |d| > 0 && AllDigits(d)
    ensures ClientDelta(Personalizer.Str(d)) == DigitsValue(d)
    ensures Personalizer.ServerDelta(Personalizer.Str(d)) == DigitsValue(d)
  {
    assert '+' !in d;
    ReplaceFirstAbsentChar(d, '+', "");
    ReplaceAllAbsentChar(d, '+', "");
    JsParseIntOfDigits(d);
    PyIntOfDigits(d);
  }

  lemma DeltaAgreesPlus(d: string)
    requires |d| > 0 && AllDigits(d)
    ensures ClientDelta(Personalizer.Str("+" + d)) == DigitsValue(d)
    ensures Personalizer.ServerDelta(Personalizer.Str("+" + d)) == DigitsValue(d)
  {
    var s := "+" + d;
    assert s[..1] == "+" && s[1..] == d;
    assert '+' !in d;
    ReplaceAllAbsentChar(d, '+', "");
    assert ReplaceFirst(s, "+", "") == d;
    assert ReplaceAll(s, "+", "") == d;
    JsParseIntOfDigits(d);
    PyIntOfDigits(d);
  }

  lemma DeltaAgreesMinus(d: string)
    requires |d| > 0 && AllDigits(d)
    ensures ClientDelta(Personalizer.Str("-" + d)) == -(DigitsValue(d) as int)
    ensures Personalizer.ServerDelta(Personalizer.Str("-" + d)) == -(DigitsValue(d) as int)
  {
    MinusUnchanged(d);
    JsParseIntOfNegative(d);
    PyIntOfNegative(d);
  }

  lemma PyIntOfNegative(d: string)
    requires |d| > 0 && AllDigits(d)
    ensures PyInt("-" + d) == Some(-(DigitsValue(d) as int))
  {
    var s := "-" + d;
    assert IsDigit(s[|s| - 1]);
    StripNoWhiteEnds(s);
    PySignedNegative(d);
  }

  /** Neither replacement touches `-d`. */
  lemma MinusUnchanged(d: string)
    requires AllDigits(d)
    ensures ReplaceFirst("-" + d, "+", "") == "-" + d
    ensures ReplaceAll("-" + d, "+", "") == "-" + d
  {
    assert '+' !in "-" + d;
    ReplaceAllAbsentChar("-" + d, '+', "");
    ReplaceFirstAbsentChar("-" + d, '+', "");
  }

  /** Where they part: `parseInt` stops at the first non-digit, while `int()`
      rejects the whole string. */
  lemma TrailingUnitDisagrees()
    ensures ClientDelta(Personalizer.Str("10px")) == 10
    ensures Personalizer.ServerDelta(Personalizer.Str("10px")) == 0
  {
    ClientReadsTrailingUnit();
    ServerRejectsTrailingUnit();
  }

  /** The client reads the digits up to the first character that is not
      one, when the text holds no `+`. */
  lemma ClientDigitsThen(d: string, rest: string)
    requires |d| > 0 && AllDigits(d) && '+' !in rest && (|rest| == 0 || !IsDigit(rest[0]))
    ensures ClientDelta(Personalizer.Str(d + rest)) == DigitsValue(d)
  {
    assert '+' !in d + rest by { assert forall c :: c in d + rest ==> c in d || c in rest; }
    ReplaceFirstAbsentChar(d + rest, '+', "");
    JsParseIntPrefix(d, rest);
  }

  lemma ClientReadsTrailingUnit()
    ensures ClientDelta(Personalizer.Str("10px")) == 10
  {
    ClientDigitsThen("10", "px");
    assert "10" + "px" == "10px";
    assert DigitsValue("10") == 10;
  }

  lemma ServerRejectsTrailingUnit()
    ensures Personalizer.ServerDelta(Personalizer.Str("10px")) == 0
  {
    var s := "10px";
    assert '+' !in s;
    ReplaceAllAbsentChar(s, '+', "");
    assert s[1..] == "0px" && "0px"[1..] == "px";
    assert !PyDigitGroups("px");
    assert !PyDigitGroups(s);
    PyIntUnsigned(s);
  }

  /** The client reads the text left once its first `+` is dropped. */
  lemma ClientDeltaOfText(s: string, t: string, v: int)
    requires ReplaceFirst(s, "+", "") == t && JsParseInt(t) == Some(v)
    ensures ClientDelta(Personalizer.Str(s)) == v
  {
  }

  lemma ReplaceFirstLeading(rest: string)
    ensures ReplaceFirst(['+'] + rest, "+", "") == rest
  {
    var s := ['+'] + rest;
    assert s[..1] == "+" && s[1..] == rest;
  }

  /** The client drops a leading `+` and reads the digit after it, up to
      the next non-digit. */
  lemma ClientPlusThen(t: string)
    requires |t| > 1 && IsDigit(t[0]) && !IsDigit(t[1])
    ensures ClientDelta(Personalizer.Str(['+'] + t)) == DigitValue(t[0])
  {
    ReplaceFirstLeading(t);
    JsParseDigitThen(t[0], t[1..]);
    assert [t[0]] + t[1..] == t;
    ClientDeltaOfText(['+'] + t, t, DigitValue(t[0]));
  }

  /** `parseInt` of a digit followed by a non-digit is that digit. */
  lemma JsParseDigitThen(x: char, rest: string)
    requires IsDigit(x) && |rest| > 0 && !IsDigit(rest[0])
    ensures JsParseInt([x] + rest) == Some(DigitValue(x))
  {
    JsParseIntPrefix([x], rest);
    assert DigitsValue([x]) == DigitValue(x) by { assert [x][..0] == []; }
  }

  /** Dropping both `+` of `+x+y` leaves `xy`. */
  lemma DropPluses(x: char, y: char)
    requires x != '+' && y != '+'
    ensures ReplaceAll(['+', x, '+', y], "+", "") == [x, y]
  {
    ReplaceAllConcatChar(['+', x], ['+', y], '+', "");
    ReplaceAllConcatChar(['+'], [x], '+', "");
    ReplaceAllConcatChar(['+'], [y], '+', "");
    ReplaceAllAbsentChar([x], '+', "");
    ReplaceAllAbsentChar([y], '+', "");
    assert ['+', x, '+', y] == ['+', x] + ['+', y];
    assert ['+', x] == ['+'] + [x] && ['+', y] == ['+'] + [y];
    assert ReplaceAll(['+'], "+", "") == [];
  }

  /** The service reads the text left once every `+` is dropped. */
  lemma ServerDeltaOfText(s: string, t: string, v: int)
    requires ReplaceAll(s, "+", "") == t && PyInt(t) == Some(v)
    ensures Personalizer.ServerDelta(Personalizer.Str(s)) == v
  {
  }

  lemma TwoDigitsValue(x: char, y: char)
    requires IsDigit(x) && IsDigit(y)
    ensures AllDigits([x, y]) && DigitsValue([x, y]) == DigitValue(x) * 10 + DigitValue(y)
  {
    assert [x][..0] == [];
    assert DigitsValue([x]) == DigitValue(x);
    assert [x, y][..1] == [x] && [x, y][1] == y;
  }

  lemma ServerPlusDigits(x: char, y: char)
    requires IsDigit(x) && IsDigit(y)
    ensures Personalizer.ServerDelta(Personalizer.Str(['+', x, '+', y])) == DigitValue(x) * 10 + DigitValue(y)
  {
    DropPluses(x, y);
    TwoDigitsValue(x, y);
    PyIntOfDigits([x, y]);
    ServerDeltaOfText(['+', x, '+', y], [x, y], DigitsValue([x, y]) as int);
  }

  /** `x_d` is two digit groups. */
  lemma UnderscoreGroups(x: char, d: string)
    requires IsDigit(x) && |d| > 0 && AllDigits(d)
    ensures PyDigitGroups([x, '_'] + d)
  {
    var s := [x, '_'] + d;
    assert s[2..] == d && s[1] == '_' && s[0] == x && |s| > 1;
    DigitsAreGroups(d);
  }

  /** Removing the underscores of `x_d` leaves `x` then `d`. */
  lemma UnderscoreRemoved(x: char, d: string)
    requires IsDigit(x) && AllDigits(d)
    ensures RemoveUnderscores([x, '_'] + d) == [x] + d
  {
    var s := [x, '_'] + d;
    var t := ['_'] + d;
    assert s[1..] == t && t[1..] == d && s[0] == x && t[0] == '_';
    RemoveUnderscoresOfDigits(d);
    assert RemoveUnderscores(t) == d;
    assert RemoveUnderscores(s) == [x] + RemoveUnderscores(t);
  }

  lemma UnderscoreNoPlus(x: char, d: string)
    requires IsDigit(x) && AllDigits(d)
    ensures '+' !in [x, '_'] + d
  {
    var s := [x, '_'] + d;
    forall i | 0 <= i < |s| ensures s[i] != '+' {
      if i >= 2 { assert s[i] == d[i - 2]; }
    }
  }

  /** The service reads `x_d` as the digits `x` then `d`. */
  lemma ServerUnderscoreGroup(x: char, d: string)
    requires IsDigit(x) && |d| > 0 && AllDigits(d)
    ensures AllDigits([x] + d)
    ensures Personalizer.ServerDelta(Personalizer.Str([x, '_'] + d)) == DigitsValue([x] + d)
  {
    var s := [x, '_'] + d;
    UnderscoreNoPlus(x, d);
    ReplaceAllAbsentChar(s, '+', "");
    UnderscoreGroups(x, d);
    UnderscoreRemoved(x, d);
    PyIntUnsigned(s);
    ServerDeltaOfText(s, s, DigitsValue([x] + d) as int);
  }

  /** The service drops every `+`, the client only the first: `+x+y` is `x`
      for the client and `xy` for the service (`"+1+2"`: 1 and 12). */
  lemma RepeatedPlusDisagrees(x: char, y: char)
    requires IsDigit(x) && IsDigit(y)
    ensures ClientDelta(Personalizer.Str(['+', x, '+', y])) == DigitValue(x)
    ensures Personalizer.ServerDelta(Personalizer.Str(['+', x, '+', y])) == DigitValue(x) * 10 + DigitValue(y)
  {
    ClientPlusDigits(x, y);
    ServerPlusDigits(x, y);
  }

  lemma ClientPlusDigits(x: char, y: char)
    requires IsDigit(x) && IsDigit(y)
    ensures ClientDelta(Personalizer.Str(['+', x, '+', y])) == DigitValue(x)
  {
    ClientPlusThen([x, '+', y]);
    assert ['+'] + [x, '+', y] == ['+', x, '+', y];
  }

  /** `int()` accepts digit-group underscores; `parseInt` stops at them:
      `x_d` is `x` for the client and the digits `x` then `d` for the service
      (`"1_000"`: 1 and 1000). */
  lemma UnderscoreDisagrees(x: char, d: string)
    requires IsDigit(x) && |d| > 0 && AllDigits(d)
    ensures AllDigits([x] + d)
    ensures ClientDelta(Personalizer.Str([x, '_'] + d)) == DigitValue(x)
    ensures Personalizer.ServerDelta(Personalizer.Str([x, '_'] + d)) == DigitsValue([x] + d)
  {
    ClientUnderscore(x, d);
    ServerUnderscoreGroup(x, d);
  }

  lemma ClientUnderscore(x: char, d: string)
    requires IsDigit(x) && AllDigits(d)
    ensures ClientDelta(Personalizer.Str([x, '_'] + d)) == DigitValue(x)
  {
    UnderscoreNoPlus(x, d);
    assert [x, '_'] + d == [x] + (['_'] + d);
    assert '+' !in ['_'] + d by { assert forall c :: c in ['_'] + d ==> c in [x, '_'] + d; }
    ClientDigitsThen([x], ['_'] + d);
    assert DigitsValue([x]) == DigitValue(x) by { assert [x][..0] == []; }
  }

  /* ---------------- scoring and ranking ---------------- */

  /** The three scenario switches. */
  datatype Scenario = Scenario(peak: bool, rain: bool, trainDelay: bool)

  /** `(prefs.weights as any)[k] || 0`. */
  function WeightOf(w: map<string, int>, k: string): int
  {
    if k in w then w[k] else 0
  }

  /** What a payload's entries earn: each weight times its parsed delta. */
  function WeightedSum(w: map<string, int>, deltas: seq<(string, DeltaValue)>): int
    decreases |deltas|
  {
    if deltas == [] then 0 else WeightOf(w, deltas[0].0) * ClientDelta(deltas[0].1) + WeightedSum(w, deltas[1..])
  }

  /** The scenario nudges: comfort gains 10 in the rain, time gains 10 at peak
      hours, and a kind that is exactly `rail` loses 10 when trains are delayed. */
  function Nudge(kind: string, sc: Scenario): int
  {
    (if sc.rain && kind == "comfort" then 10 else 0)
    + (if sc.peak && kind == "time" then 10 else 0)
    - (if sc.trainDelay && kind == "rail" then 10 else 0)
  }

  /** A suggestion's score: its payload's weighted sum (0 without a payload)
      plus its nudges. */
  function Score(row: SuggestionRow, w: map<string, int>, sc: Scenario): int
  {
    (if row.payload.Some? then WeightedSum(w, row.payload.value) else 0) + Nudge(row.kind, sc)
  }

  lemma WeightedSumStep(w: map<string, int>, deltas: seq<(string, DeltaValue)>, i: nat)
    requires i < |deltas|
    ensures WeightedSum(w, deltas[i..]) == WeightOf(w, deltas[i].0) * ClientDelta(deltas[i].1) + WeightedSum(w, deltas[i + 1..])
  {
    assert deltas[i..][1..] == deltas[i + 1..];
  }

  /** The loop summing a payload's entries. */
  method PayloadScore(w: map<string, int>, deltas: seq<(string, DeltaValue)>) returns (score: int)
    ensures score == WeightedSum(w, deltas)
  {
    score := 0;
    var i := 0;
    while i < |deltas|
      invariant 0 <= i <= |deltas|
      invariant score + WeightedSum(w, deltas[i..]) == WeightedSum(w, deltas)
    {
      var k, v := deltas[i].0, deltas[i].1;
      WeightedSumStep(w, deltas, i);
      var weight := WeightOf(w, k);
      var numVal := ClientDelta(v);
      score := score + weight * numVal;
      i := i + 1;
    }
    assert deltas[i..] == [];
  }

  /** The sum splits over the payload's parts ... */
  lemma {:induction false} WeightedSumConcat(w: map<string, int>, a: seq<(string, DeltaValue)>, b: seq<(string, DeltaValue)>)
    decreases |a|
    ensures WeightedSum(w, a + b) == WeightedSum(w, a) + WeightedSum(w, b)
  {
    if a != [] {
      assert (a + b)[1..] == a[1..] + b;
      WeightedSumConcat(w, a[1..], b);
    } else {
      assert a + b == b;
    }
  }

  /** ... so the order the entries are listed in does not change the score:
      any two listings of the same entries sum alike. */
  lemma {:induction false} WeightedSumOrderFree(w: map<string, int>, a: seq<(string, DeltaValue)>,
                                                b: seq<(string, DeltaValue)>)
    requires multiset(a) == multiset(b)
    ensures WeightedSum(w, a) == WeightedSum(w, b)
    decreases |a|
  {
    if a == [] {
      assert |b| == |multiset(b)| == 0;
    } else {
      var i := MultisetRest(a, b);
      WeightedSumOrderFree(w, a[1..], b[..i] + b[i + 1..]);
      WeightedSumRemove(w, b, i);
    }
  }

  /** Taking entry `i` out of a payload takes its term out of the sum. */
  lemma WeightedSumRemove(w: map<string, int>, b: seq<(string, DeltaValue)>, i: nat)
    requires i < |b|
    ensures WeightedSum(w, b) == WeightOf(w, b[i].0) * ClientDelta(b[i].1) + WeightedSum(w, b[..i] + b[i + 1..])
  {
    assert b == b[..i] + ([b[i]] + b[i + 1..]);
    WeightedSumConcat(w, b[..i], [b[i]] + b[i + 1..]);
    WeightedSumConcat(w, b[..i], b[i + 1..]);
    assert ([b[i]] + b[i + 1..])[1..] == b[i + 1..];
  }

  /** An entry for a weight the user does not have adds nothing. */

  lemma WeightedSumUnknownKey(w: map<string, int>, a: seq<(string, DeltaValue)>, k: string, v: DeltaValue, b: seq<(string, DeltaValue)>)
    requires k !in w
    ensures WeightedSum(w, a + [(k, v)] + b) == WeightedSum(w, a + b)
  {
    WeightedSumConcat(w, a + [(k, v)], b);
    WeightedSumConcat(w, a, [(k, v)]);
    WeightedSumConcat(w, a, b);
  }

  /** Each nudge applies to its own kind only. */
  lemma NudgeByKind(kind: string, sc: Scenario)
    ensures kind == "comfort" ==> Nudge(kind, sc) == (if sc.rain then 10 else 0)
    ensures kind == "time" ==> Nudge(kind, sc) == (if sc.peak then 10 else 0)
    ensures kind == "rail" ==> Nudge(kind, sc) == (if sc.trainDelay then -10 else 0)
    ensures kind !in {"comfort", "time", "rail"} ==> Nudge(kind, sc) == 0
    ensures Nudge(kind, Scenario(false, false, false)) == 0
  {
  }

  /** The sort key: `Array.prototype.sort` with `(a, b) => b.score - a.score`
      is a stable sort by descending score. */
  function RankKey(w: map<string, int>, sc: Scenario): SuggestionRow -> int
  {
    row => -Score(row, w, sc)
  }

  /** The list `recalcSuggestions` produces. */
  function Ranked(rows: seq<SuggestionRow>, w: map<string, int>, sc: Scenario): seq<SuggestionRow>
  {
    SortBy(rows, RankKey(w, sc))
  }

  /** The ranking keeps every suggestion, orders them by non-increasing score,
      and keeps suggestions of equal score in their previous order (the
      suggestions whose key is `k`, those scoring `-k`, appear in the same
      order before and after). */
  lemma RankedCorrect(rows: seq<SuggestionRow>, w: map<string, int>, sc: Scenario)
    ensures var r := Ranked(rows, w, sc);
      && |r| == |rows| && multiset(r) == multiset(rows)
      && (forall i, j :: 0 <= i < j < |r| ==> Score(r[i], w, sc) >= Score(r[j], w, sc))
      && (forall k :: WithKey(r, RankKey(w, sc), k) == WithKey(rows, RankKey(w, sc), k))
  {
    var key := RankKey(w, sc);
    SortByCorrect(rows, key);
    var r := SortBy(rows, key);
    forall i, j | 0 <= i < j < |r| ensures Score(r[i], w, sc) >= Score(r[j], w, sc) {
      assert key(r[i]) <= key(r[j]);
    }
  }

  /** The ranking is the only list with these properties: any reordering of
      the suggestions by non-increasing score that keeps ties in their previous
      order is the ranked list. */
  lemma RankedUnique(rows: seq<SuggestionRow>, other: seq<SuggestionRow>, w: map<string, int>, sc: Scenario)
    requires forall i, j :: 0 <= i < j < |other| ==> Score(other[i], w, sc) >= Score(other[j], w, sc)
    requires forall k :: WithKey(other, RankKey(w, sc), k) == WithKey(rows, RankKey(w, sc), k)
    ensures other == Ranked(rows, w, sc)
  {
    var key := RankKey(w, sc);
    SortByCorrect(rows, key);
    assert SortedBy(other, key) by {
      forall i, j | 0 <= i < j < |other| ensures key(other[i]) <= key(other[j]) {
      }
    }
    SortedUnique(other, Ranked(rows, w, sc), key);
  }

  /** A suggestion carrying its computed score, as `{ ...s, score }`. */
  function ScoredKey(p: (SuggestionRow, int)): int { -p.1 }

  function RowOf(p: (SuggestionRow, int)): SuggestionRow { p.0 }

  /** `recalcSuggestions`' body: score each suggestion, then sort the scored
      suggestions by their scores. */
  method Recalculate(rows: seq<SuggestionRow>, w: map<string, int>, sc: Scenario) returns (ranked: seq<SuggestionRow>)
    ensures ranked == Ranked(rows, w, sc)
  {
    var scored: seq<(SuggestionRow, int)> := [];
    var i := 0;
    while i < |rows|
      invariant 0 <= i <= |rows| && |scored| == i
      invariant forall j :: 0 <= j < i ==> scored[j] == (rows[j], Score(rows[j], w, sc))
    {
      var s := rows[i];
      var score := 0;
      if s.payload.Some? {
        score := PayloadScore(w, s.payload.value);
      }
      score := score + Nudge(s.kind, sc);
      scored := scored + [(s, score)];
      i := i + 1;
    }
    var sorted := SortBy(scored, ScoredKey);
    forall p | p in scored ensures ScoredKey(p) == RankKey(w, sc)(RowOf(p)) {
    }
    SortByMap(scored, RowOf, ScoredKey, RankKey(w, sc));
    assert Map(scored, RowOf) == rows;
    ranked := Map(sorted, RowOf);
  }

  /* ---------------- applying a suggestion ---------------- */

  /** One entry of the optimistic update: a weight the user has becomes its
      value plus the delta, clamped to 0..100; any other key is ignored. */
  function ApplyEntry(w: map<string, int>, k: string, delta: int): (r: map<string, int>)
    ensures r.Keys == w.Keys
  {
    if k in w then w[k := Personalizer.Clamp(w[k] + delta, 0, 100)] else w
  }

  /** The optimistic update over the payload's entries, in order. */
  function ApplyClient(w: map<string, int>, deltas: seq<(string, DeltaValue)>): (r: map<string, int>)
    decreases |deltas|
    ensures r.Keys == w.Keys
  {
    if deltas == [] then w else ApplyClient(ApplyEntry(w, deltas[0].0, ClientDelta(deltas[0].1)), deltas[1..])
  }

  lemma ApplyClientStep(w: map<string, int>, ds: seq<(string, DeltaValue)>, i: nat)
    requires i < |ds|
    ensures ApplyClient(w, ds[i..]) == ApplyClient(ApplyEntry(w, ds[i].0, ClientDelta(ds[i].1)), ds[i + 1..])
  {
    assert ds[i..][1..] == ds[i + 1..];
  }

  /** A weight the payload does not mention is unchanged. */
  lemma {:induction false} ApplyClientOther(w: map<string, int>, deltas: seq<(string, DeltaValue)>, k: string)
    decreases |deltas|
    requires k in w && k !in Personalizer.Keys(deltas)
    ensures ApplyClient(w, deltas)[k] == w[k]
  {
    if deltas != [] {
      ApplyClientOther(ApplyEntry(w, deltas[0].0, ClientDelta(deltas[0].1)), deltas[1..], k);
    }
  }

  /** A weight the user has, named once in the payload, ends at its old value
      plus the delta, clamped to 0..100. */
  lemma {:induction false} ApplyClientAt(w: map<string, int>, deltas: seq<(string, DeltaValue)>, i: nat)
    decreases |deltas|
    requires Personalizer.DistinctKeys(deltas) && i < |deltas| && deltas[i].0 in w
    ensures ApplyClient(w, deltas)[deltas[i].0] == Personalizer.Clamp(w[deltas[i].0] + ClientDelta(deltas[i].1), 0, 100)
  {
    var w1 := ApplyEntry(w, deltas[0].0, ClientDelta(deltas[0].1));
    assert ApplyClient(w, deltas) == ApplyClient(w1, deltas[1..]);
    Personalizer.DistinctTail(deltas);
    if i == 0 {
      Personalizer.DistinctHead(deltas);
      ApplyClientOther(w1, deltas[1..], deltas[0].0);
    } else {
      var k := deltas[i].0;
      ApplyClientAt(w1, deltas[1..], i - 1);
      assert deltas[1..][i - 1] == deltas[i];
      assert k != deltas[0].0;
      assert w1[k] == w[k];
    }
  }

  /** Weights within 0..100 stay within 0..100. */
  lemma {:induction false} ApplyClientBounded(w: map<string, int>, deltas: seq<(string, DeltaValue)>)
    decreases |deltas|
    requires forall k :: k in w ==> 0 <= w[k] <= 100
    ensures forall k :: k in ApplyClient(w, deltas) ==> 0 <= ApplyClient(w, deltas)[k] <= 100
  {
    if deltas != [] {
      ApplyClientBounded(ApplyEntry(w, deltas[0].0, ClientDelta(deltas[0].1)), deltas[1..]);
    }
  }

  /** Nothing stops a second application: applying the same one-entry payload
      twice adds its delta twice while the weight stays within 0..100. */
  lemma ApplyClientTwice(w: map<string, int>, k: string, v: DeltaValue)
    requires k in w
    requires 0 <= w[k] + ClientDelta(v) <= 100 && 0 <= w[k] + 2 * ClientDelta(v) <= 100
    ensures ApplyClient(ApplyClient(w, [(k, v)]), [(k, v)])[k] == w[k] + 2 * ClientDelta(v)
  {
    assert [(k, v)][1..] == [];
  }

  /** A key the user has no weight for: the page ignores it, the service adds
      it starting from 50. */
  lemma UnknownKeyDisagrees(w: map<string, int>, k: string, v: DeltaValue)
    requires k !in w
    ensures ApplyClient(w, [(k, v)]) == w
    ensures Personalizer.ApplyDeltas(w, [(k, v)]) == w[k := Personalizer.Clamp(50 + Personalizer.ServerDelta(v), 0, 100)]
  {
    var d := [(k, v)];
    assert d[1..] == [];
    assert ApplyClient(w, d) == ApplyClient(ApplyEntry(w, k, ClientDelta(v)), []);
    var delta := Personalizer.ServerDelta(v);
    assert Personalizer.ApplyDeltas(w, d) == Personalizer.ApplyDeltas(Personalizer.ApplyOne(w, k, delta), []);
    assert Personalizer.Get(w, k, 50) == 50;
  }

  /* ---------------- scenario rewrite ---------------- */

  function Min(a: int, b: int): int { if a <= b then a else b }
  function Max(a: int, b: int): int { if a >= b then a else b }

  /** The scenario effect's update of the preferences: peak hours raise `time`
      to at least 70 (at most 100), rain sets the walk limit to 600 m and its
      absence raises it to at least 800 m, a train delay caps `time` at 100. */
  function ScenarioRewrite(p: Prefs, sc: Scenario): Prefs
  {
    var time1 := if sc.peak then Min(100, Max(p.weights["time"], 70)) else p.weights["time"];
    var walk := if sc.rain then 600 else Max(p.walkLimit, 800);
    var time2 := if sc.trainDelay then Min(100, time1) else time1;
    p.(weights := p.weights["time" := time2], walkLimit := walk)
  }

  /** Only `time` and the walk limit change; the effect, run again, changes
      nothing more. */
  lemma ScenarioRewriteEffect(p: Prefs, sc: Scenario)
    ensures var q := ScenarioRewrite(p, sc);
      && q.language == p.language && q.voice == p.voice
      && q.weights.Keys == p.weights.Keys
      && (forall k :: k in p.weights && k != "time" ==> q.weights[k] == p.weights[k])
      && (sc.peak ==> q.weights["time"] == Min(100, Max(p.weights["time"], 70)))
      && (!sc.peak && p.weights["time"] <= 100 ==> q.weights["time"] == p.weights["time"])
      && q.walkLimit == (if sc.rain then 600 else Max(p.walkLimit, 800))
      && ScenarioRewrite(q, sc) == q
  {
    var q := ScenarioRewrite(p, sc);
    assert ScenarioRewrite(q, sc).weights == q.weights;
  }

  /** Weights within 0..100 stay within 0..100. */
  lemma ScenarioRewriteBounded(p: Prefs, sc: Scenario)
    requires forall k :: k in p.weights ==> 0 <= p.weights[k] <= 100
    ensures forall k :: k in ScenarioRewrite(p, sc).weights ==> 0 <= ScenarioRewrite(p, sc).weights[k] <= 100
  {
  }

  /** The rewrite reads the previous, already rewritten preferences, so
      switching a scenario off does not restore what it replaced: after rain
      the walk limit is 800 m whatever it was before, and after peak hours
      `time` stays at least 70. */
  lemma ScenarioOffKeeps(p: Prefs, on: Scenario, off: Scenario)
    requires p.weights["time"] <= 100
    requires on.rain && !off.rain && on.peak && !off.peak
    ensures ScenarioRewrite(ScenarioRewrite(p, on), off).walkLimit == 800
    ensures ScenarioRewrite(ScenarioRewrite(p, on), off).weights["time"] == Max(p.weights["time"], 70)
  {
  }

  /* ---------------- debounced save ---------------- */

  const SAVE_DELAY: int := 350

  /** The save effect's pending timeout, with the body it will send. */
  datatype Timer = Idle | Armed(deadline: int, body: Prefs)

  /** A timeout that is due by `now` sends its PUT and is gone. */
  function Fire(timer: Timer, now: int): (Timer, Option<Prefs>)
  {
    if timer.Armed? && timer.deadline <= now then (Idle, Some(timer.body)) else (timer, None)
  }

  /** The effect re-run on a change of `prefs` or `loading`: the previous
      timeout is cleared and, unless loading, a new one is set for 350 ms
      later with the preferences of that moment. */
  function Rearm(loading: bool, prefs: Prefs, now: int): Timer
  {
    if loading then Idle else Armed(now + SAVE_DELAY, prefs)
  }

  /** A change at `now`: a timeout already due fires first, then the timer is
      re-armed. */
  function Change(timer: Timer, loading: bool, prefs: Prefs, now: int): (Timer, Option<Prefs>)
  {
    (Rearm(loading, prefs, now), Fire(timer, now).1)
  }

  function Writes(w: Option<Prefs>): seq<Prefs>
  {
    if w.Some? then [w.value] else []
  }

  /** A run of changes `(time, prefs)`: the final timer and the PUT bodies sent. */
  function Burst(timer: Timer, loading: bool, changes: seq<(int, Prefs)>): (Timer, seq<Prefs>)
    decreases |changes|
  {
    if changes == [] then (timer, [])
    else
      var step := Change(timer, loading, changes[0].1, changes[0].0);
      var rest := Burst(step.0, loading, changes[1..]);
      (rest.0, Writes(step.1) + rest.1)
  }

  /** Changes each less than 350 ms after the previous one send nothing; one
      PUT carrying the last preferences follows 350 ms after the last change. */
  lemma {:induction false} BurstSavesOnce(timer: Timer, changes: seq<(int, Prefs)>)
    decreases |changes|
    requires |changes| > 0
    requires timer.Idle? || changes[0].0 < timer.deadline
    requires forall i :: 0 <= i < |changes| - 1 ==> changes[i + 1].0 < changes[i].0 + SAVE_DELAY
    ensures var last := changes[|changes| - 1];
      Burst(timer, false, changes) == (Armed(last.0 + SAVE_DELAY, last.1), [])
    ensures var last := changes[|changes| - 1];
      forall now :: now >= last.0 + SAVE_DELAY ==> Fire(Burst(timer, false, changes).0, now) == (Idle, Some(last.1))
  {
    var step := Change(timer, false, changes[0].1, changes[0].0);
    assert step == (Armed(changes[0].0 + SAVE_DELAY, changes[0].1), None);
    if |changes| > 1 {
      BurstSavesOnce(step.0, changes[1..]);
      assert changes[1..][|changes[1..]| - 1] == changes[|changes| - 1];
      assert Writes(step.1) + [] == [];
    } else {
      assert Burst(step.0, false, changes[1..]) == (step.0, []);
      assert Writes(step.1) + [] == [];
    }
  }

  /** While loading, changes neither send nor schedule anything. */
  lemma {:induction false} NoSaveWhileLoading(changes: seq<(int, Prefs)>)
    decreases |changes|
    ensures Burst(Idle, true, changes) == (Idle, [])
  {
    if changes != [] {
      var step := Change(Idle, true, changes[0].1, changes[0].0);
      assert step == (Idle, None);
      NoSaveWhileLoading(changes[1..]);
      assert Writes(step.1) + [] == [];
    }
  }

  /* ---------------- the page's state ---------------- */

  /** The page's state: the hook variables, the save timeout, and the writes
      it has sent (`PUT /api/preferences` bodies and `POST /api/suggestions`
      suggestion ids), in order. */
  class Session {
    var prefs: Prefs
    var suggestions: seq<SuggestionRow>
    var applied: map<string, bool>
    var scenario: Scenario
    var loading: bool
    var timer: Timer
    var puts: seq<Prefs>
    var posts: seq<string>

    /** No save is pending while loading, and a pending save carries the
        current preferences. */
    ghost predicate Valid()
      reads this
    {
      && (loading ==> timer == Idle)
      && (timer.Armed? ==> timer.body == prefs)
    }

    /** The state on mount; the mount run of the scenario effect leaves the
        default preferences as they are, and the save effect does nothing
        while loading. */
    constructor ()
      ensures Valid()
      ensures prefs == DEFAULT_PREFS && suggestions == [] && applied == map[]
      ensures scenario == Scenario(false, false, false) && loading
      ensures timer == Idle && puts == [] && posts == []
    {
      var mounted := ScenarioRewrite(DEFAULT_PREFS, Scenario(false, false, false));
      assert mounted.weights == DEFAULT_PREFS.weights;
      prefs := mounted;
      suggestions := [];
      applied := map[];
      scenario := Scenario(false, false, false);
      loading := true;
      timer := Idle;
      puts := [];
      posts := [];
    }

    /** A change of `prefs` at `now`, with the save effect's re-run. */
    method SetPrefs(p: Prefs, now: int)
      requires Valid()
      modifies this
      ensures Valid()
      ensures prefs == p
      ensures timer == Rearm(loading, p, now)
      ensures puts == old(puts) + Writes(Fire(old(timer), now).1)
      ensures suggestions == old(suggestions) && applied == old(applied) && scenario == old(scenario)
      ensures loading == old(loading) && posts == old(posts)
    {
      var step := Change(timer, loading, p, now);
      prefs := p;
      timer := step.0;
      puts := puts + Writes(step.1);
    }

    /** The load on mount (`response` is `None` when a request fails):
        preferences are taken only from a body with weights, suggestions only
        from an array; loading ends either way, which schedules a save of
        whatever preferences are then current. */
    method Load(response: Option<(Option<Prefs>, Option<seq<SuggestionRow>>)>, now: int)
      requires Valid() && loading
      modifies this
      ensures Valid() && !loading
      ensures prefs == (if response.Some? && response.value.0.Some? then response.value.0.value else old(prefs))
      ensures suggestions == (if response.Some? then response.value.1.GetOr([]) else old(suggestions))
      ensures timer == Armed(now + SAVE_DELAY, prefs) && puts == old(puts)
      ensures applied == old(applied) && scenario == old(scenario) && posts == old(posts)
    {
      if response.Some? {
        if response.value.0.Some? {
          prefs := response.value.0.value;
        }
        suggestions := response.value.1.GetOr([]);
      }
      loading := false;
      timer := Rearm(loading, prefs, now);
    }

    /** A switch flipped at `now`: the scenario effect rewrites the
        preferences, and since they change, the save effect schedules a PUT of
        the rewritten preferences. */
    method SetScenario(sc: Scenario, now: int)
      requires Valid()
      modifies this
      ensures Valid() && scenario == sc
      ensures sc == old(scenario) ==> prefs == old(prefs) && timer == old(timer) && puts == old(puts)
      ensures sc != old(scenario) ==> prefs == ScenarioRewrite(old(prefs), sc)
                                      && timer == Rearm(loading, prefs, now)
                                      && puts == old(puts) + Writes(Fire(old(timer), now).1)
      ensures suggestions == old(suggestions) && applied == old(applied)
      ensures loading == old(loading) && posts == old(posts)
    {
      if sc != scenario {
        scenario := sc;
        SetPrefs(ScenarioRewrite(prefs, sc), now);
      }
    }

    /** `applySuggestion(row)`: the optimistic update of the weights the user
        has, the applied mark, and the POST asking the service to apply it. */
    method ApplySuggestion(row: SuggestionRow, now: int)
      requires Valid()
      modifies this
      ensures Valid()
      ensures row.payload.None? ==> prefs == old(prefs) && timer == old(timer) && puts == old(puts)
      ensures row.payload.Some? ==> prefs == old(prefs).(weights := ApplyClient(old(prefs).weights, row.payload.value))
                                    && timer == Rearm(loading, prefs, now)
                                    && puts == old(puts) + Writes(Fire(old(timer), now).1)
      ensures applied == old(applied)[row.id := true]
      ensures posts == old(posts) + [row.id]
      ensures suggestions == old(suggestions) && scenario == old(scenario) && loading == old(loading)
    {
      if row.payload.Some? {
        var ds := row.payload.value;
        var w: map<string, int> := prefs.weights;
        var i := 0;
        while i < |ds|
          modifies {}
          invariant 0 <= i <= |ds|
          invariant ApplyClient(w, ds[i..]) == ApplyClient(prefs.weights, ds)
          invariant w.Keys == prefs.weights.Keys
        {
          var k, raw := ds[i].0, ds[i].1;
          ApplyClientStep(w, ds, i);
          var delta := ClientDelta(raw);
          w := ApplyEntry(w, k, delta);
          i := i + 1;
        }
        assert ds[i..] == [];
        var next: Weights := w;
        SetPrefs(prefs.(weights := next), now);
      }
      applied := applied[row.id := true];
      posts := posts + [row.id];
    }

    /** `recalcSuggestions`: the suggestions ranked for the current weights
        and scenario. */
    method Recalc()
      requires Valid()
      modifies this
      ensures Valid()
      ensures suggestions == Ranked(old(suggestions), prefs.weights, scenario)
      ensures prefs == old(prefs) && applied == old(applied) && scenario == old(scenario)
      ensures loading == old(loading) && timer == old(timer) && puts == old(puts) && posts == old(posts)
    {
      suggestions := Recalculate(suggestions, prefs.weights, scenario);
    }

    /** The clock reaches `now`: a due save is sent. */
    method Tick(now: int)
      requires Valid()
      modifies this
      ensures Valid()
      ensures (timer, puts) == (Fire(old(timer), now).0, old(puts) + Writes(Fire(old(timer), now).1))
      ensures prefs == old(prefs) && suggestions == old(suggestions) && applied == old(applied)
      ensures scenario == old(scenario) && loading == old(loading) && posts == old(posts)
    {
      var step := Fire(timer, now);
      timer := step.0;
      puts := puts + Writes(step.1);
    }
  }

  /** Whether a suggestion still shows its Apply button. */
  predicate ShowsApply(applied: map<string, bool>, id: string)
  {
    !(id in applied && applied[id])
  }

  /** Marking a suggestion applied hides its button and no other. */
  lemma MarkHidesButton(applied: map<string, bool>, id: string, other: string)
    ensures !ShowsApply(applied[id := true], id)
    ensures other != id ==> ShowsApply(applied[id := true], other) == ShowsApply(applied, other)
  {
  }

  /** The save sent after a burst is the current preferences: a pending
      timeout always carries the preferences of the moment it fires. */
  lemma PendingSaveIsCurrent(timer: Timer, prefs: Prefs, now: int)
    requires timer.Armed? ==> timer.body == prefs
    ensures Fire(timer, now).1.Some? ==> Fire(timer, now).1.value == prefs
  {
  }

  /* ---------------- the icon and the rail nudge ---------------- */

  datatype Icon = Train | Bus | Tuk

  /** The suggestion's icon: any kind containing `rail` gets the train. */
  function IconOf(kind: string): Icon
  {
    if Contains(kind, "rail") then Train else if Contains(kind, "cost") then Bus else Tuk
  }

  /** The icon matches `rail` anywhere in the kind, the nudge only the exact
      kind: a `light_rail` suggestion shows the train but is not pushed down
      when trains are delayed. */
  lemma RailIconWithoutNudge(sc: Scenario)
    ensures IconOf("light_rail") == Train
    ensures IconOf("rail") == Train
    ensures Nudge("light_rail", sc) == Nudge("light_rail", sc.(trainDelay := false))
    ensures sc.trainDelay ==> Nudge("rail", sc) == Nudge("rail", sc.(trainDelay := false)) - 10
  {
    ContainsEnding("light_", "rail");
    assert "light_" + "rail" == "light_rail";
    ContainsEnding("", "rail");
    assert "" + "rail" == "rail";
  }

  /** The service's suggestions are of kinds cost, time and comfort, so the
      rail nudge never applies to them. */
  lemma ServedKindsNotRail(stored: Option<Personalizer.Weights>, sc: Scenario)
    ensures forall s :: s in Personalizer.Ordered(stored) ==> s.kind in {"cost", "time", "comfort"}
    ensures forall s :: s in Personalizer.Ordered(stored) ==> Nudge(s.kind, sc) == Nudge(s.kind, sc.(trainDelay := false))
  {
    Personalizer.OrderedShape(stored);
  }
}
