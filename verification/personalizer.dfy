/** The profile-personalization service's preference rules: context-based
    weight tweaks on read, onboarding defaults, the order of the three fixed
    suggestions, and the clamped weight deltas applied when a suggestion is
    accepted. Weights are JSON objects from names to integers. */
module Personalizer {
  import opened Wrappers
  import opened Text

  type Weights = map<string, int>

  /** `w.get(k, default)`. */
  function Get(w: Weights, k: string, default: int): int
  {
    if k in w then w[k] else default
  }

  /** `max(lo, min(hi, x))`. */
  function Clamp(x: int, lo: int, hi: int): (r: int)
    requires lo <= hi
    ensures lo <= r <= hi
    ensures r == x || (x < lo && r == lo) || (x > hi && r == hi)
  {
    if x < lo then lo else if x > hi then hi else x
  }

  /* ---------------- context ---------------- */

  /** `now.hour in range(7, 10) or now.hour in range(16, 19)`. */
  predicate PeakHour(hour: int)
  {
    7 <= hour < 10 || 16 <= hour < 19
  }

  /** Of the hours of a day, exactly the morning 7, 8, 9 and the evening 16,
      17, 18 are peak hours. */
  lemma PeakHours()
    ensures (set h | 0 <= h < 24 && PeakHour(h)) == {7, 8, 9, 16, 17, 18}
  {
    var s := set h | 0 <= h < 24 && PeakHour(h);
    forall h | h in s ensures h in {7, 8, 9, 16, 17, 18} {
      assert 7 <= h <= 9 || 16 <= h <= 18;
    }
  }

  datatype Context = Context(peakHour: bool, rain: bool, trainDelayed: bool)

  /** `fetch_context`: only the hour is read; rain and train delay are fixed off. */
  function FetchContext(hour: int): (c: Context)
    ensures c.peakHour <==> hour in {7, 8, 9, 16, 17, 18}
    ensures !c.rain && !c.trainDelayed
  {
    Context(PeakHour(hour), false, false)
  }

  /* ---------------- adjust_weights ---------------- */

  /** The weights after the context tweaks, on the copy of the stored weights:
      peak hours raise `time` by 10 (capped at 100), a train delay lowers
      `train` by 20 (floored at 0) and raises `bus` by 10 (capped at 100);
      absent weights count as 50. */
  function AdjustedWeights(w: Weights, ctx: Context): Weights
  {
    var w1 := if ctx.peakHour then w["time" := Min(100, Get(w, "time", 50) + 10)] else w;
    if ctx.trainDelayed then
      var w2 := w1["train" := Max(0, Get(w1, "train", 50) - 20)];
      w2["bus" := Min(100, Get(w2, "bus", 50) + 10)]
    else w1
  }

  function Min(a: int, b: int): int { if a <= b then a else b }
  function Max(a: int, b: int): int { if a >= b then a else b }

  /** `walk_limit_m` as it sits in the preference record: the key may be
      missing, hold `None` (a `NULL` column), or hold a number. */
  datatype Field = Absent | Null | Val(v: int)

  /** The walk limit written back, or `None` for the `TypeError` of
      `min(None, 500)` in the rain. */
  function AdjustedWalk(walk: Field, ctx: Context): Option<Field>
  {
    var limit := if walk.Absent? then Val(900) else walk;
    if !ctx.rain then Some(limit)
    else if limit.Null? then None
    else Some(Val(Min(limit.v, 500)))
  }

  /** The preference record `get_prefs` builds and hands to `adjust_weights`,
      which updates it in place. */
  class PrefsRecord {
    var weights: Option<Weights>
    var walkLimit: Field

    constructor (weights: Option<Weights>, walkLimit: Field)
      ensures this.weights == weights && this.walkLimit == walkLimit
    {
      this.weights := weights;
      this.walkLimit := walkLimit;
    }

    /** `adjust_weights(prefs, context)`; `ok` is false when it raises, in which
        case the record is left as it was. */
    method AdjustWeights(ctx: Context) returns (ok: bool)
      modifies this
      ensures ok <==> AdjustedWalk(old(walkLimit), ctx).Some?
      ensures ok ==> weights == Some(AdjustedWeights(old(weights).GetOr(map[]), ctx))
                     && walkLimit == AdjustedWalk(old(walkLimit), ctx).value
      ensures !ok ==> weights == old(weights) && walkLimit == old(walkLimit)
    {
      var w := weights.GetOr(map[]);
      var limit := if walkLimit.Absent? then Val(900) else walkLimit;
      if ctx.peakHour {
        w := w["time" := Min(100, Get(w, "time", 50) + 10)];
      }
      if ctx.rain {
        if limit.Null? {
          return false;
        }
        limit := Val(Min(limit.v, 500));
      }
      if ctx.trainDelayed {
        w := w["train" := Max(0, Get(w, "train", 50) - 20)];
        w := w["bus" := Min(100, Get(w, "bus", 50) + 10)];
      }
      weights := Some(w);
      walkLimit := limit;
      ok := true;
    }
  }

  /** Each flag does what it says and nothing else: peak hours set `time` to
      `min(100, time + 10)`, a train delay sets `train` to `max(0, train - 20)`
      and `bus` to `min(100, bus + 10)` (missing weights counting as 50),
      every other weight is untouched, and with no flag set the weights come
      back as they were. */
  lemma AdjustedWeightsEffect(w: Weights, ctx: Context)
    ensures var r := AdjustedWeights(w, ctx);
      && (ctx.peakHour ==> "time" in r && r["time"] == Min(100, Get(w, "time", 50) + 10))
      && (!ctx.peakHour ==> Get(r, "time", 50) == Get(w, "time", 50))
      && (ctx.trainDelayed ==> "train" in r && r["train"] == Max(0, Get(w, "train", 50) - 20)
                               && "bus" in r && r["bus"] == Min(100, Get(w, "bus", 50) + 10))
      && (forall k :: k in w && k !in {"time", "train", "bus"} ==> k in r && r[k] == w[k])
      && r.Keys == w.Keys + (if ctx.peakHour then {"time"} else {}) + (if ctx.trainDelayed then {"train", "bus"} else {})
      && (!ctx.peakHour && !ctx.trainDelayed ==> r == w)
  {
  }

  /** Weights within 0..100 stay within 0..100. */
  lemma AdjustedWeightsBounded(w: Weights, ctx: Context)
    requires forall k :: k in w ==> 0 <= w[k] <= 100
    ensures forall k :: k in AdjustedWeights(w, ctx) ==> 0 <= AdjustedWeights(w, ctx)[k] <= 100
  {
  }

  /** Rain caps the walk limit at 500 m (a missing limit counting as 900 m);
      without rain a present limit is kept and a missing one becomes 900 m;
      only a `NULL` limit in the rain raises. */
  lemma AdjustedWalkEffect(walk: Field, ctx: Context)
    ensures ctx.rain && walk.Val? ==> AdjustedWalk(walk, ctx) == Some(Val(Min(walk.v, 500)))
    ensures ctx.rain && walk.Absent? ==> AdjustedWalk(walk, ctx) == Some(Val(500))
    ensures ctx.rain && walk.Null? ==> AdjustedWalk(walk, ctx).None?
    ensures !ctx.rain ==> AdjustedWalk(walk, ctx) == Some(if walk.Absent? then Val(900) else walk)
    ensures AdjustedWalk(walk, ctx).Some? && AdjustedWalk(walk, ctx).value.Val? ==> AdjustedWalk(walk, ctx).value.v <= Get900(walk)
  {
  }

  function Get900(walk: Field): int
  {
    if walk.Val? then walk.v else 900
  }

  /** As served: the context the service computes never has rain, so reading
      preferences never raises, and the walk limit is never changed except
      that a missing one is filled in. */
  lemma ServedContextNeverRaises(hour: int, walk: Field)
    ensures AdjustedWalk(walk, FetchContext(hour)) == Some(if walk.Absent? then Val(900) else walk)
  {
  }

  /* ---------------- onboarding ---------------- */

  /** The weights and walk limit onboarding stores. */
  function OnboardingWeights(fasterVsCheaper: string, longWalkOk: bool): (Weights, int)
  {
    var base := map["time" := 50, "cost" := 50, "comfort" := 50, "train" := 50, "bus" := 50, "tuk" := 50];
    var w := if fasterVsCheaper == "faster" then base["time" := 70]["cost" := 40]
             else base["time" := 40]["cost" := 70];
    (w, if longWalkOk then 1000 else 500)
  }

  /** "faster" favours time over cost by 70 to 40, any other answer the reverse;
      the other four weights are 50; long walks allow 1000 m, else 500 m. */
  lemma OnboardingShape(fasterVsCheaper: string, longWalkOk: bool)
    ensures var (w, walk) := OnboardingWeights(fasterVsCheaper, longWalkOk);
      && w.Keys == {"time", "cost", "comfort", "train", "bus", "tuk"}
      && (fasterVsCheaper == "faster" <==> w["time"] > w["cost"])
      && (fasterVsCheaper == "faster" ==> w["time"] == 70 && w["cost"] == 40)
      && (fasterVsCheaper != "faster" ==> w["time"] == 40 && w["cost"] == 70)
      && w["comfort"] == 50 && w["train"] == 50 && w["bus"] == 50 && w["tuk"] == 50
      && (forall k :: k in w ==> 0 <= w[k] <= 100)
      && (longWalkOk <==> walk == 1000) && (walk == 1000 || walk == 500)
  {
  }

  /* ---------------- suggestions ---------------- */

  /** A weight delta as it sits in a suggestion payload: a string such as
      `"+10"` or a JSON integer such as `-5`. */
  datatype DeltaValue = Str(s: string) | Int(i: int)

  /** A suggestion: the suffix its id is derived from, its kind, and the
      weight deltas of its payload in object order. */
  datatype Suggestion = Suggestion(suffix: string, kind: string, deltas: seq<(string, DeltaValue)>)

  const COST_SAVER: Suggestion := Suggestion("cost_saver_if_peak", "cost", [("cost", Str("+10")), ("time", Int(-5))])
  const FASTER_COMMUTE: Suggestion := Suggestion("prefer_faster_mornings", "time", [("time", Str("+10"))])
  const COMFORT_BUMP: Suggestion := Suggestion("comfort_bump_if_long_walk", "comfort", [("comfort", Str("+5"))])

  const DEFAULT_WEIGHTS: Weights := map["time" := 60, "cost" := 50, "comfort" := 50]

  /** The weights the ordering reads: the stored ones, or the defaults when
      there is no preference row or its weights are null or empty (`or`). */
  function SuggestionWeights(stored: Option<Weights>): Weights
  {
    if stored.None? || stored.value == map[] then DEFAULT_WEIGHTS else stored.value
  }

  /** `get_suggestions`' order: time first for users who already value time
      (>= 60) and not cost (<= 50), otherwise cost first; comfort always last. */
  function Ordered(stored: Option<Weights>): seq<Suggestion>
  {
    var w := SuggestionWeights(stored);
    if Get(w, "time", 50) >= 60 && Get(w, "cost", 50) <= 50 then [FASTER_COMMUTE, COST_SAVER, COMFORT_BUMP]
    else [COST_SAVER, FASTER_COMMUTE, COMFORT_BUMP]
  }

  /** Always the same three suggestions, comfort last, time first exactly when
      time >= 60 and cost <= 50; users without stored weights get time first. */
  lemma OrderedShape(stored: Option<Weights>)
    ensures var r := Ordered(stored);
      && |r| == 3 && multiset(r) == multiset{COST_SAVER, FASTER_COMMUTE, COMFORT_BUMP}
      && r[2] == COMFORT_BUMP
      && (r[0] == FASTER_COMMUTE <==> Get(SuggestionWeights(stored), "time", 50) >= 60 && Get(SuggestionWeights(stored), "cost", 50) <= 50)
      && (r[0] == FASTER_COMMUTE || r[0] == COST_SAVER)
    ensures stored.None? || stored == Some(map[]) ==> Ordered(stored)[0] == FASTER_COMMUTE
  {
    assert COST_SAVER != FASTER_COMMUTE;
    var w := SuggestionWeights(stored);
    if Get(w, "time", 50) >= 60 && Get(w, "cost", 50) <= 50 {
      assert Ordered(stored) == [FASTER_COMMUTE, COST_SAVER, COMFORT_BUMP];
    } else {
      assert Ordered(stored) == [COST_SAVER, FASTER_COMMUTE, COMFORT_BUMP];
    }
    if stored.None? || stored == Some(map[]) {
      OrderedDefault(stored);
    }
  }

  lemma OrderedDefault(stored: Option<Weights>)
    requires stored.None? || stored == Some(map[])
    ensures Ordered(stored)[0] == FASTER_COMMUTE
  {
  }

  /* ---------------- apply_suggestion ---------------- */

  lemma IntToStringNoPlus(i: int)
    ensures '+' !in IntToString(i)
  {
  }

  /** `int(str(v).replace("+", ""))`, 0 when that raises. */
  function ServerDelta(v: DeltaValue): int
  {
    var text := match v case Str(s) => s case Int(i) => IntToString(i);
    PyInt(ReplaceAll(text, "+", "")).GetOr(0)
  }

  /** Integer deltas are taken as they are. */
  lemma ServerDeltaInt(i: int)
    ensures ServerDelta(Int(i)) == i
  {
    IntToStringNoPlus(i);
    ReplaceAllAbsentChar(IntToString(i), '+', "");
    PyIntOfIntToString(i);
  }

  /** One key of the delta loop: the weight (50 when absent) plus the delta,
      clamped to 0..100; keys not yet in the weights are added. */
  function ApplyOne(w: Weights, k: string, delta: int): Weights
  {
    w[k := Clamp(Get(w, k, 50) + delta, 0, 100)]
  }

  /** The delta loop over the payload's weights, in order. */
  function ApplyDeltas(w: Weights, deltas: seq<(string, DeltaValue)>): Weights
    decreases |deltas|
  {
    if deltas == [] then w else ApplyDeltas(ApplyOne(w, deltas[0].0, ServerDelta(deltas[0].1)), deltas[1..])
  }

  lemma ApplyDeltasStep(w: Weights, ds: seq<(string, DeltaValue)>, i: nat)
    requires i < |ds|
    ensures ApplyDeltas(w, ds[i..]) == ApplyDeltas(ApplyOne(w, ds[i].0, ServerDelta(ds[i].1)), ds[i + 1..])
  {
    assert ds[i..][1..] == ds[i + 1..];
  }

  /** The keys of a JSON object appear once each. */
  predicate DistinctKeys(deltas: seq<(string, DeltaValue)>)
  {
    forall i, j :: 0 <= i < j < |deltas| ==> deltas[i].0 != deltas[j].0
  }

  /** The weight names a payload mentions. */
  function Keys(deltas: seq<(string, DeltaValue)>): set<string>
    decreases |deltas|
  {
    if deltas == [] then {} else {deltas[0].0} + Keys(deltas[1..])
  }

  datatype ApplyOutcome = SuggestionNotFound | PreferencesNotFound | Applied(weights: Weights)

  /** `apply_suggestion`: the suggestion's payload deltas (`None` when no row
      has that id for the user) applied to the stored weights (`None` when the
      user has no preference row; `Some(None)` for null weights). */
  method ApplySuggestion(deltas: Option<seq<(string, DeltaValue)>>, stored: Option<Option<Weights>>)
    returns (r: ApplyOutcome)
    ensures deltas.None? ==> r == SuggestionNotFound
    ensures deltas.Some? && stored.None? ==> r == PreferencesNotFound
    ensures deltas.Some? && stored.Some? ==> r == Applied(ApplyDeltas(stored.value.GetOr(map[]), deltas.value))
  {
    if deltas.None? {
      return SuggestionNotFound;
    }
    if stored.None? {
      return PreferencesNotFound;
    }
    var ds := deltas.value;
    var weights := stored.value.GetOr(map[]);
    var i := 0;
    while i < |ds|
      invariant 0 <= i <= |ds|
      invariant ApplyDeltas(weights, ds[i..]) == ApplyDeltas(stored.value.GetOr(map[]), ds)
    {
      var k, v := ds[i].0, ds[i].1;
      ApplyDeltasStep(weights, ds, i);
      var delta := ServerDelta(v);
      weights := ApplyOne(weights, k, delta);
      i := i + 1;
    }
    assert ds[i..] == [];
    return Applied(weights);
  }

  /** Applying deltas adds exactly the payload's keys that were missing. */
  lemma {:induction false} ApplyDeltasKeys(w: Weights, deltas: seq<(string, DeltaValue)>)
    decreases |deltas|
    ensures ApplyDeltas(w, deltas).Keys == w.Keys + Keys(deltas)
  {
    if deltas != [] {
      ApplyDeltasKeys(ApplyOne(w, deltas[0].0, ServerDelta(deltas[0].1)), deltas[1..]);
    }
  }

  /** A weight the payload does not mention is unchanged. */
  lemma {:induction false} ApplyDeltasOther(w: Weights, deltas: seq<(string, DeltaValue)>, k: string)
    decreases |deltas|
    requires k in w && k !in Keys(deltas)
    ensures k in ApplyDeltas(w, deltas) && ApplyDeltas(w, deltas)[k] == w[k]
  {
    if deltas != [] {
      ApplyDeltasOther(ApplyOne(w, deltas[0].0, ServerDelta(deltas[0].1)), deltas[1..], k);
    }
  }

  /** The `i`-th weight of a payload without repeated keys ends at its old
      value (50 when absent) plus its delta, clamped to 0..100. */
  lemma {:induction false} ApplyDeltasAt(w: Weights, deltas: seq<(string, DeltaValue)>, i: nat, d: int)
    decreases |deltas|
    requires DistinctKeys(deltas) && i < |deltas| && d == ServerDelta(deltas[i].1)
    ensures var k := deltas[i].0;
      k in ApplyDeltas(w, deltas) && ApplyDeltas(w, deltas)[k] == Clamp(Get(w, k, 50) + d, 0, 100)
  {
    if i == 0 {
      ApplyDeltasAtHead(w, deltas, d);
    } else {
      var w1 := ApplyOne(w, deltas[0].0, ServerDelta(deltas[0].1));
      var k := deltas[i].0;
      assert k in ApplyDeltas(w1, deltas[1..]) && ApplyDeltas(w1, deltas[1..])[k] == Clamp(Get(w1, k, 50) + d, 0, 100) by {
        DistinctTail(deltas);
        assert deltas[1..][i - 1] == deltas[i];
        ApplyDeltasAt(w1, deltas[1..], i - 1, d);
      }
      assert Get(w1, k, 50) == Get(w, k, 50) by {
        assert k != deltas[0].0;
        ApplyOneOther(w, deltas[0].0, ServerDelta(deltas[0].1), k);
      }
      assert ApplyDeltas(w, deltas) == ApplyDeltas(w1, deltas[1..]);
      ClampedAt(ApplyDeltas(w, deltas), ApplyDeltas(w1, deltas[1..]), k, Get(w, k, 50), Get(w1, k, 50), d);
    }
  }

  lemma ClampedAt(m1: Weights, m2: Weights, k: string, g1: int, g2: int, d: int)
    requires m1 == m2 && g1 == g2 && k in m2 && m2[k] == Clamp(g2 + d, 0, 100)
    ensures k in m1 && m1[k] == Clamp(g1 + d, 0, 100)
  {
  }

  lemma ApplyDeltasAtHead(w: Weights, deltas: seq<(string, DeltaValue)>, d: int)
    requires DistinctKeys(deltas) && deltas != [] && d == ServerDelta(deltas[0].1)
    ensures var k := deltas[0].0;
      k in ApplyDeltas(w, deltas) && ApplyDeltas(w, deltas)[k] == Clamp(Get(w, k, 50) + d, 0, 100)
  {
    var w1 := ApplyOne(w, deltas[0].0, d);
    assert ApplyDeltas(w, deltas) == ApplyDeltas(w1, deltas[1..]);
    DistinctTail(deltas);
    DistinctHead(deltas);
    ApplyDeltasOther(w1, deltas[1..], deltas[0].0);
  }

  lemma ApplyOneOther(w: Weights, k0: string, delta: int, k: string)
    requires k != k0
    ensures Get(ApplyOne(w, k0, delta), k, 50) == Get(w, k, 50)
  {
  }

  lemma DistinctTail(deltas: seq<(string, DeltaValue)>)
    requires DistinctKeys(deltas) && deltas != []
    ensures DistinctKeys(deltas[1..])
  {
    forall i, j | 0 <= i < j < |deltas[1..]| ensures deltas[1..][i].0 != deltas[1..][j].0 {
      assert deltas[1..][i] == deltas[i + 1] && deltas[1..][j] == deltas[j + 1];
    }
  }

  /** In a payload without repeated keys, the first key is not among the rest. */
  lemma {:induction false} DistinctHead(deltas: seq<(string, DeltaValue)>)
    decreases |deltas|
    requires DistinctKeys(deltas) && deltas != []
    ensures deltas[0].0 !in Keys(deltas[1..])
  {
    if |deltas| > 1 {
      var rest := deltas[1..];
      DistinctTail(deltas);
      var d := [deltas[0]] + rest[1..];
      assert rest[1..] == deltas[2..];
      forall i, j | 0 <= i < j < |d| ensures d[i].0 != d[j].0 {
        assert d[i] == deltas[if i == 0 then 0 else i + 1];
        assert d[j] == deltas[j + 1];
      }
      DistinctHead(d);
      assert d[1..] == rest[1..];
      assert rest[0].0 != deltas[0].0 by { assert rest[0] == deltas[1]; }
    }
  }

  /** Weights within 0..100 stay within 0..100 after any suggestion. */
  lemma {:induction false} ApplyDeltasBounded(w: Weights, deltas: seq<(string, DeltaValue)>)
    decreases |deltas|
    requires forall k :: k in w ==> 0 <= w[k] <= 100
    ensures forall k :: k in ApplyDeltas(w, deltas) ==> 0 <= ApplyDeltas(w, deltas)[k] <= 100
  {
    if deltas != [] {
      ApplyDeltasBounded(ApplyOne(w, deltas[0].0, ServerDelta(deltas[0].1)), deltas[1..]);
    }
  }
}
