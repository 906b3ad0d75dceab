# GamanaGo core logic in Dafny

GamanaGo is a Sri Lankan travel assistant. A set of Python agents serve it, and a
Next.js web client sits on top. This project models the parts of the system
that compute something and proves properties of them:

- **The personalisation page** (`apps/web/app/personalize/page.tsx`): the localised
  text fallback `t`, the scoring and stable ranking of suggestions, the optimistic
  and clamped weight update of `applySuggestion`, the scenario effect that rewrites
  preferences, and the 350 ms debounced save that is suppressed while loading. The
  page's hook state is the class `Personalize.Session`.
- **The live map's position store** (`apps/web/components/RealtimeMap.tsx`): every
  server-sent event replaces its trip's entry, and the markers are the entries. The
  class is `Positions.PositionStore`.
- **The route optimizer's planner** (`apps/agents/route-optimizer/app/planner.py`):
  - the time helpers;
  - the in-memory snapshot that `load_snapshot` builds: trips, per-stop departures
    sorted by time, and symmetric walking transfers;
  - the earliest-arrival, label-setting search over that snapshot;
  - the leg reconstruction and the answer.
- **The profile personaliser** (`apps/agents/profile-personalizer/app/main.py`):
  - the context weight tweaks `adjust_weights`, with the peak-hour rule;
  - the onboarding weights;
  - the order of the three suggestions;
  - the delta loop of `apply_suggestion`.
- **The timetable tool** (`apps/agents/data-aggregator/app/tools/make_gtfs_from_timetable.py`):
  - 12-hour clock parsing and the `HH:MM:SS` conversions;
  - stop times spread evenly over a trip that may run past midnight;
  - the route stop lists, where each inbound list is the outbound list reversed;
  - the `stop_times.txt` rows of each trip.
- **The realtime service** (`apps/agents/data-aggregator/app/realtime.py`):
  - the per-trip Redis key and its inverse;
  - the stored hash and the published payload of a driver beacon;
  - the position listing;
  - the server-sent event generator with its 15 s heartbeat, read back by a
    browser as section 9.2 (server-sent events) of the WHATWG HTML Living
    Standard describes.

Modules:
- `Wrappers`: `Option`.
- `Text`: the number and string routines the sources rely on. Python `int()`,
  JavaScript `parseInt`, `str.split`, `str.replace`, `strip` and lower-casing.
- `Seqs`: reversal and a stable sort by an integer key.
- `ClockText`: `hms_to_sec`/`to_seconds`, `sec_to_hm` and `from_seconds`.
- `Timetable`, `Realtime`, `Positions`, `Personalizer`, `Personalize` and
  `Planner`: one module per core file.

Nothing runs I/O. Clock readings are parameters: `time.time()`, `Date.now()`, the
current hour and the moments of state changes. So are the results of network and
database requests and the walking time of a transfer.

Three behaviours of the client code that the model keeps as written:
- The rail nudge in the score applies only when the kind is exactly `rail`
  (apps/web/app/personalize/page.tsx:354). The icon test matches any kind that
  contains `rail` (apps/web/app/personalize/page.tsx:630).
- The train-delay scenario sets `time` to `min(100, time + 0)`, so it changes no
  weight (apps/web/app/personalize/page.tsx:282-286).
- The scenario effect (apps/web/app/personalize/page.tsx:269-291) runs on mount,
  while loading, and again on every scenario change. Each run replaces `prefs`,
  and a change of `prefs` outside loading schedules the debounced save
  (apps/web/app/personalize/page.tsx:256-266). `Personalize.Session.constructor`
  applies the mount run; `Personalize.Session.SetScenario` states that the save is
  scheduled.

## Model

| member | source | states |
|---|---|---|
| `Text.PyIntOfIntToString` | apps/agents/route-optimizer/app/planner.py:11 | Python `int()` reads back any integer that `str` wrote, negative ones included |
| `Text.PyIntUnsigned` | apps/agents/profile-personalizer/app/main.py:325 | for unsigned text of ASCII characters without surrounding white space, `int()` succeeds exactly on digit groups with single underscores, and its value is that of the digits |
| `Text.JsParseIntPrefix` | apps/web/app/personalize/page.tsx:302 | `parseInt(s, 10)` reads the leading digits and ignores whatever follows them |
| `Text.JsParseIntOfNegative` | apps/web/app/personalize/page.tsx:302 | `parseInt` reads a minus sign followed by digits as the negative value |
| `Seqs.SortByCorrect` | apps/web/app/personalize/page.tsx:357 | the stable sort returns a permutation of its input, ordered by key, and elements of equal key keep their input order |
| `ClockText.HmsToSecondsOfInts` | apps/agents/route-optimizer/app/planner.py:10-12 | `"h:m:s"` is read as `h*3600 + m*60 + s` for any integers; hours are not bounded by a day |
| `ClockText.HmsToSecondsOfHms` | apps/agents/data-aggregator/app/tools/make_gtfs_from_timetable.py:15-16 | a zero-padded `"HH:MM:SS"` is read as its seconds |
| `ClockText.FromSecondsRoundTrip` | apps/agents/data-aggregator/app/tools/make_gtfs_from_timetable.py:18-21 | reading back what `from_seconds` writes gives the seconds modulo a day |
| `ClockText.HmsRoundTrip` | apps/agents/data-aggregator/app/tools/make_gtfs_from_timetable.py:18-21 | the other direction: for an in-range time, `from_seconds` writes exactly the zero-padded `HH:MM:SS` text |
| `ClockText.SecToHmOfFields` | apps/agents/route-optimizer/app/planner.py:14-17 | for a time within a day, `sec_to_hm(hms_to_sec("hh:mm:ss"))` is `"hh:mm"` with the seconds dropped |
| `ClockText.DayClockRoundTrip` | apps/agents/data-aggregator/app/tools/make_gtfs_from_timetable.py:15-21 | a zero-padded `HH:MM:SS` time of day is read as its seconds, which lie within a day, and `from_seconds` writes the same text back |
| `ClockText.FromSecondsSameDay` | apps/agents/data-aggregator/app/tools/make_gtfs_from_timetable.py:18-21 | instants that agree modulo a day give the same text |
| `ClockText.SecToHmShape` | apps/agents/route-optimizer/app/planner.py:14-17 | `sec_to_hm` gives five characters `HH:MM` naming the hour and minute of the time of day, and the same text for instants whole days apart |
| `Timetable.ClockOf` | apps/agents/data-aggregator/app/tools/make_gtfs_from_timetable.py:10-13 | the time is produced exactly when both fields parse, and it always ends in `:00` |
| `Timetable.To24h` | apps/agents/data-aggregator/app/tools/make_gtfs_from_timetable.py:5-13 | a successful conversion always ends in `:00` |
| `Timetable.Hour24OfClockHour` | apps/agents/data-aggregator/app/tools/make_gtfs_from_timetable.py:11-12 | on hours 1..12 the rule gives an hour 0..23 that is 12 or more exactly for pm and equals the clock hour modulo 12, so 12am is 0 and 12pm is 12 |
| `Timetable.To24hOfClock` | apps/agents/data-aggregator/app/tools/make_gtfs_from_timetable.py:5-13 | clock text with `:` or `.`, optional spaces and an am/pm marker in any case is read as the 24-hour `HH:MM:00`; text without `am` counts as pm |
| `Timetable.RoundHalfEvenNearest` | apps/agents/data-aggregator/app/tools/make_gtfs_from_timetable.py:27 | Python's `round` on the exact quotient is within half a unit, and even on a tie |
| `Timetable.RoundHalfEvenExact` | apps/agents/data-aggregator/app/tools/make_gtfs_from_timetable.py:27 | an exact multiple rounds to its quotient |
| `Timetable.RoundHalfEvenMonotone` | apps/agents/data-aggregator/app/tools/make_gtfs_from_timetable.py:27 | rounding preserves order |
| `Timetable.Unwrap` | apps/agents/data-aggregator/app/tools/make_gtfs_from_timetable.py:25 | the unwrapped arrival keeps the arrival's time of day; for times within a day it lies strictly after the departure and at most a day later |
| `Timetable.SpacedSecondsShape` | apps/agents/data-aggregator/app/tools/make_gtfs_from_timetable.py:26-27 | the spaced instants start at the departure, end at the arrival, never decrease and stay between the two |
| `Timetable.EvenlySpacedTimesEdges` | apps/agents/data-aggregator/app/tools/make_gtfs_from_timetable.py:23-27 | the call raises exactly on a malformed time or a single stop (division by zero); no stops give no times |
| `Timetable.EvenlySpacedTimesShape` | apps/agents/data-aggregator/app/tools/make_gtfs_from_timetable.py:23-27 | for at least two stops, one time per stop: the first at the departure, the last at the arrival reduced to a day, and the unwrapped instants non-decreasing up to at most a day after the departure |
| `Timetable.EvenlySpacedTimesEndpoints` | apps/agents/data-aggregator/app/tools/make_gtfs_from_timetable.py:23-27 | for times written as `from_seconds` writes them, the first and last stop times are the departure and arrival texts themselves |
| `Timetable.RouteStopsBothDirections` | apps/agents/data-aggregator/app/tools/make_gtfs_from_timetable.py:40-54 | every key names `out` or `in`, and every route has both directions |
| `Timetable.RouteStopsReversed` | apps/agents/data-aggregator/app/tools/make_gtfs_from_timetable.py:40-54 | each direction's stop list is the other direction's list reversed |
| `Timetable.RouteStopsLong` | apps/agents/data-aggregator/app/tools/make_gtfs_from_timetable.py:40-54 | every stop list has at least two stops, so spacing never divides by zero |
| `Timetable.AllTripsRouted` | apps/agents/data-aggregator/app/tools/make_gtfs_from_timetable.py:121-134 | every bundled trip's (route, direction) has a stop list, so the lookup never raises |
| `Timetable.RowsShape` | apps/agents/data-aggregator/app/tools/make_gtfs_from_timetable.py:136-137 | one row per stop, numbered 1..n in stop order, with arrival equal to departure |
| `Timetable.TripStopTimesShape` | apps/agents/data-aggregator/app/tools/make_gtfs_from_timetable.py:132-137 | for a routed trip of at least two stops whose times read as times of day, one row per stop in stop-list order, numbered from 1, arrival equal to departure, at the time of day of the matching evenly spaced instant; the first row is at the departure and the last at the arrival, both as `from_seconds` writes them |
| `Timetable.TripWritten` | apps/agents/data-aggregator/app/tools/make_gtfs_from_timetable.py:132-137 | a routed trip of at least two stops whose times are zero-padded times of day is written in full: one row per stop, the first row carrying the trip's own departure text and the last its arrival text |
| `Timetable.AllTripsClockTimed` | apps/agents/data-aggregator/app/tools/make_gtfs_from_timetable.py:58-121 | every bundled trip's departure and arrival are zero-padded `HH:MM:SS` times of day |
| `Timetable.AllTripsWritten` | apps/agents/data-aggregator/app/tools/make_gtfs_from_timetable.py:121-137 | the writing loop never raises on the bundled trips: each has a stop list and gets one row per stop, the first and last rows carrying its own departure and arrival texts |
| `Timetable.TripStopTimesUnknownRoute` | apps/agents/data-aggregator/app/tools/make_gtfs_from_timetable.py:134 | an unknown (route, direction) raises before any row is written |
| `Realtime.KeyRoundTrip` | apps/agents/data-aggregator/app/realtime.py:43-45 | splitting a trip's key once on the prefix gives back the trip id, for every trip id |
| `Realtime.KeyOfScanned` | apps/agents/data-aggregator/app/realtime.py:88-92 | every key the scan matches is the key of the trip id read from it |
| `Realtime.KeyInjective` | apps/agents/data-aggregator/app/realtime.py:43-45 | distinct trips never share a key |
| `Realtime.Trunc` | apps/agents/data-aggregator/app/realtime.py:55 | `int()` of a float truncates toward zero: less than one away, never past zero |
| `Realtime.StoreLatest` | apps/agents/data-aggregator/app/realtime.py:47-61 | storing a beacon adds exactly the trip's key to the store |
| `Realtime.DriverBeaconAgrees` | apps/agents/data-aggregator/app/realtime.py:75-82 | after a beacon, the stored `last_seen` is the published `ts`, both the truncated timestamp or the arrival clock reading; speed is 0 in both when missing; other fields and other trips are untouched |
| `Realtime.ListPositions` | apps/agents/data-aggregator/app/realtime.py:84-104 | the listing loop produces the positions of the scanned keys in scan order, skipping empty and malformed hashes |
| `Realtime.ListedIff` | apps/agents/data-aggregator/app/realtime.py:88-103 | a trip is listed exactly when its key was scanned and its hash gives a position: the hash is not empty and its `last_seen` (default 0) reads as an integer |
| `Realtime.ListedLength` | apps/agents/data-aggregator/app/realtime.py:88-104 | the listing is never longer than the scan |
| `Realtime.StoredThenRead` | apps/agents/data-aggregator/app/realtime.py:51-56 | what a beacon stored is what the listing reads for its trip |
| `Realtime.Forwarded` | apps/agents/data-aggregator/app/realtime.py:125-129 | no more data is forwarded than messages received |
| `Realtime.EventGenerator` | apps/agents/data-aggregator/app/realtime.py:115-131 | the generator loop yields exactly the stream of heartbeats and frames the message and clock sequences determine |
| `Realtime.PingTimesSpaced` | apps/agents/data-aggregator/app/realtime.py:116-123 | heartbeats are more than 15 s apart, the first more than 15 s after the start, each at a clock reading |
| `Realtime.StreamContents` | apps/agents/data-aggregator/app/realtime.py:118-131 | the stream holds one heartbeat per ping time and, heartbeats aside, one `data:` frame per forwarded message in order |
| `Realtime.ColonAt` | apps/agents/data-aggregator/app/realtime.py:122 | finds the first colon of a line, or reports that there is none |
| `Realtime.ReceivedPing` | apps/agents/data-aggregator/app/realtime.py:122 | a heartbeat is a comment and raises no event in the browser |
| `Realtime.ReceivedFrame` | apps/agents/data-aggregator/app/realtime.py:131 | a frame with single-line data raises one event carrying that data |
| `Realtime.StreamReceived` | apps/agents/data-aggregator/app/realtime.py:115-131 | what the browser receives from the whole stream is exactly the data of the forwarded messages, in order |
| `Positions.PosOfDefaults` | apps/web/components/RealtimeMap.tsx:31-37 | a missing speed is 0; a present `ts` is kept, 0 included; a missing one is the current whole second |
| `Positions.ReceivedKeys` | apps/web/components/RealtimeMap.tsx:29-38 | entries never expire: the trips held are those held before plus every trip a message arrived for |
| `Positions.LastWins` | apps/web/components/RealtimeMap.tsx:29-38 | the last message for a trip decides its entry, whatever the `ts` of earlier ones |
| `Positions.Untouched` | apps/web/components/RealtimeMap.tsx:30 | messages for other trips leave a trip's entry, or its absence, as it is |
| `Positions.PublishedPosition` | apps/web/components/RealtimeMap.tsx:31-37 | the marker built from a payload the realtime service published carries the beacon's position, speed (0 if missing) and truncated timestamp |
| `Positions.PositionStore.constructor` | apps/web/components/RealtimeMap.tsx:18-24 | the store starts empty with the event source open |
| `Positions.PositionStore.OnMessage` | apps/web/components/RealtimeMap.tsx:26-40 | while open, a parsed message replaces its trip's entry and adds its trip to the known keys; an unparsable payload or a closed source changes nothing; the known keys stay without repeats and match the entries |
| `Positions.PositionStore.Close` | apps/web/components/RealtimeMap.tsx:46 | teardown closes the source and changes no position |
| `Positions.Markers` | apps/web/components/RealtimeMap.tsx:51 | one marker per trip held, each the trip's entry, no trip twice and none missing |
| `Personalizer.Clamp` | apps/agents/profile-personalizer/app/main.py:328 | the result is within bounds, and it is the input unless the input is out of bounds |
| `Personalizer.PeakHours` | apps/agents/profile-personalizer/app/main.py:68 | among the hours of a day, exactly 7, 8, 9, 16, 17 and 18 are peak |
| `Personalizer.FetchContext` | apps/agents/profile-personalizer/app/main.py:64-71 | peak exactly in those hours; rain and train delay always off |
| `Personalizer.PrefsRecord.constructor` | apps/agents/profile-personalizer/app/main.py:114-120 | the record holds the stored weights and walk limit |
| `Personalizer.PrefsRecord.AdjustWeights` | apps/agents/profile-personalizer/app/main.py:73-87 | the record gets the adjusted weights and walk limit, or is left unchanged when the rain rule raises on a null limit |
| `Personalizer.AdjustedWeightsEffect` | apps/agents/profile-personalizer/app/main.py:77-83 | peak sets `time` to `min(100, time+10)`; train delay sets `train` to `max(0, train-20)` and `bus` to `min(100, bus+10)`; missing weights count as 50; other weights are untouched; no flag, no change |
| `Personalizer.AdjustedWeightsBounded` | apps/agents/profile-personalizer/app/main.py:77-83 | weights within 0..100 stay within 0..100 |
| `Personalizer.AdjustedWalkEffect` | apps/agents/profile-personalizer/app/main.py:75-80 | rain caps the walk limit at 500 (900 when absent, an error when null); without rain the limit is kept; it never grows |
| `Personalizer.ServedContextNeverRaises` | apps/agents/profile-personalizer/app/main.py:123-124 | with the served context the walk limit comes back as stored, or 900 when absent |
| `Personalizer.OnboardingShape` | apps/agents/profile-personalizer/app/main.py:153-161 | "faster" gives time 70 and cost 40, anything else the reverse; the other four weights are 50; the walk is 1000 exactly when long walks are fine, else 500 |
| `Personalizer.OrderedShape` | apps/agents/profile-personalizer/app/main.py:207-273 | always the same three suggestions with comfort last; time leads exactly when time >= 60 and cost <= 50 (defaults 60/50/50 without stored weights) |
| `Personalizer.ServerDeltaInt` | apps/agents/profile-personalizer/app/main.py:325 | an integer delta is taken as it is |
| `Personalizer.ApplySuggestion` | apps/agents/profile-personalizer/app/main.py:302-343 | no suggestion gives 404, no preferences give 404, otherwise the weights after the delta loop |
| `Personalizer.ApplyDeltasKeys` | apps/agents/profile-personalizer/app/main.py:323-328 | applying adds exactly the payload's missing keys |
| `Personalizer.ApplyDeltasOther` | apps/agents/profile-personalizer/app/main.py:323-328 | a weight the payload does not name is unchanged |
| `Personalizer.ApplyDeltasAt` | apps/agents/profile-personalizer/app/main.py:323-328 | with distinct keys, each named weight ends at `clamp(old or 50 + delta, 0, 100)` |
| `Personalizer.ApplyDeltasBounded` | apps/agents/profile-personalizer/app/main.py:328 | weights within 0..100 stay within 0..100 after any suggestion |
| `Personalize.T` | apps/web/app/personalize/page.tsx:30-36 | no object gives `""`; otherwise the requested language's text, else the English text, else `""` |
| `Personalize.TFromObject` | apps/web/app/personalize/page.tsx:30-36 | the text shown is always one the object holds, or `""` |
| `Personalize.DeltaAgreesPlain` | apps/web/app/personalize/page.tsx:302 | for `d`, the client and the service read the same delta |
| `Personalize.DeltaAgreesPlus` | apps/web/app/personalize/page.tsx:302 | for `+d`, the client and the service read the same delta |
| `Personalize.DeltaAgreesMinus` | apps/web/app/personalize/page.tsx:302 | for `-d`, the client and the service read the same delta |
| `Personalize.TrailingUnitDisagrees` | apps/web/app/personalize/page.tsx:302 | `"10px"` is 10 for the client and 0 for the service |
| `Personalize.RepeatedPlusDisagrees` | apps/web/app/personalize/page.tsx:302 | for digits x and y, `+x+y` is x for the client and the two-digit number xy for the service (`"+1+2"`: 1 against 12) |
| `Personalize.UnderscoreDisagrees` | apps/web/app/personalize/page.tsx:302 | for a digit x and digits d, `x_d` is x for the client and the number written x then d for the service (`"1_000"`: 1 against 1000) |
| `Personalize.PayloadScore` | apps/web/app/personalize/page.tsx:340-350 | the scoring loop sums each weight (0 when absent) times its parsed delta |
| `Personalize.WeightedSumOrderFree` | apps/web/app/personalize/page.tsx:342-349 | any two listings of the same payload entries, in whatever order, score alike |
| `Personalize.WeightedSumUnknownKey` | apps/web/app/personalize/page.tsx:343 | an entry for a weight the user lacks adds nothing |
| `Personalize.NudgeByKind` | apps/web/app/personalize/page.tsx:352-354 | +10 for comfort in rain, +10 for time at peak, -10 for exactly `rail` in a train delay, nothing otherwise |
| `Personalize.RankedCorrect` | apps/web/app/personalize/page.tsx:338-357 | the ranking is a permutation, by non-increasing score, with ties in their previous order |
| `Personalize.RankedUnique` | apps/web/app/personalize/page.tsx:357 | any reordering with those properties is the ranking, so it is determined by its input |
| `Personalize.Recalculate` | apps/web/app/personalize/page.tsx:337-358 | scoring then sorting yields the ranking |
| `Personalize.ApplyEntry` | apps/web/app/personalize/page.tsx:304-313 | one entry never adds or removes a weight |
| `Personalize.ApplyClient` | apps/web/app/personalize/page.tsx:299-314 | the optimistic update never adds or removes a weight |
| `Personalize.ApplyClientOther` | apps/web/app/personalize/page.tsx:304 | a weight the payload does not name is unchanged |
| `Personalize.ApplyClientAt` | apps/web/app/personalize/page.tsx:304-313 | with distinct keys, each weight the user has that is named ends at `clamp(old + delta, 0, 100)` |
| `Personalize.ApplyClientBounded` | apps/web/app/personalize/page.tsx:306-312 | weights within 0..100 stay within 0..100 |
| `Personalize.ApplyClientTwice` | apps/web/app/personalize/page.tsx:294-319 | applying the same payload twice adds its delta twice when no clamp applies |
| `Personalize.UnknownKeyDisagrees` | apps/web/app/personalize/page.tsx:304 | a weight the user lacks: the client ignores it, the service adds it from 50 |
| `Personalize.ScenarioRewriteEffect` | apps/web/app/personalize/page.tsx:272-289 | peak sets `time` to `min(100, max(time, 70))`; walk is 600 in rain, else at least 800; nothing else changes; running the rewrite again changes nothing |
| `Personalize.ScenarioRewriteBounded` | apps/web/app/personalize/page.tsx:272-289 | weights within 0..100 stay within 0..100 |
| `Personalize.ScenarioOffKeeps` | apps/web/app/personalize/page.tsx:272-289 | switching rain and peak off keeps walk 800 and `time` at least 70: nothing restores the old values |
| `Personalize.BurstSavesOnce` | apps/web/app/personalize/page.tsx:257-267 | changes less than 350 ms apart send nothing; one PUT with the last preferences follows 350 ms after the last change |
| `Personalize.NoSaveWhileLoading` | apps/web/app/personalize/page.tsx:258 | while loading, changes neither send nor schedule anything |
| `Personalize.Session.constructor` | apps/web/app/personalize/page.tsx:164-181 | default preferences, nothing applied, scenarios off, loading, no save pending |
| `Personalize.Session.SetPrefs` | apps/web/app/personalize/page.tsx:257-267 | a change re-arms the save with the new preferences (none while loading), after sending a save already due |
| `Personalize.Session.Load` | apps/web/app/personalize/page.tsx:221-239 | a failed request keeps preferences and suggestions; otherwise preferences come from a body with weights and suggestions from an array, else empty; loading ends and a save of the preferences is scheduled 350 ms later |
| `Personalize.Session.SetScenario` | apps/web/app/personalize/page.tsx:270-291 | a changed switch rewrites the preferences and schedules their save |
| `Personalize.Session.ApplySuggestion` | apps/web/app/personalize/page.tsx:294-334 | the weights get the optimistic update; the id is marked applied without clearing other marks; the apply POST is sent |
| `Personalize.Session.Recalc` | apps/web/app/personalize/page.tsx:337-358 | the suggestions become their ranking for the current weights and scenario; its only caller, the 15 s polling loop (apps/web/app/personalize/page.tsx:242-254, not modelled), holds the suggestions as they were when the loop was set up, so there the ranked list may be an older one |
| `Personalize.Session.Tick` | apps/web/app/personalize/page.tsx:259-265 | a due save is sent |
| `Personalize.MarkHidesButton` | apps/web/app/personalize/page.tsx:619-653 | marking a suggestion applied hides its button and no other |
| `Personalize.PendingSaveIsCurrent` | apps/web/app/personalize/page.tsx:259-263 | the save that fires carries the current preferences |
| `Personalize.RailIconWithoutNudge` | apps/web/app/personalize/page.tsx:630 | a `light_rail` kind gets the train icon but no nudge, while `rail` gets both |
| `Personalize.ServedKindsNotRail` | apps/web/app/personalize/page.tsx:354 | the service's suggestions are cost, time and comfort, so the train-delay nudge never applies to them |
| `Planner.EventsOf` | apps/agents/route-optimizer/app/planner.py:65-76 | a trip's events are exactly its rows |
| `Planner.TripsOfGroups` | apps/agents/route-optimizer/app/planner.py:64-76 | a trip is keyed exactly when it has rows, and lists them in row order |
| `Planner.BuildTrips` | apps/agents/route-optimizer/app/planner.py:64-76 | the setdefault/append loop builds `trips_by_id` |
| `Planner.DeparturesAt` | apps/agents/route-optimizer/app/planner.py:86-90 | a stop's departures are exactly its rows |
| `Planner.GroupDepsGroups` | apps/agents/route-optimizer/app/planner.py:85-90 | a stop is keyed exactly when it has rows, and lists them in row order |
| `Planner.DepsOfSorted` | apps/agents/route-optimizer/app/planner.py:85-93 | each stop's list is its departures sorted by time, stably |
| `Planner.BuildDeps` | apps/agents/route-optimizer/app/planner.py:85-93 | grouping then sorting builds `dep_by_stop` |
| `Planner.SortEach` | apps/agents/route-optimizer/app/planner.py:92-93 | every stop's list is sorted by departure time |
| `Planner.WalksOfGroups` | apps/agents/route-optimizer/app/planner.py:101-105 | a stop is keyed exactly when some transfer touches it |
| `Planner.WalksFromRows` | apps/agents/route-optimizer/app/planner.py:101-105 | walking edges are symmetric, and each comes from a transfer row in one direction or the other |
| `Planner.BuildWalks` | apps/agents/route-optimizer/app/planner.py:101-105 | the loop builds `tf_map` |
| `Planner.LoadSnapshot` | apps/agents/route-optimizer/app/planner.py:43-107 | the snapshot is the three maps of the query rows |
| `Planner.DepartSecondsLong` | apps/agents/route-optimizer/app/planner.py:124 | text not of length 5 is read as it is |
| `Planner.DepartSecondsShort` | apps/agents/route-optimizer/app/planner.py:124 | text of length 5 is read with `:00` appended |
| `Planner.DepartSecondsOfHm` | apps/agents/route-optimizer/app/planner.py:124 | `"HH:MM"` is that time with zero seconds |
| `Planner.DepartSecondsOfHms` | apps/agents/route-optimizer/app/planner.py:124 | `"HH:MM:SS"` is read as it is |
| `Planner.RelaxLabels` | apps/agents/route-optimizer/app/planner.py:167-170 | a label is only replaced by a strictly earlier arrival, and the entry is pushed |
| `Planner.FirstIndex` | apps/agents/route-optimizer/app/planner.py:156-161 | the first call of the trip with the stop sequence, or none |
| `Planner.FindSeq` | apps/agents/route-optimizer/app/planner.py:156-161 | the search loop finds that first call |
| `Planner.RelaxStep` | apps/agents/route-optimizer/app/planner.py:167-179 | a relaxation keeps every label in the queue, every parent linked by a listed connection, labels only decreasing |
| `Planner.EntryLessOrder` | apps/agents/route-optimizer/app/planner.py:140 | the order on `(seconds, stop)` is a strict total order |
| `Planner.PopMin` | apps/agents/route-optimizer/app/planner.py:140 | `heappop` takes the least entry |
| `Planner.RideFrom` | apps/agents/route-optimizer/app/planner.py:162-170 | riding relaxes every call of the trip after the boarding one: each ends labelled no later than its arrival time; the search's invariants hold; every label it lowers or adds gets a parent that rides this trip from the popped stop, boarded at a listed departure no earlier than the pop time, and every label left alone keeps its parent |
| `Planner.ExpandRides` | apps/agents/route-optimizer/app/planner.py:147-170 | `seen` becomes exactly the old keys plus the (stop, trip) key of every departure from the popped stop no earlier than the pop time; every departure boarded (no earlier than the pop time, its key new at its turn) has every later call of its trip relaxed; every label it lowers or adds gets a parent riding from the popped stop, boarded at such a departure, on a trip whose key it newly marked seen, and every label left alone keeps its parent; nothing changes unless a key is added; `ok` is false only when a listed trip is missing |
| `Planner.Board` | apps/agents/route-optimizer/app/planner.py:147-170 | one departure of the loop: its key joins `seen` exactly when it is no earlier than the pop time; when its key is new it is ridden, and a missing trip then makes `ok` false; `ok` is false only when a listed trip is missing |
| `Planner.ExpandWalks` | apps/agents/route-optimizer/app/planner.py:173-179 | every transfer listed at the popped stop is relaxed: its target ends labelled no later than the pop time plus the walking time; new queue entries are no earlier than the pop time, so the invariants hold |
| `Planner.ExpandStop` | apps/agents/route-optimizer/app/planner.py:146-179 | the popped stop is expanded at its label: its rides and its transfers are relaxed as above, `seen` gains exactly its keys, labels only decrease, and the loop invariant still holds |
| `Planner.Start` | apps/agents/route-optimizer/app/planner.py:133-135 | the origin at the departure, nothing else |
| `Planner.Search` | apps/agents/route-optimizer/app/planner.py:133-179 | the loop always ends, raises only on a missing trip, keeps the origin's label at or before the departure, and links every parent; unless the origin is the destination, the origin is expanded at the departure: in the final labels every transfer from it is relaxed, and so is every later call of each trip on its first departure from the origin at or after the departure time |
| `Planner.Round` | apps/agents/route-optimizer/app/planner.py:139-179 | one round takes out the least entry; a stale entry is dropped, the destination stops the loop, and any other stop is expanded; a round that does not stop lowers the loop's measure; labels only decrease; the first round stops exactly when the origin is the destination and otherwise expands the origin at the departure |
| `Planner.WalkLegs` | apps/agents/route-optimizer/app/planner.py:217 | transfers count at most the legs, and none for rides only |
| `Planner.Unwind` | apps/agents/route-optimizer/app/planner.py:186-213 | the legs collected walking parents back from the destination chain to it along linked, labelled legs; with forward trips the walk reaches the origin within the step bound |
| `Planner.Reconstruct` | apps/agents/route-optimizer/app/planner.py:185-215 | any legs returned chain from origin to destination along the snapshot, timed by the labels; with forward trips it always ends |
| `Planner.LegTimes` | apps/agents/route-optimizer/app/planner.py:202-211 | each leg leaves when the previous arrives; the first leaves at the origin label, the last arrives at the destination label |
| `Planner.RoundMinutesNonNegative` | apps/agents/route-optimizer/app/planner.py:216 | a non-negative duration rounds to non-negative minutes |
| `Planner.OutcomeFacts` | apps/agents/route-optimizer/app/planner.py:215-225 | a found answer from timed legs is labelled and answered; with forward trips it leaves at the departure itself |
| `Planner.Answer` | apps/agents/route-optimizer/app/planner.py:181-225 | not found exactly when the destination has no label; otherwise the chain of legs with departure, arrival and duration from the labels |
| `Planner.Plan` | apps/agents/route-optimizer/app/planner.py:122-225 | a bad time raises exactly when the departure text does not read; an unknown-trip answer comes only from a missing trip; the answer is consistent with the labels, in which the origin is expanded at the departure unless it is the destination; with forward trips it never diverges, and a found journey leaves at the requested time and lasts a non-negative time |

## Left out

- SQL, Redis, HTTP, `EventSource` transport and reconnection, Leaflet rendering, GSAP, toasts, speech, and the 15 s transport polling are not modelled. Database rows, scanned keys, published messages and clock readings are parameters.
- The database queries of `load_snapshot`, and `nearest_stops`. `Planner.LoadSnapshot` takes the rows of the three queries, in query order.
- Planner rows carry seconds that `hms_to_sec` has already read. A malformed time in the database is not modelled.
- Planner.Plan: the walking time `int(round(dist_m / walk_m_per_s))` is a function parameter `walk`, since the model has no floats.
- Planner.Plan: requires that no transfer takes negative time (`WalksForward`). With a negative walking time, the source's search can lower labels forever and does not end.
- Planner.Search: the contract states soundness, not optimality. Every label is reached along connections of the snapshot, and labels only decrease. That no earlier arrival exists is not proved. Of the expansions, only the origin's is stated: a search that expanded no other stop would meet the contract. `Planner.ExpandStop` states what each expansion relaxes.
- Planner.Search: `heapq` is modelled as a sequence whose least entry is taken out. The pop order is the same; the heap layout is not modelled.
- Planner.Plan: when reconstruction finds a parent cycle (trips that arrive before they depart), the source loops forever. The model stops after as many steps as there are labels and answers `Diverges`.
- The unused `board_dep` and the no-op merge test in the reconstruction are left out.
- Floats are not modelled:
  - latitude, longitude and speed are opaque reals;
  - the float `step` of `evenly_spaced_times` is computed on exact rationals, rounded half-even as Python's `round` does;
  - `float()` and `str()` of numbers in the Redis hash are modelled on a number datatype, and only `int()` of a float's text fails.
- The Redis key expiry (24 h TTL) is not modelled.
- `_coerce_json` and JSON parsing are not modelled. Payloads arrive parsed, with `None` standing for a failed parse.
- `sug_id` (UUIDv5) is not modelled. Suggestion ids are opaque strings.
- The CSV writing in the timetable tool is not modelled. Only the rows it would write are.
- Personalize.ApplyClient: keys are compared as plain strings. In the client, `k in next` is also true for keys inherited from `Object.prototype`, such as `"constructor"`; a delta under such a key is not modelled.
- Personalize.PayloadScore: a weight is looked up as a plain key, 0 when absent. In the client, `(prefs.weights as any)[k] || 0` for a payload key such as `"constructor"` yields the inherited function, and the score becomes `NaN`; that is not modelled.
- Personalize.Session.constructor: the `Weights` type demands `time`, `cost` and `comfort`, so a served `weights: {}` (or one lacking these keys) is outside the model.
- Personalize.Session.Load: `if (p && p.weights)` accepts a body whose `weights` is `{}` or lacks a key; such a body is outside the model, for the same reason.
- Personalize.Session.Recalc: the stale suggestions its polling caller captures are not modelled; the method ranks the session's current suggestions.
- Positions.Markers: states which markers are shown, one per trip, not their order. `Object.values` lists integer-like keys (a numeric trip id such as `"101"`) first, in ascending order, and the other keys in insertion order. That key order is not modelled.
- Text.PyInt: reads ASCII digits only. Python's `int()` also accepts every other Unicode decimal digit, so `int("１０") == 10` in Python but `None` here. This affects the departure time of a plan request and the server's reading of a delta such as `"+１０"`: the server reads 10, while the client's `parseInt` gives `NaN`, counted as 0. That disagreement is not captured.
- Text.PyIntUnsigned: states its "exactly on digit groups" only for ASCII text; on non-ASCII decimal digits Python succeeds where the model answers `None`.
- Client weights are integers. A non-integer weight or a non-finite delta from JSON is not modelled, apart from `parseInt` failure counting as 0.
