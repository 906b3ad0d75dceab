/** The realtime side of the data aggregator: drivers post position beacons,
    the latest position of each trip is kept in a Redis hash under a per-trip
    key and every beacon is published on a channel that browsers follow as a
    Server-Sent Events stream (section 9.2 of the WHATWG HTML Living Standard).
    Redis is modelled as a map from key to hash, and a hash as a map from field
    name to the number stored in it. */
module Realtime {
  import opened Wrappers
  import opened Text

  /* ---------------- the per-trip key ---------------- */

  const KEY_PREFIX: string := "realtime:trip:"

  /** `_key`: the Redis key of a trip's latest position. */
  function Key(tripId: string): string
  {
    KEY_PREFIX + tripId
  }

  /** `key.split("realtime:trip:", 1)[-1]`, as `list_positions` reads a key back. */
  function TripIdOfKey(key: string): string
  {
    AfterFirst(key, KEY_PREFIX)
  }

  /** Reading a key back gives the trip id it was made from, for every trip id,
      including ids that themselves contain the prefix. */
  lemma KeyRoundTrip(tripId: string)
    ensures TripIdOfKey(Key(tripId)) == tripId
  {
    assert StartsWith(Key(tripId), KEY_PREFIX);
  }

  /** Every key the scan `realtime:trip:*` can return is the key of the trip id
      read from it. */
  lemma KeyOfScanned(key: string)
    requires StartsWith(key, KEY_PREFIX)
    ensures Key(TripIdOfKey(key)) == key
  {
    assert key == KEY_PREFIX + key[|KEY_PREFIX|..];
  }

  /** Distinct trips never share a key. */
  lemma KeyInjective(a: string, b: string)
    requires Key(a) == Key(b)
    ensures a == b
  {
    KeyRoundTrip(a);
    KeyRoundTrip(b);
  }

  /* ---------------- numbers ---------------- */

  /** A number as Python holds it: the literal `0` used for a missing speed is
      an `int`, the beacon's fields are `float`s. `str` and `float`/`int`
      reading in and out of the hash are modelled on these values: Python
      writes a float so that `float` reads it back exactly, `int` reads back
      what `str` wrote for an `int`, and `int` refuses the text of a float. */
  datatype Num = Int(i: int) | Float(r: real)

  /** `float(v)` of the stored text of `v`. */
  function FloatOf(v: Num): real
  {
    match v
    case Int(i) => i as real
    case Float(r) => r
  }

  /** `int(v)` of the stored text of `v`: `None` stands for the `ValueError`
      raised on the text of a float. */
  function IntOf(v: Num): Option<int>
  {
    match v
    case Int(i) => Some(i)
    case Float(_) => None
  }

  /** Python `int(x)` of a float: truncation toward zero. */
  function Trunc(x: real): (n: int)
    ensures -1.0 < x - n as real < 1.0
    ensures x >= 0.0 ==> 0 <= n && n as real <= x
    ensures x < 0.0 ==> n <= 0 && x <= n as real
  {
    if x >= 0.0 then x.Floor else -((-x).Floor)
  }

  /* ---------------- beacons ---------------- */

  /** `RealtimeBeacon`: unix seconds in `timestamp`. */
  datatype Beacon = Beacon(tripId: string, lat: real, lon: real, speedKph: Option<real>, timestamp: Option<real>)

  /** `speed_kph`, or the integer `0` when the beacon has none. */
  function Speed(b: Beacon): Num
  {
    match b.speedKph
    case Some(s) => Float(s)
    case None => Int(0)
  }

  type Hash = map<string, Num>

  /** The fields `store_latest_position` writes; `now` is the clock reading it
      takes when the beacon carries no timestamp. */
  function LatestMapping(b: Beacon, now: real): Hash
  {
    map["lat" := Float(b.lat), "lon" := Float(b.lon), "speed_kph" := Speed(b),
        "last_seen" := Int(Trunc(b.timestamp.GetOr(now)))]
  }

  /** `HSET key mapping`: the four fields are set, any other field of the hash
      is kept. The expiry set beside it is not modelled. */
  function StoreLatest(db: map<string, Hash>, b: Beacon, now: real): (db': map<string, Hash>)
    ensures db'.Keys == db.Keys + {Key(b.tripId)}
  {
    var k := Key(b.tripId);
    db[k := (if k in db then db[k] else map[]) + LatestMapping(b, now)]
  }

  /** The JSON object `publish_beacon` sends. */
  datatype Payload = Payload(tripId: string, lat: real, lon: real, speedKph: Num, ts: int)

  function PublishPayload(b: Beacon, now: real): Payload
  {
    Payload(b.tripId, b.lat, b.lon, Speed(b), Trunc(b.timestamp.GetOr(now)))
  }

  /** `driver_beacon`: a missing timestamp is filled from the clock reading
      `now` before the beacon is stored and published. The store and the
      publisher read the clock again (`nowStore`, `nowPublish`). */
  function DriverBeacon(db: map<string, Hash>, b: Beacon, now: real, nowStore: real, nowPublish: real)
    : (r: (map<string, Hash>, Payload))
  {
    var filled := if b.timestamp.None? then b.(timestamp := Some(now)) else b;
    (StoreLatest(db, filled, nowStore), PublishPayload(filled, nowPublish))
  }

  /** After a beacon, the stored hash and the published payload agree: the
      stored `last_seen` is the published `ts`, both the truncated timestamp
      (or the clock reading taken on arrival), whatever the later clock
      readings; the speed is `0` in both when the beacon has none; the trip's
      other hash fields and every other trip's hash are untouched. */
  lemma DriverBeaconAgrees(db: map<string, Hash>, b: Beacon, now: real, nowStore: real, nowPublish: real)
    ensures var (db', p) := DriverBeacon(db, b, now, nowStore, nowPublish);
      var h := db'[Key(b.tripId)];
      && "last_seen" in h && h["last_seen"] == Int(p.ts)
      && p.ts == Trunc(b.timestamp.GetOr(now))
      && "speed_kph" in h && h["speed_kph"] == p.speedKph
      && (b.speedKph.None? ==> p.speedKph == Int(0))
      && p.tripId == b.tripId && h["lat"] == Float(p.lat) && h["lon"] == Float(p.lon)
      && (forall f :: f in h && f !in LatestMapping(b, now) ==> f in db[Key(b.tripId)] && h[f] == db[Key(b.tripId)][f])
      && (forall k :: k in db && k != Key(b.tripId) ==> k in db' && db'[k] == db[k])
  {
  }

  /* ---------------- listing the latest positions ---------------- */

  datatype Position = Position(tripId: string, lat: real, lon: real, speedKph: real, lastSeen: int)

  /** `float(h.get(f, "0") or 0)`. */
  function FloatField(h: Hash, f: string): real
  {
    if f in h then FloatOf(h[f]) else 0.0
  }

  /** One scanned key: `None` when its hash is empty (skipped) or when reading a
      field raises (a malformed entry, skipped). */
  function ReadPosition(key: string, h: Hash): Option<Position>
  {
    if h == map[] then None
    else
      var seen := if "last_seen" in h then IntOf(h["last_seen"]) else Some(0);
      match seen
      case None => None
      case Some(ls) =>
        Some(Position(TripIdOfKey(key), FloatField(h, "lat"), FloatField(h, "lon"), FloatField(h, "speed_kph"), ls))
  }

  /** The listing for the keys in the order the scan returns them; `hgetall` of
      a missing key is an empty hash. */
  function Listed(db: map<string, Hash>, keys: seq<string>): seq<Position>
  {
    if keys == [] then []
    else
      var k := keys[|keys| - 1];
      var p := ReadPosition(k, if k in db then db[k] else map[]);
      Listed(db, keys[..|keys| - 1]) + (if p.Some? then [p.value] else [])
  }

  /** `list_positions`, given the keys the scan returns. */
  method ListPositions(db: map<string, Hash>, keys: seq<string>) returns (out: seq<Position>)
    ensures out == Listed(db, keys)
  {
    out := [];
    var i := 0;
    while i < |keys|
      invariant 0 <= i <= |keys|
      invariant out == Listed(db, keys[..i])
    {
      var k := keys[i];
      var h := if k in db then db[k] else map[];
      if h != map[] {
        var seen := if "last_seen" in h then IntOf(h["last_seen"]) else Some(0);
        if seen.Some? {
          out := out + [Position(TripIdOfKey(k), FloatField(h, "lat"), FloatField(h, "lon"), FloatField(h, "speed_kph"), seen.value)];
        }
      }
      assert keys[..i + 1][..i] == keys[..i];
      i := i + 1;
    }
    assert keys[..i] == keys;
  }

  /** A listed trip comes from a scanned key whose hash is not empty; for
      scanned keys (all carrying the prefix), a trip is listed exactly when its
      hash is not empty and its `last_seen` reads as an integer. */
  lemma {:induction false} ListedIff(db: map<string, Hash>, keys: seq<string>, tripId: string)
    requires forall k :: k in keys ==> StartsWith(k, KEY_PREFIX)
    ensures (exists p :: p in Listed(db, keys) && p.tripId == tripId)
        <==> Key(tripId) in keys && ReadPosition(Key(tripId), if Key(tripId) in db then db[Key(tripId)] else map[]).Some?
  {
    if keys != [] {
      var init, k := keys[..|keys| - 1], keys[|keys| - 1];
      assert forall j :: j in init ==> j in keys;
      ListedIff(db, init, tripId);
      KeyOfScanned(k);
      KeyRoundTrip(tripId);
      assert keys == init + [k];
      var p := ReadPosition(k, if k in db then db[k] else map[]);
      if p.Some? {
        assert p.value.tripId == TripIdOfKey(k);
        if TripIdOfKey(k) == tripId {
          assert p.value in Listed(db, keys);
        }
      }
      if Key(tripId) in keys && Key(tripId) !in init {
        assert Key(tripId) == k;
      }
      if exists q :: q in Listed(db, keys) && q.tripId == tripId {
        var q :| q in Listed(db, keys) && q.tripId == tripId;
        if q !in Listed(db, init) {
          assert p.Some? && q == p.value;
          assert Key(tripId) == k;
        }
      }
    }
  }

  /** The listing is never longer than the scan. */
  lemma {:induction false} ListedLength(db: map<string, Hash>, keys: seq<string>)
    ensures |Listed(db, keys)| <= |keys|
  {
    if keys != [] {
      ListedLength(db, keys[..|keys| - 1]);
    }
  }

  /** What a beacon stored is what a later listing reports for its trip. */
  lemma StoredThenRead(db: map<string, Hash>, b: Beacon, now: real)
    ensures var db' := StoreLatest(db, b, now);
      ReadPosition(Key(b.tripId), db'[Key(b.tripId)])
        == Some(Position(b.tripId, b.lat, b.lon, FloatOf(Speed(b)), Trunc(b.timestamp.GetOr(now))))
  {
    KeyRoundTrip(b.tripId);
    var db' := StoreLatest(db, b, now);
    assert "lat" in db'[Key(b.tripId)];
  }

  /* ---------------- the event stream ---------------- */

  /** A message from the Redis subscription: its `type` and its `data`
      (`None` for a missing or non-text value). */
  datatype PubSubMessage = PubSubMessage(kind: string, data: Option<string>)

  const PING: string := ": ping\n\n"

  /** `f"data: {data}\n\n"`: one event with a single data line. */
  function Frame(data: string): string
  {
    "data: " + data + "\n\n"
  }

  /** Forwarded: a published message (`type == "message"`) with non-empty data. */
  predicate Forwards(m: PubSubMessage)
  {
    m.kind == "message" && m.data.Some? && m.data.value != ""
  }

  /** The data of the forwarded messages, in order. */
  function Forwarded(msgs: seq<PubSubMessage>): (r: seq<string>)
    ensures |r| <= |msgs|
  {
    if msgs == [] then []
    else (if Forwards(msgs[0]) then [msgs[0].data.value] else []) + Forwarded(msgs[1..])
  }

  /** Whether a heartbeat goes out at clock reading `now`: more than 15
      seconds have passed since the last one. */
  predicate PingDue(lastPing: real, now: real)
  {
    now - lastPing > 15.0
  }

  /** The chunks one message produces: the heartbeat when one is due, then the
      event when the message is forwarded. */
  function Step(lastPing: real, m: PubSubMessage, now: real): seq<string>
  {
    (if PingDue(lastPing, now) then [PING] else []) + (if Forwards(m) then [Frame(m.data.value)] else [])
  }

  /** `last_ping` after a message: reset to `now` when a heartbeat went out. */
  function NextPing(lastPing: real, now: real): real
  {
    if PingDue(lastPing, now) then now else lastPing
  }

  /** The chunks `event_generator` yields for the messages, `clock[i]` being the
      clock reading taken when message `i` arrives and `lastPing` the reading
      of the last heartbeat (initially the reading at the start). */
  function Stream(lastPing: real, msgs: seq<PubSubMessage>, clock: seq<real>): seq<string>
    requires |clock| == |msgs|
    decreases |msgs|
  {
    if msgs == [] then []
    else Step(lastPing, msgs[0], clock[0]) + Stream(NextPing(lastPing, clock[0]), msgs[1..], clock[1..])
  }

  /** The generator loop, its `last_ping` a local variable. */
  method EventGenerator(start: real, msgs: seq<PubSubMessage>, clock: seq<real>) returns (out: seq<string>)
    requires |clock| == |msgs|
    ensures out == Stream(start, msgs, clock)
  {
    out := [];
    var lastPing := start;
    var i := 0;
    while i < |msgs|
      invariant 0 <= i <= |msgs|
      invariant out + Stream(lastPing, msgs[i..], clock[i..]) == Stream(start, msgs, clock)
    {
      ghost var before := lastPing;
      var now := clock[i];
      var ping: seq<string> := [];
      if now - lastPing > 15.0 {
        ping := [PING];
        lastPing := now;
      }
      var m := msgs[i];
      var frame: seq<string> := [];
      if m.kind == "message" && m.data.Some? && m.data.value != "" {
        frame := [Frame(m.data.value)];
      }
      assert ping == (if PingDue(before, now) then [PING] else []);
      assert frame == (if Forwards(m) then [Frame(m.data.value)] else []);
      var chunk := ping + frame;
      assert chunk == Step(before, m, now) && lastPing == NextPing(before, now);
      StreamAt(before, msgs, clock, i);
      AppendAssoc(out, chunk, Stream(lastPing, msgs[i + 1..], clock[i + 1..]));
      out := out + chunk;
      i := i + 1;
    }
  }

  lemma AppendAssoc(a: seq<string>, b: seq<string>, c: seq<string>)
    ensures a + (b + c) == (a + b) + c
  {
  }

  lemma StreamAt(lastPing: real, msgs: seq<PubSubMessage>, clock: seq<real>, i: nat)
    requires i < |msgs| == |clock|
    ensures Stream(lastPing, msgs[i..], clock[i..])
         == Step(lastPing, msgs[i], clock[i]) + Stream(NextPing(lastPing, clock[i]), msgs[i + 1..], clock[i + 1..])
  {
    assert msgs[i..][1..] == msgs[i + 1..] && clock[i..][1..] == clock[i + 1..];
  }

  /** The readings at which heartbeats are sent. */
  function PingTimes(lastPing: real, clock: seq<real>): seq<real>
    decreases |clock|
  {
    if clock == [] then []
    else (if PingDue(lastPing, clock[0]) then [clock[0]] else []) + PingTimes(NextPing(lastPing, clock[0]), clock[1..])
  }

  /** Heartbeats are more than 15 seconds apart, the first more than 15 seconds
      after the start, and each is taken from a clock reading. */
  lemma {:induction false} PingTimesSpaced(lastPing: real, clock: seq<real>)
    decreases |clock|
    ensures var p := PingTimes(lastPing, clock);
      && (|p| > 0 ==> p[0] - lastPing > 15.0)
      && (forall i :: 0 <= i < |p| - 1 ==> p[i + 1] - p[i] > 15.0)
      && (forall i :: 0 <= i < |p| ==> p[i] in clock)
  {
    if clock != [] {
      PingTimesSpaced(NextPing(lastPing, clock[0]), clock[1..]);
      var p := PingTimes(lastPing, clock);
      var q := PingTimes(NextPing(lastPing, clock[0]), clock[1..]);
      if PingDue(lastPing, clock[0]) {
        assert p == [clock[0]] + q;
        forall i | 0 <= i < |p| ensures p[i] in clock {
          if i > 0 { assert p[i] == q[i - 1]; }
        }
      } else {
        assert p == q;
      }
    }
  }

  /** The stream holds one heartbeat per ping time and, heartbeats aside,
      exactly one frame per forwarded message, in message order. */
  lemma {:induction false} StreamContents(lastPing: real, msgs: seq<PubSubMessage>, clock: seq<real>)
    requires |clock| == |msgs|
    decreases |msgs|
    ensures Pings(Stream(lastPing, msgs, clock)) == |PingTimes(lastPing, clock)|
    ensures Events(Stream(lastPing, msgs, clock)) == Frames(Forwarded(msgs))
  {
    if msgs != [] {
      var next := NextPing(lastPing, clock[0]);
      var rest := Stream(next, msgs[1..], clock[1..]);
      StreamContents(next, msgs[1..], clock[1..]);
      var a := if PingDue(lastPing, clock[0]) then [PING] else [];
      var b := if Forwards(msgs[0]) then [Frame(msgs[0].data.value)] else [];
      ChunksConcat(a, b + rest);
      ChunksConcat(b, rest);
      assert Stream(lastPing, msgs, clock) == a + (b + rest);
      if Forwards(msgs[0]) {
        FrameIsNotPing(msgs[0].data.value);
        assert Events(b) == [Frame(msgs[0].data.value)] by { assert b[1..] == []; }
      }
      var f := if Forwards(msgs[0]) then [msgs[0].data.value] else [];
      assert Forwarded(msgs) == f + Forwarded(msgs[1..]);
      FramesConcat(f, Forwarded(msgs[1..]));
    }
  }

  /** The number of heartbeats among chunks. */
  function Pings(chunks: seq<string>): nat
  {
    if chunks == [] then 0 else (if chunks[0] == PING then 1 else 0) + Pings(chunks[1..])
  }

  /** The chunks that are not heartbeats. */
  function Events(chunks: seq<string>): seq<string>
  {
    if chunks == [] then [] else (if chunks[0] == PING then [] else [chunks[0]]) + Events(chunks[1..])
  }

  function Frames(data: seq<string>): seq<string>
  {
    if data == [] then [] else [Frame(data[0])] + Frames(data[1..])
  }

  lemma {:induction false} ChunksConcat(a: seq<string>, b: seq<string>)
    ensures Pings(a + b) == Pings(a) + Pings(b)
    ensures Events(a + b) == Events(a) + Events(b)
  {
    if a != [] {
      ChunksConcat(a[1..], b);
      assert (a + b)[1..] == a[1..] + b;
    } else {
      assert a + b == b;
    }
  }

  lemma {:induction false} FramesConcat(a: seq<string>, b: seq<string>)
    ensures Frames(a + b) == Frames(a) + Frames(b)
  {
    if a != [] {
      FramesConcat(a[1..], b);
      assert (a + b)[1..] == a[1..] + b;
    } else {
      assert a + b == b;
    }
  }

  lemma FrameIsNotPing(data: string)
    ensures Frame(data) != PING
  {
    assert Frame(data)[0] == 'd';
  }

  /* ---------------- reading the stream in the browser ---------------- */

  /** The whole response body: the chunks one after the other. */
  function Concat(chunks: seq<string>): string
  {
    if chunks == [] then [] else chunks[0] + Concat(chunks[1..])
  }

  /** The complete lines of a body (each ended by a line feed); a last line
      with no line feed is never processed. */
  function Lines(body: string): seq<string>
  {
    var parts := Split(body, '\n');
    parts[..|parts| - 1]
  }

  /** The index of the first colon in a line. */
  function ColonAt(line: string): (r: Option<nat>)
    ensures r.Some? ==> r.value < |line| && line[r.value] == ':' && ':' !in line[..r.value]
    ensures r.None? ==> ':' !in line
  {
    if line == [] then None
    else if line[0] == ':' then Some(0)
    else match ColonAt(line[1..])
      case None => None
      case Some(i) => assert line[..i + 1] == [line[0]] + line[1..][..i]; Some(i + 1)
  }

  /** A field line: the name before the first colon and the value after it,
      one leading space removed; a line without a colon is a name with an
      empty value. */
  function Field(line: string): (string, string)
  {
    match ColonAt(line)
    case None => (line, "")
    case Some(i) =>
      var v := line[i + 1..];
      (line[..i], if |v| > 0 && v[0] == ' ' then v[1..] else v)
  }

  /** The event stream interpretation, reduced to what `onmessage` sees: a
      `data` field appends its value and a line feed to the data buffer; a
      blank line dispatches the buffer, less its last line feed, unless it is
      empty; a line starting with a colon is a comment; other fields do not
      change the data. */
  function Dispatch(lines: seq<string>, buffer: string): seq<string>
  {
    if lines == [] then []
    else
      var line := lines[0];
      if line == "" then
        (if buffer == "" then [] else [buffer[..|buffer| - 1]]) + Dispatch(lines[1..], "")
      else if line[0] == ':' then Dispatch(lines[1..], buffer)
      else
        var (name, value) := Field(line);
        Dispatch(lines[1..], if name == "data" then buffer + value + "\n" else buffer)
  }

  /** The `data` of every message event the browser's `EventSource` raises. */
  function ReceivedData(body: string): seq<string>
  {
    Dispatch(Lines(body), "")
  }

  lemma LinesCons(a: string, b: string, rest: string)
    requires '\n' !in a && '\n' !in b
    ensures Lines(a + "\n" + b + "\n" + rest) == [a, b] + Lines(rest)
  {
    SplitTwoLines(a, b, rest);
    DropLastAfterTwo(a, b, Split(rest, '\n'));
  }

  lemma SplitTwoLines(a: string, b: string, rest: string)
    requires '\n' !in a && '\n' !in b
    ensures Split(a + "\n" + b + "\n" + rest, '\n') == [a, b] + Split(rest, '\n')
  {
    assert a + "\n" + b + "\n" + rest == a + ['\n'] + (b + ['\n'] + rest);
    SplitCons(a, '\n', b + ['\n'] + rest);
    SplitCons(b, '\n', rest);
  }

  lemma DropLastAfterTwo(a: string, b: string, s: seq<string>)
    requires |s| > 0
    ensures ([a, b] + s)[..|[a, b] + s| - 1] == [a, b] + s[..|s| - 1]
  {
  }

  lemma FieldOfData(data: string)
    ensures Field("data: " + data) == ("data", data)
  {
    var line := "data: " + data;
    assert line[..4] == "data" && line[4] == ':';
    assert ColonAt(line) == Some(4) by {
      assert line[1..][1..][1..][1..] == ":" + " " + data;
    }
    assert line[5..] == " " + data;
  }

  lemma {:induction false} ConcatChunks(c: string, rest: seq<string>)
    ensures Concat([c] + rest) == c + Concat(rest)
  {
    assert ([c] + rest)[1..] == rest;
  }

  lemma {:induction false} ConcatAppend(a: seq<string>, b: seq<string>)
    ensures Concat(a + b) == Concat(a) + Concat(b)
  {
    if a != [] {
      ConcatAppend(a[1..], b);
      assert (a + b)[1..] == a[1..] + b;
    } else {
      assert a + b == b;
    }
  }

  /** A heartbeat is a comment followed by a blank line with nothing buffered:
      it raises no event. */
  lemma ReceivedPing(body: string)
    ensures ReceivedData(PING + body) == ReceivedData(body)
  {
    assert PING + body == ": ping" + "\n" + "" + "\n" + body;
    LinesCons(": ping", "", body);
    var lines := [": ping", ""] + Lines(body);
    assert lines[0][0] == ':' && lines[1..] == [""] + Lines(body) && ([""] + Lines(body))[1..] == Lines(body);
    assert Dispatch(lines, "") == Dispatch([""] + Lines(body), "");
  }

  /** A frame raises one event carrying its data, when the data is one line. */
  lemma ReceivedFrame(data: string, body: string)
    requires '\n' !in data
    ensures ReceivedData(Frame(data) + body) == [data] + ReceivedData(body)
  {
    var line := "data: " + data;
    assert Frame(data) + body == line + "\n" + "" + "\n" + body;
    LinesCons(line, "", body);
    FieldOfData(data);
    assert line[0] == 'd';
    var lines := [line, ""] + Lines(body);
    assert lines[0] == line && lines[1..] == [""] + Lines(body) && ([""] + Lines(body))[1..] == Lines(body);
    assert Dispatch(lines, "") == Dispatch([""] + Lines(body), "" + data + "\n");
    assert ("" + data + "\n")[..|data|] == data;
  }

  /** What the browser receives from the stream is exactly the data of the
      forwarded messages, in order: heartbeats are comments and raise nothing,
      and each frame raises one event. JSON text has no raw line breaks, which
      is what makes each payload a single data line (a carriage return would
      also end a line for the browser). */
  lemma {:induction false} StreamReceived(lastPing: real, msgs: seq<PubSubMessage>, clock: seq<real>)
    requires |clock| == |msgs|
    requires forall m :: m in msgs && m.data.Some? ==> '\n' !in m.data.value && '\r' !in m.data.value
    decreases |msgs|
    ensures ReceivedData(Concat(Stream(lastPing, msgs, clock))) == Forwarded(msgs)
  {
    if msgs != [] {
      var next := NextPing(lastPing, clock[0]);
      assert forall m :: m in msgs[1..] ==> m in msgs;
      StreamReceived(next, msgs[1..], clock[1..]);
      var tail := Concat(Stream(next, msgs[1..], clock[1..]));
      ConcatAppend(Step(lastPing, msgs[0], clock[0]), Stream(next, msgs[1..], clock[1..]));
      assert msgs[0] in msgs;
      StepReceived(lastPing, msgs[0], clock[0], tail);
    }
  }

  /** One message's chunk, read in front of the rest of the body, raises the
      message's data when it is forwarded and nothing otherwise. */
  lemma StepReceived(lastPing: real, m: PubSubMessage, now: real, tail: string)
    requires m.data.Some? ==> '\n' !in m.data.value && '\r' !in m.data.value
    ensures ReceivedData(Concat(Step(lastPing, m, now)) + tail)
         == (if Forwards(m) then [m.data.value] else []) + ReceivedData(tail)
  {
    var a := if PingDue(lastPing, now) then [PING] else [];
    var b := if Forwards(m) then [Frame(m.data.value)] else [];
    ConcatAppend(a, b);
    assert Concat(a) + Concat(b) + tail == Concat(a) + (Concat(b) + tail);
    OptionalFrameReceived(m, tail);
    OptionalPingReceived(lastPing, now, Concat(b) + tail);
  }

  lemma OptionalFrameReceived(m: PubSubMessage, tail: string)
    requires m.data.Some? ==> '\n' !in m.data.value
    ensures ReceivedData(Concat(if Forwards(m) then [Frame(m.data.value)] else []) + tail)
         == (if Forwards(m) then [m.data.value] else []) + ReceivedData(tail)
  {
    var b := if Forwards(m) then [Frame(m.data.value)] else [];
    if Forwards(m) {
      assert Concat(b) == Frame(m.data.value) by { ConcatAppend(b, []); }
      ReceivedFrame(m.data.value, tail);
    } else {
      assert Concat(b) + tail == tail;
    }
  }

  lemma OptionalPingReceived(lastPing: real, now: real, body: string)
    ensures ReceivedData(Concat(if PingDue(lastPing, now) then [PING] else []) + body) == ReceivedData(body)
  {
    var a := if PingDue(lastPing, now) then [PING] else [];
    if PingDue(lastPing, now) {
      assert Concat(a) == PING by { ConcatAppend(a, []); }
      ReceivedPing(body);
    } else {
      assert Concat(a) + body == body;
    }
  }
}
