/** The live map's store of the latest position of each trip: every event
    from the realtime stream replaces the entry of its trip, and the markers
    drawn are the entries' values. */
module Positions {
  import opened Wrappers
  import Realtime

  /** `Pos`: one marker. */
  datatype Pos = Pos(tripId: string, lat: real, lon: real, speedKph: real, lastSeen: int)

  /** The event data after `JSON.parse`: `speed_kph` and `ts` may be missing
      or `null` (both `None`). A payload `JSON.parse` rejects is `None` one
      level up. */
  datatype Message = Message(tripId: string, lat: real, lon: real, speedKph: Option<real>, ts: Option<int>)

  /** The entry built from a message; `nowMs` is `Date.now()`. */
  function PosOf(p: Message, nowMs: int): Pos
  {
    Pos(p.tripId, p.lat, p.lon, p.speedKph.GetOr(0.0), p.ts.GetOr(nowMs / 1000))
  }

  /** A missing speed is 0; a present `ts` is kept as it is, 0 included, and
      only a missing one is replaced by the current whole second. */
  lemma PosOfDefaults(p: Message, nowMs: int)
    ensures PosOf(p, nowMs).tripId == p.tripId
    ensures p.speedKph.None? ==> PosOf(p, nowMs).speedKph == 0.0
    ensures p.speedKph.Some? ==> PosOf(p, nowMs).speedKph == p.speedKph.value
    ensures p.ts.Some? ==> PosOf(p, nowMs).lastSeen == p.ts.value
    ensures p.ts.None? ==> PosOf(p, nowMs).lastSeen * 1000 <= nowMs < PosOf(p, nowMs).lastSeen * 1000 + 1000
  {
  }

  /** The state update of one event: the trip's entry is rebuilt from the
      message, whatever its `ts`; a payload that does not parse changes nothing. */
  function Upsert(positions: map<string, Pos>, parsed: Option<Message>, nowMs: int): map<string, Pos>
  {
    match parsed
    case None => positions
    case Some(p) => positions[p.tripId := PosOf(p, nowMs)]
  }

  /** A run of events, each with the `Date.now()` of its arrival. */
  function Received(positions: map<string, Pos>, events: seq<(Option<Message>, int)>): map<string, Pos>
    decreases |events|
  {
    if events == [] then positions
    else Received(Upsert(positions, events[0].0, events[0].1), events[1..])
  }

  /** The ids of the parsed messages among events. */
  function Ids(events: seq<(Option<Message>, int)>): set<string>
  {
    if events == [] then {}
    else (if events[0].0.Some? then {events[0].0.value.tripId} else {}) + Ids(events[1..])
  }

  /** Entries never expire: the trips in the store are those it held plus
      every trip a message arrived for. */
  lemma {:induction false} ReceivedKeys(positions: map<string, Pos>, events: seq<(Option<Message>, int)>)
    decreases |events|
    ensures Received(positions, events).Keys == positions.Keys + Ids(events)
  {
    if events != [] {
      ReceivedKeys(Upsert(positions, events[0].0, events[0].1), events[1..]);
    }
  }

  /** The last message to arrive for a trip decides its entry, whatever the
      `ts` of earlier ones; a trip no message mentions keeps its entry. */
  lemma {:induction false} LastWins(positions: map<string, Pos>, events: seq<(Option<Message>, int)>, i: nat)
    decreases |events|
    requires i < |events| && events[i].0.Some?
    requires forall j :: i < j < |events| && events[j].0.Some? ==> events[j].0.value.tripId != events[i].0.value.tripId
    ensures var id := events[i].0.value.tripId;
      id in Received(positions, events) && Received(positions, events)[id] == PosOf(events[i].0.value, events[i].1)
  {
    var id := events[i].0.value.tripId;
    if i == 0 {
      Untouched(Upsert(positions, events[0].0, events[0].1), events[1..], id);
    } else {
      LastWins(Upsert(positions, events[0].0, events[0].1), events[1..], i - 1);
    }
  }

  /** Events for other trips leave a trip's entry as it is. */
  lemma {:induction false} Untouched(positions: map<string, Pos>, events: seq<(Option<Message>, int)>, id: string)
    decreases |events|
    requires forall j :: 0 <= j < |events| && events[j].0.Some? ==> events[j].0.value.tripId != id
    ensures id in positions ==> id in Received(positions, events) && Received(positions, events)[id] == positions[id]
    ensures id !in positions ==> id !in Received(positions, events)
  {
    if events != [] {
      Untouched(Upsert(positions, events[0].0, events[0].1), events[1..], id);
    }
  }

  /** What the map shows for a payload the realtime service published: the
      service always sends `ts`, so the browser's clock is never consulted, and
      the speed is the published one (0 when the beacon had none). */
  function MessageOf(p: Realtime.Payload): Message
  {
    Message(p.tripId, p.lat, p.lon, Some(Realtime.FloatOf(p.speedKph)), Some(p.ts))
  }

  lemma PublishedPosition(b: Realtime.Beacon, now: real, nowMs: int)
    ensures var pos := PosOf(MessageOf(Realtime.PublishPayload(b, now)), nowMs);
      && pos.tripId == b.tripId && pos.lat == b.lat && pos.lon == b.lon
      && pos.lastSeen == Realtime.Trunc(b.timestamp.GetOr(now))
      && pos.speedKph == b.speedKph.GetOr(0.0)
  {
  }

  /** The component's state: the `positions` record, its keys in the order
      they were first added, and whether the event source is still open. */
  class PositionStore {
    var positions: map<string, Pos>
    var order: seq<string>
    var open: bool

    ghost predicate Valid()
      reads this
    {
      Indexed(positions, order)
    }

    /** The state on mount: no positions, the event source open. */
    constructor ()
      ensures Valid() && positions == map[] && order == [] && open
    {
      positions := map[];
      order := [];
      open := true;
    }

    /** `onmessage`: while the source is open, the event's trip entry is
        replaced (`Upsert`); a new trip's key is added to the known keys. */
    method OnMessage(parsed: Option<Message>, nowMs: int)
      requires Valid()
      modifies this
      ensures Valid() && open == old(open)
      ensures positions == if open then Upsert(old(positions), parsed, nowMs) else old(positions)
      ensures order == if open && parsed.Some? && parsed.value.tripId !in old(positions)
                       then old(order) + [parsed.value.tripId] else old(order)
    {
      if open && parsed.Some? {
        var p := parsed.value;
        if p.tripId !in positions {
          assert (set k | k in order + [p.tripId]) == (set k | k in order) + {p.tripId};
          assert p.tripId !in order;
          order := order + [p.tripId];
        }
        positions := positions[p.tripId := PosOf(p, nowMs)];
      }
    }

    /** The effect's teardown: `es.close()`; no event is delivered afterwards. */
    method Close()
      requires Valid()
      modifies this
      ensures Valid() && !open && positions == old(positions) && order == old(order)
    {
      open := false;
    }
  }

  /** The store's invariant: `order` lists each key exactly once, and each
      entry is filed under its own trip id. */
  predicate Indexed(positions: map<string, Pos>, order: seq<string>)
  {
    && positions.Keys == (set k | k in order)
    && (forall i, j :: 0 <= i < j < |order| ==> order[i] != order[j])
    && (forall k :: k in positions ==> positions[k].tripId == k)
  }

  /** `Object.values(positions)`: one marker per trip, each the trip's entry
      (which markers are shown, not the order JavaScript lists them in). */
  function Markers(positions: map<string, Pos>, order: seq<string>): (ms: seq<Pos>)
    requires Indexed(positions, order)
    ensures |ms| == |positions|
    ensures forall i :: 0 <= i < |ms| ==> ms[i].tripId in positions && ms[i] == positions[ms[i].tripId]
    ensures forall i, j :: 0 <= i < j < |ms| ==> ms[i].tripId != ms[j].tripId
    ensures forall k :: k in positions ==> exists i :: 0 <= i < |ms| && ms[i].tripId == k
  {
    KeysCount(positions, order);
    LookupCovers(positions, order);
    Lookup(positions, order)
  }

  /** The entries filed under the keys of `order`, in that order. */
  function Lookup(positions: map<string, Pos>, order: seq<string>): (ms: seq<Pos>)
    requires forall k :: k in order ==> k in positions
    ensures |ms| == |order| && forall i :: 0 <= i < |order| ==> ms[i] == positions[order[i]]
  {
    seq(|order|, i requires 0 <= i < |order| => positions[order[i]])
  }

  lemma LookupCovers(positions: map<string, Pos>, order: seq<string>)
    requires Indexed(positions, order)
    ensures forall k :: k in positions ==> exists i :: 0 <= i < |order| && Lookup(positions, order)[i].tripId == k
  {
    var ms := Lookup(positions, order);
    forall k | k in positions ensures exists i :: 0 <= i < |order| && ms[i].tripId == k {
      var i :| 0 <= i < |order| && order[i] == k;
      assert ms[i].tripId == k;
    }
  }

  /** A key list without repeats that names exactly the map's keys is as long
      as the map. */
  lemma {:induction false} KeysCount(m: map<string, Pos>, order: seq<string>)
    requires m.Keys == set k | k in order
    requires forall i, j :: 0 <= i < j < |order| ==> order[i] != order[j]
    ensures |m| == |order|
  {
    if order == [] {
      assert m.Keys == {};
    } else {
      var last := order[|order| - 1];
      var init := order[..|order| - 1];
      var rest := m - {last};
      DistinctPrefix(order);
      RestKeys(m, order);
      KeysCount(rest, init);
      assert m.Keys == rest.Keys + {last};
    }
  }

  lemma DistinctPrefix(order: seq<string>)
    requires order != [] && forall i, j :: 0 <= i < j < |order| ==> order[i] != order[j]
    ensures var init := order[..|order| - 1];
      && order[|order| - 1] !in init
      && forall i, j :: 0 <= i < j < |init| ==> init[i] != init[j]
  {
    var init := order[..|order| - 1];
    forall j | 0 <= j < |init| ensures init[j] != order[|order| - 1] {
      assert init[j] == order[j];
    }
  }

  lemma RestKeys(m: map<string, Pos>, order: seq<string>)
    requires order != [] && m.Keys == set k | k in order
    requires order[|order| - 1] !in order[..|order| - 1]
    ensures var init := order[..|order| - 1];
      (m - {order[|order| - 1]}).Keys == set k | k in init
  {
    var last := order[|order| - 1];
    var init := order[..|order| - 1];
    var rest := m - {last};
    forall k ensures k in rest <==> k in init {
      if k in init { assert k in order; }
      if k in order && k != last {
        var j :| 0 <= j < |order| && order[j] == k;
        assert j < |order| - 1 && init[j] == k;
      }
    }
  }
}
