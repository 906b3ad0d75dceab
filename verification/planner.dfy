/** The route optimizer's journey planner: an in-memory snapshot of the GTFS
    tables, a label-setting search over stops in which a stop is reached by
    riding a trip or by walking a transfer, and the reconstruction of the
    legs of the journey found. */
module Planner {
  import opened Wrappers
  import opened Seqs
  import opened Text
  import opened ClockText
  import Timetable

  /* ---------------- the snapshot ---------------- */

  /** `StopEvent`: one call of a trip at a stop; times are seconds after
      midnight as `hms_to_sec` reads them (past 24:00 for late trips). */
  datatype StopEvent = StopEvent(tripId: string, routeId: string, stopId: string, arr: int, dep: int, stopSeq: int)

  /** A row of the departures query, its time already in seconds. */
  datatype StopTimeRow = StopTimeRow(tripId: string, stopId: string, stopSeq: int, dep: int)

  /** A row of `transfers`, the distance in metres. */
  datatype TransferRow = TransferRow(from: string, to: string, distance: int)

  /** An entry of a stop's departure list: `(trip_id, dep_seconds, stop_sequence)`. */
  datatype Departure = Departure(tripId: string, dep: int, stopSeq: int)

  /** `trips_by_id`, `dep_by_stop` and `tf_map`. */
  datatype Snapshot = Snapshot(
    trips: map<string, seq<StopEvent>>,
    deps: map<string, seq<Departure>>,
    walks: map<string, seq<(string, int)>>)

  /** `d.setdefault(k, []).append(v)`. */
  function Append<V>(m: map<string, seq<V>>, k: string, v: V): map<string, seq<V>>
  {
    m[k := (if k in m then m[k] else []) + [v]]
  }

  /** The events of one trip, in row order. */
  function EventsOf(evs: seq<StopEvent>, tid: string): (r: seq<StopEvent>)
    ensures forall e :: e in r <==> e in evs && e.tripId == tid
  {
    if evs == [] then []
    else EventsOf(evs[..|evs| - 1], tid) + (if evs[|evs| - 1].tripId == tid then [evs[|evs| - 1]] else [])
  }

  /** `trips_by_id` built from the event rows. */
  function TripsOf(evs: seq<StopEvent>): map<string, seq<StopEvent>>
  {
    if evs == [] then map[] else Append(TripsOf(evs[..|evs| - 1]), evs[|evs| - 1].tripId, evs[|evs| - 1])
  }

  /** Each trip of `trips_by_id` lists exactly its own rows, in row order, and
      the trips listed are those with at least one row. */
  lemma {:induction false} TripsOfGroups(evs: seq<StopEvent>, tid: string)
    ensures tid in TripsOf(evs) <==> EventsOf(evs, tid) != []
    ensures tid in TripsOf(evs) ==> TripsOf(evs)[tid] == EventsOf(evs, tid)
  {
    if evs != [] {
      TripsOfGroups(evs[..|evs| - 1], tid);
    }
  }

  /** Loop 1 of `load_snapshot`. */
  method BuildTrips(evs: seq<StopEvent>) returns (m: map<string, seq<StopEvent>>)
    ensures m == TripsOf(evs)
  {
    m := map[];
    var i := 0;
    while i < |evs|
      invariant 0 <= i <= |evs|
      invariant m == TripsOf(evs[..i])
    {
      assert evs[..i + 1][..i] == evs[..i];
      m := Append(m, evs[i].tripId, evs[i]);
      i := i + 1;
    }
    assert evs[..i] == evs;
  }

  /** The departures listed at one stop, in row order. */
  function DeparturesAt(rows: seq<StopTimeRow>, sid: string): (r: seq<Departure>)
    ensures forall d :: d in r <==> exists row :: row in rows && row.stopId == sid && d == Departure(row.tripId, row.dep, row.stopSeq)
  {
    if rows == [] then []
    else
      var last := rows[|rows| - 1];
      DeparturesAt(rows[..|rows| - 1], sid) + (if last.stopId == sid then [Departure(last.tripId, last.dep, last.stopSeq)] else [])
  }

  /** The grouping half of loop 2 of `load_snapshot`. */
  function GroupDeps(rows: seq<StopTimeRow>): map<string, seq<Departure>>
  {
    if rows == [] then map[]
    else
      var last := rows[|rows| - 1];
      Append(GroupDeps(rows[..|rows| - 1]), last.stopId, Departure(last.tripId, last.dep, last.stopSeq))
  }

  lemma {:induction false} GroupDepsGroups(rows: seq<StopTimeRow>, sid: string)
    ensures sid in GroupDeps(rows) <==> DeparturesAt(rows, sid) != []
    ensures sid in GroupDeps(rows) ==> GroupDeps(rows)[sid] == DeparturesAt(rows, sid)
  {
    if rows != [] {
      GroupDepsGroups(rows[..|rows| - 1], sid);
    }
  }

  function DepTime(d: Departure): int
  {
    d.dep
  }

  /** `dep_by_stop`: the grouped lists, each sorted by departure time. */
  function DepsOf(rows: seq<StopTimeRow>): map<string, seq<Departure>>
  {
    var g := GroupDeps(rows);
    map sid | sid in g :: SortBy(g[sid], DepTime)
  }

  /** A stop's list holds exactly the departures of its rows, by ascending
      time, and Python's stable sort keeps rows of equal time in row order. */
  lemma DepsOfSorted(rows: seq<StopTimeRow>, sid: string)
    ensures sid in DepsOf(rows) <==> DeparturesAt(rows, sid) != []
    ensures sid in DepsOf(rows) ==>
      && SortedBy(DepsOf(rows)[sid], DepTime)
      && multiset(DepsOf(rows)[sid]) == multiset(DeparturesAt(rows, sid))
      && forall k :: WithKey(DepsOf(rows)[sid], DepTime, k) == WithKey(DeparturesAt(rows, sid), DepTime, k)
  {
    GroupDepsGroups(rows, sid);
    if sid in DepsOf(rows) {
      SortByCorrect(DeparturesAt(rows, sid), DepTime);
    }
  }

  /** Loop 2 of `load_snapshot`: group by stop, then sort each stop's list. */
  method BuildDeps(rows: seq<StopTimeRow>) returns (m: map<string, seq<Departure>>)
    ensures m == DepsOf(rows)
  {
    var g: map<string, seq<Departure>> := map[];
    var i := 0;
    while i < |rows|
      invariant 0 <= i <= |rows|
      invariant g == GroupDeps(rows[..i])
    {
      assert rows[..i + 1][..i] == rows[..i];
      g := Append(g, rows[i].stopId, Departure(rows[i].tripId, rows[i].dep, rows[i].stopSeq));
      i := i + 1;
    }
    assert rows[..i] == rows;
    m := SortEach(g);
  }

  /** The `for sid in dep_by_stop: ....sort(key=dep)` loop. */
  method SortEach(g: map<string, seq<Departure>>) returns (m: map<string, seq<Departure>>)
    ensures m == map sid | sid in g :: SortBy(g[sid], DepTime)
  {
    m := g;
    var todo := g.Keys;
    while todo != {}
      invariant todo <= g.Keys && m.Keys == g.Keys
      invariant forall sid :: sid in g ==> m[sid] == if sid in todo then g[sid] else SortBy(g[sid], DepTime)
      decreases todo
    {
      var sid :| sid in todo;
      m := m[sid := SortBy(m[sid], DepTime)];
      todo := todo - {sid};
    }
  }

  /** What one transfer row adds to the list of stop `s`: the row is an
      undirected edge, so it is listed at both of its ends. */
  function Contribution(row: TransferRow, s: string): seq<(string, int)>
  {
    (if row.from == s then [(row.to, row.distance)] else []) + (if row.to == s then [(row.from, row.distance)] else [])
  }

  /** The walking list of one stop, in row order. */
  function WalksFrom(rows: seq<TransferRow>, s: string): seq<(string, int)>
  {
    if rows == [] then [] else WalksFrom(rows[..|rows| - 1], s) + Contribution(rows[|rows| - 1], s)
  }

  /** `tf_map`. */
  function WalksOf(rows: seq<TransferRow>): map<string, seq<(string, int)>>
  {
    if rows == [] then map[]
    else
      var r := rows[|rows| - 1];
      Append(Append(WalksOf(rows[..|rows| - 1]), r.from, (r.to, r.distance)), r.to, (r.from, r.distance))
  }

  lemma {:induction false} WalksOfGroups(rows: seq<TransferRow>, s: string)
    ensures s in WalksOf(rows) <==> WalksFrom(rows, s) != []
    ensures s in WalksOf(rows) ==> WalksOf(rows)[s] == WalksFrom(rows, s)
  {
    if rows != [] {
      WalksOfGroups(rows[..|rows| - 1], s);
      var r := rows[|rows| - 1];
      if r.from == s && r.to == s {
        assert Contribution(r, s) == [(r.to, r.distance), (r.from, r.distance)];
      }
    }
  }

  /** The walking edges are symmetric and every one comes from a transfer row
      read in one direction or the other. */
  lemma {:induction false} WalksFromRows(rows: seq<TransferRow>, a: string, b: string, d: int)
    ensures (b, d) in WalksFrom(rows, a) <==> (a, d) in WalksFrom(rows, b)
    ensures (b, d) in WalksFrom(rows, a) <==>
      exists r :: r in rows && r.distance == d && ((r.from == a && r.to == b) || (r.from == b && r.to == a))
  {
    if rows != [] {
      var init := rows[..|rows| - 1];
      WalksFromRows(init, a, b, d);
      assert rows == init + [rows[|rows| - 1]];
    }
  }

  /** Loop 3 of `load_snapshot`. */
  method BuildWalks(rows: seq<TransferRow>) returns (m: map<string, seq<(string, int)>>)
    ensures m == WalksOf(rows)
  {
    m := map[];
    var i := 0;
    while i < |rows|
      invariant 0 <= i <= |rows|
      invariant m == WalksOf(rows[..i])
    {
      assert rows[..i + 1][..i] == rows[..i];
      var r := rows[i];
      m := Append(m, r.from, (r.to, r.distance));
      m := Append(m, r.to, (r.from, r.distance));
      i := i + 1;
    }
    assert rows[..i] == rows;
  }

  /** `load_snapshot`, from the rows of its three queries in query order. */
  method LoadSnapshot(evRows: seq<StopEvent>, stRows: seq<StopTimeRow>, tfRows: seq<TransferRow>)
    returns (snap: Snapshot)
    ensures snap == Snapshot(TripsOf(evRows), DepsOf(stRows), WalksOf(tfRows))
  {
    var trips := BuildTrips(evRows);
    var deps := BuildDeps(stRows);
    var walks := BuildWalks(tfRows);
    snap := Snapshot(trips, deps, walks);
  }

  /* ---------------- the requested departure ---------------- */

  /** `depart_hm` with `":00"` added when it is five characters long, read by
      `hms_to_sec`; `None` where that raises. */
  function DepartSeconds(departHm: string): Option<int>
  {
    HmsToSeconds(departHm + (if |departHm| == 5 then ":00" else ""))
  }

  lemma DepartSecondsLong(s: string)
    requires |s| != 5
    ensures DepartSeconds(s) == HmsToSeconds(s)
  {
    assert s + "" == s;
  }

  lemma DepartSecondsShort(s: string)
    requires |s| == 5
    ensures DepartSeconds(s) == HmsToSeconds(s + ":00")
  {
  }

  lemma HmLength(h: int, m: int)
    requires 0 <= h < 100 && 0 <= m < 100
    ensures |Pad2(h) + ":" + Pad2(m)| == 5
  {
    Pad2Digits(h);
    Pad2Digits(m);
  }

  lemma HmWithSeconds(h: int, m: int)
    ensures Pad2(h) + ":" + Pad2(m) + ":00" == Hms(h, m, 0)
  {
    assert Pad2(0) == "00";
    assert Pad2(h) + ":" + Pad2(m) + ":00" == Hms(h, m, 0);
  }

  /** An `"HH:MM"` departure is read as that time with zero seconds. */
  lemma DepartSecondsOfHm(h: int, m: int)
    requires 0 <= h < 100 && 0 <= m < 100
    ensures DepartSeconds(Pad2(h) + ":" + Pad2(m)) == Some(h * 3600 + m * 60)
  {
    HmLength(h, m);
    HmReadBack(h, m);
    DepartSecondsShort(Pad2(h) + ":" + Pad2(m));
  }

  lemma HmReadBack(h: int, m: int)
    requires 0 <= h < 100 && 0 <= m < 100
    ensures HmsToSeconds(Pad2(h) + ":" + Pad2(m) + ":00") == Some(h * 3600 + m * 60)
  {
    HmsZeroSeconds(h, m, 0);
    HmWithSeconds(h, m);
    ReadsAlike(Pad2(h) + ":" + Pad2(m) + ":00", Hms(h, m, 0), Some(h * 3600 + m * 60));
  }

  lemma HmsZeroSeconds(h: int, m: int, x: int)
    requires 0 <= h < 100 && 0 <= m < 100 && x == 0
    ensures HmsToSeconds(Hms(h, m, x)) == Some(h * 3600 + m * 60)
  {
    HmsZeroSecondsAt(h, m, x, Some(h * 3600 + m * 60));
  }

  lemma HmsZeroSecondsAt(h: int, m: int, x: int, r: Option<int>)
    requires 0 <= h < 100 && 0 <= m < 100 && x == 0 && r == Some(h * 3600 + m * 60)
    ensures HmsToSeconds(Hms(h, m, x)) == r
  {
    SomeOfEqual(h * 3600 + m * 60 + x, h * 3600 + m * 60);
    HmsToSecondsOfHmsAs(h, m, x, r);
  }

  lemma ReadsAlike(s: string, t: string, r: Option<int>)
    requires s == t
    requires HmsToSeconds(t) == r
    ensures HmsToSeconds(s) == r
  {
  }

  /** A full `"HH:MM:SS"` departure is read as it is. */
  lemma DepartSecondsOfHms(h: int, m: int, x: int)
    requires 0 <= h < 100 && 0 <= m < 100 && 0 <= x < 100
    ensures DepartSeconds(Hms(h, m, x)) == Some(h * 3600 + m * 60 + x)
  {
    Pad2Digits(h);
    Pad2Digits(m);
    Pad2Digits(x);
    DepartSecondsLong(Hms(h, m, x));
    HmsToSecondsOfHms(h, m, x);
  }

  /* ---------------- the search state ---------------- */

  /** `INF`: the label of a stop not reached yet. */
  const INF: int := 1_000_000_000

  /** `best.get(v, INF)`. */
  function Label(best: map<string, int>, v: string): int
  {
    if v in best then best[v] else INF
  }

  /** `parent[v]`: how `v` was reached from `prev`. */
  datatype Parent = Ride(prev: string, tripId: string, boardSeq: int, alightSeq: int) | Walk(prev: string)

  /** `best`, `parent` and the queue `pq`, a heap kept here as the sequence
      of its entries. */
  datatype Labels = Labels(best: map<string, int>, parent: map<string, Parent>, pq: seq<(int, string)>)

  /** The `if arrive_v < best.get(v, INF)` block: a strictly earlier arrival
      replaces the label and the parent of `v` and is queued. */
  function Relax(s: Labels, v: string, arrive: int, p: Parent): Labels
  {
    if arrive < Label(s.best, v) then Labels(s.best[v := arrive], s.parent[v := p], s.pq + [(arrive, v)]) else s
  }

  /** A relaxation leaves `v` with the earlier of its label and the arrival,
      and every other label as it was. */
  lemma RelaxLabels(s: Labels, v: string, arrive: int, p: Parent)
    ensures var r := Relax(s, v, arrive, p);
      && Label(r.best, v) == (if arrive < Label(s.best, v) then arrive else Label(s.best, v))
      && (forall x :: x != v ==> Label(r.best, x) == Label(s.best, x))
      && (arrive < Label(s.best, v) ==> r.parent == s.parent[v := p] && r.pq == s.pq + [(arrive, v)])
      && (arrive >= Label(s.best, v) ==> r == s)
  {
  }

  /** The first call of a trip with the given stop sequence: the
      `for ... break ... else: continue` search. */
  function FirstIndex(evs: seq<StopEvent>, sq: int): (r: Option<nat>)
    ensures r.Some? ==> r.value < |evs| && evs[r.value].stopSeq == sq && forall k :: 0 <= k < r.value ==> evs[k].stopSeq != sq
    ensures r.None? ==> forall k :: 0 <= k < |evs| ==> evs[k].stopSeq != sq
  {
    if evs == [] then None
    else if evs[0].stopSeq == sq then Some(0)
    else match FirstIndex(evs[1..], sq)
      case None => None
      case Some(i) => Some(i + 1)
  }

  /** The loop at the boarding stop. */
  method FindSeq(evs: seq<StopEvent>, sq: int) returns (r: Option<nat>)
    ensures r == FirstIndex(evs, sq)
  {
    var i := 0;
    while i < |evs|
      invariant 0 <= i <= |evs|
      invariant forall k :: 0 <= k < i ==> evs[k].stopSeq != sq
    {
      if evs[i].stopSeq == sq {
        return Some(i);
      }
      i := i + 1;
    }
    return None;
  }

  /** How a stop with a parent is connected to its parent's stop in the
      snapshot: a walk follows a transfer listed at the parent's stop; a ride
      boards a departure listed there and alights at a later call of the
      same trip, at the stop reached. */
  ghost predicate Link(snap: Snapshot, v: string, p: Parent)
  {
    match p
    case Walk(prev) =>
      prev in snap.walks && exists q :: q in snap.walks[prev] && q.0 == v
    case Ride(prev, tid, bs, als) =>
      && prev in snap.deps && (exists d :: d in snap.deps[prev] && d.tripId == tid && d.stopSeq == bs)
      && tid in snap.trips
      && exists i, j :: 0 <= i < j < |snap.trips[tid]| && snap.trips[tid][i].stopSeq == bs
                         && snap.trips[tid][j].stopSeq == als && snap.trips[tid][j].stopId == v
  }

  /** Every queued entry names a labelled stop no earlier than its label, and
      no entry is queued twice. */
  ghost predicate QueueOk(s: Labels)
  {
    && (forall i :: 0 <= i < |s.pq| ==> s.pq[i].1 in s.best && s.pq[i].0 >= s.best[s.pq[i].1])
    && (forall i, j :: 0 <= i < j < |s.pq| ==> s.pq[i] != s.pq[j])
  }

  /** The labelled stops are the origin and the stops with a parent; each
      parent is labelled and linked in the snapshot; a stop reached by a
      relaxation has a label below `INF`. */
  ghost predicate TreeOk(snap: Snapshot, origin: string, s: Labels)
  {
    && origin in s.best
    && s.parent.Keys <= s.best.Keys <= s.parent.Keys + {origin}
    && (forall v :: v in s.parent ==> s.parent[v].prev in s.best && Link(snap, v, s.parent[v]))
  }

  ghost predicate Inv(snap: Snapshot, origin: string, s: Labels)
  {
    QueueOk(s) && TreeOk(snap, origin, s)
  }

  /** Labels only ever go down, and a stop labelled afresh is below `INF`. */
  ghost predicate Shrinks(s0: Labels, s: Labels)
  {
    && (forall x :: x in s0.best ==> x in s.best && s.best[x] <= s0.best[x])
    && (forall x :: x in s.best && x !in s0.best ==> s.best[x] < INF)
  }

  /** `a` was labelled before `b`, comparing labels first and then the moment
      the label was set. */
  ghost predicate Before(best: map<string, int>, stamp: map<string, int>, a: string, b: string)
    requires a in best && b in best && a in stamp && b in stamp
  {
    best[a] < best[b] || (best[a] == best[b] && stamp[a] < stamp[b])
  }

  /** Every parent was labelled before its child; `stamp` records when each
      label was last set, by a clock that has passed all of them. */
  ghost predicate Stamped(s: Labels, stamp: map<string, int>, clock: int)
  {
    && stamp.Keys == s.best.Keys
    && (forall v :: v in stamp ==> stamp[v] < clock)
    && (forall v :: v in s.parent ==> v in s.best && s.parent[v].prev in s.best && Before(s.best, stamp, s.parent[v].prev, v))
  }

  /** The origin keeps the departure as its label, has no parent, and no
      label is earlier than the departure. */
  ghost predicate Grounded(s: Labels, origin: string, lo: int)
  {
    && origin in s.best && s.best[origin] == lo && origin !in s.parent
    && forall v :: v in s.best ==> s.best[v] >= lo
  }

  ghost predicate Mono(s: Labels, origin: string, lo: int, stamp: map<string, int>, clock: int)
  {
    Stamped(s, stamp, clock) && Grounded(s, origin, lo)
  }

  ghost function NextStamp(best: map<string, int>, stamp: map<string, int>, clock: int, v: string, arrive: int): map<string, int>
  {
    if arrive < Label(best, v) then stamp[v := clock] else stamp
  }

  lemma RelaxQueue(s: Labels, v: string, arrive: int, p: Parent)
    requires QueueOk(s)
    ensures QueueOk(Relax(s, v, arrive, p))
  {
    if arrive < Label(s.best, v) {
      var r := Relax(s, v, arrive, p);
      forall i | 0 <= i < |r.pq| ensures r.pq[i].1 in r.best && r.pq[i].0 >= r.best[r.pq[i].1] {
        if i < |s.pq| {
          assert r.pq[i] == s.pq[i];
        }
      }
      forall i, j | 0 <= i < j < |r.pq| ensures r.pq[i] != r.pq[j] {
        if j == |s.pq| {
          assert r.pq[i] == s.pq[i];
        }
      }
    }
  }

  lemma RelaxTree(snap: Snapshot, origin: string, s: Labels, v: string, arrive: int, p: Parent)
    requires TreeOk(snap, origin, s) && p.prev in s.best && Link(snap, v, p)
    ensures TreeOk(snap, origin, Relax(s, v, arrive, p))
    ensures Shrinks(s, Relax(s, v, arrive, p))
  {
  }

  lemma RelaxMono(s: Labels, origin: string, lo: int, stamp: map<string, int>, clock: int, v: string, arrive: int, p: Parent)
    requires Mono(s, origin, lo, stamp, clock) && p.prev in s.best && arrive >= lo && arrive >= s.best[p.prev]
    ensures Mono(Relax(s, v, arrive, p), origin, lo, NextStamp(s.best, stamp, clock, v, arrive), clock + 1)
  {
    var r := Relax(s, v, arrive, p);
    var st := NextStamp(s.best, stamp, clock, v, arrive);
    if arrive < Label(s.best, v) {
      assert p.prev != v;
      forall x | x in r.parent
        ensures x in r.best && r.parent[x].prev in r.best && Before(r.best, st, r.parent[x].prev, x)
      {
        if x != v {
          var q := s.parent[x].prev;
          assert Before(s.best, stamp, q, x);
        }
      }
    }
  }

  /** One relaxation keeps every invariant of the search. */
  lemma RelaxStep(snap: Snapshot, origin: string, s: Labels, v: string, arrive: int, p: Parent,
                  lo: int, stamp: map<string, int>, clock: int, mono: bool)
    requires Inv(snap, origin, s) && p.prev in s.best && Link(snap, v, p)
    requires mono ==> Mono(s, origin, lo, stamp, clock) && arrive >= lo && arrive >= s.best[p.prev]
    ensures Inv(snap, origin, Relax(s, v, arrive, p)) && Shrinks(s, Relax(s, v, arrive, p))
    ensures Relax(s, v, arrive, p).best.Keys <= s.best.Keys + {v}
    ensures mono ==> Mono(Relax(s, v, arrive, p), origin, lo, NextStamp(s.best, stamp, clock, v, arrive), clock + 1)
  {
    RelaxQueue(s, v, arrive, p);
    RelaxTree(snap, origin, s, v, arrive, p);
    if mono {
      RelaxMono(s, origin, lo, stamp, clock, v, arrive, p);
    }
  }

  /* ---------------- the queue ---------------- */

  /** Python's order on `(seconds, stop_id)` tuples: time first, then the
      stop ids by code point. */
  predicate EntryLess(a: (int, string), b: (int, string))
  {
    a.0 < b.0 || (a.0 == b.0 && LexLess(a.1, b.1))
  }

  /** The tuple order is a strict total order. */
  lemma EntryLessOrder(a: (int, string), b: (int, string), c: (int, string))
    ensures !EntryLess(a, a)
    ensures EntryLess(a, b) && EntryLess(b, c) ==> EntryLess(a, c)
    ensures a == b || EntryLess(a, b) || EntryLess(b, a)
  {
    LexLessIrreflexive(a.1);
    if EntryLess(a, b) && EntryLess(b, c) && a.0 == b.0 && b.0 == c.0 {
      LexLessTransitive(a.1, b.1, c.1);
    }
    LexLessTotal(a.1, b.1);
  }

  /** `heapq.heappop`: the position of the least entry. */
  method PopMin(pq: seq<(int, string)>) returns (m: nat)
    requires |pq| > 0
    ensures m < |pq| && forall i :: 0 <= i < |pq| ==> pq[i] == pq[m] || EntryLess(pq[m], pq[i])
  {
    m := 0;
    var i := 1;
    while i < |pq|
      invariant m < i <= |pq|
      invariant forall k :: 0 <= k < i ==> pq[k] == pq[m] || EntryLess(pq[m], pq[k])
    {
      EntryLessOrder(pq[i], pq[m], pq[i]);
      if EntryLess(pq[i], pq[m]) {
        forall k | 0 <= k < i ensures pq[k] == pq[i] || EntryLess(pq[i], pq[k]) {
          EntryLessOrder(pq[i], pq[m], pq[k]);
        }
        m := i;
      }
      i := i + 1;
    }
  }

  /** Taking entry `m` out of a queue without repeats leaves the others and
      not that entry. */
  lemma RemoveAt(s: Labels, m: nat)
    requires QueueOk(s) && m < |s.pq|
    ensures var r := s.(pq := s.pq[..m] + s.pq[m + 1..]);
      && QueueOk(r) && |r.pq| == |s.pq| - 1 && s.pq[m] !in r.pq
      && forall y :: y in r.pq ==> y in s.pq
  {
    var r := s.(pq := s.pq[..m] + s.pq[m + 1..]);
    assert forall i :: 0 <= i < |r.pq| ==> r.pq[i] == if i < m then s.pq[i] else s.pq[i + 1];
  }

  /* ---------------- the snapshot facts the search relies on ---------------- */

  /** Every stop a trip calls at. */
  ghost function EventStops(snap: Snapshot): set<string>
  {
    set tid, e | tid in snap.trips && e in snap.trips[tid] :: e.stopId
  }

  /** Every stop a transfer leads to. */
  ghost function WalkTargets(snap: Snapshot): set<string>
  {
    set a, q | a in snap.walks && q in snap.walks[a] :: q.0
  }

  /** Every `(stop_id, trip_id)` key a departure list offers. */
  ghost function Boardings(snap: Snapshot): set<(string, string)>
  {
    set u, d | u in snap.deps && d in snap.deps[u] :: (u, d.tripId)
  }

  /** A departure lists a trip that `trips_by_id` lacks. */
  ghost predicate MissingTrip(snap: Snapshot)
  {
    exists u :: u in snap.deps && exists d :: d in snap.deps[u] && d.tripId !in snap.trips
  }

  /** Riding from a listed departure never arrives before that departure. */
  ghost predicate ArrivesAfter(snap: Snapshot, d: Departure)
  {
    d.tripId in snap.trips ==>
      match FirstIndex(snap.trips[d.tripId], d.stopSeq)
      case None => true
      case Some(i) => forall j :: i < j < |snap.trips[d.tripId]| ==> snap.trips[d.tripId][j].arr >= d.dep
  }

  /** Along every trip, the calls after each listed departure arrive no
      earlier than it: what a timetable whose times never go back gives. */
  ghost predicate TripsForward(snap: Snapshot)
  {
    forall u :: u in snap.deps ==> forall d :: d in snap.deps[u] ==> ArrivesAfter(snap, d)
  }

  /** No walking transfer takes negative time. */
  ghost predicate WalksForward(snap: Snapshot, walk: int -> int)
  {
    forall a :: a in snap.walks ==> forall q :: q in snap.walks[a] ==> walk(q.1) >= 0
  }

  /** Relaxations at times from `t` on: the queue grows by entries no earlier
      than `t`, each better than the label its stop had, and labels up to `t`
      stay as they were. */
  ghost predicate Appends(s0: Labels, s: Labels, t: int)
  {
    && |s0.pq| <= |s.pq| && s.pq[..|s0.pq|] == s0.pq
    && (forall i :: |s0.pq| <= i < |s.pq| ==> t <= s.pq[i].0 < Label(s0.best, s.pq[i].1))
    && (forall x :: x in s0.best && s0.best[x] <= t ==> x in s.best && s.best[x] == s0.best[x])
  }

  lemma AppendsStep(s0: Labels, s: Labels, t: int, v: string, arrive: int, p: Parent)
    requires Appends(s0, s, t) && Shrinks(s0, s) && arrive >= t
    ensures Appends(s0, Relax(s, v, arrive, p), t)
  {
    var r := Relax(s, v, arrive, p);
    if arrive < Label(s.best, v) {
      assert r.pq[..|s0.pq|] == s.pq[..|s0.pq|];
      assert Label(s.best, v) <= Label(s0.best, v);
    }
  }

  lemma AppendsIn(s0: Labels, s: Labels, t: int, y: (int, string))
    requires Appends(s0, s, t) && y in s.pq
    ensures y in s0.pq || t <= y.0 < Label(s0.best, y.1)
  {
    var i :| 0 <= i < |s.pq| && s.pq[i] == y;
    if i < |s0.pq| {
      assert s0.pq[i] == y;
    }
  }

  lemma ShrinksTrans(s0: Labels, s1: Labels, s2: Labels)
    requires Shrinks(s0, s1) && Shrinks(s1, s2)
    ensures Shrinks(s0, s2)
  {
  }

  /* ---------------- expanding a popped stop ---------------- */

  /** `p` rides from `u` on a trip boarded at a departure listed at `u` no
      earlier than `t`. */
  ghost predicate RideAfter(snap: Snapshot, u: string, t: int, p: Parent)
  {
    && p.Ride? && p.prev == u && u in snap.deps
    && exists d :: d in snap.deps[u] && d.tripId == p.tripId && d.stopSeq == p.boardSeq && d.dep >= t
  }

  /** From `s0` to `s`, every label lowered or added has a parent riding from
      `u` (`RideAfter`) on a trip whose key is in `keys`, and every label left
      as it was keeps its parent. */
  ghost predicate RidesOnly(snap: Snapshot, u: string, t: int, s0: Labels, s: Labels, keys: set<(string, string)>)
  {
    && (forall v :: v in s.best && s.best[v] < Label(s0.best, v) ==>
          v in s.parent && RideAfter(snap, u, t, s.parent[v]) && (u, s.parent[v].tripId) in keys)
    && (forall v :: v in s0.parent && v in s.best && s.best[v] == Label(s0.best, v) ==>
          v in s.parent && s.parent[v] == s0.parent[v])
  }

  lemma RidesOnlyStep(snap: Snapshot, u: string, t: int, s0: Labels, s: Labels, keys: set<(string, string)>,
                      v: string, arrive: int, p: Parent)
    requires RidesOnly(snap, u, t, s0, s, keys) && Shrinks(s0, s)
    requires RideAfter(snap, u, t, p) && (u, p.tripId) in keys
    ensures RidesOnly(snap, u, t, s0, Relax(s, v, arrive, p), keys)
  {
  }

  lemma RidesOnlyTrans(snap: Snapshot, u: string, t: int, s0: Labels, s1: Labels, s2: Labels, k1: set<(string, string)>,
                       k2: set<(string, string)>)
    requires RidesOnly(snap, u, t, s0, s1, k1) && RidesOnly(snap, u, t, s1, s2, k2)
    requires Shrinks(s0, s1) && Shrinks(s1, s2)
    ensures RidesOnly(snap, u, t, s0, s2, k1 + k2)
  {
    forall v | v in s2.best && s2.best[v] < Label(s0.best, v)
      ensures v in s2.parent && RideAfter(snap, u, t, s2.parent[v]) && (u, s2.parent[v].tripId) in k1 + k2
    {
      if s2.best[v] == Label(s1.best, v) {
        assert v in s1.best;
      }
    }
    forall v | v in s0.parent && v in s2.best && s2.best[v] == Label(s0.best, v)
      ensures v in s2.parent && s2.parent[v] == s0.parent[v]
    {
      if v in s1.best {
        assert s2.best[v] <= s1.best[v] <= Label(s0.best, v);
      }
    }
  }

  /** Calls after `start` and before `hi` of a trip's events are labelled no
      later than their arrival: a ride boarded at call `start` relaxed them. */
  ghost predicate RodeTo(evs: seq<StopEvent>, start: nat, hi: int, best: map<string, int>)
  {
    hi <= |evs| && forall i :: start < i < hi ==> Label(best, evs[i].stopId) <= evs[i].arr
  }

  /** Relaxed calls stay relaxed while labels only go down. */
  lemma RodeToShrinks(evs: seq<StopEvent>, start: nat, hi: int, s0: Labels, s: Labels)
    requires RodeTo(evs, start, hi, s0.best) && Shrinks(s0, s)
    ensures RodeTo(evs, start, hi, s.best)
  {
    forall i | start < i < hi
      ensures Label(s.best, evs[i].stopId) <= evs[i].arr
    {
      LabelShrinks(s0, s, evs[i].stopId);
    }
  }

  lemma LabelShrinks(s0: Labels, s: Labels, v: string)
    requires Shrinks(s0, s)
    ensures Label(s.best, v) <= Label(s0.best, v)
  {
  }

  /** The departures listed at `u`: `dep_by_stop.get(u, [])`. */
  function DepsAt(snap: Snapshot, u: string): seq<Departure>
  {
    if u in snap.deps then snap.deps[u] else []
  }

  /** The `(stop, trip)` keys of the departures `ds` from `u` no earlier
      than `t`. */
  ghost function KeysOf(u: string, ds: seq<Departure>, t: int): set<(string, string)>
  {
    set d | d in ds && d.dep >= t :: (u, d.tripId)
  }

  lemma KeysOfSnoc(u: string, ds: seq<Departure>, t: int, k: nat)
    requires k < |ds|
    ensures KeysOf(u, ds[..k + 1], t) == KeysOf(u, ds[..k], t) + (if ds[k].dep >= t then {(u, ds[k].tripId)} else {})
  {
    assert ds[..k + 1] == ds[..k] + [ds[k]];
  }

  /** Departure `i` at `u` is boarded by the loop that starts with the keys
      `seen0`: it is no earlier than `t`, and its key is neither in `seen0`
      nor the key of an earlier such departure. */
  ghost predicate NewAt(u: string, ds: seq<Departure>, t: int, seen0: set<(string, string)>, i: int)
  {
    0 <= i < |ds| && ds[i].dep >= t && (u, ds[i].tripId) !in seen0 + KeysOf(u, ds[..i], t)
  }

  /** The trip of `d` is known, and every call after the one `d` boards at,
      if the trip has it, is relaxed. */
  ghost predicate Ridden(snap: Snapshot, d: Departure, best: map<string, int>)
  {
    && d.tripId in snap.trips
    && match FirstIndex(snap.trips[d.tripId], d.stopSeq)
       case None => true
       case Some(start) => RodeTo(snap.trips[d.tripId], start, |snap.trips[d.tripId]|, best)
  }

  /** Every departure from `u` that the loop starting with keys `seen0`
      boards has been ridden. */
  ghost predicate RidesRelaxed(snap: Snapshot, u: string, t: int, seen0: set<(string, string)>, best: map<string, int>)
  {
    forall i :: NewAt(u, DepsAt(snap, u), t, seen0, i) ==> Ridden(snap, DepsAt(snap, u)[i], best)
  }

  /** Every transfer listed at `u` is relaxed with `t` plus its walking time. */
  ghost predicate WalksRelaxed(snap: Snapshot, u: string, t: int, walk: int -> int, best: map<string, int>)
  {
    u in snap.walks ==> forall i :: 0 <= i < |snap.walks[u]| ==> Label(best, snap.walks[u][i].0) <= t + walk(snap.walks[u][i].1)
  }

  /** `u` was expanded at `t` with the keys `seen0` already boarded: its rides
      and its walks are relaxed. */
  ghost predicate Expanded(snap: Snapshot, u: string, t: int, walk: int -> int, seen0: set<(string, string)>,
                           best: map<string, int>)
  {
    RidesRelaxed(snap, u, t, seen0, best) && WalksRelaxed(snap, u, t, walk, best)
  }

  /** An expanded stop stays expanded while labels only go down. */
  lemma ExpandedShrinks(snap: Snapshot, u: string, t: int, walk: int -> int, seen0: set<(string, string)>,
                        s0: Labels, s: Labels)
    requires Expanded(snap, u, t, walk, seen0, s0.best) && Shrinks(s0, s)
    ensures Expanded(snap, u, t, walk, seen0, s.best)
  {
    RidesRelaxedShrinks(snap, u, t, seen0, s0, s);
    if u in snap.walks {
      forall i | 0 <= i < |snap.walks[u]|
        ensures Label(s.best, snap.walks[u][i].0) <= t + walk(snap.walks[u][i].1)
      {
        LabelShrinks(s0, s, snap.walks[u][i].0);
      }
    }
  }

  lemma RidesRelaxedShrinks(snap: Snapshot, u: string, t: int, seen0: set<(string, string)>, s0: Labels, s: Labels)
    requires RidesRelaxed(snap, u, t, seen0, s0.best) && Shrinks(s0, s)
    ensures RidesRelaxed(snap, u, t, seen0, s.best)
  {
    forall i | NewAt(u, DepsAt(snap, u), t, seen0, i)
      ensures Ridden(snap, DepsAt(snap, u)[i], s.best)
    {
      RiddenShrinks(snap, DepsAt(snap, u)[i], s0, s);
    }
  }

  lemma RiddenShrinks(snap: Snapshot, d: Departure, s0: Labels, s: Labels)
    requires Ridden(snap, d, s0.best) && Shrinks(s0, s)
    ensures Ridden(snap, d, s.best)
  {
    var evs := snap.trips[d.tripId];
    match FirstIndex(evs, d.stopSeq)
    case None =>
    case Some(start) =>
      RodeToShrinks(evs, start, |evs|, s0, s);
  }

  /** The state of the departure loop after its first `k` departures `ds`:
      `seen` holds exactly the keys from `seen0` and theirs, and each of them
      that was boarded has been ridden. */
  ghost predicate Boards(snap: Snapshot, u: string, t: int, seen0: set<(string, string)>, ds: seq<Departure>, k: int,
                         seen: set<(string, string)>, best: map<string, int>)
  {
    && 0 <= k <= |ds|
    && seen == seen0 + KeysOf(u, ds[..k], t)
    && forall i :: 0 <= i < k && NewAt(u, ds, t, seen0, i) ==> Ridden(snap, ds[i], best)
  }

  /** Taking departure `k`: its key joins `seen` when it is no earlier than
      `t`, and it is ridden when it is new. */
  lemma BoardsStep(snap: Snapshot, u: string, t: int, seen0: set<(string, string)>, ds: seq<Departure>, k: nat,
                   seen: set<(string, string)>, s: Labels, seen2: set<(string, string)>, s2: Labels)
    requires Boards(snap, u, t, seen0, ds, k, seen, s.best) && k < |ds| && Shrinks(s, s2)
    requires seen2 == if ds[k].dep >= t then seen + {(u, ds[k].tripId)} else seen
    requires NewAt(u, ds, t, seen0, k) ==> Ridden(snap, ds[k], s2.best)
    ensures Boards(snap, u, t, seen0, ds, k + 1, seen2, s2.best)
  {
    KeysOfSnoc(u, ds, t, k);
    forall i | 0 <= i < k && NewAt(u, ds, t, seen0, i)
      ensures Ridden(snap, ds[i], s2.best)
    {
      RiddenShrinks(snap, ds[i], s, s2);
    }
  }

  /** The state of the departure loop at `u`: the keys added since `seen0`
      are boarded departures, the labels they changed are `RidesOnly` theirs,
      and the search's invariants hold. */
  ghost predicate Expanding(snap: Snapshot, origin: string, u: string, t: int, s0: Labels, seen0: set<(string, string)>,
                            s: Labels, seen: set<(string, string)>, U: set<string>)
  {
    && seen0 <= seen <= Boardings(snap)
    && (seen == seen0 ==> s == s0)
    && (forall key :: key in seen - seen0 ==> Boarded(snap, u, t, key))
    && RidesOnly(snap, u, t, s0, s, seen - seen0)
    && Inv(snap, origin, s) && s.best.Keys <= U && Shrinks(s0, s)
  }

  /** Boarding one more departure, under a key not seen before, and riding
      it from `s1` to `s` (or not at all, `s == s1`) keeps `Expanding`. */
  lemma ExpandingStep(snap: Snapshot, origin: string, u: string, t: int, s0: Labels, seen0: set<(string, string)>,
                      s1: Labels, seen: set<(string, string)>, s: Labels, U: set<string>, d: Departure)
    requires Expanding(snap, origin, u, t, s0, seen0, s1, seen, U)
    requires u in snap.deps && d in snap.deps[u] && d.dep >= t && (u, d.tripId) !in seen
    requires RidesOnly(snap, u, t, s1, s, {(u, d.tripId)}) && Inv(snap, origin, s) && s.best.Keys <= U && Shrinks(s1, s)
    ensures Expanding(snap, origin, u, t, s0, seen0, s, seen + {(u, d.tripId)}, U)
  {
    var key := (u, d.tripId);
    ShrinksTrans(s0, s1, s);
    RidesOnlyTrans(snap, u, t, s0, s1, s, seen - seen0, {key});
    assert (seen - seen0) + {key} == (seen + {key}) - seen0;
    assert Boarded(snap, u, t, key);
    assert key in Boardings(snap);
  }

  method RideFrom(snap: Snapshot, origin: string, u: string, t: int, d: Departure, start: nat, s0: Labels,
                  ghost lo: int, ghost stamp0: map<string, int>, ghost clock0: int, ghost mono: bool, ghost U: set<string>)
    returns (s: Labels, ghost stamp: map<string, int>, ghost clock: int)
    requires u in snap.deps && d in snap.deps[u] && d.dep >= t
    requires d.tripId in snap.trips && FirstIndex(snap.trips[d.tripId], d.stopSeq) == Some(start)
    requires Inv(snap, origin, s0) && u in s0.best && s0.best[u] <= t && s0.best.Keys <= U && EventStops(snap) <= U
    requires mono ==> Mono(s0, origin, lo, stamp0, clock0) && t >= lo && TripsForward(snap)
    ensures Inv(snap, origin, s) && s.best.Keys <= U && Shrinks(s0, s)
    ensures RidesOnly(snap, u, t, s0, s, {(u, d.tripId)})
    ensures RodeTo(snap.trips[d.tripId], start, |snap.trips[d.tripId]|, s.best)
    ensures mono ==> Mono(s, origin, lo, stamp, clock)
  {
    var evs := snap.trips[d.tripId];
    s, stamp, clock := s0, stamp0, clock0;
    var j := start + 1;
    while j < |evs|
      invariant start + 1 <= j <= |evs|
      invariant Riding(snap, origin, u, t, d, s0, s, U)
      invariant RodeTo(evs, start, j, s.best)
      invariant mono ==> Mono(s, origin, lo, stamp, clock)
    {
      var v := evs[j].stopId;
      var p := Ride(u, d.tripId, evs[start].stopSeq, evs[j].stopSeq);
      RideStep(snap, origin, u, t, d, start, j, s0, s, U, lo, stamp, clock, mono);
      RodeToStep(evs, start, j, s, p);
      stamp := NextStamp(s.best, stamp, clock, v, evs[j].arr);
      clock := clock + 1;
      s := Relax(s, v, evs[j].arr, p);
      j := j + 1;
    }
  }

  /** The state of the ride loop: the search's invariants hold, and every
      label changed since `s0` was set by this ride. */
  ghost predicate Riding(snap: Snapshot, origin: string, u: string, t: int, d: Departure, s0: Labels, s: Labels, U: set<string>)
  {
    Inv(snap, origin, s) && s.best.Keys <= U && Shrinks(s0, s) && RidesOnly(snap, u, t, s0, s, {(u, d.tripId)})
  }

  /** Relaxing call `j` with its arrival time relaxes it and keeps the
      earlier calls relaxed. */
  lemma RodeToStep(evs: seq<StopEvent>, start: nat, j: nat, s: Labels, p: Parent)
    requires j < |evs| && RodeTo(evs, start, j, s.best)
    ensures RodeTo(evs, start, j + 1, Relax(s, evs[j].stopId, evs[j].arr, p).best)
  {
    RelaxLabels(s, evs[j].stopId, evs[j].arr, p);
  }

  /** Relaxing call `j` of the ride keeps `Riding` (and `Mono`). */
  lemma RideStep(snap: Snapshot, origin: string, u: string, t: int, d: Departure, start: nat, j: nat, s0: Labels, s: Labels,
                 U: set<string>, lo: int, stamp: map<string, int>, clock: int, mono: bool)
    requires u in snap.deps && d in snap.deps[u] && d.dep >= t
    requires d.tripId in snap.trips && FirstIndex(snap.trips[d.tripId], d.stopSeq) == Some(start)
    requires start < j < |snap.trips[d.tripId]|
    requires u in s0.best && s0.best[u] <= t && EventStops(snap) <= U
    requires mono ==> Mono(s, origin, lo, stamp, clock) && t >= lo && TripsForward(snap)
    requires Riding(snap, origin, u, t, d, s0, s, U)
    ensures var evs := snap.trips[d.tripId];
      var r := Relax(s, evs[j].stopId, evs[j].arr, Ride(u, d.tripId, evs[start].stopSeq, evs[j].stopSeq));
      && Riding(snap, origin, u, t, d, s0, r, U)
      && (mono ==> Mono(r, origin, lo, NextStamp(s.best, stamp, clock, evs[j].stopId, evs[j].arr), clock + 1))
  {
    var evs := snap.trips[d.tripId];
    var v := evs[j].stopId;
    var p := Ride(u, d.tripId, evs[start].stopSeq, evs[j].stopSeq);
    assert RideAfter(snap, u, t, p);
    RidesOnlyStep(snap, u, t, s0, s, {(u, d.tripId)}, v, evs[j].arr, p);
    assert evs[j] in snap.trips[d.tripId];
    assert v in EventStops(snap);
    assert Link(snap, v, p);
    if mono {
      assert ArrivesAfter(snap, d);
    }
    RelaxStep(snap, origin, s, v, evs[j].arr, p, lo, stamp, clock, mono);
    ShrinksTrans(s0, s, Relax(s, v, evs[j].arr, p));
  }

  /** The key `(u, trip)` stands for a departure listed at `u` no earlier
      than `t`. */
  ghost predicate Boarded(snap: Snapshot, u: string, t: int, key: (string, string))
  {
    key.0 == u && u in snap.deps && exists d :: d in snap.deps[u] && d.tripId == key.1 && d.dep >= t
  }

  /** Part 1 of expanding `u`, popped at `t`: each departure from `u` no
      earlier than `t` whose `(stop, trip)` key is new is boarded, once. On
      return, `ok` is false when a boarded trip is missing from `trips_by_id`
      (the source's `KeyError`); no relaxation happens unless a new key was
      added. */
  method ExpandRides(snap: Snapshot, origin: string, u: string, t: int, s0: Labels, seen0: set<(string, string)>,
                     ghost lo: int, ghost stamp0: map<string, int>, ghost clock0: int, ghost mono: bool, ghost U: set<string>)
    returns (s: Labels, seen: set<(string, string)>, ok: bool, ghost stamp: map<string, int>, ghost clock: int)
    requires Inv(snap, origin, s0) && u in s0.best && s0.best[u] <= t && s0.best.Keys <= U && EventStops(snap) <= U
    requires seen0 <= Boardings(snap)
    requires mono ==> Mono(s0, origin, lo, stamp0, clock0) && t >= lo && TripsForward(snap)
    ensures seen0 <= seen <= Boardings(snap)
    ensures seen == seen0 ==> s == s0
    ensures forall key :: key in seen - seen0 ==> Boarded(snap, u, t, key)
    ensures RidesOnly(snap, u, t, s0, s, seen - seen0)
    ensures !ok ==> MissingTrip(snap)
    ensures ok ==> Inv(snap, origin, s) && s.best.Keys <= U && Shrinks(s0, s)
    ensures ok ==> seen == seen0 + KeysOf(u, DepsAt(snap, u), t) && RidesRelaxed(snap, u, t, seen0, s.best)
    ensures ok && mono ==> Mono(s, origin, lo, stamp, clock)
  {
    var ds := DepsAt(snap, u);
    s, seen, ok, stamp, clock := s0, seen0, true, stamp0, clock0;
    var k := 0;
    while k < |ds|
      invariant 0 <= k <= |ds|
      invariant Expanding(snap, origin, u, t, s0, seen0, s, seen, U)
      invariant Boards(snap, u, t, seen0, ds, k, seen, s.best)
      invariant mono ==> Mono(s, origin, lo, stamp, clock)
    {
      s, seen, ok, stamp, clock := Board(snap, origin, u, t, s0, seen0, k, s, seen, lo, stamp, clock, mono, U);
      if !ok {
        return;
      }
      k := k + 1;
    }
    assert ds[..k] == ds;
  }

  /** The body of the departure loop at `u` for departure `k`: it is boarded
      when it is no earlier than `t` and its key is not in `seen1`; its trip
      is then looked up (`ok` is false when `trips_by_id` lacks it) and
      ridden from the call it boards at. */
  method Board(snap: Snapshot, origin: string, u: string, t: int, s0: Labels, seen0: set<(string, string)>, k: nat,
               s1: Labels, seen1: set<(string, string)>,
               ghost lo: int, ghost stamp1: map<string, int>, ghost clock1: int, ghost mono: bool, ghost U: set<string>)
    returns (s: Labels, seen: set<(string, string)>, ok: bool, ghost stamp: map<string, int>, ghost clock: int)
    requires k < |DepsAt(snap, u)|
    requires u in s0.best && s0.best[u] <= t && EventStops(snap) <= U
    requires Expanding(snap, origin, u, t, s0, seen0, s1, seen1, U)
    requires Boards(snap, u, t, seen0, DepsAt(snap, u), k, seen1, s1.best)
    requires mono ==> Mono(s1, origin, lo, stamp1, clock1) && t >= lo && TripsForward(snap)
    ensures Expanding(snap, origin, u, t, s0, seen0, s, seen, U)
    ensures !ok ==> MissingTrip(snap)
    ensures ok ==> Boards(snap, u, t, seen0, DepsAt(snap, u), k + 1, seen, s.best)
    ensures ok && mono ==> Mono(s, origin, lo, stamp, clock)
  {
    var d := DepsAt(snap, u)[k];
    assert d in snap.deps[u];
    s, seen, ok, stamp, clock := s1, seen1, true, stamp1, clock1;
    if d.dep >= t && (u, d.tripId) !in seen {
      seen := seen + {(u, d.tripId)};
      if d.tripId !in snap.trips {
        ExpandingStep(snap, origin, u, t, s0, seen0, s1, seen1, s, U, d);
        ok := false;
        return;
      }
      var start := FindSeq(snap.trips[d.tripId], d.stopSeq);
      if start.Some? {
        s, stamp, clock := RideFrom(snap, origin, u, t, d, start.value, s, lo, stamp, clock, mono, U);
      }
      ExpandingStep(snap, origin, u, t, s0, seen0, s1, seen1, s, U, d);
    }
    BoardsStep(snap, u, t, seen0, DepsAt(snap, u), k, seen1, s1, seen, s);
  }

  /** Part 2 of expanding `u`, popped at `t`: every transfer listed at `u` is
      relaxed with `t` plus its walking time. */
  method ExpandWalks(snap: Snapshot, origin: string, u: string, t: int, s0: Labels, walk: int -> int,
                     ghost lo: int, ghost stamp0: map<string, int>, ghost clock0: int, ghost mono: bool, ghost U: set<string>)
    returns (s: Labels, ghost stamp: map<string, int>, ghost clock: int)
    requires Inv(snap, origin, s0) && u in s0.best && s0.best[u] <= t && s0.best.Keys <= U && WalkTargets(snap) <= U
    requires WalksForward(snap, walk)
    requires mono ==> Mono(s0, origin, lo, stamp0, clock0) && t >= lo
    ensures Inv(snap, origin, s) && s.best.Keys <= U && Shrinks(s0, s) && Appends(s0, s, t)
    ensures WalksRelaxed(snap, u, t, walk, s.best)
    ensures mono ==> Mono(s, origin, lo, stamp, clock)
  {
    var ws := if u in snap.walks then snap.walks[u] else [];
    s, stamp, clock := s0, stamp0, clock0;
    var k := 0;
    while k < |ws|
      invariant 0 <= k <= |ws|
      invariant Transferring(snap, origin, t, walk, ws, k, s0, s, U)
      invariant mono ==> Mono(s, origin, lo, stamp, clock)
    {
      var q := ws[k];
      var arrive := t + walk(q.1);
      TransferringStep(snap, origin, u, t, walk, ws, k, arrive, s0, s, U, lo, stamp, clock, mono);
      stamp := NextStamp(s.best, stamp, clock, q.0, arrive);
      clock := clock + 1;
      s := Relax(s, q.0, arrive, Walk(u));
      k := k + 1;
    }
  }

  /** The state of the transfer loop before transfer `k`: the search's
      invariants hold, the relaxations so far are `Appends` at `t`, and the
      first `k` transfers are relaxed. */
  ghost predicate Transferring(snap: Snapshot, origin: string, t: int, walk: int -> int, ws: seq<(string, int)>, k: int,
                               s0: Labels, s: Labels, U: set<string>)
  {
    Inv(snap, origin, s) && s.best.Keys <= U && Shrinks(s0, s) && Appends(s0, s, t) && Walked(ws, k, t, walk, s.best)
  }

  /** Relaxing transfer `k` keeps `Transferring` (and `Mono`). */
  lemma TransferringStep(snap: Snapshot, origin: string, u: string, t: int, walk: int -> int, ws: seq<(string, int)>,
                         k: nat, arrive: int, s0: Labels, s: Labels, U: set<string>, lo: int, stamp: map<string, int>,
                         clock: int, mono: bool)
    requires ws == (if u in snap.walks then snap.walks[u] else []) && k < |ws| && arrive == t + walk(ws[k].1)
    requires u in s0.best && s0.best[u] <= t && WalkTargets(snap) <= U && WalksForward(snap, walk)
    requires mono ==> Mono(s, origin, lo, stamp, clock) && t >= lo
    requires Transferring(snap, origin, t, walk, ws, k, s0, s, U)
    ensures var r := Relax(s, ws[k].0, arrive, Walk(u));
      && Transferring(snap, origin, t, walk, ws, k + 1, s0, r, U)
      && (mono ==> Mono(r, origin, lo, NextStamp(s.best, stamp, clock, ws[k].0, arrive), clock + 1))
  {
    var q := ws[k];
    assert q in snap.walks[u];
    assert q.0 in WalkTargets(snap);
    RelaxStep(snap, origin, s, q.0, arrive, Walk(u), lo, stamp, clock, mono);
    AppendsStep(s0, s, t, q.0, arrive, Walk(u));
    ShrinksTrans(s0, s, Relax(s, q.0, arrive, Walk(u)));
    RelaxLabels(s, q.0, arrive, Walk(u));
    TransferStep(ws, k, t, walk, s, Relax(s, q.0, arrive, Walk(u)));
  }

  /** The first `k` transfers `ws` are relaxed with `t` plus their walking
      time. */
  ghost predicate Walked(ws: seq<(string, int)>, k: int, t: int, walk: int -> int, best: map<string, int>)
  {
    k <= |ws| && forall i :: 0 <= i < k ==> Label(best, ws[i].0) <= t + walk(ws[i].1)
  }

  /** Relaxing transfer `k` keeps the earlier ones relaxed and relaxes it. */
  lemma TransferStep(ws: seq<(string, int)>, k: nat, t: int, walk: int -> int, s: Labels, s2: Labels)
    requires k < |ws| && Shrinks(s, s2) && Label(s2.best, ws[k].0) <= t + walk(ws[k].1)
    requires Walked(ws, k, t, walk, s.best)
    ensures Walked(ws, k + 1, t, walk, s2.best)
  {
    forall i | 0 <= i < k
      ensures Label(s2.best, ws[i].0) <= t + walk(ws[i].1)
    {
      LabelShrinks(s, s2, ws[i].0);
    }
  }

  /* ---------------- the search loop ---------------- */

  /** A proper subset is smaller. */
  lemma {:induction false} SubsetSmaller<T>(x: set<T>, y: set<T>)
    requires x < y
    ensures |x| < |y|
  {
    assert y - x != {};
    var e :| e in y - x;
    SubsetNotLarger(x, y - {e});
  }

  lemma {:induction false} SubsetNotLarger<T>(x: set<T>, y: set<T>)
    requires x <= y
    ensures |x| <= |y|
    decreases x
  {
    if x != {} {
      var e :| e in x;
      SubsetNotLarger(x - {e}, y - {e});
    }
  }

  /** Adding a member of `a` to `b` leaves fewer of `a` outside it. */
  lemma AddShrinks<T>(a: set<T>, b: set<T>, x: T)
    requires x in a && x !in b
    ensures |a - (b + {x})| < |a - b|
  {
    SubsetSmaller(a - (b + {x}), a - b);
  }

  /** Growing `b` within `a` leaves fewer of `a` outside it. */
  lemma GrowShrinks<T>(a: set<T>, b0: set<T>, b1: set<T>)
    requires b0 <= b1 <= a && b0 != b1
    ensures |a - b1| < |a - b0|
  {
    var x :| x in b1 && x !in b0;
    SubsetSmaller(a - b1, a - b0);
  }

  /** The queue before the loop: the origin at the departure. */
  function Start(origin: string, departS: int): (s: Labels)
    ensures s.best == map[origin := departS] && s.parent == map[] && s.pq == [(departS, origin)]
  {
    Labels(map[origin := departS], map[], [(departS, origin)])
  }

  /** The invariant of the `while pq:` loop: the search state is well
      formed; `done` holds the stops expanded since the last boarding, all
      labelled no later than `floor`, which no queued entry precedes. */
  ghost predicate Loop(snap: Snapshot, origin: string, departS: int, s: Labels, seen: set<(string, string)>,
                       done: set<string>, floor: int, stamp: map<string, int>, clock: int)
  {
    && Inv(snap, origin, s) && s.best[origin] <= departS
    && s.best.Keys <= {origin} + EventStops(snap) + WalkTargets(snap)
    && seen <= Boardings(snap)
    && (TripsForward(snap) ==> Mono(s, origin, departS, stamp, clock))
    && done <= s.best.Keys
    && (forall x :: x in done ==> s.best[x] <= floor && (s.best[x], x) !in s.pq)
    && (done != {} ==> forall y :: y in s.pq ==> y.0 >= floor)
  }

  /** The body of the loop for an entry popped at its stop's label: rides
      first, then walks. Either a new `(stop, trip)` key was boarded, or no
      ride relaxed anything and the stop joins the expanded ones. */
  method ExpandStop(snap: Snapshot, origin: string, departS: int, walk: int -> int, t: int, u: string,
                    s0: Labels, seen0: set<(string, string)>,
                    ghost done0: set<string>, ghost floor0: int, ghost stamp0: map<string, int>, ghost clock0: int)
    returns (s: Labels, seen: set<(string, string)>, ok: bool,
             ghost done: set<string>, ghost floor: int, ghost stamp: map<string, int>, ghost clock: int)
    requires WalksForward(snap, walk)
    requires Inv(snap, origin, s0) && s0.best[origin] <= departS
    requires s0.best.Keys <= {origin} + EventStops(snap) + WalkTargets(snap)
    requires seen0 <= Boardings(snap) && (TripsForward(snap) ==> Mono(s0, origin, departS, stamp0, clock0))
    requires done0 <= s0.best.Keys
    requires forall x :: x in done0 ==> s0.best[x] <= floor0 && (s0.best[x], x) !in s0.pq
    requires done0 != {} ==> floor0 <= t
    requires u in s0.best && s0.best[u] == t && (t, u) !in s0.pq && u !in done0
    requires forall y :: y in s0.pq ==> y.0 >= t
    ensures !ok ==> MissingTrip(snap)
    ensures ok ==> Loop(snap, origin, departS, s, seen, done, floor, stamp, clock)
    ensures ok ==> Shrinks(s0, s) && Expanded(snap, u, t, walk, seen0, s.best)
    ensures ok ==> seen == seen0 + KeysOf(u, DepsAt(snap, u), t)
    ensures seen0 <= seen
    ensures ok && seen == seen0 ==> done == done0 + {u}
  {
    ghost var mono := TripsForward(snap);
    ghost var U := {origin} + EventStops(snap) + WalkTargets(snap);
    var s1;
    s1, seen, ok, stamp, clock := ExpandRides(snap, origin, u, t, s0, seen0, departS, stamp0, clock0, mono, U);
    if !ok {
      s, done, floor := s1, done0, floor0;
      return;
    }
    s, stamp, clock := ExpandWalks(snap, origin, u, t, s1, walk, departS, stamp, clock, mono, U);
    RidesRelaxedShrinks(snap, u, t, seen0, s1, s);
    ShrinksTrans(s0, s1, s);
    if seen == seen0 {
      SettleOne(s0, s, t, u, done0, floor0);
      done, floor := done0 + {u}, t;
    } else {
      done, floor := {}, floor0;
    }
  }

  /** The `while pq:` loop of `plan`. It always ends: a `(stop, trip)` key is
      boarded at most once, and between two boardings a stop is expanded at
      most once, because walks never go back in time. `ok` is false when a
      boarded trip is missing from `trips_by_id`. */
  method Search(snap: Snapshot, origin: string, dest: string, departS: int, walk: int -> int)
    returns (s: Labels, ok: bool, ghost stamp: map<string, int>, ghost clock: int)
    requires WalksForward(snap, walk)
    ensures !ok ==> MissingTrip(snap)
    ensures ok ==> Inv(snap, origin, s) && s.best[origin] <= departS
    ensures ok && TripsForward(snap) ==> Mono(s, origin, departS, stamp, clock)
    ensures ok && origin != dest ==> Expanded(snap, origin, departS, walk, {}, s.best)
  {
    s := Start(origin, departS);
    stamp, clock := map[origin := 0], 1;
    ok := true;
    var seen: set<(string, string)> := {};
    ghost var done: set<string> := {};
    ghost var floor := departS;
    ghost var started, first := false, s;
    LoopStart(snap, origin, departS);
    while |s.pq| > 0
      invariant Loop(snap, origin, departS, s, seen, done, floor, stamp, clock)
      invariant !started ==> FirstRound(origin, departS, s, seen)
      invariant started && origin != dest ==> Expanded(snap, origin, departS, walk, {}, first.best) && Shrinks(first, s)
      decreases |Boardings(snap) - seen|, |{origin} + EventStops(snap) + WalkTargets(snap) - done|, |s.pq|
    {
      ghost var s0 := s;
      var stop;
      s, seen, ok, stop, done, floor, stamp, clock := Round(snap, origin, dest, departS, walk, s, seen, done, floor, stamp, clock);
      if !ok {
        return;
      }
      if stop {
        break;
      }
      if !started {
        started, first := true, s;
      } else if origin != dest {
        ShrinksTrans(first, s0, s);
      }
    }
    if origin != dest {
      ExpandedShrinks(snap, origin, departS, walk, {}, first, s);
    }
  }

  /** The state before the first round: only the origin is queued, at the
      departure, and no key is seen. */
  ghost predicate FirstRound(origin: string, departS: int, s: Labels, seen: set<(string, string)>)
  {
    seen == {} && |s.pq| == 1 && s.pq[0] == (departS, origin) && origin in s.best && s.best[origin] == departS
  }

  /** One round of the `while pq:` loop: the least entry is popped; a stale
      entry is dropped, the destination stops the loop (`stop`), and any other
      stop is expanded at its label. Each round that does not stop makes
      progress: a new key is boarded, or a stop joins the expanded ones, or
      the queue shrinks. The first round expands the origin at the departure,
      unless the origin is the destination. */
  method Round(snap: Snapshot, origin: string, dest: string, departS: int, walk: int -> int,
               s0: Labels, seen0: set<(string, string)>,
               ghost done0: set<string>, ghost floor0: int, ghost stamp0: map<string, int>, ghost clock0: int)
    returns (s: Labels, seen: set<(string, string)>, ok: bool, stop: bool,
             ghost done: set<string>, ghost floor: int, ghost stamp: map<string, int>, ghost clock: int)
    requires WalksForward(snap, walk) && |s0.pq| > 0
    requires Loop(snap, origin, departS, s0, seen0, done0, floor0, stamp0, clock0)
    ensures !ok ==> MissingTrip(snap) && !stop
    ensures ok ==> Loop(snap, origin, departS, s, seen, done, floor, stamp, clock) && Shrinks(s0, s)
    ensures ok && !stop ==> Progress(Boardings(snap), {origin} + EventStops(snap) + WalkTargets(snap),
                                     seen0, done0, |s0.pq|, seen, done, |s.pq|)
    ensures ok && FirstRound(origin, departS, s0, seen0) ==>
      (stop <==> origin == dest) && (!stop ==> Expanded(snap, origin, departS, walk, {}, s.best))
  {
    ghost var U := {origin} + EventStops(snap) + WalkTargets(snap);
    var m := PopMin(s0.pq);
    var t, u := s0.pq[m].0, s0.pq[m].1;
    Pop(snap, origin, departS, s0, seen0, done0, floor0, stamp0, clock0, m);
    FirstPop(origin, departS, s0, seen0, m);
    s, seen, ok, stop, done, floor, stamp, clock := s0.(pq := s0.pq[..m] + s0.pq[m + 1..]), seen0, true, false,
                                                    done0, floor0, stamp0, clock0;
    if t != Label(s.best, u) {
      // a stale entry
    } else if u == dest {
      stop := true;
    } else {
      s, seen, ok, done, floor, stamp, clock := ExpandStop(snap, origin, departS, walk, t, u, s, seen, done, floor, stamp, clock);
      if ok {
        if seen == seen0 {
          AddShrinks(U, done0, u);
        } else {
          GrowShrinks(Boardings(snap), seen0, seen);
        }
      }
    }
  }

  /** In the first round the origin is popped at its label. */
  lemma FirstPop(origin: string, departS: int, s0: Labels, seen0: set<(string, string)>, m: nat)
    requires m < |s0.pq|
    ensures FirstRound(origin, departS, s0, seen0) ==>
      s0.pq[m] == (departS, origin) && Label(s0.best, origin) == departS && seen0 == {}
  {
  }

  /** The loop's measure went down: fewer keys of `cand` left to board, or
      as many and fewer stops of `U` left to expand, or as many of both and a
      shorter queue. */
  ghost predicate Progress<K, S>(cand: set<K>, U: set<S>, seen0: set<K>, done0: set<S>, n0: int,
                                seen: set<K>, done: set<S>, n: int)
  {
    || |cand - seen| < |cand - seen0|
    || (|cand - seen| == |cand - seen0| && |U - done| < |U - done0|)
    || (|cand - seen| == |cand - seen0| && |U - done| == |U - done0| && n < n0)
  }

  lemma LoopStart(snap: Snapshot, origin: string, departS: int)
    ensures Loop(snap, origin, departS, Start(origin, departS), {}, {}, departS, map[origin := 0], 1)
  {
  }

  /** Taking the least entry out keeps the invariant; when the entry is its
      stop's label, that stop is not among the expanded ones, and no entry left
      is earlier. */
  lemma Pop(snap: Snapshot, origin: string, departS: int, s: Labels, seen: set<(string, string)>,
            done: set<string>, floor: int, stamp: map<string, int>, clock: int, m: nat)
    requires Loop(snap, origin, departS, s, seen, done, floor, stamp, clock)
    requires m < |s.pq| && forall i :: 0 <= i < |s.pq| ==> s.pq[i] == s.pq[m] || EntryLess(s.pq[m], s.pq[i])
    ensures var r := s.(pq := s.pq[..m] + s.pq[m + 1..]); var (t, u) := s.pq[m];
      && Loop(snap, origin, departS, r, seen, done, floor, stamp, clock)
      && |r.pq| == |s.pq| - 1
      && (t == Label(r.best, u) ==>
            && u in r.best && r.best[u] == t && (t, u) !in r.pq && u !in done
            && u in {origin} + EventStops(snap) + WalkTargets(snap)
            && (done != {} ==> floor <= t)
            && forall y :: y in r.pq ==> y.0 >= t)
  {
    RemoveAt(s, m);
    var r := s.(pq := s.pq[..m] + s.pq[m + 1..]);
    var (t, u) := s.pq[m];
    forall y | y in r.pq ensures y.0 >= t {
      var i :| 0 <= i < |s.pq| && s.pq[i] == y;
    }
  }

  /** After a stop popped at its label `t` is expanded by walks alone, it
      joins the settled stops: their labels stay at most `t` and none of them
      is queued at its label again. */
  lemma SettleOne(s: Labels, s2: Labels, t: int, u: string, done: set<string>, floor: int)
    requires Appends(s, s2, t) && Shrinks(s, s2)
    requires u in s.best && s.best[u] == t && (t, u) !in s.pq
    requires done <= s.best.Keys
    requires forall x :: x in done ==> s.best[x] <= floor && (s.best[x], x) !in s.pq
    requires done != {} ==> floor <= t
    requires forall y :: y in s.pq ==> y.0 >= t
    ensures done + {u} <= s2.best.Keys
    ensures forall x :: x in done + {u} ==> s2.best[x] <= t && (s2.best[x], x) !in s2.pq
    ensures forall y :: y in s2.pq ==> y.0 >= t
  {
    forall x | x in done + {u} ensures s2.best[x] <= t && (s2.best[x], x) !in s2.pq {
      if (s2.best[x], x) in s2.pq {
        AppendsIn(s, s2, t, (s2.best[x], x));
      }
    }
    forall y | y in s2.pq ensures y.0 >= t {
      AppendsIn(s, s2, t, y);
    }
  }

  /* ---------------- the journey ---------------- */

  /** A leg of the answer: `mode` is the constructor. */
  datatype Leg =
    | RideLeg(tripId: string, routeId: string, from: string, to: string, fromSeq: int, toSeq: int, depart: string, arrive: string)
    | WalkLeg(from: string, to: string, depart: string, arrive: string)

  /** A leg follows a connection of the snapshot, and a ride names the route
      of the trip's first call. */
  ghost predicate LegLink(snap: Snapshot, leg: Leg)
  {
    match leg
    case RideLeg(tid, route, a, b, bs, als, _, _) =>
      Link(snap, b, Ride(a, tid, bs, als)) && route == snap.trips[tid][0].routeId
    case WalkLeg(a, b, _, _) => Link(snap, b, Walk(a))
  }

  /** A leg's times are the labels of its ends, as `sec_to_hm` writes them. */
  ghost predicate Timed(best: map<string, int>, leg: Leg)
  {
    leg.from in best && leg.to in best && leg.depart == SecToHm(best[leg.from]) && leg.arrive == SecToHm(best[leg.to])
  }

  /** The legs lead from `origin` to `dest`, each starting where the previous
      one ended, along connections of the snapshot; there are none exactly
      when the two stops are the same. */
  ghost predicate Journey(snap: Snapshot, origin: string, dest: string, legs: seq<Leg>)
  {
    && (legs == [] <==> origin == dest)
    && (legs != [] ==> legs[0].from == origin && legs[|legs| - 1].to == dest)
    && (forall i, j :: 0 <= i && j == i + 1 && j < |legs| ==> legs[i].to == legs[j].from)
    && (forall k :: 0 <= k < |legs| ==> LegLink(snap, legs[k]))
  }

  /** `sum(1 for L in legs if L["mode"] == "walk")`. */
  function WalkLegs(legs: seq<Leg>): (n: nat)
    ensures n <= |legs|
    ensures n == 0 <== forall k :: 0 <= k < |legs| ==> legs[k].RideLeg?
  {
    if legs == [] then 0 else (if legs[0].WalkLeg? then 1 else 0) + WalkLegs(legs[1..])
  }

  lemma BeforeTrans(best: map<string, int>, stamp: map<string, int>, a: string, b: string, c: string)
    requires a in best && b in best && c in best && a in stamp && b in stamp && c in stamp
    requires Before(best, stamp, a, b) && Before(best, stamp, b, c)
    ensures Before(best, stamp, a, c)
  {
  }

  /** A sequence without repeats drawn from a set is no longer than the set. */
  lemma {:induction false} DistinctWithin<T>(path: seq<T>, S: set<T>)
    requires forall k :: 0 <= k < |path| ==> path[k] in S
    requires forall a, b :: 0 <= a < b < |path| ==> path[a] != path[b]
    ensures |path| <= |S|
  {
    if path != [] {
      var last := path[|path| - 1];
      var init := path[..|path| - 1];
      forall k | 0 <= k < |init| ensures init[k] in S - {last} {
        assert path[k] != path[|path| - 1];
      }
      DistinctWithin(init, S - {last});
    }
  }

  /** The legs collected so far, last leg first: they lead back from `dest`
      to `cur`. */
  ghost predicate Unwound(snap: Snapshot, best: map<string, int>, origin: string, dest: string, back: seq<Leg>, cur: string)
  {
    && (back == [] ==> cur == dest)
    && (back != [] ==> dest != origin && back[0].to == dest && back[|back| - 1].from == cur)
    && (forall i, j :: 0 <= i && j == i + 1 && j < |back| ==> back[i].from == back[j].to)
    && (forall k :: 0 <= k < |back| ==> LegLink(snap, back[k]) && Timed(best, back[k]))
  }

  lemma UnwoundStep(snap: Snapshot, best: map<string, int>, origin: string, dest: string, back: seq<Leg>, cur: string, leg: Leg)
    requires Unwound(snap, best, origin, dest, back, cur) && cur != origin
    requires leg.to == cur && LegLink(snap, leg) && Timed(best, leg)
    ensures Unwound(snap, best, origin, dest, back + [leg], leg.from)
  {
    var b2 := back + [leg];
    assert forall k :: 0 <= k < |back| ==> b2[k] == back[k];
    assert b2[|back|] == leg;
    forall k | 0 <= k < |b2| ensures LegLink(snap, b2[k]) && Timed(best, b2[k]) {
      if k < |back| {
        assert b2[k] == back[k];
      }
    }
  }

  /** Reversed, the collected legs are the journey. */
  lemma UnwoundJourney(snap: Snapshot, best: map<string, int>, origin: string, dest: string, back: seq<Leg>)
    requires Unwound(snap, best, origin, dest, back, origin)
    ensures Journey(snap, origin, dest, Reverse(back))
    ensures forall k :: 0 <= k < |back| ==> Timed(best, Reverse(back)[k])
  {
    ReversedLegs(snap, best, back);
    ReversedChain(back);
    ReversedEnds(back);
    JourneyOf(snap, origin, dest, Reverse(back));
  }

  lemma ReversedEnds(back: seq<Leg>)
    ensures back == [] <==> Reverse(back) == []
    ensures back != [] ==> Reverse(back)[0] == back[|back| - 1] && Reverse(back)[|back| - 1] == back[0]
  {
  }

  /** `Journey` from its four parts. */
  lemma JourneyOf(snap: Snapshot, origin: string, dest: string, legs: seq<Leg>)
    requires legs == [] <==> origin == dest
    requires legs != [] ==> legs[0].from == origin && legs[|legs| - 1].to == dest
    requires forall i, j :: 0 <= i && j == i + 1 && j < |legs| ==> legs[i].to == legs[j].from
    requires forall k :: 0 <= k < |legs| ==> LegLink(snap, legs[k])
    ensures Journey(snap, origin, dest, legs)
  {
  }

  lemma ReversedLegs(snap: Snapshot, best: map<string, int>, back: seq<Leg>)
    requires forall k :: 0 <= k < |back| ==> LegLink(snap, back[k]) && Timed(best, back[k])
    ensures forall k :: 0 <= k < |back| ==> LegLink(snap, Reverse(back)[k]) && Timed(best, Reverse(back)[k])
  {
    forall k | 0 <= k < |back| ensures LegLink(snap, Reverse(back)[k]) && Timed(best, Reverse(back)[k]) {
      assert Reverse(back)[k] == back[|back| - 1 - k];
    }
  }

  lemma ReversedChain(back: seq<Leg>)
    requires forall i, j :: 0 <= i && j == i + 1 && j < |back| ==> back[i].from == back[j].to
    ensures forall i, j :: 0 <= i && j == i + 1 && j < |back| ==> Reverse(back)[i].to == Reverse(back)[j].from
  {
    var fwd := Reverse(back);
    forall i, j | 0 <= i && j == i + 1 && j < |fwd| ensures fwd[i].to == fwd[j].from {
      assert fwd[i] == back[|back| - 1 - i] && fwd[j] == back[|back| - 2 - i];
      assert back[|back| - 2 - i].from == back[|back| - 1 - i].to;
    }
  }

  /** Each stop of the path was labelled after the next one. */
  ghost predicate Descending(best: map<string, int>, stamp: map<string, int>, path: seq<string>)
  {
    && (forall k :: 0 <= k < |path| ==> path[k] in best && path[k] in stamp)
    && (forall a, b :: 0 <= a < b < |path| ==> Before(best, stamp, path[b], path[a]))
  }

  lemma DescendingStep(best: map<string, int>, stamp: map<string, int>, path: seq<string>, prev: string)
    requires Descending(best, stamp, path) && path != [] && prev in best && prev in stamp
    requires Before(best, stamp, prev, path[|path| - 1])
    ensures Descending(best, stamp, path + [prev])
  {
    var p2 := path + [prev];
    forall a, b | 0 <= a < b < |p2| ensures Before(best, stamp, p2[b], p2[a]) {
      if b == |path| && a < |path| - 1 {
        BeforeTrans(best, stamp, prev, path[|path| - 1], path[a]);
      }
    }
  }

  /** A descending path repeats no stop, so it is no longer than the number
      of labelled stops. */
  lemma DescendingBound(best: map<string, int>, stamp: map<string, int>, path: seq<string>)
    requires Descending(best, stamp, path)
    ensures |path| <= |best|
  {
    forall a, b | 0 <= a < b < |path| ensures path[a] != path[b] {
      assert Before(best, stamp, path[b], path[a]);
    }
    DistinctWithin(path, best.Keys);
  }

  /** The leg that brought `cur` its label: a ride on the recorded trip
      between the recorded stop sequences, or a walk, timed by the labels. */
  function ParentLeg(snap: Snapshot, s: Labels, cur: string): (leg: Leg)
    requires cur in s.parent && cur in s.best && s.parent[cur].prev in s.best
    requires Link(snap, cur, s.parent[cur])
    ensures leg.to == cur && leg.from == s.parent[cur].prev
    ensures LegLink(snap, leg) && Timed(s.best, leg)
  {
    var prev := s.parent[cur].prev;
    match s.parent[cur]
    case Ride(_, tid, bs, als) =>
      RideLeg(tid, snap.trips[tid][0].routeId, prev, cur, bs, als, SecToHm(s.best[prev]), SecToHm(s.best[cur]))
    case Walk(_) => WalkLeg(prev, cur, SecToHm(s.best[prev]), SecToHm(s.best[cur]))
  }

  /** The `while cur != origin_stop` loop, followed up to as many parents as
      there are labelled stops. `None` when the chain has not reached the
      origin by then: the chain then repeats a stop, and the source's loop
      never ends. It always ends when parents were labelled before their
      children. */
  method Reconstruct(snap: Snapshot, origin: string, dest: string, s: Labels,
                     ghost mono: bool, ghost stamp: map<string, int>, ghost clock: int)
    returns (legs: Option<seq<Leg>>)
    requires TreeOk(snap, origin, s) && dest in s.best
    requires mono ==> Stamped(s, stamp, clock)
    ensures legs.Some? ==> Journey(snap, origin, dest, legs.value)
    ensures legs.Some? ==> forall k :: 0 <= k < |legs.value| ==> Timed(s.best, legs.value[k])
    ensures mono ==> legs.Some?
  {
    var back, cur := Unwind(snap, origin, dest, s, mono, stamp, clock);
    if cur != origin {
      return None;
    }
    UnwoundJourney(snap, s.best, origin, dest, back);
    legs := Some(Reverse(back));
  }

  lemma ParentOf(snap: Snapshot, origin: string, s: Labels, cur: string)
    requires TreeOk(snap, origin, s) && cur in s.best && cur != origin
    ensures cur in s.parent && s.parent[cur].prev in s.best && Link(snap, cur, s.parent[cur])
  {
  }

  /** One step back along the parents keeps the collected legs unwound. */
  lemma UnwindStep(snap: Snapshot, origin: string, dest: string, s: Labels, back: seq<Leg>, cur: string)
    requires TreeOk(snap, origin, s) && cur in s.best && cur != origin
    requires Unwound(snap, s.best, origin, dest, back, cur)
    ensures cur in s.parent && s.parent[cur].prev in s.best && Link(snap, cur, s.parent[cur])
    ensures Unwound(snap, s.best, origin, dest, back + [ParentLeg(snap, s, cur)], s.parent[cur].prev)
  {
    ParentOf(snap, origin, s, cur);
    UnwoundStep(snap, s.best, origin, dest, back, cur, ParentLeg(snap, s, cur));
  }

  /** The ghost path walked so far: one stop per collected leg plus `dest`,
      ending at `cur`, and descending when the labels carry stamps. */
  ghost predicate Tracked(best: map<string, int>, stamp: map<string, int>, mono: bool, path: seq<string>, n: nat, cur: string)
  {
    && |path| == n + 1 && path[n] == cur
    && (mono ==> Descending(best, stamp, path))
  }

  lemma TrackedNext(s: Labels, stamp: map<string, int>, clock: int, mono: bool, path: seq<string>, n: nat, cur: string)
    requires mono ==> Stamped(s, stamp, clock)
    requires cur in s.parent && Tracked(s.best, stamp, mono, path, n, cur)
    ensures Tracked(s.best, stamp, mono, path + [s.parent[cur].prev], n + 1, s.parent[cur].prev)
  {
    if mono {
      DescendingStep(s.best, stamp, path, s.parent[cur].prev);
    }
  }

  /** With stamps, the parent was labelled before the stop, so the path of
      stops visited stays strictly descending. */
  lemma TrackedBound(best: map<string, int>, stamp: map<string, int>, path: seq<string>, n: nat, cur: string)
    requires Tracked(best, stamp, true, path, n, cur)
    ensures n < |best|
  {
    DescendingBound(best, stamp, path);
  }

  /** The loop invariant of the walk back from `dest`. */
  ghost predicate Walking(snap: Snapshot, origin: string, dest: string, s: Labels, stamp: map<string, int>, mono: bool,
                          back: seq<Leg>, cur: string, path: seq<string>)
  {
    && cur in s.best
    && Unwound(snap, s.best, origin, dest, back, cur)
    && Tracked(s.best, stamp, mono, path, |back|, cur)
  }

  lemma WalkStep(snap: Snapshot, origin: string, dest: string, s: Labels, stamp: map<string, int>, clock: int, mono: bool,
                 back: seq<Leg>, cur: string, path: seq<string>)
    requires TreeOk(snap, origin, s) && (mono ==> Stamped(s, stamp, clock)) && cur != origin
    requires Walking(snap, origin, dest, s, stamp, mono, back, cur, path)
    ensures cur in s.parent && s.parent[cur].prev in s.best && Link(snap, cur, s.parent[cur])
    ensures Walking(snap, origin, dest, s, stamp, mono, back + [ParentLeg(snap, s, cur)], s.parent[cur].prev,
                    path + [s.parent[cur].prev])
  {
    UnwindStep(snap, origin, dest, s, back, cur);
    TrackedNext(s, stamp, clock, mono, path, |back|, cur);
  }

  /** The loop itself: the legs collected walking back from `dest`, and the
      stop reached when it stops, which is the origin unless the bound on
      steps was hit first. */
  method Unwind(snap: Snapshot, origin: string, dest: string, s: Labels,
                ghost mono: bool, ghost stamp: map<string, int>, ghost clock: int)
    returns (back: seq<Leg>, cur: string)
    requires TreeOk(snap, origin, s) && dest in s.best
    requires mono ==> Stamped(s, stamp, clock)
    ensures Unwound(snap, s.best, origin, dest, back, cur)
    ensures mono ==> cur == origin
  {
    back := [];
    cur := dest;
    ghost var path: seq<string> := [dest];
    while cur != origin && |back| < |s.best|
      invariant Walking(snap, origin, dest, s, stamp, mono, back, cur, path)
    {
      WalkStep(snap, origin, dest, s, stamp, clock, mono, back, cur, path);
      var leg := ParentLeg(snap, s, cur);
      var prev := leg.from;
      back := back + [leg];
      cur := prev;
      path := path + [prev];
    }
    if mono && cur != origin {
      TrackedBound(s.best, stamp, path, |back|, cur);
      assert false;
    }
  }

  /** Timed legs of a journey: the first leaves at the origin's label, the
      last arrives at the destination's, and each leg leaves when the
      previous one arrives. */
  lemma LegTimes(snap: Snapshot, origin: string, dest: string, best: map<string, int>, legs: seq<Leg>)
    requires Journey(snap, origin, dest, legs) && origin in best && dest in best
    requires forall k :: 0 <= k < |legs| ==> Timed(best, legs[k])
    ensures legs != [] ==> legs[0].depart == SecToHm(best[origin]) && legs[|legs| - 1].arrive == SecToHm(best[dest])
    ensures forall i, j :: 0 <= i && j == i + 1 && j < |legs| ==> legs[i].arrive == legs[j].depart
  {
    if legs != [] {
      assert Timed(best, legs[0]) && Timed(best, legs[|legs| - 1]);
    }
    forall i, j | 0 <= i && j == i + 1 && j < |legs| ensures legs[i].arrive == legs[j].depart {
      assert Timed(best, legs[i]) && Timed(best, legs[j]);
    }
  }

  /** The answer of `plan`. */
  datatype PlanResult =
    | BadTime       // `hms_to_sec` raises on the requested departure
    | UnknownTrip   // `trips_by_id[tid]` raises `KeyError`
    | NotFound      // `{"found": False, "message": "No path found"}`
    | Diverges      // the reconstruction loop never ends
    | Found(departAt: string, arriveAt: string, durationMin: int, transfers: nat, legs: seq<Leg>)

  /** Python's `round` of a non-negative number of minutes is not negative. */
  lemma RoundMinutesNonNegative(p: int)
    requires p >= 0
    ensures Timetable.RoundHalfEven(p, 60) >= 0
  {
  }

  /** A found journey: its legs lead from `origin` to `dest` along the
      snapshot, leave and arrive at the answer's times, one leg leaving when
      the previous one arrives, and `transfers` counts the walking legs. A
      journey to the origin itself has no legs and takes no time. */
  ghost predicate Answered(snap: Snapshot, origin: string, dest: string, r: PlanResult)
  {
    r.Found? ==>
      && Journey(snap, origin, dest, r.legs) && r.transfers == WalkLegs(r.legs)
      && (r.legs != [] ==> r.legs[0].depart == r.departAt && r.legs[|r.legs| - 1].arrive == r.arriveAt)
      && (forall i, j :: 0 <= i && j == i + 1 && j < |r.legs| ==> r.legs[i].arrive == r.legs[j].depart)
      && (origin == dest ==> r.durationMin == 0 && r.departAt == r.arriveAt)
  }

  /** How the answer reflects the labels `best` of a search from `origin` at
      `departS`: the origin keeps a label no later than the departure; the
      destination has no label exactly when no path is found; a found
      journey leaves and arrives at the end labels and its duration is their
      difference in minutes, rounded as Python's `round` does. */
  ghost predicate Labelled(r: PlanResult, best: map<string, int>, origin: string, dest: string, departS: int)
  {
    (r.NotFound? || r.Found? || r.Diverges?) ==>
      && origin in best && best[origin] <= departS
      && (r.NotFound? <==> dest !in best)
      && (r.Found? ==>
            && dest in best && r.departAt == SecToHm(best[origin]) && r.arriveAt == SecToHm(best[dest])
            && r.durationMin == Timetable.RoundHalfEven(best[dest] - best[origin], 60))
  }

  /** The answer once the destination has a label: the reconstructed legs,
      or `Diverges` when reconstruction does not end. */
  function Outcome(best: map<string, int>, origin: string, dest: string, legs: Option<seq<Leg>>): PlanResult
    requires origin in best && dest in best
  {
    match legs
    case None => Diverges
    case Some(ls) =>
      Found(SecToHm(best[origin]), SecToHm(best[dest]), Timetable.RoundHalfEven(best[dest] - best[origin], 60), WalkLegs(ls), ls)
  }

  /** An answer built from legs that form a timed journey meets both
      predicates; from a grounded search it leaves at the departure itself
      and takes a non-negative number of minutes. */
  lemma OutcomeFacts(snap: Snapshot, origin: string, dest: string, departS: int, best: map<string, int>,
                     legs: Option<seq<Leg>>, mono: bool)
    requires origin in best && dest in best && best[origin] <= departS
    requires legs.Some? ==> Journey(snap, origin, dest, legs.value)
    requires legs.Some? ==> forall k :: 0 <= k < |legs.value| ==> Timed(best, legs.value[k])
    requires mono ==> legs.Some? && best[origin] == departS && best[dest] >= departS
    ensures Labelled(Outcome(best, origin, dest, legs), best, origin, dest, departS)
    ensures Answered(snap, origin, dest, Outcome(best, origin, dest, legs))
    ensures mono ==> Outcome(best, origin, dest, legs).Found?
    ensures mono ==> Outcome(best, origin, dest, legs).departAt == SecToHm(departS)
    ensures mono ==> Outcome(best, origin, dest, legs).durationMin >= 0
  {
    if legs.Some? {
      LegTimes(snap, origin, dest, best, legs.value);
      if mono {
        RoundMinutesNonNegative(best[dest] - best[origin]);
      }
    }
  }

  /** What `plan` answers once the search has ended without error: `best`
      is the search's labels. */
  method Answer(snap: Snapshot, origin: string, dest: string, departS: int, s: Labels,
                ghost mono: bool, ghost stamp: map<string, int>, ghost clock: int)
    returns (r: PlanResult)
    requires TreeOk(snap, origin, s) && s.best[origin] <= departS
    requires mono ==> Mono(s, origin, departS, stamp, clock)
    ensures r.NotFound? || r.Found? || r.Diverges?
    ensures Labelled(r, s.best, origin, dest, departS)
    ensures Answered(snap, origin, dest, r)
    ensures mono ==> !r.Diverges?
    ensures mono && r.Found? ==> r.departAt == SecToHm(departS) && r.durationMin >= 0
  {
    if dest !in s.best {
      return NotFound;
    }
    var legs := Reconstruct(snap, origin, dest, s, mono, stamp, clock);
    r := Outcome(s.best, origin, dest, legs);
    OutcomeFacts(snap, origin, dest, departS, s.best, legs, mono);
  }

  /** `plan` on a loaded snapshot; `walk` gives the walking seconds of a
      transfer distance, `int(round(dist_m / walk_m_per_s))`. `best` is the
      search's labels. */
  method Plan(snap: Snapshot, origin: string, dest: string, departHm: string, walk: int -> int)
    returns (r: PlanResult, ghost best: map<string, int>)
    requires WalksForward(snap, walk)
    ensures r.BadTime? <==> DepartSeconds(departHm).None?
    ensures r.UnknownTrip? ==> MissingTrip(snap)
    ensures DepartSeconds(departHm).Some? ==> Labelled(r, best, origin, dest, DepartSeconds(departHm).value)
    ensures DepartSeconds(departHm).Some? && !r.UnknownTrip? && origin != dest ==>
      Expanded(snap, origin, DepartSeconds(departHm).value, walk, {}, best)
    ensures Answered(snap, origin, dest, r)
    ensures TripsForward(snap) ==> !r.Diverges?
    ensures TripsForward(snap) && r.Found? ==>
      DepartSeconds(departHm).Some? && r.departAt == SecToHm(DepartSeconds(departHm).value) && r.durationMin >= 0
  {
    best := map[];
    var departS := DepartSeconds(departHm);
    if departS.None? {
      return BadTime, best;
    }
    var s, ok, stamp, clock := Search(snap, origin, dest, departS.value, walk);
    if !ok {
      return UnknownTrip, best;
    }
    best := s.best;
    r := Answer(snap, origin, dest, departS.value, s, TripsForward(snap), stamp, clock);
  }
}
