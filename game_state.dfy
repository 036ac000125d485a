// The interpolation queries of src/game-state.ts over a finished game.

module GameStates {
  import opened Optional
  import opened Types
  import opened EvSeqs
  import opened Records

  /** The value `interpolatePos` builds. The source also computes a third
      angle under the key `rol`, a field `Position` does not have; that
      entry carries no information and is not part of the value. */
  datatype PosValue = PosValue(timestamp: int, yaw: real, pitch: real, pos: Vec3, vel: Vec3)

  /** The source's "server tick average delay approximation", 34/2. */
  const TickDelay: real := 17.0

  function Min(a: real, b: real): real {
    if a <= b then a else b
  }

  function MaxR(a: real, b: real): real {
    if a <= b then b else a
  }

  // ---------------------------------------------------------------------
  // Linear interpolation

  /** `linInterpolate(x, x0, y0, x1, y1)`: the value at `x` of the line through
      `(x0, y0)` and `(x1, y1)`; `y0` when the two abscissas coincide. */
  function LinInterpolate(x: real, x0: real, y0: real, x1: real, y1: real): (r: real)
    ensures x1 == x0 ==> r == y0
    ensures x1 != x0 ==> (r - y0) * (x1 - x0) == (y1 - y0) * (x - x0)
  {
    if x1 == x0 then y0
    else
      var r := (y0 * (x1 - x) + y1 * (x - x0)) / (x1 - x0);
      assert r * (x1 - x0) == y0 * (x1 - x) + y1 * (x - x0);
      r
  }

  /** The line passes through both end points. */
  lemma LinInterpolateEnds(x0: real, y0: real, x1: real, y1: real)
    requires x0 != x1
    ensures LinInterpolate(x0, x0, y0, x1, y1) == y0
    ensures LinInterpolate(x1, x0, y0, x1, y1) == y1
  {
    var a := LinInterpolate(x0, x0, y0, x1, y1);
    var b := LinInterpolate(x1, x0, y0, x1, y1);
    assert (a - y0) * (x1 - x0) == 0.0;
    assert (b - y0) * (x1 - x0) == (y1 - y0) * (x1 - x0);
  }

  /** Inside its interval the interpolated value is a convex combination of
      the two end values, so it lies between them. */
  lemma LinInterpolateBetween(x: real, x0: real, y0: real, x1: real, y1: real)
    requires x0 < x <= x1
    ensures Min(y0, y1) <= LinInterpolate(x, x0, y0, x1, y1) <= MaxR(y0, y1)
  {
    var r := LinInterpolate(x, x0, y0, x1, y1);
    var d := x1 - x0;
    assert (r - y0) * d == (y1 - y0) * (x - x0);
    assert (y1 - r) * d == (y1 - y0) * (x1 - x);
    if y0 <= y1 {
      MulNonNegative(y1 - y0, x - x0);
      MulNonNegative(y1 - y0, x1 - x);
      PositiveFactor(r - y0, d);
      PositiveFactor(y1 - r, d);
    } else {
      MulNonNegative(y0 - y1, x - x0);
      MulNonNegative(y0 - y1, x1 - x);
      assert (y0 - r) * d == (y0 - y1) * (x - x0);
      assert (r - y1) * d == (y0 - y1) * (x1 - x);
      PositiveFactor(y0 - r, d);
      PositiveFactor(r - y1, d);
    }
  }

  lemma MulNonNegative(a: real, b: real)
    requires 0.0 <= a && 0.0 <= b
    ensures 0.0 <= a * b
  {
  }

  /** A product with a positive factor has the sign of the other factor. */
  lemma PositiveFactor(u: real, d: real)
    requires 0.0 < d && 0.0 <= u * d
    ensures 0.0 <= u
  {
    assert u == (u * d) / d;
  }

  /** `interpolateVec3`: each of the three components interpolated on its own
      over the same two instants. */
  function InterpolateVec3(x: real, start: Vec3, startTime: real, end: Vec3, endTime: real): (r: Vec3)
    ensures r.0 == LinInterpolate(x, startTime, start.0, endTime, end.0)
    ensures r.1 == LinInterpolate(x, startTime, start.1, endTime, end.1)
    ensures r.2 == LinInterpolate(x, startTime, start.2, endTime, end.2)
    ensures startTime == endTime ==> r == start
    ensures startTime != endTime && x == startTime ==> r == start
    ensures startTime != endTime && x == endTime ==> r == end
  {
    assert startTime != endTime ==>
      && LinInterpolate(startTime, startTime, start.0, endTime, end.0) == start.0
      && LinInterpolate(startTime, startTime, start.1, endTime, end.1) == start.1
      && LinInterpolate(startTime, startTime, start.2, endTime, end.2) == start.2
      && LinInterpolate(endTime, startTime, start.0, endTime, end.0) == end.0
      && LinInterpolate(endTime, startTime, start.1, endTime, end.1) == end.1
      && LinInterpolate(endTime, startTime, start.2, endTime, end.2) == end.2
    by {
      if startTime != endTime {
        LinInterpolateEnds(startTime, start.0, endTime, end.0);
        LinInterpolateEnds(startTime, start.1, endTime, end.1);
        LinInterpolateEnds(startTime, start.2, endTime, end.2);
      }
    }
    (LinInterpolate(x, startTime, start.0, endTime, end.0),
     LinInterpolate(x, startTime, start.1, endTime, end.1),
     LinInterpolate(x, startTime, start.2, endTime, end.2))
  }

  /** `interpolatePing`: the ping at `timestamp` between two ping samples,
      with no time adjustment and the two samples as the raw interval. */
  function InterpolatePing(timestamp: int, interval: (GameEvent, GameEvent)): (r: InterpolatedValue<GameEvent>)
    requires interval.0.Ping? && interval.1.Ping?
    ensures r.value.Ping? && r.value.timestamp == timestamp
    ensures r.adjust == 0.0 && r.rawInterval == interval
    ensures r.value.ping == LinInterpolate(timestamp as real, interval.0.timestamp as real, interval.0.ping,
                                           interval.1.timestamp as real, interval.1.ping)
    ensures interval.0.timestamp < timestamp <= interval.1.timestamp ==>
      Min(interval.0.ping, interval.1.ping) <= r.value.ping <= MaxR(interval.0.ping, interval.1.ping)
    ensures interval.0.timestamp < interval.1.timestamp == timestamp ==> r.value.ping == interval.1.ping
  {
    var (start, end) := interval;
    var ping := LinInterpolate(timestamp as real, start.timestamp as real, start.ping, end.timestamp as real, end.ping);
    assert start.timestamp < timestamp <= end.timestamp ==>
      && Min(start.ping, end.ping) <= ping <= MaxR(start.ping, end.ping)
      && (timestamp == end.timestamp ==> ping == end.ping)
    by {
      if start.timestamp < timestamp <= end.timestamp {
        LinInterpolateBetween(timestamp as real, start.timestamp as real, start.ping, end.timestamp as real, end.ping);
        LinInterpolateEnds(start.timestamp as real, start.ping, end.timestamp as real, end.ping);
      }
    }
    InterpolatedValue(Ping(timestamp, ping), 0.0, interval)
  }

  /** `interpolatePos`: yaw, pitch, position and velocity at `timestamp`
      between two position samples, tagged with the given adjustment. */
  function InterpolatePos(timestamp: int, interval: (GameEvent, GameEvent), adjust: real): (r: InterpolatedValue<PosValue>)
    requires interval.0.Position? && interval.1.Position?
    ensures r.value.timestamp == timestamp && r.adjust == adjust && r.rawInterval == interval
    ensures var (a, b) := interval;
      var x, x0, x1 := timestamp as real, a.timestamp as real, b.timestamp as real;
      && r.value.yaw == LinInterpolate(x, x0, a.yaw, x1, b.yaw)
      && r.value.pitch == LinInterpolate(x, x0, a.pitch, x1, b.pitch)
      && r.value.pos == InterpolateVec3(x, a.pos, x0, b.pos, x1)
      && r.value.vel == InterpolateVec3(x, a.vel, x0, b.vel, x1)
    ensures var (a, b) := interval;
      a.timestamp < b.timestamp == timestamp ==>
        r.value == PosValue(timestamp, b.yaw, b.pitch, b.pos, b.vel)
    ensures var (a, b) := interval;
      a.timestamp < b.timestamp && a.timestamp == timestamp ==>
        r.value == PosValue(timestamp, a.yaw, a.pitch, a.pos, a.vel)
  {
    var (start, end) := interval;
    var x, x0, x1 := timestamp as real, start.timestamp as real, end.timestamp as real;
    assert x0 != x1 ==>
      && LinInterpolate(x0, x0, start.yaw, x1, end.yaw) == start.yaw
      && LinInterpolate(x1, x0, start.yaw, x1, end.yaw) == end.yaw
      && LinInterpolate(x0, x0, start.pitch, x1, end.pitch) == start.pitch
      && LinInterpolate(x1, x0, start.pitch, x1, end.pitch) == end.pitch
    by {
      if x0 != x1 {
        LinInterpolateEnds(x0, start.yaw, x1, end.yaw);
        LinInterpolateEnds(x0, start.pitch, x1, end.pitch);
      }
    }
    var value := PosValue(
      timestamp,
      LinInterpolate(x, x0, start.yaw, x1, end.yaw),
      LinInterpolate(x, x0, start.pitch, x1, end.pitch),
      InterpolateVec3(x, start.pos, x0, end.pos, x1),
      InterpolateVec3(x, start.vel, x0, end.vel, x1));
    InterpolatedValue(value, adjust, interval)
  }

  /** Half of a found ping; a missing one contributes nothing. */
  function HalfPing(p: Option<InterpolatedValue<GameEvent>>): real
    requires p.Some? ==> p.value.value.Ping?
  {
    if p.Some? then p.value.value.ping / 2.0 else 0.0
  }

  // ---------------------------------------------------------------------
  // Queries over a finished game

  /** `GameState`: the recorded connections of a game, by connection number. */
  datatype GameState = GameState(state: map<int, CnRecord>) {

    ghost predicate Valid() {
      forall cn :: cn in state ==> RecordOk(state[cn])
    }

    /** `getPing(cn, ts)`: the connection's ping at `ts`, interpolated between
        the samples `getInterval` brackets `ts` with; nothing for an unknown
        connection or when there is no bracket. */
    function GetPing(cn: int, ts: int): (r: Option<InterpolatedValue<GameEvent>>)
      requires Valid()
      ensures r.Some? <==> cn in state && IntervalOf(state[cn].ping, DefaultGranularity, ts).Some?
      ensures r.Some? ==>
        && r.value.value.Ping? && r.value.value.timestamp == ts && r.value.adjust == 0.0
        && r.value.rawInterval == IntervalOf(state[cn].ping, DefaultGranularity, ts).value
      ensures r.Some? ==>
        var (a, b) := r.value.rawInterval;
        a.Ping? && b.Ping? && a.timestamp < ts <= b.timestamp &&
        Min(a.ping, b.ping) <= r.value.value.ping <= MaxR(a.ping, b.ping)
    ensures r.Some? ==>
      && r.value.rawInterval.0.Ping? && r.value.rawInterval.1.Ping?
      && r.value == InterpolatePing(ts, r.value.rawInterval)
    {
      if cn !in state then None
      else
        var series := state[cn].ping;
        var vals := IntervalOf(series, DefaultGranularity, ts);
        if vals.None? then None
        else
          IntervalKinds(series, DefaultGranularity, ts, IsPing);
          IntervalBrackets(series, DefaultGranularity, ts);
          Some(InterpolatePing(ts, vals.value))
    }

    /** `getAdjust(cn, adjustToCn, ts)`: none between a connection and itself;
        otherwise minus half of each connection's ping at `ts` (when known)
        and minus the average server tick delay. */
    function GetAdjust(cn: int, adjustToCn: int, ts: int): (r: real)
      requires Valid()
      ensures cn == adjustToCn ==> r == 0.0
      ensures cn != adjustToCn ==>
        r == -TickDelay - HalfPing(GetPing(cn, ts)) - HalfPing(GetPing(adjustToCn, ts))
    {
      if cn == adjustToCn then 0.0
      else
        var adjust := 0.0;
        var p1 := GetPing(cn, ts);
        var p2 := GetPing(adjustToCn, ts);
        var adjust := if p1.Some? then adjust - p1.value.value.ping / 2.0 else adjust;
        var adjust := if p2.Some? then adjust - p2.value.value.ping / 2.0 else adjust;
        adjust - TickDelay
    }

    /** `getPos(cn, ts, adjustToCn)`: the connection's position interpolated
        at `ts` between the samples that bracket `ts + adjustToCn`, tagged with
        the latency adjustment towards `adjustToCn` (none when it is 0). A
        missing `adjustToCn` makes the lookup time `NaN`, which finds no
        bucket. */
    function GetPos(cn: int, ts: int, adjustToCn: Option<int>): (r: Option<InterpolatedValue<PosValue>>)
      requires Valid()
      ensures adjustToCn.None? ==> r.None?
      ensures r.Some? <==>
        adjustToCn.Some? && cn in state &&
        IntervalOf(state[cn].pos, DefaultGranularity, ts + adjustToCn.value).Some?
      ensures r.Some? ==>
        && r.value.value.timestamp == ts
        && r.value.rawInterval == IntervalOf(state[cn].pos, DefaultGranularity, ts + adjustToCn.value).value
        && r.value.rawInterval.0.timestamp < ts + adjustToCn.value <= r.value.rawInterval.1.timestamp
        && r.value.adjust == (if adjustToCn.value != 0 then GetAdjust(cn, adjustToCn.value, ts) else 0.0)
        && r.value.rawInterval.0.Position? && r.value.rawInterval.1.Position?
        && r.value == InterpolatePos(ts, r.value.rawInterval, r.value.adjust)
    {
      var adjust := if adjustToCn.Some? && adjustToCn.value != 0 then GetAdjust(cn, adjustToCn.value, ts) else 0.0;
      if cn !in state then None
      else if adjustToCn.None? then None
      else
        var series := state[cn].pos;
        var vals := IntervalOf(series, DefaultGranularity, ts + adjustToCn.value);
        if vals.None? then None
        else
          IntervalKinds(series, DefaultGranularity, ts + adjustToCn.value, IsPosition);
          IntervalBrackets(series, DefaultGranularity, ts + adjustToCn.value);
          Some(InterpolatePos(ts, vals.value, adjust))
    }
  }

  // ---------------------------------------------------------------------
  // Properties of the queries

  /** Every stored ping lies in `[lo, hi]`. */
  ghost predicate PingsWithin(g: GameState, lo: real, hi: real) {
    forall cn, i, j :: cn in g.state && 0 <= i < |g.state[cn].ping| && 0 <= j < |g.state[cn].ping[i].data| ==>
      g.state[cn].ping[i].data[j].Ping? && lo <= g.state[cn].ping[i].data[j].ping <= hi
  }

  /** An interpolated ping stays within the range of the stored pings. */
  lemma PingWithin(g: GameState, cn: int, ts: int, lo: real, hi: real)
    requires g.Valid() && PingsWithin(g, lo, hi)
    ensures g.GetPing(cn, ts).Some? ==> lo <= g.GetPing(cn, ts).value.value.ping <= hi
  {
    var p := g.GetPing(cn, ts);
    if p.Some? {
      var series := g.state[cn].ping;
      IntervalKinds(series, DefaultGranularity, ts, (e: GameEvent) => e.Ping? && lo <= e.ping <= hi);
    }
  }

  /** With pings between 0 and `hi`, the adjustment between two different
      connections is at most minus the tick delay and at least that minus `hi`. */
  lemma AdjustBounds(g: GameState, cn: int, adjustToCn: int, ts: int, hi: real)
    requires g.Valid() && 0.0 <= hi && PingsWithin(g, 0.0, hi)
    requires cn != adjustToCn
    ensures -TickDelay - hi <= g.GetAdjust(cn, adjustToCn, ts) <= -TickDelay
  {
    PingWithin(g, cn, ts, 0.0, hi);
    PingWithin(g, adjustToCn, ts, 0.0, hi);
    var h1, h2 := HalfPing(g.GetPing(cn, ts)), HalfPing(g.GetPing(adjustToCn, ts));
    assert 0.0 <= h1 <= hi / 2.0 && 0.0 <= h2 <= hi / 2.0;
  }

  /** A position query without `adjustToCn` finds nothing, whatever is
      recorded. */
  lemma PosWithoutAdjustIsAbsent(g: GameState, cn: int, ts: int)
    requires g.Valid()
    ensures g.GetPos(cn, ts, None).None?
  {
  }

  /** The connection number, not the adjustment, shifts the lookup: with
      positions at 0, 1000 and 2000, asking at 1000 towards connection 5
      brackets 1005 and returns the sample at 1000 unchanged, while towards
      connection 0 it brackets 1000 itself. */
  lemma LookupShiftedByConnection()
    ensures var a := Position(0, 0.0, 0.0, 0.0, (0.0, 0.0, 0.0), (0.0, 0.0, 0.0));
      var b := Position(1000, 1.0, 0.0, 0.0, (10.0, 0.0, 0.0), (0.0, 0.0, 0.0));
      var c := Position(2000, 2.0, 0.0, 0.0, (20.0, 0.0, 0.0), (0.0, 0.0, 0.0));
      var rec := FreshRecord().(pos := [Bucket(0, [a]), Bucket(1000, [b]), Bucket(2000, [c])]);
      var g := GameState(map[1 := rec]);
      && g.Valid()
      && g.GetPos(1, 1000, Some(5)).Some?
      && g.GetPos(1, 1000, Some(5)).value.rawInterval == (b, c)
      && g.GetPos(1, 1000, Some(5)).value.value == PosValue(1000, 1.0, 0.0, (10.0, 0.0, 0.0), (0.0, 0.0, 0.0))
      && g.GetPos(1, 1000, Some(0)).Some?
      && g.GetPos(1, 1000, Some(0)).value.rawInterval == (a, b)
      && g.GetPos(1, 1000, Some(0)).value.adjust == 0.0
  {
    var a := Position(0, 0.0, 0.0, 0.0, (0.0, 0.0, 0.0), (0.0, 0.0, 0.0));
    var b := Position(1000, 1.0, 0.0, 0.0, (10.0, 0.0, 0.0), (0.0, 0.0, 0.0));
    var c := Position(2000, 2.0, 0.0, 0.0, (20.0, 0.0, 0.0), (0.0, 0.0, 0.0));
    var events := [Bucket(0, [a]), Bucket(1000, [b]), Bucket(2000, [c])];
    var rec := FreshRecord().(pos := events);
    ThreeBucketsOk(events);
    ThreeBucketsIntervals(events);
    assert GameState(map[1 := rec]).Valid();
  }

  /** Three buckets, each holding one position sample at its start, form a
      well-formed position series. */
  lemma ThreeBucketsOk(events: seq<Bucket>)
    requires |events| == 3
    requires forall i :: 0 <= i < 3 ==> |events[i].data| == 1 && events[i].data[0].Position?
    requires forall i :: 0 <= i < 3 ==> events[i].start == i * 1000 && events[i].data[0].timestamp == i * 1000
    ensures RecordOk(FreshRecord().(pos := events))
  {
    assert Trunc(0, 1000) == 0 && Trunc(1000, 1000) == 1 && Trunc(2000, 1000) == 2;
  }

  /** In those three buckets, 1005 is bracketed by the second and third
      samples and 1000 by the first and second. */
  lemma ThreeBucketsIntervals(events: seq<Bucket>)
    requires |events| == 3
    requires forall i :: 0 <= i < 3 ==> |events[i].data| == 1
    requires forall i :: 0 <= i < 3 ==> events[i].start == i * 1000 && events[i].data[0].timestamp == i * 1000
    ensures IntervalOf(events, 1000, 1005) == Some((events[1].data[0], events[2].data[0]))
    ensures IntervalOf(events, 1000, 1000) == Some((events[0].data[0], events[1].data[0]))
  {
    assert Trunc(1005, 1000) == 1 && Trunc(1000, 1000) == 1;
  }
}
