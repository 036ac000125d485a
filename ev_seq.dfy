// src/ev-seq.ts: a time series split into fixed-width buckets. Bucket `i`
// starts at `i * granularity`; a sample with timestamp `ts` lives in bucket
// `Math.trunc(ts / granularity)`.

module EvSeqs {
  import opened Optional
  import opened Types

  /** The bucket width the source uses when none is given. */
  const DefaultGranularity := 1000

  datatype Bucket = Bucket(start: int, data: seq<GameEvent>)

  function Max(a: int, b: int): int {
    if a < b then b else a
  }

  // ---------------------------------------------------------------------
  // Bucket arithmetic

  /** `Math.trunc(ts / g)`: the quotient rounded toward zero. */
  function Trunc(ts: int, g: int): (q: int)
    requires g > 0
    ensures 0 <= ts ==> 0 <= q && q * g <= ts < q * g + g
    ensures ts < 0 ==> q <= 0 && q * g - g < ts <= q * g
  {
    if ts >= 0 then ts / g else -((-ts) / g)
  }

  lemma MulLe(a: int, b: int, g: int)
    requires a <= b && g > 0
    ensures a * g <= b * g
  {
    assert b * g - a * g == (b - a) * g;
  }

  /** Bucket `n - 1` is the last of `n` buckets that covers `ts` exactly when
      `ts` lies before `n * g`. */
  lemma TruncBelow(ts: int, g: int, n: int)
    requires g > 0 && n >= 1
    ensures Trunc(ts, g) < n <==> ts < n * g
  {
    var q := Trunc(ts, g);
    MulLe(1, n, g);
    if ts >= 0 {
      if q < n {
        MulLe(q + 1, n, g);
        assert (q + 1) * g == q * g + g;
      } else {
        MulLe(n, q, g);
      }
    }
  }

  /** A sample in an earlier bucket has an earlier timestamp. */
  lemma TruncOrder(x: int, y: int, g: int)
    requires g > 0
    requires Trunc(x, g) < Trunc(y, g)
    ensures x < y
  {
    var qx, qy := Trunc(x, g), Trunc(y, g);
    MulLe(qx + 1, qy, g);
    assert (qx + 1) * g == qx * g + g;
    assert (qy - 1) * g == qy * g - g;
    if y < 0 {
      MulLe(qx, qy - 1, g);
    }
  }

  // ---------------------------------------------------------------------
  // The representation invariant

  /** The bucket chain is non-empty and gap-free: bucket `i` starts at `i * g`. */
  ghost predicate Chain(events: seq<Bucket>, g: int) {
    |events| > 0 && forall i :: 0 <= i < |events| ==> events[i].start == i * g
  }

  /** Every sample sits in the bucket of its timestamp. */
  ghost predicate Placed(events: seq<Bucket>, g: int)
    requires g > 0
  {
    forall i, j :: 0 <= i < |events| && 0 <= j < |events[i].data| ==>
      Trunc(events[i].data[j].timestamp, g) == i
  }

  /** Every stored sample satisfies `p`. */
  ghost predicate AllSatisfy(events: seq<Bucket>, p: GameEvent -> bool) {
    forall i, j :: 0 <= i < |events| && 0 <= j < |events[i].data| ==> p(events[i].data[j])
  }

  // ---------------------------------------------------------------------
  // Iteration order

  /** The samples in iteration order: buckets in index order, and within a
      bucket in insertion order. */
  function Flatten(events: seq<Bucket>): seq<GameEvent> {
    if events == [] then []
    else Flatten(events[..|events| - 1]) + events[|events| - 1].data
  }

  lemma {:induction false} FlattenConcat(a: seq<Bucket>, b: seq<Bucket>)
    ensures Flatten(a + b) == Flatten(a) + Flatten(b)
  {
    if b != [] {
      assert (a + b)[..|a + b| - 1] == a + b[..|b| - 1];
      FlattenConcat(a, b[..|b| - 1]);
    } else {
      assert a + b == a;
    }
  }

  /** Sample `j` of bucket `i` is found at position `|Flatten(events[..i])| + j`. */
  lemma FlattenAt(events: seq<Bucket>, i: int, j: int)
    requires 0 <= i < |events| && 0 <= j < |events[i].data|
    ensures |Flatten(events[..i])| + j < |Flatten(events)|
    ensures Flatten(events)[|Flatten(events[..i])| + j] == events[i].data[j]
  {
    assert events == events[..i + 1] + events[i + 1..];
    FlattenConcat(events[..i + 1], events[i + 1..]);
    assert events[..i + 1][..i] == events[..i];
  }

  /** Bucket `i + 1`'s samples follow bucket `i`'s. */
  lemma FlattenNext(events: seq<Bucket>, i: int)
    requires 0 <= i < |events|
    ensures |Flatten(events[..i + 1])| == |Flatten(events[..i])| + |events[i].data|
  {
    assert events[..i + 1][..i] == events[..i];
  }

  /** Buckets without samples contribute nothing. */
  lemma {:induction false} FlattenEmpty(events: seq<Bucket>)
    requires forall i :: 0 <= i < |events| ==> events[i].data == []
    ensures Flatten(events) == []
  {
    if events != [] {
      FlattenEmpty(events[..|events| - 1]);
    }
  }

  /** Appending `x` to one bucket adds `x` once to the multiset of all samples. */
  lemma {:induction false} FlattenAppend(events: seq<Bucket>, k: int, x: GameEvent)
    requires 0 <= k < |events|
    ensures multiset(Flatten(events[k := events[k].(data := events[k].data + [x])])) ==
            multiset(Flatten(events)) + multiset{x}
  {
    var n := |events|;
    var e' := events[k := events[k].(data := events[k].data + [x])];
    var init := events[..n - 1];
    assert Flatten(events) == Flatten(init) + events[n - 1].data;
    if k == n - 1 {
      assert e'[..n - 1] == init;
      assert Flatten(e') == Flatten(init) + events[k].data + [x];
    } else {
      assert e'[..n - 1] == init[k := init[k].(data := init[k].data + [x])];
      assert Flatten(e') == Flatten(e'[..n - 1]) + events[n - 1].data;
      FlattenAppend(init, k, x);
    }
  }

  // ---------------------------------------------------------------------
  // Writing: fillMissing and add

  /** `hasBucket(ts)`: the last bucket ends after `ts`. */
  function Covers(events: seq<Bucket>, g: int, ts: int): bool
    requires |events| > 0
  {
    ts < events[|events| - 1].start + g
  }

  /** What `fillMissing(ts)` leaves: empty buckets are appended, each starting
      one width after the last, until the last bucket covers `ts`. */
  function Filled(events: seq<Bucket>, g: int, ts: int): (r: seq<Bucket>)
    requires g > 0 && Chain(events, g)
    ensures Chain(r, g)
    ensures |r| == Max(|events|, Trunc(ts, g) + 1)
    ensures r[..|events|] == events
    ensures forall i :: |events| <= i < |r| ==> r[i].data == []
    decreases ts - events[|events| - 1].start
  {
    var n := |events|;
    var last := events[n - 1].start;
    assert last + g == n * g;
    TruncBelow(ts, g, n);
    if Covers(events, g, ts) then events
    else
      var e' := events + [Bucket(last + g, [])];
      assert e'[..n] == events;
      Filled(e', g, ts)
  }

  /** What `add(item)` leaves: the chain is filled up to the item's bucket,
      and the item is appended to that bucket. */
  function Added(events: seq<Bucket>, g: int, item: GameEvent): (r: seq<Bucket>)
    requires g > 0 && Chain(events, g) && item.timestamp > -g
    ensures Chain(r, g)
    ensures |r| == Max(|events|, Trunc(item.timestamp, g) + 1)
    ensures var k := Trunc(item.timestamp, g);
      0 <= k < |r| &&
      r[k].data == (if k < |events| then events[k].data else []) + [item]
    ensures forall i :: 0 <= i < |r| && i != Trunc(item.timestamp, g) ==>
      r[i].data == (if i < |events| then events[i].data else [])
  {
    var f := Filled(events, g, item.timestamp);
    var k := Trunc(item.timestamp, g);
    assert forall i :: 0 <= i < |events| ==> f[i] == events[i] by {
      assert forall i :: 0 <= i < |events| ==> f[..|events|][i] == f[i];
    }
    f[k := f[k].(data := f[k].data + [item])]
  }

  // ---------------------------------------------------------------------
  // Reading: findEnd and getInterval

  /** The least index whose timestamp is at least `ts`, or `|data|` if there
      is none. */
  function FirstNotBefore(data: seq<GameEvent>, ts: int): (r: nat)
    ensures r <= |data|
    ensures forall k :: 0 <= k < r ==> data[k].timestamp < ts
    ensures r < |data| ==> data[r].timestamp >= ts
  {
    if data == [] || data[0].timestamp >= ts then 0
    else 1 + FirstNotBefore(data[1..], ts)
  }

  /** `events[i]`, or nothing (`undefined`) outside the chain. */
  function BucketAt(events: seq<Bucket>, i: int): (r: Option<Bucket>)
    ensures r.Some? <==> 0 <= i < |events|
    ensures r.Some? ==> r.value == events[i]
  {
    if 0 <= i < |events| then Some(events[i]) else None
  }

  /** The number of samples in a bucket that may be missing (`?.data.length ?? 0`). */
  function Occupancy(b: Option<Bucket>): nat {
    if b.Some? then |b.value.data| else 0
  }

  /** `getInterval(ts)`: the pair of samples that brackets `ts`, looked up in
      the bucket of `ts` and borrowing at most one sample from each adjacent
      bucket. */
  function IntervalOf(events: seq<Bucket>, g: int, ts: int): (r: Option<(GameEvent, GameEvent)>)
    requires g > 0
    ensures ts < 0 ==> r.None?
    ensures ts >= 0 && Trunc(ts, g) >= |events| ==> r.None?
    ensures ts >= 0 && Trunc(ts, g) < |events| && events[Trunc(ts, g)].data == [] ==> r.None?
    ensures (ts >= 0 && Trunc(ts, g) < |events| && FirstNotBefore(events[Trunc(ts, g)].data, ts) == 0
             && Occupancy(BucketAt(events, Trunc(ts, g) - 1)) == 0) ==> r.None?
    ensures (ts >= 0 && Trunc(ts, g) < |events|
             && FirstNotBefore(events[Trunc(ts, g)].data, ts) == |events[Trunc(ts, g)].data|
             && Occupancy(BucketAt(events, Trunc(ts, g) + 1)) == 0) ==> r.None?
    ensures (ts >= 0 && Trunc(ts, g) < |events| && events[Trunc(ts, g)].data != []
             && (FirstNotBefore(events[Trunc(ts, g)].data, ts) == 0 ==>
                   Occupancy(BucketAt(events, Trunc(ts, g) - 1)) > 0)
             && (FirstNotBefore(events[Trunc(ts, g)].data, ts) == |events[Trunc(ts, g)].data| ==>
                   Occupancy(BucketAt(events, Trunc(ts, g) + 1)) > 0)) ==> r.Some?
  {
    if ts < 0 then None
    else
      var k := Trunc(ts, g);
      var prev, cur, next := BucketAt(events, k - 1), BucketAt(events, k), BucketAt(events, k + 1);
      if cur.None? then None
      else
        var data := cur.value.data;
        if |data| == 0 then None
        else
          var e := FirstNotBefore(data, ts);
          if e == 0 then
            var prevLen := Occupancy(prev);
            if prevLen == 0 then None
            else Some((prev.value.data[prevLen - 1], data[0]))
          else if e == |data| then
            var nextLen := Occupancy(next);
            if nextLen == 0 then None
            else Some((data[|data| - 1], next.value.data[0]))
          else Some((data[e - 1], data[e]))
  }

  // ---------------------------------------------------------------------
  // The class

  /** `EvSeq`: the bucket chain, updated in place by `add`. */
  class EvSeq {
    const granularity: int
    var events: seq<Bucket>

    ghost predicate Valid()
      reads this
    {
      granularity > 0 && Chain(events, granularity) && Placed(events, granularity)
    }

    /** A fresh series has exactly one bucket, starting at 0 and empty. */
    constructor (granularity: int)
      requires granularity > 0
      ensures Valid()
      ensures this.granularity == granularity
      ensures events == [Bucket(0, [])]
    {
      this.granularity := granularity;
      events := [Bucket(0, [])];
    }

    /** `hasBucket(ts)`: the chain already reaches the bucket of `ts`. */
    function HasBucket(ts: int): (r: bool)
      reads this
      requires Valid()
      ensures r <==> Trunc(ts, granularity) < |events|
    {
      TruncBelow(ts, granularity, |events|);
      Covers(events, granularity, ts)
    }

    /** `getBucket(ts)`: the bucket of `ts`, if the chain reaches it. */
    function GetBucket(ts: int): (r: Option<Bucket>)
      reads this
      requires Valid()
      ensures r.Some? <==> 0 <= Trunc(ts, granularity) < |events|
      ensures r.Some? ==> r.value == events[Trunc(ts, granularity)]
      ensures r.Some? ==> r.value.start <= ts || ts < 0
      ensures r.Some? && ts >= 0 ==> ts < r.value.start + granularity
      ensures r.Some? ==> forall e :: e in r.value.data ==> Trunc(e.timestamp, granularity) == Trunc(ts, granularity)
    {
      BucketAt(events, Trunc(ts, granularity))
    }

    /** `getBuckets(ts)`: the buckets before, of, and after that of `ts`. */
    function GetBuckets(ts: int): (r: (Option<Bucket>, Option<Bucket>, Option<Bucket>))
      reads this
      requires Valid()
      ensures r.1 == GetBucket(ts)
      ensures r.0 == BucketAt(events, Trunc(ts, granularity) - 1)
      ensures r.2 == BucketAt(events, Trunc(ts, granularity) + 1)
      ensures r.0.Some? ==> r.0.value.start + granularity == Trunc(ts, granularity) * granularity
      ensures r.2.Some? ==> r.2.value.start == Trunc(ts, granularity) * granularity + granularity
    {
      var k := Trunc(ts, granularity);
      (BucketAt(events, k - 1), BucketAt(events, k), BucketAt(events, k + 1))
    }

    /** `fillMissing(ts)`: extend the chain until it reaches the bucket of `ts`. */
    method FillMissing(ts: int)
      requires Valid()
      modifies this
      ensures Valid()
      ensures events == Filled(old(events), granularity, ts)
      ensures HasBucket(ts)
    {
      while !HasBucket(ts)
        invariant Valid()
        invariant Filled(events, granularity, ts) == Filled(old(events), granularity, ts)
        decreases ts - events[|events| - 1].start
      {
        var lastTimestamp := events[|events| - 1].start;
        assert lastTimestamp + granularity == |events| * granularity;
        events := events + [Bucket(lastTimestamp + granularity, [])];
      }
      TruncBelow(ts, granularity, |events|);
    }

    /** `add(item)`: append `item` to the bucket of its timestamp. */
    method Add(item: GameEvent)
      requires Valid()
      requires item.timestamp > -granularity
      modifies this
      ensures Valid()
      ensures events == Added(old(events), granularity, item)
    {
      var ts := item.timestamp;
      FillMissing(ts);
      var k := Trunc(ts, granularity);
      var bucket := events[k];
      events := events[k := bucket.(data := bucket.data + [item])];
    }

    /** `findEnd(data, ts)`: -1 for no data, else the least index whose
        timestamp is at least `ts`, or `|data|` if there is none. */
    static method FindEnd(data: seq<GameEvent>, ts: int) returns (idx: int)
      ensures data == [] ==> idx == -1
      ensures data != [] ==> 0 <= idx <= |data|
      ensures forall k :: 0 <= k < idx ==> data[k].timestamp < ts
      ensures 0 <= idx < |data| ==> data[idx].timestamp >= ts
      ensures data != [] ==> idx == FirstNotBefore(data, ts)
    {
      if |data| == 0 {
        return -1;
      }
      idx := 0;
      while idx < |data| && data[idx].timestamp < ts
        invariant 0 <= idx <= |data|
        invariant forall k :: 0 <= k < idx ==> data[k].timestamp < ts
      {
        idx := idx + 1;
      }
    }

    /** `getInterval(ts)`. */
    method GetInterval(ts: int) returns (r: Option<(GameEvent, GameEvent)>)
      requires Valid()
      ensures r == IntervalOf(events, granularity, ts)
      ensures r.Some? ==> r.value.0.timestamp < ts <= r.value.1.timestamp
    {
      if ts < 0 {
        return None;
      }
      var (prevBucket, bucket, nextBucket) := GetBuckets(ts);
      if bucket.None? {
        return None;
      }
      var curLen := |bucket.value.data|;
      var endIntervalIdx := FindEnd(bucket.value.data, ts);
      if endIntervalIdx < 0 {
        return None;
      }
      if endIntervalIdx == 0 {
        var prevLen := Occupancy(prevBucket);
        if prevLen == 0 {
          return None;
        }
        r := Some((prevBucket.value.data[prevLen - 1], bucket.value.data[0]));
      } else if endIntervalIdx == curLen {
        var nextLen := Occupancy(nextBucket);
        if nextLen == 0 {
          return None;
        }
        r := Some((bucket.value.data[curLen - 1], nextBucket.value.data[0]));
      } else {
        r := Some((bucket.value.data[endIntervalIdx - 1], bucket.value.data[endIntervalIdx]));
      }
      IntervalBrackets(events, granularity, ts);
    }

    /** The iterator: every bucket in index order, every sample of a bucket
        in insertion order. */
    method Iterate() returns (items: seq<GameEvent>)
      ensures items == Flatten(events)
    {
      items := [];
      var i := 0;
      while i < |events|
        invariant 0 <= i <= |events|
        invariant items == Flatten(events[..i])
      {
        var data := events[i].data;
        var j := 0;
        while j < |data|
          invariant 0 <= j <= |data|
          invariant items == Flatten(events[..i]) + data[..j]
        {
          items := items + [data[j]];
          j := j + 1;
        }
        assert events[..i + 1][..i] == events[..i];
        assert data[..j] == data;
        i := i + 1;
      }
      assert events[..i] == events;
    }
  }

  // ---------------------------------------------------------------------
  // Properties of the specification

  /** `a` is immediately followed by `b` in iteration order. */
  ghost predicate Adjacent(events: seq<Bucket>, a: GameEvent, b: GameEvent) {
    exists p :: 0 <= p && p + 1 < |Flatten(events)| && Flatten(events)[p] == a && Flatten(events)[p + 1] == b
  }

  /** The last sample of bucket `k - 1` is immediately followed by the first of bucket `k`. */
  lemma AdjacentAcross(events: seq<Bucket>, k: int)
    requires 0 < k < |events| && events[k - 1].data != [] && events[k].data != []
    ensures Adjacent(events, events[k - 1].data[|events[k - 1].data| - 1], events[k].data[0])
  {
    var prev := events[k - 1].data;
    FlattenNext(events, k - 1);
    FlattenAt(events, k - 1, |prev| - 1);
    FlattenAt(events, k, 0);
    var p := |Flatten(events[..k - 1])| + |prev| - 1;
    assert Flatten(events)[p] == prev[|prev| - 1];
    assert Flatten(events)[p + 1] == events[k].data[0];
  }

  /** Two neighbouring samples of one bucket are neighbours in iteration order. */
  lemma AdjacentWithin(events: seq<Bucket>, k: int, j: int)
    requires 0 <= k < |events| && 0 < j < |events[k].data|
    ensures Adjacent(events, events[k].data[j - 1], events[k].data[j])
  {
    FlattenAt(events, k, j - 1);
    FlattenAt(events, k, j);
    var p := |Flatten(events[..k])| + j - 1;
    assert Flatten(events)[p] == events[k].data[j - 1];
  }

  /** Whatever `getInterval(ts)` returns brackets `ts`: the first sample is
      strictly earlier, the second is at or after `ts`, and the second
      immediately follows the first in iteration order. */
  lemma IntervalBrackets(events: seq<Bucket>, g: int, ts: int)
    requires g > 0 && Chain(events, g) && Placed(events, g)
    ensures var r := IntervalOf(events, g, ts);
      r.Some? ==>
        && r.value.0.timestamp < ts <= r.value.1.timestamp
        && Adjacent(events, r.value.0, r.value.1)
  {
    var r := IntervalOf(events, g, ts);
    if r.Some? {
      var k := Trunc(ts, g);
      var data := events[k].data;
      var e := FirstNotBefore(data, ts);
      if e == 0 {
        var prev := events[k - 1].data;
        assert Trunc(prev[|prev| - 1].timestamp, g) == k - 1;
        TruncOrder(prev[|prev| - 1].timestamp, ts, g);
        AdjacentAcross(events, k);
      } else if e == |data| {
        assert Trunc(events[k + 1].data[0].timestamp, g) == k + 1;
        TruncOrder(ts, events[k + 1].data[0].timestamp, g);
        AdjacentAcross(events, k + 1);
      } else {
        AdjacentWithin(events, k, e);
      }
    }
  }

  /** Both samples of a bracket are stored samples, so they share every
      property all stored samples have (a ping series yields pings). */
  lemma IntervalKinds(events: seq<Bucket>, g: int, ts: int, p: GameEvent -> bool)
    requires g > 0 && AllSatisfy(events, p)
    ensures var r := IntervalOf(events, g, ts);
      r.Some? ==> p(r.value.0) && p(r.value.1)
  {
    var r := IntervalOf(events, g, ts);
    if r.Some? {
      var k := Trunc(ts, g);
      var data := events[k].data;
      var e := FirstNotBefore(data, ts);
      if e == 0 {
        var prev := events[k - 1].data;
        assert p(prev[|prev| - 1]) && p(data[0]);
      } else if e == |data| {
        assert p(data[|data| - 1]) && p(events[k + 1].data[0]);
      } else {
        assert p(data[e - 1]) && p(data[e]);
      }
    }
  }

  /** The timestamps of `s` never decrease. */
  ghost predicate Sorted(s: seq<GameEvent>) {
    forall i, j :: 0 <= i < j < |s| ==> s[i].timestamp <= s[j].timestamp
  }

  /** Every sample of `s` is strictly earlier than `ts`. */
  ghost predicate AllBefore(s: seq<GameEvent>, ts: int) {
    forall i :: 0 <= i < |s| ==> s[i].timestamp < ts
  }

  /** No sample of `s` is later than `ts`. */
  ghost predicate NoneAfter(s: seq<GameEvent>, ts: int) {
    forall i :: 0 <= i < |s| ==> s[i].timestamp <= ts
  }

  /** With samples in time order, a bracket is the latest sample before `ts`
      and the earliest sample at or after it. */
  lemma SortedIntervalIsTight(events: seq<Bucket>, g: int, ts: int)
    requires g > 0 && Chain(events, g) && Placed(events, g)
    requires Sorted(Flatten(events))
    ensures var r := IntervalOf(events, g, ts);
      var s := Flatten(events);
      r.Some? ==>
        && (forall q :: 0 <= q < |s| && s[q].timestamp < ts ==> s[q].timestamp <= r.value.0.timestamp)
        && (forall q :: 0 <= q < |s| && s[q].timestamp >= ts ==> r.value.1.timestamp <= s[q].timestamp)
  {
    var r := IntervalOf(events, g, ts);
    var s := Flatten(events);
    if r.Some? {
      IntervalBrackets(events, g, ts);
      var p :| 0 <= p && p + 1 < |s| && s[p] == r.value.0 && s[p + 1] == r.value.1;
      SortedNeighbours(s, p, ts);
    }
  }

  /** In a sorted sequence, two neighbours on either side of `ts` are the
      latest element before `ts` and the earliest at or after it. */
  lemma SortedNeighbours(s: seq<GameEvent>, p: int, ts: int)
    requires Sorted(s) && 0 <= p && p + 1 < |s|
    requires s[p].timestamp < ts <= s[p + 1].timestamp
    ensures forall q :: 0 <= q < |s| && s[q].timestamp < ts ==> s[q].timestamp <= s[p].timestamp
    ensures forall q :: 0 <= q < |s| && s[q].timestamp >= ts ==> s[p + 1].timestamp <= s[q].timestamp
  {
    forall q | 0 <= q < |s| && s[q].timestamp < ts
      ensures q <= p
    {
      SortedFrom(s, p + 1, q);
    }
    forall q | 0 <= q < |s| && s[q].timestamp >= ts
      ensures p + 1 <= q
    {
      SortedFrom(s, q, p);
    }
  }

  /** An element of a sorted sequence is no later than any element after it;
      so a later timestamp can only lie strictly further on. */
  lemma SortedFrom(s: seq<GameEvent>, i: int, j: int)
    requires Sorted(s) && 0 <= i < |s| && 0 <= j < |s|
    ensures s[j].timestamp < s[i].timestamp ==> j < i
  {
  }

  /** A query after every recorded sample finds nothing. */
  lemma AbsentAfterLast(events: seq<Bucket>, g: int, ts: int)
    requires g > 0 && Chain(events, g) && Placed(events, g)
    requires AllBefore(Flatten(events), ts)
    ensures IntervalOf(events, g, ts).None?
  {
    IntervalBrackets(events, g, ts);
  }

  /** The last sample before an empty bucket and the first sample after it
      are never bracketed together, for any `ts`: a pair is taken from one
      bucket or from two neighbouring ones, and borrowing reaches one bucket
      only. */
  lemma GapIsNotBridged(events: seq<Bucket>, g: int, k: int, ts: int)
    requires g > 0 && Chain(events, g) && Placed(events, g)
    requires 0 < k < |events| - 1 && events[k].data == []
    requires events[k - 1].data != [] && events[k + 1].data != []
    ensures var before, after := events[k - 1].data, events[k + 1].data;
      IntervalOf(events, g, ts) != Some((before[|before| - 1], after[0]))
  {
    var before, after := events[k - 1].data, events[k + 1].data;
    assert Trunc(before[|before| - 1].timestamp, g) == k - 1;
    assert Trunc(after[0].timestamp, g) == k + 1;
    if ts >= 0 && 0 <= Trunc(ts, g) < |events| && events[Trunc(ts, g)].data != [] {
      var i := Trunc(ts, g);
      var data := events[i].data;
      var e := FirstNotBefore(data, ts);
      if e == 0 {
        if Occupancy(BucketAt(events, i - 1)) > 0 {
          var prev := events[i - 1].data;
          assert Trunc(prev[|prev| - 1].timestamp, g) == i - 1;
          assert Trunc(data[0].timestamp, g) == i;
        }
      } else if e == |data| {
        if Occupancy(BucketAt(events, i + 1)) > 0 {
          assert Trunc(data[|data| - 1].timestamp, g) == i;
          assert Trunc(events[i + 1].data[0].timestamp, g) == i + 1;
        }
      } else {
        assert Trunc(data[e - 1].timestamp, g) == i;
        assert Trunc(data[e].timestamp, g) == i;
      }
    }
  }

  /** A query at exactly the last sample's timestamp is answered. */
  lemma AnsweredAtLast()
    ensures var events := [Bucket(0, [Ping(100, 10.0), Ping(200, 20.0)])];
      IntervalOf(events, 1000, 200) == Some((Ping(100, 10.0), Ping(200, 20.0)))
  {
    assert Trunc(200, 1000) == 0;
  }

  lemma FlattenSplit(events: seq<Bucket>, m: int)
    requires 0 <= m <= |events|
    ensures Flatten(events) == Flatten(events[..m]) + Flatten(events[m..])
  {
    assert events == events[..m] + events[m..];
    FlattenConcat(events[..m], events[m..]);
  }

  /** Filling appends only empty buckets, so the samples are unchanged. */
  lemma FilledSamples(events: seq<Bucket>, g: int, ts: int)
    requires g > 0 && Chain(events, g)
    ensures Flatten(Filled(events, g, ts)) == Flatten(events)
  {
    var f := Filled(events, g, ts);
    FlattenSplit(f, |events|);
    FlattenEmpty(f[|events|..]);
  }

  /** `add` keeps every earlier sample and adds `item` once. */
  lemma AddedSamples(events: seq<Bucket>, g: int, item: GameEvent)
    requires g > 0 && Chain(events, g) && item.timestamp > -g
    ensures multiset(Flatten(Added(events, g, item))) == multiset(Flatten(events)) + multiset{item}
  {
    var f := Filled(events, g, item.timestamp);
    var k := Trunc(item.timestamp, g);
    FilledSamples(events, g, item.timestamp);
    assert Added(events, g, item) == f[k := f[k].(data := f[k].data + [item])];
    FlattenAppend(f, k, item);
  }

  /** `add` keeps the representation invariant and every property the
      samples share with `item`. */
  lemma AddedKeepsInvariant(events: seq<Bucket>, g: int, item: GameEvent, p: GameEvent -> bool)
    requires g > 0 && Chain(events, g) && Placed(events, g) && item.timestamp > -g
    requires AllSatisfy(events, p) && p(item)
    ensures Placed(Added(events, g, item), g)
    ensures AllSatisfy(Added(events, g, item), p)
  {
    var r := Added(events, g, item);
    var k := Trunc(item.timestamp, g);
    forall i, j | 0 <= i < |r| && 0 <= j < |r[i].data|
      ensures Trunc(r[i].data[j].timestamp, g) == i && p(r[i].data[j])
    {
      if i == k && j == |r[i].data| - 1 {
        assert r[i].data[j] == item;
      } else {
        assert i < |events| && r[i].data[j] == events[i].data[j];
      }
    }
  }

  /** No sample lies in a bucket after that of a sample no earlier than all of them. */
  lemma LaterBucketsEmpty(events: seq<Bucket>, g: int, ts: int)
    requires g > 0 && Placed(events, g)
    requires NoneAfter(Flatten(events), ts)
    ensures forall i :: 0 <= i < |events| && Trunc(ts, g) < i ==> events[i].data == []
  {
    forall i | 0 <= i < |events| && Trunc(ts, g) < i
      ensures events[i].data == []
    {
      if events[i].data != [] {
        FlattenAt(events, i, 0);
        TruncOrder(ts, events[i].data[0].timestamp, g);
      }
    }
  }

  /** Buckets holding the same samples iterate alike. */
  lemma {:induction false} FlattenSameData(a: seq<Bucket>, b: seq<Bucket>)
    requires |a| == |b| && forall i :: 0 <= i < |a| ==> a[i].data == b[i].data
    ensures Flatten(a) == Flatten(b)
  {
    if a != [] {
      FlattenSameData(a[..|a| - 1], b[..|b| - 1]);
    }
  }

  /** Empty buckets appended after the last do not change iteration. */
  lemma {:induction false} FlattenPadded(events: seq<Bucket>, r: seq<Bucket>)
    requires |events| <= |r|
    requires forall i :: 0 <= i < |r| ==> r[i].data == (if i < |events| then events[i].data else [])
    ensures Flatten(r) == Flatten(events)
  {
    if |r| > |events| {
      FlattenPadded(events, r[..|r| - 1]);
    } else {
      FlattenSameData(r, events);
    }
  }

  /** If `r` holds the samples of `events` (and possibly more empty buckets)
      with `item` appended to bucket `k`, and no bucket after `k` held a
      sample, then `item` comes last in iteration order. */
  lemma {:induction false} AppendedLast(events: seq<Bucket>, r: seq<Bucket>, k: int, item: GameEvent)
    requires 0 <= k < |r| && |events| <= |r|
    requires forall i :: 0 <= i < |r| && i != k ==> r[i].data == (if i < |events| then events[i].data else [])
    requires r[k].data == (if k < |events| then events[k].data else []) + [item]
    requires forall i :: k < i < |events| ==> events[i].data == []
    ensures Flatten(r) == Flatten(events) + [item]
  {
    var m := |r| - 1;
    var init := r[..m];
    assert Flatten(r) == Flatten(init) + r[m].data;
    if k < m {
      assert r[m].data == [];
      if |events| == |r| {
        assert Flatten(events) == Flatten(events[..m]) + events[m].data;
        assert events[m].data == [];
        AppendedLast(events[..m], init, k, item);
      } else {
        AppendedLast(events, init, k, item);
      }
    } else if k < |events| {
      assert Flatten(events) == Flatten(events[..k]) + events[k].data;
      FlattenSameData(init, events[..k]);
    } else {
      FlattenPadded(events, init);
    }
  }

  /** Adding a sample no earlier than every stored one appends it at the end
      of the iteration order. */
  lemma AddInOrder(events: seq<Bucket>, g: int, item: GameEvent)
    requires g > 0 && Chain(events, g) && Placed(events, g) && item.timestamp > -g
    requires NoneAfter(Flatten(events), item.timestamp)
    ensures Flatten(Added(events, g, item)) == Flatten(events) + [item]
  {
    LaterBucketsEmpty(events, g, item.timestamp);
    AppendedLast(events, Added(events, g, item), Trunc(item.timestamp, g), item);
  }

  /** The series after adding `items` one by one to `events`. */
  function AddAll(events: seq<Bucket>, g: int, items: seq<GameEvent>): (r: seq<Bucket>)
    requires g > 0 && Chain(events, g)
    requires forall q :: 0 <= q < |items| ==> items[q].timestamp > -g
    ensures Chain(r, g)
  {
    if items == [] then events
    else Added(AddAll(events, g, items[..|items| - 1]), g, items[|items| - 1])
  }

  /** Iteration yields every added sample exactly once. */
  lemma {:induction false} AddAllSamples(events: seq<Bucket>, g: int, items: seq<GameEvent>)
    requires g > 0 && Chain(events, g)
    requires forall q :: 0 <= q < |items| ==> items[q].timestamp > -g
    ensures multiset(Flatten(AddAll(events, g, items))) == multiset(Flatten(events)) + multiset(items)
  {
    if items != [] {
      var init := items[..|items| - 1];
      var last := items[|items| - 1];
      var before := AddAll(events, g, init);
      SplitLast(items);
      AddAllSamples(events, g, init);
      AddedSamples(before, g, last);
      assert AddAll(events, g, items) == Added(before, g, last);
      assert multiset(items) == multiset(init) + multiset{last};
    }
  }

  /** Samples added in non-decreasing time order are iterated in exactly the
      order they were added. */
  lemma {:induction false} AddAllInOrder(g: int, items: seq<GameEvent>)
    requires g > 0
    requires forall q :: 0 <= q < |items| ==> items[q].timestamp > -g
    requires Sorted(items)
    ensures Placed(AddAll([Bucket(0, [])], g, items), g)
    ensures Flatten(AddAll([Bucket(0, [])], g, items)) == items
  {
    var start := [Bucket(0, [])];
    assert Chain(start, g);
    if items == [] {
      assert Flatten(start) == Flatten(start[..0]) + [];
    } else {
      var init := items[..|items| - 1];
      var last := items[|items| - 1];
      SplitLast(items);
      AddAllInOrder(g, init);
      var before := AddAll(start, g, init);
      AddedKeepsInvariant(before, g, last, _ => true);
      AddInOrder(before, g, last);
    }
  }

  /** A non-empty sequence is its prefix followed by its last element. */
  lemma SplitLast(s: seq<GameEvent>)
    requires s != []
    ensures s == s[..|s| - 1] + [s[|s| - 1]]
  {
  }
}
