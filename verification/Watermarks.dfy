/** The watermark generator of internal/topo/node/watermark.go on values: per-topic high-water timestamps, the late
    tuple test and the watermark computed from them. */
module Watermarks {
  import opened Wrappers
  import opened Sequences
  import opened Collections

  const MAX_INT64 := 0x7FFF_FFFF_FFFF_FFFF

  datatype Generator = Generator(topicTs: map<string, int>, lastWm: int)

  /** The outcome of tracking one tuple: the new generator, whether the tuple is accepted, and the watermark raised. */
  datatype Tracked = Tracked(gen: Generator, accepted: bool, watermark: Option<int>)

  function Fresh(): (g: Generator) {
    Generator(map[], 0)
  }

  function Observe(m: map<string, int>, topic: string, ts: int): (r: map<string, int>) {
    if topic !in m || ts > m[topic] then m[topic := ts] else m
  }

  /** A Go map lookup: a missing key reads as zero. */
  function Read(m: map<string, int>, topic: string): (ts: int) {
    if topic in m then m[topic] else 0
  }

  function MinTs(topics: seq<string>, m: map<string, int>): (ts: int) {
    if topics == [] then MAX_INT64
    else
      var rest := MinTs(topics[..|topics| - 1], m);
      var last := Read(m, topics[|topics| - 1]);
      if rest > last then last else rest
  }

  function ComputeWatermarkTs(topics: seq<string>, tolerance: int, m: map<string, int>): (ts: int) {
    (if |m| >= |topics| then MinTs(topics, m) else 0) - tolerance
  }

  function Track(topics: seq<string>, tolerance: int, g: Generator, topic: string, ts: int): (r: Tracked) {
    var m := Observe(g.topicTs, topic, ts);
    if ts < g.lastWm then Tracked(Generator(m, g.lastWm), false, None)
    else
      var w := ComputeWatermarkTs(topics, tolerance, m);
      if w > g.lastWm then Tracked(Generator(m, w), true, Some(w)) else Tracked(Generator(m, g.lastWm), true, None)
  }

  /** The generator after tracking every received tuple in order, from a fresh state. */
  function TrackAll(topics: seq<string>, tolerance: int, received: seq<Tuple>): (g: Generator) {
    if received == [] then Fresh()
    else
      var t := received[|received| - 1];
      Track(topics, tolerance, TrackAll(topics, tolerance, received[..|received| - 1]), t.emitter, t.ts).gen
  }

  /** The received tuples that tracking lets through, in order. */
  function Accepted(topics: seq<string>, tolerance: int, received: seq<Tuple>): (r: seq<Tuple>) {
    if received == [] then []
    else
      var n := |received| - 1;
      var before := Accepted(topics, tolerance, received[..n]);
      if received[n].ts < TrackAll(topics, tolerance, received[..n]).lastWm then before else before + [received[n]]
  }

  // ----- the declarative definition

  ghost predicate ValidTopics(topics: seq<string>, tolerance: int) {
    topics != [] && tolerance >= 0 && forall i, j :: 0 <= i < j < |topics| ==> topics[i] != topics[j]
  }

  /** Tuples whose emitter is an input topic and whose timestamp is a non-negative 64-bit value. */
  ghost predicate ValidTuples(topics: seq<string>, received: seq<Tuple>) {
    forall t :: t in received ==> t.emitter in topics && 0 <= t.ts <= MAX_INT64
  }

  /** The largest timestamp received from a topic, zero when there is none. */
  function Latest(received: seq<Tuple>, topic: string): (ts: int)
    ensures 0 <= ts
  {
    if received == [] then 0
    else
      var n := |received| - 1;
      var rest := Latest(received[..n], topic);
      if received[n].emitter == topic && received[n].ts > rest then received[n].ts else rest
  }

  lemma LatestAppend(received: seq<Tuple>, t: Tuple, topic: string)
    ensures Latest(received + [t], topic)
         == if t.emitter == topic && t.ts > Latest(received, topic) then t.ts else Latest(received, topic)
  {
    assert (received + [t])[..|received|] == received;
  }

  /** `Latest` is an upper bound that is attained, unless nothing positive was received. */
  lemma {:induction false} LatestIsMaximum(received: seq<Tuple>, topic: string)
    ensures forall t :: t in received && t.emitter == topic ==> t.ts <= Latest(received, topic)
    ensures Latest(received, topic) == 0
         || exists t :: t in received && t.emitter == topic && t.ts == Latest(received, topic)
  {
    if received != [] {
      var n := |received| - 1;
      assert received == received[..n] + [received[n]];
      LatestIsMaximum(received[..n], topic);
      assert forall t :: t in received <==> t in received[..n] || t == received[n];
    }
  }

  /** `low` is the least of the topics' latest timestamps. */
  ghost predicate IsLowest(topics: seq<string>, received: seq<Tuple>, low: int) {
    (forall s :: s in topics ==> low <= Latest(received, s)) && exists s :: s in topics && low == Latest(received, s)
  }

  ghost predicate Consistent(topics: seq<string>, received: seq<Tuple>, m: map<string, int>) {
    && (forall s :: s in m ==> s in topics)
    && (forall s :: s in topics ==> Read(m, s) == Latest(received, s))
    && (forall t :: t in received ==> t.emitter in m)
  }

  lemma {:induction false} DistinctCount(topics: seq<string>)
    requires forall i, j :: 0 <= i < j < |topics| ==> topics[i] != topics[j]
    ensures |(set s | s in topics)| == |topics|
  {
    if topics != [] {
      var n := |topics| - 1;
      DistinctCount(topics[..n]);
      assert (set s | s in topics) == (set s | s in topics[..n]) + {topics[n]};
    }
  }

  /** With distinct topics the size test of the generator means that every topic was seen. */
  lemma AllSeen(topics: seq<string>, m: map<string, int>)
    requires ValidTopics(topics, 0)
    requires forall s :: s in m ==> s in topics
    ensures |m| >= |topics| <==> forall s :: s in topics ==> s in m
  {
    var all := set s | s in topics;
    DistinctCount(topics);
    SubsetSize(m.Keys, all);
    assert |m| == |m.Keys|;
    if forall s :: s in topics ==> s in m {
      assert m.Keys == all;
    }
  }

  lemma {:induction false} MinTsIsLeast(topics: seq<string>, m: map<string, int>)
    requires forall s :: s in topics ==> Read(m, s) <= MAX_INT64
    ensures forall s :: s in topics ==> MinTs(topics, m) <= Read(m, s)
    ensures topics != [] ==> exists s :: s in topics && MinTs(topics, m) == Read(m, s)
  {
    if topics != [] {
      var n := |topics| - 1;
      assert topics == topics[..n] + [topics[n]];
      assert topics[n] in topics;
      assert forall s :: s in topics[..n] ==> s in topics;
      MinTsIsLeast(topics[..n], m);
      if n > 0 {
        var s :| s in topics[..n] && MinTs(topics[..n], m) == Read(m, s);
        assert s in topics;
      }
    }
  }

  lemma ObserveConsistent(topics: seq<string>, received: seq<Tuple>, m: map<string, int>, t: Tuple)
    requires ValidTuples(topics, received + [t]) && Consistent(topics, received, m)
    ensures Consistent(topics, received + [t], Observe(m, t.emitter, t.ts))
  {
    var m' := Observe(m, t.emitter, t.ts);
    assert t in received + [t];
    forall s | s in topics ensures Read(m', s) == Latest(received + [t], s) {
      LatestAppend(received, t, s);
    }
    forall x | x in received + [t] ensures x.emitter in m' {
      assert x in received || x == t;
    }
  }

  /** The computed watermark is the lowest topic timestamp less the tolerance, or not positive. */
  lemma ComputedFromLowest(topics: seq<string>, tolerance: int, received: seq<Tuple>, m: map<string, int>, low: int)
    requires ValidTopics(topics, tolerance) && ValidTuples(topics, received) && Consistent(topics, received, m)
    requires IsLowest(topics, received, low)
    ensures ComputeWatermarkTs(topics, tolerance, m) == low - tolerance
  {
    AllSeen(topics, m);
    if |m| >= |topics| {
      forall s | s in topics ensures Read(m, s) <= MAX_INT64 {
        LatestIsMaximum(received, s);
      }
      MinTsIsLeast(topics, m);
    } else {
      var s :| s in topics && s !in m;
      assert Latest(received, s) == 0;
      var s' :| s' in topics && low == Latest(received, s');
    }
  }

  lemma {:induction false} TrackConsistent(topics: seq<string>, tolerance: int, received: seq<Tuple>)
    requires ValidTopics(topics, tolerance) && ValidTuples(topics, received)
    ensures Consistent(topics, received, TrackAll(topics, tolerance, received).topicTs)
  {
    if received != [] {
      var n := |received| - 1;
      assert received == received[..n] + [received[n]];
      TrackConsistent(topics, tolerance, received[..n]);
      ObserveConsistent(topics, received[..n], TrackAll(topics, tolerance, received[..n]).topicTs, received[n]);
    }
  }

  function Lowest(topics: seq<string>, received: seq<Tuple>): (low: int)
    requires topics != []
    ensures IsLowest(topics, received, low)
  {
    var n := |topics| - 1;
    assert topics == topics[..n] + [topics[n]];
    assert topics[n] in topics;
    var last := Latest(received, topics[n]);
    if n == 0 then last
    else
      var rest := Lowest(topics[..n], received);
      assert exists s :: s in topics[..n] && rest == Latest(received, s) && s in topics;
      if rest > last then last else rest
  }

  function Max(a: int, b: int): (m: int) {
    if a < b then b else a
  }

  /** Receiving one more tuple can only raise the lowest latest timestamp, and a refused one leaves it. */
  lemma LowestStep(topics: seq<string>, received: seq<Tuple>, t: Tuple, low: int, low': int)
    requires t.emitter in topics
    requires IsLowest(topics, received, low) && IsLowest(topics, received + [t], low')
    ensures low <= low'
    ensures t.ts <= low ==> low == low'
  {
    forall s | s in topics
      ensures Latest(received, s) <= Latest(received + [t], s)
      ensures t.ts <= low ==> Latest(received + [t], s) == Latest(received, s)
    {
      LatestAppend(received, t, s);
    }
  }

  /** The watermark at any time is the lowest of the topics' latest timestamps less the tolerance, and never negative;
      late tuples, which are recorded although they are refused, do not move it. */
  lemma {:induction false} WatermarkIsLowest(topics: seq<string>, tolerance: int, received: seq<Tuple>, low: int)
    requires ValidTopics(topics, tolerance) && ValidTuples(topics, received)
    requires IsLowest(topics, received, low)
    ensures TrackAll(topics, tolerance, received).lastWm == Max(0, low - tolerance)
  {
    if received == [] {
      var s :| s in topics && low == Latest(received, s);
    } else {
      var before, t := received[..|received| - 1], received[|received| - 1];
      assert received == before + [t];
      assert t in received;
      var low0 := Lowest(topics, before);
      WatermarkIsLowest(topics, tolerance, before, low0);
      LowestStep(topics, before, t, low0, low);
      var g := TrackAll(topics, tolerance, before);
      if t.ts >= g.lastWm {
        TrackConsistent(topics, tolerance, before);
        ObserveConsistent(topics, before, g.topicTs, t);
        ComputedFromLowest(topics, tolerance, received, Observe(g.topicTs, t.emitter, t.ts), low);
      }
    }
  }

  /** The watermark never decreases ... */
  lemma {:induction false} WatermarkMonotone(topics: seq<string>, tolerance: int, received: seq<Tuple>, k: nat)
    requires k <= |received|
    ensures TrackAll(topics, tolerance, received[..k]).lastWm <= TrackAll(topics, tolerance, received).lastWm
  {
    if k == |received| {
      assert received[..k] == received;
    } else {
      var before := received[..|received| - 1];
      assert before[..k] == received[..k];
      WatermarkMonotone(topics, tolerance, before, k);
    }
  }

  /** ... and no tuple accepted after a watermark is older than it. */
  lemma {:induction false} AcceptedNotLate(topics: seq<string>, tolerance: int, received: seq<Tuple>, k: nat)
    returns (later: seq<Tuple>)
    requires k <= |received|
    ensures Accepted(topics, tolerance, received) == Accepted(topics, tolerance, received[..k]) + later
    ensures forall t :: t in later ==> t.ts >= TrackAll(topics, tolerance, received[..k]).lastWm
  {
    if k == |received| {
      assert received[..k] == received;
      later := [];
    } else {
      var before, t := received[..|received| - 1], received[|received| - 1];
      assert before[..k] == received[..k];
      later := AcceptedNotLate(topics, tolerance, before, k);
      WatermarkMonotone(topics, tolerance, before, k);
      if t.ts >= TrackAll(topics, tolerance, before).lastWm {
        later := later + [t];
      }
    }
  }
}
