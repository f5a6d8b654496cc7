/** The event-time window operator of internal/topo/node/watermark.go and internal/topo/node/window_op.go as a state
    machine on values, and the batch definition of the windows it has to emit. */
module EventWindows {
  import opened Sequences
  import opened Collections
  import opened Watermarks

  datatype Kind = Tumbling | Hopping | Sliding | Session

  datatype Config = Config(kind: Kind, length: int, interval: int, topics: seq<string>, tolerance: int) {
    ghost predicate Valid() {
      ValidTopics(topics, tolerance) && length > 0 && (kind == Hopping ==> interval > 0) && interval >= 0
    }

    /** The interval the watermark generator works with. */
    function Step(): (n: int) {
      if kind == Tumbling || kind == Sliding then length else interval
    }

    /** Hopping and sliding windows keep tuples after a trigger and evict expired ones. */
    predicate Overlapping() {
      kind == Hopping || kind == Sliding
    }
  }

  datatype Window = Window(start: int, end: int, content: seq<WindowTuples>)

  /** `queue` holds the watermarks the generator sent into the operator's own input and that are not processed yet;
      `emitted` is everything the operator broadcast. */
  datatype State = State(
    inputs: seq<Tuple>, nextEnd: int, prevEnd: int, triggered: bool, lastTicked: bool, triggerTime: int,
    gen: Generator, queue: seq<int>, emitted: seq<Window>)

  /** A tuple arrives (`room` says whether the input queue can take the watermark it may raise), or the operator
      reaches the next watermark in its queue. */
  datatype Event = Arrive(tuple: Tuple, room: bool) | NextWatermark

  function Init(startTime: int): (st: State) {
    State([], 0, 0, false, false, startTime, Fresh(), [], [])
  }

  // ----- window ends

  /** The earliest timestamp in the half-open range, `MAX_INT64` when there is none. */
  function EarliestTs(s: seq<Tuple>, after: int, upTo: int): (ts: int)
    ensures ts == MAX_INT64 || after < ts <= upTo
  {
    if s == [] then MAX_INT64
    else
      var rest := EarliestTs(s[..|s| - 1], after, upTo);
      var t := s[|s| - 1].ts;
      if after < t <= upTo && t < rest then t else rest
  }

  function RoundUp(ts: int, step: int): (r: int)
    requires step > 0
    ensures ts <= r < ts + step && r % step == 0
  {
    if ts % step == 0 then ts
    else
      RoundUpIsMultiple(ts, step);
      ts + (step - ts % step)
  }

  lemma RoundUpIsMultiple(ts: int, step: int)
    requires step > 0
    ensures (ts + (step - ts % step)) % step == 0
  {
    var q := ts / step;
    assert ts + (step - ts % step) == (q + 1) * step;
    MultipleMod(q + 1, step);
  }

  lemma MultipleMod(k: int, step: int)
    requires step > 0
    ensures (k * step) % step == 0
  {
    var q, r := (k * step) / step, (k * step) % step;
    assert (k - q) * step == r;
    assert k - q >= 1 ==> (k - q) * step >= step;
    assert k - q <= -1 ==> (k - q) * step <= -step;
  }

  lemma NextMultiple(a: int, step: int)
    requires step > 0 && a % step == 0
    ensures (a + step) % step == 0
  {
    assert a + step == (a / step + 1) * step;
    MultipleMod(a / step + 1, step);
  }

  /** The end of the next window, `MAX_INT64` when it cannot be determined yet. */
  function NextEnd(cfg: Config, inputs: seq<Tuple>, current: int, wm: int, triggered: bool): (end: int)
    requires cfg.Valid() && current < MAX_INT64
    ensures end > current
  {
    match cfg.kind
    case Tumbling | Hopping =>
      if triggered then current + cfg.Step()
      else
        var ts := EarliestTs(inputs, current, wm);
        if ts == MAX_INT64 then ts else RoundUp(ts, cfg.Step())
    case Sliding => EarliestTs(inputs, current, wm)
    case Session => MAX_INT64
  }

  // ----- scanning

  function CalDelta(lastTriggerTime: int): (delta: int) {
    if lastTriggerTime <= 0 then 32767 else 0
  }

  function Expired(cfg: Config, end: int, delta: int): (p: Tuple -> bool) {
    (t: Tuple) => cfg.Overlapping() && end - t.ts > cfg.length + delta
  }

  /** The tuples that stay in the buffer after a scan at `end`. */
  function Kept(cfg: Config, end: int, delta: int): (p: Tuple -> bool) {
    (t: Tuple) => if cfg.Overlapping() then !Expired(cfg, end, delta)(t) else t.ts > end
  }

  /** The tuples that a scan at `end` puts into the window. */
  function Hit(cfg: Config, end: int, delta: int): (p: Tuple -> bool) {
    (t: Tuple) => !Expired(cfg, end, delta)(t) && t.ts <= end
  }

  function StartOf(cfg: Config, triggerTime: int, end: int): (start: int) {
    match cfg.kind
    case Tumbling | Session => triggerTime
    case Hopping => triggerTime - cfg.interval
    case Sliding => end - cfg.length
  }

  function Scan(cfg: Config, st: State, end: int): (r: State)
    ensures r.prevEnd == end && r.gen == st.gen && r.queue == st.queue && st.emitted <= r.emitted
  {
    var delta := if cfg.Overlapping() then CalDelta(st.triggerTime) else 0;
    var hits := Select(st.inputs, Hit(cfg, end, delta));
    var after := st.(inputs := Select(st.inputs, Kept(cfg, end, delta)), prevEnd := end, triggered := hits != []);
    if hits == [] then after
    else
      after.(triggerTime := end,
             emitted := st.emitted + [Window(StartOf(cfg, st.triggerTime, end), end, Packaged(hits))])
  }

  /** A scan only removes tuples from the buffer. */
  lemma ScanSubset(cfg: Config, st: State, end: int)
    ensures forall t :: t in Scan(cfg, st, end).inputs ==> t in st.inputs
  {
    var delta := if cfg.Overlapping() then CalDelta(st.triggerTime) else 0;
    SelectSubset(st.inputs, Kept(cfg, end, delta));
  }

  // ----- the loop over due windows

  /** Tumbling, hopping and sliding: scan window after window until the next end lies beyond the watermark. */
  function Drain(cfg: Config, st: State, wm: int, end: int): (r: State)
    requires cfg.Valid() && wm < MAX_INT64
    ensures r.gen == st.gen && r.queue == st.queue && st.emitted <= r.emitted
    decreases if end <= wm then wm - end + 1 else 0
  {
    if 0 <= end <= wm then
      var st' := Scan(cfg, st, end);
      Drain(cfg, st', wm, NextEnd(cfg, st'.inputs, end, wm, st'.triggered))
    else
      st.(nextEnd := end)
  }

  /** The position reached in the walk over the sorted session buffer: the tick and the previous timestamp, or the
      session end once it is known. */
  datatype SessionWalk = Walking(tick: int, p: int) | Ended(end: int, ticked: bool)

  function FirstTick(et: int, duration: int): (tick: int)
    requires duration > 0
  {
    if et % duration == 0 then et else et + (duration - et % duration)
  }

  function WalkTuple(cfg: Config, et: int, w: SessionWalk, ts: int): (r: SessionWalk) {
    match w
    case Ended(_, _) => w
    case Walking(tick, p) =>
      var gap := if p > 0 && ts - p > cfg.interval then p + cfg.interval else MAX_INT64;
      if ts > tick then
        if tick - cfg.length > et && tick < gap then Ended(tick, true)
        else if gap < MAX_INT64 then Ended(gap, false)
        else Walking(tick + cfg.length, ts)
      else if gap < MAX_INT64 then Ended(gap, false)
      else Walking(tick, ts)
  }

  /** The walk over a sorted, non-empty buffer. */
  function Walk(cfg: Config, s: seq<Tuple>, n: nat): (w: SessionWalk)
    requires n <= |s| && s != [] && cfg.length > 0
  {
    if n == 0 then Walking(FirstTick(s[0].ts, cfg.length), 0)
    else WalkTuple(cfg, s[0].ts, Walk(cfg, s, n - 1), s[n - 1].ts)
  }

  /** The end of the first session in a sorted buffer, as the source computes it. */
  function SessionEnd(cfg: Config, sorted: seq<Tuple>): (r: (int, bool))
    requires cfg.length > 0
  {
    if sorted == [] then (MAX_INT64, false)
    else
      match Walk(cfg, sorted, |sorted|)
      case Ended(end, ticked) => (end, ticked)
      case Walking(_, _) => (MAX_INT64, false)
  }

  /** One session window: set its start unless the previous one was cut by a tick, then scan. */
  function ScanSession(cfg: Config, st: State, end: int, ticked: bool): (r: State)
    requires st.inputs != []
  {
    var st' := if st.lastTicked then st else st.(triggerTime := st.inputs[0].ts);
    Scan(cfg, st', end).(lastTicked := ticked)
  }

  // ----- sessions: the walk ends inside the buffer

  ghost predicate Positive(s: seq<Tuple>) {
    forall t :: t in s ==> 0 < t.ts < MAX_INT64
  }

  /** Neighbours are at most `interval` apart. */
  ghost predicate Close(s: seq<Tuple>, interval: int) {
    forall i :: 0 <= i < |s| - 1 ==> s[i + 1].ts - s[i].ts <= interval
  }

  /** The state of the walk after the first `n` tuples of a sorted buffer. */
  ghost predicate WalkState(cfg: Config, s: seq<Tuple>, n: nat)
    requires n <= |s| && s != [] && cfg.length > 0
  {
    var et := s[0].ts;
    match Walk(cfg, s, n)
    case Walking(tick, p) =>
      && p == (if n == 0 then 0 else s[n - 1].ts)
      && Close(s[..n], cfg.interval)
      && et <= tick
      && (cfg.interval <= cfg.length ==> p <= tick <= et + 2 * cfg.length)
    case Ended(end, ticked) => exists k :: 1 <= k < |s| && EndedAt(cfg, s, end, ticked, k)
  }

  /** A session that ends before the tuple at `k`: the tuples up to `end` are neighbours and span two lengths. It ends
      at the timeout after the tuple before `k`, or at a tick more than one length after its first tuple and before
      such a timeout. */
  ghost predicate EndedAt(cfg: Config, s: seq<Tuple>, end: int, ticked: bool, k: int)
    requires 1 <= k < |s|
  {
    && s[0].ts <= end < s[k].ts
    && Close(s[..k], cfg.interval)
    && (cfg.interval <= cfg.length ==> forall i :: 0 <= i < k && s[i].ts <= end ==> s[i].ts - s[0].ts <= 2 * cfg.length)
    && (!ticked ==> end == s[k - 1].ts + cfg.interval)
    && (ticked ==>
          && end > s[0].ts + cfg.length
          && (s[k].ts - s[k - 1].ts > cfg.interval ==> end < s[k - 1].ts + cfg.interval))
  }

  lemma CloseExtends(s: seq<Tuple>, n: nat, interval: int)
    requires 1 <= n < |s| && Close(s[..n], interval) && s[n].ts - s[n - 1].ts <= interval
    ensures Close(s[..n + 1], interval)
  {
    var r := s[..n + 1];
    forall i | 0 <= i < |r| - 1 ensures r[i + 1].ts - r[i].ts <= interval {
      if i < n - 1 {
        assert s[..n][i + 1].ts - s[..n][i].ts <= interval;
      }
    }
  }

  /** The arithmetic of one step of the walk. */
  lemma WalkTupleStep(cfg: Config, et: int, tick: int, p: int, ts: int)
    requires cfg.length > 0 && cfg.interval >= 0
    requires (p == 0 && et == ts) || 0 < et <= p <= ts
    requires et <= tick && ts < MAX_INT64
    requires cfg.interval <= cfg.length ==> p <= tick <= et + 2 * cfg.length
    ensures match WalkTuple(cfg, et, Walking(tick, p), ts)
            case Walking(tick', p') =>
              && p' == ts && et <= tick' && (p > 0 ==> ts - p <= cfg.interval)
              && (cfg.interval <= cfg.length ==> p' <= tick' <= et + 2 * cfg.length)
            case Ended(end, ticked) =>
              && 0 < p && et <= end < ts
              && (cfg.interval <= cfg.length ==> p <= et + 2 * cfg.length || end <= et + 2 * cfg.length)
              && (!ticked ==> end == p + cfg.interval)
              && (ticked ==> end > et + cfg.length && (ts - p > cfg.interval ==> end < p + cfg.interval))
  {}

  /** One tuple of the walk. */
  lemma WalkStep(cfg: Config, s: seq<Tuple>, n: nat)
    requires cfg.Valid() && n < |s| && Sorted(s) && Positive(s)
    requires WalkState(cfg, s, n) && Walk(cfg, s, n).Walking?
    ensures WalkState(cfg, s, n + 1)
  {
    var Walking(tick, p) := Walk(cfg, s, n);
    assert s[n] in s && s[0] in s;
    assert n >= 1 ==> s[0].ts <= p && p <= s[n].ts;
    WalkTupleStep(cfg, s[0].ts, tick, p, s[n].ts);
    if Walk(cfg, s, n + 1).Ended? {
      assert forall i :: 0 <= i < n ==> s[i].ts <= p;
      assert EndedAt(cfg, s, Walk(cfg, s, n + 1).end, Walk(cfg, s, n + 1).ticked, n);
    } else if n >= 1 {
      CloseExtends(s, n, cfg.interval);
    }
  }

  lemma {:induction false} WalkHolds(cfg: Config, s: seq<Tuple>, n: nat)
    requires cfg.Valid() && n <= |s| && s != [] && Sorted(s) && Positive(s)
    ensures WalkState(cfg, s, n)
  {
    if n > 0 {
      WalkHolds(cfg, s, n - 1);
      if Walk(cfg, s, n - 1).Walking? {
        WalkStep(cfg, s, n - 1);
      } else {
        assert Walk(cfg, s, n) == Walk(cfg, s, n - 1);
      }
    }
  }

  /** Once known, the end stays. */
  lemma {:induction false} EndedStays(cfg: Config, s: seq<Tuple>, n: nat, m: nat)
    requires cfg.length > 0 && s != [] && n <= m <= |s| && Walk(cfg, s, n).Ended?
    ensures Walk(cfg, s, m) == Walk(cfg, s, n)
  {
    if n < m {
      EndedStays(cfg, s, n, m - 1);
    }
  }

  /** Ticks are multiples of the length. */
  lemma {:induction false} TicksAreMultiples(cfg: Config, s: seq<Tuple>, n: nat)
    requires cfg.Valid() && n <= |s| && s != []
    ensures match Walk(cfg, s, n)
            case Walking(tick, _) => tick % cfg.length == 0
            case Ended(end, ticked) => ticked ==> end % cfg.length == 0
  {
    if n == 0 {
      RoundUpIsMultiple(s[0].ts, cfg.length);
    } else {
      TicksAreMultiples(cfg, s, n - 1);
      if Walk(cfg, s, n - 1).Walking? {
        NextMultiple(Walk(cfg, s, n - 1).tick, cfg.length);
      }
    }
  }

  /** In a sorted buffer the tuples up to a time are a prefix. */
  lemma {:induction false} SortedPrefix(s: seq<Tuple>, p: Tuple -> bool, end: int) returns (m: nat)
    requires Sorted(s) && forall t :: t in s ==> p(t) == (t.ts <= end)
    ensures m <= |s| && Select(s, p) == s[..m] && forall i :: m <= i < |s| ==> s[i].ts > end
    ensures forall i :: 0 <= i < m ==> s[i].ts <= end
  {
    if s == [] {
      m := 0;
    } else {
      var n := |s| - 1;
      assert s == s[..n] + [s[n]];
      m := SortedPrefix(s[..n], p, end);
      if s[n].ts <= end {
        assert m == n;
        m := n + 1;
      }
      assert s[..m] == if s[n].ts <= end then s[..n] + [s[n]] else s[..n][..m];
    }
  }

  /** Removing at least one element. */
  lemma {:induction false} SelectShrinks<T>(s: seq<T>, p: T -> bool, x: T)
    requires x in s && !p(x)
    ensures |Select(s, p)| < |s|
  {
    var n := |s| - 1;
    assert s == s[..n] + [s[n]];
    if x in s[..n] {
      SelectShrinks(s[..n], p, x);
    }
  }

  /** A determined session end is at or after the first tuple. */
  lemma {:induction false} EndCovers(cfg: Config, s: seq<Tuple>)
    requires cfg.Valid() && Sorted(s) && Positive(s) && SessionEnd(cfg, s).0 < MAX_INT64
    ensures s != [] && s[0].ts <= SessionEnd(cfg, s).0
  {
    WalkHolds(cfg, s, |s|);
  }

  /** A determined session end covers the first buffered tuple, so the buffer is not empty and a scan removes it. */
  lemma {:induction false} SessionScanShrinks(cfg: Config, st: State)
    requires cfg.Valid() && cfg.kind == Session && Sorted(st.inputs) && Positive(st.inputs)
    requires SessionEnd(cfg, st.inputs).0 < MAX_INT64
    ensures st.inputs != []
    ensures |ScanSession(cfg, st, SessionEnd(cfg, st.inputs).0, SessionEnd(cfg, st.inputs).1).inputs| < |st.inputs|
  {
    EndCovers(cfg, st.inputs);
    FirstLeaves(cfg, st.inputs, SessionEnd(cfg, st.inputs).0);
    assert !cfg.Overlapping();
  }

  lemma {:induction false} FirstLeaves(cfg: Config, s: seq<Tuple>, end: int)
    requires cfg.kind == Session && s != [] && s[0].ts <= end
    ensures |Select(s, Kept(cfg, end, 0))| < |s|
  {
    assert s[0] in s && !cfg.Overlapping();
    SelectShrinks(s, Kept(cfg, end, 0), s[0]);
  }

  lemma SortKeepsPositive(s: seq<Tuple>)
    requires Positive(s)
    ensures Positive(StableSort(s)) && Sorted(StableSort(s))
  {
    StableSortCorrect(s);
    forall t | t in StableSort(s) ensures 0 < t.ts < MAX_INT64 {
      StableSortMember(s, t);
    }
  }

  lemma ScanSessionPositive(cfg: Config, st: State, end: int, ticked: bool)
    requires st.inputs != [] && Positive(st.inputs)
    ensures Positive(ScanSession(cfg, st, end, ticked).inputs)
  {
    ScanSubset(cfg, if st.lastTicked then st else st.(triggerTime := st.inputs[0].ts), end);
  }

  /** Session windows: sort, find the end of the first session, scan it if it is due, and start over. */
  function DrainSession(cfg: Config, st: State, wm: int): (r: State)
    requires cfg.Valid() && cfg.kind == Session && wm < MAX_INT64 && Positive(st.inputs)
    ensures r.gen == st.gen && r.queue == st.queue && st.emitted <= r.emitted
    decreases |st.inputs|
  {
    SortKeepsPositive(st.inputs);
    var st1 := st.(inputs := StableSort(st.inputs));
    var (end, ticked) := SessionEnd(cfg, st1.inputs);
    if 0 <= end <= wm then
      SessionScanShrinks(cfg, st1);
      ScanSessionPositive(cfg, st1, end, ticked);
      DrainSession(cfg, ScanSession(cfg, st1, end, ticked), wm)
    else
      st1.(nextEnd := end)
  }

  // ----- the machine

  /** Timestamps stay so far below the largest 64-bit value that no window end reaches it. */
  ghost predicate InRange(cfg: Config, ts: int) {
    ts + cfg.Step() < MAX_INT64
  }

  ghost predicate WellFormed(cfg: Config, st: State) {
    && cfg.Valid()
    && Positive(st.inputs) && (forall t :: t in st.inputs ==> InRange(cfg, t.ts))
    && InRange(cfg, st.prevEnd)
    && (forall wm :: wm in st.queue ==> InRange(cfg, wm))
    && (forall s :: s in st.gen.topicTs ==> InRange(cfg, st.gen.topicTs[s]))
  }

  ghost predicate ValidEvent(cfg: Config, e: Event) {
    e.Arrive? ==> e.tuple.emitter in cfg.topics && 0 < e.tuple.ts && InRange(cfg, e.tuple.ts)
  }

  ghost predicate ValidEvents(cfg: Config, events: seq<Event>) {
    forall i :: 0 <= i < |events| ==> ValidEvent(cfg, events[i])
  }

  function Receive(cfg: Config, st: State, t: Tuple, room: bool): (r: State) {
    var tr := Track(cfg.topics, cfg.tolerance, st.gen, t.emitter, t.ts);
    st.(gen := tr.gen,
        inputs := if tr.accepted then st.inputs + [t] else st.inputs,
        queue := if tr.watermark.Some? && room then st.queue + [tr.watermark.value] else st.queue)
  }

  function Process(cfg: Config, st: State, wm: int): (r: State)
    requires cfg.Valid() && wm < MAX_INT64 && Positive(st.inputs) && st.prevEnd < MAX_INT64
    ensures r.gen == st.gen && r.queue == st.queue && st.emitted <= r.emitted
  {
    if cfg.kind == Session then DrainSession(cfg, st, wm)
    else
      Drain(cfg, st, wm,
            if st.nextEnd == MAX_INT64 || cfg.kind == Sliding
            then NextEnd(cfg, st.inputs, st.prevEnd, wm, st.triggered) else st.nextEnd)
  }

  function StepEvent(cfg: Config, st: State, e: Event): (r: State)
    requires WellFormed(cfg, st) && ValidEvent(cfg, e)
    ensures WellFormed(cfg, r)
  {
    match e
    case Arrive(t, room) =>
      ReceiveWellFormed(cfg, st, t, room);
      Receive(cfg, st, t, room)
    case NextWatermark =>
      if st.queue == [] then st
      else
        var st1 := st.(queue := st.queue[1..]);
        ProcessWellFormed(cfg, st1, st.queue[0]);
        Process(cfg, st1, st.queue[0])
  }

  lemma ReceiveWellFormed(cfg: Config, st: State, t: Tuple, room: bool)
    requires WellFormed(cfg, st) && ValidEvent(cfg, Arrive(t, room))
    ensures WellFormed(cfg, Receive(cfg, st, t, room))
  {
    var m := Observe(st.gen.topicTs, t.emitter, t.ts);
    var last := cfg.topics[|cfg.topics| - 1];
    assert MinTs(cfg.topics, m) <= Read(m, last);
  }

  lemma {:induction false} DrainWellFormed(cfg: Config, st: State, wm: int, end: int)
    requires WellFormed(cfg, st) && InRange(cfg, wm)
    ensures WellFormed(cfg, Drain(cfg, st, wm, end))
    decreases if end <= wm then wm - end + 1 else 0
  {
    if 0 <= end <= wm {
      var st' := Scan(cfg, st, end);
      ScanSubset(cfg, st, end);
      DrainWellFormed(cfg, st', wm, NextEnd(cfg, st'.inputs, end, wm, st'.triggered));
    }
  }

  lemma SortWellFormed(cfg: Config, st: State)
    requires WellFormed(cfg, st)
    ensures WellFormed(cfg, st.(inputs := StableSort(st.inputs)))
  {
    SortKeepsPositive(st.inputs);
    forall t | t in StableSort(st.inputs) ensures InRange(cfg, t.ts) {
      StableSortMember(st.inputs, t);
    }
  }

  lemma {:induction false} DrainSessionWellFormed(cfg: Config, st: State, wm: int)
    requires WellFormed(cfg, st) && InRange(cfg, wm) && cfg.kind == Session
    ensures WellFormed(cfg, DrainSession(cfg, st, wm))
    decreases |st.inputs|
  {
    SortWellFormed(cfg, st);
    StableSortCorrect(st.inputs);
    var st1 := st.(inputs := StableSort(st.inputs));
    var (end, ticked) := SessionEnd(cfg, st1.inputs);
    if 0 <= end <= wm {
      SessionScanShrinks(cfg, st1);
      ScanSubset(cfg, if st1.lastTicked then st1 else st1.(triggerTime := st1.inputs[0].ts), end);
      DrainSessionWellFormed(cfg, ScanSession(cfg, st1, end, ticked), wm);
    }
  }

  lemma ProcessWellFormed(cfg: Config, st: State, wm: int)
    requires WellFormed(cfg, st) && InRange(cfg, wm)
    ensures WellFormed(cfg, Process(cfg, st, wm))
  {
    if cfg.kind == Session {
      DrainSessionWellFormed(cfg, st, wm);
    } else {
      var end := if st.nextEnd == MAX_INT64 || cfg.kind == Sliding
                 then NextEnd(cfg, st.inputs, st.prevEnd, wm, st.triggered) else st.nextEnd;
      DrainWellFormed(cfg, st, wm, end);
    }
  }

  /** The operator after a sequence of events, started fresh at `startTime`. */
  function Run(cfg: Config, startTime: int, events: seq<Event>): (st: State)
    requires cfg.Valid() && InRange(cfg, 0) && ValidEvents(cfg, events)
    ensures WellFormed(cfg, st)
  {
    if events == [] then Init(startTime)
    else StepEvent(cfg, Run(cfg, startTime, events[..|events| - 1]), events[|events| - 1])
  }

  /** The tuples received in a run, and the ones the watermark let through. */
  function Received(events: seq<Event>): (r: seq<Tuple>) {
    if events == [] then []
    else
      var rest, e := Received(events[..|events| - 1]), events[|events| - 1];
      if e.Arrive? then rest + [e.tuple] else rest
  }

  function AcceptedIn(cfg: Config, events: seq<Event>): (r: seq<Tuple>) {
    Accepted(cfg.topics, cfg.tolerance, Received(events))
  }

  // ----- the batch definition

  /** Where a window may end: at the multiples of the length for tumbling windows, at those of the interval for hopping
      windows, and at an accepted timestamp for sliding windows. */
  ghost predicate IsEnd(cfg: Config, accepted: seq<Tuple>, e: int)
    requires cfg.Valid()
  {
    match cfg.kind
    case Tumbling => e % cfg.length == 0
    case Hopping => e % cfg.interval == 0
    case _ => exists t :: t in accepted && t.ts == e
  }

  /** A tumbling window ending at `e` covers `(e - length, e]`, the others cover `[e - length, e]`. */
  function Lower(cfg: Config, e: int): (lo: int) {
    if cfg.kind == Tumbling then e - cfg.length + 1 else e - cfg.length
  }

  function Content(cfg: Config, accepted: seq<Tuple>, e: int): (r: seq<Tuple>) {
    Select(accepted, Within(Lower(cfg, e), e))
  }

  ghost predicate Due(cfg: Config, accepted: seq<Tuple>, e: int)
    requires cfg.Valid()
  {
    IsEnd(cfg, accepted, e) && Content(cfg, accepted, e) != []
  }

  function LastEnd(windows: seq<Window>, startTime: int): (e: int) {
    if windows == [] then startTime else windows[|windows| - 1].end
  }

  /** Every due window with an end in `(0, upTo]`, once and in increasing order of its end. */
  ghost function Batch(cfg: Config, startTime: int, accepted: seq<Tuple>, upTo: int): (r: seq<Window>)
    requires cfg.Valid()
    decreases if upTo <= 0 then 0 else upTo
  {
    if upTo <= 0 then []
    else
      var before := Batch(cfg, startTime, accepted, upTo - 1);
      if Due(cfg, accepted, upTo) then
        before + [Window(StartOf(cfg, LastEnd(before, startTime), upTo), upTo, Packaged(Content(cfg, accepted, upTo)))]
      else before
  }
}
