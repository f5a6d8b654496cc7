/** The window operator itself: the loops of internal/topo/node/watermark.go, internal/topo/node/window_op.go and
    internal/xsql/collections.go over a buffer that is compacted in place, refining the machine of EventWindows. */
module WindowSets {
  import opened Sequences
  import opened Collections

  /** Groups of other emitters are left alone. */
  lemma {:induction false} AddTupleSkips(content: seq<WindowTuples>, t: Tuple, i: nat)
    requires i <= |content| && forall k :: 0 <= k < i ==> content[k].emitter != t.emitter
    ensures AddTuple(content, t) == content[..i] + AddTuple(content[i..], t)
  {
    if i == 0 {
      assert content[0..] == content;
    } else {
      var rest := content[1..];
      assert rest[i - 1..] == content[i..] && content[..i] == [content[0]] + rest[..i - 1];
      AddTupleSkips(rest, t, i - 1);
      assert AddTuple(content, t) == [content[0]] + AddTuple(rest, t);
      Assoc([content[0]], rest[..i - 1], AddTuple(content[i..], t));
    }
  }

  /** WindowTuplesSet.AddTuple: find the emitter's group, or open one. */
  method Add(content: seq<WindowTuples>, t: Tuple) returns (r: seq<WindowTuples>)
    ensures r == AddTuple(content, t)
  {
    for i := 0 to |content|
      invariant forall k :: 0 <= k < i ==> content[k].emitter != t.emitter
    {
      if content[i].emitter == t.emitter {
        AddTupleSkips(content, t, i);
        return content[i := WindowTuples(t.emitter, content[i].tuples + [t])];
      }
    }
    AddTupleSkips(content, t, |content|);
    r := content + [WindowTuples(t.emitter, [t])];
  }

  /** WindowTuplesSet.GetBySrc. */
  method Find(content: seq<WindowTuples>, src: string) returns (r: seq<Tuple>)
    ensures r == GetBySrc(content, src)
  {
    for i := 0 to |content|
      invariant GetBySrc(content, src) == GetBySrc(content[i..], src)
    {
      if content[i].emitter == src {
        return content[i].tuples;
      }
      assert content[i..][1..] == content[i + 1..];
    }
    r := [];
  }

  /** WindowTuplesSet.Sort: the library's stable sort on every group. */
  method Sort(content: seq<WindowTuples>) returns (r: seq<WindowTuples>)
    ensures r == SortGroups(content)
  {
    r := [];
    for i := 0 to |content|
      invariant SortGroups(content) == r + SortGroups(content[i..])
    {
      assert content[i..][1..] == content[i + 1..];
      r := r + [WindowTuples(content[i].emitter, StableSort(content[i].tuples))];
    }
  }
}

module WindowOperator {
  import opened Sequences
  import opened Collections
  import opened Watermarks
  import opened EventWindows
  import WindowSets

  lemma GroupedNext(s: seq<Tuple>, t: Tuple)
    ensures Grouped(s + [t]) == AddTuple(Grouped(s), t)
  {
    assert (s + [t])[..|s|] == s;
  }

  lemma GroupedEmpty(s: seq<Tuple>)
    ensures Grouped(s) == [] <==> s == []
  {}

  /** What is left of a session drain once the buffer is sorted. */
  function DrainSorted(cfg: Config, st: State, wm: int): (r: State)
    requires cfg.Valid() && cfg.kind == Session && wm < MAX_INT64 && Positive(st.inputs) && Sorted(st.inputs)
  {
    var (end, ticked) := SessionEnd(cfg, st.inputs);
    if 0 <= end <= wm then
      SessionScanShrinks(cfg, st);
      ScanSessionPositive(cfg, st, end, ticked);
      DrainSession(cfg, ScanSession(cfg, st, end, ticked), wm)
    else
      st.(nextEnd := end)
  }

  /** What one tuple adds to the buffer and to the window. */
  lemma ScanNext(cfg: Config, s: seq<Tuple>, j: nat, end: int, delta: int)
    requires j < |s|
    ensures var expired := cfg.Overlapping() && end - s[j].ts > cfg.length + delta;
            var keep, hits := Select(s[..j], Kept(cfg, end, delta)), Select(s[..j], Hit(cfg, end, delta));
            && Select(s[..j + 1], Kept(cfg, end, delta))
                 == (if !expired && (cfg.Overlapping() || s[j].ts > end) then keep + [s[j]] else keep)
            && Select(s[..j + 1], Hit(cfg, end, delta)) == (if !expired && s[j].ts <= end then hits + [s[j]] else hits)
  {
    SelectNext(s, j, Kept(cfg, end, delta));
    SelectNext(s, j, Hit(cfg, end, delta));
    assert Expired(cfg, end, delta)(s[j]) == (cfg.Overlapping() && end - s[j].ts > cfg.length + delta);
  }

  /** The body of the loop of `scan`: one tuple moves down in the buffer, into the window, or away. */
  method ScanTuple(cfg: Config, buf: array<Tuple>, i: nat, j: nat, content: seq<WindowTuples>, end: int, delta: int,
                   ghost inputs: seq<Tuple>) returns (i': nat, content': seq<WindowTuples>)
    requires i <= j < |inputs| <= buf.Length && buf[j] == inputs[j]
    requires buf[..i] == Select(inputs[..j], Kept(cfg, end, delta))
    requires content == Grouped(Select(inputs[..j], Hit(cfg, end, delta)))
    modifies buf
    ensures i' <= j + 1 && buf[..i'] == Select(inputs[..j + 1], Kept(cfg, end, delta))
    ensures content' == Grouped(Select(inputs[..j + 1], Hit(cfg, end, delta)))
    ensures forall k :: j < k < buf.Length ==> buf[k] == old(buf[k])
  {
    var t := buf[j];
    var expired := cfg.Overlapping() && end - t.ts > cfg.length + delta;
    ScanNext(cfg, inputs, j, end, delta);
    content' := content;
    if !expired && t.ts <= end {
      GroupedNext(Select(inputs[..j], Hit(cfg, end, delta)), t);
      content' := WindowSets.Add(content, t);
    }
    i' := KeepTuple(buf, i, t, !expired && (cfg.Overlapping() || t.ts > end));
  }

  /** A tuple that stays moves down to the end of those kept so far. */
  method KeepTuple(buf: array<Tuple>, i: nat, t: Tuple, stays: bool) returns (i': nat)
    requires i < buf.Length
    modifies buf
    ensures i' == if stays then i + 1 else i
    ensures buf[..i'] == old(buf[..i]) + if stays then [t] else []
    ensures forall k :: i < k < buf.Length ==> buf[k] == old(buf[k])
  {
    i' := i;
    if stays {
      buf[i] := t;
      i' := i + 1;
    }
  }

  /** The loop of `scan`: compacts the buffer in place and collects the window's tuples. */
  method Compact(cfg: Config, buf: array<Tuple>, n: nat, end: int, delta: int)
    returns (i: nat, content: seq<WindowTuples>)
    requires n <= buf.Length
    modifies buf
    ensures i <= n && buf[..i] == Select(old(buf[..n]), Kept(cfg, end, delta))
    ensures content == Grouped(Select(old(buf[..n]), Hit(cfg, end, delta)))
  {
    ghost var inputs := buf[..n];
    i := 0;
    content := [];
    for j := 0 to n
      invariant i <= j <= n
      invariant forall k :: j <= k < n ==> buf[k] == inputs[k]
      invariant buf[..i] == Select(inputs[..j], Kept(cfg, end, delta))
      invariant content == Grouped(Select(inputs[..j], Hit(cfg, end, delta)))
    {
      i, content := ScanTuple(cfg, buf, i, j, content, end, delta, inputs);
    }
    assert inputs[..n] == inputs;
  }

  class EventWindowOperator {
    const cfg: Config
    // the buffered tuples are buf[..n]
    var buf: array<Tuple>
    var n: nat
    var nextEnd: int
    var prevEnd: int
    var triggered: bool
    var lastTicked: bool
    var triggerTime: int
    var topicTs: map<string, int>
    var lastWm: int
    var queue: seq<int>
    var emitted: seq<Window>

    ghost predicate Valid()
      reads this, buf
    {
      n <= buf.Length && WellFormed(cfg, Abs())
    }

    /** The abstract state. */
    ghost function Abs(): (st: State)
      reads this, buf
      requires n <= buf.Length
    {
      State(buf[..n], nextEnd, prevEnd, triggered, lastTicked, triggerTime, Generator(topicTs, lastWm), queue, emitted)
    }

    constructor (cfg: Config, startTime: int)
      requires cfg.Valid() && InRange(cfg, 0)
      ensures Valid() && fresh(buf) && this.cfg == cfg && Abs() == Init(startTime)
    {
      this.cfg := cfg;
      buf := new Tuple[0];
      n, nextEnd, prevEnd, triggered, lastTicked := 0, 0, 0, false, false;
      triggerTime, topicTs, lastWm, queue, emitted := startTime, map[], 0, [], [];
    }

    method ComputeWatermark() returns (ts: int)
      ensures ts == ComputeWatermarkTs(cfg.topics, cfg.tolerance, topicTs)
    {
      ts := 0;
      if |topicTs| >= |cfg.topics| {
        ts := MAX_INT64;
        for i := 0 to |cfg.topics|
          invariant ts == MinTs(cfg.topics[..i], topicTs)
        {
          assert cfg.topics[..i + 1][..i] == cfg.topics[..i];
          var last := Read(topicTs, cfg.topics[i]);
          if ts > last {
            ts := last;
          }
        }
        assert cfg.topics[..|cfg.topics|] == cfg.topics;
      }
      ts := ts - cfg.tolerance;
    }

    /** Records a tuple's timestamp; if the tuple is not late, raises the watermark and queues it when there is room. */
    method Track(topic: string, ts: int, room: bool) returns (accepted: bool)
      modifies this`topicTs, this`lastWm, this`queue
      ensures var tr := Watermarks.Track(cfg.topics, cfg.tolerance, old(Generator(topicTs, lastWm)), topic, ts);
              && Generator(topicTs, lastWm) == tr.gen && accepted == tr.accepted
              && queue == if tr.watermark.Some? && room then old(queue) + [tr.watermark.value] else old(queue)
    {
      if topic !in topicTs || ts > topicTs[topic] {
        topicTs := topicTs[topic := ts];
      }
      accepted := ts >= lastWm;
      if accepted {
        var watermark := ComputeWatermark();
        if watermark > lastWm {
          if room {
            queue := queue + [watermark];
          }
          lastWm := watermark;
        }
      }
    }

    method GetEarliestEventTs(startTs: int, endTs: int) returns (minTs: int)
      requires n <= buf.Length
      ensures minTs == EarliestTs(buf[..n], startTs, endTs)
    {
      minTs := MAX_INT64;
      for i := 0 to n
        invariant minTs == EarliestTs(buf[..i], startTs, endTs)
      {
        assert buf[..i + 1][..i] == buf[..i];
        if buf[i].ts > startTs && buf[i].ts <= endTs && buf[i].ts < minTs {
          minTs := buf[i].ts;
        }
      }
    }

    method GetNextWindow(current: int, watermark: int) returns (end: int)
      requires n <= buf.Length && cfg.Valid() && current < MAX_INT64
      ensures end == NextEnd(cfg, buf[..n], current, watermark, triggered)
    {
      match cfg.kind
      case Tumbling | Hopping =>
        if triggered {
          end := current + cfg.Step();
        } else {
          var nextTs := GetEarliestEventTs(current, watermark);
          if nextTs == MAX_INT64 || nextTs % cfg.Step() == 0 {
            end := nextTs;
          } else {
            end := nextTs + (cfg.Step() - nextTs % cfg.Step());
          }
        }
      case Sliding =>
        end := GetEarliestEventTs(current, watermark);
      case Session =>
        end := MAX_INT64;
    }

    /** `scan`: emits the window that ends at `end`, if it has tuples. */
    method ScanAt(end: int)
      requires n <= buf.Length
      modifies this`n, this`prevEnd, this`triggered, this`triggerTime, this`emitted, buf
      ensures n <= buf.Length && Abs() == Scan(cfg, old(Abs()), end)
    {
      var delta := if cfg.Overlapping() then CalDelta(triggerTime) else 0;
      var content := Collect(end, delta);
      if triggered {
        Emit(end, content);
      }
    }

    /** The first half of `scan`: the buffer is compacted and the window's tuples are collected. */
    method Collect(end: int, delta: int) returns (content: seq<WindowTuples>)
      requires n <= buf.Length
      modifies this`n, this`prevEnd, this`triggered, buf
      ensures n <= buf.Length && prevEnd == end
      ensures buf[..n] == Select(old(buf[..n]), Kept(cfg, end, delta))
      ensures content == Grouped(Select(old(buf[..n]), Hit(cfg, end, delta)))
      ensures triggered == (Select(old(buf[..n]), Hit(cfg, end, delta)) != [])
    {
      GroupedEmpty(Select(buf[..n], Hit(cfg, end, delta)));
      var i;
      i, content := Compact(cfg, buf, n, end, delta);
      n, prevEnd, triggered := i, end, |content| > 0;
    }

    /** Sorts and broadcasts the collected window. */
    method Emit(end: int, content: seq<WindowTuples>)
      modifies this`triggerTime, this`emitted
      ensures triggerTime == end
      ensures emitted == old(emitted) + [Window(StartOf(cfg, old(triggerTime), end), end, SortGroups(content))]
    {
      var sorted := WindowSets.Sort(content);
      emitted := emitted + [Window(StartOf(cfg, triggerTime, end), end, sorted)];
      triggerTime := end;
    }

    /** The walk of `getNextSessionWindow` over the sorted buffer. */
    method WalkSession() returns (end: int, ticked: bool)
      requires 0 < n <= buf.Length && cfg.Valid() && Positive(buf[..n])
      ensures (end, ticked) == SessionEnd(cfg, buf[..n])
    {
      ghost var s := buf[..n];
      var et := buf[0].ts;
      var tick := et + (cfg.length - et % cfg.length);
      if et % cfg.length == 0 {
        tick := et;
      }
      var p := 0;
      ticked := false;
      for i := 0 to n
        invariant !ticked && Walk(cfg, s, i) == Walking(tick, p)
      {
        var ts := buf[i].ts;
        assert s[i] in s;
        assert Walk(cfg, s, i + 1) == WalkTuple(cfg, et, Walking(tick, p), ts);
        var r := MAX_INT64;
        if p > 0 && ts - p > cfg.interval {
          r := p + cfg.interval;
        }
        if ts > tick {
          if tick - cfg.length > et && tick < r {
            r := tick;
            ticked := true;
          }
          tick := tick + cfg.length;
        }
        if r < MAX_INT64 {
          EndedStays(cfg, s, i + 1, n);
          return r, ticked;
        }
        p := ts;
      }
      end := MAX_INT64;
    }

    /** `getNextSessionWindow`: sorts the buffer in place and finds the end of the first session. */
    method GetNextSessionWindow() returns (end: int, ticked: bool)
      requires n <= buf.Length && cfg.Valid() && Positive(buf[..n])
      modifies buf
      ensures buf[..n] == StableSort(old(buf[..n]))
      ensures (end, ticked) == SessionEnd(cfg, buf[..n])
    {
      SortKeepsPositive(buf[..n]);
      var sorted := StableSort(buf[..n]);
      forall i | 0 <= i < n {
        buf[i] := sorted[i];
      }
      assert buf[..n] == sorted;
      if n > 0 {
        end, ticked := WalkSession();
      } else {
        end, ticked := MAX_INT64, false;
      }
    }

    /** Appending to the Go slice, which grows into a larger array. */
    method Append(t: Tuple)
      requires n <= buf.Length
      modifies this`buf, this`n
      ensures n <= buf.Length && fresh(buf) && buf[..n] == old(buf[..n]) + [t]
    {
      var grown := new Tuple[n + 1](_ => t);
      forall i | 0 <= i < n {
        grown[i] := buf[i];
      }
      buf := grown;
      n := n + 1;
    }

    method Arrived(t: Tuple, room: bool)
      requires n <= buf.Length
      modifies this`topicTs, this`lastWm, this`queue, this`buf, this`n
      ensures n <= buf.Length && (buf == old(buf) || fresh(buf)) && Abs() == Receive(cfg, old(Abs()), t, room)
    {
      var accepted := Track(t.emitter, t.ts, room);
      if accepted {
        Append(t);
      }
    }

    /** One iteration of the event loop on a tuple. */
    method OnTuple(t: Tuple, room: bool)
      requires Valid() && ValidEvent(cfg, Arrive(t, room))
      modifies this, buf
      ensures Valid() && (buf == old(buf) || fresh(buf))
      ensures Abs() == StepEvent(cfg, old(Abs()), Arrive(t, room))
    {
      Arrived(t, room);
      assert old(Abs()).inputs == old(buf[..n]);
    }

    /** The loop over due tumbling, hopping or sliding windows. */
    method DrainWindows(wm: int, first: int)
      requires n <= buf.Length && cfg.Valid() && wm < MAX_INT64
      modifies this`n, this`nextEnd, this`prevEnd, this`triggered, this`triggerTime, this`emitted, buf
      ensures n <= buf.Length && Abs() == Drain(cfg, old(Abs()), wm, first)
    {
      var end := first;
      while end <= wm && end >= 0
        invariant n <= buf.Length && Drain(cfg, Abs(), wm, end) == Drain(cfg, old(Abs()), wm, first)
        decreases wm - end
      {
        ScanAt(end);
        end := GetNextWindow(prevEnd, wm);
      }
      nextEnd := end;
    }

    /** The loop over due sessions. */
    method DrainSessions(wm: int)
      requires n <= buf.Length && cfg.Valid() && cfg.kind == Session && wm < MAX_INT64 && Positive(buf[..n])
      modifies this`n, this`nextEnd, this`prevEnd, this`triggered, this`lastTicked, this`triggerTime, this`emitted, buf
      ensures n <= buf.Length && Abs() == DrainSession(cfg, old(Abs()), wm)
    {
      ghost var start := Abs();
      SortKeepsPositive(buf[..n]);
      var end, ticked := GetNextSessionWindow();
      assert Abs() == start.(inputs := StableSort(start.inputs));
      while end <= wm && end >= 0
        invariant n <= buf.Length && Positive(buf[..n]) && Sorted(buf[..n])
        invariant (end, ticked) == SessionEnd(cfg, buf[..n])
        invariant DrainSession(cfg, start, wm) == DrainSorted(cfg, Abs(), wm)
        decreases n
      {
        end, ticked := NextSession(end, ticked, wm);
      }
      nextEnd := end;
    }

    /** The body of the loop over due sessions. */
    method NextSession(end: int, ticked: bool, ghost wm: int) returns (end': int, ticked': bool)
      requires n <= buf.Length && cfg.Valid() && cfg.kind == Session && wm < MAX_INT64
      requires Positive(buf[..n]) && Sorted(buf[..n])
      requires (end, ticked) == SessionEnd(cfg, buf[..n]) && 0 <= end <= wm
      modifies this`n, this`prevEnd, this`triggered, this`lastTicked, this`triggerTime, this`emitted, buf
      ensures n <= buf.Length && n < old(n) && Positive(buf[..n]) && Sorted(buf[..n])
      ensures (end', ticked') == SessionEnd(cfg, buf[..n])
      ensures DrainSorted(cfg, Abs(), wm) == DrainSorted(cfg, old(Abs()), wm)
    {
      ScanOneSession(end, ticked);
      ghost var st2 := Abs();
      SortKeepsPositive(buf[..n]);
      end', ticked' := GetNextSessionWindow();
      assert Abs() == st2.(inputs := StableSort(st2.inputs));
    }

    /** Its first half: the start of the window and the scan. */
    method ScanOneSession(end: int, ticked: bool)
      requires n <= buf.Length && cfg.Valid() && cfg.kind == Session
      requires Positive(buf[..n]) && Sorted(buf[..n])
      requires (end, ticked) == SessionEnd(cfg, buf[..n]) && end < MAX_INT64
      modifies this`n, this`prevEnd, this`triggered, this`lastTicked, this`triggerTime, this`emitted, buf
      ensures n <= buf.Length && n < old(n) && Positive(buf[..n])
      ensures old(Abs()).inputs != [] && Abs() == ScanSession(cfg, old(Abs()), end, ticked)
    {
      SessionScanShrinks(cfg, Abs());
      ScanSessionPositive(cfg, Abs(), end, ticked);
      if !lastTicked {
        triggerTime := buf[0].ts;
      }
      ScanAt(end);
      lastTicked := ticked;
    }

    /** One iteration of the event loop on the next queued watermark. */
    method OnWatermark()
      requires Valid()
      modifies this, buf
      ensures Valid() && buf == old(buf)
      ensures Abs() == StepEvent(cfg, old(Abs()), NextWatermark)
    {
      if queue != [] {
        var wm := queue[0];
        assert wm in queue;
        queue := queue[1..];
        ghost var st := Abs();
        ProcessWellFormed(cfg, st, wm);
        if cfg.kind == Session {
          DrainSessions(wm);
        } else {
          var end := nextEnd;
          if end == MAX_INT64 || cfg.kind == Sliding {
            end := GetNextWindow(prevEnd, wm);
          }
          DrainWindows(wm, end);
        }
      }
    }
  }
}
