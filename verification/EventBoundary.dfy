/** The exact reach of the refinement of module EventRefinement: a tuple accepted exactly on the last scanned window
    end, which the late test `ts >= lastWatermarkTs` lets through, is missing from its window for ever. */
module EventBoundary {
  import opened Sequences
  import opened Collections
  import opened Watermarks
  import opened EventWindows
  import opened EventRefinement

  /** How many tuples the windows ending at `e` hold together. */
  function EntrySize(windows: seq<Window>, e: int): (n: nat) {
    if windows == [] then 0
    else
      var w := windows[|windows| - 1];
      EntrySize(windows[..|windows| - 1], e) + if w.end == e then Size(w.content) else 0
  }

  lemma EntrySizeAppend(windows: seq<Window>, w: Window, e: int)
    ensures EntrySize(windows + [w], e) == EntrySize(windows, e) + if w.end == e then Size(w.content) else 0
  {
    assert (windows + [w])[..|windows|] == windows;
  }

  /** A window that is due and holds exactly the accepted tuples of its range. */
  ghost predicate Genuine(cfg: Config, accepted: seq<Tuple>, w: Window)
    requires cfg.Valid()
  {
    Due(cfg, accepted, w.end) && w.content == Packaged(Content(cfg, accepted, w.end))
  }

  // ----- where windows start

  /** Where the window before window `i` ended; the first one follows the start of the operator. */
  function EndBefore(windows: seq<Window>, startTime: int, i: nat): (e: int)
    requires i <= |windows|
  {
    if i == 0 then startTime else windows[i - 1].end
  }

  /** A sliding window starts its length before its end, a tumbling window where the window before it ended, and a
      hopping window one interval before that. */
  ghost predicate StartsRight(cfg: Config, startTime: int, windows: seq<Window>) {
    && (cfg.kind == Sliding ==> forall w :: w in windows ==> w.start == w.end - cfg.length)
    && (cfg.kind == Tumbling ==>
          forall i :: 0 <= i < |windows| ==> windows[i].start == EndBefore(windows, startTime, i))
    && (cfg.kind == Hopping ==>
          forall i :: 0 <= i < |windows| ==> windows[i].start == EndBefore(windows, startTime, i) - cfg.interval)
  }

  lemma StartsAppend(cfg: Config, startTime: int, windows: seq<Window>, w: Window)
    requires Timed(cfg) && StartsRight(cfg, startTime, windows)
    requires w.start == StartOf(cfg, EndBefore(windows, startTime, |windows|), w.end)
    ensures StartsRight(cfg, startTime, windows + [w])
  {
    var all := windows + [w];
    forall i | 0 <= i < |windows| ensures EndBefore(all, startTime, i) == EndBefore(windows, startTime, i) {}
  }

  lemma {:induction false} DrainStarts(cfg: Config, startTime: int, st: State, wm: int, end: int)
    requires Timed(cfg) && wm < MAX_INT64 && StartsRight(cfg, startTime, st.emitted)
    requires st.triggerTime == EndBefore(st.emitted, startTime, |st.emitted|)
    ensures var r := Drain(cfg, st, wm, end);
            StartsRight(cfg, startTime, r.emitted) && r.triggerTime == EndBefore(r.emitted, startTime, |r.emitted|)
    decreases if end <= wm then wm - end + 1 else 0
  {
    if 0 <= end <= wm {
      var st' := Scan(cfg, st, end);
      if st'.emitted != st.emitted {
        StartsAppend(cfg, startTime, st.emitted, st'.emitted[|st.emitted|]);
      }
      DrainStarts(cfg, startTime, st', wm, NextEnd(cfg, st'.inputs, end, wm, st'.triggered));
    }
  }

  lemma {:induction false} RunStarts(cfg: Config, startTime: int, events: seq<Event>)
    requires Timed(cfg) && InRange(cfg, 0) && ValidEvents(cfg, events)
    ensures var st := Run(cfg, startTime, events);
            StartsRight(cfg, startTime, st.emitted) && st.triggerTime == EndBefore(st.emitted, startTime, |st.emitted|)
  {
    if events != [] {
      var n := |events| - 1;
      RunStarts(cfg, startTime, events[..n]);
      var st := Run(cfg, startTime, events[..n]);
      if events[n].NextWatermark? && st.queue != [] {
        var st1, wm := st.(queue := st.queue[1..]), st.queue[0];
        assert wm in st.queue;
        DrainStarts(cfg, startTime, st1, wm,
                    if st.nextEnd == MAX_INT64 || cfg.kind == Sliding
                    then NextEnd(cfg, st.inputs, st.prevEnd, wm, st.triggered) else st.nextEnd);
      }
    }
  }

  /** In every run, with or without a boundary tuple, each emitted window starts where it should. */
  lemma WindowsStartRight(cfg: Config, startTime: int, events: seq<Event>)
    requires Timed(cfg) && InRange(cfg, 0) && ValidEvents(cfg, events)
    ensures StartsRight(cfg, startTime, Run(cfg, startTime, events).emitted)
  {
    RunStarts(cfg, startTime, events);
  }

  lemma BatchStep(cfg: Config, startTime: int, accepted: seq<Tuple>, upTo: int)
    requires cfg.Valid() && upTo > 0
    ensures var before, b := Batch(cfg, startTime, accepted, upTo - 1), Batch(cfg, startTime, accepted, upTo);
            if !Due(cfg, accepted, upTo) then b == before
            else
              && |b| > 0 && b == before + [b[|b| - 1]] && b[|b| - 1].end == upTo && Genuine(cfg, accepted, b[|b| - 1])
              && b[|b| - 1].start == StartOf(cfg, EndBefore(before, startTime, |before|), upTo)
  {
  }

  /** The batch definition read pointwise: increasing ends, every window genuine, and each with its start ... */
  lemma {:induction false} BatchIsSound(cfg: Config, startTime: int, accepted: seq<Tuple>, upTo: int)
    requires cfg.Valid()
    ensures var b := Batch(cfg, startTime, accepted, upTo);
            && (forall w :: w in b ==> 0 < w.end <= upTo && Genuine(cfg, accepted, w))
            && (forall i, j :: 0 <= i < j < |b| ==> b[i].end < b[j].end)
            && (cfg.kind != Session ==> StartsRight(cfg, startTime, b))
    decreases if upTo <= 0 then 0 else upTo
  {
    if upTo > 0 {
      BatchIsSound(cfg, startTime, accepted, upTo - 1);
      BatchStep(cfg, startTime, accepted, upTo);
      var before := Batch(cfg, startTime, accepted, upTo - 1);
      forall i | 0 <= i < |before| ensures before[i].end < upTo {
        assert before[i] in before;
      }
      if Due(cfg, accepted, upTo) && cfg.kind != Session {
        var b := Batch(cfg, startTime, accepted, upTo);
        StartsAppend(cfg, startTime, before, b[|before|]);
      }
    }
  }

  /** ... and no due end is left out. */
  lemma {:induction false} BatchIsComplete(cfg: Config, startTime: int, accepted: seq<Tuple>, upTo: int, e: int)
    requires cfg.Valid() && 0 < e <= upTo && Due(cfg, accepted, e)
    ensures exists w :: w in Batch(cfg, startTime, accepted, upTo) && w.end == e
    decreases upTo
  {
    if e < upTo {
      BatchIsComplete(cfg, startTime, accepted, upTo - 1, e);
      var w :| w in Batch(cfg, startTime, accepted, upTo - 1) && w.end == e;
      assert w in Batch(cfg, startTime, accepted, upTo);
    } else {
      var b := Batch(cfg, startTime, accepted, upTo);
      assert b[|b| - 1] in b;
    }
  }

  lemma {:induction false} BatchEntrySize(cfg: Config, startTime: int, accepted: seq<Tuple>, upTo: int, e: int)
    requires cfg.Valid()
    ensures EntrySize(Batch(cfg, startTime, accepted, upTo), e)
         == if 0 < e <= upTo && Due(cfg, accepted, e) then |Content(cfg, accepted, e)| else 0
    decreases if upTo <= 0 then 0 else upTo
  {
    if upTo > 0 {
      BatchEntrySize(cfg, startTime, accepted, upTo - 1, e);
      if Due(cfg, accepted, upTo) {
        var before := Batch(cfg, startTime, accepted, upTo - 1);
        var b := Batch(cfg, startTime, accepted, upTo);
        EntrySizeAppend(before, b[|before|], e);
        PackagedBySrc(Content(cfg, accepted, upTo), "");
      }
    }
  }

  /** A window end that was passed although an accepted tuple of its range is in no window ending there. */
  ghost predicate MissedAt(cfg: Config, st: State, accepted: seq<Tuple>, e: int)
    requires cfg.Valid()
  {
    && 0 < e <= st.prevEnd && IsEnd(cfg, accepted, e)
    && EntrySize(st.emitted, e) < |Content(cfg, accepted, e)|
  }

  /** The remembered end lies after the last scanned one. */
  predicate Ordered(st: State) {
    st.prevEnd < st.nextEnd || st.prevEnd == st.nextEnd == 0
  }

  lemma MissedNotRefined(cfg: Config, startTime: int, st: State, accepted: seq<Tuple>, e: int)
    requires cfg.Valid() && MissedAt(cfg, st, accepted, e)
    ensures !Refines(cfg, startTime, st, accepted)
  {
    BatchEntrySize(cfg, startTime, accepted, st.prevEnd, e);
  }

  lemma {:induction false} DrainKeepsMissed(cfg: Config, st: State, accepted: seq<Tuple>, wm: int, end: int, e: int)
    requires Timed(cfg) && wm < MAX_INT64 && MissedAt(cfg, st, accepted, e) && st.prevEnd < end
    ensures MissedAt(cfg, Drain(cfg, st, wm, end), accepted, e)
    decreases if end <= wm then wm - end + 1 else 0
  {
    if 0 <= end <= wm {
      var st' := Scan(cfg, st, end);
      if st'.emitted != st.emitted {
        EntrySizeAppend(st.emitted, st'.emitted[|st.emitted|], e);
      }
      DrainKeepsMissed(cfg, st', accepted, wm, NextEnd(cfg, st'.inputs, end, wm, st'.triggered), e);
    }
  }

  lemma {:induction false} DrainOrdered(cfg: Config, st: State, wm: int, end: int)
    requires Timed(cfg) && wm < MAX_INT64 && (st.prevEnd < end || st.prevEnd == end == 0)
    ensures Ordered(Drain(cfg, st, wm, end))
    decreases if end <= wm then wm - end + 1 else 0
  {
    if 0 <= end <= wm {
      var st' := Scan(cfg, st, end);
      DrainOrdered(cfg, st', wm, NextEnd(cfg, st'.inputs, end, wm, st'.triggered));
    }
  }

  lemma {:induction false} RunOrdered(cfg: Config, startTime: int, events: seq<Event>)
    requires Timed(cfg) && InRange(cfg, 0) && ValidEvents(cfg, events)
    ensures Ordered(Run(cfg, startTime, events))
  {
    if events != [] {
      var n := |events| - 1;
      RunOrdered(cfg, startTime, events[..n]);
      var st := Run(cfg, startTime, events[..n]);
      if events[n].NextWatermark? && st.queue != [] {
        var st1, wm := st.(queue := st.queue[1..]), st.queue[0];
        assert wm in st.queue;
        DrainOrdered(cfg, st1, wm,
                     if st.nextEnd == MAX_INT64 || cfg.kind == Sliding
                     then NextEnd(cfg, st.inputs, st.prevEnd, wm, st.triggered) else st.nextEnd);
      }
    }
  }

  lemma MissedAfterArrival(cfg: Config, st: State, accepted: seq<Tuple>, t: Tuple, room: bool, e: int)
    requires Timed(cfg) && MissedAt(cfg, st, accepted, e)
    ensures MissedAt(cfg, Receive(cfg, st, t, room), accepted + [t], e)
    ensures MissedAt(cfg, Receive(cfg, st, t, room), accepted, e)
  {
    ContentOfLater(cfg, accepted, t, e);
    assert forall x :: x in accepted ==> x in accepted + [t];
  }

  /** Accepting a boundary tuple breaks the refinement at once. */
  lemma BoundaryMisses(cfg: Config, startTime: int, st: State, accepted: seq<Tuple>, t: Tuple, room: bool)
    requires Timed(cfg) && RunInv(cfg, startTime, st, accepted) && OnBoundary(st, Arrive(t, room)) && 0 < t.ts
    ensures MissedAt(cfg, Receive(cfg, st, t, room), accepted + [t], t.ts)
  {
    BatchEntrySize(cfg, startTime, accepted, st.prevEnd, t.ts);
    ContentOfLater(cfg, accepted, t, t.ts);
    assert t in accepted + [t];
  }

  /** A processed watermark does not repair an incomplete window: every later scan has a later end. */
  lemma MissedAfterWatermark(cfg: Config, st: State, accepted: seq<Tuple>, e: int)
    requires Timed(cfg) && WellFormed(cfg, st) && Ordered(st) && MissedAt(cfg, st, accepted, e)
    ensures MissedAt(cfg, StepEvent(cfg, st, NextWatermark), accepted, e)
  {
    if st.queue != [] {
      assert st.queue[0] in st.queue;
      DrainKeepsMissed(cfg, st.(queue := st.queue[1..]), accepted, st.queue[0],
                       if st.nextEnd == MAX_INT64 || cfg.kind == Sliding
                       then NextEnd(cfg, st.inputs, st.prevEnd, st.queue[0], st.triggered) else st.nextEnd, e);
    }
  }

  /** In a run with a boundary tuple some window stays incomplete for ever. */
  lemma {:induction false} BoundaryStaysMissed(cfg: Config, startTime: int, events: seq<Event>) returns (e: int)
    requires Timed(cfg) && InRange(cfg, 0) && startTime > 0 && ValidEvents(cfg, events)
    requires !NoBoundary(cfg, startTime, events)
    ensures MissedAt(cfg, Run(cfg, startTime, events), AcceptedIn(cfg, events), e)
  {
    var n := |events| - 1;
    var before, last := events[..n], events[n];
    var st, accepted := Run(cfg, startTime, before), AcceptedIn(cfg, before);
    assert ValidEvent(cfg, last);
    AcceptedStep(cfg, startTime, events);
    if NoBoundary(cfg, startTime, before) {
      RunKeepsInv(cfg, startTime, before);
      e := last.tuple.ts;
      BoundaryMisses(cfg, startTime, st, accepted, last.tuple, last.room);
    } else {
      e := BoundaryStaysMissed(cfg, startTime, before);
      if last.Arrive? {
        MissedAfterArrival(cfg, st, accepted, last.tuple, last.room, e);
      } else {
        RunOrdered(cfg, startTime, before);
        MissedAfterWatermark(cfg, st, accepted, e);
      }
    }
  }

  /** The operator agrees with the batch definition if and only if no accepted tuple fell on the last scanned end. */
  lemma RefinesExactlyWithoutBoundary(cfg: Config, startTime: int, events: seq<Event>)
    requires Timed(cfg) && InRange(cfg, 0) && startTime > 0 && ValidEvents(cfg, events)
    ensures Refines(cfg, startTime, Run(cfg, startTime, events), AcceptedIn(cfg, events))
       <==> NoBoundary(cfg, startTime, events)
  {
    if NoBoundary(cfg, startTime, events) {
      RunKeepsInv(cfg, startTime, events);
    } else {
      var e := BoundaryStaysMissed(cfg, startTime, events);
      MissedNotRefined(cfg, startTime, Run(cfg, startTime, events), AcceptedIn(cfg, events), e);
    }
  }

  /** A 10 ms tumbling window over one topic, and a tuple of it stamped 10. */
  predicate Ten(cfg: Config, t: Tuple) {
    cfg == Config(Tumbling, 10, 0, [t.emitter], 0) && t.ts == 10
  }

  /** The boundary case does occur: the operator scans its end 10 and then accepts a second tuple stamped 10, which its
      window never gets. */
  lemma BoundaryOccurs(cfg: Config, t: Tuple)
    requires Ten(cfg, t)
    ensures var events := [Arrive(t, true), NextWatermark, Arrive(t, true)];
            && Timed(cfg) && InRange(cfg, 0) && ValidEvents(cfg, events)
            && !NoBoundary(cfg, 1, events)
            && !Refines(cfg, 1, Run(cfg, 1, events), AcceptedIn(cfg, events))
  {
    var arrive := Arrive(t, true);
    var events := [arrive, NextWatermark, arrive];
    TwoEvents(cfg, t);
    RunStep(cfg, 1, [arrive, NextWatermark], arrive);
    assert events == [arrive, NextWatermark] + [arrive] && events[..2] == [arrive, NextWatermark];
    assert OnBoundary(Run(cfg, 1, events[..2]), events[2]);
    RefinesExactlyWithoutBoundary(cfg, 1, events);
  }

  lemma TwoEvents(cfg: Config, t: Tuple)
    requires Ten(cfg, t)
    ensures Timed(cfg) && InRange(cfg, 0)
    ensures var arrive := Arrive(t, true);
            && ValidEvent(cfg, arrive) && ValidEvents(cfg, [arrive, NextWatermark])
            && OnBoundary(Run(cfg, 1, [arrive, NextWatermark]), arrive)
  {
    var arrive := Arrive(t, true);
    assert cfg.topics[0] == t.emitter;
    assert [] + [arrive] == [arrive] && [arrive] + [NextWatermark] == [arrive, NextWatermark];
    RunStep(cfg, 1, [], arrive);
    RunStep(cfg, 1, [arrive], NextWatermark);
    ReceivesTen(cfg, t);
    StepScansTen(cfg, Run(cfg, 1, [arrive]), t);
  }

  lemma StepScansTen(cfg: Config, st: State, t: Tuple)
    requires Ten(cfg, t) && WellFormed(cfg, st) && st.queue == [10] && st.inputs == [t]
    requires st.nextEnd == 0 && st.prevEnd == 0 && st.gen.lastWm == 10
    ensures OnBoundary(StepEvent(cfg, st, NextWatermark), Arrive(t, true))
  {
    ScansTen(cfg, st.(queue := []), t);
  }

  lemma ReceivesTen(cfg: Config, t: Tuple)
    requires Ten(cfg, t) && cfg.Valid()
    ensures var st := Receive(cfg, Init(1), t, true);
            && st.queue == [10] && st.inputs == [t] && st.nextEnd == 0 && st.prevEnd == 0 && st.gen.lastWm == 10
  {
    var seen := map[t.emitter := 10];
    assert Observe(map[], t.emitter, 10) == seen && |seen| == 1;
    assert MinTs([t.emitter], seen) == 10;
  }

  lemma RunStep(cfg: Config, startTime: int, events: seq<Event>, e: Event)
    requires cfg.Valid() && InRange(cfg, 0) && ValidEvents(cfg, events) && ValidEvent(cfg, e)
    ensures ValidEvents(cfg, events + [e])
    ensures Run(cfg, startTime, events + [e]) == StepEvent(cfg, Run(cfg, startTime, events), e)
  {
    assert (events + [e])[..|events|] == events;
  }

  lemma ScansTen(cfg: Config, st: State, t: Tuple)
    requires Ten(cfg, t) && cfg.Valid()
    requires st.inputs == [t] && st.nextEnd == 0 && st.prevEnd == 0
    ensures Drain(cfg, st, 10, 0).prevEnd == 10
  {
    var a := Scan(cfg, st, 0);
    assert a.inputs == [t] && !a.triggered by {
      SelectEmpty([t], Hit(cfg, 0, 0));
      SelectAll([t], Kept(cfg, 0, 0));
    }
    assert EarliestTs([t], 0, 10) == 10;
    assert NextEnd(cfg, a.inputs, 0, 10, false) == 10;
    var b := Scan(cfg, a, 10);
    var end := NextEnd(cfg, b.inputs, 10, 10, b.triggered);
    assert Drain(cfg, b, 10, end).prevEnd == 10;
  }
}
