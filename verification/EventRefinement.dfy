/** Tumbling, hopping and sliding event-time windows: every run of the incremental operator emits exactly the windows
    of the batch definition, and it does so if and only if no tuple lands on a window end that was already scanned. */
module EventRefinement {
  import opened Sequences
  import opened Collections
  import opened Watermarks
  import opened EventWindows

  // ----- arithmetic of window ends

  lemma MultipleGap(a: int, b: int, step: int)
    requires step > 0 && a % step == 0 && b % step == 0 && a < b
    ensures a + step <= b
  {
    var p, q := a / step, b / step;
    assert a == p * step && b == q * step;
    assert (q - p) * step == b - a;
    assert q - p >= 1 ==> (q - p) * step >= step;
    assert q - p <= 0 ==> (q - p) * step <= 0;
  }

  lemma {:induction false} EarliestIsLeast(s: seq<Tuple>, after: int, upTo: int)
    requires Positive(s)
    ensures forall t :: t in s && after < t.ts <= upTo ==> EarliestTs(s, after, upTo) <= t.ts
    ensures EarliestTs(s, after, upTo) != MAX_INT64 ==> exists t :: t in s && t.ts == EarliestTs(s, after, upTo)
  {
    if s != [] {
      var n := |s| - 1;
      assert s == s[..n] + [s[n]];
      EarliestIsLeast(s[..n], after, upTo);
      assert forall t :: t in s <==> t in s[..n] || t == s[n];
    }
  }

  // ----- the batch definition

  lemma {:induction false} BatchSkips(cfg: Config, startTime: int, accepted: seq<Tuple>, from: int, upTo: int)
    requires cfg.Valid() && 0 <= from <= upTo
    requires forall e :: from < e <= upTo ==> !Due(cfg, accepted, e)
    ensures Batch(cfg, startTime, accepted, upTo) == Batch(cfg, startTime, accepted, from)
    decreases upTo
  {
    if from < upTo {
      BatchSkips(cfg, startTime, accepted, from, upTo - 1);
    }
  }

  lemma ContentOfLater(cfg: Config, accepted: seq<Tuple>, t: Tuple, e: int)
    ensures Content(cfg, accepted + [t], e)
         == if Lower(cfg, e) <= t.ts <= e then Content(cfg, accepted, e) + [t] else Content(cfg, accepted, e)
  {
    SelectAppend(accepted, t, Within(Lower(cfg, e), e));
  }

  lemma DueOfLater(cfg: Config, accepted: seq<Tuple>, t: Tuple, e: int)
    requires cfg.Valid() && e < t.ts
    ensures Due(cfg, accepted + [t], e) == Due(cfg, accepted, e)
    ensures Content(cfg, accepted + [t], e) == Content(cfg, accepted, e)
  {
    ContentOfLater(cfg, accepted, t, e);
    assert forall x :: x in accepted + [t] <==> x in accepted || x == t;
  }

  /** A tuple later than `upTo` does not change the windows up to `upTo`. */
  lemma {:induction false} BatchOfLater(cfg: Config, startTime: int, accepted: seq<Tuple>, t: Tuple, upTo: int)
    requires cfg.Valid() && upTo < t.ts
    ensures Batch(cfg, startTime, accepted + [t], upTo) == Batch(cfg, startTime, accepted, upTo)
    decreases if upTo <= 0 then 0 else upTo
  {
    if upTo > 0 {
      BatchOfLater(cfg, startTime, accepted, t, upTo - 1);
      DueOfLater(cfg, accepted, t, upTo);
    }
  }

  // ----- the invariant

  ghost predicate Timed(cfg: Config) {
    cfg.Valid() && cfg.kind != Session
  }

  /** Tumbling and hopping ends are multiples of the step. */
  predicate Aligned(cfg: Config) {
    cfg.kind == Tumbling || cfg.kind == Hopping
  }

  /** The operator agrees with the batch definition up to the last window end it scanned. */
  ghost predicate Refines(cfg: Config, startTime: int, st: State, accepted: seq<Tuple>)
    requires cfg.Valid()
  {
    st.emitted == Batch(cfg, startTime, accepted, st.prevEnd)
  }

  ghost predicate Core(cfg: Config, startTime: int, st: State, accepted: seq<Tuple>)
    requires Timed(cfg)
  {
    && Refines(cfg, startTime, st, accepted)
    && st.inputs == Select(accepted, Kept(cfg, st.prevEnd, 0))
    && st.triggerTime == LastEnd(st.emitted, startTime) > 0
    && 0 <= st.prevEnd && InRange(cfg, st.prevEnd)
    && (Aligned(cfg) ==> st.prevEnd % cfg.Step() == 0)
    && (cfg.kind == Hopping && !st.triggered ==> Content(cfg, accepted, st.prevEnd) == [])
    && Positive(accepted) && forall t :: t in accepted ==> InRange(cfg, t.ts)
  }

  ghost predicate NoneDue(cfg: Config, accepted: seq<Tuple>, from: int, to: int)
    requires cfg.Valid()
  {
    forall e :: from < e < to ==> !Due(cfg, accepted, e)
  }

  /** `end` is a right choice of the next window end when the windows up to `wm` are wanted: no window is due between
      the last scanned end and it. */
  ghost predicate EndOk(cfg: Config, st: State, accepted: seq<Tuple>, wm: int, end: int)
    requires Timed(cfg)
  {
    if end == MAX_INT64 then
      NoneDue(cfg, accepted, st.prevEnd, wm + 1) && !(Aligned(cfg) && st.triggered)
    else
      && (st.prevEnd < end || st.prevEnd == end == 0)
      && NoneDue(cfg, accepted, st.prevEnd, end)
      && (cfg.kind == Sliding ==> IsEnd(cfg, accepted, end))
      && (Aligned(cfg) ==> end % cfg.Step() == 0)
  }

  /** No tuple at or after `wm` belongs to a multiple before `end`. */
  ghost predicate Anchored(cfg: Config, st: State, wm: int, end: int) {
    Aligned(cfg) && end != MAX_INT64 ==> end - cfg.Step() < wm || end - cfg.Step() == st.prevEnd
  }

  // ----- the choice of the next end

  /** After a triggered scan the next multiple is the right end. */
  lemma NextEndTriggered(cfg: Config, startTime: int, st: State, accepted: seq<Tuple>, wm: int)
    requires Timed(cfg) && Aligned(cfg) && Core(cfg, startTime, st, accepted)
    ensures EndOk(cfg, st, accepted, wm, st.prevEnd + cfg.Step())
    ensures Anchored(cfg, st, wm, st.prevEnd + cfg.Step())
  {
    NextMultiple(st.prevEnd, cfg.Step());
    forall e | st.prevEnd < e < st.prevEnd + cfg.Step() ensures !Due(cfg, accepted, e) {
      if e % cfg.Step() == 0 {
        MultipleGap(st.prevEnd, e, cfg.Step());
      }
    }
  }

  /** The earliest buffered timestamp after the last scanned end is the earliest accepted one. */
  lemma EarliestCovers(cfg: Config, startTime: int, st: State, accepted: seq<Tuple>, wm: int)
    requires Timed(cfg) && Core(cfg, startTime, st, accepted)
    ensures var earliest := EarliestTs(st.inputs, st.prevEnd, wm);
            && (forall t :: t in accepted && st.prevEnd < t.ts <= wm ==> earliest <= t.ts)
            && (earliest != MAX_INT64 ==> exists t :: t in accepted && t.ts == earliest)
  {
    SelectSubset(accepted, Kept(cfg, st.prevEnd, 0));
    EarliestIsLeast(st.inputs, st.prevEnd, wm);
    forall t | t in accepted && st.prevEnd < t.ts <= wm ensures t in st.inputs {
      assert Kept(cfg, st.prevEnd, 0)(t) by {
        assert !Expired(cfg, st.prevEnd, 0)(t);
      }
      SelectMember(accepted, Kept(cfg, st.prevEnd, 0), t);
    }
  }

  /** An untriggered tumbling or hopping operator has nothing due before the first tuple after its last end. */
  lemma NotDueBefore(cfg: Config, startTime: int, st: State, accepted: seq<Tuple>, e: int)
    requires Timed(cfg) && Aligned(cfg) && Core(cfg, startTime, st, accepted) && st.prevEnd < e
    requires cfg.kind == Hopping ==> !st.triggered
    requires forall t :: t in accepted ==> !(st.prevEnd < t.ts <= e)
    ensures !Due(cfg, accepted, e)
  {
    if e % cfg.Step() == 0 {
      MultipleGap(st.prevEnd, e, cfg.Step());
      SelectEmpty(accepted, Within(Lower(cfg, st.prevEnd), st.prevEnd));
      SelectEmpty(accepted, Within(Lower(cfg, e), e));
    }
  }

  lemma NextEndUntriggered(cfg: Config, startTime: int, st: State, accepted: seq<Tuple>, wm: int)
    requires Timed(cfg) && Aligned(cfg) && Core(cfg, startTime, st, accepted) && InRange(cfg, wm) && !st.triggered
    ensures EndOk(cfg, st, accepted, wm, NextEnd(cfg, st.inputs, st.prevEnd, wm, false))
    ensures Anchored(cfg, st, wm, NextEnd(cfg, st.inputs, st.prevEnd, wm, false))
  {
    var earliest := EarliestTs(st.inputs, st.prevEnd, wm);
    var end := NextEnd(cfg, st.inputs, st.prevEnd, wm, false);
    EarliestCovers(cfg, startTime, st, accepted, wm);
    forall e | st.prevEnd < e < (if end == MAX_INT64 then wm + 1 else end) ensures !Due(cfg, accepted, e) {
      if e % cfg.Step() == 0 {
        if end != MAX_INT64 {
          MultipleGap(e, end, cfg.Step());
        }
        NotDueBefore(cfg, startTime, st, accepted, e);
      }
    }
  }

  lemma NextEndSliding(cfg: Config, startTime: int, st: State, accepted: seq<Tuple>, wm: int)
    requires Timed(cfg) && cfg.kind == Sliding && Core(cfg, startTime, st, accepted) && InRange(cfg, wm)
    ensures EndOk(cfg, st, accepted, wm, NextEnd(cfg, st.inputs, st.prevEnd, wm, st.triggered))
  {
    EarliestCovers(cfg, startTime, st, accepted, wm);
  }

  lemma NextEndOk(cfg: Config, startTime: int, st: State, accepted: seq<Tuple>, wm: int)
    requires Timed(cfg) && Core(cfg, startTime, st, accepted) && InRange(cfg, wm)
    ensures EndOk(cfg, st, accepted, wm, NextEnd(cfg, st.inputs, st.prevEnd, wm, st.triggered))
    ensures Anchored(cfg, st, wm, NextEnd(cfg, st.inputs, st.prevEnd, wm, st.triggered))
  {
    if cfg.kind == Sliding {
      NextEndSliding(cfg, startTime, st, accepted, wm);
    } else if st.triggered {
      NextEndTriggered(cfg, startTime, st, accepted, wm);
    } else {
      NextEndUntriggered(cfg, startTime, st, accepted, wm);
    }
  }

  // ----- one scan

  /** The tuples after the last scanned end and up to the next one are the next window's, because nothing is due in
      between. */
  lemma TumblingHits(cfg: Config, startTime: int, st: State, accepted: seq<Tuple>, wm: int, end: int, t: Tuple)
    requires Timed(cfg) && cfg.kind == Tumbling && Core(cfg, startTime, st, accepted)
    requires end != MAX_INT64 && EndOk(cfg, st, accepted, wm, end) && t in accepted && st.prevEnd < t.ts <= end
    ensures end - cfg.length < t.ts
  {
    var e := RoundUp(t.ts, cfg.Step());
    if e < end {
      SelectMember(accepted, Within(Lower(cfg, e), e), t);
      assert Due(cfg, accepted, e);
    }
  }

  lemma HitsAreContent(cfg: Config, startTime: int, st: State, accepted: seq<Tuple>, wm: int, end: int)
    requires Timed(cfg) && Core(cfg, startTime, st, accepted)
    requires end != MAX_INT64 && EndOk(cfg, st, accepted, wm, end)
    ensures Select(st.inputs, Hit(cfg, end, 0)) == Content(cfg, accepted, end)
  {
    forall t | t in accepted
      ensures Within(Lower(cfg, end), end)(t) == (Kept(cfg, st.prevEnd, 0)(t) && Hit(cfg, end, 0)(t))
    {
      assert Expired(cfg, end, 0)(t) == (cfg.Overlapping() && end - t.ts > cfg.length);
      assert Expired(cfg, st.prevEnd, 0)(t) == (cfg.Overlapping() && st.prevEnd - t.ts > cfg.length);
      if cfg.kind == Tumbling && st.prevEnd < end {
        MultipleGap(st.prevEnd, end, cfg.Step());
        if st.prevEnd < t.ts <= end {
          TumblingHits(cfg, startTime, st, accepted, wm, end, t);
        }
      }
    }
    SelectTwice(accepted, Kept(cfg, st.prevEnd, 0), Hit(cfg, end, 0), Within(Lower(cfg, end), end));
  }

  lemma KeptAgain(cfg: Config, st: State, accepted: seq<Tuple>, end: int)
    requires cfg.Valid() && st.prevEnd <= end && st.inputs == Select(accepted, Kept(cfg, st.prevEnd, 0))
    ensures Select(st.inputs, Kept(cfg, end, 0)) == Select(accepted, Kept(cfg, end, 0))
  {
    forall t | t in accepted
      ensures Kept(cfg, end, 0)(t) == (Kept(cfg, st.prevEnd, 0)(t) && Kept(cfg, end, 0)(t))
    {
      assert Expired(cfg, end, 0)(t) == (cfg.Overlapping() && end - t.ts > cfg.length);
      assert Expired(cfg, st.prevEnd, 0)(t) == (cfg.Overlapping() && st.prevEnd - t.ts > cfg.length);
    }
    SelectTwice(accepted, Kept(cfg, st.prevEnd, 0), Kept(cfg, end, 0), Kept(cfg, end, 0));
  }

  /** A scan at a right end emits the window that is due there, if one is, and keeps every tuple a later window
      needs. */
  lemma ScanOk(cfg: Config, startTime: int, st: State, accepted: seq<Tuple>, wm: int, end: int)
    requires Timed(cfg) && Core(cfg, startTime, st, accepted) && InRange(cfg, wm)
    requires 0 <= end <= wm && EndOk(cfg, st, accepted, wm, end)
    ensures Core(cfg, startTime, Scan(cfg, st, end), accepted)
  {
    var hits := Select(st.inputs, Hit(cfg, end, 0));
    HitsAreContent(cfg, startTime, st, accepted, wm, end);
    KeptAgain(cfg, st, accepted, end);
    if end == 0 {
      SelectEmpty(accepted, Within(Lower(cfg, 0), 0));
    } else {
      BatchSkips(cfg, startTime, accepted, st.prevEnd, end - 1);
      assert IsEnd(cfg, accepted, end);
    }
  }

  // ----- one watermark

  /** Processing a watermark emits every window due up to it. */
  lemma {:induction false} DrainOk(
    cfg: Config, startTime: int, st: State, accepted: seq<Tuple>, wm: int, end: int, last: int)
    requires Timed(cfg) && Core(cfg, startTime, st, accepted) && InRange(cfg, wm) && wm <= last
    requires st.prevEnd <= wm && 0 <= end && EndOk(cfg, st, accepted, wm, end) && Anchored(cfg, st, last, end)
    ensures var r := Drain(cfg, st, wm, end);
            && Core(cfg, startTime, r, accepted) && r.prevEnd <= wm < r.nextEnd
            && EndOk(cfg, r, accepted, wm, r.nextEnd) && Anchored(cfg, r, last, r.nextEnd)
    decreases if end <= wm then wm - end + 1 else 0
  {
    if end <= wm {
      ScanOk(cfg, startTime, st, accepted, wm, end);
      var st' := Scan(cfg, st, end);
      NextEndOk(cfg, startTime, st', accepted, wm);
      DrainOk(cfg, startTime, st', accepted, wm, NextEnd(cfg, st'.inputs, end, wm, st'.triggered), last);
    }
  }

  // ----- whole runs

  /** The remembered end of the next window is right, whatever is accepted from now on. */
  ghost predicate Remembered(cfg: Config, st: State, accepted: seq<Tuple>)
    requires Timed(cfg)
  {
    && 0 <= st.nextEnd
    && (Aligned(cfg) ==>
          if st.nextEnd == MAX_INT64 then !st.triggered
          else EndOk(cfg, st, accepted, 0, st.nextEnd) && Anchored(cfg, st, st.gen.lastWm, st.nextEnd))
  }

  /** The queued watermarks increase from the last scanned end to the last one raised. */
  ghost predicate QueueInv(st: State) {
    && st.prevEnd <= st.gen.lastWm
    && (forall i :: 0 <= i < |st.queue| ==> st.prevEnd <= st.queue[i] <= st.gen.lastWm)
    && (forall i, j :: 0 <= i < j < |st.queue| ==> st.queue[i] <= st.queue[j])
  }

  ghost predicate RunInv(cfg: Config, startTime: int, st: State, accepted: seq<Tuple>)
    requires Timed(cfg)
  {
    Core(cfg, startTime, st, accepted) && Remembered(cfg, st, accepted) && QueueInv(st)
  }

  /** `st'` is `st` with one more buffered tuple, at a later point of the generator. */
  predicate Buffered(st: State, st': State, t: Tuple) {
    && st' == st.(inputs := st.inputs + [t], gen := st'.gen, queue := st'.queue)
    && st.gen.lastWm <= st'.gen.lastWm
    && st.gen.lastWm <= t.ts
  }

  lemma CoreArrives(cfg: Config, startTime: int, st: State, st': State, accepted: seq<Tuple>, t: Tuple)
    requires Timed(cfg) && Core(cfg, startTime, st, accepted) && Buffered(st, st', t)
    requires st.prevEnd < t.ts && InRange(cfg, t.ts) && t.ts < MAX_INT64
    ensures Core(cfg, startTime, st', accepted + [t])
  {
    assert forall x :: x in accepted + [t] <==> x in accepted || x == t;
    BatchOfLater(cfg, startTime, accepted, t, st.prevEnd);
    ContentOfLater(cfg, accepted, t, st.prevEnd);
    assert !Expired(cfg, st.prevEnd, 0)(t);
    SelectAppend(accepted, t, Kept(cfg, st.prevEnd, 0));
  }

  lemma RememberedArrives(cfg: Config, st: State, st': State, accepted: seq<Tuple>, t: Tuple)
    requires Timed(cfg) && Remembered(cfg, st, accepted) && Buffered(st, st', t)
    ensures Remembered(cfg, st', accepted + [t])
  {
    if Aligned(cfg) && st.nextEnd != MAX_INT64 {
      forall e | st.prevEnd < e < st.nextEnd ensures !Due(cfg, accepted + [t], e) {
        if e % cfg.Step() == 0 {
          MultipleGap(e, st.nextEnd, cfg.Step());
          DueOfLater(cfg, accepted, t, e);
        }
      }
    }
  }

  lemma QueueArrives(cfg: Config, st: State, t: Tuple, room: bool)
    requires QueueInv(st)
    ensures QueueInv(Receive(cfg, st, t, room))
  {}

  lemma ArriveOk(cfg: Config, startTime: int, st: State, accepted: seq<Tuple>, t: Tuple, room: bool)
    requires Timed(cfg) && RunInv(cfg, startTime, st, accepted) && ValidEvent(cfg, Arrive(t, room))
    requires st.gen.lastWm <= t.ts && t.ts != st.prevEnd
    ensures RunInv(cfg, startTime, Receive(cfg, st, t, room), accepted + [t])
  {
    var st' := Receive(cfg, st, t, room);
    CoreArrives(cfg, startTime, st, st', accepted, t);
    RememberedArrives(cfg, st, st', accepted, t);
    QueueArrives(cfg, st, t, room);
  }

  lemma ProcessOk(cfg: Config, startTime: int, st: State, accepted: seq<Tuple>, wm: int)
    requires Timed(cfg) && WellFormed(cfg, st) && Core(cfg, startTime, st, accepted) && Remembered(cfg, st, accepted)
    requires InRange(cfg, wm) && st.prevEnd <= wm <= st.gen.lastWm
    ensures var r := Process(cfg, st, wm);
            && Core(cfg, startTime, r, accepted) && Remembered(cfg, r, accepted) && r.prevEnd <= wm
            && NoneDue(cfg, accepted, r.prevEnd, wm + 1)
  {
    NextEndOk(cfg, startTime, st, accepted, wm);
    var end := if st.nextEnd == MAX_INT64 || cfg.kind == Sliding
               then NextEnd(cfg, st.inputs, st.prevEnd, wm, st.triggered) else st.nextEnd;
    DrainOk(cfg, startTime, st, accepted, wm, end, st.gen.lastWm);
  }

  /** In every run the generator is the one that tracked all received tuples. */
  lemma {:induction false} RunTracks(cfg: Config, startTime: int, events: seq<Event>)
    requires cfg.Valid() && InRange(cfg, 0) && ValidEvents(cfg, events)
    ensures Run(cfg, startTime, events).gen == TrackAll(cfg.topics, cfg.tolerance, Received(events))
  {
    if events != [] {
      var n := |events| - 1;
      RunTracks(cfg, startTime, events[..n]);
      if events[n].Arrive? {
        assert Received(events)[..|Received(events)| - 1] == Received(events[..n]);
      }
    }
  }

  /** Does this event put an accepted tuple exactly on the window end that was scanned last? */
  predicate OnBoundary(st: State, e: Event) {
    e.Arrive? && st.gen.lastWm <= e.tuple.ts && e.tuple.ts == st.prevEnd
  }

  /** The boundary hypothesis over a whole run. */
  predicate NoBoundary(cfg: Config, startTime: int, events: seq<Event>)
    requires cfg.Valid() && InRange(cfg, 0) && ValidEvents(cfg, events)
  {
    events != [] ==>
      var n := |events| - 1;
      NoBoundary(cfg, startTime, events[..n]) && !OnBoundary(Run(cfg, startTime, events[..n]), events[n])
  }

  lemma AcceptedStep(cfg: Config, startTime: int, events: seq<Event>)
    requires cfg.Valid() && InRange(cfg, 0) && ValidEvents(cfg, events) && events != []
    ensures var before, e := events[..|events| - 1], events[|events| - 1];
            AcceptedIn(cfg, events) ==
              if e.Arrive? && Run(cfg, startTime, before).gen.lastWm <= e.tuple.ts
              then AcceptedIn(cfg, before) + [e.tuple] else AcceptedIn(cfg, before)
  {
    var before, e := events[..|events| - 1], events[|events| - 1];
    RunTracks(cfg, startTime, before);
    if e.Arrive? {
      assert Received(events)[..|Received(events)| - 1] == Received(before);
    }
  }

  lemma WatermarkOk(cfg: Config, startTime: int, st: State, accepted: seq<Tuple>)
    requires Timed(cfg) && WellFormed(cfg, st) && RunInv(cfg, startTime, st, accepted)
    ensures RunInv(cfg, startTime, StepEvent(cfg, st, NextWatermark), accepted)
  {
    if st.queue != [] {
      assert st.queue[0] in st.queue;
      ProcessOk(cfg, startTime, st.(queue := st.queue[1..]), accepted, st.queue[0]);
    }
  }

  lemma {:induction false} RunKeepsInv(cfg: Config, startTime: int, events: seq<Event>)
    requires Timed(cfg) && InRange(cfg, 0) && startTime > 0 && ValidEvents(cfg, events)
    requires NoBoundary(cfg, startTime, events)
    ensures RunInv(cfg, startTime, Run(cfg, startTime, events), AcceptedIn(cfg, events))
  {
    if events != [] {
      var before, last := events[..|events| - 1], events[|events| - 1];
      var st, accepted := Run(cfg, startTime, before), AcceptedIn(cfg, before);
      RunKeepsInv(cfg, startTime, before);
      AcceptedStep(cfg, startTime, events);
      assert ValidEvent(cfg, last);
      if last.NextWatermark? {
        WatermarkOk(cfg, startTime, st, accepted);
      } else if st.gen.lastWm <= last.tuple.ts {
        ArriveOk(cfg, startTime, st, accepted, last.tuple, last.room);
      }
    }
  }

  /** Refinement. In every run without a boundary tuple the broadcast windows are the batch definition of the accepted
      tuples up to the last scanned end, and the buffer holds exactly the accepted tuples that later windows need. */
  lemma EventWindowsRefineBatch(cfg: Config, startTime: int, events: seq<Event>)
    requires Timed(cfg) && InRange(cfg, 0) && startTime > 0 && ValidEvents(cfg, events)
    requires NoBoundary(cfg, startTime, events)
    ensures var st, accepted := Run(cfg, startTime, events), AcceptedIn(cfg, events);
            && st.emitted == Batch(cfg, startTime, accepted, st.prevEnd)
            && st.inputs == Select(accepted, Kept(cfg, st.prevEnd, 0))
  {
    RunKeepsInv(cfg, startTime, events);
  }

  /** ... and once a watermark was processed nothing that is due up to it is missing. */
  lemma WatermarkCompletesBatch(cfg: Config, startTime: int, events: seq<Event>)
    requires Timed(cfg) && InRange(cfg, 0) && startTime > 0 && ValidEvents(cfg, events)
    requires NoBoundary(cfg, startTime, events) && Run(cfg, startTime, events).queue != []
    ensures var st := Run(cfg, startTime, events);
            StepEvent(cfg, st, NextWatermark).emitted ==
              Batch(cfg, startTime, AcceptedIn(cfg, events), st.queue[0])
  {
    var st, accepted := Run(cfg, startTime, events), AcceptedIn(cfg, events);
    RunKeepsInv(cfg, startTime, events);
    var st1 := st.(queue := st.queue[1..]);
    ProcessOk(cfg, startTime, st1, accepted, st.queue[0]);
    BatchSkips(cfg, startTime, accepted, Process(cfg, st1, st.queue[0]).prevEnd, st.queue[0]);
  }
}
