/** The watermarks an event-time operator sends into its own input (internal/topo/node/watermark.go): which of them are
    queued, and what has been emitted once all of them are processed. */
module WatermarkQueue {
  import opened Sequences
  import opened Collections
  import opened Watermarks
  import opened EventWindows
  import opened EventRefinement

  function LastWatermark(cfg: Config, events: seq<Event>): (wm: int) {
    TrackAll(cfg.topics, cfg.tolerance, Received(events)).lastWm
  }

  /** The watermarks that were raised while the input queue had room, in order. */
  function Raised(cfg: Config, events: seq<Event>): (r: seq<int>) {
    if events == [] then []
    else
      var before, e := events[..|events| - 1], events[|events| - 1];
      var wm := LastWatermark(cfg, events);
      if e.Arrive? && e.room && wm > LastWatermark(cfg, before) then Raised(cfg, before) + [wm] else Raised(cfg, before)
  }

  /** How many of them the operator has reached. */
  function Reached(cfg: Config, events: seq<Event>): (n: nat)
    ensures n <= |Raised(cfg, events)|
  {
    if events == [] then 0
    else
      var before, e := events[..|events| - 1], events[|events| - 1];
      var n := Reached(cfg, before);
      if e.NextWatermark? && n < |Raised(cfg, before)| then n + 1 else n
  }

  /** Those that it has not. */
  function Queued(cfg: Config, events: seq<Event>): (r: seq<int>) {
    Raised(cfg, events)[Reached(cfg, events)..]
  }

  lemma ReceiveQueues(cfg: Config, st: State, t: Tuple, room: bool)
    ensures var r := Receive(cfg, st, t, room);
            r.queue == if room && r.gen.lastWm > st.gen.lastWm then st.queue + [r.gen.lastWm] else st.queue
  {
  }

  /** The queue holds exactly the raised watermarks not reached yet: each with its value, none lost and none made up. */
  lemma {:induction false} QueueIsRaised(cfg: Config, startTime: int, events: seq<Event>)
    requires cfg.Valid() && InRange(cfg, 0) && ValidEvents(cfg, events)
    ensures Run(cfg, startTime, events).queue == Queued(cfg, events)
  {
    if events != [] {
      var before, e := events[..|events| - 1], events[|events| - 1];
      assert events == before + [e];
      QueueIsRaised(cfg, startTime, before);
      LastWatermarkIs(cfg, startTime, before);
      LastWatermarkIs(cfg, startTime, events);
      StepQueues(cfg, Run(cfg, startTime, before), e);
      RaisedNext(cfg, before, e);
    }
  }

  lemma LastWatermarkIs(cfg: Config, startTime: int, events: seq<Event>)
    requires cfg.Valid() && InRange(cfg, 0) && ValidEvents(cfg, events)
    ensures Run(cfg, startTime, events).gen.lastWm == LastWatermark(cfg, events)
  {
    RunTracks(cfg, startTime, events);
  }

  /** What is raised and not reached, after one more event. */
  lemma RaisedNext(cfg: Config, before: seq<Event>, e: Event)
    ensures var events, left := before + [e], Queued(cfg, before);
            Queued(cfg, events) ==
              if e.Arrive? then
                var wm := LastWatermark(cfg, events);
                if e.room && wm > LastWatermark(cfg, before) then left + [wm] else left
              else if left == [] then [] else left[1..]
  {
    assert (before + [e])[..|before|] == before;
  }

  lemma StepQueues(cfg: Config, st: State, e: Event)
    requires WellFormed(cfg, st) && ValidEvent(cfg, e)
    ensures var r := StepEvent(cfg, st, e);
            match e
            case Arrive(_, room) =>
              r.queue == if room && r.gen.lastWm > st.gen.lastWm then st.queue + [r.gen.lastWm] else st.queue
            case NextWatermark => r.queue == if st.queue == [] then [] else st.queue[1..]
  {
    if e.Arrive? {
      ReceiveQueues(cfg, st, e.tuple, e.room);
    } else if st.queue != [] {
      assert st.queue[0] in st.queue;
    }
  }

  predicate RoomThroughout(events: seq<Event>) {
    forall i :: 0 <= i < |events| && events[i].Arrive? ==> events[i].room
  }

  /** The last watermark is at the end of the queue, or nothing that is due before it is missing. */
  ghost predicate Caught(cfg: Config, st: State, accepted: seq<Tuple>)
    requires cfg.Valid()
  {
    if st.queue == [] then NoneDue(cfg, accepted, st.prevEnd, st.gen.lastWm)
    else st.queue[|st.queue| - 1] == st.gen.lastWm
  }

  lemma ArrivalCaught(cfg: Config, st: State, accepted: seq<Tuple>, t: Tuple)
    requires cfg.Valid() && Caught(cfg, st, accepted)
    ensures var r := Receive(cfg, st, t, true);
            Caught(cfg, r, if st.gen.lastWm <= t.ts then accepted + [t] else accepted)
  {
    ReceiveQueues(cfg, st, t, true);
    var r := Receive(cfg, st, t, true);
    if r.queue == [] && st.gen.lastWm <= t.ts {
      forall e | st.prevEnd < e < st.gen.lastWm ensures !Due(cfg, accepted + [t], e) {
        DueOfLater(cfg, accepted, t, e);
      }
    }
  }

  lemma WatermarkCaught(cfg: Config, startTime: int, st: State, accepted: seq<Tuple>)
    requires Timed(cfg) && WellFormed(cfg, st) && RunInv(cfg, startTime, st, accepted) && Caught(cfg, st, accepted)
    ensures Caught(cfg, StepEvent(cfg, st, NextWatermark), accepted)
  {
    if st.queue != [] {
      assert st.queue[0] in st.queue;
      ProcessOk(cfg, startTime, st.(queue := st.queue[1..]), accepted, st.queue[0]);
    }
  }

  lemma {:induction false} RunCaught(cfg: Config, startTime: int, events: seq<Event>)
    requires Timed(cfg) && InRange(cfg, 0) && startTime > 0 && ValidEvents(cfg, events)
    requires NoBoundary(cfg, startTime, events) && RoomThroughout(events)
    ensures Caught(cfg, Run(cfg, startTime, events), AcceptedIn(cfg, events))
  {
    if events != [] {
      var before, e := events[..|events| - 1], events[|events| - 1];
      RunCaught(cfg, startTime, before);
      AcceptedStep(cfg, startTime, events);
      var st, accepted := Run(cfg, startTime, before), AcceptedIn(cfg, before);
      assert ValidEvent(cfg, e);
      if e.Arrive? {
        ArrivalCaught(cfg, st, accepted, e.tuple);
      } else {
        RunKeepsInv(cfg, startTime, before);
        WatermarkCaught(cfg, startTime, st, accepted);
      }
    }
  }

  /** The emitted windows are those of the batch definition up to the last watermark, or up to just before it. */
  ghost predicate EmittedUpTo(cfg: Config, startTime: int, st: State, accepted: seq<Tuple>)
    requires cfg.Valid()
  {
    || st.emitted == Batch(cfg, startTime, accepted, st.gen.lastWm - 1)
    || st.emitted == Batch(cfg, startTime, accepted, st.gen.lastWm)
  }

  /** If the input queue always had room and is empty again, everything that is due before the last watermark has been
      emitted: the windows of the batch definition, at most those ending exactly at the watermark apart. */
  lemma EmptyQueueCompletesBatch(cfg: Config, startTime: int, events: seq<Event>)
    requires Timed(cfg) && InRange(cfg, 0) && startTime > 0 && ValidEvents(cfg, events)
    requires NoBoundary(cfg, startTime, events) && RoomThroughout(events) && Run(cfg, startTime, events).queue == []
    ensures Run(cfg, startTime, events).gen.lastWm == LastWatermark(cfg, events)
    ensures EmittedUpTo(cfg, startTime, Run(cfg, startTime, events), AcceptedIn(cfg, events))
  {
    RunCaught(cfg, startTime, events);
    RunKeepsInv(cfg, startTime, events);
    RunTracks(cfg, startTime, events);
    CaughtUp(cfg, startTime, Run(cfg, startTime, events), AcceptedIn(cfg, events));
  }

  lemma CaughtUp(cfg: Config, startTime: int, st: State, accepted: seq<Tuple>)
    requires Timed(cfg) && RunInv(cfg, startTime, st, accepted) && Caught(cfg, st, accepted) && st.queue == []
    ensures EmittedUpTo(cfg, startTime, st, accepted)
  {
    if st.prevEnd < st.gen.lastWm {
      BatchSkips(cfg, startTime, accepted, st.prevEnd, st.gen.lastWm - 1);
    }
  }
}
