/** What becomes of every checkpoint, told from the events alone: internal/topo/checkpoint/coordinator.go with its
    storage makes progress, forgets no checkpoint, and cleans up what it says. */
module CheckpointProgress {
  import opened Wrappers
  import opened Sequences
  import opened Checkpoints

  // ----- read off the events

  /** The signals sent and not yet delivered. */
  function InFlight(events: seq<Event>): (r: seq<Signal>) {
    if events == [] then []
    else
      var rest := InFlight(events[..|events| - 1]);
      match events[|events| - 1]
      case Save(id, op, _) => rest + [Ack(id, op)]
      case SaveFails(id, op) => rest + [Dec(id, op)]
      case Deliver => if rest == [] then [] else rest[1..]
      case Restart => []
      case _ => rest
  }

  /** The signal that event `k` delivers. */
  function Delivered(events: seq<Event>, k: nat): (r: Option<Signal>)
    requires k < |events|
  {
    var waiting := InFlight(events[..k]);
    if events[k].Deliver? && waiting != [] then Some(waiting[0]) else None
  }

  /** What the tasks saved for a checkpoint since the last restart. */
  function SavedFor(events: seq<Event>, id: int): (r: Snapshot) {
    if events == [] then map[]
    else
      var rest := SavedFor(events[..|events| - 1], id);
      match events[|events| - 1]
      case Save(id', op, state) => if id' == id then rest[op := state] else rest
      case Restart => map[]
      case _ => rest
  }

  /** Does event `k` cancel the checkpoint: a source could not be triggered, or a task declined? */
  predicate Cancels(events: seq<Event>, k: nat, id: int)
    requires k < |events|
  {
    || events[k] == TriggerFails(id)
    || (Delivered(events, k).Some? && Delivered(events, k).value.Dec? && Delivered(events, k).value.id == id)
  }

  /** The checkpoint was started by event `i`, and neither cancelled nor lost in a restart since. */
  predicate StartedAt(events: seq<Event>, i: nat, id: int) {
    && i < |events| && events[i] == Tick(id)
    && forall k :: i < k < |events| ==> events[k] != Restart && !Cancels(events, k, id)
  }

  /** The acknowledgement of the task has been delivered since event `i`. */
  predicate AckedSince(events: seq<Event>, i: nat, id: int, task: string) {
    exists k :: i < k < |events| && Delivered(events, k) == Some(Ack(id, task))
  }

  lemma {:induction false} SignalsAre(tasks: set<string>, events: seq<Event>)
    ensures Run(tasks, events).signals == InFlight(events)
  {
    if events != [] {
      SignalsAre(tasks, events[..|events| - 1]);
    }
  }

  lemma {:induction false} SavedIs(tasks: set<string>, events: seq<Event>, id: int)
    ensures Read(Run(tasks, events).hist.saved, id) == SavedFor(events, id)
  {
    if events != [] {
      var before, e := events[..|events| - 1], events[|events| - 1];
      SavedIs(tasks, before, id);
      StepSaves(tasks, Run(tasks, before), e, id);
    }
  }

  lemma StepSaves(tasks: set<string>, s: System, e: Event, id: int)
    ensures var before, after := Read(s.hist.saved, id), Read(Step(tasks, s, e).hist.saved, id);
            match e
            case Save(id', op, state) => after == if id' == id then before[op := state] else before
            case Restart => after == map[]
            case _ => after == before
  {
    if e.Deliver? && s.signals != [] && s.signals[0].Ack? {
      AckSaves(s.(signals := s.signals[1..]), s.signals[0].id, s.signals[0].op);
    }
  }

  lemma AckSaves(s: System, id: int, op: string)
    ensures OnAck(s, id, op).hist.saved == s.hist.saved
  {
  }

  // ----- one acknowledgement

  /** Counting an acknowledgement: nothing for a checkpoint not in progress; one task less to wait for; or, with the
      last one, the completion, which leaves the younger checkpoints as they are. */
  lemma AckStep(tasks: set<string>, s: System, id: int, op: string)
    requires Inv(tasks, s) && op in Read(s.hist.saved, id)
    ensures var r := OnAck(s, id, op);
            if id !in s.coord.pending then r == s
            else
              var waiting := s.coord.pending[id] - {op};
              if waiting != {} then r.hist.done == s.hist.done && r.coord.pending == s.coord.pending[id := waiting]
              else
                && r.hist.done == s.hist.done + [id]
                && forall x :: x in r.coord.pending <==> x in s.coord.pending && id < x
  {
    if id in s.coord.pending && s.coord.pending[id] - {op} == {} {
      LastAck(tasks, s, id, op);
    }
  }

  lemma LastAck(tasks: set<string>, s: System, id: int, op: string)
    requires Inv(tasks, s) && op in Read(s.hist.saved, id)
    requires id in s.coord.pending && s.coord.pending[id] - {op} == {}
    ensures var r := OnAck(s, id, op);
            && r.hist.done == s.hist.done + [id]
            && (forall x :: x in r.coord.pending <==> x in s.coord.pending && id < x)
            && (forall x :: x in r.coord.pending ==> r.coord.pending[x] == s.coord.pending[x])
  {
    CountedKeeps(tasks, s, id, op);
    var s1 := Counted(s, id, op);
    forall t | t in tasks ensures t in s1.hist.saved[id] {
      assert t !in s1.coord.pending[id];
      assert (id, t) in s1.hist.acked;
    }
    CompleteKeeps(tasks, s1, id);
  }

  lemma YoungerStay(tasks: set<string>, s: System, id: int, op: string, x: int)
    requires Inv(tasks, s) && op in Read(s.hist.saved, id) && x in s.coord.pending && x != id
    ensures var r := OnAck(s, id, op);
            if id in s.coord.pending && s.coord.pending[id] - {op} == {} && x < id then LastDone(r.hist) == id
            else x in r.coord.pending && r.coord.pending[x] == s.coord.pending[x]
  {
    if id in s.coord.pending && s.coord.pending[id] - {op} == {} {
      LastAck(tasks, s, id, op);
    }
  }

  /** A completion leaves every younger checkpoint in progress, waiting for the tasks it still waited for. */
  lemma CompletionKeepsYounger(tasks: set<string>, events: seq<Event>, e: Event, x: int)
    requires TicksIncrease(tasks, events)
    requires Step(tasks, Run(tasks, events), e).hist.done != Run(tasks, events).hist.done
    requires x in Run(tasks, events).coord.pending && LastDone(Step(tasks, Run(tasks, events), e).hist) < x
    ensures var s, r := Run(tasks, events), Step(tasks, Run(tasks, events), e);
            x in r.coord.pending && r.coord.pending[x] == s.coord.pending[x]
  {
    RunKeeps(tasks, events);
    var s := Run(tasks, events);
    OnlyAcksComplete(tasks, s, e);
    ReceiveKeeps(tasks, s);
    var s1, id, op := s.(signals := s.signals[1..]), s.signals[0].id, s.signals[0].op;
    AckStep(tasks, s1, id, op);
    LastAck(tasks, s1, id, op);
  }

  // ----- every checkpoint in progress

  /** The checkpoint is overtaken by a completion, or it is in progress and waits for exactly the tasks whose
      acknowledgement was not delivered since it started. */
  ghost predicate OnItsWay(tasks: set<string>, s: System, events: seq<Event>, i: nat, id: int) {
    || id <= LastDone(s.hist)
    || (&& id in s.coord.pending && (tasks != {} ==> s.coord.pending[id] != {})
        && forall t :: t in s.coord.pending[id] <==> t in tasks && !AckedSince(events, i, id, t))
  }

  lemma AckedNext(before: seq<Event>, e: Event, i: nat, id: int, t: string)
    requires i < |before|
    ensures AckedSince(before + [e], i, id, t)
       <==> AckedSince(before, i, id, t) || Delivered(before + [e], |before|) == Some(Ack(id, t))
  {
    var events := before + [e];
    forall k | 0 <= k < |before| ensures Delivered(events, k) == Delivered(before, k) {
      assert events[..k] == before[..k];
    }
    if AckedSince(before, i, id, t) {
      var k :| i < k < |before| && Delivered(before, k) == Some(Ack(id, t));
      assert Delivered(events, k) == Some(Ack(id, t));
    }
  }

  lemma StartedBefore(before: seq<Event>, e: Event, i: nat, id: int)
    requires StartedAt(before + [e], i, id) && i < |before|
    ensures StartedAt(before, i, id) && e != Restart && e != TriggerFails(id)
    ensures InFlight(before) != [] && e == Deliver ==> !(InFlight(before)[0].Dec? && InFlight(before)[0].id == id)
  {
    var events := before + [e];
    forall k | i < k < |before| ensures events[k] == before[k] && Cancels(events, k, id) == Cancels(before, k, id) {
      assert events[..k] == before[..k];
    }
    assert events[..|before|] == before && !Cancels(events, |before|, id);
  }

  /** Every started checkpoint is on its way or overtaken. */
  lemma {:induction false} StartedIsOnItsWay(tasks: set<string>, events: seq<Event>, i: nat, id: int)
    requires TicksIncrease(tasks, events) && StartedAt(events, i, id)
    ensures OnItsWay(tasks, Run(tasks, events), events, i, id)
  {
    var before, e := events[..|events| - 1], events[|events| - 1];
    assert events == before + [e];
    RunKeeps(tasks, before);
    if i < |before| {
      StartedBefore(before, e, i, id);
      StartedIsOnItsWay(tasks, before, i, id);
      SignalsAre(tasks, before);
      StepOnItsWay(tasks, Run(tasks, before), before, e, i, id);
    }
  }

  lemma StepOnItsWay(tasks: set<string>, s: System, before: seq<Event>, e: Event, i: nat, id: int)
    requires Inv(tasks, s) && (e.Tick? ==> e.id > s.hist.lastTick) && s.signals == InFlight(before) && i < |before|
    requires OnItsWay(tasks, s, before, i, id) && e != Restart && e != TriggerFails(id)
    requires s.signals != [] && e == Deliver ==> !(s.signals[0].Dec? && s.signals[0].id == id)
    ensures OnItsWay(tasks, Step(tasks, s, e), before + [e], i, id)
  {
    var d := Delivery(before, e);
    AckedNow(before, e, i, id, d);
    if d.Some? && d.value.Ack? {
      ReceiveKeeps(tasks, s);
      AckOnItsWay(tasks, s.(signals := s.signals[1..]), before, e, i, id, d.value.id, d.value.op);
    } else {
      OtherOnItsWay(tasks, s, before, e, i, id, d);
    }
  }

  /** What the next event delivers. */
  function Delivery(before: seq<Event>, e: Event): (d: Option<Signal>) {
    if e.Deliver? && InFlight(before) != [] then Some(InFlight(before)[0]) else None
  }

  lemma AckedNow(before: seq<Event>, e: Event, i: nat, id: int, d: Option<Signal>)
    requires i < |before| && d == Delivery(before, e)
    ensures forall t :: AckedSince(before + [e], i, id, t) <==>
                        AckedSince(before, i, id, t) || d == Some(Ack(id, t))
  {
    LastDelivered(before, e);
    forall t ensures AckedSince(before + [e], i, id, t) <==>
                     AckedSince(before, i, id, t) || d == Some(Ack(id, t)) {
      AckedNext(before, e, i, id, t);
    }
  }

  lemma OtherOnItsWay(
    tasks: set<string>, s: System, before: seq<Event>, e: Event, i: nat, id: int, d: Option<Signal>)
    requires Inv(tasks, s) && (e.Tick? ==> e.id > s.hist.lastTick) && s.signals == InFlight(before)
    requires d == Delivery(before, e) && (d.Some? ==> d.value.Dec? && d.value.id != id)
    requires OnItsWay(tasks, s, before, i, id) && e != Restart && e != TriggerFails(id)
    requires forall t :: AckedSince(before + [e], i, id, t) <==>
                         AckedSince(before, i, id, t) || d == Some(Ack(id, t))
    ensures OnItsWay(tasks, Step(tasks, s, e), before + [e], i, id)
  {
    OtherStep(tasks, s, e, id);
  }

  lemma LastDelivered(before: seq<Event>, e: Event)
    ensures Delivered(before + [e], |before|) == Delivery(before, e)
  {
    assert (before + [e])[..|before|] == before;
  }

  /** An event that delivers no acknowledgement, and does not cancel the checkpoint, leaves it as it is. */
  lemma OtherStep(tasks: set<string>, s: System, e: Event, id: int)
    requires Inv(tasks, s) && (e.Tick? ==> e.id > s.hist.lastTick) && e != Restart && e != TriggerFails(id)
    requires e.Deliver? && s.signals != [] ==> s.signals[0].Dec? && s.signals[0].id != id
    ensures var r := Step(tasks, s, e);
            && r.hist.done == s.hist.done
            && (id in s.coord.pending ==> id in r.coord.pending && r.coord.pending[id] == s.coord.pending[id])
  {
  }

  lemma AckOnItsWay(
    tasks: set<string>, s: System, before: seq<Event>, e: Event, i: nat, id: int, id': int, op: string)
    requires Inv(tasks, s) && op in Read(s.hist.saved, id')
    requires OnItsWay(tasks, s, before, i, id)
    requires forall t :: AckedSince(before + [e], i, id, t) <==>
                         AckedSince(before, i, id, t) || (id', op) == (id, t)
    ensures OnItsWay(tasks, OnAck(s, id', op), before + [e], i, id)
  {
    AckStep(tasks, s, id', op);
    if id in s.coord.pending && id != id' {
      YoungerStay(tasks, s, id', op, id);
    }
  }

  /** Progress. A checkpoint that was started, and neither cancelled nor lost in a restart, is completed once the
      acknowledgement of every task has been delivered, unless a later checkpoint was completed before. */
  lemma AcknowledgedIsDone(tasks: set<string>, events: seq<Event>, i: nat, id: int)
    requires TicksIncrease(tasks, events) && StartedAt(events, i, id) && tasks != {}
    requires forall t :: t in tasks ==> AckedSince(events, i, id, t)
    ensures var done := Run(tasks, events).hist.done; id in done || exists id' :: id' in done && id < id'
  {
    StartedIsOnItsWay(tasks, events, i, id);
    TickIsPositive(tasks, events, i);
    var s := Run(tasks, events);
    assert id <= LastDone(s.hist);
    assert LastDone(s.hist) in s.hist.done;
  }

  lemma {:induction false} TickIsPositive(tasks: set<string>, events: seq<Event>, i: nat)
    requires TicksIncrease(tasks, events) && i < |events| && events[i].Tick?
    ensures events[i].id > 0
    decreases |events|
  {
    if i < |events| - 1 {
      TickIsPositive(tasks, events[..|events| - 1], i);
    } else {
      LastTickIsNatural(tasks, events[..i]);
    }
  }

  lemma LastTickIsNatural(tasks: set<string>, events: seq<Event>)
    requires TicksIncrease(tasks, events)
    ensures 0 <= Run(tasks, events).hist.lastTick
  {
    RunKeeps(tasks, events);
  }

  /** Nothing else is in progress: what is was started, and neither cancelled nor lost since. */
  lemma {:induction false} InProgressWasStarted(tasks: set<string>, events: seq<Event>, id: int) returns (i: nat)
    requires TicksIncrease(tasks, events) && id in Run(tasks, events).coord.pending
    ensures StartedAt(events, i, id) && LastDone(Run(tasks, events).hist) < id
  {
    var before, e := events[..|events| - 1], events[|events| - 1];
    assert events == before + [e];
    RunKeeps(tasks, events);
    SignalsAre(tasks, before);
    if e == Tick(id) {
      i := |before|;
    } else {
      RunKeeps(tasks, before);
      StillInProgress(tasks, Run(tasks, before), e, id);
      i := InProgressWasStarted(tasks, before, id);
      StartedNext(before, e, i, id);
    }
  }

  lemma StillInProgress(tasks: set<string>, s: System, e: Event, id: int)
    requires Inv(tasks, s) && id in Step(tasks, s, e).coord.pending && e != Tick(id)
    ensures id in s.coord.pending && e != Restart && e != TriggerFails(id)
    ensures e.Deliver? && s.signals != [] ==> !(s.signals[0].Dec? && s.signals[0].id == id)
  {
    if e.Deliver? && s.signals != [] && s.signals[0].Ack? {
      ReceiveKeeps(tasks, s);
      AckStep(tasks, s.(signals := s.signals[1..]), s.signals[0].id, s.signals[0].op);
    }
  }

  lemma StartedNext(before: seq<Event>, e: Event, i: nat, id: int)
    requires StartedAt(before, i, id) && e != Restart && e != TriggerFails(id)
    requires e.Deliver? && InFlight(before) != [] ==> !(InFlight(before)[0].Dec? && InFlight(before)[0].id == id)
    ensures StartedAt(before + [e], i, id)
  {
    var events := before + [e];
    LastDelivered(before, e);
    forall k | i < k < |before| ensures events[k] == before[k] && Cancels(events, k, id) == Cancels(before, k, id) {
      assert events[..k] == before[..k];
    }
  }

  // ----- what a restart reads

  /** Every completed checkpoint was completed by the delivery of an acknowledgement, and its row is what the tasks had
      saved for it by then. */
  lemma {:induction false} CompletedWithItsStates(tasks: set<string>, events: seq<Event>, id: int) returns (k: nat)
    requires TicksIncrease(tasks, events) && id in Run(tasks, events).hist.done
    ensures k < |events| && Delivered(events, k).Some? && Delivered(events, k).value.Ack?
    ensures Delivered(events, k).value.id == id
    ensures var h := Run(tasks, events).hist; id in h.archive && h.archive[id] == SavedFor(events[..k], id)
  {
    var before, e := events[..|events| - 1], events[|events| - 1];
    assert events == before + [e];
    RunKeeps(tasks, before);
    SignalsAre(tasks, before);
    LastDelivered(before, e);
    var s := Run(tasks, before);
    if id in s.hist.done {
      k := CompletedWithItsStates(tasks, before, id);
      assert events[..k] == before[..k];
      ArchiveStays(tasks, s, e, id);
    } else {
      k := |before|;
      SavedIs(tasks, before, id);
      NewIsArchived(tasks, s, e, id);
    }
  }

  lemma ArchiveStays(tasks: set<string>, s: System, e: Event, id: int)
    requires Inv(tasks, s) && id in s.hist.done && id in s.hist.archive
    ensures var h := Step(tasks, s, e).hist; id in h.archive && h.archive[id] == s.hist.archive[id]
  {
    DoneUpToLast(s.hist);
    if e.Deliver? && s.signals != [] && s.signals[0].Ack? {
      ReceiveKeeps(tasks, s);
      var s1, x, op := s.(signals := s.signals[1..]), s.signals[0].id, s.signals[0].op;
      if x in s.coord.pending && s.coord.pending[x] - {op} == {} {
        LastAckArchives(tasks, s1, x, op);
      }
    }
  }

  lemma NewIsArchived(tasks: set<string>, s: System, e: Event, id: int)
    requires Inv(tasks, s) && id !in s.hist.done && id in Step(tasks, s, e).hist.done
    ensures e.Deliver? && s.signals != [] && s.signals[0].Ack? && s.signals[0].id == id
    ensures var h := Step(tasks, s, e).hist; id in h.archive && h.archive[id] == Read(s.hist.saved, id)
  {
    OnlyAcksComplete(tasks, s, e);
    ReceiveKeeps(tasks, s);
    var s1, x, op := s.(signals := s.signals[1..]), s.signals[0].id, s.signals[0].op;
    AckStep(tasks, s1, x, op);
    LastAckArchives(tasks, s1, x, op);
  }

  lemma LastAckArchives(tasks: set<string>, s: System, id: int, op: string)
    requires Inv(tasks, s) && op in Read(s.hist.saved, id)
    requires id in s.coord.pending && s.coord.pending[id] - {op} == {}
    ensures OnAck(s, id, op).hist.archive == s.hist.archive[id := Read(s.hist.saved, id)]
    ensures LastDone(s.hist) < id
  {
    LastAck(tasks, s, id, op);
  }

  /** After any run a restart gives every task what it had saved for the last completed checkpoint by its completion. */
  lemma RestartReadsSaved(tasks: set<string>, events: seq<Event>, op: string) returns (k: nat)
    requires TicksIncrease(tasks, events) && Run(tasks, events).hist.done != []
    ensures var id := LastDone(Run(tasks, events).hist);
            && k < |events| && Delivered(events, k).Some? && Delivered(events, k).value.id == id
            && var saved := SavedFor(events[..k], id);
               GetOpState(Step(tasks, Run(tasks, events), Restart).store, op)
                 == Ok(if op in saved then Some(saved[op]) else None)
  {
    var h := Run(tasks, events).hist;
    assert LastDone(h) in h.done;
    k := CompletedWithItsStates(tasks, events, LastDone(h));
    RestartRestoresLastCompleted(tasks, events, op);
  }

  // ----- what is remembered

  /** The coordinator remembers the last three checkpoints completed since the restart, or all there are; the store
      those and, as long as there are fewer than three, the one it restored. */
  lemma LastThreeRemembered(tasks: set<string>, events: seq<Event>)
    requires TicksIncrease(tasks, events)
    ensures var s := Run(tasks, events);
            && s.hist.since <= |s.hist.done|
            && var d := s.hist.done[s.hist.since..];
               && s.coord.completed == (if |d| <= 3 then d else d[|d| - 3..])
               && s.store.checkpoints
                    == if |d| >= 3 then d[|d| - 3..]
                       else [if s.hist.since == 0 then 0 else s.hist.done[s.hist.since - 1]] + d
  {
    RunKeeps(tasks, events);
  }

  /** The table takes no key that is not above the last one: whatever is appended, no row is lost or overwritten and the
      last key stays the greatest. */
  lemma AppendKeepsRows(t: Table, key: int, value: Snapshot)
    requires forall k :: k in t.rows ==> k <= t.last
    ensures var r := Set(t, key, value);
            && (forall k :: k in t.rows ==> k in r.rows && r.rows[k] == t.rows[k])
            && (forall k :: k in r.rows ==> k <= r.last)
            && (key > t.last ==> key in r.rows && r.rows[key] == value && r.last == key)
            && (key <= t.last ==> r == t)
  {
  }

  /** Snapshots of checkpoints that are remembered no longer are forgotten, and no others. */
  ghost predicate Forgets(s: Store, r: Store) {
    forall id :: id in r.mapStore <==> id in s.mapStore && (id in s.checkpoints ==> id in r.checkpoints)
  }

  /** So it is at every completion. */
  lemma CompletionForgets(tasks: set<string>, events: seq<Event>, e: Event)
    requires TicksIncrease(tasks, events)
    requires Step(tasks, Run(tasks, events), e).hist.done != Run(tasks, events).hist.done
    ensures Forgets(Run(tasks, events).store, Step(tasks, Run(tasks, events), e).store)
  {
    RunKeeps(tasks, events);
    var s := Run(tasks, events);
    OnlyAcksComplete(tasks, s, e);
    ReceiveKeeps(tasks, s);
    var s1, id, op := s.(signals := s.signals[1..]), s.signals[0].id, s.signals[0].op;
    AckStep(tasks, s1, id, op);
    LastAckForgets(tasks, s1, id, op);
  }

  lemma LastAckForgets(tasks: set<string>, s: System, id: int, op: string)
    requires Inv(tasks, s) && op in Read(s.hist.saved, id)
    requires id in s.coord.pending && s.coord.pending[id] - {op} == {}
    ensures var r := OnAck(s, id, op).store;
            && Forgets(s.store, r)
            && r.checkpoints != [] && r.checkpoints[|r.checkpoints| - 1] == id && id in r.mapStore
  {
    LastAck(tasks, s, id, op);
    RememberedBelow(tasks, s);
    assert Read(s.store.mapStore, id) == Read(s.hist.saved, id);
    Evicts(s.store, id);
  }

  lemma RememberedBelow(tasks: set<string>, s: System)
    requires Inv(tasks, s)
    ensures forall i, j :: 0 <= i < j < |s.store.checkpoints| ==> s.store.checkpoints[i] < s.store.checkpoints[j]
    ensures forall k :: k in s.store.checkpoints ==> k <= LastDone(s.hist)
  {
    ChainIncreases(s.hist);
    forall k | k in s.store.checkpoints ensures k <= LastDone(s.hist) {
      Last3Subset(Chain(s.hist), k);
    }
  }

  lemma Evicts(s: Store, id: int)
    requires id in s.mapStore && forall k :: k in s.checkpoints ==> k < id
    requires forall i, j :: 0 <= i < j < |s.checkpoints| ==> s.checkpoints[i] < s.checkpoints[j]
    ensures var r := SaveCheckpoint(s, id);
            && r.Some? && Forgets(s, r.value)
            && r.value.checkpoints != [] && r.value.checkpoints[|r.value.checkpoints| - 1] == id
  {
    var all := s.checkpoints + [id];
    var kept := Last3(all);
    var n := |all| - |kept|;
    assert s.checkpoints[..n] == all[..n] && kept == all[n..];
    forall k | k in s.checkpoints ensures k in s.checkpoints[..n] <==> k !in kept {
      var i :| 0 <= i < |s.checkpoints| && s.checkpoints[i] == k;
      assert all[i] == k;
      if i < n {
        assert s.checkpoints[..n][i] == k;
      } else {
        assert kept[i - n] == k;
      }
    }
  }

  /** Reading an operator's state fails exactly if the last remembered checkpoint is not in memory: it always is. */
  lemma StateIsReadable(tasks: set<string>, events: seq<Event>, op: string)
    requires TicksIncrease(tasks, events)
    ensures GetOpState(Run(tasks, events).store, op) != Err
    ensures forall s: Store :: GetOpState(s, op) == Err <==>
              s.checkpoints != [] && s.checkpoints[|s.checkpoints| - 1] !in s.mapStore
  {
    LastInMemory(tasks, events);
  }

  lemma {:induction false} LastInMemory(tasks: set<string>, events: seq<Event>)
    requires TicksIncrease(tasks, events)
    ensures var s := Run(tasks, events).store;
            s.checkpoints != [] && s.checkpoints[|s.checkpoints| - 1] in s.mapStore
  {
    if events != [] {
      var before, e := events[..|events| - 1], events[|events| - 1];
      LastInMemory(tasks, before);
      RunKeeps(tasks, before);
      StepInMemory(tasks, Run(tasks, before), e);
    }
  }

  lemma StepInMemory(tasks: set<string>, s: System, e: Event)
    requires Inv(tasks, s) && s.store.checkpoints != []
    requires s.store.checkpoints[|s.store.checkpoints| - 1] in s.store.mapStore
    ensures var r := Step(tasks, s, e).store;
            r.checkpoints != [] && r.checkpoints[|r.checkpoints| - 1] in r.mapStore
  {
    if e.Deliver? && s.signals != [] && s.signals[0].Ack? {
      ReceiveKeeps(tasks, s);
      AckInMemory(tasks, s.(signals := s.signals[1..]), s.signals[0].id, s.signals[0].op);
    }
  }

  lemma AckInMemory(tasks: set<string>, s: System, id: int, op: string)
    requires Inv(tasks, s) && op in Read(s.hist.saved, id)
    requires s.store.checkpoints != [] && s.store.checkpoints[|s.store.checkpoints| - 1] in s.store.mapStore
    ensures var r := OnAck(s, id, op).store;
            r.checkpoints != [] && r.checkpoints[|r.checkpoints| - 1] in r.mapStore
  {
    if id in s.coord.pending && s.coord.pending[id] - {op} == {} {
      LastAckForgets(tasks, s, id, op);
    }
  }

  // ----- cleaning up

  /** A clean-up leaves the rows of the remembered checkpoints, and no others. */
  lemma CleanUpLeavesRemembered(tasks: set<string>, events: seq<Event>)
    requires TicksIncrease(tasks, events)
    ensures CleanedUp(Run(tasks, events).store, Step(tasks, Run(tasks, events), CleanUp).store)
  {
    RunKeeps(tasks, events);
    CleanLeaves(tasks, Run(tasks, events));
  }

  ghost predicate CleanedUp(s: Store, r: Store) {
    && (forall id :: id in r.table.rows <==> id in s.checkpoints && 0 < id)
    && (forall id :: id in r.table.rows ==> id in s.table.rows && r.table.rows[id] == s.table.rows[id])
    && r.checkpoints == s.checkpoints && r.mapStore == s.mapStore && r.table.last == s.table.last
  }

  lemma CleanLeaves(tasks: set<string>, s: System)
    requires Inv(tasks, s)
    ensures CleanedUp(s.store, Step(tasks, s, CleanUp).store)
  {
    ChainIncreases(s.hist);
    var kept := s.store.checkpoints;
    forall id | id in s.hist.done && kept[0] <= id ensures id in kept {
      if id in Chain(s.hist) {
        Last3FromFirst(Chain(s.hist), id);
      } else {
        BeforeChain(s.hist, id);
        Last3Subset(Chain(s.hist), kept[0]);
      }
    }
    forall id | id in kept && 0 < id ensures kept[0] <= id {
      Last3Increases(Chain(s.hist));
    }
  }

  lemma Last3Increases(s: seq<int>)
    requires s != [] && forall i, j :: 0 <= i < j < |s| ==> s[i] < s[j]
    ensures Last3(s) != [] && forall x :: x in Last3(s) ==> Last3(s)[0] <= x
  {
  }

  lemma Last3FromFirst(s: seq<int>, x: int)
    requires s != [] && (forall i, j :: 0 <= i < j < |s| ==> s[i] < s[j]) && x in s && Last3(s)[0] <= x
    ensures x in Last3(s)
  {
    var i :| 0 <= i < |s| && s[i] == x;
    if |s| > 3 {
      assert i >= |s| - 3 && Last3(s)[i - (|s| - 3)] == x;
    }
  }

  lemma ChainHas(h: History, i: nat)
    requires h.since <= |h.done| && i < |h.done|
    ensures i >= h.since ==> h.done[i] in Chain(h)
  {
    if i >= h.since {
      assert h.done[h.since..][i - h.since] == h.done[i];
    }
  }

  /** What was completed before the last restart is older than anything remembered. */
  lemma BeforeChain(h: History, id: int)
    requires HistoryOk(h) && id in h.done && id !in Chain(h)
    ensures forall x :: x in Chain(h) ==> id < x
  {
    var i :| 0 <= i < |h.done| && h.done[i] == id;
    ChainHas(h, i);
    assert Chain(h)[0] in Chain(h);
    forall x | x in Chain(h) ensures id < x {
      var j :| 0 <= j < |Chain(h)| && Chain(h)[j] == x;
      assert j > 0 ==> x == h.done[h.since + j - 1];
    }
  }

  /** The ticks since the last restart. */
  function Ticks(events: seq<Event>): (n: nat) {
    if events == [] then 0
    else
      var rest := Ticks(events[..|events| - 1]);
      match events[|events| - 1]
      case Tick(_) => rest + 1
      case Restart => 0
      case _ => rest
  }

  lemma {:induction false} TicksCounted(tasks: set<string>, events: seq<Event>)
    ensures Run(tasks, events).coord.toBeClean == Ticks(events) % 100
  {
    if events != [] {
      var before, e := events[..|events| - 1], events[|events| - 1];
      TicksCounted(tasks, before);
      StepCounts(tasks, Run(tasks, before), e, Ticks(before));
    }
  }

  lemma StepCounts(tasks: set<string>, s: System, e: Event, n: nat)
    requires s.coord.toBeClean == n % 100
    ensures Step(tasks, s, e).coord.toBeClean
         == match e case Tick(_) => (n + 1) % 100 case Restart => 0 case _ => n % 100
  {
    if e.Deliver? && s.signals != [] && s.signals[0].Ack? {
      AckCounts(s.(signals := s.signals[1..]), s.signals[0].id, s.signals[0].op);
    }
  }

  lemma AckCounts(s: System, id: int, op: string)
    ensures OnAck(s, id, op).coord.toBeClean == s.coord.toBeClean
  {
  }

  lemma TickCleans(tasks: set<string>, s: System, id: int, n: nat)
    requires s.coord.toBeClean == n % 100
    ensures Step(tasks, s, Tick(id)).store
         == if (n + 1) % 100 == 0 then Step(tasks, s, CleanUp).store else s.store
  {
  }

  /** Every hundredth tick since the last restart cleans up, no other does. */
  lemma HundredthTickCleans(tasks: set<string>, events: seq<Event>, id: int)
    ensures var s := Run(tasks, events);
            Step(tasks, s, Tick(id)).store
              == if (Ticks(events) + 1) % 100 == 0 then Step(tasks, s, CleanUp).store else s.store
  {
    TicksCounted(tasks, events);
    TickCleans(tasks, Run(tasks, events), id, Ticks(events));
  }
}
