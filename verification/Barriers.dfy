/** The barrier handlers of internal/topo/checkpoint/barrier_handler.go. Whether a call of the responder's
    TriggerCheckpoint succeeds is part of the event that causes the call. */

/** Quality of service 1: count the barriers of every checkpoint. */
module Tracker {
  import opened Sequences

  /** A barrier on an input channel; `ok` is the outcome of the trigger it may cause. */
  datatype Barrier = Barrier(channel: string, id: int, ok: bool)

  datatype Attempt = Attempt(id: int, ok: bool)

  /** `attempts` is the log of the calls of TriggerCheckpoint. */
  datatype State = State(pending: map<int, int>, attempts: seq<Attempt>)

  function Init(): (st: State) {
    State(map[], [])
  }

  function ProcessBarrier(inputCount: nat, st: State, b: Barrier): (r: State) {
    if inputCount == 1 then st.(attempts := st.attempts + [Attempt(b.id, b.ok)])
    else if b.id !in st.pending then st.(pending := st.pending[b.id := 1])
    else if st.pending[b.id] + 1 != inputCount then st.(pending := st.pending[b.id := st.pending[b.id] + 1])
    else
      State(if b.ok then map id | id in st.pending && id > b.id :: st.pending[id] else st.pending,
            st.attempts + [Attempt(b.id, b.ok)])
  }

  function Run(inputCount: nat, events: seq<Barrier>): (st: State) {
    if events == [] then Init()
    else ProcessBarrier(inputCount, Run(inputCount, events[..|events| - 1]), events[|events| - 1])
  }

  // ----- the declarative side

  /** The channels that sent a barrier for checkpoint `id`. */
  function Senders(events: seq<Barrier>, id: int): (r: set<string>) {
    if events == [] then {}
    else
      var rest, b := Senders(events[..|events| - 1], id), events[|events| - 1];
      if b.id == id then rest + {b.channel} else rest
  }

  lemma {:induction false} SendersMeaning(events: seq<Barrier>, id: int, c: string)
    ensures c in Senders(events, id) <==> exists i :: 0 <= i < |events| && events[i].id == id && events[i].channel == c
  {
    if events != [] {
      var n := |events| - 1;
      SendersMeaning(events[..n], id, c);
      if exists i :: 0 <= i < |events| && events[i].id == id && events[i].channel == c {
        var i :| 0 <= i < |events| && events[i].id == id && events[i].channel == c;
        assert i < n ==> events[..n][i] == events[i];
      }
      if c in Senders(events[..n], id) {
        var i :| 0 <= i < n && events[..n][i].id == id && events[..n][i].channel == c;
        assert events[i] == events[..n][i];
      }
    }
  }

  /** Every barrier is from a known channel, and a channel's ids increase. */
  ghost predicate Fifo(channels: set<string>, events: seq<Barrier>) {
    && (forall i :: 0 <= i < |events| ==> events[i].channel in channels)
    && (forall i, j :: 0 <= i < j < |events| && events[i].channel == events[j].channel ==> events[i].id < events[j].id)
  }

  /** Ids not attempted yet. */
  predicate Open(st: State, id: int) {
    st.attempts != [] ==> st.attempts[|st.attempts| - 1].id < id
  }

  ghost predicate AllSucceed(st: State) {
    forall i :: 0 <= i < |st.attempts| ==> st.attempts[i].ok
  }

  /** Attempts come in increasing order, hence at most once for an id, and only after all inputs sent the barrier. */
  ghost predicate AttemptsSafe(channels: set<string>, events: seq<Barrier>, st: State) {
    && (forall i, j :: 0 <= i < j < |st.attempts| ==> st.attempts[i].id < st.attempts[j].id)
    && (forall i :: 0 <= i < |st.attempts| ==> Senders(events, st.attempts[i].id) == channels)
  }

  /** For the ids still open the map counts the channels that sent the barrier, and not all did. */
  ghost predicate CountsSafe(channels: set<string>, events: seq<Barrier>, st: State) {
    forall id :: Open(st, id) ==> Counted(channels, events, st, id)
  }

  ghost predicate Counted(channels: set<string>, events: seq<Barrier>, st: State, id: int) {
    CountIs(|channels|, st, id, |Senders(events, id)|)
  }

  predicate CountIs(inputCount: nat, st: State, id: int, count: nat) {
    if id in st.pending then 1 <= st.pending[id] == count < inputCount else count == 0
  }

  ghost predicate Safe(channels: set<string>, events: seq<Barrier>, st: State) {
    && AttemptsSafe(channels, events, st)
    && CountsSafe(channels, events, st)
    && (AllSucceed(st) ==> forall id :: id in st.pending ==> Open(st, id))
  }

  lemma SendersStep(events: seq<Barrier>, b: Barrier, id: int)
    ensures Senders(events + [b], id) == if b.id == id then Senders(events, id) + {b.channel} else Senders(events, id)
  {
    assert (events + [b])[..|events|] == events;
  }

  /** A further barrier in channel order is above every id its channel sent. */
  lemma NextIsAbove(channels: set<string>, events: seq<Barrier>, b: Barrier, id: int)
    requires Fifo(channels, events + [b]) && b.channel in Senders(events, id)
    ensures id < b.id
  {
    SendersMeaning(events, id, b.channel);
    var i :| 0 <= i < |events| && events[i].id == id && events[i].channel == b.channel;
    var now := events + [b];
    assert now[i] == events[i] && now[|events|] == b;
  }

  /** ... so it is for an open id, and its channel did not send it before. */
  lemma NextIsOpen(channels: set<string>, events: seq<Barrier>, st: State, b: Barrier)
    requires Fifo(channels, events + [b]) && AttemptsSafe(channels, events, st)
    ensures Open(st, b.id) && b.channel in channels && b.channel !in Senders(events, b.id)
  {
    assert (events + [b])[|events|] == b;
    if st.attempts != [] {
      NextIsAbove(channels, events, b, st.attempts[|st.attempts| - 1].id);
    }
    if b.channel in Senders(events, b.id) {
      NextIsAbove(channels, events, b, b.id);
    }
  }

  lemma SendersKnown(channels: set<string>, events: seq<Barrier>, id: int)
    requires Fifo(channels, events)
    ensures Senders(events, id) <= channels
  {
    forall c | c in Senders(events, id) ensures c in channels {
      SendersMeaning(events, id, c);
    }
  }

  /** What a barrier does to the count of one id. */
  lemma CountStep(inputCount: nat, st: State, b: Barrier, id: int, before: nat, after: nat)
    requires inputCount >= 1 && Open(st, b.id) && Open(ProcessBarrier(inputCount, st, b), id)
    requires CountIs(inputCount, st, id, before)
    requires after == before + (if id == b.id then 1 else 0) <= inputCount
    ensures CountIs(inputCount, ProcessBarrier(inputCount, st, b), id, after)
  {}

  /** An attempt is made exactly when the count is full. */
  lemma AttemptIsFull(inputCount: nat, st: State, b: Barrier, before: nat)
    requires inputCount >= 1 && CountIs(inputCount, st, b.id, before) && before < inputCount
    ensures ProcessBarrier(inputCount, st, b).attempts ==
              if before + 1 == inputCount then st.attempts + [Attempt(b.id, b.ok)] else st.attempts
  {}

  /** The number of senders of one id after a barrier. */
  lemma SendersGrow(channels: set<string>, events: seq<Barrier>, b: Barrier, id: int)
    requires Fifo(channels, events + [b]) && b.channel !in Senders(events, b.id)
    ensures |Senders(events + [b], id)| == |Senders(events, id)| + (if id == b.id then 1 else 0) <= |channels|
    ensures |Senders(events + [b], id)| == |channels| ==> Senders(events + [b], id) == channels
  {
    SendersStep(events, b, id);
    SendersKnown(channels, events + [b], id);
    SubsetSize(Senders(events + [b], id), channels);
  }

  /** An id that every channel sent is sent by every channel afterwards. */
  lemma SendersStay(channels: set<string>, events: seq<Barrier>, b: Barrier, id: int)
    requires Senders(events, id) == channels && b.channel in channels
    ensures Senders(events + [b], id) == channels
  {
    SendersStep(events, b, id);
  }

  lemma {:induction false} AttemptStep(channels: set<string>, events: seq<Barrier>, st: State, b: Barrier)
    requires |channels| >= 1 && Fifo(channels, events + [b]) && Safe(channels, events, st)
    ensures AttemptsSafe(channels, events + [b], ProcessBarrier(|channels|, st, b))
  {
    NextIsOpen(channels, events, st, b);
    SendersGrow(channels, events, b, b.id);
    assert Counted(channels, events, st, b.id);
    AttemptIsFull(|channels|, st, b, |Senders(events, b.id)|);
    var attempts := ProcessBarrier(|channels|, st, b).attempts;
    assert attempts == st.attempts || (attempts == st.attempts + [Attempt(b.id, b.ok)] && Open(st, b.id));
    forall i | 0 <= i < |st.attempts| ensures Senders(events + [b], st.attempts[i].id) == channels {
      SendersStay(channels, events, b, st.attempts[i].id);
    }
    AttemptsExtend(st.attempts, Attempt(b.id, b.ok));
    AttemptsGrown(channels, events + [b], st, attempts, Attempt(b.id, b.ok));
  }

  lemma AttemptsGrown(
    channels: set<string>, events: seq<Barrier>, st: State, attempts: seq<Attempt>, a: Attempt)
    requires forall i :: 0 <= i < |st.attempts| ==> Senders(events, st.attempts[i].id) == channels
    requires attempts == st.attempts || (attempts == st.attempts + [a] && Senders(events, a.id) == channels)
    ensures forall i :: 0 <= i < |attempts| ==> Senders(events, attempts[i].id) == channels
  {
  }

  lemma AttemptsExtend(attempts: seq<Attempt>, a: Attempt)
    requires forall i, j :: 0 <= i < j < |attempts| ==> attempts[i].id < attempts[j].id
    ensures attempts == [] || attempts[|attempts| - 1].id < a.id ==>
              forall i, j :: 0 <= i < j <= |attempts| ==> (attempts + [a])[i].id < (attempts + [a])[j].id
  {
  }

  lemma {:induction false} StepSafe(channels: set<string>, events: seq<Barrier>, st: State, b: Barrier)
    requires |channels| >= 1 && Fifo(channels, events + [b]) && Safe(channels, events, st)
    ensures Safe(channels, events + [b], ProcessBarrier(|channels|, st, b))
  {
    var st' := ProcessBarrier(|channels|, st, b);
    NextIsOpen(channels, events, st, b);
    AttemptStep(channels, events, st, b);
    forall id | Open(st', id) ensures Counted(channels, events + [b], st', id) {
      assert Open(st, id) && Counted(channels, events, st, id);
      SendersGrow(channels, events, b, id);
      CountStep(|channels|, st, b, id, |Senders(events, id)|, |Senders(events + [b], id)|);
    }
    if AllSucceed(st') {
      assert forall i :: 0 <= i < |st.attempts| ==> st.attempts[i] == st'.attempts[i];
      assert AllSucceed(st);
    }
  }

  lemma FifoPrefix(channels: set<string>, events: seq<Barrier>, n: nat)
    requires Fifo(channels, events) && n <= |events|
    ensures Fifo(channels, events[..n])
  {}

  /** Tracker safety for every sequence of barriers that respects channel order, with triggers free to fail. */
  lemma {:induction false} TrackerIsSafe(channels: set<string>, events: seq<Barrier>)
    requires |channels| >= 1 && Fifo(channels, events)
    ensures Safe(channels, events, Run(|channels|, events))
  {
    if events != [] {
      var n := |events| - 1;
      FifoPrefix(channels, events, n);
      TrackerIsSafe(channels, events[..n]);
      assert events == events[..n] + [events[n]];
      StepSafe(channels, events[..n], Run(|channels|, events[..n]), events[n]);
    }
  }

  predicate Attempted(st: State, id: int) {
    exists i :: 0 <= i < |st.attempts| && st.attempts[i].id == id
  }

  lemma {:induction false} StepAttempts(channels: set<string>, events: seq<Barrier>, st: State, b: Barrier, id: int)
    requires |channels| >= 1 && Fifo(channels, events + [b]) && Safe(channels, events, st)
    requires Senders(events + [b], id) == channels && (Senders(events, id) == channels ==> Attempted(st, id))
    ensures Attempted(ProcessBarrier(|channels|, st, b), id)
  {
    NextIsOpen(channels, events, st, b);
    SendersStep(events, b, id);
    var r := ProcessBarrier(|channels|, st, b);
    if Senders(events, id) == channels {
      var i :| 0 <= i < |st.attempts| && st.attempts[i].id == id;
      assert r.attempts[i].id == id;
    } else {
      SendersGrow(channels, events, b, b.id);
      assert Counted(channels, events, st, b.id);
      AttemptIsFull(|channels|, st, b, |Senders(events, b.id)|);
      assert r.attempts[|st.attempts|].id == id;
    }
  }

  /** With FIFO channels a checkpoint is attempted exactly when every channel has sent its barrier: none is skipped,
      although a triggered checkpoint drops all older ones. */
  lemma {:induction false} TrackerAttemptsExactly(channels: set<string>, events: seq<Barrier>, id: int)
    requires |channels| >= 1 && Fifo(channels, events)
    ensures Attempted(Run(|channels|, events), id) <==> Senders(events, id) == channels
  {
    TrackerIsSafe(channels, events);
    if events != [] {
      var n := |events| - 1;
      assert events == events[..n] + [events[n]];
      FifoPrefix(channels, events, n);
      TrackerIsSafe(channels, events[..n]);
      TrackerAttemptsExactly(channels, events[..n], id);
      if Senders(events, id) == channels {
        StepAttempts(channels, events[..n], Run(|channels|, events[..n]), events[n], id);
      }
    }
  }

  /** What one more barrier does, for FIFO channels: its checkpoint is attempted, with its outcome, exactly if it is the
      last barrier of it. */
  lemma TrackerStepExactly(channels: set<string>, events: seq<Barrier>, b: Barrier)
    requires |channels| >= 1 && Fifo(channels, events + [b])
    ensures Run(|channels|, events + [b]).attempts
         == Run(|channels|, events).attempts
              + if Senders(events + [b], b.id) == channels then [Attempt(b.id, b.ok)] else []
  {
    var all := events + [b];
    assert all[..|events|] == events;
    FifoPrefix(channels, all, |events|);
    TrackerIsSafe(channels, events);
    StepExactly(channels, events, Run(|channels|, events), b);
  }

  lemma StepExactly(channels: set<string>, events: seq<Barrier>, st: State, b: Barrier)
    requires |channels| >= 1 && Fifo(channels, events + [b]) && Safe(channels, events, st)
    ensures ProcessBarrier(|channels|, st, b).attempts
         == st.attempts + if Senders(events + [b], b.id) == channels then [Attempt(b.id, b.ok)] else []
  {
    NextIsOpen(channels, events, st, b);
    SendersGrow(channels, events, b, b.id);
    SendersStep(events, b, b.id);
    assert Counted(channels, events, st, b.id);
    SendersKnown(channels, events + [b], b.id);
    SubsetSize(Senders(events + [b], b.id), channels);
  }

  /** Every checkpoint triggered successfully is older. */
  predicate NoneFrom(attempts: seq<Attempt>, id: int) {
    forall i :: 0 <= i < |attempts| && attempts[i].ok ==> attempts[i].id < id
  }

  /** For two or more FIFO channels: a checkpoint is remembered exactly if some channel sent its barrier and no
      checkpoint from it on was triggered. */
  lemma {:induction false} PendingExactly(channels: set<string>, events: seq<Barrier>, id: int)
    requires |channels| >= 2 && Fifo(channels, events)
    ensures var st := Run(|channels|, events);
            id in st.pending <==> Senders(events, id) != {} && NoneFrom(st.attempts, id)
  {
    if events != [] {
      var before, b := events[..|events| - 1], events[|events| - 1];
      assert events == before + [b];
      FifoPrefix(channels, events, |before|);
      PendingExactly(channels, before, id);
      TrackerIsSafe(channels, before);
      var st := Run(|channels|, before);
      AttemptedBelow(channels, before, st, b);
      SendersStep(before, b, id);
      PendingStep(|channels|, st, b, id, Senders(before, id) != {});
    }
  }

  lemma AttemptedBelow(channels: set<string>, events: seq<Barrier>, st: State, b: Barrier)
    requires Fifo(channels, events + [b]) && Safe(channels, events, st)
    ensures NoneFrom(st.attempts, b.id)
  {
    NextIsOpen(channels, events, st, b);
  }

  lemma NoneFromNext(attempts: seq<Attempt>, a: Attempt, id: int)
    ensures NoneFrom(attempts + [a], id) <==> NoneFrom(attempts, id) && (a.ok ==> a.id < id)
  {
    var all := attempts + [a];
    assert all[|attempts|] == a && forall i :: 0 <= i < |attempts| ==> all[i] == attempts[i];
  }

  lemma PendingStep(inputCount: nat, st: State, b: Barrier, id: int, sent: bool)
    requires inputCount >= 2 && NoneFrom(st.attempts, b.id)
    requires id in st.pending <==> sent && NoneFrom(st.attempts, id)
    ensures var r := ProcessBarrier(inputCount, st, b);
            id in r.pending <==> (sent || id == b.id) && NoneFrom(r.attempts, id)
  {
    NoneFromNext(st.attempts, Attempt(b.id, b.ok), id);
  }

  class BarrierTracker {
    const inputCount: nat
    var pending: map<int, int>
    var attempts: seq<Attempt>

    constructor (inputCount: nat)
      ensures this.inputCount == inputCount && Abs() == Init()
    {
      this.inputCount, pending, attempts := inputCount, map[], [];
    }

    ghost function Abs(): (st: State)
      reads this
    {
      State(pending, attempts)
    }

    method Process(b: Barrier)
      modifies this
      ensures Abs() == ProcessBarrier(inputCount, old(Abs()), b)
    {
      if inputCount == 1 {
        attempts := attempts + [Attempt(b.id, b.ok)];
        return;
      }
      if b.id in pending {
        var c := pending[b.id] + 1;
        if c == inputCount {
          attempts := attempts + [Attempt(b.id, b.ok)];
          if !b.ok {
            return;
          }
          pending := DropUpTo(pending, b.id);
        } else {
          pending := pending[b.id := c];
        }
      } else {
        pending := pending[b.id := 1];
      }
    }
  }

  /** Deletes the triggered checkpoint, then every older one. */
  method DropUpTo(pending: map<int, int>, id: int) returns (r: map<int, int>)
    ensures r == map cid | cid in pending && cid > id :: pending[cid]
  {
    r := pending - {id};
    var keys := r.Keys;
    while keys != {}
      invariant forall cid :: cid in keys ==> cid in r
      invariant forall cid :: cid in r ==> cid in pending && cid != id && r[cid] == pending[cid]
      invariant forall cid :: cid in pending && cid > id ==> cid in r
      invariant forall cid :: cid in r && cid !in keys ==> cid > id
      decreases keys
    {
      var cid :| cid in keys;
      keys := keys - {cid};
      if cid < id {
        r := r - {cid};
      }
    }
    assert forall cid :: cid in r <==> cid in pending && cid > id;
  }
}

/** Quality of service 2: block a channel from its barrier on until all channels sent theirs. */
module Aligner {
  import opened Sequences

  /** A data item or a barrier on an input channel. */
  datatype Event = Data(channel: string, item: int) | Barrier(channel: string, id: int, ok: bool)

  /** `passed` are the items the operator was allowed to process, `output` the items handed back for replay, and
      `triggers` the ids whose trigger succeeded. */
  datatype State = State(
    current: int, blocked: set<string>, buffer: seq<int>, output: seq<int>, passed: seq<int>, triggers: seq<int>)

  function Init(): (st: State) {
    State(0, {}, [], [], [], [])
  }

  /** Every barrier arrived: trigger, and on success release the channels and hand back the buffered items. */
  function Complete(inputCount: nat, st: State, ok: bool): (r: State) {
    if |st.blocked| == inputCount && ok then
      st.(blocked := {}, buffer := [], output := st.output + st.buffer, triggers := st.triggers + [st.current])
    else st
  }

  function ProcessBarrier(inputCount: nat, st: State, channel: string, id: int, ok: bool): (r: State) {
    if inputCount == 1 then
      if id > st.current then
        st.(current := id, triggers := if ok then st.triggers + [id] else st.triggers)
      else st
    else if id > st.current then
      Complete(inputCount, st.(current := id, blocked := {channel}), ok)
    else if st.blocked != {} && id == st.current then
      Complete(inputCount, st.(blocked := st.blocked + {channel}), ok)
    else st
  }

  function Process(inputCount: nat, st: State, e: Event): (r: State) {
    match e
    case Data(channel, item) =>
      if inputCount > 1 && channel in st.blocked then st.(buffer := st.buffer + [item])
      else st.(passed := st.passed + [item])
    case Barrier(channel, id, ok) => ProcessBarrier(inputCount, st, channel, id, ok)
  }

  function Run(inputCount: nat, events: seq<Event>): (st: State) {
    if events == [] then Init()
    else Process(inputCount, Run(inputCount, events[..|events| - 1]), events[|events| - 1])
  }

  // ----- conservation

  function Items(events: seq<Event>): (r: seq<int>) {
    if events == [] then []
    else
      var rest, e := Items(events[..|events| - 1]), events[|events| - 1];
      if e.Data? then rest + [e.item] else rest
  }

  /** All items the aligner ever took. */
  function Held(st: State): (m: multiset<int>) {
    multiset(st.passed) + multiset(st.buffer) + multiset(st.output)
  }

  /** One event adds its item, if it has one. */
  lemma {:induction false} ProcessConserves(inputCount: nat, st: State, e: Event)
    ensures Held(Process(inputCount, st, e)) == Held(st) + if e.Data? then multiset{e.item} else multiset{}
  {
    BagConcat(st.output, st.buffer);
    if e.Data? {
      BagConcat(st.buffer, [e.item]);
      BagConcat(st.passed, [e.item]);
    }
  }

  /** No item is lost or copied, whatever alignments are skipped and whatever triggers fail. */
  lemma {:induction false} AlignerConserves(inputCount: nat, events: seq<Event>)
    ensures var st := Run(inputCount, events);
            multiset(st.passed) + multiset(st.buffer) + multiset(st.output) == multiset(Items(events))
  {
    if events != [] {
      var before, e := events[..|events| - 1], events[|events| - 1];
      AlignerConserves(inputCount, before);
      ProcessConserves(inputCount, Run(inputCount, before), e);
      assert Held(Run(inputCount, before)) == multiset(Items(before));
    }
  }

  // ----- the cut

  /** The barriers received so far, as pairs of channel and checkpoint id. */
  function Barriers(events: seq<Event>): (r: set<(string, int)>) {
    if events == [] then {}
    else
      var rest, e := Barriers(events[..|events| - 1]), events[|events| - 1];
      if e.Barrier? then rest + {(e.channel, e.id)} else rest
  }

  /** Channel `c` sent the barrier of checkpoint `id`. */
  predicate Sent(events: seq<Event>, c: string, id: int) {
    (c, id) in Barriers(events)
  }

  /** Some barrier of checkpoint `id` arrived. */
  ghost predicate Arrived(events: seq<Event>, id: int) {
    exists c :: Sent(events, c, id)
  }

  ghost predicate Known(channels: set<string>, events: seq<Event>) {
    forall i :: 0 <= i < |events| ==> events[i].channel in channels
  }

  /** Successful triggers increase, and each came after the barrier of every channel. */
  ghost predicate TriggersOk(channels: set<string>, sent: set<(string, int)>, st: State) {
    && (forall i, j :: 0 <= i < j < |st.triggers| ==> st.triggers[i] < st.triggers[j])
    && (forall id :: id in st.triggers ==> id <= st.current)
    && (forall id, c :: id in st.triggers && c in channels ==> (c, id) in sent)
  }

  /** The open alignment waits for a checkpoint that was not triggered. */
  ghost predicate BlockedOk(channels: set<string>, sent: set<(string, int)>, st: State) {
    && (forall c :: c in st.blocked ==> c in channels && (c, st.current) in sent)
    && (st.blocked != {} ==> 0 < st.current && st.current !in st.triggers)
    && 0 <= st.current
  }

  /** A channel past its barrier is blocked, or the checkpoint was triggered or superseded. */
  ghost predicate CutOk(sent: set<(string, int)>, st: State) {
    && (forall c, id :: (c, id) in sent && 0 < id ==>
          id < st.current || (id == st.current && (c in st.blocked || id in st.triggers)))
    && (st.current == 0 || exists c :: (c, st.current) in sent)
  }

  ghost predicate Aligned(channels: set<string>, sent: set<(string, int)>, st: State) {
    TriggersOk(channels, sent, st) && BlockedOk(channels, sent, st) && CutOk(sent, st)
  }

  /** Completing an alignment keeps the invariant. */
  lemma CompleteAligned(channels: set<string>, sent: set<(string, int)>, st: State, ok: bool)
    requires Aligned(channels, sent, st) && st.blocked != {}
    ensures Aligned(channels, sent, Complete(|channels|, st, ok))
  {
    if |st.blocked| == |channels| && ok {
      SubsetSize(st.blocked, channels);
      forall i | 0 <= i < |st.triggers| ensures st.triggers[i] < st.current {
        assert st.triggers[i] in st.triggers;
      }
    }
  }

  /** A barrier opens an alignment, joins the open one, or is for a checkpoint that is over. */
  lemma BarrierAligned(channels: set<string>, sent: set<(string, int)>, st: State, c: string, id: int, ok: bool)
    requires |channels| >= 2 && c in channels && Aligned(channels, sent, st)
    ensures Aligned(channels, sent + {(c, id)}, ProcessBarrier(|channels|, st, c, id, ok))
  {
    var sent' := sent + {(c, id)};
    if id > st.current {
      var st1 := st.(current := id, blocked := {c});
      assert (c, id) in sent';
      assert Aligned(channels, sent', st1);
      CompleteAligned(channels, sent', st1, ok);
    } else if st.blocked != {} && id == st.current {
      var st1 := st.(blocked := st.blocked + {c});
      assert Aligned(channels, sent', st1);
      CompleteAligned(channels, sent', st1, ok);
    } else if st.current != 0 {
      var c' :| (c', st.current) in sent;
      assert (c', st.current) in sent';
    }
  }

  lemma {:induction false} RunAligned(channels: set<string>, events: seq<Event>)
    requires |channels| >= 2 && Known(channels, events)
    ensures Aligned(channels, Barriers(events), Run(|channels|, events))
  {
    if events != [] {
      var before, e := events[..|events| - 1], events[|events| - 1];
      RunAligned(channels, before);
      if e.Barrier? {
        BarrierAligned(channels, Barriers(before), Run(|channels|, before), e.channel, e.id, e.ok);
      }
    }
  }

  /** A checkpoint is triggered only after its barrier came from every channel, and the triggered ids increase. */
  lemma TriggersAfterAllBarriers(channels: set<string>, events: seq<Event>)
    requires |channels| >= 2 && Known(channels, events)
    ensures var t := Run(|channels|, events).triggers;
            && (forall i, j :: 0 <= i < j < |t| ==> t[i] < t[j])
            && (forall id, c :: id in t && c in channels ==> Sent(events, c, id))
  {
    RunAligned(channels, events);
  }

  // ----- when a checkpoint is triggered

  /** A barrier above zero and above every barrier before it. */
  ghost predicate Highest(events: seq<Event>, i: nat)
    requires i < |events|
  {
    && events[i].Barrier? && 0 < events[i].id
    && forall j :: 0 <= j < i && events[j].Barrier? ==> events[j].id < events[i].id
  }

  /** With one input the current checkpoint is the highest so far. */
  lemma {:induction false} OneInputCurrent(events: seq<Event>)
    ensures var current := Run(1, events).current;
            && 0 <= current && (forall j :: 0 <= j < |events| && events[j].Barrier? ==> events[j].id <= current)
            && (current == 0 || exists j :: 0 <= j < |events| && events[j].Barrier? && events[j].id == current)
  {
    if events != [] {
      var n := |events| - 1;
      var before := events[..n];
      OneInputCurrent(before);
      assert forall j :: 0 <= j < n ==> before[j] == events[j];
      var current := Run(1, before).current;
      if Run(1, events).current == current && current != 0 {
        var j :| 0 <= j < n && before[j].Barrier? && before[j].id == current;
        assert events[j].id == current;
      }
    }
  }

  ghost predicate HighestTriggered(events: seq<Event>, id: int) {
    exists i :: 0 <= i < |events| && Highest(events, i) && events[i].id == id && events[i].ok
  }

  lemma HighestNext(before: seq<Event>, e: Event, id: int)
    ensures HighestTriggered(before + [e], id) <==>
              HighestTriggered(before, id) || (Highest(before + [e], |before|) && e.id == id && e.ok)
  {
    var events := before + [e];
    forall i | 0 <= i < |before| ensures Highest(events, i) == Highest(before, i) && events[i] == before[i] {
      assert forall j :: 0 <= j < i ==> before[j] == events[j];
    }
    if HighestTriggered(before, id) {
      var i :| 0 <= i < |before| && Highest(before, i) && before[i].id == id && before[i].ok;
      assert Highest(events, i) && events[i] == before[i];
    }
    assert events[|before|] == e;
  }

  /** With one input a checkpoint is triggered exactly when its first barrier comes, if that is the highest so far and
      the trigger succeeds. */
  lemma {:induction false} OneInputTriggersExactly(events: seq<Event>, id: int)
    ensures id in Run(1, events).triggers <==>
              exists i :: 0 <= i < |events| && Highest(events, i) && events[i].id == id && events[i].ok
  {
    if events != [] {
      var before, e := events[..|events| - 1], events[|events| - 1];
      OneInputTriggersExactly(before, id);
      OneInputCurrent(before);
      OneInputStep(before, e);
      HighestNext(before, e, id);
      assert events == before + [e] && (HighestTriggered(before, id) <==> id in Run(1, before).triggers);
    }
    assert HighestTriggered(events, id) <==> id in Run(1, events).triggers;
  }

  lemma OneInputStep(before: seq<Event>, e: Event)
    requires var current := Run(1, before).current;
             && 0 <= current && (forall j :: 0 <= j < |before| && before[j].Barrier? ==> before[j].id <= current)
             && (current == 0 || exists j :: 0 <= j < |before| && before[j].Barrier? && before[j].id == current)
    ensures var t, first := Run(1, before).triggers, Highest(before + [e], |before|) && e.ok;
            Run(1, before + [e]).triggers == if first then t + [e.id] else t
  {
    RunNext(1, before, e);
    HighestIs(before, e, Run(1, before).current);
  }

  lemma HighestIs(before: seq<Event>, e: Event, current: int)
    requires 0 <= current && forall j :: 0 <= j < |before| && before[j].Barrier? ==> before[j].id <= current
    requires current == 0 || exists j :: 0 <= j < |before| && before[j].Barrier? && before[j].id == current
    ensures Highest(before + [e], |before|) <==> e.Barrier? && current < e.id
  {
    var events := before + [e];
    assert events[|before|] == e && forall j :: 0 <= j < |before| ==> events[j] == before[j];
    if current != 0 {
      var j :| 0 <= j < |before| && before[j].Barrier? && before[j].id == current;
      assert events[j] == before[j];
    }
  }

  /** The barrier of a checkpoint completes it: with it every channel has sent one, none of a later checkpoint came, and
      the trigger succeeds. */
  ghost predicate Completes(channels: set<string>, events: seq<Event>, e: Event) {
    && e.Barrier? && e.ok && 0 < e.id
    && (forall c :: c in channels ==> c == e.channel || Sent(events, c, e.id))
    && (forall c, id :: Sent(events, c, id) ==> id <= e.id)
  }

  /** With several inputs an event triggers a checkpoint exactly if it completes one that was not triggered yet; then,
      and only then, the channels are released and the buffered items handed back in the order they came. */
  lemma TriggersExactly(channels: set<string>, events: seq<Event>, e: Event)
    requires |channels| >= 2 && Known(channels, events + [e])
    ensures var st, r := Run(|channels|, events), Run(|channels|, events + [e]);
            if Completes(channels, events, e) && e.id !in st.triggers then
              r == st.(current := e.id, blocked := {}, buffer := [], output := st.output + st.buffer,
                       triggers := st.triggers + [e.id])
            else r.triggers == st.triggers && r.output == st.output
  {
    KnownPrefix(channels, events, e);
    RunAligned(channels, events);
    RunAligned(channels, events + [e]);
    RunNext(|channels|, events, e);
    assert (events + [e])[|events|].channel in channels;
    BarriersBelow(channels, events);
    if e.Barrier? {
      BarrierTriggers(channels, Barriers(events), Run(|channels|, events), e.channel, e.id, e.ok);
    }
  }

  lemma BarriersBelow(channels: set<string>, events: seq<Event>)
    requires |channels| >= 2 && Known(channels, events)
    ensures var current := Run(|channels|, events).current;
            && 0 <= current && (current == 0 || Arrived(events, current))
            && forall c, id :: Sent(events, c, id) ==> id <= current
  {
    RunAligned(channels, events);
    CurrentIsNatural(|channels|, events);
    if Run(|channels|, events).current != 0 {
      var c :| (c, Run(|channels|, events).current) in Barriers(events);
      assert Sent(events, c, Run(|channels|, events).current);
    }
  }

  lemma BarrierTriggers(channels: set<string>, sent: set<(string, int)>, st: State, c: string, id: int, ok: bool)
    requires |channels| >= 2 && c in channels && Aligned(channels, sent, st) && 0 <= st.current
    ensures var full := forall c' :: c' in channels ==> c' == c || (c', id) in sent;
            var r := ProcessBarrier(|channels|, st, c, id, ok);
            if ok && 0 < id && full && st.current <= id && id !in st.triggers then
              r == st.(current := id, blocked := {}, buffer := [], output := st.output + st.buffer,
                       triggers := st.triggers + [id])
            else r.triggers == st.triggers && r.output == st.output
  {
    var full := forall c' :: c' in channels ==> c' == c || (c', id) in sent;
    if id > st.current {
      OtherChannel(channels, c);
    } else if id == st.current && 0 < id && id !in st.triggers {
      var c0 :| (c0, st.current) in sent;
      assert c0 in st.blocked;
      var blocked := st.blocked + {c};
      SubsetSize(blocked, channels);
      if full {
        assert forall c' :: c' in channels ==> c' in blocked;
        assert blocked == channels;
      } else {
        var c' :| c' in channels && c' != c && (c', id) !in sent;
        assert c' !in blocked;
      }
    }
  }

  lemma OtherChannel(channels: set<string>, c: string)
    requires |channels| >= 2
    ensures exists c' :: c' in channels && c' != c
  {
    if forall c' :: c' in channels ==> c' == c {
      assert channels <= {c};
      SubsetSize(channels, {c});
    }
  }

  /** The channel is past the barrier of the current checkpoint, and that was not triggered. */
  ghost predicate HeldBack(channels: set<string>, events: seq<Event>, c: string) {
    exists id :: 0 < id && Sent(events, c, id) && id !in Run(|channels|, events).triggers
                 && forall c', id' :: Sent(events, c', id') ==> id' <= id
  }

  /** With several inputs an item is buffered exactly if its channel is held back, and let through otherwise. */
  lemma ItemPassesExactly(channels: set<string>, events: seq<Event>, c: string, item: int)
    requires |channels| >= 2 && Known(channels, events)
    ensures var st, r := Run(|channels|, events), Run(|channels|, events + [Data(c, item)]);
            if HeldBack(channels, events, c) then r == st.(buffer := st.buffer + [item])
            else r == st.(passed := st.passed + [item])
  {
    RunNext(|channels|, events, Data(c, item));
    RunAligned(channels, events);
    BarriersBelow(channels, events);
    var st := Run(|channels|, events);
    if c in st.blocked {
      assert Sent(events, c, st.current);
      assert HeldBack(channels, events, c);
    }
  }

  /** With one input every item is let through. */
  lemma OneInputPasses(events: seq<Event>, c: string, item: int)
    ensures var st := Run(1, events);
            Run(1, events + [Data(c, item)]) == st.(passed := st.passed + [item])
  {
    RunNext(1, events, Data(c, item));
  }

  /** The cut: an item is let through only if every checkpoint whose barrier its channel sent before was triggered, or
      superseded by a barrier of a later checkpoint. */
  lemma AlignerCut(channels: set<string>, events: seq<Event>, c: string, item: int, id: int)
    requires |channels| >= 2 && Known(channels, events) && 0 < id && Sent(events, c, id)
    requires var st := Run(|channels|, events);
             Process(|channels|, st, Data(c, item)).passed != st.passed
    ensures id in Run(|channels|, events).triggers || exists id' :: id < id' && Arrived(events, id')
  {
    RunAligned(channels, events);
    var st := Run(|channels|, events);
    assert c !in st.blocked;
    if id < st.current {
      var c' :| (c', st.current) in Barriers(events);
      assert Sent(events, c', st.current);
      assert Arrived(events, st.current);
    }
  }

  // ----- what a triggered checkpoint does not hold

  /** The positions of the waiting items after event `n`. */
  function WaitingAfter(inputCount: nat, st: State, w: seq<nat>, n: nat, e: Event): (r: seq<nat>) {
    match e
    case Data(channel, _) => if inputCount > 1 && channel in st.blocked then w + [n] else w
    case Barrier(_, _, _) => if Process(inputCount, st, e).triggers == st.triggers then w else []
  }

  /** The positions of the items in the buffer: neither let through nor handed back. */
  function Waiting(inputCount: nat, events: seq<Event>): (w: seq<nat>) {
    if events == [] then []
    else
      var n := |events| - 1;
      WaitingAfter(inputCount, Run(inputCount, events[..n]), Waiting(inputCount, events[..n]), n, events[n])
  }

  ghost predicate AreAt(events: seq<Event>, w: seq<nat>, items: seq<int>) {
    && |w| == |items|
    && forall k :: 0 <= k < |w| ==> w[k] < |events| && events[w[k]].Data? && events[w[k]].item == items[k]
  }

  lemma {:induction false} StepIsBuffer(inputCount: nat, before: seq<Event>, e: Event, st: State, w: seq<nat>)
    requires AreAt(before, w, st.buffer) && (inputCount <= 1 ==> w == [])
    ensures var r := WaitingAfter(inputCount, st, w, |before|, e);
            AreAt(before + [e], r, Process(inputCount, st, e).buffer) && (inputCount <= 1 ==> r == [])
  {
    forall k | 0 <= k < |w| ensures (before + [e])[w[k]] == before[w[k]] {}
  }

  /** They are: the buffer holds the items at these positions, in order. */
  lemma {:induction false} WaitingIsBuffer(inputCount: nat, events: seq<Event>)
    ensures AreAt(events, Waiting(inputCount, events), Run(inputCount, events).buffer)
    ensures inputCount <= 1 ==> Waiting(inputCount, events) == []
  {
    if events != [] {
      var before, e := events[..|events| - 1], events[|events| - 1];
      WaitingIsBuffer(inputCount, before);
      StepIsBuffer(inputCount, before, e, Run(inputCount, before), Waiting(inputCount, before));
      assert events == before + [e];
    }
  }

  /** The barrier at position `k` made `id` the current checkpoint. */
  predicate Opens(inputCount: nat, events: seq<Event>, k: nat, id: int)
    requires k < |events|
  {
    Run(inputCount, events[..k]).current < id && Run(inputCount, events[..k + 1]).current == id
  }

  lemma {:induction false} PrefixRun(inputCount: nat, events: seq<Event>, m: nat)
    requires m <= |events|
    ensures Run(inputCount, events[..m]).current <= Run(inputCount, events).current
    ensures Run(inputCount, events[..m]).triggers <= Run(inputCount, events).triggers
    decreases |events|
  {
    if m < |events| {
      var before := events[..|events| - 1];
      PrefixRun(inputCount, before, m);
      assert before[..m] == events[..m];
    } else {
      assert events[..m] == events;
    }
  }

  /** Every checkpoint but the initial one was opened by a barrier. */
  lemma {:induction false} OpeningExists(inputCount: nat, events: seq<Event>) returns (k: nat)
    requires Run(inputCount, events).current > 0
    ensures k < |events| && Opens(inputCount, events, k, Run(inputCount, events).current)
  {
    var n := |events| - 1;
    if Run(inputCount, events[..n]).current < Run(inputCount, events).current {
      assert events[..n + 1] == events;
      k := n;
    } else {
      k := OpeningExists(inputCount, events[..n]);
      assert events[..n][..k] == events[..k] && events[..n][..k + 1] == events[..k + 1];
    }
  }

  /** `w` are the positions in `w0` and those of the items since `k` that came after their channel's barrier. */
  ghost predicate Since(events: seq<Event>, k: nat, id: int, w0: seq<nat>, w: seq<nat>) {
    forall i :: i in w <==> i in w0 || (k < i < |events| && Past(events, i, id))
  }

  lemma {:induction false} SinceNext(
    before: seq<Event>, e: Event, k: nat, id: int, w0: seq<nat>, w: seq<nat>, w': seq<nat>)
    requires Since(before, k, id, w0, w) && k < |before|
    requires forall i :: i in w' <==> i in w || (i == |before| && Past(before + [e], i, id))
    ensures Since(before + [e], k, id, w0, w')
  {
    forall i | 0 <= i < |before| ensures Past(before, i, id) == Past(before + [e], i, id) {
      assert before[..i] == (before + [e])[..i];
    }
  }

  /** While a checkpoint is current and not triggered, what comes from a channel past its barrier starts to wait, and
      nothing that waits is released. */
  lemma {:induction false} WaitingSince(channels: set<string>, events: seq<Event>, k: nat, id: int)
    requires |channels| >= 2 && Known(channels, events) && k < |events| && Opens(|channels|, events, k, id)
    requires var st := Run(|channels|, events); st.current == id && id !in st.triggers
    ensures Since(events, k, id, Waiting(|channels|, events[..k]), Waiting(|channels|, events))
    decreases |events|
  {
    var before, e := events[..|events| - 1], events[|events| - 1];
    assert events == before + [e];
    KnownPrefix(channels, before, e);
    CurrentIsNatural(|channels|, events[..k]);
    if k < |before| {
      StaysCurrent(|channels|, before, e, k, id);
      WaitingSince(channels, before, k, id);
      assert before[..k] == events[..k];
      SinceStep(channels, before, e, k, id);
    } else {
      assert before == events[..k];
      StepWaits(channels, before, e, id);
    }
  }

  lemma {:induction false} SinceStep(channels: set<string>, before: seq<Event>, e: Event, k: nat, id: int)
    requires |channels| >= 2 && Known(channels, before) && k < |before| && 0 < id
    requires Run(|channels|, before).current == id
    requires var st := Run(|channels|, before + [e]); st.current == id && id !in st.triggers
    requires Since(before, k, id, Waiting(|channels|, before[..k]), Waiting(|channels|, before))
    ensures Since(before + [e], k, id, Waiting(|channels|, before[..k]), Waiting(|channels|, before + [e]))
  {
    StepWaits(channels, before, e, id);
    SinceNext(before, e, k, id, Waiting(|channels|, before[..k]), Waiting(|channels|, before),
              Waiting(|channels|, before + [e]));
  }

  lemma {:induction false} StaysCurrent(inputCount: nat, before: seq<Event>, e: Event, k: nat, id: int)
    requires k < |before| && Opens(inputCount, before + [e], k, id)
    requires Run(inputCount, before + [e]).current == id && id !in Run(inputCount, before + [e]).triggers
    ensures Opens(inputCount, before, k, id)
    ensures Run(inputCount, before).current == id && id !in Run(inputCount, before).triggers
  {
    var events := before + [e];
    assert events[..k] == before[..k] && events[..k + 1] == before[..k + 1] && events[..|before|] == before;
    PrefixRun(inputCount, before, k + 1);
    PrefixRun(inputCount, events, |before|);
  }

  /** An item that came after the barrier of this checkpoint from its channel. */
  predicate Past(events: seq<Event>, i: nat, id: int)
    requires i < |events|
  {
    events[i].Data? && Sent(events[..i], events[i].channel, id)
  }

  lemma CurrentIsNatural(inputCount: nat, events: seq<Event>)
    ensures Run(inputCount, events).current >= 0
  {
    PrefixRun(inputCount, events, 0);
  }

  /** The last event of such a time. */
  lemma {:induction false} StepWaits(channels: set<string>, before: seq<Event>, e: Event, id: int)
    requires |channels| >= 2 && Known(channels, before)
    requires var st := Run(|channels|, before + [e]); st.current == id && id !in st.triggers
    ensures var w, w' := Waiting(|channels|, before), Waiting(|channels|, before + [e]);
            && (Run(|channels|, before).current == id && 0 < id ==>
                  forall i :: i in w' <==> i in w || (i == |before| && Past(before + [e], i, id)))
            && (Run(|channels|, before).current != id ==> w' == w)
  {
    RunNext(|channels|, before, e);
    RunAligned(channels, before);
    var st := Run(|channels|, before);
    if e.Data? && 0 < id {
      assert (before + [e])[..|before|] == before;
      assert st.current == id ==> (e.channel in st.blocked <==> Sent(before, e.channel, id));
    }
  }

  /** At the trigger of a checkpoint the operator lacks exactly the items past their channel's barrier. */
  ghost predicate Consistent(inputCount: nat, events: seq<Event>, id: int) {
    forall i :: 0 <= i < |events| && events[i].Data? ==> (i in Waiting(inputCount, events) <==> Past(events, i, id))
  }

  /** The other half of the cut: when a checkpoint is about to be triggered, no item is held back but those past their
      channel's barrier, if and only if the buffer was empty when the barrier came that made the checkpoint current. */
  lemma {:induction false} ConsistentCutExactly(channels: set<string>, events: seq<Event>, last: Event, id: int, k: nat)
    requires |channels| >= 2 && Known(channels, events + [last])
    requires Run(|channels|, events + [last]).triggers == Run(|channels|, events).triggers + [id]
    requires k <= |events| && Opens(|channels|, events + [last], k, id)
    ensures Consistent(|channels|, events, id) <==> Run(|channels|, events[..k]).buffer == []
  {
    NotYetTriggered(channels, events, last, id, k);
    WaitingSince(channels, events, k, id);
    WaitingIsBuffer(|channels|, events[..k]);
    forall i | 0 <= i <= k ensures !Past(events, i, id) {
      NotPastYet(channels, events, k, id, i);
    }
    var w := Waiting(|channels|, events[..k]);
    if w != [] {
      assert w[0] in w && w[0] in Waiting(|channels|, events) && events[..k][w[0]] == events[w[0]];
      assert !Consistent(|channels|, events, id);
    }
  }

  /** Before the trigger the checkpoint is current, and not triggered. */
  lemma NotYetTriggered(channels: set<string>, events: seq<Event>, last: Event, id: int, k: nat)
    requires |channels| >= 2 && Known(channels, events + [last])
    requires Run(|channels|, events + [last]).triggers == Run(|channels|, events).triggers + [id]
    requires k <= |events| && Opens(|channels|, events + [last], k, id)
    ensures Known(channels, events) && k < |events| && Opens(|channels|, events, k, id)
    ensures Run(|channels|, events).current == id && id !in Run(|channels|, events).triggers
  {
    var st := Run(|channels|, events);
    KnownPrefix(channels, events, last);
    RunNext(|channels|, events, last);
    NewInTriggers(channels, events + [last], st.triggers, id);
    TriggerNotOpening(|channels|, st, last, id);
    OpensPrefix(|channels|, events, last, k, id);
  }

  lemma KnownPrefix(channels: set<string>, events: seq<Event>, last: Event)
    requires Known(channels, events + [last])
    ensures Known(channels, events)
  {
    forall i | 0 <= i < |events| ensures events[i].channel in channels {
      assert (events + [last])[i] == events[i];
    }
  }

  lemma OpensPrefix(inputCount: nat, events: seq<Event>, last: Event, k: nat, id: int)
    requires k <= |events| && Opens(inputCount, events + [last], k, id) && Run(inputCount, events).current == id
    ensures k < |events| && Opens(inputCount, events, k, id)
  {
    assert (events + [last])[..|events|] == events;
    if k < |events| {
      assert (events + [last])[..k] == events[..k];
      assert (events + [last])[..k + 1] == events[..k + 1];
    }
  }

  lemma NewInTriggers(channels: set<string>, events: seq<Event>, triggers: seq<int>, id: int)
    requires |channels| >= 2 && Known(channels, events) && Run(|channels|, events).triggers == triggers + [id]
    ensures id !in triggers
  {
    TriggersAfterAllBarriers(channels, events);
    var t := triggers + [id];
    forall j | 0 <= j < |triggers| ensures triggers[j] != id {
      assert t[j] < t[|triggers|];
    }
  }

  /** With several channels the barrier that triggers a checkpoint is not the one that opened it. */
  lemma TriggerNotOpening(inputCount: nat, st: State, e: Event, id: int)
    requires inputCount >= 2 && Process(inputCount, st, e).triggers == st.triggers + [id]
    ensures st.current == id && Process(inputCount, st, e).current == id
  {
    assert (st.triggers + [id])[|st.triggers|] == id;
    assert e.Barrier?;
  }

  /** Before the barrier that opens a checkpoint, none of its barriers came. */
  lemma NotPastYet(channels: set<string>, events: seq<Event>, k: nat, id: int, i: nat)
    requires |channels| >= 2 && Known(channels, events) && k < |events| && Opens(|channels|, events, k, id) && i <= k
    ensures !Past(events, i, id)
  {
    RunAligned(channels, events[..i]);
    PrefixRun(|channels|, events[..k], i);
    CurrentIsNatural(|channels|, events[..k]);
    assert events[..k][..i] == events[..i];
  }

  /** An alignment that is skipped keeps its buffer: an item that came before its channel's barrier 2 is missing from
      checkpoint 2 and is handed back after it. */
  lemma SkippedAlignmentLosesItem(a: string, b: string, item: int)
    requires a != b
    ensures var events := Skipping(a, b, item);
            var st := Run(2, events + [Barrier(a, 2, true)]);
            && st.triggers == [2] && st.passed == [] && st.output == [item]
            && Waiting(2, events) == [1] && !Past(events, 1, 2) && !Consistent(2, events, 2)
  {
    var events, none: seq<Event> := Skipping(a, b, item), [];
    SkippingRun(a, b, item);
    RunNext(2, events, Barrier(a, 2, true));
    assert {b} + {a} == {a, b} && |{a, b}| == 2;
    assert events[..1] == none + [Barrier(a, 1, true)] && Barriers(none) == {};
    assert Barriers(events[..1]) == {(a, 1)};
    assert 1 in Waiting(2, events);
  }

  /** The alignment of checkpoint 1 is skipped by a barrier 2 from the other channel. */
  function Skipping(a: string, b: string, item: int): (events: seq<Event>) {
    [Barrier(a, 1, true)] + [Data(a, item)] + [Barrier(b, 2, true)]
  }

  lemma SkippingRun(a: string, b: string, item: int)
    requires a != b
    ensures Run(2, Skipping(a, b, item)) == State(2, {b}, [item], [], [], [])
    ensures Waiting(2, Skipping(a, b, item)) == [1]
  {
    var none: seq<Event> := [];
    assert none + [Barrier(a, 1, true)] == [Barrier(a, 1, true)];
    RunNext(2, none, Barrier(a, 1, true));
    assert Run(2, [Barrier(a, 1, true)]) == State(1, {a}, [], [], [], []);
    RunNext(2, [Barrier(a, 1, true)], Data(a, item));
    RunNext(2, [Barrier(a, 1, true)] + [Data(a, item)], Barrier(b, 2, true));
  }

  lemma RunNext(inputCount: nat, events: seq<Event>, e: Event)
    ensures Run(inputCount, events + [e]) == Process(inputCount, Run(inputCount, events), e)
    ensures Waiting(inputCount, events + [e])
         == WaitingAfter(inputCount, Run(inputCount, events), Waiting(inputCount, events), |events|, e)
  {
    assert (events + [e])[..|events|] == events;
  }

  class BarrierAligner {
    const inputCount: nat
    var current: int
    var blocked: set<string>
    var buffer: seq<int>
    var output: seq<int>
    var passed: seq<int>
    var triggers: seq<int>

    constructor (inputCount: nat)
      ensures this.inputCount == inputCount && Abs() == Init()
    {
      this.inputCount, current, blocked, buffer, output, passed, triggers := inputCount, 0, {}, [], [], [], [];
    }

    ghost function Abs(): (st: State)
      reads this
    {
      State(current, blocked, buffer, output, passed, triggers)
    }

    /** `handled` tells the operator not to process the data. */
    method OnEvent(e: Event) returns (handled: bool)
      modifies this
      ensures Abs() == Process(inputCount, old(Abs()), e)
      ensures handled <==> e.Barrier? || old(inputCount > 1 && e.channel in blocked)
    {
      match e
      case Barrier(channel, id, ok) =>
        OnBarrier(channel, id, ok);
        handled := true;
      case Data(channel, item) =>
        if inputCount > 1 && |blocked| > 0 {
          if channel in blocked {
            buffer := buffer + [item];
            return true;
          }
        }
        passed := passed + [item];
        handled := false;
    }

    method OnBarrier(channel: string, id: int, ok: bool)
      modifies this
      ensures Abs() == ProcessBarrier(inputCount, old(Abs()), channel, id, ok)
    {
      if inputCount == 1 {
        if id > current {
          current := id;
          if ok {
            triggers := triggers + [id];
          }
        }
        return;
      }
      if |blocked| > 0 {
        if id == current {
          blocked := blocked + {channel};
        } else if id > current {
          // the current alignment is skipped; its buffered items stay in the buffer
          blocked := {};
          BeginNewAlignment(channel, id);
        } else {
          return;
        }
      } else if id > current {
        BeginNewAlignment(channel, id);
      } else {
        return;
      }
      if |blocked| == inputCount {
        if !ok {
          return;
        }
        triggers := triggers + [id];
        blocked := {};
        var temp := [];
        for i := 0 to |buffer|
          invariant temp == buffer[..i]
        {
          temp := temp + [buffer[i]];
        }
        output := output + temp;
        buffer := [];
      }
    }

    method BeginNewAlignment(channel: string, id: int)
      modifies this`current, this`blocked
      ensures current == id && blocked == old(blocked) + {channel}
    {
      current := id;
      blocked := blocked + {channel};
    }
  }
}
