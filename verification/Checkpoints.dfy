/** The checkpoint coordinator with its storage: internal/topo/checkpoint/coordinator.go, the signals of
    internal/topo/checkpoint/responder.go, internal/topo/state/kv_store.go and internal/pkg/tskv/sqlite.go, as one
    machine whose steps interleave freely. */
module Checkpoints {
  import opened Wrappers
  import opened Sequences

  /** The states saved for one checkpoint, by task. */
  type Snapshot = map<string, int>

  /** The last three elements. */
  function Last3<T>(s: seq<T>): (r: seq<T>) {
    if |s| <= 3 then s else s[|s| - 3..]
  }

  // ----- the table: tskv/sqlite.go

  datatype Table = Table(rows: map<int, Snapshot>, last: int)

  /** The greatest key, zero for an empty table. */
  ghost predicate IsLastKey(rows: map<int, Snapshot>, k: int) {
    if rows == map[] then k == 0 else k in rows && forall k' :: k' in rows ==> k' <= k
  }

  lemma {:induction false} LastKeyExists(keys: set<int>) returns (k: int)
    requires keys != {}
    ensures k in keys && forall k' :: k' in keys ==> k' <= k
    decreases keys
  {
    NonEmpty(keys);
    var x :| x in keys;
    var rest := keys - {x};
    assert forall k' :: k' in keys ==> k' in rest || k' == x;
    if rest == {} {
      k := x;
    } else {
      k := LastKeyExists(rest);
      k := if k < x then x else k;
    }
  }

  ghost function LastKey(rows: map<int, Snapshot>): (k: int)
    ensures IsLastKey(rows, k)
  {
    if rows == map[] then 0
    else
      assert exists k :: k in rows && forall k' :: k' in rows ==> k' <= k by {
        assert rows.Keys != {};
        var k := LastKeyExists(rows.Keys);
      }
      var k :| k in rows && forall k' :: k' in rows ==> k' <= k;
      k
  }

  /** Only a key above the last one is appended. */
  function Set(t: Table, key: int, value: Snapshot): (r: Table) {
    if key > t.last then Table(t.rows[key := value], key) else t
  }

  function DeleteBefore(t: Table, k: int): (r: Table) {
    t.(rows := map key | key in t.rows && key >= k :: t.rows[key])
  }

  // ----- the store: state/kv_store.go

  datatype Store = Store(table: Table, mapStore: map<int, Snapshot>, checkpoints: seq<int>)

  function Read(m: map<int, Snapshot>, id: int): (s: Snapshot) {
    if id in m then m[id] else map[]
  }

  /** Opening a table and restoring the last checkpoint in it. */
  ghost function Restore(rows: map<int, Snapshot>): (s: Store) {
    var last := LastKey(rows);
    Store(Table(rows, last), map[last := Read(rows, last)], [last])
  }

  function SaveState(s: Store, id: int, op: string, state: int): (r: Store) {
    s.(mapStore := s.mapStore[id := Read(s.mapStore, id)[op := state]])
  }

  /** Appends the id, evicts the oldest beyond three, and writes the snapshot. None if nothing was saved for the id. */
  function SaveCheckpoint(s: Store, id: int): (r: Option<Store>) {
    if id !in s.mapStore then None
    else
      var kept := Last3(s.checkpoints + [id]);
      var evicted := s.checkpoints[..|s.checkpoints| + 1 - |kept|];
      Some(Store(Set(s.table, id, s.mapStore[id]), s.mapStore - (set x | x in evicted), kept))
  }

  /** An error if nothing is in memory for the last remembered checkpoint. */
  function GetOpState(s: Store, op: string): (r: Result<Option<int>>) {
    if s.checkpoints == [] then Ok(None)
    else
      var last := s.checkpoints[|s.checkpoints| - 1];
      if last !in s.mapStore then Err
      else if op in s.mapStore[last] then Ok(Some(s.mapStore[last][op])) else Ok(None)
  }

  function Clean(s: Store): (r: Store) {
    if s.checkpoints == [] then s else s.(table := DeleteBefore(s.table, s.checkpoints[0]))
  }

  // ----- the coordinator: checkpoint/coordinator.go

  const CLEAN_THRESHOLD := 100

  /** The checkpoints in progress, each with the tasks it still waits for, and the last completed ids. */
  datatype Coordinator = Coordinator(pending: map<int, set<string>>, completed: seq<int>, toBeClean: int)

  datatype Signal = Ack(id: int, op: string) | Dec(id: int, op: string)

  function Cancel(c: Coordinator, id: int): (r: Coordinator) {
    c.(pending := c.pending - {id})
  }

  /** Completing drops this checkpoint and every older one in progress. */
  function Finish(c: Coordinator, id: int): (r: Coordinator) {
    c.(completed := Last3(c.completed + [id]),
       pending := map cid | cid in c.pending && cid > id :: c.pending[cid])
  }

  // ----- the system

  /** What happened so far. `saved` holds the last state every task saved for a checkpoint since the last restart,
      `acked` the acknowledgements counted, `done` all completed ids and `archive` what was saved for each of them at
      its completion; `since` is the number of checkpoints completed before the last restart. */
  datatype History = History(
    lastTick: int, saved: map<int, Snapshot>, acked: set<(int, string)>, cancelled: set<int>,
    done: seq<int>, since: nat, archive: map<int, Snapshot>)

  datatype System = System(coord: Coordinator, store: Store, signals: seq<Signal>, hist: History)

  /** A tick of the coordinator, a task saving its state or failing to, a source that could not be triggered, the next
      signal reaching the coordinator, a clean-up, and a restart of the rule. */
  datatype Event =
    | Tick(id: int)
    | Save(id: int, op: string, state: int)
    | SaveFails(id: int, op: string)
    | TriggerFails(id: int)
    | Deliver
    | CleanUp
    | Restart

  ghost function Init(): (s: System) {
    System(Coordinator(map[], [], 0), Restore(map[]), [],
           History(0, map[], {}, {}, [], 0, map[]))
  }

  function OnTick(tasks: set<string>, s: System, id: int): (r: System) {
    var clean := s.coord.toBeClean + 1 >= CLEAN_THRESHOLD;
    s.(coord := s.coord.(pending := s.coord.pending[id := tasks],
                         toBeClean := if clean then 0 else s.coord.toBeClean + 1),
       store := if clean then Clean(s.store) else s.store,
       hist := s.hist.(lastTick := id))
  }

  function OnSave(s: System, id: int, op: string, state: int): (r: System) {
    s.(store := SaveState(s.store, id, op, state),
       signals := s.signals + [Ack(id, op)],
       hist := s.hist.(saved := s.hist.saved[id := Read(s.hist.saved, id)[op := state]]))
  }

  function OnCancel(s: System, id: int): (r: System) {
    if id in s.coord.pending then
      s.(coord := Cancel(s.coord, id), hist := s.hist.(cancelled := s.hist.cancelled + {id}))
    else s
  }

  function OnComplete(s: System, id: int): (r: System) {
    match SaveCheckpoint(s.store, id)
    case None => s
    case Some(store) =>
      s.(coord := Finish(s.coord, id), store := store,
         hist := s.hist.(done := s.hist.done + [id], archive := s.hist.archive[id := Read(s.hist.saved, id)]))
  }

  function OnAck(s: System, id: int, op: string): (r: System) {
    if id !in s.coord.pending then s
    else
      var waiting := s.coord.pending[id] - {op};
      var s1 := s.(coord := s.coord.(pending := s.coord.pending[id := waiting]),
                   hist := s.hist.(acked := s.hist.acked + {(id, op)}));
      if waiting == {} then OnComplete(s1, id) else s1
  }

  ghost function OnRestart(s: System): (r: System) {
    System(Coordinator(map[], [], 0), Restore(s.store.table.rows), [],
           s.hist.(saved := map[], acked := {}, since := |s.hist.done|))
  }

  ghost function Step(tasks: set<string>, s: System, e: Event): (r: System) {
    match e
    case Tick(id) => OnTick(tasks, s, id)
    case Save(id, op, state) => OnSave(s, id, op, state)
    case SaveFails(id, op) => s.(signals := s.signals + [Dec(id, op)])
    case TriggerFails(id) => OnCancel(s, id)
    case Deliver =>
      if s.signals == [] then s
      else
        var s1 := s.(signals := s.signals[1..]);
        (match s.signals[0]
         case Ack(id, op) => OnAck(s1, id, op)
         case Dec(id, _) => OnCancel(s1, id))
    case CleanUp => s.(store := Clean(s.store))
    case Restart => OnRestart(s)
  }

  ghost function Run(tasks: set<string>, events: seq<Event>): (s: System) {
    if events == [] then Init() else Step(tasks, Run(tasks, events[..|events| - 1]), events[|events| - 1])
  }

  /** Tick times are positive and increase over the whole run, restarts included. */
  ghost predicate TicksIncrease(tasks: set<string>, events: seq<Event>) {
    events != [] ==>
      var n := |events| - 1;
      TicksIncrease(tasks, events[..n]) && (events[n].Tick? ==> events[n].id > Run(tasks, events[..n]).hist.lastTick)
  }

  // ----- the invariant

  /** The last completed id, zero before the first. */
  function LastDone(h: History): (id: int) {
    if h.done == [] then 0 else h.done[|h.done| - 1]
  }

  ghost predicate HistoryOk(h: History) {
    && 0 <= LastDone(h) <= h.lastTick
    && (forall i, j :: 0 <= i < j < |h.done| ==> h.done[i] < h.done[j])
    && (forall id :: id in h.done ==> 0 < id && id !in h.cancelled)
    && (forall id :: id in h.cancelled ==> id <= h.lastTick)
    && h.since <= |h.done|
  }

  /** Coordinator safety. */
  ghost predicate CoordOk(tasks: set<string>, s: System)
    requires s.hist.since <= |s.hist.done|
  {
    // every checkpoint in progress is younger than the last completed one and was not cancelled
    && (forall id :: id in s.coord.pending ==> LastDone(s.hist) < id <= s.hist.lastTick && id !in s.hist.cancelled)
    // and it waits for exactly the tasks that did not acknowledge it
    && (forall id, t :: id in s.coord.pending ==>
          (t in s.coord.pending[id] <==> t in tasks && (id, t) !in s.hist.acked))
    && s.coord.completed == Last3(s.hist.done[s.hist.since..])
    // acknowledgements are only for ids that were ticked
    && (forall id, t :: (id, t) in s.hist.acked ==> id <= s.hist.lastTick)
  }

  /** An acknowledgement, under way or counted, is for a state that was saved. */
  ghost predicate AcksSaved(s: System) {
    && (forall i :: 0 <= i < |s.signals| && s.signals[i].Ack? ==>
          s.signals[i].op in Read(s.hist.saved, s.signals[i].id))
    && (forall id, t :: (id, t) in s.hist.acked ==> t in Read(s.hist.saved, id))
  }

  /** The ids the store remembers: what it restored at the last restart, and what was completed since. */
  function Chain(h: History): (r: seq<int>)
    requires h.since <= |h.done|
  {
    [if h.since == 0 then 0 else h.done[h.since - 1]] + h.done[h.since..]
  }

  ghost predicate StoreOk(s: System)
    requires s.hist.since <= |s.hist.done|
  {
    && s.store.checkpoints == Last3(Chain(s.hist))
    // what tasks saved for a checkpoint in progress is in memory unchanged
    && (forall id :: LastDone(s.hist) < id ==> Read(s.store.mapStore, id) == Read(s.hist.saved, id))
    && (forall id :: LastDone(s.hist) < id ==> (id in s.store.mapStore <==> id in s.hist.saved))
  }

  ghost predicate TableOk(s: System)
    requires s.hist.since <= |s.hist.done|
  {
    && s.store.table.last == LastDone(s.hist)
    // rows are never lost from the last remembered ids, and a row is what was saved at completion
    && (forall id :: id in s.store.table.rows ==> id in s.hist.done)
    && (forall id :: id in Last3(Chain(s.hist)) && 0 < id ==> id in s.store.table.rows)
    && (forall id :: id in s.store.table.rows ==> id in s.hist.archive && s.store.table.rows[id] == s.hist.archive[id])
  }

  /** What was completed has an entry for every task. */
  ghost predicate ArchiveOk(tasks: set<string>, s: System) {
    forall id :: id in s.hist.done ==> id in s.hist.archive && tasks <= s.hist.archive[id].Keys
  }

  ghost predicate Inv(tasks: set<string>, s: System) {
    HistoryOk(s.hist) && CoordOk(tasks, s) && AcksSaved(s) && StoreOk(s) && TableOk(s) && ArchiveOk(tasks, s)
  }

  // ----- sequences

  lemma Last3Append<T>(s: seq<T>, x: T)
    ensures Last3(Last3(s) + [x]) == Last3(s + [x])
  {}

  lemma Last3Subset<T>(s: seq<T>, x: T)
    requires x in Last3(s)
    ensures x in s
  {}

  lemma ChainStep(h: History, id: int)
    requires h.since <= |h.done|
    ensures Chain(h.(done := h.done + [id])) == Chain(h) + [id]
  {
    assert (h.done + [id])[h.since..] == h.done[h.since..] + [id];
  }

  /** The remembered ids increase, and the last one is the last completed id. */
  lemma ChainIncreases(h: History)
    requires HistoryOk(h)
    ensures var c := Chain(h);
            && c[|c| - 1] == LastDone(h)
            && (forall i, j :: 0 <= i < j < |c| ==> c[i] < c[j])
            && (forall id :: id in c && 0 < id ==> id in h.done)
  {
    var c := Chain(h);
    forall i | 0 <= i < |c| ensures c[i] == if h.since + i == 0 then 0 else h.done[h.since + i - 1] {}
    assert h.since + |c| - 1 == |h.done|;
    forall i | 0 <= i < |h.done| ensures h.done[i] in h.done {}
  }

  // ----- every step keeps the invariant

  lemma CleanKeeps(tasks: set<string>, s: System)
    requires Inv(tasks, s)
    ensures Inv(tasks, s.(store := Clean(s.store)))
  {
    ChainIncreases(s.hist);
    var c := Chain(s.hist);
    forall id | id in Last3(c) ensures s.store.checkpoints[0] <= id {}
  }

  lemma TickKeeps(tasks: set<string>, s: System, id: int)
    requires Inv(tasks, s) && id > s.hist.lastTick
    ensures Inv(tasks, OnTick(tasks, s, id))
  {
    CleanKeeps(tasks, s);
    TickCoordOk(tasks, s, id);
    var r := OnTick(tasks, s, id);
    assert Chain(r.hist) == Chain(s.hist);
    assert StoreOk(r) && TableOk(r) && ArchiveOk(tasks, r);
  }

  lemma TickCoordOk(tasks: set<string>, s: System, id: int)
    requires HistoryOk(s.hist) && CoordOk(tasks, s) && id > s.hist.lastTick
    ensures HistoryOk(OnTick(tasks, s, id).hist) && CoordOk(tasks, OnTick(tasks, s, id))
  {
    assert forall t :: (id, t) !in s.hist.acked;
  }

  lemma SaveStoreOk(s: System, id: int, op: string, state: int)
    requires HistoryOk(s.hist) && StoreOk(s)
    ensures StoreOk(OnSave(s, id, op, state))
  {
    var r := OnSave(s, id, op, state);
    forall i | LastDone(s.hist) < i
      ensures Read(r.store.mapStore, i) == Read(r.hist.saved, i)
      ensures i in r.store.mapStore <==> i in r.hist.saved
    {
      assert Read(s.store.mapStore, i) == Read(s.hist.saved, i);
    }
  }

  lemma SaveAcksOk(s: System, id: int, op: string, state: int)
    requires AcksSaved(s)
    ensures AcksSaved(OnSave(s, id, op, state))
  {
    var r := OnSave(s, id, op, state);
    forall i, t | t in Read(s.hist.saved, i) ensures t in Read(r.hist.saved, i) {}
  }

  lemma SaveKeeps(tasks: set<string>, s: System, id: int, op: string, state: int)
    requires Inv(tasks, s)
    ensures Inv(tasks, OnSave(s, id, op, state))
  {
    SaveStoreOk(s, id, op, state);
    SaveAcksOk(s, id, op, state);
    var r := OnSave(s, id, op, state);
    assert HistoryOk(r.hist) && CoordOk(tasks, r);
    assert Chain(r.hist) == Chain(s.hist) && r.store.table == s.store.table;
    assert TableOk(r) && ArchiveOk(tasks, r);
  }

  lemma SaveFailsKeeps(tasks: set<string>, s: System, id: int, op: string)
    requires Inv(tasks, s)
    ensures Inv(tasks, s.(signals := s.signals + [Dec(id, op)]))
  {}

  lemma DoneUpToLast(h: History)
    requires HistoryOk(h)
    ensures forall id :: id in h.done ==> id <= LastDone(h)
  {}

  lemma CancelKeeps(tasks: set<string>, s: System, id: int)
    requires Inv(tasks, s)
    ensures Inv(tasks, OnCancel(s, id))
  {
    if id in s.coord.pending {
      CancelCoordOk(tasks, s, id);
      CancelOthersOk(tasks, s, id);
    }
  }

  /** Cancelling touches the coordinator only. */
  lemma CancelOthersOk(tasks: set<string>, s: System, id: int)
    requires s.hist.since <= |s.hist.done| && AcksSaved(s) && StoreOk(s) && TableOk(s) && ArchiveOk(tasks, s)
    ensures var r := OnCancel(s, id);
            r.hist.since <= |r.hist.done| && AcksSaved(r) && StoreOk(r) && TableOk(r) && ArchiveOk(tasks, r)
  {
    var r := OnCancel(s, id);
    assert r.store == s.store && r.signals == s.signals && r.hist.saved == s.hist.saved && r.hist.acked == s.hist.acked;
    assert r.hist.done == s.hist.done && r.hist.since == s.hist.since && r.hist.archive == s.hist.archive;
  }

  lemma CancelCoordOk(tasks: set<string>, s: System, id: int)
    requires HistoryOk(s.hist) && CoordOk(tasks, s) && id in s.coord.pending
    ensures HistoryOk(OnCancel(s, id).hist) && CoordOk(tasks, OnCancel(s, id))
  {
    DoneUpToLast(s.hist);
  }

  /** Reopening the table finds the last completed checkpoint. */
  lemma TableFindsLast(tasks: set<string>, s: System)
    requires Inv(tasks, s)
    ensures LastKey(s.store.table.rows) == LastDone(s.hist)
    ensures s.hist.done != [] ==> LastDone(s.hist) in s.store.table.rows
  {
    ChainIncreases(s.hist);
    DoneUpToLast(s.hist);
    var c := Chain(s.hist);
    assert c[|c| - 1] in Last3(c);
    if s.hist.done != [] {
      assert LastDone(s.hist) in s.hist.done;
    }
  }

  lemma RestartKeeps(tasks: set<string>, s: System)
    requires Inv(tasks, s)
    ensures Inv(tasks, OnRestart(s))
  {
    TableFindsLast(tasks, s);
    var r := OnRestart(s);
    assert r.hist.done[r.hist.since..] == [];
    assert Chain(r.hist) == [LastDone(s.hist)];
  }

  // ----- completion

  /** Everything completion needs to know about the id. */
  ghost predicate Ready(tasks: set<string>, s: System, id: int) {
    && id in s.coord.pending && id in s.hist.saved
    && forall t :: t in tasks ==> t in s.hist.saved[id]
  }

  lemma CompleteHistory(h: History, id: int, snapshot: Snapshot)
    requires HistoryOk(h) && LastDone(h) < id <= h.lastTick && id !in h.cancelled
    ensures HistoryOk(h.(done := h.done + [id], archive := h.archive[id := snapshot]))
    ensures LastDone(h.(done := h.done + [id], archive := h.archive[id := snapshot])) == id
  {
    DoneUpToLast(h);
    forall i | 0 <= i < |h.done| ensures h.done[i] < id {
      assert h.done[i] in h.done;
    }
  }

  /** Eviction only touches remembered ids. */
  lemma SaveCheckpointEvicts(s: Store, id: int, x: int)
    requires id in s.mapStore && forall k :: k in s.checkpoints ==> k < x
    ensures var r := SaveCheckpoint(s, id).value;
            (x in r.mapStore <==> x in s.mapStore) && Read(r.mapStore, x) == Read(s.mapStore, x)
  {
    var kept := Last3(s.checkpoints + [id]);
    var evicted := s.checkpoints[..|s.checkpoints| + 1 - |kept|];
    assert forall k :: k in evicted ==> k in s.checkpoints;
  }

  lemma CompleteReady(tasks: set<string>, s: System, id: int)
    requires Inv(tasks, s) && Ready(tasks, s, id)
    ensures LastDone(s.hist) < id && id in s.store.mapStore && s.store.mapStore[id] == s.hist.saved[id]
    ensures HistoryOk(OnComplete(s, id).hist) && LastDone(OnComplete(s, id).hist) == id
  {
    assert Read(s.store.mapStore, id) == Read(s.hist.saved, id);
    CompleteHistory(s.hist, id, Read(s.hist.saved, id));
  }

  lemma CompleteRemembered(s: System, id: int)
    requires HistoryOk(s.hist) && s.store.checkpoints == Last3(Chain(s.hist)) && id in s.store.mapStore
    ensures OnComplete(s, id).hist.since <= |OnComplete(s, id).hist.done|
    ensures OnComplete(s, id).store.checkpoints == Last3(Chain(OnComplete(s, id).hist))
  {
    ChainStep(s.hist, id);
    Last3Append(Chain(s.hist), id);
    assert Chain(OnComplete(s, id).hist) == Chain(s.hist.(done := s.hist.done + [id]));
  }

  lemma CompleteMemory(s: System, id: int, x: int)
    requires HistoryOk(s.hist) && StoreOk(s) && LastDone(s.hist) < id < x && id in s.store.mapStore
    ensures var r := OnComplete(s, id);
            Read(r.store.mapStore, x) == Read(s.hist.saved, x) && (x in r.store.mapStore <==> x in s.hist.saved)
  {
    ChainIncreases(s.hist);
    forall k | k in s.store.checkpoints ensures k < x {
      Last3Subset(Chain(s.hist), k);
    }
    SaveCheckpointEvicts(s.store, id, x);
    assert Read(s.store.mapStore, x) == Read(s.hist.saved, x);
  }

  lemma CompleteStore(tasks: set<string>, s: System, id: int)
    requires Inv(tasks, s) && Ready(tasks, s, id)
    ensures id in s.store.mapStore && s.store.mapStore[id] == s.hist.saved[id]
    ensures HistoryOk(OnComplete(s, id).hist) && StoreOk(OnComplete(s, id))
  {
    CompleteReady(tasks, s, id);
    CompleteRemembered(s, id);
    var r := OnComplete(s, id);
    forall x | id < x
      ensures Read(r.store.mapStore, x) == Read(r.hist.saved, x)
      ensures x in r.store.mapStore <==> x in r.hist.saved
    {
      CompleteMemory(s, id, x);
    }
  }

  lemma CompleteRows(s: System, id: int)
    requires HistoryOk(s.hist) && TableOk(s) && LastDone(s.hist) < id && id in s.store.mapStore
    requires id in s.hist.saved && s.store.mapStore[id] == s.hist.saved[id] && HistoryOk(OnComplete(s, id).hist)
    ensures TableOk(OnComplete(s, id))
  {
    var r := OnComplete(s, id);
    DoneUpToLast(s.hist);
    ChainStep(s.hist, id);
    assert Chain(r.hist) == Chain(s.hist) + [id];
    assert r.store.table == Table(s.store.table.rows[id := s.hist.saved[id]], id);
    forall x | x in Last3(Chain(r.hist)) && 0 < x ensures x in r.store.table.rows {
      assert x in Last3(Chain(s.hist)) || x == id;
    }
  }

  lemma CompleteTable(tasks: set<string>, s: System, id: int)
    requires Inv(tasks, s) && Ready(tasks, s, id) && LastDone(s.hist) < id
    requires id in s.store.mapStore && s.store.mapStore[id] == s.hist.saved[id] && HistoryOk(OnComplete(s, id).hist)
    ensures TableOk(OnComplete(s, id)) && ArchiveOk(tasks, OnComplete(s, id))
  {
    CompleteRows(s, id);
    DoneUpToLast(s.hist);
  }

  lemma CompleteCoord(tasks: set<string>, s: System, id: int)
    requires Inv(tasks, s) && Ready(tasks, s, id)
    requires id in s.store.mapStore && HistoryOk(OnComplete(s, id).hist)
    ensures CoordOk(tasks, OnComplete(s, id)) && AcksSaved(OnComplete(s, id))
  {
    var r := OnComplete(s, id);
    assert r.hist.done[r.hist.since..] == s.hist.done[s.hist.since..] + [id];
    Last3Append(s.hist.done[s.hist.since..], id);
  }

  lemma CompleteKeeps(tasks: set<string>, s: System, id: int)
    requires Inv(tasks, s) && Ready(tasks, s, id)
    ensures id in s.store.mapStore && Inv(tasks, OnComplete(s, id))
  {
    CompleteStore(tasks, s, id);
    CompleteReady(tasks, s, id);
    CompleteTable(tasks, s, id);
    CompleteCoord(tasks, s, id);
  }

  /** The state after counting an acknowledgement, before a possible completion. */
  function Counted(s: System, id: int, op: string): (r: System)
    requires id in s.coord.pending
  {
    s.(coord := s.coord.(pending := s.coord.pending[id := s.coord.pending[id] - {op}]),
       hist := s.hist.(acked := s.hist.acked + {(id, op)}))
  }

  lemma CountedKeeps(tasks: set<string>, s: System, id: int, op: string)
    requires Inv(tasks, s) && id in s.coord.pending && op in Read(s.hist.saved, id)
    ensures Inv(tasks, Counted(s, id, op))
  {
    CountedCoordOk(tasks, s, id, op);
    var r := Counted(s, id, op);
    assert Chain(r.hist) == Chain(s.hist);
    assert AcksSaved(r) && StoreOk(r) && TableOk(r) && ArchiveOk(tasks, r);
  }

  lemma CountedCoordOk(tasks: set<string>, s: System, id: int, op: string)
    requires HistoryOk(s.hist) && CoordOk(tasks, s) && id in s.coord.pending
    ensures HistoryOk(Counted(s, id, op).hist) && CoordOk(tasks, Counted(s, id, op))
  {
  }

  lemma AckKeeps(tasks: set<string>, s: System, id: int, op: string)
    requires Inv(tasks, s) && op in Read(s.hist.saved, id)
    ensures Inv(tasks, OnAck(s, id, op))
  {
    if id in s.coord.pending {
      CountedKeeps(tasks, s, id, op);
      var s1 := Counted(s, id, op);
      if s1.coord.pending[id] == {} {
        forall t | t in tasks ensures t in s1.hist.saved[id] {
          assert t !in s1.coord.pending[id];
          assert (id, t) in s1.hist.acked;
        }
        CompleteKeeps(tasks, s1, id);
      }
    }
  }

  lemma ReceiveKeeps(tasks: set<string>, s: System)
    requires Inv(tasks, s) && s.signals != []
    ensures Inv(tasks, s.(signals := s.signals[1..]))
    ensures s.signals[0].Ack? ==> s.signals[0].op in Read(s.hist.saved, s.signals[0].id)
  {}

  lemma DeliverKeeps(tasks: set<string>, s: System)
    requires Inv(tasks, s)
    ensures Inv(tasks, Step(tasks, s, Deliver))
  {
    if s.signals != [] {
      var s1 := s.(signals := s.signals[1..]);
      ReceiveKeeps(tasks, s);
      match s.signals[0]
      case Ack(id, op) => AckKeeps(tasks, s1, id, op);
      case Dec(id, op) => CancelKeeps(tasks, s1, id);
    }
  }

  lemma StepKeeps(tasks: set<string>, s: System, e: Event)
    requires Inv(tasks, s) && (e.Tick? ==> e.id > s.hist.lastTick)
    ensures Inv(tasks, Step(tasks, s, e))
  {
    match e
    case Tick(id) => TickKeeps(tasks, s, id);
    case Save(id, op, state) => SaveKeeps(tasks, s, id, op, state);
    case SaveFails(id, op) => SaveFailsKeeps(tasks, s, id, op);
    case TriggerFails(id) => CancelKeeps(tasks, s, id);
    case Deliver => DeliverKeeps(tasks, s);
    case CleanUp => CleanKeeps(tasks, s);
    case Restart => RestartKeeps(tasks, s);
  }

  lemma {:induction false} RunKeeps(tasks: set<string>, events: seq<Event>)
    requires TicksIncrease(tasks, events)
    ensures Inv(tasks, Run(tasks, events))
  {
    if events == [] {
      assert LastKey(map[]) == 0;
      assert Chain(Init().hist) == [0];
    } else {
      var n := |events| - 1;
      RunKeeps(tasks, events[..n]);
      StepKeeps(tasks, Run(tasks, events[..n]), events[n]);
    }
  }

  // ----- what follows for every run

  /** Coordinator safety: completed ids strictly increase and were never cancelled, every checkpoint in progress is
      younger than the last completed one, and the coordinator remembers the last three it completed. */
  lemma CoordinatorIsSafe(tasks: set<string>, events: seq<Event>)
    requires TicksIncrease(tasks, events)
    ensures var s := Run(tasks, events);
            && (forall i, j :: 0 <= i < j < |s.hist.done| ==> s.hist.done[i] < s.hist.done[j])
            && (forall id :: id in s.hist.done ==> id !in s.hist.cancelled)
            && (forall id :: id in s.coord.pending ==> LastDone(s.hist) < id)
            && s.hist.since <= |s.hist.done|
            && s.coord.completed == Last3(s.hist.done[s.hist.since..])
  {
    RunKeeps(tasks, events);
  }

  /** Only the acknowledgement of the last awaited task completes a checkpoint, and completing writes the row. */
  lemma AckCompletes(tasks: set<string>, s: System, id: int, op: string)
    requires Inv(tasks, s) && op in Read(s.hist.saved, id) && OnAck(s, id, op).hist.done != s.hist.done
    ensures var r := OnAck(s, id, op);
            && r.hist.done == s.hist.done + [id]
            && (forall t :: t in tasks ==> t == op || (id, t) in s.hist.acked)
            && id in r.store.table.rows && r.store.table.rows[id] == Read(s.hist.saved, id)
            && forall t :: t in tasks ==> t in r.store.table.rows[id]
  {
    CountedKeeps(tasks, s, id, op);
    var s1 := Counted(s, id, op);
    assert OnAck(s, id, op) == OnComplete(s1, id);
    assert Read(s1.store.mapStore, id) == Read(s1.hist.saved, id);
    forall t | t in tasks ensures t == op || (id, t) in s.hist.acked {
      assert t !in s1.coord.pending[id];
    }
  }

  /** A step that completes a checkpoint is the delivery of the last acknowledgement it waited for, and in that step
      the row is written: the guard on increasing keys does not drop it, and it has an entry for every task. */
  lemma CompletionIsDurable(tasks: set<string>, events: seq<Event>, e: Event)
    requires TicksIncrease(tasks, events)
    requires Step(tasks, Run(tasks, events), e).hist.done != Run(tasks, events).hist.done
    ensures var s, r := Run(tasks, events), Step(tasks, Run(tasks, events), e);
            && e.Deliver? && s.signals != [] && s.signals[0].Ack?
            && var id, op := s.signals[0].id, s.signals[0].op;
               && r.hist.done == s.hist.done + [id]
               && (forall t :: t in tasks ==> t == op || (id, t) in s.hist.acked)
               && id in r.store.table.rows && r.store.table.rows[id] == Read(s.hist.saved, id)
               && forall t :: t in tasks ==> t in r.store.table.rows[id]
  {
    RunKeeps(tasks, events);
    var s := Run(tasks, events);
    OnlyAcksComplete(tasks, s, e);
    ReceiveKeeps(tasks, s);
    AckCompletes(tasks, s.(signals := s.signals[1..]), s.signals[0].id, s.signals[0].op);
  }

  lemma OnlyAcksComplete(tasks: set<string>, s: System, e: Event)
    requires Step(tasks, s, e).hist.done != s.hist.done
    ensures e.Deliver? && s.signals != [] && s.signals[0].Ack?
    ensures Step(tasks, s, e) == OnAck(s.(signals := s.signals[1..]), s.signals[0].id, s.signals[0].op)
  {}

  /** Durability: after any run, a restart restores exactly the last completed checkpoint, with an entry for every
      task that is what the task had saved when the checkpoint completed. */
  lemma RestartRestoresLastCompleted(tasks: set<string>, events: seq<Event>, op: string)
    requires TicksIncrease(tasks, events)
    ensures var s := Run(tasks, events);
            var r := Step(tasks, s, Restart);
            && r.store.checkpoints == [LastDone(s.hist)]
            && (s.hist.done == [] ==> GetOpState(r.store, op) == Ok(None))
            && (s.hist.done != [] ==>
                  && LastDone(s.hist) in s.hist.archive && tasks <= s.hist.archive[LastDone(s.hist)].Keys
                  && var a := s.hist.archive[LastDone(s.hist)];
                     GetOpState(r.store, op) == Ok(if op in a then Some(a[op]) else None))
  {
    RunKeeps(tasks, events);
    var s := Run(tasks, events);
    TableFindsLast(tasks, s);
    if s.hist.done != [] {
      assert LastDone(s.hist) in s.hist.done;
    } else {
      assert s.store.table.rows == map[];
    }
  }
}
