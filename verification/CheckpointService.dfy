/** The objects behind the machine of module Checkpoints, with the loops and updates of the source: the table, the
    key-value store with its eviction loop, and the coordinator's event loop. */
module CheckpointService {
  import opened Wrappers
  import opened Sequences
  import opened Checkpoints

  /** The greatest key of a table, zero if it is empty: what opening a table looks up. */
  method Greatest(rows: map<int, Snapshot>) returns (greatest: int)
    ensures greatest == LastKey(rows)
  {
    var keys, found := rows.Keys, false;
    greatest := 0;
    while keys != {}
      invariant forall k :: k in keys ==> k in rows
      invariant found || forall k :: k in rows ==> k in keys
      invariant if found then greatest in rows else greatest == 0
      invariant forall k :: k in rows && k !in keys ==> k <= greatest
      decreases keys
    {
      NonEmpty(keys);
      var k :| k in keys;
      if !found || greatest < k {
        greatest := k;
      }
      found := true;
      keys := keys - {k};
    }
    if !found {
      assert forall k :: k in rows.Keys ==> k in keys;
      NonEmpty(rows.Keys);
      assert rows == map[];
    }
    assert IsLastKey(rows, greatest);
  }

  /** The rows of one rule's table and the last appended key. */
  class SqliteTskv {
    var rows: map<int, Snapshot>
    var last: int

    ghost function Abs(): (t: Table)
      reads this
    {
      Table(rows, last)
    }

    constructor (rows: map<int, Snapshot>)
      ensures Abs() == Table(rows, LastKey(rows))
    {
      var greatest := Greatest(rows);
      this.rows, last := rows, greatest;
    }

    method Append(key: int, value: Snapshot) returns (appended: bool)
      modifies this
      ensures Abs() == Set(old(Abs()), key, value) && appended == (key > old(last))
    {
      appended := key > last;
      if appended {
        rows := rows[key := value];
        last := key;
      }
    }

    method DeleteBefore(k: int)
      modifies this
      ensures Abs() == Checkpoints.DeleteBefore(old(Abs()), k)
    {
      rows := map key | key in rows && key >= k :: rows[key];
    }
  }

  class KVStore {
    const db: SqliteTskv
    var mapStore: map<int, Snapshot>
    var checkpoints: seq<int>

    ghost function Abs(): (s: Store)
      reads this, db
    {
      Store(db.Abs(), mapStore, checkpoints)
    }

    /** Restores the snapshot under the table's last key. */
    constructor (db: SqliteTskv)
      requires db.last == LastKey(db.rows)
      ensures this.db == db && Abs() == Restore(db.rows)
    {
      this.db := db;
      mapStore := map[db.last := if db.last in db.rows then db.rows[db.last] else map[]];
      checkpoints := [db.last];
    }

    method SaveState(id: int, op: string, state: int)
      modifies this
      ensures Abs() == Checkpoints.SaveState(old(Abs()), id, op, state)
    {
      if id !in mapStore {
        mapStore := mapStore[id := map[]];
      }
      mapStore := mapStore[id := mapStore[id][op := state]];
    }

    /** Appends the id, evicts while there are more than three, then writes the row. */
    method SaveCheckpoint(id: int) returns (ok: bool)
      requires |checkpoints| <= 3
      modifies this, db
      ensures ok == Checkpoints.SaveCheckpoint(old(Abs()), id).Some?
      ensures ok ==> Abs() == Checkpoints.SaveCheckpoint(old(Abs()), id).value
      ensures !ok ==> Abs() == old(Abs())
    {
      if id !in mapStore {
        return false;
      }
      var m := mapStore[id];
      Evict(id);
      var appended := db.Append(id, m);
      ok := true;
    }

    /** The eviction loop: only the last three ids stay, and the snapshots of the others go. */
    method Evict(id: int)
      requires |checkpoints| <= 3
      modifies this`checkpoints, this`mapStore
      ensures checkpoints == Last3(old(checkpoints) + [id])
      ensures var evicted := old(checkpoints)[..|old(checkpoints)| + 1 - |checkpoints|];
              mapStore == old(mapStore) - (set x | x in evicted)
    {
      checkpoints := checkpoints + [id];
      ghost var all := checkpoints;
      ghost var n := 0;
      while |checkpoints| > 3
        invariant n <= |all| <= 4 && checkpoints == all[n..] && (n == 0 || |checkpoints| == 3)
        invariant mapStore == old(mapStore) - (set x | x in all[..n])
      {
        var cp := checkpoints[0];
        checkpoints := checkpoints[1..];
        mapStore := mapStore - {cp};
        assert all[..n + 1] == all[..n] + [cp];
        n := n + 1;
      }
      assert all[..n] == old(checkpoints)[..n];
    }

    method GetOpState(op: string) returns (r: Result<Option<int>>)
      ensures r == Checkpoints.GetOpState(Abs(), op)
    {
      if |checkpoints| > 0 {
        var cp := checkpoints[|checkpoints| - 1];
        if cp !in mapStore {
          return Err;
        } else if op in mapStore[cp] {
          return Ok(Some(mapStore[cp][op]));
        }
      }
      return Ok(None);
    }

    method Clean()
      modifies db
      ensures Abs() == Checkpoints.Clean(old(Abs()))
    {
      if |checkpoints| > 0 {
        db.DeleteBefore(checkpoints[0]);
      }
    }
  }

  /** A checkpoint in progress. */
  datatype PendingCheckpoint = PendingCheckpoint(isDiscarded: bool, notYetAckTasks: set<string>)

  class CheckpointCoordinator {
    const tasksToWaitFor: seq<string>
    const store: KVStore
    var pending: map<int, PendingCheckpoint>
    var completed: seq<int>
    var toBeClean: int
    var signals: seq<Signal>  // the channel the responders write to
    ghost var hist: History

    ghost function Tasks(): (r: set<string>) {
      set t | t in tasksToWaitFor
    }

    ghost function Waiting(): (r: map<int, set<string>>)
      reads this
    {
      map id | id in pending :: pending[id].notYetAckTasks
    }

    ghost function Abs(): (s: System)
      reads this, store, store.db
    {
      System(Coordinator(Waiting(), completed, toBeClean), store.Abs(), signals, hist)
    }

    ghost predicate Valid()
      reads this, store
    {
      |completed| <= 3 && |store.checkpoints| <= 3 && forall id :: id in pending ==> !pending[id].isDiscarded
    }

    /** A coordinator on a freshly restored store. */
    constructor (tasks: seq<string>, store: KVStore, ghost hist: History)
      requires store.Abs() == Restore(store.db.rows)
      ensures Valid() && tasksToWaitFor == tasks && this.store == store
      ensures Abs() == System(Coordinator(map[], [], 0), Restore(store.db.rows), [], hist)
    {
      tasksToWaitFor, this.store := tasks, store;
      pending, completed, toBeClean, signals := map[], [], 0, [];
      this.hist := hist;
    }

    method NewPendingCheckpoint() returns (cp: PendingCheckpoint)
      ensures cp == PendingCheckpoint(false, Tasks())
    {
      var waiting := {};
      for i := 0 to |tasksToWaitFor|
        invariant waiting == set t | t in tasksToWaitFor[..i]
      {
        waiting := waiting + {tasksToWaitFor[i]};
      }
      assert tasksToWaitFor[..|tasksToWaitFor|] == tasksToWaitFor;
      cp := PendingCheckpoint(false, waiting);
    }

    method OnTick(id: int)
      requires Valid()
      modifies this, store, store.db
      ensures Valid() && Abs() == Checkpoints.OnTick(Tasks(), old(Abs()), id)
    {
      var cp := NewPendingCheckpoint();
      pending := pending[id := cp];
      assert Waiting() == old(Waiting())[id := Tasks()];
      hist := hist.(lastTick := id);
      toBeClean := toBeClean + 1;
      if toBeClean >= CLEAN_THRESHOLD {
        store.Clean();
        toBeClean := 0;
      }
    }

    method Cancel(id: int)
      requires Valid()
      modifies this
      ensures Valid() && Abs() == OnCancel(old(Abs()), id)
    {
      if id in pending {
        pending := pending - {id};
        hist := hist.(cancelled := hist.cancelled + {id});
        assert Waiting() == old(Waiting()) - {id};
      }
    }

    /** Drops a completed checkpoint and the older ones in progress. */
    method DropUpTo(id: int)
      requires Valid()
      modifies this`pending
      ensures Valid() && Waiting() == map cid | cid in old(Waiting()) && cid > id :: old(Waiting())[cid]
    {
      pending := pending - {id};
      var keys := pending.Keys;
      while keys != {}
        invariant forall cid :: cid in keys ==> cid in pending
        invariant forall cid :: cid in pending ==> cid != id && cid in old(pending) && pending[cid] == old(pending)[cid]
        invariant forall cid :: cid in old(pending) && cid > id ==> cid in pending
        invariant forall cid :: cid in pending && cid !in keys ==> cid > id
        decreases keys
      {
        NonEmpty(keys);
        var cid :| cid in keys;
        keys := keys - {cid};
        if cid < id {
          pending := pending - {cid};
        }
      }
      assert forall cid :: cid in pending <==> cid in old(pending) && cid > id;
    }

    /** checkpointStore.add: keeps at most three. */
    method Remember(id: int)
      requires |completed| <= 3
      modifies this`completed
      ensures |completed| <= 3 && completed == Last3(old(completed) + [id])
    {
      completed := completed + [id];
      if |completed| > 3 {
        completed := completed[1..];
      }
    }

    method Complete(id: int)
      requires Valid() && id in pending
      modifies this, store, store.db
      ensures Valid() && Abs() == OnComplete(old(Abs()), id)
    {
      var ok := store.SaveCheckpoint(id);
      if ok {
        hist := hist.(done := hist.done + [id], archive := hist.archive[id := Read(hist.saved, id)]);
        Remember(id);
        DropUpTo(id);
      }
    }

    method OnAck(id: int, op: string)
      requires Valid()
      modifies this, store, store.db
      ensures Valid() && Abs() == Checkpoints.OnAck(old(Abs()), id, op)
    {
      if id in pending {
        var cp := pending[id];
        if !cp.isDiscarded {
          cp := cp.(notYetAckTasks := cp.notYetAckTasks - {op});
        }
        pending := pending[id := cp];
        assert Waiting() == old(Waiting())[id := cp.notYetAckTasks];
        hist := hist.(acked := hist.acked + {(id, op)});
        if |cp.notYetAckTasks| == 0 {
          Complete(id);
        }
      }
    }

    /** The responder of a task: save the snapshot for the checkpoint, then signal the outcome. */
    method Respond(id: int, op: string, state: int, ok: bool)
      requires Valid()
      modifies this, store
      ensures Valid()
      ensures Abs() == Step(Tasks(), old(Abs()), if ok then Save(id, op, state) else SaveFails(id, op))
    {
      if ok {
        store.SaveState(id, op, state);
        hist := hist.(saved := hist.saved[id := Read(hist.saved, id)[op := state]]);
        signals := signals + [Ack(id, op)];
      } else {
        signals := signals + [Dec(id, op)];
      }
    }

    /** The next signal in the event loop. */
    method OnSignal()
      requires Valid()
      modifies this, store, store.db
      ensures Valid() && Abs() == Step(Tasks(), old(Abs()), Deliver)
    {
      if signals != [] {
        var signal := signals[0];
        signals := signals[1..];
        match signal
        case Ack(id, op) => OnAck(id, op);
        case Dec(id, op) => Cancel(id);
      }
    }
  }
}
