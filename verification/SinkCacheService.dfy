/** The objects of internal/topo/node/sink_cache.go, step by step against the model of their runs. */
module SinkCacheService {
  import opened Wrappers
  import opened SinkCache

  class LinkedQueue<T> {
    var data: map<nat, T>
    var tail: nat

    ghost function Value(): (q: Queue<T>)
      reads this
    {
      Queue(data, tail)
    }

    constructor (q: Queue<T>)
      ensures Value() == q
    {
      data, tail := q.data, q.tail;
    }

    method Append(item: T)
      modifies this
      ensures Value() == SinkCache.Append(old(Value()), item)
    {
      data := data[tail := item];
      tail := tail + 1;
    }

    method Delete(index: nat)
      modifies this
      ensures Value() == SinkCache.Delete(old(Value()), index)
    {
      data := data - {index};
    }

    method Reset()
      modifies this
      ensures Value() == old(Value()).(tail := 0)
    {
      tail := 0;
    }

    /** A copy that later steps do not change. */
    method Clone() returns (result: LinkedQueue<T>)
      ensures fresh(result) && result.Value() == Value()
    {
      result := new LinkedQueue(Queue(map[], tail));
      var keys := data.Keys;
      while keys != {}
        invariant keys <= data.Keys && result.tail == tail
        invariant result.data == map k | k in data && k !in keys :: data[k]
        modifies result
        decreases keys
      {
        var k :| k in keys;
        result.data := result.data[k := data[k]];
        keys := keys - {k};
      }
    }
  }

  class Cache<T> {
    const config: Config
    var pending: LinkedQueue<T>
    var changed: bool
    var tcount: int
    var out: seq<Emission<T>>
    var stored: Option<LinkedQueue<T>>
    ghost var completed: set<nat>

    ghost predicate Valid()
      reads this, pending, if stored.Some? then {stored.value} else {}
    {
      stored.Some? ==> stored.value != pending
    }

    /** The state in the model of runs. */
    ghost function Value(): (s: State<T>)
      reads this, pending, if stored.Some? then {stored.value} else {}
    {
      var saved := if stored.Some? then Some(stored.value.Value()) else None;
      State(pending.Value(), changed, tcount, saved, out, completed)
    }

    constructor (config: Config)
      ensures Valid() && Value() == Fresh() && this.config == config && fresh(pending)
    {
      this.config := config;
      pending := new LinkedQueue<T>(Queue(map[], 0));
      changed, tcount, out, stored, completed := false, 0, [], None, {};
    }

    /** loadCache, when the store holds a queue: counting up to the tail visits the sorted keys. */
    constructor Loaded(config: Config, saved: LinkedQueue<T>)
      ensures Valid() && Value() == Load(saved.Value()) && this.config == config && fresh(pending)
    {
      this.config := config;
      this.pending := new LinkedQueue<T>(Queue(saved.data, saved.tail));
      changed, tcount, stored, completed := true, 0, Some(saved), {};
      out := [];
      new;
      for k := 0 to pending.tail
        invariant this.config == config && pending.Value() == saved.Value() && fresh(pending)
        invariant changed && tcount == 0 && stored == Some(saved) && completed == {}
        invariant out == Emissions(pending.data, k)
      {
        if k in pending.data {
          out := out + [Emission(k, pending.data[k])];
        }
      }
    }

    method OnItem(item: T)
      requires Valid()
      modifies this, pending
      ensures Valid() && Value() == Step(config, old(Value()), Item(item))
    {
      var index := pending.tail;
      pending.Append(item);
      out := out + [Emission(index, item)];
      changed := true;
    }

    /** A completion of any index; where it answers an emission, it is the step of the model. */
    method OnComplete(index: nat, ghost emission: nat)
      requires Valid()
      modifies this, pending
      ensures Valid()
      ensures Value() == old(Value()).(pending := SinkCache.Delete(old(pending.Value()), index), changed := true,
                                       completed := old(completed) + {emission})
      ensures emission < |old(out)| && old(out)[emission].index == index ==>
                Value() == Step(config, old(Value()), Complete(emission))
    {
      pending.Delete(index);
      completed := completed + {emission};
      changed := true;
    }

    method OnTick()
      requires Valid()
      modifies this, pending
      ensures Valid() && Value() == Step(config, old(Value()), Tick)
    {
      tcount := tcount + 1;
      var l := |pending.data|;
      if l == 0 {
        pending.Reset();
      }
      if (changed && l > config.threshold) || (tcount == config.triggerCount && changed) {
        var clone := pending.Clone();
        changed := false;
        stored := Some(clone);
      }
      if tcount >= config.threshold {
        tcount := 0;
      }
    }
  }
}
