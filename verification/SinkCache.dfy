/** The retry queue of a sink, internal/topo/node/sink_cache.go: what is accepted stays pending until its emission is
    completed, whatever indices are given out again after a reset. */
module SinkCache {
  import opened Wrappers

  /** LinkedQueue. */
  datatype Queue<T> = Queue(data: map<nat, T>, tail: nat)

  datatype Emission<T> = Emission(index: nat, item: T)

  /** Completions name the emission they answer, in the order of emission; the cache itself sees its index only. */
  datatype Event<T> = Item(item: T) | Complete(emission: nat) | Tick

  datatype Config = Config(threshold: int, triggerCount: int)

  /** `completed` is history: the emissions answered so far. */
  datatype State<T> = State(
    pending: Queue<T>, changed: bool, tcount: int, saved: Option<Queue<T>>,
    emitted: seq<Emission<T>>, completed: set<nat>)

  // ----- the queue

  function Append<T>(q: Queue<T>, item: T): (r: Queue<T>) {
    Queue(q.data[q.tail := item], q.tail + 1)
  }

  function Delete<T>(q: Queue<T>, index: nat): (r: Queue<T>) {
    Queue(q.data - {index}, q.tail)
  }

  /** Are all keys below the tail? */
  predicate Below<T>(q: Queue<T>) {
    forall k :: k in q.data ==> k < q.tail
  }

  /** What loading the queue emits: its items in ascending index order. */
  function Emissions<T>(data: map<nat, T>, n: nat): (r: seq<Emission<T>>) {
    if n == 0 then []
    else Emissions(data, n - 1) + if n - 1 in data then [Emission(n - 1, data[n - 1])] else []
  }

  // ----- the steps

  function Load<T>(q: Queue<T>): (s: State<T>) {
    State(q, true, 0, Some(q), Emissions(q.data, q.tail), {})
  }

  function Fresh<T>(): (s: State<T>) {
    State(Queue(map[], 0), false, 0, None, [], {})
  }

  function Start<T>(loaded: Option<Queue<T>>): (s: State<T>) {
    if loaded.None? then Fresh() else Load(loaded.value)
  }

  function OnTick<T>(c: Config, s: State<T>): (r: State<T>) {
    var l, tcount := |s.pending.data|, s.tcount + 1;
    var pending := if l == 0 then s.pending.(tail := 0) else s.pending;
    var save := (s.changed && l > c.threshold) || (tcount == c.triggerCount && s.changed);
    s.(pending := pending, saved := if save then Some(pending) else s.saved, changed := s.changed && !save,
       tcount := if tcount >= c.threshold then 0 else tcount)
  }

  function Step<T>(c: Config, s: State<T>, e: Event<T>): (r: State<T>) {
    match e
    case Item(x) =>
      s.(pending := Append(s.pending, x), emitted := s.emitted + [Emission(s.pending.tail, x)], changed := true)
    case Complete(i) =>
      if i >= |s.emitted| then s
      else
        s.(pending := Delete(s.pending, s.emitted[i].index), completed := s.completed + {i}, changed := true)
    case Tick => OnTick(c, s)
  }

  function Run<T>(c: Config, s: State<T>, es: seq<Event<T>>): (r: State<T>)
    decreases |es|
  {
    if es == [] then s else Run(c, Step(c, s, es[0]), es[1..])
  }

  /** No emission is completed twice. */
  predicate CompletesOnce<T>(es: seq<Event<T>>) {
    forall i, j :: 0 <= i < j < |es| && es[i].Complete? && es[j].Complete? ==> es[i].emission != es[j].emission
  }

  // ----- safety

  predicate Outstanding<T>(s: State<T>, i: int) {
    0 <= i < |s.emitted| && i !in s.completed
  }

  /** Is every outstanding emission in the queue? */
  ghost predicate Kept<T>(s: State<T>) {
    forall i :: Outstanding(s, i) ==> Holds(s.pending, s.emitted[i])
  }

  ghost predicate Holds<T>(q: Queue<T>, e: Emission<T>) {
    e.index in q.data && q.data[e.index] == e.item
  }

  /** Has each an index of its own? */
  ghost predicate Apart<T>(s: State<T>) {
    forall i, j :: Outstanding(s, i) && Outstanding(s, j) && i != j ==> s.emitted[i].index != s.emitted[j].index
  }

  /** Is nothing else in the queue? */
  ghost predicate Owned<T>(s: State<T>) {
    forall k :: k in s.pending.data ==> exists i :: Outstanding(s, i) && s.emitted[i].index == k
  }

  /** Is the queue exactly the outstanding emissions, each under an index of its own? */
  ghost predicate Exact<T>(s: State<T>) {
    && Below(s.pending) && Kept(s) && Apart(s) && Owned(s)
    && (forall i :: i in s.completed ==> i < |s.emitted|)
  }

  lemma ItemKeeps<T>(c: Config, s: State<T>, x: T)
    requires Exact(s)
    ensures Exact(Step(c, s, Item(x)))
  {
    var r := Step(c, s, Item(x));
    var last := |s.emitted|;
    assert r.emitted[last] == Emission(s.pending.tail, x) && Outstanding(r, last);
    forall i | Outstanding(r, i) && i != last
      ensures Outstanding(s, i) && r.emitted[i] == s.emitted[i] && Holds(r.pending, r.emitted[i])
      ensures r.emitted[i].index < s.pending.tail {
      assert Outstanding(s, i) && Holds(s.pending, s.emitted[i]);
    }
    assert Apart(r);
    forall k | k in r.pending.data ensures exists i :: Outstanding(r, i) && r.emitted[i].index == k {
      if k == s.pending.tail {
        assert r.emitted[last].index == k;
      } else {
        var i :| Outstanding(s, i) && s.emitted[i].index == k;
        assert Outstanding(r, i) && r.emitted[i].index == k;
      }
    }
  }

  lemma CompleteKeeps<T>(c: Config, s: State<T>, i: nat)
    requires Exact(s) && i !in s.completed
    ensures Exact(Step(c, s, Complete(i)))
  {
    if i < |s.emitted| {
      var r := Step(c, s, Complete(i));
      assert Outstanding(s, i);
      forall j | Outstanding(r, j)
        ensures Outstanding(s, j) && Holds(r.pending, r.emitted[j]) {
        assert Outstanding(s, j) && Holds(s.pending, s.emitted[j]);
      }
      forall k | k in r.pending.data ensures exists j :: Outstanding(r, j) && r.emitted[j].index == k {
        var j :| Outstanding(s, j) && s.emitted[j].index == k;
        assert Outstanding(r, j) && r.emitted[j].index == k;
      }
    }
  }

  lemma TickKeeps<T>(c: Config, s: State<T>)
    requires Exact(s)
    ensures Exact(OnTick(c, s))
  {
    var r := OnTick(c, s);
    if |s.pending.data| == 0 {
      assert s.pending.data == map[];
    }
    forall i | Outstanding(r, i) ensures Outstanding(s, i) && Holds(r.pending, r.emitted[i]) {
      assert Outstanding(s, i) && Holds(s.pending, s.emitted[i]);
    }
    forall k | k in r.pending.data ensures exists j :: Outstanding(r, j) && r.emitted[j].index == k {
      var j :| Outstanding(s, j) && s.emitted[j].index == k;
      assert Outstanding(r, j) && r.emitted[j].index == k;
    }
  }

  /** Does no event complete an emission again? */
  predicate Fits<T>(s: State<T>, es: seq<Event<T>>) {
    CompletesOnce(es) && forall i :: 0 <= i < |es| && es[i].Complete? ==> es[i].emission !in s.completed
  }

  lemma {:induction false} RunKeeps<T>(c: Config, s: State<T>, es: seq<Event<T>>)
    requires Exact(s) && Fits(s, es)
    ensures Exact(Run(c, s, es))
    decreases |es|
  {
    if es != [] {
      StepKeeps(c, s, es);
      RunKeeps(c, Step(c, s, es[0]), es[1..]);
    }
  }

  lemma {:induction false} StepKeeps<T>(c: Config, s: State<T>, es: seq<Event<T>>)
    requires Exact(s) && Fits(s, es) && es != []
    ensures Exact(Step(c, s, es[0])) && Fits(Step(c, s, es[0]), es[1..])
  {
    var r := Step(c, s, es[0]);
    match es[0] {
      case Item(x) => ItemKeeps(c, s, x);
      case Complete(i) => CompleteKeeps(c, s, i);
      case Tick => TickKeeps(c, s);
    }
    forall i | 0 <= i < |es| - 1 && es[1..][i].Complete? ensures es[1..][i].emission !in r.completed {
      assert es[1..][i] == es[i + 1];
    }
  }

  // ----- loading

  lemma {:induction false} EmissionsAre<T>(data: map<nat, T>, n: nat)
    ensures forall e :: e in Emissions(data, n) ==> e.index < n && e.index in data && data[e.index] == e.item
    ensures forall k :: k in data && k < n ==> Emission(k, data[k]) in Emissions(data, n)
  {
    if n > 0 {
      EmissionsAre(data, n - 1);
    }
  }

  lemma {:induction false} EmissionsAscend<T>(data: map<nat, T>, n: nat)
    ensures forall i, j :: 0 <= i < j < |Emissions(data, n)| ==>
      Emissions(data, n)[i].index < Emissions(data, n)[j].index
  {
    if n > 0 {
      EmissionsAscend(data, n - 1);
      var before := Emissions(data, n - 1);
      EmissionsAre(data, n - 1);
      forall i | 0 <= i < |before| ensures before[i].index < n - 1 {
        assert before[i] in Emissions(data, n - 1);
      }
    }
  }

  lemma LoadIsExact<T>(q: Queue<T>)
    requires Below(q)
    ensures Exact(Load(q))
  {
    var s := Load(q);
    EmissionsAre(q.data, q.tail);
    EmissionsAscend(q.data, q.tail);
    forall i | Outstanding(s, i) ensures Holds(q, s.emitted[i]) {
      assert s.emitted[i] in s.emitted;
    }
    forall k | k in q.data ensures exists i :: Outstanding(s, i) && s.emitted[i].index == k {
      var e := Emission(k, q.data[k]);
      assert e in s.emitted;
      var i :| 0 <= i < |s.emitted| && s.emitted[i] == e;
      assert Outstanding(s, i) && s.emitted[i].index == k;
    }
  }

  // ----- main results

  /** From a fresh or a loaded queue, if no emission is completed twice, the queue is at all times exactly the
      outstanding emissions: all below the tail, none overwritten, none forgotten. */
  lemma {:induction false} PendingIsOutstanding<T>(c: Config, loaded: Option<Queue<T>>, es: seq<Event<T>>)
    requires loaded.Some? ==> Below(loaded.value)
    requires CompletesOnce(es)
    ensures var s := Run(c, Start(loaded), es);
      Exact(s) && s.pending.tail !in s.pending.data
  {
    if loaded.Some? {
      LoadIsExact(loaded.value);
      RunKeeps(c, Load(loaded.value), es);
    } else {
      RunKeeps(c, Fresh(), es);
    }
  }

  /** Stopping saves the queue; the next start emits the outstanding emissions again, each once, in ascending index
      order, and nothing else. */
  lemma {:induction false} RestartEmitsOutstanding<T>(c: Config, loaded: Option<Queue<T>>, es: seq<Event<T>>)
    requires loaded.Some? ==> Below(loaded.value)
    requires CompletesOnce(es)
    ensures var s := Run(c, Start(loaded), es);
      var again := Load(s.pending).emitted;
      && (forall e :: e in again <==> exists i :: Outstanding(s, i) && s.emitted[i] == e)
      && (forall i, j :: 0 <= i < j < |again| ==> again[i].index < again[j].index)
  {
    var s := Run(c, Start(loaded), es);
    PendingIsOutstanding(c, loaded, es);
    EmissionsAre(s.pending.data, s.pending.tail);
    EmissionsAscend(s.pending.data, s.pending.tail);
    var again := Load(s.pending).emitted;
    forall e | e in again ensures exists i :: Outstanding(s, i) && s.emitted[i] == e {
      assert e in Emissions(s.pending.data, s.pending.tail);
      assert e.index in s.pending.data;
      var i :| Outstanding(s, i) && s.emitted[i].index == e.index;
      assert Holds(s.pending, s.emitted[i]);
    }
    forall i | Outstanding(s, i) ensures s.emitted[i] in again {
      assert Holds(s.pending, s.emitted[i]);
    }
  }

  // ----- what is saved

  /** A tick that saves: something changed since the last save, and there are more items than the threshold or it is the
      tick to save at. */
  predicate IsSave<T>(c: Config, s: State<T>, e: Event<T>) {
    e.Tick? && s.changed && (|s.pending.data| > c.threshold || s.tcount + 1 == c.triggerCount)
  }

  /** Events that change the queue: an item, and a completion of an emission. */
  predicate Changes<T>(s: State<T>, e: Event<T>) {
    e.Item? || (e.Complete? && e.emission < |s.emitted|)
  }

  /** Such a tick saves the queue as it stands, whatever else is going on; no other event saves anything. */
  lemma StepSaves<T>(c: Config, s: State<T>, e: Event<T>)
    ensures var r := Step(c, s, e);
      if IsSave(c, s, e) then r.saved == Some(r.pending) && !r.changed && r.pending.data == s.pending.data
      else r.saved == s.saved && (r.changed <==> s.changed || Changes(s, e))
  {
  }

  lemma {:induction false} RunConcat<T>(c: Config, s: State<T>, a: seq<Event<T>>, b: seq<Event<T>>)
    ensures Run(c, s, a + b) == Run(c, Run(c, s, a), b)
    decreases |a|
  {
    if a == [] {
      assert a + b == b;
    } else {
      assert (a + b)[1..] == a[1..] + b;
      RunConcat(c, Step(c, s, a[0]), a[1..], b);
    }
  }

  lemma RunLast<T>(c: Config, s: State<T>, es: seq<Event<T>>)
    requires es != []
    ensures Run(c, s, es) == Step(c, Run(c, s, es[..|es| - 1]), es[|es| - 1])
  {
    var n := |es| - 1;
    assert es == es[..n] + [es[n]];
    RunConcat(c, s, es[..n], [es[n]]);
    assert Run(c, Run(c, s, es[..n]), [es[n]]) == Step(c, Run(c, s, es[..n]), es[n]) by {
      assert [es[n]][1..] == [];
    }
  }

  /** The first `k` events are those up to the last saving tick, or there was none and `k` is zero. */
  ghost predicate LastSave<T>(c: Config, s: State<T>, es: seq<Event<T>>, k: nat) {
    && k <= |es| && (k > 0 ==> IsSave(c, Run(c, s, es[..k - 1]), es[k - 1]))
    && forall j :: k <= j < |es| ==> !IsSave(c, Run(c, s, es[..j]), es[j])
  }

  /** Something changed the queue after the first `k` events. */
  ghost predicate ChangedSince<T>(c: Config, s: State<T>, es: seq<Event<T>>, k: nat) {
    exists j :: k <= j < |es| && Changes(Run(c, s, es[..j]), es[j])
  }

  lemma LastSaveStays<T>(c: Config, s: State<T>, before: seq<Event<T>>, e: Event<T>, k: nat)
    requires LastSave(c, s, before, k) && !IsSave(c, Run(c, s, before), e)
    ensures LastSave(c, s, before + [e], k) && (before + [e])[..k] == before[..k]
  {
    var es, n := before + [e], |before|;
    assert es[..n] == before && es[n] == e;
    forall j | 0 <= j < n ensures es[..j] == before[..j] && es[j] == before[j] {}
  }

  lemma ChangedSinceNext<T>(c: Config, s: State<T>, before: seq<Event<T>>, e: Event<T>, k: nat)
    requires k <= |before|
    ensures ChangedSince(c, s, before + [e], k) <==> ChangedSince(c, s, before, k) || Changes(Run(c, s, before), e)
  {
    var es, n := before + [e], |before|;
    assert es[..n] == before && es[n] == e;
    forall j | 0 <= j < n ensures es[..j] == before[..j] && es[j] == before[j] {}
    if ChangedSince(c, s, before, k) {
      var j :| k <= j < n && Changes(Run(c, s, before[..j]), before[j]);
      assert Changes(Run(c, s, es[..j]), es[j]);
    }
    if Changes(Run(c, s, before), e) {
      assert Changes(Run(c, s, es[..n]), es[n]);
    }
  }

  /** In every run what is saved is the queue as it stood right after the last saving tick, or what was loaded; and the
      cache counts as changed exactly if something changed the queue since, or it was loaded and not saved yet. */
  lemma {:induction false} SavedIsLastSave<T>(c: Config, loaded: Option<Queue<T>>, es: seq<Event<T>>) returns (k: nat)
    ensures LastSave(c, Start(loaded), es, k)
    ensures Run(c, Start(loaded), es).saved
         == if k == 0 then loaded else Some(Run(c, Start(loaded), es[..k]).pending)
    ensures Run(c, Start(loaded), es).changed <==> (k == 0 && loaded.Some?) || ChangedSince(c, Start(loaded), es, k)
    decreases |es|
  {
    var s0 := Start(loaded);
    if es == [] {
      k := 0;
    } else {
      var n := |es| - 1;
      var before, e := es[..n], es[n];
      assert es == before + [e];
      RunLast(c, s0, es);
      StepSaves(c, Run(c, s0, before), e);
      if IsSave(c, Run(c, s0, before), e) {
        k := |es|;
        assert es[..k] == es;
      } else {
        k := SavedIsLastSave(c, loaded, before);
        LastSaveStays(c, s0, before, e, k);
        ChangedSinceNext(c, s0, before, e, k);
      }
    }
  }

  /** Nothing has changed since the queue was saved, or nothing ever was in it. */
  ghost predicate SavedMatches<T>(s: State<T>) {
    && (s.saved.Some? ==> Below(s.saved.value))
    && (!s.changed ==> if s.saved.Some? then s.saved.value.data == s.pending.data else s.pending.data == map[])
  }

  lemma {:induction false} RunMatches<T>(c: Config, s: State<T>, es: seq<Event<T>>)
    requires SavedMatches(s) && Exact(s) && Fits(s, es)
    ensures SavedMatches(Run(c, s, es))
    decreases |es|
  {
    if es != [] {
      var r := Step(c, s, es[0]);
      assert es == [es[0]] + es[1..];
      StepKeeps(c, s, es);
      StepSaves(c, s, es[0]);
      RunMatches(c, r, es[1..]);
    }
  }

  /** A crash loses nothing that a tick saved: if nothing changed since, loading what is saved emits exactly the
      outstanding emissions again, each once, in ascending index order. */
  lemma {:induction false} SavedEmitsOutstanding<T>(c: Config, loaded: Option<Queue<T>>, es: seq<Event<T>>)
    requires loaded.Some? ==> Below(loaded.value)
    requires CompletesOnce(es)
    requires !Run(c, Start(loaded), es).changed
    ensures var s := Run(c, Start(loaded), es);
      var again := Start(s.saved).emitted;
      && (forall e :: e in again <==> exists i :: Outstanding(s, i) && s.emitted[i] == e)
      && (forall i, j :: 0 <= i < j < |again| ==> again[i].index < again[j].index)
  {
    var s := Run(c, Start(loaded), es);
    if loaded.Some? {
      LoadIsExact(loaded.value);
    }
    PendingIsOutstanding(c, loaded, es);
    RunMatches(c, Start(loaded), es);
    if s.saved.Some? {
      SameEmissions(s.pending, s.saved.value);
      RestartEmitsOutstanding(c, loaded, es);
    } else {
      assert Kept(s);
    }
  }

  /** What loading emits depends on the items only. */
  lemma SameEmissions<T>(q: Queue<T>, q': Queue<T>)
    requires Below(q) && Below(q') && q.data == q'.data
    ensures Load(q).emitted == Load(q').emitted
  {
    if q.tail <= q'.tail {
      NoMoreEmissions(q.data, q.tail, q'.tail);
    } else {
      NoMoreEmissions(q.data, q'.tail, q.tail);
    }
  }

  lemma {:induction false} NoMoreEmissions<T>(data: map<nat, T>, n: nat, m: nat)
    requires n <= m && forall k :: k in data ==> k < n
    ensures Emissions(data, m) == Emissions(data, n)
  {
    if n < m {
      NoMoreEmissions(data, n, m - 1);
    }
  }

  // ----- whatever the sink completes

  /** Is the queue exactly the outstanding emissions now and after every event? */
  ghost predicate AlwaysExact<T>(c: Config, s: State<T>, es: seq<Event<T>>)
    decreases |es|
  {
    Exact(s) && (es != [] ==> AlwaysExact(c, Step(c, s, es[0]), es[1..]))
  }

  /** A completion that answers an emission for the second time, when its index has been given out again. */
  predicate Stale<T>(s: State<T>, e: Event<T>) {
    && e.Complete? && e.emission in s.completed
    && e.emission < |s.emitted| && s.emitted[e.emission].index in s.pending.data
  }

  predicate NeverStale<T>(c: Config, s: State<T>, es: seq<Event<T>>)
    decreases |es|
  {
    es != [] ==> !Stale(s, es[0]) && NeverStale(c, Step(c, s, es[0]), es[1..])
  }

  lemma {:induction false} StepExactly<T>(c: Config, s: State<T>, e: Event<T>)
    requires Exact(s)
    ensures Exact(Step(c, s, e)) <==> !Stale(s, e)
  {
    match e
    case Item(x) => ItemKeeps(c, s, x);
    case Tick => TickKeeps(c, s);
    case Complete(i) =>
      var r := Step(c, s, e);
      if i !in s.completed {
        CompleteKeeps(c, s, i);
      } else if Stale(s, e) {
        var k := s.emitted[i].index;
        var j :| Outstanding(s, j) && s.emitted[j].index == k;
        assert Outstanding(r, j) && !Holds(r.pending, r.emitted[j]);
      } else {
        assert s.pending.data - {s.emitted[i].index} == s.pending.data;
        assert s.completed + {i} == s.completed;
        assert r == s.(changed := true);
        assert forall j :: Outstanding(r, j) == Outstanding(s, j);
      }
  }

  /** Whatever the sink completes, the queue stays exactly the outstanding emissions if and only if no completion
      answers an emission again after its index was given out anew. */
  lemma {:induction false} ExactWithoutStaleCompletions<T>(c: Config, s: State<T>, es: seq<Event<T>>)
    requires Exact(s)
    ensures AlwaysExact(c, s, es) <==> NeverStale(c, s, es)
    decreases |es|
  {
    if es != [] {
      StepExactly(c, s, es[0]);
      if !Stale(s, es[0]) {
        ExactWithoutStaleCompletions(c, Step(c, s, es[0]), es[1..]);
      }
    }
  }

  /** Such a completion does occur: after a reset a second completion of an old emission drops a new item. */
  lemma SecondCompletionDropsAnItem<T>(c: Config, a: T, b: T)
    ensures var s := Run(c, Fresh(), [Item(a), Complete(0), Tick, Item(b), Complete(0)]);
      Outstanding(s, 1) && s.emitted[1].item == b && s.pending.data == map[]
  {
    var s1 := Step(c, Fresh<T>(), Item(a));
    var s2 := Step(c, s1, Complete(0));
    assert s2.pending.data == map[] && s2.completed == {0};
    var s3 := Step(c, s2, Tick);
    assert s3.pending == Queue(map[], 0);
    var s4 := Step(c, s3, Item(b));
    var s5 := Step(c, s4, Complete(0));
    assert s5.pending.data == map[] && s5.completed == {0};
    assert s5.emitted == [Emission(0, a), Emission(0, b)];
    RunOne(c, s4, Complete(0), []);
    RunOne(c, s3, Item(b), [Complete(0)]);
    RunOne(c, s2, Tick, [Item(b), Complete(0)]);
    RunOne(c, s1, Complete(0), [Tick, Item(b), Complete(0)]);
    RunOne(c, Fresh<T>(), Item(a), [Complete(0), Tick, Item(b), Complete(0)]);
    assert [Item(a), Complete(0), Tick, Item(b), Complete(0)] == [Item(a)] + [Complete(0), Tick, Item(b), Complete(0)];
    assert [Complete(0), Tick, Item(b), Complete(0)] == [Complete(0)] + [Tick, Item(b), Complete(0)];
    assert [Tick, Item(b), Complete(0)] == [Tick] + [Item(b), Complete(0)];
    assert [Item(b), Complete(0)] == [Item(b)] + [Complete(0)];
    var last: seq<Event<T>> := [Complete(0)];
    assert last == last + [];
  }

  lemma RunOne<T>(c: Config, s: State<T>, e: Event<T>, rest: seq<Event<T>>)
    ensures Run(c, s, [e] + rest) == Run(c, Step(c, s, e), rest)
  {
    assert ([e] + rest)[1..] == rest;
  }

  // ----- the periodic save

  function Ticks<T>(c: Config, s: State<T>, n: nat): (r: State<T>) {
    if n == 0 then s else OnTick(c, Ticks(c, s, n - 1))
  }

  /** The period after which the tick counter starts over. */
  function Period(c: Config): (p: nat)
    ensures p >= 1
  {
    if c.threshold < 1 then 1 else c.threshold
  }

  lemma {:induction false} TicksCompose<T>(c: Config, s: State<T>, a: nat, b: nat)
    ensures Ticks(c, Ticks(c, s, a), b) == Ticks(c, s, a + b)
  {
    if b > 0 {
      TicksCompose(c, s, a, b - 1);
    }
  }

  /** A changed cache below the threshold whose counter is within its period. */
  predicate Quiet<T>(c: Config, s: State<T>) {
    s.changed && |s.pending.data| <= c.threshold && 0 <= s.tcount < Period(c)
  }

  /** Up to the trigger and the end of the period ticks only count. */
  lemma {:induction false} QuietTicks<T>(c: Config, s: State<T>, n: nat)
    requires Quiet(c, s) && s.tcount + n < Period(c)
    requires !(s.tcount < c.triggerCount <= s.tcount + n)
    ensures var r := Ticks(c, s, n);
            r.changed && r.tcount == s.tcount + n && r.pending.data == s.pending.data
  {
    if n > 0 {
      QuietTicks(c, s, n - 1);
    }
  }

  lemma NeverSaved<T>(c: Config, s: State<T>, n: nat)
    requires Quiet(c, s) && !(1 <= c.triggerCount <= Period(c))
    ensures Quiet(c, Ticks(c, s, n))
    decreases n
  {
    if n > 0 {
      NeverSaved(c, s, n - 1);
      assert Ticks(c, s, n) == OnTick(c, Ticks(c, s, n - 1));
    }
  }

  /** Past the trigger the counter first runs to the end of its period. */
  lemma Restarts<T>(c: Config, s: State<T>)
    requires Quiet(c, s) && 1 <= c.triggerCount <= s.tcount
    ensures var r := Ticks(c, s, Period(c) - s.tcount); Quiet(c, r) && r.tcount == 0
  {
    var n := Period(c) - s.tcount;
    QuietTicks(c, s, n - 1);
    assert Ticks(c, s, n) == OnTick(c, Ticks(c, s, n - 1));
  }

  lemma Saves<T>(c: Config, s: State<T>)
    requires Quiet(c, s) && s.tcount < c.triggerCount <= Period(c)
    ensures !Ticks(c, s, c.triggerCount - s.tcount).changed
  {
    var n := c.triggerCount - s.tcount;
    QuietTicks(c, s, n - 1);
    assert Ticks(c, s, n) == OnTick(c, Ticks(c, s, n - 1));
  }

  /** A quiet cache below the threshold is saved by the count of ticks exactly when the count to wait for is within
      the threshold: the counter starts over at the threshold. */
  lemma {:induction false} QuietCacheIsSaved<T>(c: Config, s: State<T>)
    requires Quiet(c, s)
    ensures (exists n: nat :: !Ticks(c, s, n).changed) <==> 1 <= c.triggerCount <= Period(c)
  {
    if !(1 <= c.triggerCount <= Period(c)) {
      forall n: nat ensures Ticks(c, s, n).changed {
        NeverSaved(c, s, n);
      }
    } else if s.tcount < c.triggerCount {
      Saves(c, s);
    } else {
      var a := Period(c) - s.tcount;
      Restarts(c, s);
      Saves(c, Ticks(c, s, a));
      TicksCompose(c, s, a, c.triggerCount);
    }
  }

  /** In every run the counter stays within its period, so the above applies whenever the cache goes quiet. */
  lemma {:induction false} CounterInPeriod<T>(c: Config, s: State<T>, es: seq<Event<T>>)
    requires 0 <= s.tcount < Period(c)
    ensures 0 <= Run(c, s, es).tcount < Period(c)
    decreases |es|
  {
    if es != [] {
      CounterInPeriod(c, Step(c, s, es[0]), es[1..]);
    }
  }

  /** For every run of the cache: once it is changed, below the threshold and quiet, ticks save it exactly when the
      trigger count is within the threshold. */
  lemma {:induction false} QuietRunIsSaved<T>(c: Config, loaded: Option<Queue<T>>, es: seq<Event<T>>)
    requires var s := Run(c, Start(loaded), es); s.changed && |s.pending.data| <= c.threshold
    ensures var s := Run(c, Start(loaded), es);
            (exists n: nat :: !Ticks(c, s, n).changed) <==> 1 <= c.triggerCount <= Period(c)
  {
    CounterInPeriod(c, Start(loaded), es);
    QuietCacheIsSaved(c, Run(c, Start(loaded), es));
  }

  /** With the shipped values, 10 and 15, one item waiting is never saved by ticks. */
  lemma {:induction false} ShippedConfigNeverSaves<T>(item: T, n: nat)
    ensures var c := Config(10, 15);
            Ticks(c, Run(c, Fresh(), [Item(item)]), n).changed
  {
    var c, s := Config(10, 15), Step(Config(10, 15), Fresh<T>(), Item(item));
    var none: seq<Event<T>> := [];
    assert [Item(item)] == [Item(item)] + none;
    RunOne(c, Fresh<T>(), Item(item), none);
    assert s.pending.data == map[0 := item];
    NeverSaved(c, s, n);
  }
}
