/** Event-time session windows: what every emitted session looks like, why it ends where it does, and that no accepted
    tuple is lost or repeated. */
module Sessions {
  import opened Sequences
  import opened Collections
  import opened Watermarks
  import opened EventWindows
  import opened EventRefinement

  function TuplesOf(content: seq<WindowTuples>): (m: multiset<Tuple>) {
    if content == [] then multiset{} else multiset(content[0].tuples) + TuplesOf(content[1..])
  }

  lemma {:induction false} AddTupleTuples(content: seq<WindowTuples>, t: Tuple)
    ensures TuplesOf(AddTuple(content, t)) == TuplesOf(content) + multiset{t}
  {
    if content != [] && content[0].emitter != t.emitter {
      AddTupleTuples(content[1..], t);
    }
  }

  lemma {:induction false} GroupedTuples(s: seq<Tuple>)
    ensures TuplesOf(Grouped(s)) == multiset(s)
  {
    if s != [] {
      var n := |s| - 1;
      assert multiset(s) == multiset(s[..n]) + multiset{s[n]} by {
        assert s == s[..n] + [s[n]];
      }
      GroupedTuples(s[..n]);
      AddTupleTuples(Grouped(s[..n]), s[n]);
    }
  }

  lemma {:induction false} SortGroupsTuples(content: seq<WindowTuples>)
    ensures TuplesOf(SortGroups(content)) == TuplesOf(content)
  {
    if content != [] {
      SortGroupsTuples(content[1..]);
      StableSortBag(content[0].tuples);
    }
  }

  /** All the tuples of a sequence of windows. */
  function AllTuples(windows: seq<Window>): (m: multiset<Tuple>) {
    if windows == [] then multiset{}
    else AllTuples(windows[..|windows| - 1]) + TuplesOf(windows[|windows| - 1].content)
  }

  /** `hits` are the tuples of one session: in time order, neighbours at most the timeout apart, all of them up to the
      end of the window, and, when the timeout does not exceed the length, spanning at most two lengths. The window ends
      where it does because the next tuple comes after the timeout, or because of a tick. */
  ghost predicate IsSession(cfg: Config, w: Window, hits: seq<Tuple>, next: Tuple)
    requires cfg.length > 0
  {
    && hits != [] && Sorted(hits) && w.content == Packaged(hits)
    && Close(hits, cfg.interval)
    && (cfg.interval <= cfg.length ==> hits[|hits| - 1].ts - hits[0].ts <= 2 * cfg.length)
    && hits[|hits| - 1].ts <= w.end < next.ts
    && (TimedOut(cfg, w.end, hits) || Ticked(cfg, w.end, hits))
  }

  /** The end is the timeout after the last tuple: the next one is more than the interval away. */
  ghost predicate TimedOut(cfg: Config, end: int, hits: seq<Tuple>)
    requires hits != []
  {
    end == hits[|hits| - 1].ts + cfg.interval
  }

  /** The end is a multiple of the length, more than a length after the first tuple. */
  ghost predicate Ticked(cfg: Config, end: int, hits: seq<Tuple>)
    requires hits != [] && cfg.length > 0
  {
    end % cfg.length == 0 && end > hits[0].ts + cfg.length
  }

  /** A session closed by one of the accepted tuples. */
  ghost predicate HoldsSession(cfg: Config, w: Window, accepted: seq<Tuple>)
    requires cfg.length > 0
  {
    exists hits, next :: next in accepted && IsSession(cfg, w, hits, next)
  }

  ghost predicate AllSessions(cfg: Config, windows: seq<Window>, accepted: seq<Tuple>)
    requires cfg.length > 0
  {
    forall w :: w in windows ==> HoldsSession(cfg, w, accepted)
  }

  /** The computed end cuts a non-empty proper prefix off a sorted buffer, and that prefix is a session. */
  lemma {:induction false} FirstSession(cfg: Config, s: seq<Tuple>, end: int, ticked: bool) returns (m: nat)
    requires cfg.Valid() && cfg.kind == Session && Sorted(s) && Positive(s)
    requires SessionEnd(cfg, s) == (end, ticked) && end < MAX_INT64
    ensures 0 < m < |s|
    ensures Select(s, Hit(cfg, end, 0)) == s[..m]
    ensures if ticked then Ticked(cfg, end, s[..m]) else TimedOut(cfg, end, s[..m])
    ensures IsSession(cfg, Window(0, end, Packaged(s[..m])), s[..m], s[m])
  {
    WalkHolds(cfg, s, |s|);
    TicksAreMultiples(cfg, s, |s|);
    var k :| 1 <= k < |s| && EndedAt(cfg, s, end, ticked, k);
    HitsUpTo(cfg, s, end);
    m := SortedPrefix(s, Hit(cfg, end, 0), end);
    PrefixIsSession(cfg, s, end, ticked, k, m);
  }

  lemma {:induction false} PrefixIsSession(cfg: Config, s: seq<Tuple>, end: int, ticked: bool, k: nat, m: nat)
    requires cfg.Valid() && Sorted(s) && 1 <= k < |s| && EndedAt(cfg, s, end, ticked, k) && m <= |s|
    requires (forall i :: 0 <= i < m ==> s[i].ts <= end) && forall i :: m <= i < |s| ==> s[i].ts > end
    requires ticked ==> end % cfg.length == 0
    ensures 0 < m < |s| && (if ticked then Ticked(cfg, end, s[..m]) else TimedOut(cfg, end, s[..m]))
    ensures IsSession(cfg, Window(0, end, Packaged(s[..m])), s[..m], s[m])
  {
    assert 0 < m <= k;
    assert s[k - 1].ts <= s[k].ts && (!ticked ==> m == k);
    CloseShorter(s, m, k, cfg.interval);
    assert Sorted(s[..m]);
  }

  lemma HitsUpTo(cfg: Config, s: seq<Tuple>, end: int)
    requires cfg.kind == Session
    ensures forall t :: t in s ==> Hit(cfg, end, 0)(t) == (t.ts <= end)
  {
    assert !cfg.Overlapping();
    forall t | t in s ensures Hit(cfg, end, 0)(t) == (t.ts <= end) {
      assert !Expired(cfg, end, 0)(t);
    }
  }

  lemma CloseShorter(s: seq<Tuple>, m: nat, k: nat, interval: int)
    requires m <= k <= |s| && Close(s[..k], interval)
    ensures Close(s[..m], interval)
  {
    forall i | 0 <= i < |s[..m]| - 1 ensures s[..m][i + 1].ts - s[..m][i].ts <= interval {
      assert s[..k][i + 1].ts - s[..k][i].ts <= interval;
    }
  }

  lemma SessionSplits(cfg: Config, s: seq<Tuple>, end: int)
    requires cfg.kind == Session
    ensures multiset(Select(s, Kept(cfg, end, 0))) + multiset(Select(s, Hit(cfg, end, 0))) == multiset(s)
  {
    assert !cfg.Overlapping();
    forall t | t in s ensures Kept(cfg, end, 0)(t) == !Hit(cfg, end, 0)(t) {
      assert !Expired(cfg, end, 0)(t);
    }
    SelectPartition(s, Hit(cfg, end, 0), Kept(cfg, end, 0));
  }

  /** Scanning at the computed end takes the first session out of a sorted buffer; the tuple that closes it stays. */
  lemma {:induction false} ScanTakesSession(cfg: Config, st: State, end: int, ticked: bool)
    returns (w: Window, hits: seq<Tuple>, next: Tuple)
    requires cfg.Valid() && cfg.kind == Session && Sorted(st.inputs) && Positive(st.inputs)
    requires SessionEnd(cfg, st.inputs) == (end, ticked) && end < MAX_INT64
    ensures st.inputs != [] && next in st.inputs
    ensures ScanSession(cfg, st, end, ticked).emitted == st.emitted + [w] && IsSession(cfg, w, hits, next)
    ensures multiset(ScanSession(cfg, st, end, ticked).inputs) + multiset(hits) == multiset(st.inputs)
  {
    var m := FirstSession(cfg, st.inputs, end, ticked);
    hits, next := st.inputs[..m], st.inputs[m];
    SessionSplits(cfg, st.inputs, end);
    w := Window(if st.lastTicked then st.triggerTime else st.inputs[0].ts, end, Packaged(hits));
  }

  lemma AllTuplesAppend(windows: seq<Window>, w: Window, hits: seq<Tuple>)
    requires w.content == Packaged(hits)
    ensures AllTuples(windows + [w]) == AllTuples(windows) + multiset(hits)
  {
    assert (windows + [w])[..|windows|] == windows;
    SortGroupsTuples(Grouped(hits));
    GroupedTuples(hits);
  }

  /** Where the tuples of an operator are: in its buffer or in a window it emitted. */
  function Held(st: State): (m: multiset<Tuple>) {
    multiset(st.inputs) + AllTuples(st.emitted)
  }

  lemma {:induction false} ScanSessionOk(cfg: Config, st: State, end: int, ticked: bool, accepted: seq<Tuple>)
    requires cfg.Valid() && cfg.kind == Session && Sorted(st.inputs) && Positive(st.inputs)
    requires SessionEnd(cfg, st.inputs) == (end, ticked) && end < MAX_INT64
    requires AllSessions(cfg, st.emitted, accepted) && Held(st) == multiset(accepted)
    ensures st.inputs != []
    ensures var r := ScanSession(cfg, st, end, ticked);
            AllSessions(cfg, r.emitted, accepted) && Held(r) == Held(st) && Positive(r.inputs)
  {
    var w, hits, next := ScanTakesSession(cfg, st, end, ticked);
    AllTuplesAppend(st.emitted, w, hits);
    ScanSessionPositive(cfg, st, end, ticked);
    assert next in accepted by {
      assert next in multiset(st.inputs) && next in Held(st);
    }
    assert HoldsSession(cfg, w, accepted);
  }

  lemma {:induction false} DrainSessionOk(cfg: Config, st: State, wm: int, accepted: seq<Tuple>)
    requires cfg.Valid() && cfg.kind == Session && wm < MAX_INT64 && Positive(st.inputs)
    requires AllSessions(cfg, st.emitted, accepted) && Held(st) == multiset(accepted)
    ensures AllSessions(cfg, DrainSession(cfg, st, wm).emitted, accepted)
    ensures Held(DrainSession(cfg, st, wm)) == Held(st)
    decreases |st.inputs|
  {
    StableSortBag(st.inputs);
    var st1 := DrainStep(cfg, st, wm);
    var (end, ticked) := SessionEnd(cfg, st1.inputs);
    if end <= wm {
      ScanSessionOk(cfg, st1, end, ticked, accepted);
      DrainSessionOk(cfg, ScanSession(cfg, st1, end, ticked), wm, accepted);
    }
  }

  /** In every run of a session window each emitted window is one session, closed by an accepted tuple after its end,
      and the emitted tuples together with the buffered ones are exactly the accepted ones. */
  lemma {:induction false} SessionRun(cfg: Config, startTime: int, events: seq<Event>)
    requires cfg.Valid() && cfg.kind == Session && InRange(cfg, 0) && ValidEvents(cfg, events)
    ensures var st, accepted := Run(cfg, startTime, events), AcceptedIn(cfg, events);
            AllSessions(cfg, st.emitted, accepted) && Held(st) == multiset(accepted)
  {
    if events != [] {
      var n := |events| - 1;
      SessionRun(cfg, startTime, events[..n]);
      AcceptedStep(cfg, startTime, events);
      SessionStep(cfg, Run(cfg, startTime, events[..n]), events[n], AcceptedIn(cfg, events[..n]));
      assert Run(cfg, startTime, events) == StepEvent(cfg, Run(cfg, startTime, events[..n]), events[n]);
    }
  }

  lemma {:induction false} SessionStep(cfg: Config, st: State, e: Event, accepted: seq<Tuple>)
    requires WellFormed(cfg, st) && ValidEvent(cfg, e) && cfg.kind == Session
    requires AllSessions(cfg, st.emitted, accepted) && Held(st) == multiset(accepted)
    ensures var r := StepEvent(cfg, st, e);
            var accepted' := if e.Arrive? && st.gen.lastWm <= e.tuple.ts then accepted + [e.tuple] else accepted;
            AllSessions(cfg, r.emitted, accepted') && Held(r) == multiset(accepted')
  {
    if e.Arrive? {
      MoreAccepted(cfg, st.emitted, accepted, e.tuple);
    } else if st.queue != [] {
      assert st.queue[0] in st.queue;
      var st1 := st.(queue := st.queue[1..]);
      assert Held(st1) == Held(st);
      DrainSessionOk(cfg, st1, st.queue[0], accepted);
    }
  }

  lemma MoreAccepted(cfg: Config, windows: seq<Window>, accepted: seq<Tuple>, t: Tuple)
    requires cfg.length > 0 && AllSessions(cfg, windows, accepted)
    ensures AllSessions(cfg, windows, accepted + [t])
  {
    forall w | w in windows ensures HoldsSession(cfg, w, accepted + [t]) {
      var hits, next :| next in accepted && IsSession(cfg, w, hits, next);
      assert next in accepted + [t];
    }
  }

  // ----- what a processed watermark leaves

  /** The buffer is one open session up to the watermark: no neighbours further apart than the interval whose timeout
      has passed, and no more than two lengths. */
  ghost predicate Open(cfg: Config, s: seq<Tuple>, wm: int) {
    && (forall i :: 0 <= i < |s| - 1 && s[i].ts + cfg.interval <= wm ==> s[i + 1].ts - s[i].ts <= cfg.interval)
    && (cfg.interval <= cfg.length ==>
          forall i :: 0 <= i < |s| && s[i].ts <= wm ==> s[i].ts - s[0].ts <= 2 * cfg.length)
  }

  lemma {:induction false} OpenBuffer(cfg: Config, s: seq<Tuple>, wm: int)
    requires cfg.Valid() && Sorted(s) && Positive(s) && SessionEnd(cfg, s).0 > wm
    ensures Open(cfg, s, wm)
  {
    if s != [] {
      WalkHolds(cfg, s, |s|);
      match Walk(cfg, s, |s|)
      case Walking(tick, p) => OpenWalk(cfg, s, wm);
      case Ended(end, ticked) =>
        var k :| 1 <= k < |s| && EndedAt(cfg, s, end, ticked, k);
        OpenEnd(cfg, s, wm, end, ticked, k);
    }
  }

  /** No end in sight: the whole buffer is one session. */
  lemma {:induction false} OpenWalk(cfg: Config, s: seq<Tuple>, wm: int)
    requires cfg.Valid() && Sorted(s) && s != [] && Walk(cfg, s, |s|).Walking? && WalkState(cfg, s, |s|)
    ensures Open(cfg, s, wm)
  {
    assert s[..|s|] == s;
    forall i | 0 <= i < |s| ensures s[i].ts <= s[|s| - 1].ts {}
  }

  /** An end after the watermark: up to it nothing is to be cut. */
  lemma {:induction false} OpenEnd(cfg: Config, s: seq<Tuple>, wm: int, end: int, ticked: bool, k: nat)
    requires cfg.Valid() && Sorted(s) && 1 <= k < |s| && EndedAt(cfg, s, end, ticked, k) && wm < end
    ensures Open(cfg, s, wm)
  {
    forall i | k <= i < |s| ensures s[i].ts > wm {
      assert i == k || s[k].ts <= s[i].ts;
    }
    forall i | 0 <= i < |s| - 1 && s[i].ts + cfg.interval <= wm ensures s[i + 1].ts - s[i].ts <= cfg.interval {
      assert i < k;
      if i + 1 < k {
        assert s[..k][i + 1].ts - s[..k][i].ts <= cfg.interval;
      }
    }
  }

  lemma {:induction false} DrainedBuffer(cfg: Config, st: State, wm: int)
    requires cfg.Valid() && cfg.kind == Session && wm < MAX_INT64 && Positive(st.inputs)
    ensures var r := DrainSession(cfg, st, wm); Sorted(r.inputs) && Open(cfg, r.inputs, wm)
    decreases |st.inputs|
  {
    var st1 := DrainStep(cfg, st, wm);
    var (end, ticked) := SessionEnd(cfg, st1.inputs);
    if end <= wm {
      DrainedBuffer(cfg, ScanSession(cfg, st1, end, ticked), wm);
    } else {
      OpenBuffer(cfg, st1.inputs, wm);
    }
  }

  /** One round of the loop over sessions: sort, then scan a due session and go on, or stop. */
  lemma {:induction false} DrainStep(cfg: Config, st: State, wm: int) returns (st1: State)
    requires cfg.Valid() && cfg.kind == Session && wm < MAX_INT64 && Positive(st.inputs)
    ensures st1 == st.(inputs := StableSort(st.inputs)) && Sorted(st1.inputs) && Positive(st1.inputs)
    ensures var (end, ticked) := SessionEnd(cfg, st1.inputs);
            && end > 0
            && (end > wm ==> DrainSession(cfg, st, wm) == st1.(nextEnd := end))
            && (end <= wm ==>
                  && st1.inputs != []
                  && var r := ScanSession(cfg, st1, end, ticked);
                  && Positive(r.inputs) && |r.inputs| < |st.inputs|
                  && DrainSession(cfg, st, wm) == DrainSession(cfg, r, wm))
  {
    st1 := st.(inputs := StableSort(st.inputs));
    SortKeepsPositive(st.inputs);
    EndIsPositive(cfg, st1.inputs);
    var (end, ticked) := SessionEnd(cfg, st1.inputs);
    if end <= wm {
      SessionScanShrinks(cfg, st1);
      ScanSessionPositive(cfg, st1, end, ticked);
    }
  }

  lemma {:induction false} EndIsPositive(cfg: Config, s: seq<Tuple>)
    requires cfg.Valid() && Sorted(s) && Positive(s)
    ensures SessionEnd(cfg, s).0 > 0
  {
    if s != [] {
      WalkHolds(cfg, s, |s|);
      assert s[0] in s;
    }
  }

  /** Once a watermark has been processed, the buffered tuples up to it are one open session. */
  lemma WatermarkLeavesOneSession(cfg: Config, startTime: int, events: seq<Event>)
    requires cfg.Valid() && cfg.kind == Session && InRange(cfg, 0) && ValidEvents(cfg, events)
    requires Run(cfg, startTime, events).queue != []
    ensures var st := Run(cfg, startTime, events);
            var r := StepEvent(cfg, st, NextWatermark);
            Sorted(r.inputs) && Open(cfg, r.inputs, st.queue[0])
  {
    var st := Run(cfg, startTime, events);
    assert st.queue[0] in st.queue;
    DrainedBuffer(cfg, st.(queue := st.queue[1..]), st.queue[0]);
  }
}
