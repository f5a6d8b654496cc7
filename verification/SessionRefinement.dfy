/** Event-time session windows against a batch definition: every run emits the sessions that are cut, one after the
    other, off the sorted sequence of all accepted tuples. */
module SessionRefinement {
  import opened Sequences
  import opened Collections
  import opened Watermarks
  import opened EventWindows
  import opened EventRefinement
  import opened Sessions
  import EventBoundary

  // ----- the batch definition

  /** Sessions cut off so far, the tuples not yet cut, whether the last cut was a tick, and where it was. */
  datatype Cutting = Cutting(windows: seq<Window>, rest: seq<Tuple>, ticked: bool, last: int)

  /** Nothing cut off the sorted tuples yet. */
  function Uncut(accepted: seq<Tuple>, startTime: int): (g: Cutting) {
    Cutting([], StableSort(accepted), false, startTime)
  }

  /** Is the end of the first session known? */
  predicate Determined(cfg: Config, s: seq<Tuple>)
    requires cfg.length > 0
  {
    s != [] && SessionEnd(cfg, s).0 < MAX_INT64
  }

  /** The first session of the tuples not yet cut. */
  function CutOne(cfg: Config, g: Cutting): (r: Cutting)
    requires cfg.length > 0 && Determined(cfg, g.rest)
  {
    var (end, ticked) := SessionEnd(cfg, g.rest);
    var w := Window(if g.ticked then g.last else g.rest[0].ts, end, Packaged(Select(g.rest, Hit(cfg, end, 0))));
    Cutting(g.windows + [w], Select(g.rest, Kept(cfg, end, 0)), ticked, end)
  }

  /** The first `n` sessions, or all there are. */
  function Cut(cfg: Config, g: Cutting, n: nat): (r: Cutting)
    requires cfg.length > 0
  {
    if n == 0 then g
    else
      var r := Cut(cfg, g, n - 1);
      if Determined(cfg, r.rest) then CutOne(cfg, r) else r
  }

  /** All sessions that end by a time. */
  function CutUpTo(cfg: Config, g: Cutting, upTo: int): (r: Cutting)
    requires cfg.length > 0
    decreases |g.rest|
  {
    if !Determined(cfg, g.rest) || SessionEnd(cfg, g.rest).0 > upTo then g
    else
      var r := CutOne(cfg, g);
      if |r.rest| >= |g.rest| then r else CutUpTo(cfg, r, upTo)
  }

  // ----- a later tuple does not change a determined end

  lemma {:induction false} WalkAgrees(cfg: Config, s: seq<Tuple>, s': seq<Tuple>, n: nat)
    requires cfg.length > 0 && 0 < |s| && 0 < |s'| && n <= |s| && n <= |s'|
    requires s[0] == s'[0] && s[..n] == s'[..n]
    ensures Walk(cfg, s, n) == Walk(cfg, s', n)
  {
    if n > 0 {
      assert s[..n][..n - 1] == s[..n - 1] && s'[..n][..n - 1] == s'[..n - 1];
      assert s[..n][n - 1] == s'[..n][n - 1];
      WalkAgrees(cfg, s, s', n - 1);
    }
  }

  /** The tuple that ends the walk. */
  lemma {:induction false} StopsAt(cfg: Config, s: seq<Tuple>, n: nat) returns (k: nat)
    requires cfg.length > 0 && s != [] && n <= |s| && Walk(cfg, s, n).Ended?
    ensures k < n && Walk(cfg, s, k).Walking? && Walk(cfg, s, k + 1) == Walk(cfg, s, n)
  {
    k := n - 1;
    if Walk(cfg, s, k).Ended? {
      k := StopsAt(cfg, s, n - 1);
    }
  }

  lemma {:induction false} TicksGrow(cfg: Config, s: seq<Tuple>, n: nat, m: nat)
    requires cfg.length > 0 && s != [] && n <= m <= |s| && Walk(cfg, s, m).Walking?
    ensures Walk(cfg, s, n).Walking? && Walk(cfg, s, n).tick <= Walk(cfg, s, m).tick
  {
    if n < m {
      TicksGrow(cfg, s, n, m - 1);
    }
  }

  /** Is this the sequence with `t` in place `j`? */
  ghost predicate With(s: seq<Tuple>, t: Tuple, j: nat, s': seq<Tuple>) {
    && j <= |s| && |s'| == |s| + 1 && s'[..j] == s[..j] && s'[j] == t
    && forall i :: j < i < |s'| ==> s'[i] == s[i - 1]
  }

  lemma {:induction false} SamePrefix(s: seq<Tuple>, s': seq<Tuple>, j: nat, n: nat)
    requires n <= j <= |s| && j <= |s'| && s'[..j] == s[..j]
    ensures s'[..n] == s[..n] && (n > 0 ==> s'[0] == s[0])
  {
    assert s'[..j][..n] == s'[..n] && s[..j][..n] == s[..n];
    if n > 0 {
      assert s'[..j][0] == s[..j][0];
    }
  }

  lemma {:induction false} WithAppend(s: seq<Tuple>, t: Tuple, j: nat, s': seq<Tuple>, x: Tuple)
    requires With(s, t, j, s')
    ensures With(s + [x], t, j, s' + [x])
  {
    assert (s + [x])[..j] == s[..j] && (s' + [x])[..j] == s'[..j];
  }

  /** Where a tuple goes into a sorted sequence. */
  lemma {:induction false} InsertAt(s: seq<Tuple>, t: Tuple) returns (j: nat)
    requires Sorted(s)
    ensures With(s, t, j, Insert(s, t))
    ensures forall i :: 0 <= i < j ==> s[i].ts <= t.ts
    ensures forall i :: j <= i < |s| ==> t.ts < s[i].ts
  {
    if s == [] || s[|s| - 1].ts <= t.ts {
      j := |s|;
    } else {
      var n := |s| - 1;
      j := InsertAt(s[..n], t);
      WithAppend(s[..n], t, j, Insert(s[..n], t), s[n]);
      assert s == s[..n] + [s[n]];
    }
  }

  /** The tuple that ends the walk, seen with one before it that also lies after the end. */
  lemma {:induction false} StopsEarlier(cfg: Config, et: int, w: SessionWalk, ts: int, ts': int)
    requires cfg.length > 0 && w.Walking? && 0 < w.p <= ts' <= ts < MAX_INT64 && cfg.interval >= 0
    requires WalkTuple(cfg, et, w, ts).Ended? && WalkTuple(cfg, et, w, ts).end < ts'
    ensures WalkTuple(cfg, et, w, ts') == WalkTuple(cfg, et, w, ts)
  {
  }

  /** The tuples between an inserted one and the one that ended the walk all lie after the final tick, so the walk ran
      through every tick up to it; with the inserted tuple it is one tick ahead. */
  ghost predicate Between(cfg: Config, s: seq<Tuple>, t: Tuple, j: nat, k: nat) {
    && cfg.Valid() && Sorted(s) && Positive(s) && 1 <= j < k < |s|
    && s[j - 1].ts <= t.ts < s[j].ts
    && Walk(cfg, s, k).Walking? && Walk(cfg, s, k).tick < t.ts
    && Walk(cfg, s, k + 1) == Ended(Walk(cfg, s, k).tick, true)
  }

  /** The walk climbs by one tick at the tuple `i`, which lies after the tick `top`. */
  ghost predicate Climbs(cfg: Config, s: seq<Tuple>, top: int, i: nat)
    requires cfg.length > 0 && 1 <= i < |s|
  {
    var w := Walk(cfg, s, i);
    && w.Walking? && w.p == s[i - 1].ts && w.tick - cfg.length <= s[0].ts
    && Walk(cfg, s, i + 1) == Walking(w.tick + cfg.length, s[i].ts)
    && w.tick + cfg.length <= top < s[i].ts && s[i].ts - s[i - 1].ts <= cfg.interval
  }

  lemma {:induction false} ClimbsBetween(cfg: Config, s: seq<Tuple>, t: Tuple, j: nat, k: nat, i: nat)
    requires Between(cfg, s, t, j, k) && j <= i < k
    ensures Climbs(cfg, s, Walk(cfg, s, k).tick, i)
  {
    var top := Walk(cfg, s, k).tick;
    assert s[j].ts <= s[i].ts && s[i - 1] in s && s[i] in s && s[k] in s;
    TicksGrow(cfg, s, i, k);
    TicksGrow(cfg, s, i + 1, k);
    WalkHolds(cfg, s, i);
    ClimbStep(cfg, s[0].ts, Walk(cfg, s, i), s[i].ts, top);
  }

  lemma {:induction false} ClimbStep(cfg: Config, et: int, w: SessionWalk, ts: int, top: int)
    requires cfg.length > 0 && w.Walking? && 0 < w.p && w.tick <= top < ts && ts < MAX_INT64 && cfg.interval >= 0
    requires var w' := WalkTuple(cfg, et, w, ts); w'.Walking? && w'.tick <= top
    requires w.p + cfg.interval < MAX_INT64 || ts - w.p <= cfg.interval
    ensures WalkTuple(cfg, et, w, ts) == Walking(w.tick + cfg.length, ts)
    ensures w.tick - cfg.length <= et && w.tick + cfg.length <= top && ts - w.p <= cfg.interval
  {
  }

  /** One step of a walk that climbs. */
  lemma {:induction false} StepAhead(cfg: Config, s: seq<Tuple>, n: nat, tick: int, p: int)
    requires cfg.length > 0 && n < |s| && Walk(cfg, s, n) == Walking(tick, p)
    requires tick < s[n].ts && tick - cfg.length <= s[0].ts && s[n].ts - p <= cfg.interval
    ensures Walk(cfg, s, n + 1) == Walking(tick + cfg.length, s[n].ts)
  {
  }

  lemma {:induction false} OneTickAhead(
    cfg: Config, s: seq<Tuple>, t: Tuple, j: nat, top: int, s': seq<Tuple>, i: nat)
    requires cfg.length > 0 && 1 <= j <= i < |s| && With(s, t, j, s') && s[j - 1].ts <= t.ts < s[j].ts && top < t.ts
    requires forall n :: j <= n <= i ==> Climbs(cfg, s, top, n)
    ensures Walk(cfg, s, i).Walking?
    ensures Walk(cfg, s', i + 1)
         == Walking(Walk(cfg, s, i).tick + cfg.length, if i == j then t.ts else s[i - 1].ts)
    decreases i
  {
    if i == j {
      AheadFirst(cfg, s, t, j, top, s');
    } else {
      OneTickAhead(cfg, s, t, j, top, s', i - 1);
      SamePrefix(s, s', j, 1);
      AheadNext(cfg, s, s', i, top, if i - 1 == j then t.ts else s[i - 2].ts);
    }
  }

  lemma {:induction false} AheadFirst(cfg: Config, s: seq<Tuple>, t: Tuple, j: nat, top: int, s': seq<Tuple>)
    requires cfg.length > 0 && 1 <= j < |s| && With(s, t, j, s') && s[j - 1].ts <= t.ts < s[j].ts && top < t.ts
    requires Climbs(cfg, s, top, j)
    ensures Walk(cfg, s, j).Walking? && Walk(cfg, s', j + 1) == Walking(Walk(cfg, s, j).tick + cfg.length, t.ts)
  {
    SamePrefix(s, s', j, j);
    WalkAgrees(cfg, s, s', j);
    StepAhead(cfg, s', j, Walk(cfg, s, j).tick, s[j - 1].ts);
  }

  lemma {:induction false} AheadNext(cfg: Config, s: seq<Tuple>, s': seq<Tuple>, i: nat, top: int, p: int)
    requires cfg.length > 0 && 2 <= i < |s| && i < |s'| && s'[i] == s[i - 1] && s'[0] == s[0]
    requires Climbs(cfg, s, top, i - 1) && Climbs(cfg, s, top, i) && s[i - 2].ts <= p
    requires Walk(cfg, s', i) == Walking(Walk(cfg, s, i - 1).tick + cfg.length, p)
    ensures Walk(cfg, s', i + 1) == Walking(Walk(cfg, s, i).tick + cfg.length, s[i - 1].ts)
  {
    StepAhead(cfg, s', i, Walk(cfg, s, i).tick, p);
  }

  /** The final tick is reached one tuple earlier. */
  lemma {:induction false} TickAgain(cfg: Config, s: seq<Tuple>, n: nat, tick: int, p: int)
    requires cfg.length > 0 && n < |s| && Walk(cfg, s, n) == Walking(tick, p)
    requires tick < s[n].ts && tick - cfg.length > s[0].ts && s[n].ts - p <= cfg.interval && tick < MAX_INT64
    ensures Walk(cfg, s, n + 1) == Ended(tick, true)
  {
  }

  lemma {:induction false} EndsBetween(cfg: Config, s: seq<Tuple>, t: Tuple, j: nat, k: nat, s': seq<Tuple>)
    requires Between(cfg, s, t, j, k) && With(s, t, j, s')
    ensures Walk(cfg, s', k + 1) == Walk(cfg, s, k + 1)
  {
    LastTickAhead(cfg, s, t, j, k, s');
    TickAgain(cfg, s', k, Walk(cfg, s, k).tick, if k - 1 == j then t.ts else s[k - 2].ts);
  }

  /** With the inserted tuple the last tick has been reached one tuple earlier. */
  lemma {:induction false} LastTickAhead(cfg: Config, s: seq<Tuple>, t: Tuple, j: nat, k: nat, s': seq<Tuple>)
    requires Between(cfg, s, t, j, k) && With(s, t, j, s')
    ensures var top, p := Walk(cfg, s, k).tick, if k - 1 == j then t.ts else s[k - 2].ts;
            && Walk(cfg, s', k) == Walking(top, p) && Walk(cfg, s, k + 1) == Ended(top, true)
            && top < s'[k].ts && top - cfg.length > s'[0].ts && s'[k].ts - p <= cfg.interval && top < MAX_INT64
  {
    AheadAtLast(cfg, s, t, j, k, s');
    LastClimb(cfg, s, t, j, k);
    WithAt(s, t, j, s', k);
  }

  lemma {:induction false} AheadAtLast(cfg: Config, s: seq<Tuple>, t: Tuple, j: nat, k: nat, s': seq<Tuple>)
    requires Between(cfg, s, t, j, k) && With(s, t, j, s')
    ensures Walk(cfg, s, k - 1).Walking?
    ensures Walk(cfg, s', k)
         == Walking(Walk(cfg, s, k - 1).tick + cfg.length, if k - 1 == j then t.ts else s[k - 2].ts)
  {
    var i, top := k - 1, Walk(cfg, s, k).tick;
    AllClimb(cfg, s, t, j, k);
    OneTickAhead(cfg, s, t, j, top, s', i);
  }

  lemma WithAt(s: seq<Tuple>, t: Tuple, j: nat, s': seq<Tuple>, k: nat)
    requires With(s, t, j, s') && 1 <= j < k < |s'|
    ensures s'[k] == s[k - 1] && s'[0] == s[0]
  {
    SamePrefix(s, s', j, 1);
  }

  lemma {:induction false} AllClimb(cfg: Config, s: seq<Tuple>, t: Tuple, j: nat, k: nat)
    requires Between(cfg, s, t, j, k)
    ensures forall i :: j <= i <= k - 1 ==> Climbs(cfg, s, Walk(cfg, s, k).tick, i)
  {
    forall i | j <= i < k ensures Climbs(cfg, s, Walk(cfg, s, k).tick, i) {
      ClimbsBetween(cfg, s, t, j, k, i);
    }
  }

  lemma {:induction false} LastClimb(cfg: Config, s: seq<Tuple>, t: Tuple, j: nat, k: nat)
    requires Between(cfg, s, t, j, k)
    ensures var top := Walk(cfg, s, k).tick;
            && Walk(cfg, s, k - 1).Walking? && Walk(cfg, s, k - 1).tick + cfg.length == top
            && Walk(cfg, s, k + 1) == Ended(top, true)
            && top < t.ts && top < s[k - 1].ts && top - cfg.length > s[0].ts && top < MAX_INT64
            && s[k - 1].ts - (if k - 1 == j then t.ts else s[k - 2].ts) <= cfg.interval
  {
    ClimbsBetween(cfg, s, t, j, k, k - 1);
    assert s[k] in s;
  }

  /** A tuple after a determined session end does not move it. */
  lemma {:induction false} EndIsStable(cfg: Config, s: seq<Tuple>, t: Tuple)
    requires cfg.Valid() && Sorted(s) && Positive(s) && Determined(cfg, s)
    requires SessionEnd(cfg, s).0 < t.ts < MAX_INT64
    ensures SessionEnd(cfg, Insert(s, t)) == SessionEnd(cfg, s)
  {
    EndCovers(cfg, s);
    WalkEnds(cfg, s);
    var k := StopsAt(cfg, s, |s|);
    var j := InsertPlace(s, t);
    SameWalk(cfg, s, t, j, k, Insert(s, t));
    SameEnd(cfg, s, Insert(s, t));
  }

  lemma {:induction false} SameWalk(cfg: Config, s: seq<Tuple>, t: Tuple, j: nat, k: nat, s': seq<Tuple>)
    requires cfg.Valid() && Sorted(s) && Positive(s) && 1 <= j <= |s| && k < |s| && With(s, t, j, s')
    requires s[j - 1].ts <= t.ts && (j < |s| ==> t.ts < s[j].ts)
    requires Walk(cfg, s, k).Walking? && Walk(cfg, s, k + 1).Ended? && Walk(cfg, s, k + 1).end < t.ts
    ensures Walk(cfg, s', |s'|) == Walk(cfg, s, k + 1)
  {
    StopStays(cfg, s, t, j, k, s');
    EndedStays(cfg, s', k + 1, |s'|);
  }

  lemma WalkEnds(cfg: Config, s: seq<Tuple>)
    requires cfg.length > 0 && Determined(cfg, s)
    ensures Walk(cfg, s, |s|).Ended? && Walk(cfg, s, |s|).end == SessionEnd(cfg, s).0
  {
  }

  /** Where a tuple that is not older than the first one goes. */
  lemma InsertPlace(s: seq<Tuple>, t: Tuple) returns (j: nat)
    requires Sorted(s) && s != [] && s[0].ts <= t.ts
    ensures With(s, t, j, Insert(s, t)) && 1 <= j && s[j - 1].ts <= t.ts && (j < |s| ==> t.ts < s[j].ts)
  {
    j := InsertAt(s, t);
  }

  lemma SameEnd(cfg: Config, s: seq<Tuple>, s': seq<Tuple>)
    requires cfg.length > 0 && s != [] && s' != [] && Walk(cfg, s, |s|) == Walk(cfg, s', |s'|)
    ensures SessionEnd(cfg, s) == SessionEnd(cfg, s')
  {
  }

  lemma {:induction false} StopStays(cfg: Config, s: seq<Tuple>, t: Tuple, j: nat, k: nat, s': seq<Tuple>)
    requires cfg.Valid() && Sorted(s) && Positive(s) && 1 <= j <= |s| && k < |s| && With(s, t, j, s')
    requires s[j - 1].ts <= t.ts && (j < |s| ==> t.ts < s[j].ts)
    requires Walk(cfg, s, k).Walking? && Walk(cfg, s, k + 1).Ended? && Walk(cfg, s, k + 1).end < t.ts
    ensures Walk(cfg, s', k + 1) == Walk(cfg, s, k + 1)
  {
    SamePrefix(s, s', j, 1);
    if j > k {
      SamePrefix(s, s', j, k + 1);
      WalkAgrees(cfg, s, s', k + 1);
    } else {
      EndsWith(cfg, s, t, j, k, s');
    }
  }

  lemma {:induction false} EndsWith(cfg: Config, s: seq<Tuple>, t: Tuple, j: nat, k: nat, s': seq<Tuple>)
    requires cfg.Valid() && Sorted(s) && Positive(s) && 1 <= j <= k < |s| && With(s, t, j, s')
    requires s[j - 1].ts <= t.ts < s[j].ts
    requires Walk(cfg, s, k).Walking? && Walk(cfg, s, k + 1).Ended? && Walk(cfg, s, k + 1).end < t.ts
    ensures Walk(cfg, s', k + 1) == Walk(cfg, s, k + 1)
  {
    WalkHolds(cfg, s, k);
    assert s[k] in s && s[k - 1] in s;
    SamePrefix(s, s', j, j);
    if j == k {
      WalkAgrees(cfg, s, s', k);
      StopsEarlier(cfg, s[0].ts, Walk(cfg, s, k), s[k].ts, t.ts);
    } else {
      assert s[j].ts <= s[k - 1].ts;
      EndsBetween(cfg, s, t, j, k, s');
    }
  }

  // ----- one cut

  /** What is left to cut is in time order. */
  ghost predicate Ready(cfg: Config, g: Cutting) {
    cfg.Valid() && cfg.kind == Session && Sorted(g.rest) && Positive(g.rest)
  }

  lemma {:induction false} SelectSuffix(s: seq<Tuple>, p: Tuple -> bool, m: nat)
    requires m <= |s| && (forall i :: 0 <= i < m ==> !p(s[i])) && forall i :: m <= i < |s| ==> p(s[i])
    ensures Select(s, p) == s[m..]
  {
    SelectEmpty(s[..m], p);
    SelectAll(s[m..], p);
    SelectConcat(s[..m], s[m..], p);
    assert s[..m] + s[m..] == s;
  }

  /** A cut splits the tuples in two. */
  lemma {:induction false} CutParts(cfg: Config, g: Cutting) returns (m: nat)
    requires Ready(cfg, g) && Determined(cfg, g.rest)
    ensures 0 < m < |g.rest|
    ensures var end := SessionEnd(cfg, g.rest).0;
            && Select(g.rest, Hit(cfg, end, 0)) == g.rest[..m] && CutOne(cfg, g).rest == g.rest[m..]
            && g.rest[m - 1].ts <= end < g.rest[m].ts
    ensures Ready(cfg, CutOne(cfg, g))
  {
    var (end, ticked) := SessionEnd(cfg, g.rest);
    m := FirstSession(cfg, g.rest, end, ticked);
    RestIs(cfg, g.rest, end, m);
    SuffixReady(cfg, g, m);
  }

  lemma {:induction false} RestIs(cfg: Config, s: seq<Tuple>, end: int, m: nat)
    requires cfg.kind == Session && Sorted(s) && 0 < m < |s| && s[m - 1].ts <= end < s[m].ts
    ensures Select(s, Kept(cfg, end, 0)) == s[m..]
  {
    KeptAfter(cfg, s, end);
    forall i | 0 <= i < |s| ensures Kept(cfg, end, 0)(s[i]) == (i >= m) {
      assert s[i] in s;
    }
    SelectSuffix(s, Kept(cfg, end, 0), m);
  }

  lemma {:induction false} SuffixReady(cfg: Config, g: Cutting, m: nat)
    requires Ready(cfg, g) && m <= |g.rest|
    ensures Sorted(g.rest[m..]) && Positive(g.rest[m..])
  {
    forall t | t in g.rest[m..] ensures 0 < t.ts < MAX_INT64 {
      assert t in g.rest;
    }
  }

  /** The next end lies after the last one. */
  lemma {:induction false} EndsIncrease(cfg: Config, g: Cutting)
    requires Ready(cfg, g) && Determined(cfg, g.rest)
    ensures var r := CutOne(cfg, g); r.rest != [] && SessionEnd(cfg, g.rest).0 < SessionEnd(cfg, r.rest).0
  {
    var m := CutParts(cfg, g);
    var r := CutOne(cfg, g);
    if Determined(cfg, r.rest) {
      EndCovers(cfg, r.rest);
    }
  }

  /** Inserting after a prefix. */
  lemma {:induction false} InsertAfter(a: seq<Tuple>, b: seq<Tuple>, t: Tuple)
    requires a != [] ==> a[|a| - 1].ts <= t.ts
    ensures Insert(a + b, t) == a + Insert(b, t)
  {
    if b == [] {
      assert a + b == a;
    } else if b[|b| - 1].ts <= t.ts {
      assert a + b + [t] == a + (b + [t]);
    } else {
      var n := |b| - 1;
      InsertAfter(a, b[..n], t);
      assert (a + b)[..|a| + n] == a + b[..n];
      assert a + Insert(b[..n], t) + [b[n]] == a + (Insert(b[..n], t) + [b[n]]);
    }
  }

  lemma {:induction false} InsertReady(cfg: Config, g: Cutting, t: Tuple)
    requires Ready(cfg, g) && 0 < t.ts < MAX_INT64
    ensures Ready(cfg, g.(rest := Insert(g.rest, t)))
  {
    InsertSorted(g.rest, t);
    forall x | x in Insert(g.rest, t) ensures 0 < x.ts < MAX_INT64 {
      InsertMember(g.rest, t, x);
    }
  }

  lemma {:induction false} InsertParts(cfg: Config, g: Cutting, t: Tuple)
    requires Ready(cfg, g) && Determined(cfg, g.rest) && SessionEnd(cfg, g.rest).0 < t.ts
    ensures var s, s', end := g.rest, Insert(g.rest, t), SessionEnd(cfg, g.rest).0;
            && s'[0] == s[0] && Select(s', Hit(cfg, end, 0)) == Select(s, Hit(cfg, end, 0))
            && Select(s', Kept(cfg, end, 0)) == Insert(Select(s, Kept(cfg, end, 0)), t)
  {
    var s, end := g.rest, SessionEnd(cfg, g.rest).0;
    var m := CutParts(cfg, g);
    SplitAt(s, m, end);
    InsertAfter(s[..m], s[m..], t);
    SelectsApart(cfg, s[..m], Insert(s[m..], t), end, s[m..], t);
  }

  lemma {:induction false} SplitAt(s: seq<Tuple>, m: nat, end: int)
    requires Sorted(s) && 0 < m < |s| && s[m - 1].ts <= end < s[m].ts
    ensures s == s[..m] + s[m..]
    ensures (forall x :: x in s[..m] ==> x.ts <= end) && forall x :: x in s[m..] ==> end < x.ts
  {
    forall x | x in s[..m] ensures x.ts <= end {
      var i :| 0 <= i < m && s[i] == x;
      assert s[i].ts <= s[m - 1].ts;
    }
    forall x | x in s[m..] ensures end < x.ts {
      var i :| m <= i < |s| && s[i] == x;
      assert s[m].ts <= s[i].ts;
    }
  }

  /** A later tuple goes past the cut. */
  lemma {:induction false} CutOneInsert(cfg: Config, g: Cutting, t: Tuple)
    requires Ready(cfg, g) && Determined(cfg, g.rest) && SessionEnd(cfg, g.rest).0 < t.ts < MAX_INT64
    ensures Determined(cfg, Insert(g.rest, t))
    ensures CutOne(cfg, g.(rest := Insert(g.rest, t)))
         == CutOne(cfg, g).(rest := Insert(CutOne(cfg, g).rest, t))
  {
    EndIsStable(cfg, g.rest, t);
    InsertParts(cfg, g, t);
  }

  lemma {:induction false} KeptAfter(cfg: Config, s: seq<Tuple>, end: int)
    requires cfg.kind == Session
    ensures forall t :: t in s ==> Kept(cfg, end, 0)(t) == (t.ts > end)
  {
    assert !cfg.Overlapping();
  }

  lemma {:induction false} SelectsApart(cfg: Config, a: seq<Tuple>, b: seq<Tuple>, end: int, b0: seq<Tuple>, t: Tuple)
    requires cfg.kind == Session && b == Insert(b0, t) && end < t.ts
    requires (forall x :: x in a ==> x.ts <= end) && forall x :: x in b0 ==> end < x.ts
    ensures Select(a + b, Hit(cfg, end, 0)) == a && Select(a + b, Kept(cfg, end, 0)) == b
  {
    forall x | x in b ensures end < x.ts {
      InsertMember(b0, t, x);
    }
    HitsUpTo(cfg, a, end);
    HitsUpTo(cfg, b, end);
    KeptAfter(cfg, a, end);
    KeptAfter(cfg, b, end);
    SelectConcat(a, b, Hit(cfg, end, 0));
    SelectAll(a, Hit(cfg, end, 0));
    SelectEmpty(b, Hit(cfg, end, 0));
    SelectConcat(a, b, Kept(cfg, end, 0));
    SelectEmpty(a, Kept(cfg, end, 0));
    SelectAll(b, Kept(cfg, end, 0));
  }

  // ----- several cuts

  /** Are there `n` sessions to cut? */
  predicate CanCut(cfg: Config, g: Cutting, n: nat)
    requires cfg.length > 0
  {
    n == 0 || (CanCut(cfg, g, n - 1) && Determined(cfg, Cut(cfg, g, n - 1).rest))
  }

  lemma {:induction false} CutReady(cfg: Config, g: Cutting, n: nat)
    requires Ready(cfg, g) && CanCut(cfg, g, n)
    ensures Ready(cfg, Cut(cfg, g, n)) && |Cut(cfg, g, n).windows| == |g.windows| + n
  {
    if n > 0 {
      CutReady(cfg, g, n - 1);
      var m := CutParts(cfg, Cut(cfg, g, n - 1));
    }
  }

  /** What there is to know about the last of several cuts. */
  lemma {:induction false} LastCut(cfg: Config, g: Cutting, n: nat)
    requires Ready(cfg, g) && CanCut(cfg, g, n) && n > 0
    ensures var b := Cut(cfg, g, n - 1);
            && Ready(cfg, b) && Determined(cfg, b.rest) && Cut(cfg, g, n) == CutOne(cfg, b)
            && SessionEnd(cfg, b.rest).0 == Cut(cfg, g, n).last
            && (n >= 2 ==> b.last < Cut(cfg, g, n).last)
  {
    CutReady(cfg, g, n - 1);
    if n >= 2 {
      CutReady(cfg, g, n - 2);
      EndsIncrease(cfg, Cut(cfg, g, n - 2));
    }
  }

  /** A tuple after all cuts ends up in what is left. */
  lemma {:induction false} CutInsert(cfg: Config, g: Cutting, n: nat, t: Tuple)
    requires Ready(cfg, g) && CanCut(cfg, g, n) && t.ts < MAX_INT64
    requires n > 0 ==> Cut(cfg, g, n).last < t.ts
    ensures var g' := g.(rest := Insert(g.rest, t));
            CanCut(cfg, g', n) && Cut(cfg, g', n) == Cut(cfg, g, n).(rest := Insert(Cut(cfg, g, n).rest, t))
  {
    if n > 0 {
      LastCut(cfg, g, n);
      CutInsert(cfg, g, n - 1, t);
      CutOneInsert(cfg, Cut(cfg, g, n - 1), t);
    }
  }

  // ----- the machine

  /** The sessions an operator has emitted, and what it still buffers, in time order. */
  function Seen(st: State): (g: Cutting) {
    Cutting(st.emitted, StableSort(st.inputs), st.lastTicked, st.triggerTime)
  }

  lemma {:induction false} SortOfSorted(s: seq<Tuple>)
    requires Sorted(s)
    ensures StableSort(s) == s
  {
    if s != [] {
      var n := |s| - 1;
      assert s == s[..n] + [s[n]] && (n > 0 ==> s[..n][n - 1].ts <= s[n].ts);
      SortOfSorted(s[..n]);
      assert Insert(s[..n], s[n]) == s;
    }
  }

  lemma {:induction false} ScanIsCut(cfg: Config, st: State, end: int, ticked: bool)
    requires Ready(cfg, Seen(st)) && StableSort(st.inputs) == st.inputs && Determined(cfg, st.inputs)
    requires SessionEnd(cfg, st.inputs) == (end, ticked)
    ensures Seen(ScanSession(cfg, st, end, ticked)) == CutOne(cfg, Seen(st))
    ensures ScanSession(cfg, st, end, ticked).prevEnd == end
    ensures Ready(cfg, CutOne(cfg, Seen(st)))
  {
    var m := CutParts(cfg, Seen(st));
    ScanFields(cfg, st, end, ticked);
    SortOfSorted(CutOne(cfg, Seen(st)).rest);
  }

  lemma {:induction false} ScanFields(cfg: Config, st: State, end: int, ticked: bool)
    requires cfg.kind == Session && st.inputs != [] && Select(st.inputs, Hit(cfg, end, 0)) != []
    ensures var r, hits := ScanSession(cfg, st, end, ticked), Select(st.inputs, Hit(cfg, end, 0));
            var start := if st.lastTicked then st.triggerTime else st.inputs[0].ts;
            && r.inputs == Select(st.inputs, Kept(cfg, end, 0)) && r.lastTicked == ticked && r.triggerTime == end
            && r.emitted == st.emitted + [Window(start, end, Packaged(hits))]
  {
    assert !cfg.Overlapping();
  }

  lemma {:induction false} SeenReady(cfg: Config, st: State)
    requires cfg.Valid() && cfg.kind == Session && Positive(st.inputs)
    ensures Ready(cfg, Seen(st))
  {
    SortKeepsPositive(st.inputs);
  }

  /** Processing a watermark cuts off every session that ends by it. */
  lemma {:induction false} DrainIsCut(cfg: Config, st: State, wm: int)
    requires cfg.Valid() && cfg.kind == Session && wm < MAX_INT64 && Positive(st.inputs)
    ensures var r := DrainSession(cfg, st, wm);
            Seen(r) == CutUpTo(cfg, Seen(st), wm) && Sorted(r.inputs)
    decreases |st.inputs|
  {
    SeenReady(cfg, st);
    var st1 := DrainStep(cfg, st, wm);
    SortOfSorted(st1.inputs);
    assert Seen(st1) == Seen(st);
    var (end, ticked) := SessionEnd(cfg, st1.inputs);
    if end <= wm {
      ScanIsCut(cfg, st1, end, ticked);
      CutUpToOne(cfg, Seen(st1), wm);
      DrainIsCut(cfg, ScanSession(cfg, st1, end, ticked), wm);
    }
  }

  // ----- whole runs

  /** Are the emitted windows the first sessions cut off `g`, with the rest still buffered? */
  ghost predicate Follows(cfg: Config, g: Cutting, st: State)
    requires cfg.length > 0
  {
    && CanCut(cfg, g, |st.emitted|) && Seen(st) == Cut(cfg, g, |st.emitted|)
    && (if st.emitted == [] then st.prevEnd == 0 else st.prevEnd == st.triggerTime)
  }

  lemma {:induction false} ScanFollows(cfg: Config, g: Cutting, st: State, end: int, ticked: bool)
    requires Ready(cfg, Seen(st)) && StableSort(st.inputs) == st.inputs && Determined(cfg, st.inputs)
    requires SessionEnd(cfg, st.inputs) == (end, ticked) && Follows(cfg, g, st)
    ensures Follows(cfg, g, ScanSession(cfg, st, end, ticked))
  {
    ScanIsCut(cfg, st, end, ticked);
    var r := ScanSession(cfg, st, end, ticked);
    assert |r.emitted| == |st.emitted| + 1;
    assert Cut(cfg, g, |st.emitted| + 1) == CutOne(cfg, Cut(cfg, g, |st.emitted|));
  }

  /** A drain goes on cutting where the operator stopped. */
  lemma {:induction false} DrainFollows(cfg: Config, g: Cutting, st: State, wm: int)
    requires cfg.Valid() && cfg.kind == Session && wm < MAX_INT64 && Positive(st.inputs)
    requires Follows(cfg, g, st) && st.prevEnd <= wm
    ensures var r := DrainSession(cfg, st, wm); Follows(cfg, g, r) && r.prevEnd <= wm
    decreases |st.inputs|
  {
    SeenReady(cfg, st);
    var st1 := DrainStep(cfg, st, wm);
    SortOfSorted(st1.inputs);
    assert Seen(st1) == Seen(st) && Follows(cfg, g, st1);
    var (end, ticked) := SessionEnd(cfg, st1.inputs);
    if end <= wm {
      ScanFollows(cfg, g, st1, end, ticked);
      ScanIsCut(cfg, st1, end, ticked);
      DrainFollows(cfg, g, ScanSession(cfg, st1, end, ticked), wm);
    }
  }

  lemma {:induction false} ArrivalFollows(cfg: Config, g: Cutting, st: State, st': State, t: Tuple)
    requires Ready(cfg, g) && Follows(cfg, g, st) && st.prevEnd < t.ts < MAX_INT64
    requires Seen(st') == Seen(st).(rest := Insert(Seen(st).rest, t)) && st'.prevEnd == st.prevEnd
    ensures Follows(cfg, g.(rest := Insert(g.rest, t)), st')
  {
    CutInsert(cfg, g, |st.emitted|, t);
  }

  lemma {:induction false} SortAppend(s: seq<Tuple>, t: Tuple)
    ensures StableSort(s + [t]) == Insert(StableSort(s), t)
  {
    assert (s + [t])[..|s|] == s;
  }

  /** The state of an operator whose emitted windows are the first sessions of the accepted tuples. */
  ghost predicate SessionInv(cfg: Config, startTime: int, st: State, accepted: seq<Tuple>)
    requires cfg.length > 0
  {
    Ready(cfg, Uncut(accepted, startTime)) && Follows(cfg, Uncut(accepted, startTime), st) && QueueInv(st)
  }

  lemma {:induction false} ArrivalKeeps(
    cfg: Config, startTime: int, st: State, accepted: seq<Tuple>, t: Tuple, room: bool)
    requires cfg.Valid() && cfg.kind == Session && SessionInv(cfg, startTime, st, accepted)
    requires st.gen.lastWm <= t.ts && t.ts != st.prevEnd && 0 < t.ts < MAX_INT64
    ensures SessionInv(cfg, startTime, Receive(cfg, st, t, room), accepted + [t])
  {
    var g, st' := Uncut(accepted, startTime), Receive(cfg, st, t, room);
    assert QueueInv(st') by {
      QueueArrives(cfg, st, t, room);
    }
    SortAppend(accepted, t);
    InsertReady(cfg, g, t);
    ReceivedTuple(cfg, st, t, room);
    ArrivalFollows(cfg, g, st, st', t);
  }

  lemma {:induction false} ReceivedTuple(cfg: Config, st: State, t: Tuple, room: bool)
    requires st.gen.lastWm <= t.ts
    ensures var st' := Receive(cfg, st, t, room);
            Seen(st') == Seen(st).(rest := Insert(Seen(st).rest, t)) && st'.prevEnd == st.prevEnd
  {
    SortAppend(st.inputs, t);
  }

  lemma {:induction false} WatermarkKeeps(cfg: Config, startTime: int, st: State, accepted: seq<Tuple>)
    requires WellFormed(cfg, st) && cfg.kind == Session && SessionInv(cfg, startTime, st, accepted)
    ensures SessionInv(cfg, startTime, StepEvent(cfg, st, NextWatermark), accepted)
  {
    if st.queue != [] {
      assert st.queue[0] in st.queue;
      var st1 := st.(queue := st.queue[1..]);
      assert Seen(st1) == Seen(st);
      DrainFollows(cfg, Uncut(accepted, startTime), st1, st.queue[0]);
    }
  }

  lemma {:induction false} RunKeepsSessionInv(cfg: Config, startTime: int, events: seq<Event>)
    requires cfg.Valid() && cfg.kind == Session && InRange(cfg, 0) && ValidEvents(cfg, events)
    requires NoBoundary(cfg, startTime, events)
    ensures SessionInv(cfg, startTime, Run(cfg, startTime, events), AcceptedIn(cfg, events))
  {
    if events != [] {
      var before, last := events[..|events| - 1], events[|events| - 1];
      var st, accepted := Run(cfg, startTime, before), AcceptedIn(cfg, before);
      RunKeepsSessionInv(cfg, startTime, before);
      AcceptedStep(cfg, startTime, events);
      assert ValidEvent(cfg, last);
      if last.NextWatermark? {
        WatermarkKeeps(cfg, startTime, st, accepted);
      } else if st.gen.lastWm <= last.tuple.ts {
        ArrivalKeeps(cfg, startTime, st, accepted, last.tuple, last.room);
      } else {
        LateKeeps(cfg, startTime, st, accepted, last.tuple, last.room);
      }
    }
  }

  lemma {:induction false} LateKeeps(
    cfg: Config, startTime: int, st: State, accepted: seq<Tuple>, t: Tuple, room: bool)
    requires cfg.Valid() && SessionInv(cfg, startTime, st, accepted) && t.ts < st.gen.lastWm
    ensures SessionInv(cfg, startTime, Receive(cfg, st, t, room), accepted)
  {
    assert Seen(Receive(cfg, st, t, room)) == Seen(st);
    QueueArrives(cfg, st, t, room);
  }

  // ----- main results

  /** Refinement. In every run without a boundary tuple the emitted windows are the first sessions cut off the sorted
      sequence of all accepted tuples, and the buffer holds exactly what was not cut. */
  lemma {:induction false} SessionsRefineBatch(cfg: Config, startTime: int, events: seq<Event>)
    requires cfg.Valid() && cfg.kind == Session && InRange(cfg, 0) && ValidEvents(cfg, events)
    requires NoBoundary(cfg, startTime, events)
    ensures var st := Run(cfg, startTime, events);
            var g := Cut(cfg, Uncut(AcceptedIn(cfg, events), startTime), |st.emitted|);
            st.emitted == g.windows && StableSort(st.inputs) == g.rest
  {
    RunKeepsSessionInv(cfg, startTime, events);
  }

  lemma {:induction false} CutUpToOne(cfg: Config, c: Cutting, upTo: int)
    requires Ready(cfg, c) && Determined(cfg, c.rest) && SessionEnd(cfg, c.rest).0 <= upTo
    ensures CutUpTo(cfg, c, upTo) == CutUpTo(cfg, CutOne(cfg, c), upTo)
  {
    var m := CutParts(cfg, c);
  }

  /** Cuts that were made already are found again. */
  lemma {:induction false} CutUpToSkips(cfg: Config, g: Cutting, n: nat, upTo: int)
    requires Ready(cfg, g) && CanCut(cfg, g, n) && (n > 0 ==> Cut(cfg, g, n).last <= upTo)
    ensures CutUpTo(cfg, g, upTo) == CutUpTo(cfg, Cut(cfg, g, n), upTo)
    decreases n
  {
    if n > 0 {
      LastCut(cfg, g, n);
      CutUpToSkips(cfg, g, n - 1, upTo);
      CutUpToOne(cfg, Cut(cfg, g, n - 1), upTo);
    }
  }

  /** Once a watermark is processed, the emitted windows are all sessions that end by it. */
  lemma {:induction false} WatermarkCompletesSessions(cfg: Config, startTime: int, events: seq<Event>)
    requires cfg.Valid() && cfg.kind == Session && InRange(cfg, 0) && ValidEvents(cfg, events)
    requires NoBoundary(cfg, startTime, events) && Run(cfg, startTime, events).queue != []
    ensures var st := Run(cfg, startTime, events);
            var r, g := StepEvent(cfg, st, NextWatermark), Uncut(AcceptedIn(cfg, events), startTime);
            var all := CutUpTo(cfg, g, st.queue[0]);
            r.emitted == all.windows && r.inputs == all.rest
  {
    var st := Run(cfg, startTime, events);
    var g, st1 := Uncut(AcceptedIn(cfg, events), startTime), st.(queue := st.queue[1..]);
    RunKeepsSessionInv(cfg, startTime, events);
    assert st.queue[0] in st.queue;
    CutUpToSkips(cfg, g, |st.emitted|, st.queue[0]);
    assert Seen(st1) == Seen(st);
    DrainIsCut(cfg, st1, st.queue[0]);
    SortOfSorted(StepEvent(cfg, st, NextWatermark).inputs);
  }

  // ----- exactly without a boundary tuple

  function TotalSize(windows: seq<Window>): (n: nat) {
    if windows == [] then 0 else TotalSize(windows[..|windows| - 1]) + Size(windows[|windows| - 1].content)
  }

  function UpTo(e: int): (p: Tuple -> bool) {
    (t: Tuple) => t.ts <= e
  }

  lemma {:induction false} InsertCount(s: seq<Tuple>, t: Tuple, p: Tuple -> bool)
    ensures |Select(Insert(s, t), p)| == |Select(s, p)| + if p(t) then 1 else 0
  {
    if s == [] || s[|s| - 1].ts <= t.ts {
      SelectAppend(s, t, p);
    } else {
      var n := |s| - 1;
      InsertCount(s[..n], t, p);
      SelectAppend(Insert(s[..n], t), s[n], p);
    }
  }

  lemma {:induction false} SortCount(s: seq<Tuple>, p: Tuple -> bool)
    ensures |Select(StableSort(s), p)| == |Select(s, p)|
  {
    if s != [] {
      SortCount(s[..|s| - 1], p);
      InsertCount(StableSort(s[..|s| - 1]), s[|s| - 1], p);
    }
  }

  /** `c` is `b` after one more cut, of `m` tuples. */
  ghost predicate CutOff(b: Cutting, c: Cutting, m: nat) {
    && 0 < m < |b.rest| && c.rest == b.rest[m..] && b.rest[m - 1].ts <= c.last < b.rest[m].ts
    && |c.windows| == |b.windows| + 1 && c.windows[..|b.windows|] == b.windows
    && c.windows[|b.windows|].end == c.last && Size(c.windows[|b.windows|].content) == m
  }

  lemma {:induction false} CutOneOff(cfg: Config, b: Cutting) returns (m: nat)
    requires Ready(cfg, b) && Determined(cfg, b.rest)
    ensures CutOff(b, CutOne(cfg, b), m)
  {
    m := CutParts(cfg, b);
    PackagedBySrc(b.rest[..m], "");
  }

  /** The cut windows hold exactly the tuples before what is left, and those are the tuples up to the last cut. */
  ghost predicate Sized(s: seq<Tuple>, c: Cutting) {
    && |c.rest| <= |s| && c.rest == s[|s| - |c.rest|..] && TotalSize(c.windows) + |c.rest| == |s|
    && (c.windows != [] ==>
          && c.windows[|c.windows| - 1].end == c.last && 0 < |c.rest| < |s|
          && s[|s| - |c.rest| - 1].ts <= c.last < c.rest[0].ts)
  }

  lemma {:induction false} SizedStep(s: seq<Tuple>, b: Cutting, c: Cutting, m: nat)
    requires Sized(s, b) && CutOff(b, c, m)
    ensures Sized(s, c)
  {
    var k := |s| - |b.rest|;
    assert s[k..][m..] == s[k + m..];
    assert b.rest[m - 1] == s[k + m - 1];
  }

  lemma {:induction false} CutSizes(cfg: Config, g: Cutting, n: nat)
    requires Ready(cfg, g) && g.windows == [] && CanCut(cfg, g, n)
    ensures Sized(g.rest, Cut(cfg, g, n)) && |Cut(cfg, g, n).windows| == n
  {
    if n == 0 {
      assert g.rest[0..] == g.rest;
    } else {
      CutSizes(cfg, g, n - 1);
      LastCut(cfg, g, n);
      var m := CutOneOff(cfg, Cut(cfg, g, n - 1));
      SizedStep(g.rest, Cut(cfg, g, n - 1), Cut(cfg, g, n), m);
    }
  }

  lemma {:induction false} SizedCount(s: seq<Tuple>, c: Cutting)
    requires Sorted(s) && Sized(s, c) && c.windows != []
    ensures |Select(s, UpTo(c.last))| == TotalSize(c.windows)
  {
    var k := |s| - |c.rest|;
    assert c.rest[0] == s[k];
    var p := UpTo(c.last);
    SplitAt(s, k, c.last);
    SelectAll(s[..k], p);
    SelectEmpty(s[k..], p);
    SelectConcat(s[..k], s[k..], p);
  }

  lemma {:induction false} CutWindows(cfg: Config, g: Cutting, n: nat)
    requires cfg.length > 0 && n > 0
    ensures var b, c := Cut(cfg, g, n - 1), Cut(cfg, g, n);
            && b.windows <= c.windows
            && |c.windows| == |b.windows| + if Determined(cfg, b.rest) then 1 else 0
  {
  }

  /** Fewer cuts are a prefix. */
  lemma {:induction false} CutPrefix(cfg: Config, g: Cutting, n: nat, m: nat)
    requires cfg.length > 0 && n <= m
    ensures Cut(cfg, g, n).windows <= Cut(cfg, g, m).windows
    ensures |Cut(cfg, g, m).windows| <= |Cut(cfg, g, n).windows| + m - n
    decreases m
  {
    if n < m {
      CutPrefix(cfg, g, n, m - 1);
      CutWindows(cfg, g, m);
    }
  }

  lemma {:induction false} AllCutsMade(cfg: Config, g: Cutting, n: nat)
    requires cfg.length > 0 && |Cut(cfg, g, n).windows| == |g.windows| + n
    ensures CanCut(cfg, g, n)
  {
    if n > 0 {
      CutWindows(cfg, g, n);
      assert Cut(cfg, g, 0) == g;
      CutPrefix(cfg, g, 0, n - 1);
      assert |Cut(cfg, g, n - 1).windows| == |g.windows| + n - 1;
      AllCutsMade(cfg, g, n - 1);
    }
  }

  /** A window that was emitted without a tuple up to its end. */
  ghost predicate Missed(emitted: seq<Window>, accepted: seq<Tuple>, n: nat) {
    && 1 <= n <= |emitted|
    && TotalSize(emitted[..n]) < |Select(accepted, UpTo(emitted[n - 1].end))|
  }

  lemma {:induction false} MissedIsNotCut(cfg: Config, startTime: int, st: State, accepted: seq<Tuple>, n: nat)
    requires Ready(cfg, Uncut(accepted, startTime)) && Missed(st.emitted, accepted, n)
    ensures st.emitted != Cut(cfg, Uncut(accepted, startTime), |st.emitted|).windows
  {
    var g := Uncut(accepted, startTime);
    if st.emitted == Cut(cfg, g, |st.emitted|).windows {
      CutPrefix(cfg, g, n, |st.emitted|);
      CutPrefix(cfg, g, 0, n);
      var c := Cut(cfg, g, n);
      assert c.windows == st.emitted[..n];
      AllCutsMade(cfg, g, n);
      CutSizes(cfg, g, n);
      SizedCount(g.rest, c);
      SortCount(accepted, UpTo(c.last));
    }
  }

  lemma {:induction false} BoundaryMisses(cfg: Config, startTime: int, st: State, accepted: seq<Tuple>, t: Tuple)
    requires cfg.Valid() && SessionInv(cfg, startTime, st, accepted) && 0 < t.ts == st.prevEnd
    ensures Missed(st.emitted, accepted + [t], |st.emitted|)
  {
    CutsCounted(cfg, startTime, st, accepted);
    assert st.emitted[..|st.emitted|] == st.emitted;
    SelectAppend(accepted, t, UpTo(t.ts));
  }

  /** Without a boundary tuple the emitted windows hold all accepted tuples up to the last end. */
  lemma {:induction false} CutsCounted(cfg: Config, startTime: int, st: State, accepted: seq<Tuple>)
    requires cfg.Valid() && SessionInv(cfg, startTime, st, accepted) && st.emitted != []
    ensures st.emitted[|st.emitted| - 1].end == st.prevEnd
    ensures TotalSize(st.emitted) == |Select(accepted, UpTo(st.prevEnd))|
  {
    var g, n := Uncut(accepted, startTime), |st.emitted|;
    CutSizes(cfg, g, n);
    SizedCount(g.rest, Cut(cfg, g, n));
    SortCount(accepted, UpTo(st.prevEnd));
  }

  lemma {:induction false} StaysMissed(cfg: Config, st: State, e: Event, accepted: seq<Tuple>, n: nat)
    requires WellFormed(cfg, st) && ValidEvent(cfg, e) && Missed(st.emitted, accepted, n)
    ensures Missed(StepEvent(cfg, st, e).emitted, accepted, n)
    ensures e.Arrive? ==> Missed(StepEvent(cfg, st, e).emitted, accepted + [e.tuple], n)
  {
    var r := StepEvent(cfg, st, e);
    assert st.emitted <= r.emitted && r.emitted[..n] == st.emitted[..n];
    if e.Arrive? {
      SelectAppend(accepted, e.tuple, UpTo(st.emitted[n - 1].end));
    }
  }

  lemma {:induction false} BoundaryStaysMissed(cfg: Config, startTime: int, events: seq<Event>) returns (n: nat)
    requires cfg.Valid() && cfg.kind == Session && InRange(cfg, 0) && ValidEvents(cfg, events)
    requires !NoBoundary(cfg, startTime, events)
    ensures Missed(Run(cfg, startTime, events).emitted, AcceptedIn(cfg, events), n)
  {
    var before, last := events[..|events| - 1], events[|events| - 1];
    var st, accepted := Run(cfg, startTime, before), AcceptedIn(cfg, before);
    assert ValidEvent(cfg, last);
    AcceptedStep(cfg, startTime, events);
    if NoBoundary(cfg, startTime, before) {
      RunKeepsSessionInv(cfg, startTime, before);
      BoundaryMisses(cfg, startTime, st, accepted, last.tuple);
      n := |st.emitted|;
    } else {
      n := BoundaryStaysMissed(cfg, startTime, before);
      StaysMissed(cfg, st, last, accepted, n);
    }
  }

  /** The emitted windows are the first sessions of the accepted tuples if and only if no accepted tuple fell on the
      last session end. */
  lemma {:induction false} SessionsRefineExactly(cfg: Config, startTime: int, events: seq<Event>)
    requires cfg.Valid() && cfg.kind == Session && InRange(cfg, 0) && ValidEvents(cfg, events)
    ensures var st := Run(cfg, startTime, events);
            st.emitted == Cut(cfg, Uncut(AcceptedIn(cfg, events), startTime), |st.emitted|).windows
            <==> NoBoundary(cfg, startTime, events)
  {
    if NoBoundary(cfg, startTime, events) {
      RunKeepsSessionInv(cfg, startTime, events);
    } else {
      var n := BoundaryStaysMissed(cfg, startTime, events);
      AcceptedReady(cfg, startTime, events);
      MissedIsNotCut(cfg, startTime, Run(cfg, startTime, events), AcceptedIn(cfg, events), n);
    }
  }

  lemma {:induction false} AcceptedReady(cfg: Config, startTime: int, events: seq<Event>)
    requires cfg.Valid() && cfg.kind == Session && InRange(cfg, 0) && ValidEvents(cfg, events)
    ensures Ready(cfg, Uncut(AcceptedIn(cfg, events), startTime))
  {
    AcceptedPositive(cfg, startTime, events);
    SortKeepsPositive(AcceptedIn(cfg, events));
  }

  lemma {:induction false} AcceptedPositive(cfg: Config, startTime: int, events: seq<Event>)
    requires cfg.Valid() && InRange(cfg, 0) && ValidEvents(cfg, events)
    ensures Positive(AcceptedIn(cfg, events))
  {
    if events != [] {
      var n := |events| - 1;
      AcceptedPositive(cfg, startTime, events[..n]);
      AcceptedStep(cfg, startTime, events);
      assert ValidEvent(cfg, events[n]);
      var accepted := AcceptedIn(cfg, events[..n]);
      forall t | t in AcceptedIn(cfg, events) ensures 0 < t.ts < MAX_INT64 {
        assert t in accepted || (events[n].Arrive? && t == events[n].tuple);
      }
    }
  }

  // ----- the boundary case occurs

  /** Sessions with a timeout of 5 ms and a tolerance of 2 ms over one topic; tuples stamped 1, 8 and 6. */
  predicate OneEightSix(cfg: Config, t: Tuple, u: Tuple, v: Tuple) {
    && cfg == Config(Session, 10, 5, [t.emitter], 2) && u.emitter == t.emitter && v.emitter == t.emitter
    && t.ts == 1 && u.ts == 8 && v.ts == 6
  }

  lemma ReceivesOneEight(cfg: Config, t: Tuple, u: Tuple, v: Tuple)
    requires OneEightSix(cfg, t, u, v) && cfg.Valid()
    ensures var st := Receive(cfg, Receive(cfg, Init(1), t, true), u, true);
            st.queue == [v.ts] && st.inputs == [t, u] && st.gen.lastWm == v.ts
  {
    var one, eight := map[t.emitter := 1], map[t.emitter := 8];
    assert Observe(map[], t.emitter, 1) == one && |one| == 1 && Observe(one, t.emitter, 8) == eight && |eight| == 1;
    assert MinTs([t.emitter], one) == 1 && MinTs([t.emitter], eight) == 8;
  }

  lemma EndsAtSix(cfg: Config, t: Tuple, u: Tuple, v: Tuple)
    requires OneEightSix(cfg, t, u, v)
    ensures SessionEnd(cfg, [t, u]) == (v.ts, false) && SessionEnd(cfg, [u]).0 == MAX_INT64
    ensures Select([t, u], Kept(cfg, v.ts, 0)) == [u]
  {
    FirstOfTwo(cfg, t, u);
    OneIsOpen(cfg, u);
    KeptOfTwo(cfg, t, u, v.ts);
  }

  /** Two tuples further apart than the interval, the first tick not yet passed: the session ends with a timeout. */
  lemma FirstOfTwo(cfg: Config, t: Tuple, u: Tuple)
    requires cfg.length > 0 && 0 < t.ts && t.ts + cfg.interval < u.ts <= FirstTick(t.ts, cfg.length)
    requires u.ts < MAX_INT64
    ensures SessionEnd(cfg, [t, u]) == (t.ts + cfg.interval, false)
  {
    var s, tick := [t, u], FirstTick(t.ts, cfg.length);
    assert Walk(cfg, s, 0) == Walking(tick, 0);
    assert Walk(cfg, s, 1) == Walking(tick, t.ts);
    assert Walk(cfg, s, 2) == Ended(t.ts + cfg.interval, false);
  }

  lemma OneIsOpen(cfg: Config, t: Tuple)
    requires cfg.length > 0 && t.ts <= FirstTick(t.ts, cfg.length)
    ensures SessionEnd(cfg, [t]).0 == MAX_INT64
  {
    assert Walk(cfg, [t], 0) == Walking(FirstTick(t.ts, cfg.length), 0);
    assert Walk(cfg, [t], 1) == Walking(FirstTick(t.ts, cfg.length), t.ts);
  }

  lemma KeptOfTwo(cfg: Config, t: Tuple, u: Tuple, end: int)
    requires cfg.kind == Session && t.ts <= end < u.ts
    ensures Select([t, u], Kept(cfg, end, 0)) == [u]
  {
    var kept := Kept(cfg, end, 0);
    assert !cfg.Overlapping() && !kept(t) && kept(u);
    SelectAppend([t], u, kept);
    SelectAppend([], t, kept);
    assert [t, u] == [t] + [u] && [t] == [] + [t];
  }

  /** The only due session is scanned and the loop ends. */
  lemma {:induction false} DrainsOne(cfg: Config, st: State, r: State, wm: int, end: int, ticked: bool)
    requires cfg.Valid() && cfg.kind == Session && wm < MAX_INT64 && Positive(st.inputs) && Sorted(st.inputs)
    requires SessionEnd(cfg, st.inputs) == (end, ticked) && 0 <= end <= wm && st.inputs != []
    requires r == ScanSession(cfg, st, end, ticked) && Sorted(r.inputs) && SessionEnd(cfg, r.inputs).0 == MAX_INT64
    ensures DrainSession(cfg, st, wm).prevEnd == end
  {
    SortOfSorted(st.inputs);
    SortOfSorted(r.inputs);
    var st1 := DrainStep(cfg, st, wm);
    assert st1 == st;
    var r1 := DrainStep(cfg, r, wm);
  }

  lemma {:induction false} DrainsFirst(cfg: Config, st: State, t: Tuple, u: Tuple, end: int)
    requires cfg.Valid() && cfg.kind == Session && st.inputs == [t, u] && Positive([t, u]) && t.ts <= u.ts
    requires SessionEnd(cfg, [t, u]) == (end, false) && 0 <= end < MAX_INT64 && SessionEnd(cfg, [u]).0 == MAX_INT64
    requires Select([t, u], Kept(cfg, end, 0)) == [u]
    ensures DrainSession(cfg, st, end).prevEnd == end
  {
    assert !cfg.Overlapping();
    DrainsOne(cfg, st, ScanSession(cfg, st, end, false), end, end, false);
  }

  lemma {:induction false} StepsToSix(cfg: Config, st: State, t: Tuple, u: Tuple, v: Tuple)
    requires OneEightSix(cfg, t, u, v) && WellFormed(cfg, st)
    requires st.queue == [v.ts] && st.inputs == [t, u] && st.gen.lastWm == v.ts
    ensures OnBoundary(StepEvent(cfg, st, NextWatermark), Arrive(v, true))
  {
    EndsAtSix(cfg, t, u, v);
    DrainsFirst(cfg, st.(queue := []), t, u, v.ts);
  }

  /** The first two tuples and the watermark they raise. */
  lemma ClosesAtSix(cfg: Config, t: Tuple, u: Tuple, v: Tuple)
    requires OneEightSix(cfg, t, u, v)
    ensures var events := [Arrive(t, true), Arrive(u, true)] + [NextWatermark];
            && cfg.Valid() && InRange(cfg, 0) && ValidEvents(cfg, events) && ValidEvent(cfg, Arrive(v, true))
            && OnBoundary(Run(cfg, 1, events), Arrive(v, true))
  {
    assert cfg.topics[0] == t.emitter;
    var a, b := Arrive(t, true), Arrive(u, true);
    assert ValidEvent(cfg, a) && ValidEvent(cfg, b) && [] + [a] == [a] && [a] + [b] == [a, b];
    EventBoundary.RunStep(cfg, 1, [], a);
    EventBoundary.RunStep(cfg, 1, [a], b);
    EventBoundary.RunStep(cfg, 1, [a, b], NextWatermark);
    ReceivesOneEight(cfg, t, u, v);
    StepsToSix(cfg, Run(cfg, 1, [a, b]), t, u, v);
  }

  /** The operator closes the session of the first tuple at 6 and then accepts a tuple stamped 6 that belongs to it. */
  lemma SessionBoundaryOccurs(cfg: Config, t: Tuple, u: Tuple, v: Tuple)
    requires OneEightSix(cfg, t, u, v)
    ensures var events := [Arrive(t, true), Arrive(u, true)] + [NextWatermark] + [Arrive(v, true)];
            && cfg.Valid() && InRange(cfg, 0) && ValidEvents(cfg, events)
            && var st := Run(cfg, 1, events);
            st.emitted != Cut(cfg, Uncut(AcceptedIn(cfg, events), 1), |st.emitted|).windows
  {
    ClosesAtSix(cfg, t, u, v);
    BoundaryBreaks(cfg, [Arrive(t, true), Arrive(u, true)] + [NextWatermark], Arrive(v, true));
  }

  lemma BoundaryBreaks(cfg: Config, events: seq<Event>, e: Event)
    requires cfg.Valid() && cfg.kind == Session && InRange(cfg, 0) && ValidEvents(cfg, events) && ValidEvent(cfg, e)
    requires OnBoundary(Run(cfg, 1, events), e)
    ensures ValidEvents(cfg, events + [e])
    ensures var st := Run(cfg, 1, events + [e]);
            st.emitted != Cut(cfg, Uncut(AcceptedIn(cfg, events + [e]), 1), |st.emitted|).windows
  {
    EventBoundary.RunStep(cfg, 1, events, e);
    assert (events + [e])[..|events|] == events;
    SessionsRefineExactly(cfg, 1, events + [e]);
  }
}
