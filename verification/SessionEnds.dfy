/** Where a session ends, told from the timestamps alone (`getNextSessionWindow` of internal/topo/node/watermark.go):
    at the first timeout between neighbours, or at the first tick that comes before the next tuple and more than a
    length after the first one. */
module SessionEnds {
  import opened Sequences
  import opened Collections
  import opened Watermarks
  import opened EventWindows

  /** The first multiple of the length at or after a time. */
  ghost predicate IsTickFor(length: int, ts: int, tick: int)
    requires length > 0
  {
    tick % length == 0 && ts <= tick < ts + length
  }

  /** How many ticks the first `n` tuples have passed, at most one each: the tuple is after the tick reached so far. */
  function TicksPassed(s: seq<Tuple>, first: int, length: int, n: nat): (c: nat)
    requires n <= |s|
  {
    if n == 0 then 0
    else
      var c := TicksPassed(s, first, length, n - 1);
      if s[n - 1].ts > first + length * c then c + 1 else c
  }

  function TickAt(cfg: Config, s: seq<Tuple>, first: int, n: nat): (tick: int)
    requires n <= |s|
  {
    first + cfg.length * TicksPassed(s, first, cfg.length, n)
  }

  lemma NextTick(cfg: Config, s: seq<Tuple>, first: int, n: nat)
    requires 1 <= n <= |s|
    ensures var tick := TickAt(cfg, s, first, n - 1);
            TickAt(cfg, s, first, n) == if s[n - 1].ts > tick then tick + cfg.length else tick
    ensures TickAt(cfg, s, first, 0) == first
  {
    var c := TicksPassed(s, first, cfg.length, n - 1);
    assert cfg.length * (c + 1) == cfg.length * c + cfg.length;
  }

  /** More than the interval lies between the tuple and the one before it. */
  predicate Gap(cfg: Config, s: seq<Tuple>, n: nat)
    requires 1 <= n < |s|
  {
    s[n].ts - s[n - 1].ts > cfg.interval
  }

  /** The tick reached so far lies before the tuple, and more than a length after the first one. */
  predicate TickBefore(cfg: Config, s: seq<Tuple>, first: int, n: nat)
    requires 1 <= n < |s|
  {
    s[0].ts + cfg.length < TickAt(cfg, s, first, n) < s[n].ts
  }

  /** No tuple before `n` ends the session. */
  ghost predicate OpenUntil(cfg: Config, s: seq<Tuple>, first: int, n: nat)
    requires n <= |s|
  {
    forall m :: 1 <= m < n ==> !Gap(cfg, s, m) && !TickBefore(cfg, s, first, m)
  }

  lemma FirstTickIs(ts: int, length: int)
    requires length > 0
    ensures IsTickFor(length, ts, FirstTick(ts, length))
  {
    if ts % length != 0 {
      RoundUpIsMultiple(ts, length);
    }
  }

  lemma OneTickFor(length: int, ts: int, a: int, b: int)
    requires length > 0 && IsTickFor(length, ts, a) && IsTickFor(length, ts, b)
    ensures a == b
  {
    var p, q := a / length, b / length;
    assert a == p * length && b == q * length;
    assert (q - p) * length == b - a;
    assert q - p >= 1 ==> (q - p) * length >= length;
    assert q - p <= -1 ==> (q - p) * length <= -length;
  }

  /** As long as no tuple ends the session, the walk is at the tick reached. */
  lemma {:induction false} WalkIs(cfg: Config, s: seq<Tuple>, first: int, n: nat)
    requires cfg.Valid() && s != [] && Sorted(s) && Positive(s) && n <= |s| && OpenUntil(cfg, s, first, n)
    requires first == FirstTick(s[0].ts, cfg.length)
    ensures Walk(cfg, s, n) == Walking(TickAt(cfg, s, first, n), if n == 0 then 0 else s[n - 1].ts)
  {
    if n > 0 {
      WalkIs(cfg, s, first, n - 1);
      NextTick(cfg, s, first, n);
      if n == 1 {
        FirstTickIs(s[0].ts, cfg.length);
        OpenStep(cfg, s[0].ts, first, 0, s[0].ts);
      } else {
        assert s[n - 2] in s && !Gap(cfg, s, n - 1) && !TickBefore(cfg, s, first, n - 1);
        OpenStep(cfg, s[0].ts, TickAt(cfg, s, first, n - 1), s[n - 2].ts, s[n - 1].ts);
      }
    } else {
      assert TickAt(cfg, s, first, 0) == first;
    }
  }

  /** A tuple that does not end the session. */
  lemma OpenStep(cfg: Config, et: int, tick: int, p: int, ts: int)
    requires (p == 0 && ts <= tick) || (0 < p && ts - p <= cfg.interval && !(et + cfg.length < tick < ts))
    ensures WalkTuple(cfg, et, Walking(tick, p), ts) == Walking(if ts > tick then tick + cfg.length else tick, ts)
  {
  }

  /** No tuple ends the session: no end is computed. */
  lemma NoEndIsComputed(cfg: Config, s: seq<Tuple>, first: int)
    requires cfg.Valid() && s != [] && Sorted(s) && Positive(s) && IsTickFor(cfg.length, s[0].ts, first)
    requires OpenUntil(cfg, s, first, |s|)
    ensures SessionEnd(cfg, s) == (MAX_INT64, false)
  {
    FirstTickIs(s[0].ts, cfg.length);
    OneTickFor(cfg.length, s[0].ts, first, FirstTick(s[0].ts, cfg.length));
    WalkIs(cfg, s, first, |s|);
  }

  /** At the first tuple that ends the session the end is the tick, if it comes before the timeout, and otherwise the
      timeout. */
  lemma SessionEndExactly(cfg: Config, s: seq<Tuple>, first: int, n: nat)
    requires cfg.Valid() && s != [] && Sorted(s) && Positive(s) && IsTickFor(cfg.length, s[0].ts, first)
    requires 1 <= n < |s| && OpenUntil(cfg, s, first, n) && (Gap(cfg, s, n) || TickBefore(cfg, s, first, n))
    ensures var tick, timeout := TickAt(cfg, s, first, n), s[n - 1].ts + cfg.interval;
            SessionEnd(cfg, s)
              == if TickBefore(cfg, s, first, n) && (Gap(cfg, s, n) ==> tick < timeout) then (tick, true)
                 else (timeout, false)
  {
    FirstTickIs(s[0].ts, cfg.length);
    OneTickFor(cfg.length, s[0].ts, first, FirstTick(s[0].ts, cfg.length));
    WalkIs(cfg, s, first, n);
    assert s[n - 1] in s && s[n] in s;
    EndedStays(cfg, s, n + 1, |s|);
  }

  /** When the interval is not longer than the length, the tick reached in a session is the first multiple of the length
      at or after the last tuple. */
  lemma {:induction false} TickReached(cfg: Config, s: seq<Tuple>, first: int, n: nat)
    requires cfg.Valid() && s != [] && Sorted(s) && IsTickFor(cfg.length, s[0].ts, first) && 1 <= n <= |s|
    requires cfg.interval <= cfg.length && forall m :: 1 <= m < n ==> !Gap(cfg, s, m)
    ensures IsTickFor(cfg.length, s[n - 1].ts, TickAt(cfg, s, first, n))
  {
    NextTick(cfg, s, first, n);
    if n > 1 {
      TickReached(cfg, s, first, n - 1);
      NextMultiple(TickAt(cfg, s, first, n - 1), cfg.length);
      assert !Gap(cfg, s, n - 1);
    }
  }
}
