/** Processing-time count windows: the COUNT_WINDOW branch of internal/topo/node/window_op.go and its TupleList,
    against a definition over the whole message history. */
module CountWindows {
  import opened Wrappers
  import opened Collections
  import WindowSets

  /** How many messages came since the last multiple of the interval. */
  function Phase(k: nat, interval: int): (r: nat)
    requires interval > 0
    ensures r <= k && r < interval
  {
    if k == 0 then 0
    else
      var r := Phase(k - 1, interval) + 1;
      if r == interval then 0 else r
  }

  lemma {:induction false} PhaseIsRemainder(k: nat, interval: int)
    requires interval > 0
    ensures Phase(k, interval) == k % interval
  {
    if k > 0 {
      PhaseIsRemainder(k - 1, interval);
      NextMod(k - 1, interval);
    } else {
      ModOf(0, 0, interval);
    }
  }

  /** A window is due at message `k` (counted from one) at the multiples of the interval, once `length` messages are
      there. */
  predicate Emits(length: int, interval: int, k: nat)
    requires interval > 0
  {
    1 <= length <= k && Phase(k, interval) == 0
  }

  /** All windows for a message history: each holds exactly the last `length` messages, grouped by emitter. */
  function Windows(length: int, interval: int, msgs: seq<Tuple>): (r: seq<seq<WindowTuples>>)
    requires interval > 0
  {
    if msgs == [] then []
    else
      var before, k := Windows(length, interval, msgs[..|msgs| - 1]), |msgs|;
      if Emits(length, interval, k) then before + [Grouped(msgs[k - length..])] else before
  }

  /** How many of the last messages are buffered after `m` of them, `c` of them since the last trigger. */
  function Buffered(length: int, c: nat, m: nat): (n: nat)
    requires c <= m
    ensures n <= m && (length >= 1 ==> n <= length - 1 + c)
  {
    (if 1 <= length <= m - c then length - 1 else m - c) + c
  }

  /** The buffer of a message history: its last messages. */
  function Buffer(length: int, c: nat, msgs: seq<Tuple>): (inputs: seq<Tuple>)
    requires c <= |msgs|
    ensures |inputs| <= |msgs| && (length >= 1 ==> |inputs| <= length - 1 + c)
  {
    msgs[|msgs| - Buffered(length, c, |msgs|)..]
  }

  /** The remainder of the successor. */
  lemma NextMod(m: nat, interval: int)
    requires interval > 0
    ensures (m + 1) % interval == if m % interval + 1 == interval then 0 else m % interval + 1
  {
    var q, r := m / interval, m % interval;
    assert m + 1 == q * interval + (r + 1);
    if r + 1 == interval {
      assert m + 1 == (q + 1) * interval;
      ModOf(q + 1, 0, interval);
    } else {
      ModOf(q, r + 1, interval);
    }
  }

  lemma ModOf(q: int, r: int, d: int)
    requires 0 <= r < d
    ensures (q * d + r) % d == r
  {
    var n := q * d + r;
    var q', r' := n / d, n % d;
    assert (q - q') * d == r' - r;
    assert q - q' >= 1 ==> (q - q') * d >= d;
    assert q - q' <= -1 ==> (q - q') * d <= -d;
  }

  lemma SmallMod(c: int, interval: int)
    requires 0 <= c <= interval && interval > 0
    ensures c % interval == if c == interval then 0 else c
  {
    if c == interval {
      ModOf(1, 0, interval);
    } else {
      ModOf(0, c, interval);
    }
  }

  lemma {:induction false} WindowsNext(length: int, interval: int, msgs: seq<Tuple>, t: Tuple)
    requires interval > 0
    ensures var k := |msgs| + 1;
            Windows(length, interval, msgs + [t]) == Windows(length, interval, msgs) +
              if Emits(length, interval, k) then [Grouped((msgs + [t])[k - length..])] else []
  {
    assert (msgs + [t])[..|msgs|] == msgs;
  }

  /** What the buffer holds after a message that does not reach the interval, and after one that does. */
  lemma {:induction false} BufferNext(length: int, c: nat, msgs: seq<Tuple>, t: Tuple)
    requires c <= |msgs|
    ensures var inputs, after := Buffer(length, c, msgs) + [t], msgs + [t];
            && Buffer(length, c + 1, after) == inputs
            && (1 <= length <= |inputs| <==> 1 <= length <= |after|)
            && (1 <= length <= |inputs| ==>
              && inputs[|inputs| - length..] == after[|after| - length..]
              && inputs[|inputs| - length + 1..] == Buffer(length, 0, after))
            && (!(1 <= length <= |inputs|) ==> inputs == Buffer(length, 0, after))
  {
    var inputs, after := Buffer(length, c, msgs) + [t], msgs + [t];
    assert inputs == after[|after| - |inputs|..];
  }

  /** What closing a window does to the emitted windows and the buffer. */
  ghost predicate Closes(length: int, inputs: seq<Tuple>, emitted: seq<seq<WindowTuples>>,
                         windows: seq<seq<WindowTuples>>, stay: seq<Tuple>) {
    if 1 <= length <= |inputs| then
      && windows == emitted + [Grouped(inputs[|inputs| - length..])]
      && stay == inputs[|inputs| - length + 1..]
    else windows == emitted && stay == inputs
  }

  /** A message that reaches the interval closes a window. */
  lemma {:induction false} NextCloses(length: int, c: nat, msgs: seq<Tuple>, t: Tuple,
                                      emitted: seq<seq<WindowTuples>>, windows: seq<seq<WindowTuples>>)
    requires c <= |msgs|
    requires var after := msgs + [t];
             windows == emitted + if 1 <= length <= |after| then [Grouped(after[|after| - length..])] else []
    ensures Closes(length, Buffer(length, c, msgs) + [t], emitted, windows, Buffer(length, 0, msgs + [t]))
  {
    BufferNext(length, c, msgs, t);
  }

  /** How windows and buffer follow from those before the last message. */
  lemma {:induction false} Next(length: int, interval: int, msgs: seq<Tuple>, t: Tuple)
    requires interval > 0
    ensures var c, d := Phase(|msgs|, interval), Phase(|msgs| + 1, interval);
            var inputs, after := Buffer(length, c, msgs) + [t], msgs + [t];
            var windows := Windows(length, interval, after);
            if d == 0
            then Closes(length, inputs, Windows(length, interval, msgs), windows, Buffer(length, 0, after))
            else windows == Windows(length, interval, msgs) && inputs == Buffer(length, d, after)
  {
    var c, emitted, windows :=
      Phase(|msgs|, interval), Windows(length, interval, msgs), Windows(length, interval, msgs + [t]);
    WindowsNext(length, interval, msgs, t);
    if Phase(|msgs| + 1, interval) == 0 {
      NextCloses(length, c, msgs, t, emitted, windows);
    } else {
      BufferNext(length, c, msgs, t);
    }
  }

  /** A window is emitted at message `k` exactly when it is due, and it gives back for every emitter that emitter's
      tuples among the last `length` messages, in arrival order. */
  lemma WindowsAt(length: int, interval: int, msgs: seq<Tuple>, k: nat, src: string)
    requires interval > 0 && 1 <= k <= |msgs|
    ensures var before, after := Windows(length, interval, msgs[..k - 1]), Windows(length, interval, msgs[..k]);
            if 1 <= length <= k && k % interval == 0 then
              && |after| == |before| + 1 && after[..|before|] == before
              && GetBySrc(after[|before|], src) == Sequences.Select(msgs[k - length..k], From(src))
              && Size(after[|before|]) == length
            else after == before
  {
    assert msgs[..k][..k - 1] == msgs[..k - 1];
    PhaseIsRemainder(k, interval);
    if Emits(length, interval, k) {
      assert msgs[..k][k - length..] == msgs[k - length..k];
      GroupedBySrc(msgs[k - length..k], src);
      GroupedSize(msgs[k - length..k]);
    }
  }

  /** TupleList: the buffered tuples and the cursor over its at most one window. */
  class TupleList {
    const tuples: seq<Tuple>
    const size: int
    var index: nat

    constructor (tuples: seq<Tuple>, size: int)
      ensures this.tuples == tuples && this.size == size && index == 0
    {
      this.tuples, this.size, index := tuples, size, 0;
    }

    /** A list needs a positive window size and some tuples. */
    static method NewTupleList(tuples: seq<Tuple>, size: int) returns (r: Option<TupleList>)
      ensures r.Some? <==> size > 0 && tuples != []
      ensures r.Some? ==>
                && fresh(r.value) && r.value.index == 0
                && r.value.tuples == tuples && r.value.size == size
    {
      if size <= 0 || |tuples| == 0 {
        return None;
      }
      var tl := new TupleList(tuples, size);
      return Some(tl);
    }

    predicate HasMoreCountWindow()
      reads this
    {
      |tuples| >= size && index == 0
    }

    method NextCountWindow() returns (r: seq<WindowTuples>)
      requires 1 <= size <= |tuples|
      modifies this
      ensures index == old(index) + 1 && r == Grouped(tuples[|tuples| - size..])
    {
      r := [];
      var sub := tuples[|tuples| - size..];
      for i := 0 to |sub|
        invariant index == old(index) && r == Grouped(sub[..i])
      {
        assert sub[..i + 1][..i] == sub[..i];
        r := WindowSets.Add(r, sub[i]);
      }
      assert sub[..|sub|] == sub;
      index := index + 1;
    }

    method GetRestTuples() returns (r: seq<Tuple>)
      requires 1 <= size
      ensures r == if |tuples| < size then tuples else tuples[|tuples| - size + 1..]
    {
      if |tuples| < size {
        return tuples;
      }
      r := tuples[|tuples| - size + 1..];
    }
  }

  class CountWindowOperator {
    const length: int
    const interval: int
    var inputs: seq<Tuple>
    var msgCount: int
    var emitted: seq<seq<WindowTuples>>
    var errors: nat
    ghost var msgs: seq<Tuple>  // every message received so far

    /** The emitted windows are those of the whole history, and the buffer is a suffix of it of known length. */
    ghost predicate Valid()
      reads this
    {
      && interval > 0
      && msgCount == Phase(|msgs|, interval)
      && emitted == Windows(length, interval, msgs)
      && inputs == Buffer(length, msgCount, msgs)
    }

    constructor (length: int, interval: int)
      requires interval > 0
      ensures Valid() && msgs == [] && this.length == length && this.interval == interval
    {
      this.length, this.interval := length, interval;
      inputs, msgCount, emitted, errors, msgs := [], 0, [], 0, [];
    }

    /** The window, if one fits, and the tuples that stay buffered. */
    method CloseWindow(tl: TupleList) returns (ws: seq<seq<WindowTuples>>, rest: seq<Tuple>)
      requires tl.size >= 1 && tl.index == 0
      modifies tl
      ensures var s, n := tl.tuples, |tl.tuples| - tl.size;
              if n < 0 then ws == [] && rest == s else ws == [Grouped(s[n..])] && rest == s[n + 1..]
    {
      ws := [];
      while tl.HasMoreCountWindow()
        invariant tl.index <= 1 && (tl.index == 1 ==> |tl.tuples| >= tl.size)
        invariant ws == if tl.index == 0 then [] else [Grouped(tl.tuples[|tl.tuples| - tl.size..])]
        decreases 1 - tl.index
      {
        var w := tl.NextCountWindow();
        ws := ws + [w];
      }
      rest := tl.GetRestTuples();
    }

    /** One message. A window size below one is reported and leaves the buffer alone. */
    method OnTuple(t: Tuple)
      requires Valid()
      modifies this
      ensures Valid() && msgs == old(msgs) + [t]
      ensures errors == old(errors) + if length <= 0 && Phase(|msgs|, interval) == 0 then 1 else 0
    {
      Next(length, interval, msgs, t);
      msgs := msgs + [t];
      inputs := inputs + [t];
      msgCount := msgCount + 1;
      SmallMod(msgCount, interval);
      if msgCount % interval == 0 {
        Trigger(Windows(length, interval, msgs), Buffer(length, 0, msgs));
      }
    }

    /** The interval is reached: a window that fits is emitted, and all but its first tuple stay buffered. */
    method Trigger(ghost windows: seq<seq<WindowTuples>>, ghost stay: seq<Tuple>)
      requires Closes(length, inputs, emitted, windows, stay)
      modifies this`msgCount, this`errors, this`emitted, this`inputs
      ensures msgCount == 0 && errors == old(errors) + if length <= 0 || old(inputs) == [] then 1 else 0
      ensures emitted == windows && inputs == stay
    {
      msgCount := 0;
      var tl := TupleList.NewTupleList(inputs, length);
      if tl.None? {
        errors := errors + 1;
      } else {
        var ws, rest := CloseWindow(tl.value);
        emitted, inputs := emitted + ws, rest;
      }
    }
  }
}
