/** Where push-down does change the rows: a stream in a window that takes no filters, joined with a table. The second
    pass of a join align comes to the filter that the first pass put on the table, and that filter swallows the
    conjuncts about the stream. */
module PushDownLimits {
  import opened Wrappers
  import opened Sequences
  import opened Collections
  import opened Joins
  import opened Planner
  import opened PushDownMeaning

  /** A stream `a` in a window that takes no filters, aligned with a table `b`. */
  function Aligned(wtype: WindowType, isEventTime: bool, a: string, b: string): (p: Plan) {
    JoinAlign([Window(wtype, isEventTime, None, [DataSource(a)]), DataSource(b)])
  }

  /** The part of a condition that the table takes, and the part about the stream. */
  function TablePart(b: string, c: Option<Expr>): (e: Option<Expr>) {
    ExtractOf(b, c).first
  }

  function StreamPart(b: string, c: Option<Expr>): (e: Option<Expr>) {
    ExtractOf(b, c).second
  }

  /** Windows pass on only rows they got. */
  ghost predicate Sane(w: World) {
    forall wtype, isEventTime, rows, row :: row in w.window(wtype, isEventTime, rows) ==> row in rows
  }

  predicate TakesNoFilter(wtype: WindowType, isEventTime: bool) {
    !Pushable(wtype, isEventTime)
  }

  // ----- what the push makes of the aligned sources

  lemma PushAligned(wtype: WindowType, isEventTime: bool, a: string, b: string, c: Option<Expr>)
    requires TakesNoFilter(wtype, isEventTime)
    ensures var again := PushSourceAgain(b, PushSource(b, c).plan, StreamPart(b, c));
            PushDown(Aligned(wtype, isEventTime, a, b), c) ==
              Pushed(again.rest, JoinAlign([Window(wtype, isEventTime, None, [DataSource(a)]), again.plan]))
  {
    AlignTwo(Window(wtype, isEventTime, None, [DataSource(a)]), DataSource(b), c);
  }

  /** The table's filter meets the stream's part: whichever way the source splits the two, both end up on the table. */
  lemma PushBoth(w: World, a: string, b: string, own: Expr, other: Expr)
    requires a != b && a != DEFAULT_STREAM && b != DEFAULT_STREAM
    requires Refs(other) == {a} && (Refs(own) == {} || Refs(own) == {b})
    ensures var r := PushSource(b, Some(And(other, own)));
            && r.rest.Some?
            && Select(Eval(w, r.plan), Keeps(w, r.rest)) == Singles(Kept(w, b, Some(And(other, own))))
  {
    var both := Some(And(other, own));
    SinglesSelect(w, SourceTuples(w, b), both);
    if Refs(own) == {} {
      assert Refs(And(other, own)) == {a};
      assert PushSource(b, both) == Pushed(both, DataSource(b));
    } else {
      assert Refs(And(other, own)) == {a, b} && |{a, b}| == 2;
      ExtractOwn(b, Some(own));
      assert Extract(b, own) == Split(Some(own), None) && Extract(b, other) == Split(None, Some(other));
      assert PushSource(b, both) == Pushed(Some(other), Filter(Some(own), [DataSource(b)]));
      EvalOne(w, DataSource(b));
      SelectCombine(w, Singles(SourceTuples(w, b)), Some(other), Some(own));
    }
  }

  /** A table that took a part swallows the stream's part as well. */
  lemma TableSwallows(w: World, a: string, b: string, c: Option<Expr>)
    requires a != b && a != DEFAULT_STREAM && b != DEFAULT_STREAM && SingleOf(c) && RefsOf(c) <= {a, b}
    requires TablePart(b, c).Some? && StreamPart(b, c).Some?
    ensures var again := PushSourceAgain(b, PushSource(b, c).plan, StreamPart(b, c));
            && again.rest == None
            && Eval(w, again.plan) == Singles(Kept(w, b, Combine(StreamPart(b, c), TablePart(b, c))))
  {
    var own, other := TablePart(b, c).value, StreamPart(b, c).value;
    BothParts(a, b, c);
    PushBoth(w, a, b, own, other);
    EvalOne(w, PushSource(b, Some(And(other, own))).plan);
  }

  lemma BothParts(a: string, b: string, c: Option<Expr>)
    requires a != b && a != DEFAULT_STREAM && b != DEFAULT_STREAM && SingleOf(c) && RefsOf(c) <= {a, b}
    requires TablePart(b, c).Some? && StreamPart(b, c).Some?
    ensures Refs(StreamPart(b, c).value) == {a}
    ensures Refs(TablePart(b, c).value) == {} || Refs(TablePart(b, c).value) == {b}
  {
    ExtractOwnsItsOwn(b, c.value);
    ExtractLeavesOthers(b, c.value);
  }

  // ----- a world that tells the difference

  /** One tuple on each stream, every atom true that sees a tuple or names no stream, windows that keep everything. */
  function Telling(): (w: World) {
    World(name => [Tuple(name, 1, 0)],
          (id, refs, row) => refs == {} || row != [],
          (wtype, isEventTime, rows) => rows,
          (id, rows) => rows)
  }

  lemma {:induction false} TrueOnBoth(e: Expr, l: Tuple, r: Tuple)
    requires Refs(e) <= {l.emitter, r.emitter}
    ensures Holds(Telling(), e, [l] + [r])
  {
    match e
    case And(x, y) =>
      TrueOnBoth(x, l, r);
      TrueOnBoth(y, l, r);
    case Atom(id, refs) =>
      SelectPair(l, r, Named(refs));
  }

  /** A condition about other streams fails on a tuple. */
  lemma {:induction false} FalseOnOther(e: Expr, t: Tuple)
    requires t.emitter !in Refs(e) && DEFAULT_STREAM !in Refs(e) && Refs(e) != {}
    ensures !Holds(Telling(), e, [t])
  {
    match e
    case And(x, y) =>
      if Refs(x) != {} {
        FalseOnOther(x, t);
      } else {
        FalseOnOther(y, t);
      }
    case Atom(id, refs) =>
      SelectPair(t, t, Named(refs));
  }

  lemma TellingTuples(name: string)
    ensures SourceTuples(Telling(), name) == [Tuple(name, 1, 0)]
  {
    SelectAll([Tuple(name, 1, 0)], From(name));
  }

  /** The plan of a stream-table join under a filter. */
  function StreamTable(
    wtype: WindowType, isEventTime: bool, a: string, b: string, left: string, right: string,
    on: Option<Expr>, cond: Option<Expr>): (p: Plan)
  {
    Filter(cond, [Join(Inner, left, right, on, [Aligned(wtype, isEventTime, a, b)])])
  }

  ghost predicate Preserved(p: Plan) {
    forall w :: Sane(w) ==> Eval(w, PushDown(p, None).plan) == Eval(w, p)
  }

  /** The push of the whole plan. */
  lemma PushStreamTable(
    wtype: WindowType, isEventTime: bool, a: string, b: string, left: string, right: string,
    on: Option<Expr>, cond: Option<Expr>)
    requires TakesNoFilter(wtype, isEventTime)
    ensures var s := ExtractConditionOf(Combine(cond, on));
            var again := PushSourceAgain(b, PushSource(b, s.second).plan, StreamPart(b, s.second));
            PushDown(StreamTable(wtype, isEventTime, a, b, left, right, on, cond), None).plan ==
              Join(Inner, left, right, Combine(s.first, again.rest),
                   [JoinAlign([Window(wtype, isEventTime, None, [DataSource(a)]), again.plan])])
  {
    var f := Aligned(wtype, isEventTime, a, b);
    var j := Join(Inner, left, right, on, [f]);
    var s := ExtractConditionOf(Combine(cond, on));
    PushJoinOne(Inner, left, right, on, f, cond);
    PushAligned(wtype, isEventTime, a, b, s.second);
    PushOne(j, cond);
    assert Combine(None, cond) == cond;
  }

  // ----- both parts present: rows are lost

  lemma OneSourceRow(w: World, t: Tuple)
    requires SourceTuples(w, t.emitter) == [t]
    ensures Eval(w, DataSource(t.emitter)) == [[t]]
  {
    assert Singles([t]) == [[t]];
  }

  lemma OneWindowRow(w: World, wtype: WindowType, isEventTime: bool, q: Plan, row: Row)
    requires Eval(w, q) == [row] && w.window(wtype, isEventTime, [row]) == [row]
    ensures Eval(w, Window(wtype, isEventTime, None, [q])) == [row]
  {
    EvalOne(w, q);
    SelectNone(w, [row]);
  }

  lemma TellingSource(a: string)
    ensures Eval(Telling(), DataSource(a)) == [[Tuple(a, 1, 0)]]
  {
    TellingTuples(a);
    OneSourceRow(Telling(), Tuple(a, 1, 0));
  }

  lemma TellingWindow(wtype: WindowType, isEventTime: bool, a: string, p: Plan)
    ensures Eval(Telling(), JoinAlign([Window(wtype, isEventTime, None, [DataSource(a)]), p]))
         == [[Tuple(a, 1, 0)]] + Eval(Telling(), p)
  {
    TellingSource(a);
    OneWindowRow(Telling(), wtype, isEventTime, DataSource(a), [Tuple(a, 1, 0)]);
    EvalAlign(Telling(), Window(wtype, isEventTime, None, [DataSource(a)]), p);
  }

  lemma TuplesFromOne(t: Tuple, name: string)
    ensures TuplesFrom([[t]], name) == if t.emitter == name then [t] else []
  {
    assert [[t]][..0] == [];
  }

  lemma TuplesFromBoth(ta: Tuple, tb: Tuple, name: string)
    requires ta.emitter != tb.emitter
    ensures TuplesFrom([[ta]] + [[tb]], name)
         == if name == ta.emitter then [ta] else if name == tb.emitter then [tb] else []
  {
    TuplesFromConcat([[ta]], [[tb]], name);
    TuplesFromOne(ta, name);
    TuplesFromOne(tb, name);
  }

  lemma OneMatch(l: Tuple, r: Tuple, on: On)
    requires on([l], r) == True
    ensures Matched(LeftFirst, Singles([l]), [r], on) == [[l] + [r]]
  {
    assert Singles([l]) == [[l]] && [[l]][..0] == [] && [r][..0] == [];
    assert MatchesOf(LeftFirst, [l], [], on) == [];
    assert MatchesOf(LeftFirst, [l], [r], on) == [] + [[l] + [r]];
  }

  lemma TellingJoin(
    wtype: WindowType, isEventTime: bool, a: string, b: string, left: string, right: string, on: Option<Expr>)
    requires a != b && ((a == left && b == right) || (a == right && b == left)) && RefsOf(on) <= {a, b}
    ensures Eval(Telling(), Join(Inner, left, right, on, [Aligned(wtype, isEventTime, a, b)]))
         == [[Tuple(left, 1, 0)] + [Tuple(right, 1, 0)]]
  {
    var w, ta, tb := Telling(), Tuple(a, 1, 0), Tuple(b, 1, 0);
    var f := Aligned(wtype, isEventTime, a, b);
    var l, r := Tuple(left, 1, 0), Tuple(right, 1, 0);
    TellingWindow(wtype, isEventTime, a, DataSource(b));
    TellingSource(b);
    TuplesFromBoth(ta, tb, left);
    TuplesFromBoth(ta, tb, right);
    EvalJoinOne(w, Inner, left, right, on, f);
    if on.Some? {
      TrueOnBoth(on.value, l, r);
    }
    OneMatch(l, r, OnOf(w, on));
  }

  lemma TellingBefore(
    wtype: WindowType, isEventTime: bool, a: string, b: string, left: string, right: string,
    on: Option<Expr>, cond: Option<Expr>)
    requires a != b && ((a == left && b == right) || (a == right && b == left))
    requires RefsOf(cond) <= {a, b} && RefsOf(on) <= {a, b}
    ensures Eval(Telling(), StreamTable(wtype, isEventTime, a, b, left, right, on, cond)) != []
  {
    var w, l, r := Telling(), Tuple(left, 1, 0), Tuple(right, 1, 0);
    TellingJoin(wtype, isEventTime, a, b, left, right, on);
    if cond.Some? {
      TrueOnBoth(cond.value, l, r);
    }
    EvalOne(w, Join(Inner, left, right, on, [Aligned(wtype, isEventTime, a, b)]));
    SelectAll([[l] + [r]], Keeps(w, cond));
  }

  lemma TellingAfter(
    wtype: WindowType, isEventTime: bool, a: string, b: string, left: string, right: string,
    on: Option<Expr>, cond: Option<Expr>)
    requires TakesNoFilter(wtype, isEventTime) && a != b && a != DEFAULT_STREAM && b != DEFAULT_STREAM
    requires (a == left && b == right) || (a == right && b == left)
    requires RefsOf(cond) <= {a, b} && RefsOf(on) <= {a, b}
    requires var c := ExtractConditionOf(Combine(cond, on)).second;
             TablePart(b, c).Some? && StreamPart(b, c).Some?
    ensures Eval(Telling(), PushDown(StreamTable(wtype, isEventTime, a, b, left, right, on, cond), None).plan) == []
  {
    var w, tb := Telling(), Tuple(b, 1, 0);
    var s := ExtractConditionOf(Combine(cond, on));
    SplitForJoin(w, cond, on, {a, b});
    PushStreamTable(wtype, isEventTime, a, b, left, right, on, cond);
    TableSwallows(w, a, b, s.second);
    var other, own := StreamPart(b, s.second), TablePart(b, s.second);
    BothParts(a, b, s.second);
    FalseOnOther(other.value, tb);
    CombineHolds(w, other, own, [tb]);
    TellingTuples(b);
    SelectEmpty([tb], KeepsTuple(w, Combine(other, own)));
    assert Kept(w, b, Combine(other, own)) == [];
    var again := PushSourceAgain(b, PushSource(b, s.second).plan, other);
    TellingWindow(wtype, isEventTime, a, again.plan);
    var f' := JoinAlign([Window(wtype, isEventTime, None, [DataSource(a)]), again.plan]);
    EvalJoinOne(w, Inner, left, right, Combine(s.first, again.rest), f');
    assert Eval(w, f') == [[Tuple(a, 1, 0)]];
    TuplesFromOne(Tuple(a, 1, 0), left);
    TuplesFromOne(Tuple(a, 1, 0), right);
    MatchedNoRights(LeftFirst, Singles(TuplesFrom(Eval(w, f'), left)), OnOf(w, Combine(s.first, again.rest)));
  }

  // ----- at most one part present: the rows stay

  /** What a sane window passes on of one source's tuples. */
  function Windowed(w: World, wtype: WindowType, isEventTime: bool, a: string): (rows: seq<Row>) {
    Eval(w, Window(wtype, isEventTime, None, [DataSource(a)]))
  }

  ghost predicate OnlyFrom(rows: seq<Row>, a: string) {
    forall row: Row :: row in rows ==> |row| == 1 && row[0].emitter == a
  }

  lemma WindowedFrom(w: World, wtype: WindowType, isEventTime: bool, a: string)
    requires Sane(w) && TakesNoFilter(wtype, isEventTime)
    ensures OnlyFrom(Windowed(w, wtype, isEventTime, a), a)
  {
    EvalOne(w, DataSource(a));
    SelectNone(w, Eval(w, DataSource(a)));
    SelectSubset(w.tuples(a), From(a));
    var ts := SourceTuples(w, a);
    forall row: Row | row in Windowed(w, wtype, isEventTime, a) ensures |row| == 1 && row[0].emitter == a {
      assert row in Singles(ts);
      var i :| 0 <= i < |Singles(ts)| && Singles(ts)[i] == row;
      assert ts[i] in ts;
    }
  }

  lemma {:induction false} TuplesFromOnly(rows: seq<Row>, a: string, name: string)
    requires OnlyFrom(rows, a)
    ensures name != a ==> TuplesFrom(rows, name) == []
    ensures forall t :: t in TuplesFrom(rows, name) ==> t.emitter == name
  {
    if rows != [] {
      TuplesFromOnly(rows[..|rows| - 1], a, name);
      assert rows[|rows| - 1] in rows;
    }
  }

  /** An inner join whose stream comes through the window and whose table is filtered. */
  lemma TableFiltered(w: World, left: string, right: string, a: string, b: string, rows: seq<Row>,
                      cond: Option<Expr>, on: Option<Expr>, multi: Option<Expr>, own: Option<Expr>)
    requires a != b && ((a == left && b == right) || (a == right && b == left))
    requires OnlyFrom(rows, a) && a != DEFAULT_STREAM && b != DEFAULT_STREAM
    requires RefsOf(own) <= {b} && Parts(w, cond, on, multi, own, None)
    ensures var before, after := rows + Singles(Kept(w, b, None)), rows + Singles(Kept(w, b, own));
            Select(Matched(LeftFirst, Singles(TuplesFrom(before, left)), TuplesFrom(before, right), OnOf(w, on)),
                   Keeps(w, cond))
              == Matched(LeftFirst, Singles(TuplesFrom(after, left)), TuplesFrom(after, right), OnOf(w, multi))
  {
    StreamAndTable(w, a, b, rows, None);
    StreamAndTable(w, a, b, rows, own);
    TuplesFromOnly(rows, a, a);
    KeptFrom(w, b, None);
    KeptAll(w, b);
    var ta := TuplesFrom(rows, a);
    SelectAll(ta, KeepsTuple(w, None));
    if a == left {
      JoinPushTuples(w, left, right, ta, Kept(w, b, None), cond, on, multi, None, own);
    } else {
      JoinPushTuples(w, left, right, Kept(w, b, None), ta, cond, on, multi, own, None);
    }
  }

  lemma StreamAndTable(w: World, a: string, b: string, rows: seq<Row>, own: Option<Expr>)
    requires a != b && OnlyFrom(rows, a)
    ensures var all := rows + Singles(Kept(w, b, own));
            TuplesFrom(all, a) == TuplesFrom(rows, a) && TuplesFrom(all, b) == Kept(w, b, own)
  {
    KeptFrom(w, b, own);
    TuplesFromConcat(rows, Singles(Kept(w, b, own)), a);
    TuplesFromConcat(rows, Singles(Kept(w, b, own)), b);
    TuplesFromSingles(Kept(w, b, own), b, a);
    TuplesFromSingles(Kept(w, b, own), b, b);
    TuplesFromOnly(rows, a, b);
  }

  /** The rows of the plan before the push. */
  lemma EvalStreamTable(
    w: World, wtype: WindowType, isEventTime: bool, a: string, b: string, left: string, right: string,
    on: Option<Expr>, cond: Option<Expr>)
    ensures var rows := Windowed(w, wtype, isEventTime, a) + Singles(Kept(w, b, None));
            Eval(w, StreamTable(wtype, isEventTime, a, b, left, right, on, cond)) ==
              Select(Matched(LeftFirst, Singles(TuplesFrom(rows, left)), TuplesFrom(rows, right), OnOf(w, on)),
                     Keeps(w, cond))
  {
    KeptAll(w, b);
    EvalFilteredTable(w, wtype, isEventTime, a, b, left, right, on, DataSource(b), None);
    EvalFilterOne(w, cond, Join(Inner, left, right, on, [Aligned(wtype, isEventTime, a, b)]));
  }

  /** Only the stream has a part: it goes back to the join. */
  lemma StreamPartPreserves(
    w: World, wtype: WindowType, isEventTime: bool, a: string, b: string, left: string, right: string,
    on: Option<Expr>, cond: Option<Expr>)
    requires TakesNoFilter(wtype, isEventTime) && RefsOf(cond) <= {a, b} && RefsOf(on) <= {a, b}
    requires TablePart(b, ExtractConditionOf(Combine(cond, on)).second) == None
    ensures var p := StreamTable(wtype, isEventTime, a, b, left, right, on, cond);
            Eval(w, PushDown(p, None).plan) == Eval(w, p)
  {
    var s := ExtractConditionOf(Combine(cond, on));
    var on' := Combine(s.first, StreamPart(b, s.second));
    SplitForJoin(w, cond, on, {a, b});
    PushStreamTable(wtype, isEventTime, a, b, left, right, on, cond);
    EvalStreamTable(w, wtype, isEventTime, a, b, left, right, on, cond);
    KeptAll(w, b);
    EvalFilteredTable(w, wtype, isEventTime, a, b, left, right, on', DataSource(b), None);
    forall row ensures HoldsOf(w, on', row) == (HoldsOf(w, cond, row) && HoldsOf(w, on, row)) {
      CombineHolds(w, s.first, StreamPart(b, s.second), row);
      ExtractOfHolds(w, b, s.second, row);
    }
    BlockedJoin(w, Windowed(w, wtype, isEventTime, a) + Singles(Kept(w, b, None)), left, right, cond, on, on');
  }

  /** The rows of the join over the window and the filtered table. */
  lemma EvalFilteredTable(
    w: World, wtype: WindowType, isEventTime: bool, a: string, b: string, left: string, right: string,
    on: Option<Expr>, plan: Plan, own: Option<Expr>)
    requires Eval(w, plan) == Singles(Kept(w, b, own))
    ensures var rows := Windowed(w, wtype, isEventTime, a) + Singles(Kept(w, b, own));
            Eval(w, Join(Inner, left, right, on,
                         [JoinAlign([Window(wtype, isEventTime, None, [DataSource(a)]), plan])]))
              == Matched(LeftFirst, Singles(TuplesFrom(rows, left)), TuplesFrom(rows, right), OnOf(w, on))
  {
    var window := Window(wtype, isEventTime, None, [DataSource(a)]);
    var f := JoinAlign([window, plan]);
    assert Eval(w, f) == Windowed(w, wtype, isEventTime, a) + Singles(Kept(w, b, own)) by {
      EvalAlign(w, window, plan);
    }
    EvalJoinOne(w, Inner, left, right, on, f);
  }

  /** Only the table has a part: it stays on the table. */
  lemma TablePartPreserves(
    w: World, wtype: WindowType, isEventTime: bool, a: string, b: string, left: string, right: string,
    on: Option<Expr>, cond: Option<Expr>)
    requires Sane(w) && TakesNoFilter(wtype, isEventTime) && a != b && a != DEFAULT_STREAM && b != DEFAULT_STREAM
    requires (a == left && b == right) || (a == right && b == left)
    requires RefsOf(cond) <= {a, b} && RefsOf(on) <= {a, b}
    requires var c := ExtractConditionOf(Combine(cond, on)).second;
             TablePart(b, c).Some? && StreamPart(b, c) == None
    ensures var p := StreamTable(wtype, isEventTime, a, b, left, right, on, cond);
            Eval(w, PushDown(p, None).plan) == Eval(w, p)
  {
    var s := ExtractConditionOf(Combine(cond, on));
    var own := TablePart(b, s.second);
    assert Parts(w, cond, on, s.first, own, None) && RefsOf(own) <= {b} by {
      SplitForJoin(w, cond, on, {a, b});
      OwnOnly(w, a, b, s.second);
    }
    WindowedTableFiltered(w, wtype, isEventTime, left, right, a, b, cond, on, s.first, own);
    EvalStreamTable(w, wtype, isEventTime, a, b, left, right, on, cond);
    SplitForJoin(w, cond, on, {a, b});
    OwnOnly(w, a, b, s.second);
    EvalFilteredTable(w, wtype, isEventTime, a, b, left, right, s.first, PushSource(b, s.second).plan, own);
    PushStreamTable(wtype, isEventTime, a, b, left, right, on, cond);
    assert Combine(s.first, None) == s.first;
  }

  lemma WindowedTableFiltered(
    w: World, wtype: WindowType, isEventTime: bool, left: string, right: string, a: string, b: string,
    cond: Option<Expr>, on: Option<Expr>, multi: Option<Expr>, own: Option<Expr>)
    requires Sane(w) && TakesNoFilter(wtype, isEventTime) && a != DEFAULT_STREAM && b != DEFAULT_STREAM
    requires a != b && ((a == left && b == right) || (a == right && b == left))
    requires RefsOf(own) <= {b} && Parts(w, cond, on, multi, own, None)
    ensures var rows := Windowed(w, wtype, isEventTime, a);
            var before, after := rows + Singles(Kept(w, b, None)), rows + Singles(Kept(w, b, own));
            Select(Matched(LeftFirst, Singles(TuplesFrom(before, left)), TuplesFrom(before, right), OnOf(w, on)),
                   Keeps(w, cond))
              == Matched(LeftFirst, Singles(TuplesFrom(after, left)), TuplesFrom(after, right), OnOf(w, multi))
  {
    WindowedFrom(w, wtype, isEventTime, a);
    TableFiltered(w, left, right, a, b, Windowed(w, wtype, isEventTime, a), cond, on, multi, own);
  }

  lemma ExtractOfHolds(w: World, b: string, c: Option<Expr>, row: Row)
    ensures HoldsOf(w, c, row) == (HoldsOf(w, TablePart(b, c), row) && HoldsOf(w, StreamPart(b, c), row))
  {
    if c.Some? {
      ExtractLosesNothing(w, b, c.value, row);
    }
  }

  lemma OwnOnly(w: World, a: string, b: string, c: Option<Expr>)
    requires a != DEFAULT_STREAM && b != DEFAULT_STREAM && SingleOf(c) && RefsOf(c) <= {a, b}
    requires TablePart(b, c).Some? && StreamPart(b, c) == None
    ensures RefsOf(TablePart(b, c)) <= {b}
    ensures forall row :: HoldsOf(w, c, row) == HoldsOf(w, TablePart(b, c), row)
    ensures PushSourceAgain(b, PushSource(b, c).plan, None) == Pushed(None, PushSource(b, c).plan)
    ensures Eval(w, PushSource(b, c).plan) == Singles(Kept(w, b, TablePart(b, c)))
  {
    ExtractOwnsItsOwn(b, c.value);
    AgainSame(b, c);
    SourceMeans(w, b, c);
    forall row ensures HoldsOf(w, c, row) == HoldsOf(w, TablePart(b, c), row) {
      ExtractOfHolds(w, b, c, row);
    }
  }

  lemma TellingIsSane()
    ensures Sane(Telling())
  {}

  /** For a stream in an event-time or count window joined with a table, push-down preserves the rows in every world if
      and only if the conjuncts it pushes are not of both kinds, some for the table and some for the stream. */
  lemma StreamTablePreservedExactly(
    wtype: WindowType, isEventTime: bool, a: string, b: string, left: string, right: string,
    on: Option<Expr>, cond: Option<Expr>)
    requires TakesNoFilter(wtype, isEventTime) && a != b && a != DEFAULT_STREAM && b != DEFAULT_STREAM
    requires (a == left && b == right) || (a == right && b == left)
    requires RefsOf(cond) <= {a, b} && RefsOf(on) <= {a, b}
    ensures var c := ExtractConditionOf(Combine(cond, on)).second;
            Preserved(StreamTable(wtype, isEventTime, a, b, left, right, on, cond)) <==>
              TablePart(b, c) == None || StreamPart(b, c) == None
  {
    var p := StreamTable(wtype, isEventTime, a, b, left, right, on, cond);
    var c := ExtractConditionOf(Combine(cond, on)).second;
    if TablePart(b, c) == None || StreamPart(b, c) == None {
      forall w | Sane(w) ensures Eval(w, PushDown(p, None).plan) == Eval(w, p) {
        if TablePart(b, c) == None {
          StreamPartPreserves(w, wtype, isEventTime, a, b, left, right, on, cond);
        } else {
          TablePartPreserves(w, wtype, isEventTime, a, b, left, right, on, cond);
        }
      }
    } else {
      TellingIsSane();
      TellingBefore(wtype, isEventTime, a, b, left, right, on, cond);
      TellingAfter(wtype, isEventTime, a, b, left, right, on, cond);
    }
  }

  /** The exceptional case occurs: an event-time window on `s`, a table `t`, and WHERE s.x AND t.y. */
  lemma ConditionsOnBothSidesAreMixedUp()
    ensures !Preserved(StreamTable(TumblingWindow, true, "s", "t", "s", "t", None,
                                   Some(And(Atom(0, {"s"}), Atom(1, {"t"})))))
  {
    var x, y := Atom(0, {"s"}), Atom(1, {"t"});
    var c := And(x, y);
    assert Refs(c) == {"s", "t"} && |{"s", "t"}| == 2;
    assert ExtractCondition(x) == Split(None, Some(x)) && ExtractCondition(y) == Split(None, Some(y));
    assert ExtractCondition(c) == Split(None, Some(c));
    assert Extract("t", x) == Split(None, Some(x)) && Extract("t", y) == Split(Some(y), None);
    assert Extract("t", c) == Split(Some(y), Some(x));
    StreamTablePreservedExactly(TumblingWindow, true, "s", "t", "s", "t", None, Some(c));
  }

  // ----- outer joins

  /** A world in which every atom is false. */
  function Refusing(): (w: World) {
    Telling().(holds := (id, refs, row) => false)
  }

  /** The plan of a left join over a tumbling window. */
  function LeftJoin(l: string, r: string, right: Plan): (p: Plan) {
    Join(Left, l, r, None, [Window(TumblingWindow, false, None, [DataSource(l), right])])
  }

  lemma PushLeftJoin(l: string, r: string, c: Option<Expr>)
    requires l != r && c.Some? && Refs(c.value) == {r} && r != DEFAULT_STREAM
    ensures PushDown(Filter(c, [LeftJoin(l, r, DataSource(r))]), None)
         == Pushed(None, LeftJoin(l, r, Filter(c, [DataSource(r)])))
  {
    PushTumblingTwo(l, r, c);
    assert PushSource(l, c) == Pushed(c, DataSource(l));
    assert PushSource(r, c) == Pushed(None, Filter(c, [DataSource(r)]));
    var f := Window(TumblingWindow, false, None, [DataSource(l), DataSource(r)]);
    PushJoinOne(Left, l, r, None, f, c);
    assert ExtractConditionOf(c) == Split(None, c);
    PushFilterOne(c, LeftJoin(l, r, DataSource(r)), None);
  }

  lemma LeftOfNothing(t: Tuple, on: On)
    ensures EvalJoin(Left, Singles([t]), [], on) == [[t]]
  {
    assert Singles([t]) == [[t]] && [[t]][..0] == [];
    assert LeftPassRows(Left, false, [], [], on) == [];
    assert MatchesOf(LeftFirst, [t], [], on) == [];
  }

  lemma RefusingSource(name: string)
    ensures Eval(Refusing(), DataSource(name)) == [[Tuple(name, 1, 0)]]
  {
    SelectAll([Tuple(name, 1, 0)], From(name));
    OneSourceRow(Refusing(), Tuple(name, 1, 0));
  }

  lemma BareLeft(l: string, r: string, right: Plan)
    requires l != r && Eval(Refusing(), right) == []
    ensures Eval(Refusing(), LeftJoin(l, r, right)) == [[Tuple(l, 1, 0)]]
  {
    var w, t := Refusing(), Tuple(l, 1, 0);
    var f := Window(TumblingWindow, false, None, [DataSource(l), right]);
    assert Eval(w, f) == [[t]] by {
      TumblingTwo(w, DataSource(l), right);
      RefusingSource(l);
    }
    TuplesFromOne(t, l);
    TuplesFromOne(t, r);
    EvalJoinOne(w, Left, l, r, None, f);
    LeftOfNothing(t, OnOf(w, None));
  }

  lemma RefusedRows(e: Expr, rows: seq<Row>)
    requires e.Atom?
    ensures Select(rows, Keeps(Refusing(), Some(e))) == []
  {
    SelectEmpty(rows, Keeps(Refusing(), Some(e)));
  }

  /** A left join under WHERE r.x: without push-down a WHERE that fails drops the row, with it the right tuple is gone
      before the join and the bare left tuple stays. */
  lemma LeftJoinPushChangesRows(l: string, r: string, id: nat)
    requires l != r && r != DEFAULT_STREAM
    ensures var c := Some(Atom(id, {r}));
            var p := Filter(c, [LeftJoin(l, r, DataSource(r))]);
            && Eval(Refusing(), p) == []
            && Eval(Refusing(), PushDown(p, None).plan) == [[Tuple(l, 1, 0)]]
  {
    var w, e := Refusing(), Atom(id, {r});
    EvalFilterOne(w, Some(e), LeftJoin(l, r, DataSource(r)));
    RefusedRows(e, Eval(w, LeftJoin(l, r, DataSource(r))));
    PushLeftJoin(l, r, Some(e));
    EvalFilterOne(w, Some(e), DataSource(r));
    RefusedRows(e, Eval(w, DataSource(r)));
    BareLeft(l, r, Filter(Some(e), [DataSource(r)]));
  }
}
