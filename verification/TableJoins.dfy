/** A stream in a window that takes no filters, joined with a table by a LEFT, RIGHT, FULL or CROSS join under a filter:
    the second pass of the join align and the push to a side that the join fills up meet. This module says exactly when
    push-down keeps the rows. */
module TableJoins {
  import opened Wrappers
  import opened Sequences
  import opened Collections
  import opened Joins
  import opened Planner
  import opened PushDownMeaning
  import opened PushDownLimits
  import opened OuterJoins

  /** The two sources of the join are the stream `a` and the table `b`. */
  predicate Sides(left: string, right: string, a: string, b: string) {
    a != b && ((a == left && b == right) || (a == right && b == left))
  }

  /** The join keeps every tuple of the table. */
  predicate KeepsTable(jt: JoinType, left: string, right: string, b: string) {
    if jt == Right then b == right else jt != Full && b == left
  }

  /** What the table is filtered by after the push, and what stays above the join. */
  function OnTable(b: string, c: Option<Expr>): (own: Option<Expr>) {
    if TablePart(b, c).None? then None else Combine(StreamPart(b, c), TablePart(b, c))
  }

  function Above(b: string, s: Split): (rest: Option<Expr>) {
    if TablePart(b, s.second).None? then Combine(s.first, StreamPart(b, s.second)) else s.first
  }

  // ----- rows

  /** The rows of the join over tuples of the stream and of the table, under a condition. */
  function JoinedRows(
    w: World, jt: JoinType, tableLeft: bool, ta: seq<Tuple>, tb: seq<Tuple>, on: Option<Expr>, cond: Option<Expr>
  ): (rows: seq<Row>) {
    var (lt, rt) := if tableLeft then (tb, ta) else (ta, tb);
    Select(EvalJoin(jt, Singles(lt), rt, OnOf(w, on)), Keeps(w, cond))
  }

  /** What the window passes on of the stream. */
  function StreamTuples(w: World, wtype: WindowType, isEventTime: bool, a: string): (ts: seq<Tuple>) {
    TuplesFrom(Windowed(w, wtype, isEventTime, a), a)
  }

  lemma JoinOverTable(
    w: World, jt: JoinType, wtype: WindowType, isEventTime: bool, a: string, b: string, left: string, right: string,
    on: Option<Expr>, plan: Plan, own: Option<Expr>, rest: Option<Expr>)
    requires Sane(w) && TakesNoFilter(wtype, isEventTime) && Sides(left, right, a, b)
    requires Eval(w, plan) == Singles(Kept(w, b, own))
    ensures var j := Join(jt, left, right, on, [JoinAlign([Window(wtype, isEventTime, None, [DataSource(a)]), plan])]);
            var rows := JoinedRows(w, jt, b == left, StreamTuples(w, wtype, isEventTime, a), Kept(w, b, own), on, rest);
            && Select(Eval(w, j), Keeps(w, rest)) == rows
            && Eval(w, if rest.Some? then Filter(rest, [j]) else j) == rows
  {
    var window := Window(wtype, isEventTime, None, [DataSource(a)]);
    var f := JoinAlign([window, plan]);
    EvalAlign(w, window, plan);
    WindowedFrom(w, wtype, isEventTime, a);
    StreamAndTable(w, a, b, Windowed(w, wtype, isEventTime, a), own);
    EvalJoinOne(w, jt, left, right, on, f);
    EvalFiltered(w, rest, Join(jt, left, right, on, [f]));
  }

  /** What the push makes of the table. */
  lemma TablePlan(w: World, a: string, b: string, c: Option<Expr>)
    requires a != b && a != DEFAULT_STREAM && b != DEFAULT_STREAM && SingleOf(c) && RefsOf(c) <= {a, b}
    ensures var again := PushSourceAgain(b, PushSource(b, c).plan, StreamPart(b, c));
            && Eval(w, again.plan) == Singles(Kept(w, b, OnTable(b, c)))
            && again.rest == if TablePart(b, c).None? then StreamPart(b, c) else None
  {
    if TablePart(b, c).None? {
      KeptAll(w, b);
    } else if StreamPart(b, c).None? {
      OwnOnly(w, a, b, c);
    } else {
      TableSwallows(w, a, b, c);
    }
  }

  /** The rows of the plan before and after the push. */
  lemma RowsOfPush(
    w: World, jt: JoinType, wtype: WindowType, isEventTime: bool, a: string, b: string, left: string, right: string,
    on: Option<Expr>, cond: Option<Expr>)
    requires Sane(w) && TakesNoFilter(wtype, isEventTime) && Sides(left, right, a, b) && jt != Inner
    requires a != DEFAULT_STREAM && b != DEFAULT_STREAM && RefsOf(cond) <= {a, b}
    ensures var s, ta := ExtractConditionOf(cond), StreamTuples(w, wtype, isEventTime, a);
            var p := Filtered(jt, left, right, on, Aligned(wtype, isEventTime, a, b), cond);
            && Eval(w, p) == JoinedRows(w, jt, b == left, ta, Kept(w, b, None), on, cond)
            && Eval(w, PushDown(p, None).plan)
                 == JoinedRows(w, jt, b == left, ta, Kept(w, b, OnTable(b, s.second)), on, Above(b, s))
  {
    var s, f := ExtractConditionOf(cond), Aligned(wtype, isEventTime, a, b);
    assert Combine(cond, None) == cond;
    SplitForJoin(w, cond, None, {a, b});
    KeptAll(w, b);
    JoinOverTable(w, jt, wtype, isEventTime, a, b, left, right, on, DataSource(b), None, cond);
    EvalFilterOne(w, cond, Join(jt, left, right, on, [f]));
    TablePlan(w, a, b, s.second);
    PushAligned(wtype, isEventTime, a, b, s.second);
    PushFiltered(jt, left, right, on, f, cond);
    var again := PushSourceAgain(b, PushSource(b, s.second).plan, StreamPart(b, s.second));
    assert Combine(s.first, again.rest) == Above(b, s);
    JoinOverTable(w, jt, wtype, isEventTime, a, b, left, right, on, again.plan, OnTable(b, s.second), Above(b, s));
  }

  // ----- kept

  /** Nothing is for the table: all stays above the join. */
  lemma NothingForTable(w: World, b: string, cond: Option<Expr>, rows: seq<Row>)
    requires TablePart(b, ExtractConditionOf(cond).second).None?
    ensures Select(rows, Keeps(w, Above(b, ExtractConditionOf(cond)))) == Select(rows, Keeps(w, cond))
  {
    var s := ExtractConditionOf(cond);
    forall row ensures Keeps(w, Above(b, s))(row) == Keeps(w, cond)(row) {
      CombineHolds(w, s.first, StreamPart(b, s.second), row);
      ExtractOfHolds(w, b, s.second, row);
      if cond.Some? {
        ExtractConditionLosesNothing(w, cond.value, row);
      }
    }
    SelectAgree(rows, Keeps(w, Above(b, s)), Keeps(w, cond));
  }

  /** Everything pushed is for the table, and the join keeps all its tuples: filtering them before or after is one. */
  lemma TableSideKeeps(
    w: World, jt: JoinType, tableLeft: bool, ta: seq<Tuple>, tb: seq<Tuple>, b: string, on: Option<Expr>,
    cond: Option<Expr>, rest: Option<Expr>, own: Option<Expr>)
    requires jt != Inner && jt != Full && tableLeft == (jt != Right)
    requires (forall t :: t in tb ==> t.emitter == b) && (forall t :: t in ta ==> t.emitter != b)
    requires b != DEFAULT_STREAM && RefsOf(own) <= {b} && SplitInto(w, cond, rest, own, None)
    ensures JoinedRows(w, jt, tableLeft, ta, Select(tb, KeepsTuple(w, own)), on, rest)
         == JoinedRows(w, jt, tableLeft, ta, tb, on, cond)
  {
    var k, c, c' := KeepsTuple(w, own), Keeps(w, cond), Keeps(w, rest);
    if tableLeft {
      forall l | l in tb ensures FactorsLeft(l, ta, k, c, c') {
        ShareFactorsLeft(w, cond, rest, own, None, l, ta);
      }
      LeftPassFactors(jt, tb, ta, if jt == Cross then Always() else OnOf(w, on), k, c, c');
    } else {
      forall r | r in tb ensures FactorsRight(ta, r, k, c, c') {
        ShareFactorsRight(w, cond, rest, None, own, ta, r);
      }
      RightPassFactors(ta, tb, OnOf(w, on), k, c, c');
    }
  }

  lemma TablePartKeeps(
    w: World, jt: JoinType, wtype: WindowType, isEventTime: bool, a: string, b: string, left: string, right: string,
    on: Option<Expr>, cond: Option<Expr>)
    requires Sane(w) && TakesNoFilter(wtype, isEventTime) && Sides(left, right, a, b) && jt != Inner
    requires a != DEFAULT_STREAM && b != DEFAULT_STREAM && RefsOf(cond) <= {a, b} && KeepsTable(jt, left, right, b)
    requires var c := ExtractConditionOf(cond).second; TablePart(b, c).Some? && StreamPart(b, c).None?
    ensures var p := Filtered(jt, left, right, on, Aligned(wtype, isEventTime, a, b), cond);
            Eval(w, PushDown(p, None).plan) == Eval(w, p)
  {
    var s, ta := ExtractConditionOf(cond), StreamTuples(w, wtype, isEventTime, a);
    var own := TablePart(b, s.second);
    RowsOfPush(w, jt, wtype, isEventTime, a, b, left, right, on, cond);
    assert Combine(cond, None) == cond;
    SplitForJoin(w, cond, None, {a, b});
    OwnOnly(w, a, b, s.second);
    WindowedFrom(w, wtype, isEventTime, a);
    TuplesFromOnly(Windowed(w, wtype, isEventTime, a), a, a);
    KeptFrom(w, b, None);
    KeptAll(w, b);
    TableSideKeeps(w, jt, b == left, ta, Kept(w, b, None), b, on, cond, s.first, own);
  }

  // ----- changed

  /** A join with one tuple on one side only: it comes out bare, or not at all. */
  lemma OneAlone(jt: JoinType, t: Tuple, on: On)
    requires jt != Inner
    ensures EvalJoin(jt, Singles([t]), [], on) == if jt != Right then [[t]] else []
    ensures EvalJoin(jt, Singles([]), [t], on) == if jt == Right || jt == Full then [[t]] else []
  {
    BareTuple(jt, t, on);
    assert Singles([]) == [];
  }

  /** Without a tuple of the table. */
  lemma WithoutTable(w: World, jt: JoinType, tableLeft: bool, t: Tuple, on: Option<Expr>, rest: Option<Expr>)
    requires jt != Inner
    ensures forall row :: row in JoinedRows(w, jt, tableLeft, [t], [], on, rest) ==> |row| == 1
    ensures tableLeft != (jt != Right) || jt == Full ==>
              JoinedRows(w, jt, tableLeft, [t], [], on, rest) == Select([[t]], Keeps(w, rest))
  {
    OneAlone(jt, t, OnOf(w, on));
    SelectSingle([], t, Keeps(w, rest));
    SelectSingle([[t]], t, Keeps(w, rest));
  }

  lemma SelectSingle(rows: seq<Row>, t: Tuple, p: Row -> bool)
    requires rows == [] || rows == [[t]]
    ensures forall row :: row in Select(rows, p) ==> |row| == 1
  {
    SelectSubset(rows, p);
  }

  lemma OneStreamTuple(w: World, wtype: WindowType, isEventTime: bool, t: Tuple)
    requires SourceTuples(w, t.emitter) == [t] && w.window(wtype, isEventTime, [[t]]) == [[t]]
    ensures StreamTuples(w, wtype, isEventTime, t.emitter) == [t]
  {
    OneSourceRow(w, t);
    OneWindowRow(w, wtype, isEventTime, DataSource(t.emitter), [t]);
    TuplesFromOne(t, t.emitter);
  }

  lemma AllButStream(x: Expr, wtype: WindowType, isEventTime: bool, a: string)
    ensures StreamTuples(AllBut(x), wtype, isEventTime, a) == [Tuple(a, 1, 0)]
  {
    SelectAll([Tuple(a, 1, 0)], From(a));
    OneStreamTuple(AllBut(x), wtype, isEventTime, Tuple(a, 1, 0));
  }

  /** A part for the table alone, and a join that fills the table up: with an atom of it false, the bare tuple of the
      stream comes out. */
  lemma TablePartChanges(
    jt: JoinType, wtype: WindowType, isEventTime: bool, a: string, b: string, left: string, right: string,
    on: Option<Expr>, cond: Option<Expr>) returns (x: Expr)
    requires TakesNoFilter(wtype, isEventTime) && Sides(left, right, a, b) && jt != Inner
    requires a != DEFAULT_STREAM && b != DEFAULT_STREAM && RefsOf(cond) <= {a, b} && !KeepsTable(jt, left, right, b)
    requires var c := ExtractConditionOf(cond).second; TablePart(b, c).Some? && StreamPart(b, c).None?
    ensures var p := Filtered(jt, left, right, on, Aligned(wtype, isEventTime, a, b), cond);
            Sane(AllBut(x)) && Eval(AllBut(x), PushDown(p, None).plan) != Eval(AllBut(x), p)
  {
    var s := ExtractConditionOf(cond);
    var own := TablePart(b, s.second);
    x := SomeAtom(own.value);
    var w, t := AllBut(x), Tuple(a, 1, 0);
    AllButIsSane(x);
    RowsOfPush(w, jt, wtype, isEventTime, a, b, left, right, on, cond);
    assert Combine(cond, None) == cond;
    SplitForJoin(w, cond, None, {a, b});
    OwnOnly(w, a, b, s.second);
    ShareNotInRest(cond, b, own, x);
    HoldsAllButOf(x, own);
    HoldsAllButOf(x, s.first);
    KeptAllBut(x, b, own);
    AllButStream(x, wtype, isEventTime, a);
    WithoutTable(w, jt, b == left, t, on, s.first);
    SelectAll([[t]], Keeps(w, s.first));
    assert Combine(None, own) == own;
    RefusedBefore(w, jt, b == left, [t], Kept(w, b, None), on, cond, s, own);
  }

  /** A condition with a part that fails everywhere lets no row through. */
  lemma RefusedBefore(
    w: World, jt: JoinType, tableLeft: bool, ta: seq<Tuple>, tb: seq<Tuple>, on: Option<Expr>, cond: Option<Expr>,
    s: Split, own: Option<Expr>)
    requires forall row :: HoldsOf(w, cond, row) ==> HoldsOf(w, s.second, row)
    requires forall row :: HoldsOf(w, s.second, row) ==> HoldsOf(w, own, row)
    requires forall row :: !HoldsOf(w, own, row)
    ensures JoinedRows(w, jt, tableLeft, ta, tb, on, cond) == []
  {
    var rows := EvalJoin(jt, Singles(if tableLeft then tb else ta), if tableLeft then ta else tb, OnOf(w, on));
    SelectEmpty(rows, Keeps(w, cond));
  }

  /** One tuple on each side that match: one row with both. */
  lemma OnePair(jt: JoinType, l: Tuple, r: Tuple, on: On)
    requires jt != Inner && on([l], r) == True
    ensures EvalJoin(jt, Singles([l]), [r], on) == [if jt == Right then [r] + [l] else [l] + [r]]
  {
    var on' := if jt == Cross then Always() else on;
    assert Singles([l]) == [[l]] && [[l]][..0] == [] && [r][..0] == [];
    assert MatchesOf(LeftFirst, [l], [], on') == [];
    assert MatchesOf(LeftFirst, [l], [r], on') == [] + [[l] + [r]];
    assert LeftPassRows(jt, false, [], [r], on') == [];
    assert LeftPassRows(jt, false, [[l]], [r], on') == [] + [[l] + [r]];
    assert MatchedBy(RightFirst, [], r, on) == [] && MatchedBy(RightFirst, [[l]], r, on) == [] + [[r] + [l]];
    assert RightPassRows([[l]], [], on, false) == [] && RightPassRows([[l]], [], on, true) == [];
  }

  /** Parts for both: the table swallows the stream's, no tuple of the table passes, and no row of both comes out. */
  lemma BothPartsChange(
    jt: JoinType, wtype: WindowType, isEventTime: bool, a: string, b: string, left: string, right: string,
    on: Option<Expr>, cond: Option<Expr>)
    requires TakesNoFilter(wtype, isEventTime) && Sides(left, right, a, b) && jt != Inner
    requires a != DEFAULT_STREAM && b != DEFAULT_STREAM && RefsOf(cond) <= {a, b} && RefsOf(on) <= {a, b}
    requires var c := ExtractConditionOf(cond).second; TablePart(b, c).Some? && StreamPart(b, c).Some?
    ensures var p := Filtered(jt, left, right, on, Aligned(wtype, isEventTime, a, b), cond);
            Sane(Telling()) && Eval(Telling(), PushDown(p, None).plan) != Eval(Telling(), p)
  {
    var w, s, t := Telling(), ExtractConditionOf(cond), Tuple(a, 1, 0);
    RowsOfPush(w, jt, wtype, isEventTime, a, b, left, right, on, cond);
    TellingStream(wtype, isEventTime, a);
    NoTableTuple(a, b, cond);
    WithoutTable(w, jt, b == left, t, on, Above(b, s));
    var both := PairComesOut(jt, a, b, left, right, on, cond);
    assert both !in JoinedRows(w, jt, b == left, [t], [], on, Above(b, s));
  }

  lemma PairComesOut(
    jt: JoinType, a: string, b: string, left: string, right: string, on: Option<Expr>, cond: Option<Expr>)
    returns (both: Row)
    requires Sides(left, right, a, b) && jt != Inner && RefsOf(cond) <= {a, b} && RefsOf(on) <= {a, b}
    ensures var w := Telling();
            |both| == 2 && both in JoinedRows(w, jt, b == left, [Tuple(a, 1, 0)], Kept(w, b, None), on, cond)
  {
    var w, l, r := Telling(), Tuple(left, 1, 0), Tuple(right, 1, 0);
    TellingTuples(b);
    KeptAll(w, b);
    HoldsOnPair(on, l, r);
    OnePair(jt, l, r, OnOf(w, on));
    both := if jt == Right then [r] + [l] else [l] + [r];
    HoldsOnPair(cond, l, r);
    SelectOne(both, Keeps(w, cond));
    InRows(w, jt, b == left, Tuple(a, 1, 0), Tuple(b, 1, 0), on, cond, both);
  }

  lemma InRows(
    w: World, jt: JoinType, tableLeft: bool, ta: Tuple, tb: Tuple, on: Option<Expr>, cond: Option<Expr>, row: Row)
    requires Keeps(w, cond)(row)
    requires EvalJoin(jt, Singles([if tableLeft then tb else ta]), [if tableLeft then ta else tb], OnOf(w, on)) == [row]
    ensures row in JoinedRows(w, jt, tableLeft, [ta], [tb], on, cond)
  {
    SelectOne(row, Keeps(w, cond));
  }

  lemma HoldsOnPair(cond: Option<Expr>, l: Tuple, r: Tuple)
    requires RefsOf(cond) <= {l.emitter, r.emitter}
    ensures HoldsOf(Telling(), cond, [l] + [r]) && HoldsOf(Telling(), cond, [r] + [l])
  {
    if cond.Some? {
      TrueOnBoth(cond.value, l, r);
      TrueOnBoth(cond.value, r, l);
    }
  }

  lemma TellingStream(wtype: WindowType, isEventTime: bool, a: string)
    ensures StreamTuples(Telling(), wtype, isEventTime, a) == [Tuple(a, 1, 0)]
  {
    TellingTuples(a);
    OneStreamTuple(Telling(), wtype, isEventTime, Tuple(a, 1, 0));
  }

  lemma NoTableTuple(a: string, b: string, cond: Option<Expr>)
    requires a != b && a != DEFAULT_STREAM && b != DEFAULT_STREAM && RefsOf(cond) <= {a, b}
    requires var c := ExtractConditionOf(cond).second; TablePart(b, c).Some? && StreamPart(b, c).Some?
    ensures Kept(Telling(), b, OnTable(b, ExtractConditionOf(cond).second)) == []
  {
    var w, tb, s := Telling(), Tuple(b, 1, 0), ExtractConditionOf(cond);
    assert Combine(cond, None) == cond;
    SplitForJoin(w, cond, None, {a, b});
    BothParts(a, b, s.second);
    FalseOnOther(StreamPart(b, s.second).value, tb);
    CombineHolds(w, StreamPart(b, s.second), TablePart(b, s.second), [tb]);
    TellingTuples(b);
    SelectEmpty([tb], KeepsTuple(w, OnTable(b, s.second)));
  }

  // ----- main result

  /** For a stream in an event-time or count window and a table under a LEFT, RIGHT, FULL or CROSS join, push-down keeps
      the rows in every world if and only if it pushes nothing for the table, or nothing but that and the join keeps
      every tuple of the table. */
  lemma OuterTablePreservedExactly(
    jt: JoinType, wtype: WindowType, isEventTime: bool, a: string, b: string, left: string, right: string,
    on: Option<Expr>, cond: Option<Expr>)
    requires TakesNoFilter(wtype, isEventTime) && Sides(left, right, a, b) && jt != Inner
    requires a != DEFAULT_STREAM && b != DEFAULT_STREAM && RefsOf(cond) <= {a, b} && RefsOf(on) <= {a, b}
    ensures var c := ExtractConditionOf(cond).second;
            Preserved(Filtered(jt, left, right, on, Aligned(wtype, isEventTime, a, b), cond)) <==>
              TablePart(b, c).None? || (StreamPart(b, c).None? && KeepsTable(jt, left, right, b))
  {
    var p := Filtered(jt, left, right, on, Aligned(wtype, isEventTime, a, b), cond);
    var c := ExtractConditionOf(cond).second;
    if TablePart(b, c).None? || (StreamPart(b, c).None? && KeepsTable(jt, left, right, b)) {
      forall w | Sane(w) ensures Eval(w, PushDown(p, None).plan) == Eval(w, p) {
        if TablePart(b, c).None? {
          NoPartKeeps(w, jt, wtype, isEventTime, a, b, left, right, on, cond);
        } else {
          TablePartKeeps(w, jt, wtype, isEventTime, a, b, left, right, on, cond);
        }
      }
    } else if StreamPart(b, c).None? {
      var x := TablePartChanges(jt, wtype, isEventTime, a, b, left, right, on, cond);
    } else {
      BothPartsChange(jt, wtype, isEventTime, a, b, left, right, on, cond);
    }
  }

  lemma NoPartKeeps(
    w: World, jt: JoinType, wtype: WindowType, isEventTime: bool, a: string, b: string, left: string, right: string,
    on: Option<Expr>, cond: Option<Expr>)
    requires Sane(w) && TakesNoFilter(wtype, isEventTime) && Sides(left, right, a, b) && jt != Inner
    requires a != DEFAULT_STREAM && b != DEFAULT_STREAM && RefsOf(cond) <= {a, b}
    requires TablePart(b, ExtractConditionOf(cond).second).None?
    ensures var p := Filtered(jt, left, right, on, Aligned(wtype, isEventTime, a, b), cond);
            Eval(w, PushDown(p, None).plan) == Eval(w, p)
  {
    var ta, tb := StreamTuples(w, wtype, isEventTime, a), Kept(w, b, None);
    RowsOfPush(w, jt, wtype, isEventTime, a, b, left, right, on, cond);
    var (lt, rt) := if b == left then (tb, ta) else (ta, tb);
    NothingForTable(w, b, cond, EvalJoin(jt, Singles(lt), rt, OnOf(w, on)));
  }
}
