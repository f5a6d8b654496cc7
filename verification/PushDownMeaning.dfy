/** What a plan computes, and that predicate push-down does not change it. */
module PushDownMeaning {
  import opened Wrappers
  import opened Sequences
  import opened Collections
  import opened Joins
  import opened Planner

  /** Everything a plan's result depends on: the tuples of every source, the value of an atom on the tuples it names,
      the effect of the windows whose content depends on what precedes them, and of the plans above the join. */
  datatype World = World(
    tuples: string -> seq<Tuple>,
    holds: (nat, set<string>, Row) -> bool,
    window: (WindowType, bool, seq<Row>) -> seq<Row>,
    post: (nat, seq<Row>) -> seq<Row>)

  // ----- conditions

  function Named(refs: set<string>): (p: Tuple -> bool) {
    (t: Tuple) => t.emitter in refs || DEFAULT_STREAM in refs
  }

  /** An atom sees only the tuples of the streams it names, or the whole row if a field in it is unqualified. */
  predicate Holds(w: World, e: Expr, row: Row) {
    match e
    case Atom(id, refs) => w.holds(id, refs, Select(row, Named(refs)))
    case And(l, r) => Holds(w, l, row) && Holds(w, r, row)
  }

  predicate HoldsOf(w: World, e: Option<Expr>, row: Row) {
    e.Some? ==> Holds(w, e.value, row)
  }

  function Keeps(w: World, e: Option<Expr>): (p: Row -> bool) {
    (row: Row) => HoldsOf(w, e, row)
  }

  lemma CombineHolds(w: World, a: Option<Expr>, b: Option<Expr>, row: Row)
    ensures HoldsOf(w, Combine(a, b), row) == (HoldsOf(w, a, row) && HoldsOf(w, b, row))
  {}

  lemma CombineRefs(a: Option<Expr>, b: Option<Expr>)
    ensures RefsOf(Combine(a, b)) == RefsOf(a) + RefsOf(b)
  {}

  /** Every conjunct names at most one stream. */
  predicate Single(e: Expr) {
    |Refs(e)| <= 1 || (e.And? && Single(e.lhs) && Single(e.rhs))
  }

  predicate SingleOf(e: Option<Expr>) {
    e.Some? ==> Single(e.value)
  }

  lemma CombineSingle(a: Option<Expr>, b: Option<Expr>)
    requires SingleOf(a) && SingleOf(b)
    ensures SingleOf(Combine(a, b))
  {}

  /** Splitting for a join loses nothing: the condition holds exactly if both parts do ... */
  lemma {:induction false} ExtractConditionLosesNothing(w: World, e: Expr, row: Row)
    ensures var s := ExtractCondition(e);
            Holds(w, e, row) == (HoldsOf(w, s.first, row) && HoldsOf(w, s.second, row))
  {
    if e.And? {
      ExtractConditionLosesNothing(w, e.lhs, row);
      ExtractConditionLosesNothing(w, e.rhs, row);
      var a, b := ExtractCondition(e.lhs), ExtractCondition(e.rhs);
      CombineHolds(w, a.first, b.first, row);
      CombineHolds(w, a.second, b.second, row);
    }
  }

  /** When a condition is taken apart. */
  predicate Apart(e: Expr) {
    (|Refs(e)| > 1 || DEFAULT_STREAM in Refs(e)) && e.And?
  }

  lemma ExtractConditionApart(e: Expr)
    ensures if Apart(e) then
              var a, b := ExtractCondition(e.lhs), ExtractCondition(e.rhs);
              ExtractCondition(e) == Split(Combine(a.first, b.first), Combine(a.second, b.second))
            else if |Refs(e)| <= 1 && DEFAULT_STREAM !in Refs(e) then ExtractCondition(e) == Split(None, Some(e))
            else ExtractCondition(e) == Split(Some(e), None)
  {
    if DEFAULT_STREAM in Refs(e) {
      assert |Refs(e)| > 0;
    }
  }

  /** ... every conjunct of the pushable part names at most one stream, and not the default one ... */
  lemma {:induction false} ExtractConditionSplits(e: Expr)
    ensures SingleOf(ExtractCondition(e).second) && DEFAULT_STREAM !in RefsOf(ExtractCondition(e).second)
  {
    ExtractConditionApart(e);
    if Apart(e) {
      ExtractConditionSplits(e.lhs);
      ExtractConditionSplits(e.rhs);
      CombineRefs(ExtractCondition(e.lhs).second, ExtractCondition(e.rhs).second);
      CombineSingle(ExtractCondition(e.lhs).second, ExtractCondition(e.rhs).second);
    }
  }

  /** ... and no stream is dropped or added. */
  lemma {:induction false} ExtractConditionRefs(e: Expr)
    ensures RefsOf(ExtractCondition(e).first) + RefsOf(ExtractCondition(e).second) == Refs(e)
  {
    ExtractConditionApart(e);
    if Apart(e) {
      ExtractConditionRefs(e.lhs);
      ExtractConditionRefs(e.rhs);
      var a, b := ExtractCondition(e.lhs), ExtractCondition(e.rhs);
      CombineRefs(a.first, b.first);
      CombineRefs(a.second, b.second);
    }
  }

  lemma SmallSet(s: set<string>, x: string)
    requires x in s && |s| <= 1
    ensures s == {x}
  {
    assert |s - {x}| == |s| - 1;
    assert s == (s - {x}) + {x};
  }

  /** Splitting for a source loses nothing: the condition holds exactly if both parts do ... */
  lemma {:induction false} ExtractLosesNothing(w: World, name: string, e: Expr, row: Row)
    ensures var s := Extract(name, e);
            Holds(w, e, row) == (HoldsOf(w, s.first, row) && HoldsOf(w, s.second, row))
  {
    if |Refs(e)| > 1 && e.And? {
      ExtractLosesNothing(w, name, e.lhs, row);
      ExtractLosesNothing(w, name, e.rhs, row);
      var a, b := Extract(name, e.lhs), Extract(name, e.rhs);
      CombineHolds(w, a.first, b.first, row);
      CombineHolds(w, a.second, b.second, row);
      assert Extract(name, e) == Split(Combine(a.first, b.first), Combine(a.second, b.second));
    } else {
      assert Extract(name, e) == Split(Some(e), None) || Extract(name, e) == Split(None, Some(e));
    }
  }

  /** ... the part the source takes names only the source or the default stream ... */
  lemma {:induction false} ExtractOwnsItsOwn(name: string, e: Expr)
    ensures var s := Extract(name, e);
            && RefsOf(s.first) <= {name, DEFAULT_STREAM}
            && RefsOf(s.first) <= Refs(e) && RefsOf(s.second) <= Refs(e)
  {
    var s := Refs(e);
    if |s| == 1 && name in s {
      SmallSet(s, name);
    } else if |s| == 1 && DEFAULT_STREAM in s {
      SmallSet(s, DEFAULT_STREAM);
    } else if |s| > 1 && e.And? {
      ExtractOwnsItsOwn(name, e.lhs);
      ExtractOwnsItsOwn(name, e.rhs);
      var a, b := Extract(name, e.lhs), Extract(name, e.rhs);
      CombineRefs(a.first, b.first);
      CombineRefs(a.second, b.second);
    }
  }

  /** ... and of single-stream conjuncts only those of other streams are left, none of them without a stream. */
  lemma {:induction false} ExtractLeavesOthers(name: string, e: Expr)
    requires Single(e)
    ensures var s := Extract(name, e);
            && SingleOf(s.second) && name !in RefsOf(s.second)
            && (s.second.Some? ==> RefsOf(s.second) != {})
  {
    var s := Refs(e);
    if |s| > 1 {
      ExtractLeavesOthers(name, e.lhs);
      ExtractLeavesOthers(name, e.rhs);
      var a, b := Extract(name, e.lhs), Extract(name, e.rhs);
      CombineRefs(a.second, b.second);
      CombineSingle(a.second, b.second);
    }
  }

  // ----- plans

  function SourceTuples(w: World, name: string): (r: seq<Tuple>) {
    Select(w.tuples(name), From(name))
  }

  /** The tuples of one stream among the rows below a join. */
  function TuplesFrom(rows: seq<Row>, name: string): (r: seq<Tuple>) {
    if rows == [] then []
    else
      var rest, row := TuplesFrom(rows[..|rows| - 1], name), rows[|rows| - 1];
      if |row| == 1 && row[0].emitter == name then rest + [row[0]] else rest
  }

  function OnOf(w: World, on: Option<Expr>): (r: On) {
    (l: Row, r: Tuple) => if HoldsOf(w, on, l + [r]) then True else False
  }

  predicate Pushable(wtype: WindowType, isEventTime: bool) {
    wtype != CountWindow && !isEventTime
  }

  /** The rows of a plan for one window. A processing-time tumbling window passes on what arrived in its interval;
      the content of any other window is a function of the rows below it. */
  function Eval(w: World, p: Plan): (rows: seq<Row>)
    decreases p, 1
  {
    match p
    case DataSource(name) => Singles(SourceTuples(w, name))
    case Filter(c, children) => Select(EvalAll(w, children), Keeps(w, c))
    case Window(wtype, isEventTime, c, children) =>
      var rows := Select(EvalAll(w, children), Keeps(w, c));
      if wtype == TumblingWindow && !isEventTime then rows else w.window(wtype, isEventTime, rows)
    case JoinAlign(children) => EvalAll(w, children)
    case Join(jt, left, right, on, children) =>
      var rows := EvalAll(w, children);
      EvalJoin(jt, Singles(TuplesFrom(rows, left)), TuplesFrom(rows, right), OnOf(w, on))
    case Unary(id, children) => w.post(id, EvalAll(w, children))
  }

  function EvalAll(w: World, ps: seq<Plan>): (rows: seq<Row>)
    decreases ps, 0
  {
    if ps == [] then [] else Eval(w, ps[0]) + EvalAll(w, ps[1..])
  }

  lemma EvalOne(w: World, p: Plan)
    ensures EvalAll(w, [p]) == Eval(w, p)
  {
    assert [p][1..] == [];
  }

  lemma EvalTwo(w: World, p: Plan, q: Plan)
    ensures EvalAll(w, [p, q]) == Eval(w, p) + Eval(w, q)
  {
    assert [p, q][1..] == [q];
    EvalOne(w, q);
  }

  lemma EvalAlign(w: World, p: Plan, q: Plan)
    ensures Eval(w, JoinAlign([p, q])) == Eval(w, p) + Eval(w, q)
  {
    EvalTwo(w, p, q);
  }

  lemma PushOne(p: Plan, condition: Option<Expr>)
    ensures PushAll([p], condition) == PushedAll(PushDown(p, condition).rest, [PushDown(p, condition).plan])
  {
    assert [p][1..] == [];
  }

  lemma PushTwo(p: Plan, q: Plan, condition: Option<Expr>)
    ensures var r := PushDown(p, condition);
            var r' := PushDown(q, r.rest);
            PushAll([p, q], condition) == PushedAll(r'.rest, [r.plan, r'.plan])
  {
    assert [p, q][1..] == [q];
    PushOne(q, PushDown(p, condition).rest);
  }

  // ----- the plans the planner builds

  /** The two sources below a join, in the order of the plan: in one window, or aligned, the second being a table. */
  predicate IsFeed(p: Plan, a: string, b: string) {
    match p
    case Window(wtype, isEventTime, c, children) =>
      && c == None && children == [DataSource(a), DataSource(b)]
      && (Pushable(wtype, isEventTime) ==> wtype == TumblingWindow)
    case JoinAlign(children) =>
      || children == [DataSource(a), DataSource(b)]
      || children == [Window(TumblingWindow, false, None, [DataSource(a)]), DataSource(b)]
    case _ => false
  }

  /** Plans as the planner builds them: sources, at most one window, at most one join, filters and the plans above.
      `filtered` says that a filter stands above; then the join is an inner one. */
  ghost predicate Built(p: Plan, filtered: bool)
    decreases p
  {
    match p
    case DataSource(name) => name != DEFAULT_STREAM
    case Window(wtype, isEventTime, c, children) =>
      && |children| == 1 && children[0].DataSource? && children[0].name != DEFAULT_STREAM
      && (Pushable(wtype, isEventTime) ==> wtype == TumblingWindow)
    case Join(jt, left, right, on, children) =>
      && left != right && left != DEFAULT_STREAM && right != DEFAULT_STREAM
      && |children| == 1 && (IsFeed(children[0], left, right) || IsFeed(children[0], right, left))
      && RefsOf(on) <= {left, right}
      && (filtered ==> jt == Inner)
    case Filter(c, children) => |children| == 1 && Built(children[0], true) && InScope(children[0], c)
    case Unary(_, children) => !filtered && |children| == 1 && Built(children[0], false)
    case JoinAlign(_) => false
  }

  /** A condition above a join names the streams of the join; above a single source it may name anything. */
  predicate InScope(p: Plan, c: Option<Expr>) {
    match p
    case DataSource(_) => true
    case Window(_, _, _, _) => true
    case Join(_, left, right, _, _) => RefsOf(c) <= {left, right}
    case _ => |p.children| == 1 ==> InScope(p.children[0], c)
  }

  lemma {:induction false} NoneInScope(p: Plan)
    ensures InScope(p, None)
  {
    match p
    case DataSource(_) =>
    case Window(_, _, _, _) =>
    case Join(_, _, _, _, _) =>
    case _ =>
      if |p.children| == 1 {
        NoneInScope(p.children[0]);
      }
  }

  lemma {:induction false} CombineInScope(p: Plan, a: Option<Expr>, b: Option<Expr>)
    requires InScope(p, a) && InScope(p, b)
    ensures InScope(p, Combine(a, b))
  {
    match p
    case DataSource(_) =>
    case Window(_, _, _, _) =>
    case Join(_, _, _, _, _) => CombineRefs(a, b);
    case _ =>
      if |p.children| == 1 {
        CombineInScope(p.children[0], a, b);
      }
  }

  // ----- filters on sources

  function KeepsTuple(w: World, e: Option<Expr>): (p: Tuple -> bool) {
    (t: Tuple) => HoldsOf(w, e, [t])
  }

  lemma {:induction false} SinglesSelect(w: World, ts: seq<Tuple>, e: Option<Expr>)
    ensures Select(Singles(ts), Keeps(w, e)) == Singles(Select(ts, KeepsTuple(w, e)))
  {
    if ts != [] {
      var n := |ts| - 1;
      SinglesSelect(w, ts[..n], e);
      assert Singles(ts)[..n] == Singles(ts[..n]);
      SinglesAppend(Select(ts[..n], KeepsTuple(w, e)), ts[n]);
    }
  }

  lemma SelectNone(w: World, rows: seq<Row>)
    ensures Select(rows, Keeps(w, None)) == rows
  {
    SelectAll(rows, Keeps(w, None));
  }

  /** Filtering by two conditions one after the other. */
  lemma SelectCombine(w: World, rows: seq<Row>, a: Option<Expr>, b: Option<Expr>)
    ensures Select(Select(rows, Keeps(w, b)), Keeps(w, a)) == Select(rows, Keeps(w, Combine(a, b)))
  {
    forall row | row in rows ensures Keeps(w, Combine(a, b))(row) == (Keeps(w, b)(row) && Keeps(w, a)(row)) {
      CombineHolds(w, a, b, row);
    }
    SelectTwice(rows, Keeps(w, b), Keeps(w, a), Keeps(w, Combine(a, b)));
  }

  /** A source keeps the tuples for which the part it took holds. */
  lemma SourceMeans(w: World, name: string, c: Option<Expr>)
    ensures Eval(w, PushSource(name, c).plan)
         == Singles(Select(SourceTuples(w, name), KeepsTuple(w, ExtractOf(name, c).first)))
  {
    var own := ExtractOf(name, c).first;
    SinglesSelect(w, SourceTuples(w, name), own);
    if own.Some? {
      EvalOne(w, DataSource(name));
    } else {
      SelectNone(w, Singles(SourceTuples(w, name)));
    }
  }

  lemma ExtractOwn(name: string, e: Option<Expr>)
    requires RefsOf(e) <= {name}
    ensures ExtractOf(name, e) == Split(e, None)
  {
    if e.Some? {
      var s := Refs(e.value);
      assert s == {} || s == {name};
    }
  }

  /** Conjuncts about one stream, each qualified throughout or not at all. */
  predicate Owned(name: string, e: Expr) {
    match e
    case Atom(_, refs) => refs <= {name} || refs == {DEFAULT_STREAM}
    case And(l, r) => Owned(name, l) && Owned(name, r)
  }

  /** Such a condition goes to the source completely, unqualified fields included. */
  lemma {:induction false} ExtractTakesOwned(name: string, e: Expr)
    requires Owned(name, e)
    ensures Extract(name, e) == Split(Some(e), None)
  {
    OwnedRefs(name, e);
    var s := Refs(e);
    SubsetSize(s, {name, DEFAULT_STREAM});
    if |s| == 1 {
      var x :| x in s;
      assert s == {x} by {
        SubsetSize({x}, s);
      }
    } else if |s| > 1 && e.And? {
      ExtractTakesOwned(name, e.lhs);
      ExtractTakesOwned(name, e.rhs);
    } else if |s| > 1 {
      SubsetSize(s, if s <= {name} then {name} else {DEFAULT_STREAM});
    }
  }

  lemma {:induction false} OwnedRefs(name: string, e: Expr)
    requires Owned(name, e)
    ensures Refs(e) <= {name, DEFAULT_STREAM}
  {
    if e.And? {
      OwnedRefs(name, e.lhs);
      OwnedRefs(name, e.rhs);
    }
  }

  /** The two parts that two sources take of single-stream conjuncts about them make up the whole. */
  lemma TwoExtracts(w: World, a: string, b: string, c: Option<Expr>)
    requires SingleOf(c) && RefsOf(c) <= {a, b} && a != DEFAULT_STREAM && b != DEFAULT_STREAM
    ensures var s := ExtractOf(a, c);
            var s' := ExtractOf(b, s.second);
            && s'.second == None
            && RefsOf(s.first) <= {a} && RefsOf(s'.first) <= {b}
            && (c == None ==> s.first == None && s'.first == None)
            && forall row :: HoldsOf(w, c, row) == (HoldsOf(w, s.first, row) && HoldsOf(w, s'.first, row))
  {
    if c.Some? {
      var s := Extract(a, c.value);
      ExtractOwnsItsOwn(a, c.value);
      ExtractLeavesOthers(a, c.value);
      ExtractOwn(b, s.second);
      forall row ensures HoldsOf(w, c, row) == (HoldsOf(w, s.first, row) && HoldsOf(w, s.second, row)) {
        ExtractLosesNothing(w, a, c.value, row);
      }
    }
  }

  // ----- the sources below a join

  lemma {:induction false} TuplesFromConcat(r1: seq<Row>, r2: seq<Row>, name: string)
    ensures TuplesFrom(r1 + r2, name) == TuplesFrom(r1, name) + TuplesFrom(r2, name)
  {
    if r2 == [] {
      assert r1 + r2 == r1;
    } else {
      var r', row := r2[..|r2| - 1], r2[|r2| - 1];
      TuplesFromConcat(r1, r', name);
      assert (r1 + r2)[..|r1 + r2| - 1] == r1 + r';
    }
  }

  lemma {:induction false} TuplesFromSingles(ts: seq<Tuple>, a: string, name: string)
    requires forall t :: t in ts ==> t.emitter == a
    ensures TuplesFrom(Singles(ts), name) == if name == a then ts else []
  {
    if ts != [] {
      var n := |ts| - 1;
      assert ts[n] in ts;
      assert Singles(ts)[..n] == Singles(ts[..n]);
      TuplesFromSingles(ts[..n], a, name);
      assert ts == ts[..n] + [ts[n]];
    }
  }

  /** The tuples a source keeps. */
  function Kept(w: World, name: string, own: Option<Expr>): (ts: seq<Tuple>) {
    Select(SourceTuples(w, name), KeepsTuple(w, own))
  }

  lemma KeptFrom(w: World, name: string, own: Option<Expr>)
    ensures forall t :: t in Kept(w, name, own) ==> t.emitter == name
  {
    SelectSubset(w.tuples(name), From(name));
    SelectSubset(SourceTuples(w, name), KeepsTuple(w, own));
  }

  /** The rows below a join split into the two streams again. */
  lemma TwoSources(w: World, a: string, b: string, oa: Option<Expr>, ob: Option<Expr>, rows: seq<Row>)
    requires a != b && rows == Singles(Kept(w, a, oa)) + Singles(Kept(w, b, ob))
    ensures TuplesFrom(rows, a) == Kept(w, a, oa) && TuplesFrom(rows, b) == Kept(w, b, ob)
  {
    KeptFrom(w, a, oa);
    KeptFrom(w, b, ob);
    forall name | name == a || name == b
      ensures TuplesFrom(rows, name) == if name == a then Kept(w, a, oa) else Kept(w, b, ob)
    {
      TuplesFromConcat(Singles(Kept(w, a, oa)), Singles(Kept(w, b, ob)), name);
      TuplesFromSingles(Kept(w, a, oa), a, name);
      TuplesFromSingles(Kept(w, b, ob), b, name);
    }
  }

  // ----- pushing single-stream conjuncts through the two sources

  /** The outcome of a push: nothing is left, and every source keeps what its part of the condition admits. */
  ghost predicate PushedTo(
    w: World, r: Pushed, a: string, b: string, c: Option<Expr>, oa: Option<Expr>, ob: Option<Expr>)
  {
    && r.rest == None && RefsOf(oa) <= {a} && RefsOf(ob) <= {b}
    && (c == None ==> oa == None && ob == None)
    && (forall row :: HoldsOf(w, c, row) == (HoldsOf(w, oa, row) && HoldsOf(w, ob, row)))
    && Eval(w, r.plan) == Singles(Kept(w, a, oa)) + Singles(Kept(w, b, ob))
  }

  predicate Blocks(p: Plan) {
    p.Window? && !Pushable(p.wtype, p.isEventTime)
  }

  /** A source that took exactly its own part is left alone by the second pass with nothing to push. */
  lemma AgainSame(name: string, c: Option<Expr>)
    requires RefsOf(ExtractOf(name, c).first) <= {name}
    ensures PushSourceAgain(name, PushSource(name, c).plan, None) == Pushed(None, PushSource(name, c).plan)
  {
    ExtractOwn(name, ExtractOf(name, c).first);
  }

  lemma TumblingTwo(w: World, p: Plan, q: Plan)
    ensures Eval(w, Window(TumblingWindow, false, None, [p, q])) == Eval(w, p) + Eval(w, q)
  {
    EvalTwo(w, p, q);
    SelectNone(w, EvalAll(w, [p, q]));
  }

  lemma TumblingOne(w: World, p: Plan, c: Option<Expr>)
    ensures Eval(w, Window(TumblingWindow, false, c, [p])) == Select(Eval(w, p), Keeps(w, c))
  {
    EvalOne(w, p);
  }

  lemma PushTumblingTwo(a: string, b: string, c: Option<Expr>)
    ensures var pa := PushSource(a, c);
            var pb := PushSource(b, pa.rest);
            PushDown(Window(TumblingWindow, false, None, [DataSource(a), DataSource(b)]), c)
              == Pushed(None, Window(TumblingWindow, false, pb.rest, [pa.plan, pb.plan]))
  {
    PushTwo(DataSource(a), DataSource(b), c);
  }

  lemma PushTumblingOne(a: string, own: Option<Expr>, c: Option<Expr>)
    ensures var pa := PushSource(a, Combine(c, own));
            PushDown(Window(TumblingWindow, false, own, [DataSource(a)]), c)
              == Pushed(None, Window(TumblingWindow, false, pa.rest, [pa.plan]))
  {
    PushOne(DataSource(a), Combine(c, own));
  }

  lemma PushWindow(w: World, a: string, b: string, c: Option<Expr>) returns (oa: Option<Expr>, ob: Option<Expr>)
    requires a != DEFAULT_STREAM && b != DEFAULT_STREAM && SingleOf(c) && RefsOf(c) <= {a, b}
    ensures var f := Window(TumblingWindow, false, None, [DataSource(a), DataSource(b)]);
            PushedTo(w, PushDown(f, c), a, b, c, oa, ob)
    ensures oa == ExtractOf(a, c).first && ob == ExtractOf(b, ExtractOf(a, c).second).first
  {
    TwoExtracts(w, a, b, c);
    var c' := ExtractOf(a, c).second;
    oa, ob := ExtractOf(a, c).first, ExtractOf(b, c').first;
    PushTumblingTwo(a, b, c);
    TumblingTwo(w, PushSource(a, c).plan, PushSource(b, c').plan);
    SourceMeans(w, a, c);
    SourceMeans(w, b, c');
  }

  lemma AlignTwo(p: Plan, q: Plan, c: Option<Expr>)
    requires q.DataSource?
    ensures var r := if p.DataSource? then PushSource(p.name, c) else Pushed(c, p);
            var r' := PushSource(q.name, r.rest);
            var s := if p.DataSource? then PushSourceAgain(p.name, r.plan, r'.rest) else PushDown(p, r'.rest);
            var s' := PushSourceAgain(q.name, r'.plan, s.rest);
            PushDown(JoinAlign([p, q]), c) == Pushed(s'.rest, JoinAlign([s.plan, s'.plan]))
  {
    var r := if p.DataSource? then PushSource(p.name, c) else Pushed(c, p);
    var r' := PushSource(q.name, r.rest);
    assert [p, q][1..] == [q] && [q][1..] == [];
    assert PushSources([q], r.rest) == PushedAll(r'.rest, [r'.plan]);
    var src := PushSources([p, q], c);
    assert src == PushedAll(r'.rest, [r.plan, r'.plan]);
    var s := if p.DataSource? then PushSourceAgain(p.name, r.plan, r'.rest) else PushDown(p, r'.rest);
    var s' := PushSourceAgain(q.name, r'.plan, s.rest);
    assert src.plans[1..] == [r'.plan];
    assert PushOthers([q], [r'.plan], s.rest) == PushedAll(s'.rest, [s'.plan]);
    assert PushOthers([p, q], src.plans, src.rest) == PushedAll(s'.rest, [s.plan] + [s'.plan]);
    assert [s.plan] + [s'.plan] == [s.plan, s'.plan];
  }

  lemma PushAlignedSources(w: World, a: string, b: string, c: Option<Expr>)
    returns (oa: Option<Expr>, ob: Option<Expr>)
    requires a != DEFAULT_STREAM && b != DEFAULT_STREAM && SingleOf(c) && RefsOf(c) <= {a, b}
    ensures PushedTo(w, PushDown(JoinAlign([DataSource(a), DataSource(b)]), c), a, b, c, oa, ob)
    ensures oa == ExtractOf(a, c).first && ob == ExtractOf(b, ExtractOf(a, c).second).first
  {
    TwoExtracts(w, a, b, c);
    var c' := ExtractOf(a, c).second;
    oa, ob := ExtractOf(a, c).first, ExtractOf(b, c').first;
    var plan := PushDown(JoinAlign([DataSource(a), DataSource(b)]), c).plan;
    PushAlignedSourcesPlan(a, b, c);
    assert Eval(w, plan) == Singles(Kept(w, a, oa)) + Singles(Kept(w, b, ob)) by {
      EvalAlign(w, PushSource(a, c).plan, PushSource(b, c').plan);
      SourceMeans(w, a, c);
      SourceMeans(w, b, c');
    }
  }

  lemma PushAlignedSourcesPlan(a: string, b: string, c: Option<Expr>)
    requires RefsOf(ExtractOf(a, c).first) <= {a} && RefsOf(ExtractOf(b, ExtractOf(a, c).second).first) <= {b}
    requires ExtractOf(b, ExtractOf(a, c).second).second == None
    ensures PushDown(JoinAlign([DataSource(a), DataSource(b)]), c)
         == Pushed(None, JoinAlign([PushSource(a, c).plan, PushSource(b, ExtractOf(a, c).second).plan]))
  {
    AlignTwo(DataSource(a), DataSource(b), c);
    AgainSame(a, c);
    AgainSame(b, ExtractOf(a, c).second);
  }

  lemma PushAlignedWindowPlan(a: string, b: string, c: Option<Expr>)
    requires RefsOf(ExtractOf(b, c).first) <= {b} && ExtractOf(a, ExtractOf(b, c).second).second == None
    ensures PushDown(JoinAlign([Window(TumblingWindow, false, None, [DataSource(a)]), DataSource(b)]), c)
         == Pushed(None, JoinAlign([Window(TumblingWindow, false, None, [PushSource(a, ExtractOf(b, c).second).plan]),
                                    PushSource(b, c).plan]))
  {
    AlignTwo(Window(TumblingWindow, false, None, [DataSource(a)]), DataSource(b), c);
    PushTumblingOne(a, None, ExtractOf(b, c).second);
    AgainSame(b, c);
  }

  lemma EvalAlignedWindow(w: World, pa: Plan, pb: Plan)
    ensures Eval(w, JoinAlign([Window(TumblingWindow, false, None, [pa]), pb])) == Eval(w, pa) + Eval(w, pb)
  {
    var window := Window(TumblingWindow, false, None, [pa]);
    assert Eval(w, window) == Eval(w, pa) by {
      TumblingOne(w, pa, None);
      SelectNone(w, Eval(w, pa));
    }
    EvalAlign(w, window, pb);
  }

  lemma PushAlignedWindow(w: World, a: string, b: string, c: Option<Expr>)
    returns (oa: Option<Expr>, ob: Option<Expr>)
    requires a != DEFAULT_STREAM && b != DEFAULT_STREAM && SingleOf(c) && RefsOf(c) <= {a, b}
    ensures PushedTo(
              w, PushDown(JoinAlign([Window(TumblingWindow, false, None, [DataSource(a)]), DataSource(b)]), c),
              a, b, c, oa, ob)
    ensures ob == ExtractOf(b, c).first && oa == ExtractOf(a, ExtractOf(b, c).second).first
  {
    TwoExtracts(w, b, a, c);
    var c' := ExtractOf(b, c).second;
    ob, oa := ExtractOf(b, c).first, ExtractOf(a, c').first;
    var plan := PushDown(JoinAlign([Window(TumblingWindow, false, None, [DataSource(a)]), DataSource(b)]), c).plan;
    assert Eval(w, plan) == Singles(Kept(w, a, oa)) + Singles(Kept(w, b, ob)) by {
      PushAlignedWindowPlan(a, b, c);
      EvalAlignedWindow(w, PushSource(a, c').plan, PushSource(b, c).plan);
      SourceMeans(w, a, c');
      SourceMeans(w, b, c);
    }
    PushAlignedWindowPlan(a, b, c);
  }

  /** What two sources take of single-stream conjuncts: in an align a table takes before a windowed stream. */
  function Takes(f: Plan, a: string, b: string, c: Option<Expr>): (r: (Option<Expr>, Option<Expr>)) {
    if f.JoinAlign? && f.children != [DataSource(a), DataSource(b)] then
      (ExtractOf(a, ExtractOf(b, c).second).first, ExtractOf(b, c).first)
    else (ExtractOf(a, c).first, ExtractOf(b, ExtractOf(a, c).second).first)
  }

  lemma PushFeed(w: World, f: Plan, a: string, b: string, c: Option<Expr>) returns (oa: Option<Expr>, ob: Option<Expr>)
    requires IsFeed(f, a, b) && a != DEFAULT_STREAM && b != DEFAULT_STREAM && SingleOf(c) && RefsOf(c) <= {a, b}
    ensures if Blocks(f) then PushDown(f, c) == Pushed(c, f) else PushedTo(w, PushDown(f, c), a, b, c, oa, ob)
    ensures !Blocks(f) ==> (oa, ob) == Takes(f, a, b, c)
  {
    oa, ob := None, None;
    if f.JoinAlign? {
      if f.children == [DataSource(a), DataSource(b)] {
        oa, ob := PushAlignedSources(w, a, b, c);
      } else {
        oa, ob := PushAlignedWindow(w, a, b, c);
      }
    } else if !Blocks(f) {
      oa, ob := PushWindow(w, a, b, c);
    }
  }

  // ----- inner joins

  /** On matching pairs, filtering the inputs and the new ON amount to the old ON and a filter on the rows. */
  ghost predicate SamePairs(
    l: Tuple, rt: seq<Tuple>, kl: Tuple -> bool, kr: Tuple -> bool, on: On, on': On, c: Row -> bool)
  {
    forall r :: r in rt ==>
      ((kl(l) && kr(r) && on'([l], r) == True) <==> (on([l], r) == True && c([l] + [r])))
  }

  lemma {:induction false} MatchesPush(
    l: Tuple, rt: seq<Tuple>, kl: Tuple -> bool, kr: Tuple -> bool, on: On, on': On, c: Row -> bool)
    requires SamePairs(l, rt, kl, kr, on, on', c)
    ensures Select(MatchesOf(LeftFirst, [l], rt, on), c)
         == if kl(l) then MatchesOf(LeftFirst, [l], Select(rt, kr), on') else []
  {
    if rt != [] {
      var n := |rt| - 1;
      assert rt[n] in rt;
      MatchesPush(l, rt[..n], kl, kr, on, on', c);
      SelectAppend(MatchesOf(LeftFirst, [l], rt[..n], on), [l] + [rt[n]], c);
      var kept := Select(rt[..n], kr);
      assert (kept + [rt[n]])[..|kept|] == kept;
    }
  }

  lemma MatchedNext(lt: seq<Tuple>, l: Tuple, rt: seq<Tuple>, on: On)
    ensures Matched(LeftFirst, Singles(lt + [l]), rt, on)
         == Matched(LeftFirst, Singles(lt), rt, on) + MatchesOf(LeftFirst, [l], rt, on)
  {
    SinglesAppend(lt, l);
    assert (Singles(lt) + [[l]])[..|lt|] == Singles(lt);
  }

  lemma {:induction false} InnerPush(
    lt: seq<Tuple>, rt: seq<Tuple>, kl: Tuple -> bool, kr: Tuple -> bool, on: On, on': On, c: Row -> bool)
    requires forall l :: l in lt ==> SamePairs(l, rt, kl, kr, on, on', c)
    ensures Select(Matched(LeftFirst, Singles(lt), rt, on), c)
         == Matched(LeftFirst, Singles(Select(lt, kl)), Select(rt, kr), on')
  {
    if lt != [] {
      var before, l := lt[..|lt| - 1], lt[|lt| - 1];
      assert lt == before + [l] && l in lt;
      InnerPush(before, rt, kl, kr, on, on', c);
      MatchesPush(l, rt, kl, kr, on, on', c);
      MatchedNext(before, l, rt, on);
      SelectConcat(Matched(LeftFirst, Singles(before), rt, on), MatchesOf(LeftFirst, [l], rt, on), c);
      SelectAppend(before, l, kl);
      MatchedNext(Select(before, kl), l, Select(rt, kr), on');
    }
  }

  /** A condition about one side of a pair does not see the other side. */
  lemma {:induction false} HoldsOnSide(w: World, e: Expr, l: Tuple, r: Tuple)
    requires l.emitter != r.emitter && DEFAULT_STREAM !in Refs(e)
    ensures Refs(e) <= {l.emitter} ==> Holds(w, e, [l] + [r]) == Holds(w, e, [l])
    ensures Refs(e) <= {r.emitter} ==> Holds(w, e, [l] + [r]) == Holds(w, e, [r])
  {
    match e
    case And(a, b) =>
      HoldsOnSide(w, a, l, r);
      HoldsOnSide(w, b, l, r);
    case Atom(id, refs) =>
      SelectPair(l, r, Named(refs));
  }

  lemma SelectPair(l: Tuple, r: Tuple, p: Tuple -> bool)
    ensures Select([l] + [r], p) == Select([l], p) + Select([r], p)
    ensures Select([l], p) == (if p(l) then [l] else []) && Select([r], p) == (if p(r) then [r] else [])
  {
    SelectConcat([l], [r], p);
    SelectAppend([], l, p);
    SelectAppend([], r, p);
    assert [] + [l] == [l] && [] + [r] == [r];
  }

  lemma HoldsOnSideOf(w: World, e: Option<Expr>, l: Tuple, r: Tuple)
    requires l.emitter != r.emitter && DEFAULT_STREAM !in RefsOf(e)
    ensures RefsOf(e) <= {l.emitter} ==> HoldsOf(w, e, [l] + [r]) == HoldsOf(w, e, [l])
    ensures RefsOf(e) <= {r.emitter} ==> HoldsOf(w, e, [l] + [r]) == HoldsOf(w, e, [r])
  {
    if e.Some? {
      HoldsOnSide(w, e.value, l, r);
    }
  }

  /** The condition on top of an inner join, together with its ON, in the parts the push makes of it. */
  ghost predicate Parts(
    w: World, cond: Option<Expr>, on: Option<Expr>, multi: Option<Expr>, ol: Option<Expr>, or: Option<Expr>)
  {
    forall row :: (HoldsOf(w, cond, row) && HoldsOf(w, on, row)) ==
                  (HoldsOf(w, multi, row) && HoldsOf(w, ol, row) && HoldsOf(w, or, row))
  }

  lemma JoinPushTuples(
    w: World, left: string, right: string, lt: seq<Tuple>, rt: seq<Tuple>, cond: Option<Expr>, on: Option<Expr>,
    multi: Option<Expr>, ol: Option<Expr>, or: Option<Expr>)
    requires left != right && RefsOf(ol) <= {left} && RefsOf(or) <= {right} && Parts(w, cond, on, multi, ol, or)
    requires left != DEFAULT_STREAM && right != DEFAULT_STREAM
    requires (forall l :: l in lt ==> l.emitter == left) && (forall r :: r in rt ==> r.emitter == right)
    ensures Select(Matched(LeftFirst, Singles(lt), rt, OnOf(w, on)), Keeps(w, cond))
         == Matched(LeftFirst, Singles(Select(lt, KeepsTuple(w, ol))), Select(rt, KeepsTuple(w, or)), OnOf(w, multi))
  {
    forall l | l in lt
      ensures SamePairs(l, rt, KeepsTuple(w, ol), KeepsTuple(w, or), OnOf(w, on), OnOf(w, multi), Keeps(w, cond))
    {
      forall r | r in rt
        ensures (KeepsTuple(w, ol)(l) && KeepsTuple(w, or)(r) && OnOf(w, multi)([l], r) == True)
           <==> (OnOf(w, on)([l], r) == True && Keeps(w, cond)([l] + [r]))
      {
        HoldsOnSideOf(w, ol, l, r);
        HoldsOnSideOf(w, or, l, r);
      }
    }
    InnerPush(lt, rt, KeepsTuple(w, ol), KeepsTuple(w, or), OnOf(w, on), OnOf(w, multi), Keeps(w, cond));
  }

  lemma JoinPush(
    w: World, left: string, right: string, cond: Option<Expr>, on: Option<Expr>,
    multi: Option<Expr>, ol: Option<Expr>, or: Option<Expr>)
    requires left != right && RefsOf(ol) <= {left} && RefsOf(or) <= {right} && Parts(w, cond, on, multi, ol, or)
    requires left != DEFAULT_STREAM && right != DEFAULT_STREAM
    ensures Select(Matched(LeftFirst, Singles(Kept(w, left, None)), Kept(w, right, None), OnOf(w, on)), Keeps(w, cond))
         == Matched(LeftFirst, Singles(Kept(w, left, ol)), Kept(w, right, or), OnOf(w, multi))
  {
    KeptFrom(w, left, None);
    KeptFrom(w, right, None);
    KeptAll(w, left);
    KeptAll(w, right);
    JoinPushTuples(w, left, right, Kept(w, left, None), Kept(w, right, None), cond, on, multi, ol, or);
  }

  lemma KeptAll(w: World, name: string)
    ensures Kept(w, name, None) == SourceTuples(w, name)
  {
    SelectAll(SourceTuples(w, name), KeepsTuple(w, None));
  }

  lemma FeedMeans(w: World, f: Plan, a: string, b: string)
    requires IsFeed(f, a, b) && !Blocks(f)
    ensures Eval(w, f) == Singles(Kept(w, a, None)) + Singles(Kept(w, b, None))
  {
    KeptAll(w, a);
    KeptAll(w, b);
    if f.Window? {
      TumblingTwo(w, DataSource(a), DataSource(b));
    } else if f.children == [DataSource(a), DataSource(b)] {
      EvalTwo(w, DataSource(a), DataSource(b));
    } else {
      EvalAlignedWindow(w, DataSource(a), DataSource(b));
    }
  }

  /** With the window in the way everything the join was given goes into its ON. */
  lemma BlockedJoin(w: World, rows: seq<Row>, left: string, right: string, cond: Option<Expr>, on: Option<Expr>,
                    on': Option<Expr>)
    requires forall row :: HoldsOf(w, on', row) == (HoldsOf(w, cond, row) && HoldsOf(w, on, row))
    ensures var lt, rt := TuplesFrom(rows, left), TuplesFrom(rows, right);
            Select(Matched(LeftFirst, Singles(lt), rt, OnOf(w, on)), Keeps(w, cond))
              == Matched(LeftFirst, Singles(lt), rt, OnOf(w, on'))
  {
    var lt, rt := TuplesFrom(rows, left), TuplesFrom(rows, right);
    var all := (t: Tuple) => true;
    forall l | l in lt ensures SamePairs(l, rt, all, all, OnOf(w, on), OnOf(w, on'), Keeps(w, cond)) {}
    InnerPush(lt, rt, all, all, OnOf(w, on), OnOf(w, on'), Keeps(w, cond));
    SelectAll(lt, all);
    SelectAll(rt, all);
  }

  /** What an inner join makes of a condition: the part about both streams, and the part it pushes. */
  lemma SplitForJoin(w: World, cond: Option<Expr>, on: Option<Expr>, scope: set<string>)
    requires RefsOf(cond) <= scope && RefsOf(on) <= scope
    ensures var s := ExtractConditionOf(Combine(cond, on));
            && SingleOf(s.second) && RefsOf(s.second) <= scope
            && forall row :: (HoldsOf(w, cond, row) && HoldsOf(w, on, row)) ==
                             (HoldsOf(w, s.first, row) && HoldsOf(w, s.second, row))
  {
    var c := Combine(cond, on);
    CombineRefs(cond, on);
    if c.Some? {
      ExtractConditionSplits(c.value);
      ExtractConditionRefs(c.value);
    }
    var s := ExtractConditionOf(c);
    forall row ensures (HoldsOf(w, cond, row) && HoldsOf(w, on, row)) ==
                       (HoldsOf(w, s.first, row) && HoldsOf(w, s.second, row))
    {
      CombineHolds(w, cond, on, row);
      if c.Some? {
        ExtractConditionLosesNothing(w, c.value, row);
      }
    }
  }

  /** The rows of a join over one plan. */
  lemma EvalJoinOne(w: World, jt: JoinType, left: string, right: string, on: Option<Expr>, f: Plan)
    ensures var rows := Eval(w, f);
            Eval(w, Join(jt, left, right, on, [f]))
              == EvalJoin(jt, Singles(TuplesFrom(rows, left)), TuplesFrom(rows, right), OnOf(w, on))
  {
    EvalOne(w, f);
  }

  lemma PushJoinOne(jt: JoinType, left: string, right: string, on: Option<Expr>, f: Plan, cond: Option<Expr>)
    ensures var s := ExtractConditionOf(if jt == Inner then Combine(cond, on) else cond);
            var r := PushDown(f, s.second);
            PushDown(Join(jt, left, right, on, [f]), cond) ==
              if jt == Inner then Pushed(None, Join(jt, left, right, Combine(s.first, r.rest), [r.plan]))
              else Pushed(Combine(s.first, r.rest), Join(jt, left, right, on, [r.plan]))
  {
    PushOne(f, ExtractConditionOf(if jt == Inner then Combine(cond, on) else cond).second);
  }

  /** The rows an inner join yields once its sources were pushed to. */
  lemma OpenJoin(w: World, left: string, right: string, a: string, b: string, on: Option<Expr>, f: Plan,
                 cond: Option<Expr>)
    requires a != b && ((a == left && b == right) || (a == right && b == left))
    requires IsFeed(f, a, b) && a != DEFAULT_STREAM && b != DEFAULT_STREAM && !Blocks(f)
    requires RefsOf(cond) <= {left, right} && RefsOf(on) <= {left, right}
    ensures var s := ExtractConditionOf(Combine(cond, on));
            var r := PushDown(f, s.second);
            var rows, rows' := Eval(w, f), Eval(w, r.plan);
            && r.rest == None
            && Select(Matched(LeftFirst, Singles(TuplesFrom(rows, left)), TuplesFrom(rows, right), OnOf(w, on)),
                      Keeps(w, cond))
                 == Matched(LeftFirst, Singles(TuplesFrom(rows', left)), TuplesFrom(rows', right), OnOf(w, s.first))
  {
    SplitForJoin(w, cond, on, {left, right});
    var s := ExtractConditionOf(Combine(cond, on));
    var oa, ob := PushFeed(w, f, a, b, s.second);
    FeedMeans(w, f, a, b);
    TwoSources(w, a, b, None, None, Eval(w, f));
    TwoSources(w, a, b, oa, ob, Eval(w, PushDown(f, s.second).plan));
    if a == left {
      JoinPush(w, left, right, cond, on, s.first, oa, ob);
    } else {
      JoinPush(w, left, right, cond, on, s.first, ob, oa);
    }
  }

  /** ... and once everything it was given went into its ON. */
  lemma ClosedJoin(w: World, left: string, right: string, a: string, b: string, on: Option<Expr>, f: Plan,
                   cond: Option<Expr>)
    requires IsFeed(f, a, b) && Blocks(f) && RefsOf(cond) <= {left, right} && RefsOf(on) <= {left, right}
    ensures var s := ExtractConditionOf(Combine(cond, on));
            var r := PushDown(f, s.second);
            var rows := Eval(w, f);
            && r == Pushed(s.second, f)
            && Select(Matched(LeftFirst, Singles(TuplesFrom(rows, left)), TuplesFrom(rows, right), OnOf(w, on)),
                      Keeps(w, cond))
                 == Matched(LeftFirst, Singles(TuplesFrom(rows, left)), TuplesFrom(rows, right),
                            OnOf(w, Combine(s.first, s.second)))
  {
    SplitForJoin(w, cond, on, {left, right});
    var s := ExtractConditionOf(Combine(cond, on));
    forall row ensures HoldsOf(w, Combine(s.first, s.second), row) == (HoldsOf(w, cond, row) && HoldsOf(w, on, row)) {
      CombineHolds(w, s.first, s.second, row);
    }
    BlockedJoin(w, Eval(w, f), left, right, cond, on, Combine(s.first, s.second));
  }

  lemma InnerJoinMeans(w: World, left: string, right: string, on: Option<Expr>, f: Plan, cond: Option<Expr>)
    requires Built(Join(Inner, left, right, on, [f]), true) && RefsOf(cond) <= {left, right}
    ensures var p := Join(Inner, left, right, on, [f]);
            var r := PushDown(p, cond);
            r.rest == None && Eval(w, r.plan) == Select(Eval(w, p), Keeps(w, cond))
  {
    var s := ExtractConditionOf(Combine(cond, on));
    var r := PushDown(f, s.second);
    PushJoinOne(Inner, left, right, on, f, cond);
    EvalJoinOne(w, Inner, left, right, on, f);
    EvalJoinOne(w, Inner, left, right, Combine(s.first, r.rest), r.plan);
    var a, b := if IsFeed(f, left, right) then left else right, if IsFeed(f, left, right) then right else left;
    if Blocks(f) {
      ClosedJoin(w, left, right, a, b, on, f, cond);
    } else {
      OpenJoin(w, left, right, a, b, on, f, cond);
    }
  }

  /** A join of another kind under no filter is left as it is. */
  lemma OuterJoinMeans(w: World, jt: JoinType, left: string, right: string, on: Option<Expr>, f: Plan)
    requires jt != Inner && Built(Join(jt, left, right, on, [f]), false)
    ensures var p := Join(jt, left, right, on, [f]);
            var r := PushDown(p, None);
            r.rest == None && Eval(w, r.plan) == Eval(w, p)
  {
    var r := PushDown(f, None);
    PushJoinOne(jt, left, right, on, f, None);
    EvalJoinOne(w, jt, left, right, on, f);
    EvalJoinOne(w, jt, left, right, on, r.plan);
    var a, b := if IsFeed(f, left, right) then left else right, if IsFeed(f, left, right) then right else left;
    var oa, ob := PushFeed(w, f, a, b, None);
    if !Blocks(f) {
      FeedMeans(w, f, a, b);
    }
  }

  // ----- every plan

  /** What a push has to achieve: filtering the new plan by what is left is filtering the old plan by the condition. */
  ghost predicate Means(w: World, p: Plan, cond: Option<Expr>) {
    var r := PushDown(p, cond);
    && Select(Eval(w, r.plan), Keeps(w, r.rest)) == Select(Eval(w, p), Keeps(w, cond))
    && (cond == None ==> r.rest == None)
  }

  lemma SourceMeansOf(w: World, name: string, cond: Option<Expr>)
    ensures Means(w, DataSource(name), cond)
  {
    var s := ExtractOf(name, cond);
    SourceMeans(w, name, cond);
    SinglesSelect(w, SourceTuples(w, name), s.first);
    var rows := Eval(w, DataSource(name));
    forall row ensures Keeps(w, cond)(row) == (Keeps(w, s.first)(row) && Keeps(w, s.second)(row)) {
      if cond.Some? {
        ExtractLosesNothing(w, name, cond.value, row);
      }
    }
    SelectTwice(rows, Keeps(w, s.first), Keeps(w, s.second), Keeps(w, cond));
  }

  lemma WindowMeans(w: World, wtype: WindowType, isEventTime: bool, c: Option<Expr>, name: string, cond: Option<Expr>)
    requires Pushable(wtype, isEventTime) ==> wtype == TumblingWindow
    ensures Means(w, Window(wtype, isEventTime, c, [DataSource(name)]), cond)
  {
    if Pushable(wtype, isEventTime) {
      var a := Combine(cond, c);
      var r := PushSource(name, a);
      PushTumblingOne(name, c, cond);
      SourceMeansOf(w, name, a);
      TumblingOne(w, DataSource(name), c);
      TumblingOne(w, r.plan, r.rest);
      SelectCombine(w, Eval(w, DataSource(name)), cond, c);
      SelectNone(w, Eval(w, Window(wtype, isEventTime, r.rest, [r.plan])));
    }
  }

  /** A processing-time window of any kind takes the condition with its own and hands none back: after the push it works
      on exactly the rows of its source that satisfy both. */
  lemma WindowInput(w: World, wtype: WindowType, c: Option<Expr>, name: string, cond: Option<Expr>)
    returns (q: Plan, rest: Option<Expr>)
    requires Pushable(wtype, false)
    ensures PushDown(Window(wtype, false, c, [DataSource(name)]), cond) == Pushed(None, Window(wtype, false, rest, [q]))
    ensures RefsOf(Combine(cond, c)) <= {name} ==> rest == None
    ensures var rows := Select(Select(Eval(w, DataSource(name)), Keeps(w, c)), Keeps(w, cond));
            && Select(Eval(w, q), Keeps(w, rest)) == rows
            && Eval(w, Window(wtype, false, rest, [q]))
                 == if wtype == TumblingWindow then rows else w.window(wtype, false, rows)
  {
    var a := Combine(cond, c);
    q, rest := PushSource(name, a).plan, PushSource(name, a).rest;
    PushOne(DataSource(name), a);
    if RefsOf(a) <= {name} {
      ExtractOwn(name, a);
    }
    SourceMeansOf(w, name, a);
    SelectCombine(w, Eval(w, DataSource(name)), cond, c);
    EvalOne(w, q);
  }

  /** The same over two sources: each passes on the rows that satisfy what the condition says about it. */
  lemma WindowInputTwo(w: World, wtype: WindowType, a: string, b: string, c: Option<Expr>)
    returns (p: Plan, q: Plan, oa: Option<Expr>, ob: Option<Expr>)
    requires Pushable(wtype, false) && a != b && a != DEFAULT_STREAM && b != DEFAULT_STREAM
    requires SingleOf(c) && RefsOf(c) <= {a, b}
    ensures PushDown(Window(wtype, false, None, [DataSource(a), DataSource(b)]), c)
         == Pushed(None, Window(wtype, false, None, [p, q]))
    ensures Eval(w, p) == Select(Eval(w, DataSource(a)), Keeps(w, oa))
    ensures Eval(w, q) == Select(Eval(w, DataSource(b)), Keeps(w, ob))
    ensures RefsOf(oa) <= {a} && RefsOf(ob) <= {b}
    ensures forall row :: HoldsOf(w, c, row) == (HoldsOf(w, oa, row) && HoldsOf(w, ob, row))
  {
    TwoExtracts(w, a, b, c);
    var c' := ExtractOf(a, c).second;
    oa, ob := ExtractOf(a, c).first, ExtractOf(b, c').first;
    p, q := PushSource(a, c).plan, PushSource(b, c').plan;
    PushTwo(DataSource(a), DataSource(b), c);
    SourceMeans(w, a, c);
    SourceMeans(w, b, c');
    SinglesSelect(w, SourceTuples(w, a), oa);
    SinglesSelect(w, SourceTuples(w, b), ob);
  }

  /** What a filter on one plan becomes: a filter by what is left, or nothing but the plan below. */
  lemma PushFilterOne(c: Option<Expr>, q: Plan, cond: Option<Expr>)
    ensures var r := PushDown(q, Combine(cond, c));
            PushDown(Filter(c, [q]), cond) == Pushed(None, if r.rest.Some? then Filter(r.rest, [r.plan]) else r.plan)
  {
    PushOne(q, Combine(cond, c));
  }

  lemma EvalFilterOne(w: World, c: Option<Expr>, q: Plan)
    ensures Eval(w, Filter(c, [q])) == Select(Eval(w, q), Keeps(w, c))
  {
    EvalOne(w, q);
  }

  lemma FilterMeans(w: World, c: Option<Expr>, q: Plan, cond: Option<Expr>)
    requires Means(w, q, Combine(cond, c))
    ensures Means(w, Filter(c, [q]), cond)
  {
    var r := PushDown(q, Combine(cond, c));
    PushFilterOne(c, q, cond);
    EvalFilterOne(w, c, q);
    SelectCombine(w, Eval(w, q), cond, c);
    var plan := PushDown(Filter(c, [q]), cond).plan;
    assert Eval(w, plan) == Select(Eval(w, r.plan), Keeps(w, r.rest)) by {
      if r.rest.Some? {
        EvalFilterOne(w, r.rest, r.plan);
      } else {
        SelectNone(w, Eval(w, r.plan));
      }
    }
    SelectNone(w, Eval(w, plan));
  }

  lemma {:induction false} PushDownMeans(w: World, p: Plan, filtered: bool, cond: Option<Expr>)
    requires Built(p, filtered) && InScope(p, cond) && (filtered || cond == None)
    ensures Means(w, p, cond)
    decreases p
  {
    match p
    case DataSource(name) => SourceMeansOf(w, name, cond);
    case Window(wtype, isEventTime, c, children) =>
      assert children == [DataSource(children[0].name)];
      WindowMeans(w, wtype, isEventTime, c, children[0].name, cond);
    case Join(jt, left, right, on, children) =>
      assert children == [children[0]];
      if jt == Inner {
        InnerJoinMeans(w, left, right, on, children[0], cond);
      } else {
        OuterJoinMeans(w, jt, left, right, on, children[0]);
        SelectNone(w, Eval(w, p));
      }
      SelectNone(w, Eval(w, PushDown(p, cond).plan));
    case Filter(c, children) =>
      assert children == [children[0]];
      CombineInScope(children[0], cond, c);
      PushDownMeans(w, children[0], true, Combine(cond, c));
      FilterMeans(w, c, children[0], cond);
    case Unary(id, children) =>
      assert children == [children[0]];
      PushDownMeans(w, children[0], false, None);
      UnaryMeans(w, id, children[0]);
  }

  lemma EvalUnaryOne(w: World, id: nat, q: Plan)
    ensures Eval(w, Unary(id, [q])) == w.post(id, Eval(w, q))
  {
    EvalOne(w, q);
  }

  lemma PushUnaryOne(id: nat, q: Plan, cond: Option<Expr>)
    ensures var r := PushDown(q, cond); PushDown(Unary(id, [q]), cond) == Pushed(r.rest, Unary(id, [r.plan]))
  {
    PushOne(q, cond);
  }

  lemma UnaryMeans(w: World, id: nat, q: Plan)
    requires Means(w, q, None)
    ensures Means(w, Unary(id, [q]), None)
  {
    var r := PushDown(q, None);
    assert Eval(w, r.plan) == Eval(w, q) by {
      SelectNone(w, Eval(w, q));
      SelectNone(w, Eval(w, r.plan));
    }
    PushUnaryOne(id, q, None);
    EvalUnaryOne(w, id, q);
    EvalUnaryOne(w, id, r.plan);
  }

  /** Push-down preserves meaning: for every plan the planner builds (in the sense of Built), the optimized plan yields
      the same rows, in the same order, in every world, and the condition the optimizer forgets is empty. */
  lemma OptimizePreservesMeaning(w: World, p: Plan)
    requires Built(p, false)
    ensures PushDown(p, None).rest == None && Eval(w, PushDown(p, None).plan) == Eval(w, p)
  {
    NoneInScope(p);
    PushDownMeans(w, p, false, None);
    SelectNone(w, Eval(w, p));
    SelectNone(w, Eval(w, PushDown(p, None).plan));
  }
}
