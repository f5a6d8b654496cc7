/** Predicate push-down: internal/topo/planner/joinPlan.go, dataSourcePlan.go, windowPlan.go, filterPlan.go,
    logicalPlan.go, joinAlignPlan.go, util.go and rules.go, with plans and conditions as values. */
module Planner {
  import opened Wrappers
  import opened Joins

  /** The stream of an unqualified field reference. */
  const DEFAULT_STREAM := "$$default"

  /** A condition: boolean atoms, each with the streams its field references name, combined with AND. */
  datatype Expr = Atom(id: nat, refs: set<string>) | And(lhs: Expr, rhs: Expr)

  datatype WindowType = TumblingWindow | HoppingWindow | SlidingWindow | SessionWindow | CountWindow

  /** A logical plan. `Unary` stands for the aggregate, having, order and project plans, which inherit the default
      behaviour; a join carries the two streams it joins. */
  datatype Plan =
    | DataSource(name: string)
    | Filter(condition: Option<Expr>, children: seq<Plan>)
    | Window(wtype: WindowType, isEventTime: bool, condition: Option<Expr>, children: seq<Plan>)
    | JoinAlign(children: seq<Plan>)
    | Join(jt: JoinType, left: string, right: string, on: Option<Expr>, children: seq<Plan>)
    | Unary(id: nat, children: seq<Plan>)

  /** What is left of a condition, and the new plan. */
  datatype Pushed = Pushed(rest: Option<Expr>, plan: Plan)

  datatype PushedAll = PushedAll(rest: Option<Expr>, plans: seq<Plan>)

  /** A condition in two parts. */
  datatype Split = Split(first: Option<Expr>, second: Option<Expr>)

  // ----- util.go

  /** getRefSources: the streams named anywhere in a condition. */
  function Refs(e: Expr): (s: set<string>) {
    match e
    case Atom(_, refs) => refs
    case And(l, r) => Refs(l) + Refs(r)
  }

  function RefsOf(e: Option<Expr>): (s: set<string>) {
    if e.None? then {} else Refs(e.value)
  }

  function Combine(l: Option<Expr>, r: Option<Expr>): (e: Option<Expr>) {
    if l.Some? && r.Some? then Some(And(l.value, r.value)) else if l.Some? then l else r
  }

  // ----- joinPlan.go and dataSourcePlan.go: splitting a condition

  /** The unpushable and the pushable part. */
  function ExtractCondition(e: Expr): (r: Split) {
    var s := Refs(e);
    var l := |s| + if DEFAULT_STREAM in s then 1 else 0;
    if l == 0 || (l == 1 && DEFAULT_STREAM !in s) then Split(None, Some(e))
    else if e.And? then
      var a, b := ExtractCondition(e.lhs), ExtractCondition(e.rhs);
      Split(Combine(a.first, b.first), Combine(a.second, b.second))
    else Split(Some(e), None)
  }

  function ExtractConditionOf(e: Option<Expr>): (r: Split) {
    if e.None? then Split(None, None) else ExtractCondition(e.value)
  }

  /** The part a source takes, and the other part. */
  function Extract(name: string, e: Expr): (r: Split) {
    var s := Refs(e);
    if |s| == 0 then Split(Some(e), None)
    else if |s| == 1 then
      if name in s || DEFAULT_STREAM in s then Split(Some(e), None) else Split(None, Some(e))
    else if e.And? then
      var a, b := Extract(name, e.lhs), Extract(name, e.rhs);
      Split(Combine(a.first, b.first), Combine(a.second, b.second))
    else Split(None, Some(e))
  }

  function ExtractOf(name: string, e: Option<Expr>): (r: Split) {
    if e.None? then Split(None, None) else Extract(name, e.value)
  }

  // ----- the push-down of every plan

  /** DataSourcePlan: the part it takes becomes a filter on top of it. */
  function PushSource(name: string, condition: Option<Expr>): (r: Pushed) {
    var s := ExtractOf(name, condition);
    if s.first.Some? then Pushed(s.second, Filter(s.first, [DataSource(name)]))
    else Pushed(s.second, DataSource(name))
  }

  /** FilterPlan with its children's push done: keep what is left, or vanish. */
  function PushFilter(own: Option<Expr>, r: PushedAll): (p: Pushed) {
    if r.rest.Some? then Pushed(None, Filter(r.rest, r.plans))
    else if |r.plans| == 1 then Pushed(None, r.plans[0])
    else Pushed(None, Filter(own, r.plans))
  }

  /** A join align's second pass over a source: if the source became a filter in the first pass it is no longer a
      source, and the filter is pushed like any other. */
  function PushSourceAgain(name: string, now: Plan, condition: Option<Expr>): (r: Pushed) {
    if now.Filter? then
      var r := PushSource(name, Combine(condition, now.condition));
      PushFilter(now.condition, PushedAll(r.rest, [r.plan]))
    else Pushed(condition, now)
  }

  function PushDown(p: Plan, condition: Option<Expr>): (r: Pushed)
    decreases p, 1
  {
    match p
    case DataSource(name) => PushSource(name, condition)
    case Filter(c, children) =>
      var a := Combine(condition, c);
      if children == [] then Pushed(None, Filter(a, [])) else PushFilter(c, PushAll(children, a))
    case Window(wtype, isEventTime, c, children) =>
      if wtype == CountWindow || isEventTime then Pushed(condition, p)
      else
        var r := PushAll(children, Combine(condition, c));
        Pushed(None, Window(wtype, isEventTime, r.rest, r.plans))
    case JoinAlign(children) =>
      var sources := PushSources(children, condition);
      var r := PushOthers(children, sources.plans, sources.rest);
      Pushed(r.rest, JoinAlign(r.plans))
    case Join(jt, left, right, on, children) =>
      if jt == Inner then
        var s := ExtractConditionOf(Combine(condition, on));
        var r := PushAll(children, s.second);
        Pushed(None, Join(jt, left, right, Combine(s.first, r.rest), r.plans))
      else
        var s := ExtractConditionOf(condition);
        var r := PushAll(children, s.second);
        Pushed(Combine(s.first, r.rest), Join(jt, left, right, on, r.plans))
    case Unary(id, children) =>
      var r := PushAll(children, condition);
      Pushed(r.rest, Unary(id, r.plans))
  }

  /** baseLogicalPlan: threads what is left of the condition through the children. */
  function PushAll(children: seq<Plan>, condition: Option<Expr>): (r: PushedAll)
    ensures |r.plans| == |children|
    decreases children, 0
  {
    if children == [] then PushedAll(condition, [])
    else
      var first := PushDown(children[0], condition);
      var others := PushAll(children[1..], first.rest);
      PushedAll(others.rest, [first.plan] + others.plans)
  }

  /** JoinAlignPlan, first pass: the children that are sources. */
  function PushSources(children: seq<Plan>, condition: Option<Expr>): (r: PushedAll)
    ensures |r.plans| == |children|
  {
    if children == [] then PushedAll(condition, [])
    else
      var first := if children[0].DataSource? then PushSource(children[0].name, condition)
                   else Pushed(condition, children[0]);
      var others := PushSources(children[1..], first.rest);
      PushedAll(others.rest, [first.plan] + others.plans)
  }

  /** JoinAlignPlan, second pass: the children that are not sources (any more). */
  function PushOthers(children: seq<Plan>, now: seq<Plan>, condition: Option<Expr>): (r: PushedAll)
    requires |now| == |children|
    ensures |r.plans| == |children|
    decreases children, 0
  {
    if children == [] then PushedAll(condition, [])
    else
      var first := if children[0].DataSource? then PushSourceAgain(children[0].name, now[0], condition)
                   else PushDown(children[0], condition);
      var others := PushOthers(children[1..], now[1..], first.rest);
      PushedAll(others.rest, [first.plan] + others.plans)
  }

  // ----- the same with the loops of the source

  /** PushDownPredicate of every plan. */
  method PushDownPredicate(p: Plan, condition: Option<Expr>) returns (rest: Option<Expr>, plan: Plan)
    ensures Pushed(rest, plan) == PushDown(p, condition)
    decreases p, 1
  {
    match p
    case DataSource(name) =>
      var s := ExtractOf(name, condition);
      plan := p;
      if s.first.Some? {
        plan := Filter(s.first, [p]);
      }
      rest := s.second;
    case Filter(c, children) =>
      var a := Combine(condition, c);
      if |children| == 0 {
        return None, Filter(a, []);
      }
      var rest', plans := PushThrough(children, a);
      if rest'.Some? {
        return None, Filter(rest', plans);
      } else if |plans| == 1 {
        return None, plans[0];
      }
      return None, Filter(c, plans);
    case Window(wtype, isEventTime, c, children) =>
      if wtype == CountWindow {
        return condition, p;
      } else if isEventTime {
        return condition, p;
      }
      var rest', plans := PushThrough(children, Combine(condition, c));
      return None, Window(wtype, isEventTime, rest', plans);
    case JoinAlign(children) =>
      if |children| == 0 {
        return condition, p;
      }
      var rest', now := FirstPass(children, condition);
      var plans;
      rest, plans := SecondPass(children, now, rest');
      plan := JoinAlign(plans);
    case Join(jt, left, right, on, children) =>
      if jt == Inner {
        var s := ExtractConditionOf(Combine(condition, on));
        var rest', plans := PushThrough(children, s.second);
        return None, Join(jt, left, right, Combine(s.first, rest'), plans);
      }
      var s := ExtractConditionOf(condition);
      var rest', plans := PushThrough(children, s.second);
      return Combine(s.first, rest'), Join(jt, left, right, on, plans);
    case Unary(id, children) =>
      var plans;
      rest, plans := PushThrough(children, condition);
      plan := Unary(id, plans);
  }

  /** baseLogicalPlan.PushDownPredicate. */
  method PushThrough(children: seq<Plan>, condition: Option<Expr>) returns (rest: Option<Expr>, plans: seq<Plan>)
    ensures PushedAll(rest, plans) == PushAll(children, condition)
    decreases children, 0
  {
    rest, plans := condition, [];
    for i := 0 to |children|
      invariant |plans| == i
      invariant PushAll(children, condition)
             == var r := PushAll(children[i..], rest); PushedAll(r.rest, plans + r.plans)
    {
      assert children[i..][1..] == children[i + 1..];
      var plan;
      rest, plan := PushDownPredicate(children[i], rest);
      plans := plans + [plan];
    }
  }

  /** JoinAlignPlan.PushDownPredicate: the loop over the sources. */
  method FirstPass(children: seq<Plan>, condition: Option<Expr>) returns (rest: Option<Expr>, plans: seq<Plan>)
    ensures PushedAll(rest, plans) == PushSources(children, condition)
  {
    rest, plans := condition, [];
    for i := 0 to |children|
      invariant |plans| == i
      invariant PushSources(children, condition)
             == var r := PushSources(children[i..], rest); PushedAll(r.rest, plans + r.plans)
    {
      assert children[i..][1..] == children[i + 1..];
      var plan := children[i];
      if plan.DataSource? {
        var r := PushSource(plan.name, rest);
        rest, plan := r.rest, r.plan;
      }
      plans := plans + [plan];
    }
  }

  lemma OthersNext(children: seq<Plan>, now: seq<Plan>, i: nat, condition: Option<Expr>, done: seq<Plan>)
    requires |now| == |children| && i < |children|
    ensures var first := if children[i].DataSource? then PushSourceAgain(children[i].name, now[i], condition)
                         else PushDown(children[i], condition);
            var r, r' := PushOthers(children[i..], now[i..], condition),
                         PushOthers(children[i + 1..], now[i + 1..], first.rest);
            r.rest == r'.rest && done + r.plans == done + [first.plan] + r'.plans
  {
    assert children[i..][1..] == children[i + 1..] && now[i..][1..] == now[i + 1..];
  }

  /** JoinAlignPlan.PushDownPredicate: the loop over the other children. */
  method SecondPass(children: seq<Plan>, now: seq<Plan>, condition: Option<Expr>)
    returns (rest: Option<Expr>, plans: seq<Plan>)
    requires |now| == |children|
    ensures PushedAll(rest, plans) == PushOthers(children, now, condition)
    decreases children, 0
  {
    rest, plans := condition, [];
    for i := 0 to |children|
      invariant |plans| == i
      invariant PushOthers(children, now, condition)
             == var r := PushOthers(children[i..], now[i..], rest); PushedAll(r.rest, plans + r.plans)
    {
      OthersNext(children, now, i, rest, plans);
      var plan := now[i];
      if children[i].DataSource? {
        var r := PushSourceAgain(children[i].name, plan, rest);
        rest, plan := r.rest, r.plan;
      } else {
        rest, plan := PushDownPredicate(children[i], rest);
      }
      plans := plans + [plan];
    }
  }

  /** The optimizer rule: push nothing, and forget what is left, which is nothing. */
  method Optimize(p: Plan) returns (plan: Plan)
    ensures PushDown(p, None) == Pushed(None, plan)
  {
    var rest;
    rest, plan := PushDownPredicate(p, None);
    NothingLeft(p);
  }

  /** A filter on a source is pushed in the second pass as it would be anywhere else. */
  lemma PushAgainIsPushDown(name: string, own: Option<Expr>, condition: Option<Expr>)
    ensures PushSourceAgain(name, Filter(own, [DataSource(name)]), condition)
         == PushDown(Filter(own, [DataSource(name)]), condition)
  {
    var p := Filter(own, [DataSource(name)]);
    var r := PushSource(name, Combine(condition, own));
    assert PushAll(p.children[1..], r.rest) == PushedAll(r.rest, []);
    assert PushAll(p.children, Combine(condition, own)) == PushedAll(r.rest, [r.plan]);
  }

  // ----- what the optimizer forgets

  /** With nothing to push, nothing comes back: the condition the optimizer forgets is empty, for every plan. */
  lemma {:induction false} NothingLeft(p: Plan)
    ensures PushDown(p, None).rest == None
    decreases p, 1
  {
    match p
    case DataSource(_) =>
    case Filter(_, _) =>
    case Window(_, _, _, _) =>
    case JoinAlign(children) =>
      SourcesUntouched(children);
      NothingLeftOfOthers(children);
    case Join(_, _, _, _, children) => NothingLeftOfAll(children);
    case Unary(_, children) => NothingLeftOfAll(children);
  }

  lemma {:induction false} NothingLeftOfAll(children: seq<Plan>)
    ensures PushAll(children, None).rest == None
    decreases children, 0
  {
    if children != [] {
      NothingLeft(children[0]);
      NothingLeftOfAll(children[1..]);
    }
  }

  /** The first pass of a join align leaves its sources alone. */
  lemma {:induction false} SourcesUntouched(children: seq<Plan>)
    ensures PushSources(children, None) == PushedAll(None, children)
  {
    if children != [] {
      SourcesUntouched(children[1..]);
      assert children == [children[0]] + children[1..];
    }
  }

  lemma {:induction false} NothingLeftOfOthers(children: seq<Plan>)
    ensures PushOthers(children, children, None).rest == None
    decreases children, 0
  {
    if children != [] {
      if !children[0].DataSource? {
        NothingLeft(children[0]);
      }
      NothingLeftOfOthers(children[1..]);
    }
  }
}
