/** Predicate push-down through LEFT, RIGHT, FULL and CROSS joins (internal/topo/planner/joinPlan.go): the condition
    above the join goes to the sources on both sides, also to a side the join would fill up. This module says exactly
    when that keeps the rows. */
module OuterJoins {
  import opened Wrappers
  import opened Sequences
  import opened Collections
  import opened Joins
  import opened Planner
  import opened PushDownMeaning
  import opened PushDownLimits

  // ----- conditions as sets of atoms

  function Atoms(e: Expr): (s: set<Expr>) {
    match e
    case Atom(_, _) => {e}
    case And(l, r) => Atoms(l) + Atoms(r)
  }

  function AtomsOf(e: Option<Expr>): (s: set<Expr>) {
    if e.None? then {} else Atoms(e.value)
  }

  lemma {:induction false} AtomsHold(w: World, e: Expr, row: Row)
    ensures Holds(w, e, row) <==> forall x :: x in Atoms(e) ==> Holds(w, x, row)
  {
    if e.And? {
      AtomsHold(w, e.lhs, row);
      AtomsHold(w, e.rhs, row);
    }
  }

  lemma {:induction false} AtomsName(e: Expr, x: Expr)
    requires x in Atoms(e)
    ensures x.Atom? && x.refs <= Refs(e)
  {
    if e.And? {
      AtomsName(if x in Atoms(e.lhs) then e.lhs else e.rhs, x);
    }
  }

  /** An atom without a stream sees nothing of the row. */
  lemma ConstantAtom(w: World, x: Expr, row: Row, row': Row)
    requires x.Atom? && x.refs == {}
    ensures Holds(w, x, row) == Holds(w, x, row')
  {
    SelectEmpty(row, Named({}));
    SelectEmpty(row', Named({}));
  }

  /** What one side takes implies what the other takes, if the latter consists of constants that both take. */
  lemma SharedConstants(w: World, a: string, b: string, oa: Option<Expr>, ob: Option<Expr>, row: Row, row': Row)
    requires a != b && RefsOf(oa) <= {a} && RefsOf(ob) <= {b} && AtomsOf(ob) <= AtomsOf(oa)
    ensures HoldsOf(w, ob, row) == HoldsOf(w, ob, row')
    ensures HoldsOf(w, oa, row) ==> HoldsOf(w, ob, row')
  {
    if ob.Some? && oa.Some? {
      AtomsHold(w, oa.value, row);
      AtomsHold(w, ob.value, row);
      AtomsHold(w, ob.value, row');
      forall x | x in Atoms(ob.value) ensures Holds(w, x, row) == Holds(w, x, row') {
        AtomsName(ob.value, x);
        AtomsName(oa.value, x);
        assert x.refs == {};
        ConstantAtom(w, x, row, row');
      }
    } else if ob.Some? {
      var _ := SomeAtom(ob.value);
    }
  }

  lemma {:induction false} SomeAtom(e: Expr) returns (x: Expr)
    ensures x in Atoms(e)
  {
    x := e;
    if e.And? {
      x := SomeAtom(e.lhs);
    }
  }

  // ----- the exact condition

  /** What the two sources below the join take. */
  function Shares(f: Plan, left: string, right: string, c: Option<Expr>): (r: (Option<Expr>, Option<Expr>)) {
    if IsFeed(f, left, right) then Takes(f, left, right, c)
    else
      var r := Takes(f, right, left, c);
      (r.1, r.0)
  }

  /** A side that the join fills up takes nothing but constants that the other side takes as well. */
  predicate SafeShares(jt: JoinType, ol: Option<Expr>, or: Option<Expr>) {
    match jt
    case Inner => true
    case Left | Cross => AtomsOf(or) <= AtomsOf(ol)
    case Right => AtomsOf(ol) <= AtomsOf(or)
    case Full => AtomsOf(ol) == AtomsOf(or)
  }

  /** A filter on a join. */
  function Filtered(jt: JoinType, left: string, right: string, on: Option<Expr>, f: Plan, cond: Option<Expr>): (p: Plan)
  {
    Filter(cond, [Join(jt, left, right, on, [f])])
  }

  // ----- rows of the two passes

  /** The condition on a row of `l` is the one on `l` and the rest. */
  ghost predicate FactorsLeft(l: Tuple, rt: seq<Tuple>, k: Tuple -> bool, c: Row -> bool, c': Row -> bool) {
    c([l]) == (k(l) && c'([l])) && forall r :: r in rt ==> c([l] + [r]) == (k(l) && c'([l] + [r]))
  }

  lemma {:induction false} MatchesFactor(
    l: Tuple, rt: seq<Tuple>, on: On, k: Tuple -> bool, c: Row -> bool, c': Row -> bool)
    requires FactorsLeft(l, rt, k, c, c')
    ensures var rows := MatchesOf(LeftFirst, [l], rt, on);
            Select(rows, c) == if k(l) then Select(rows, c') else []
  {
    if rt != [] {
      var n := |rt| - 1;
      assert rt[n] in rt;
      MatchesFactor(l, rt[..n], on, k, c, c');
      SelectAppend(MatchesOf(LeftFirst, [l], rt[..n], on), [l] + [rt[n]], c);
      SelectAppend(MatchesOf(LeftFirst, [l], rt[..n], on), [l] + [rt[n]], c');
    }
  }

  lemma SelectOne(row: Row, c: Row -> bool)
    ensures Select([row], c) == if c(row) then [row] else []
  {
    assert [row][..0] == [];
  }

  lemma LeftRowsFactor(
    jt: JoinType, l: Tuple, rt: seq<Tuple>, on: On, k: Tuple -> bool, c: Row -> bool, c': Row -> bool)
    requires jt != Inner && FactorsLeft(l, rt, k, c, c')
    ensures var rows := LeftRows(jt, false, [l], rt, on);
            Select(rows, c) == if k(l) then Select(rows, c') else []
  {
    MatchesFactor(l, rt, on, k, c, c');
    SelectOne([l], c);
    SelectOne([l], c');
  }

  lemma LeftPassNext(jt: JoinType, lt: seq<Tuple>, l: Tuple, rt: seq<Tuple>, on: On)
    ensures LeftPassRows(jt, false, Singles(lt + [l]), rt, on)
         == LeftPassRows(jt, false, Singles(lt), rt, on) + LeftRows(jt, false, [l], rt, on)
  {
    SinglesAppend(lt, l);
    assert (Singles(lt) + [[l]])[..|lt|] == Singles(lt);
  }

  /** Filtering the left tuples before a left pass is filtering its rows. */
  lemma {:induction false} LeftPassFactors(
    jt: JoinType, lt: seq<Tuple>, rt: seq<Tuple>, on: On, k: Tuple -> bool, c: Row -> bool, c': Row -> bool)
    requires jt != Inner && forall l :: l in lt ==> FactorsLeft(l, rt, k, c, c')
    ensures Select(LeftPassRows(jt, false, Singles(lt), rt, on), c)
         == Select(LeftPassRows(jt, false, Singles(Select(lt, k)), rt, on), c')
  {
    if lt != [] {
      var before, l := lt[..|lt| - 1], lt[|lt| - 1];
      assert lt == before + [l] && l in lt;
      var rows, kept := LeftRows(jt, false, [l], rt, on), Select(before, k);
      LeftPassFactors(jt, before, rt, on, k, c, c');
      LeftRowsFactor(jt, l, rt, on, k, c, c');
      LeftPassNext(jt, before, l, rt, on);
      SelectConcat(LeftPassRows(jt, false, Singles(before), rt, on), rows, c);
      SelectAppend(before, l, k);
      LeftPassNext(jt, kept, l, rt, on);
      SelectConcat(LeftPassRows(jt, false, Singles(kept), rt, on), rows, c');
    }
  }

  ghost predicate FactorsRight(lt: seq<Tuple>, r: Tuple, k: Tuple -> bool, c: Row -> bool, c': Row -> bool) {
    c([r]) == (k(r) && c'([r])) && forall l :: l in lt ==> c([r] + [l]) == (k(r) && c'([r] + [l]))
  }

  lemma MatchedByNextSingle(lt: seq<Tuple>, l: Tuple, r: Tuple, on: On)
    ensures var rows := MatchedBy(RightFirst, Singles(lt), r, on);
            MatchedBy(RightFirst, Singles(lt + [l]), r, on) == if on([l], r) == True then rows + [[r] + [l]] else rows
  {
    SinglesAppend(lt, l);
    assert (Singles(lt) + [[l]])[..|lt|] == Singles(lt);
  }

  lemma {:induction false} MatchedByFactor(
    lt: seq<Tuple>, r: Tuple, on: On, k: Tuple -> bool, c: Row -> bool, c': Row -> bool)
    requires FactorsRight(lt, r, k, c, c')
    ensures var rows := MatchedBy(RightFirst, Singles(lt), r, on);
            Select(rows, c) == if k(r) then Select(rows, c') else []
  {
    if lt != [] {
      var before, l := lt[..|lt| - 1], lt[|lt| - 1];
      assert lt == before + [l] && l in lt;
      MatchedByFactor(before, r, on, k, c, c');
      MatchedByNextSingle(before, l, r, on);
      SelectAppend(MatchedBy(RightFirst, Singles(before), r, on), [r] + [l], c);
      SelectAppend(MatchedBy(RightFirst, Singles(before), r, on), [r] + [l], c');
    }
  }

  /** The rows of one right tuple. */
  function RightRows(lt: seq<Tuple>, r: Tuple, on: On): (rows: seq<Row>) {
    var m := MatchedBy(RightFirst, Singles(lt), r, on);
    if m == [] then [[r]] else m
  }

  lemma RightPassMore(lt: seq<Tuple>, rt: seq<Tuple>, r: Tuple, on: On)
    ensures RightPassRows(Singles(lt), rt + [r], on, false)
         == RightPassRows(Singles(lt), rt, on, false) + RightRows(lt, r, on)
  {
    assert (rt + [r])[..|rt|] == rt;
  }

  /** Filtering the right tuples before a right pass is filtering its rows. */
  lemma {:induction false} RightPassFactors(
    lt: seq<Tuple>, rt: seq<Tuple>, on: On, k: Tuple -> bool, c: Row -> bool, c': Row -> bool)
    requires forall r :: r in rt ==> FactorsRight(lt, r, k, c, c')
    ensures Select(RightPassRows(Singles(lt), rt, on, false), c)
         == Select(RightPassRows(Singles(lt), Select(rt, k), on, false), c')
  {
    if rt != [] {
      var before, r := rt[..|rt| - 1], rt[|rt| - 1];
      assert rt == before + [r] && r in rt;
      var rows, kept := RightRows(lt, r, on), Select(before, k);
      RightPassFactors(lt, before, on, k, c, c');
      MatchedByFactor(lt, r, on, k, c, c');
      SelectOne([r], c);
      SelectOne([r], c');
      RightPassMore(lt, before, r, on);
      SelectConcat(RightPassRows(Singles(lt), before, on, false), rows, c);
      SelectAppend(before, r, k);
      RightPassMore(lt, kept, r, on);
      SelectConcat(RightPassRows(Singles(lt), kept, on, false), rows, c');
    }
  }

  // ----- safe shares keep the rows

  /** Is the condition the rest together with what the two sources take? */
  ghost predicate SplitInto(w: World, cond: Option<Expr>, rest: Option<Expr>, ol: Option<Expr>, or: Option<Expr>) {
    forall row :: HoldsOf(w, cond, row) == (HoldsOf(w, rest, row) && HoldsOf(w, ol, row) && HoldsOf(w, or, row))
  }

  lemma KeptNothing(w: World, name: string, own: Option<Expr>)
    requires forall row :: !HoldsOf(w, own, row)
    ensures Kept(w, name, own) == []
  {
    SelectEmpty(SourceTuples(w, name), KeepsTuple(w, own));
  }

  lemma KeptSame(w: World, name: string, own: Option<Expr>)
    requires forall row :: HoldsOf(w, own, row)
    ensures Kept(w, name, own) == Kept(w, name, None)
  {
    KeptAll(w, name);
    SelectAll(SourceTuples(w, name), KeepsTuple(w, own));
  }

  /** The rows after and before the push: the sources filtered, or the result. */
  function RowsAfter(
    w: World, jt: JoinType, left: string, right: string, on: Option<Expr>, rest: Option<Expr>,
    ol: Option<Expr>, or: Option<Expr>): (rows: seq<Row>)
  {
    Select(EvalJoin(jt, Singles(Kept(w, left, ol)), Kept(w, right, or), OnOf(w, on)), Keeps(w, rest))
  }

  lemma {:induction false} LeftShareKeeps(
    w: World, jt: JoinType, left: string, right: string, on: Option<Expr>, cond: Option<Expr>, rest: Option<Expr>,
    ol: Option<Expr>, or: Option<Expr>)
    requires (jt == Left || jt == Cross) && left != right && left != DEFAULT_STREAM && RefsOf(ol) <= {left}
    requires SplitInto(w, cond, rest, ol, or) && forall row :: HoldsOf(w, or, row)
    ensures RowsAfter(w, jt, left, right, on, rest, ol, or) == RowsAfter(w, jt, left, right, on, cond, None, None)
  {
    var on' := if jt == Cross then Always() else OnOf(w, on);
    var rt := Kept(w, right, None);
    KeptSame(w, right, or);
    assert RowsAfter(w, jt, left, right, on, rest, ol, or)
        == Select(LeftPassRows(jt, false, Singles(Kept(w, left, ol)), rt, on'), Keeps(w, rest));
    assert RowsAfter(w, jt, left, right, on, cond, None, None)
        == Select(LeftPassRows(jt, false, Singles(Kept(w, left, None)), rt, on'), Keeps(w, cond));
    LeftPassShare(w, jt, left, right, on', cond, rest, ol, or);
  }

  lemma {:induction false} LeftPassShare(
    w: World, jt: JoinType, left: string, right: string, on: On, cond: Option<Expr>, rest: Option<Expr>,
    ol: Option<Expr>, or: Option<Expr>)
    requires jt != Inner && left != right && left != DEFAULT_STREAM && RefsOf(ol) <= {left}
    requires SplitInto(w, cond, rest, ol, or) && forall row :: HoldsOf(w, or, row)
    ensures var rt := Kept(w, right, None);
            Select(LeftPassRows(jt, false, Singles(Kept(w, left, ol)), rt, on), Keeps(w, rest))
              == Select(LeftPassRows(jt, false, Singles(Kept(w, left, None)), rt, on), Keeps(w, cond))
  {
    var lt, rt := Kept(w, left, None), Kept(w, right, None);
    KeptAll(w, left);
    KeptFrom(w, left, None);
    KeptFrom(w, right, None);
    forall l | l in lt ensures FactorsLeft(l, rt, KeepsTuple(w, ol), Keeps(w, cond), Keeps(w, rest)) {
      ShareFactorsLeft(w, cond, rest, ol, or, l, rt);
    }
    LeftPassFactors(jt, lt, rt, on, KeepsTuple(w, ol), Keeps(w, cond), Keeps(w, rest));
  }

  lemma {:induction false} ShareFactorsLeft(
    w: World, cond: Option<Expr>, rest: Option<Expr>, ol: Option<Expr>, or: Option<Expr>, l: Tuple, rt: seq<Tuple>)
    requires l.emitter != DEFAULT_STREAM && RefsOf(ol) <= {l.emitter}
    requires forall r :: r in rt ==> r.emitter != l.emitter
    requires SplitInto(w, cond, rest, ol, or) && forall row :: HoldsOf(w, or, row)
    ensures FactorsLeft(l, rt, KeepsTuple(w, ol), Keeps(w, cond), Keeps(w, rest))
  {
    forall r | r in rt
      ensures Keeps(w, cond)([l] + [r]) == (KeepsTuple(w, ol)(l) && Keeps(w, rest)([l] + [r]))
    {
      HoldsOnSideOf(w, ol, l, r);
    }
  }

  lemma {:induction false} RightShareKeeps(
    w: World, left: string, right: string, on: Option<Expr>, cond: Option<Expr>, rest: Option<Expr>,
    ol: Option<Expr>, or: Option<Expr>)
    requires left != right && right != DEFAULT_STREAM && RefsOf(or) <= {right}
    requires SplitInto(w, cond, rest, ol, or) && forall row :: HoldsOf(w, ol, row)
    ensures RowsAfter(w, Right, left, right, on, rest, ol, or) == RowsAfter(w, Right, left, right, on, cond, None, None)
  {
    var lt, rt := Kept(w, left, None), Kept(w, right, None);
    var k, c, c' := KeepsTuple(w, or), Keeps(w, cond), Keeps(w, rest);
    KeptSame(w, left, ol);
    KeptAll(w, right);
    KeptFrom(w, left, None);
    KeptFrom(w, right, None);
    forall r | r in rt ensures FactorsRight(lt, r, k, c, c') {
      ShareFactorsRight(w, cond, rest, ol, or, lt, r);
    }
    RightPassFactors(lt, rt, OnOf(w, on), k, c, c');
  }

  lemma {:induction false} ShareFactorsRight(
    w: World, cond: Option<Expr>, rest: Option<Expr>, ol: Option<Expr>, or: Option<Expr>, lt: seq<Tuple>, r: Tuple)
    requires r.emitter != DEFAULT_STREAM && RefsOf(or) <= {r.emitter}
    requires forall l :: l in lt ==> l.emitter != r.emitter
    requires SplitInto(w, cond, rest, ol, or) && forall row :: HoldsOf(w, ol, row)
    ensures FactorsRight(lt, r, KeepsTuple(w, or), Keeps(w, cond), Keeps(w, rest))
  {
    forall l | l in lt
      ensures Keeps(w, cond)([r] + [l]) == (KeepsTuple(w, or)(r) && Keeps(w, rest)([r] + [l]))
    {
      HoldsOnSideOf(w, or, r, l);
    }
  }

  lemma BothSharesKeep(
    w: World, jt: JoinType, left: string, right: string, on: Option<Expr>, cond: Option<Expr>, rest: Option<Expr>,
    ol: Option<Expr>, or: Option<Expr>)
    requires SplitInto(w, cond, rest, ol, or)
    requires (forall row :: HoldsOf(w, ol, row)) && forall row :: HoldsOf(w, or, row)
    ensures RowsAfter(w, jt, left, right, on, rest, ol, or) == RowsAfter(w, jt, left, right, on, cond, None, None)
  {
    KeptSame(w, left, ol);
    KeptSame(w, right, or);
    var rows := EvalJoin(jt, Singles(Kept(w, left, None)), Kept(w, right, None), OnOf(w, on));
    SelectAgree(rows, Keeps(w, rest), Keeps(w, cond));
  }

  /** A share that is false everywhere, and with it the other one: nothing comes out either way. */
  lemma NothingEitherWay(
    w: World, jt: JoinType, left: string, right: string, on: Option<Expr>, cond: Option<Expr>, rest: Option<Expr>,
    ol: Option<Expr>, or: Option<Expr>)
    requires SplitInto(w, cond, rest, ol, or) && jt != Inner
    requires (jt != Right ==> forall row :: !HoldsOf(w, ol, row))
    requires (jt == Right || jt == Full ==> forall row :: !HoldsOf(w, or, row))
    ensures RowsAfter(w, jt, left, right, on, rest, ol, or) == RowsAfter(w, jt, left, right, on, cond, None, None)
  {
    if jt != Right {
      KeptNothing(w, left, ol);
    }
    if jt == Right || jt == Full {
      KeptNothing(w, right, or);
    }
    assert Singles([]) == [];
    assert EvalJoin(jt, Singles(Kept(w, left, ol)), Kept(w, right, or), OnOf(w, on)) == [];
    var rows := EvalJoin(jt, Singles(Kept(w, left, None)), Kept(w, right, None), OnOf(w, on));
    forall row | row in rows ensures !Keeps(w, cond)(row) {
      assert HoldsOf(w, cond, row) == (HoldsOf(w, rest, row) && HoldsOf(w, ol, row) && HoldsOf(w, or, row));
    }
    SelectEmpty(rows, Keeps(w, cond));
  }

  lemma SafeSharesKeep(
    w: World, jt: JoinType, left: string, right: string, on: Option<Expr>, cond: Option<Expr>, rest: Option<Expr>,
    ol: Option<Expr>, or: Option<Expr>)
    requires left != right && RefsOf(ol) <= {left} && RefsOf(or) <= {right} && jt != Inner
    requires left != DEFAULT_STREAM && right != DEFAULT_STREAM
    requires SplitInto(w, cond, rest, ol, or) && SafeShares(jt, ol, or)
    ensures RowsAfter(w, jt, left, right, on, rest, ol, or) == RowsAfter(w, jt, left, right, on, cond, None, None)
  {
    if jt != Right {
      forall row, row'
        ensures HoldsOf(w, or, row) == HoldsOf(w, or, row') && (HoldsOf(w, ol, row) ==> HoldsOf(w, or, row'))
      {
        SharedConstants(w, left, right, ol, or, row, row');
      }
    }
    if jt == Right || jt == Full {
      forall row, row'
        ensures HoldsOf(w, ol, row) == HoldsOf(w, ol, row') && (HoldsOf(w, or, row) ==> HoldsOf(w, ol, row'))
      {
        SharedConstants(w, right, left, or, ol, row, row');
      }
    }
    var given := if jt == Right then ol else or;
    if !HoldsOf(w, given, []) {
      NothingEitherWay(w, jt, left, right, on, cond, rest, ol, or);
    } else if jt == Full {
      BothSharesKeep(w, jt, left, right, on, cond, rest, ol, or);
    } else if jt == Right {
      RightShareKeeps(w, left, right, on, cond, rest, ol, or);
    } else {
      LeftShareKeeps(w, jt, left, right, on, cond, rest, ol, or);
    }
  }

  // ----- other shares change them

  /** One tuple on each stream, and every atom true but one. */
  function AllBut(x: Expr): (w: World) {
    Telling().(holds := (id: nat, refs: set<string>, row: Row) => Atom(id, refs) != x)
  }

  lemma {:induction false} HoldsAllBut(x: Expr, e: Expr, row: Row)
    ensures Holds(AllBut(x), e, row) <==> x !in Atoms(e)
  {
    if e.And? {
      HoldsAllBut(x, e.lhs, row);
      HoldsAllBut(x, e.rhs, row);
    }
  }

  lemma HoldsAllButOf(x: Expr, e: Option<Expr>)
    ensures forall row :: HoldsOf(AllBut(x), e, row) <==> x !in AtomsOf(e)
  {
    forall row ensures HoldsOf(AllBut(x), e, row) <==> x !in AtomsOf(e) {
      if e.Some? {
        HoldsAllBut(x, e.value, row);
      }
    }
  }

  lemma KeptAllBut(x: Expr, name: string, own: Option<Expr>)
    ensures Kept(AllBut(x), name, own) == if x in AtomsOf(own) then [] else [Tuple(name, 1, 0)]
  {
    HoldsAllButOf(x, own);
    SelectAll([Tuple(name, 1, 0)], From(name));
    KeptOne(AllBut(x), Tuple(name, 1, 0), own);
  }

  lemma KeptOne(w: World, t: Tuple, own: Option<Expr>)
    requires SourceTuples(w, t.emitter) == [t]
    ensures Kept(w, t.emitter, own) == if HoldsOf(w, own, [t]) then [t] else []
  {
    assert [t][..0] == [];
  }

  /** A join with one empty side that it fills up yields the bare tuple. */
  lemma BareTuple(jt: JoinType, t: Tuple, on: On)
    ensures jt in {Left, Cross, Full} ==> EvalJoin(jt, Singles([t]), [], on) == [[t]]
    ensures jt in {Right, Full} ==> EvalJoin(jt, Singles([]), [t], on) == [[t]]
  {
    assert Singles([t]) == [[t]] && [[t]][..0] == [] && Singles([]) == [] && [t][..0] == [];
    var on' := if jt == Cross then Always() else on;
    assert MatchesOf(LeftFirst, [t], [], on') == [] && MatchedBy(RightFirst, [], t, on) == [];
    assert LeftPassRows(jt, false, [], [], on') == [] && LeftPassRows(jt, false, [], [t], on') == [];
    assert RightPassRows([], [], on, false) == [] && RightPassRows([], [], on, true) == [];
    assert RightPassRows([[t]], [], on, true) == [];
    assert jt in {Left, Cross, Full} ==> LeftPassRows(jt, false, [[t]], [], on') == [] + [[t]];
  }

  /** An atom that only the side to be filled up takes: with it false, the bare tuple of the other side stays. */
  lemma LoneAtomChanges(
    x: Expr, jt: JoinType, left: string, right: string, on: Option<Expr>, cond: Option<Expr>, rest: Option<Expr>,
    ol: Option<Expr>, or: Option<Expr>)
    requires SplitInto(AllBut(x), cond, rest, ol, or) && x !in AtomsOf(rest)
    requires || (jt in {Left, Cross, Full} && x in AtomsOf(or) - AtomsOf(ol))
             || (jt in {Right, Full} && x in AtomsOf(ol) - AtomsOf(or))
    ensures RowsAfter(AllBut(x), jt, left, right, on, rest, ol, or)
         != RowsAfter(AllBut(x), jt, left, right, on, cond, None, None)
  {
    var w := AllBut(x);
    HoldsAllButOf(x, ol);
    HoldsAllButOf(x, or);
    HoldsAllButOf(x, rest);
    KeptAllBut(x, left, ol);
    KeptAllBut(x, right, or);
    var t := if x in AtomsOf(or) then Tuple(left, 1, 0) else Tuple(right, 1, 0);
    BareTuple(jt, t, OnOf(w, on));
    SelectAll([[t]], Keeps(w, rest));
    assert RowsAfter(w, jt, left, right, on, rest, ol, or) == [[t]];
    var rows := EvalJoin(jt, Singles(Kept(w, left, None)), Kept(w, right, None), OnOf(w, on));
    forall row | row in rows ensures !Keeps(w, cond)(row) {
      assert HoldsOf(w, cond, row) == (HoldsOf(w, rest, row) && HoldsOf(w, ol, row) && HoldsOf(w, or, row));
    }
    SelectEmpty(rows, Keeps(w, cond));
  }

  // ----- the plans

  lemma EvalFiltered(w: World, c: Option<Expr>, q: Plan)
    ensures Eval(w, if c.Some? then Filter(c, [q]) else q) == Select(Eval(w, q), Keeps(w, c))
  {
    if c.Some? {
      EvalFilterOne(w, c, q);
    } else {
      SelectNone(w, Eval(w, q));
    }
  }

  /** What the push makes of a filter on a join that is not an inner one. */
  lemma PushFiltered(jt: JoinType, left: string, right: string, on: Option<Expr>, f: Plan, cond: Option<Expr>)
    requires jt != Inner
    ensures var s := ExtractConditionOf(cond);
            var r := PushDown(f, s.second);
            var rest, j := Combine(s.first, r.rest), Join(jt, left, right, on, [r.plan]);
            PushDown(Filtered(jt, left, right, on, f, cond), None).plan
              == if rest.Some? then Filter(rest, [j]) else j
  {
    PushJoinOne(jt, left, right, on, f, cond);
    PushFilterOne(cond, Join(jt, left, right, on, [f]), None);
    assert Combine(None, cond) == cond;
  }

  /** The rows of the plan before and after the push. */
  lemma OpenRows(w: World, jt: JoinType, left: string, right: string, on: Option<Expr>, f: Plan, cond: Option<Expr>)
    requires jt != Inner && Built(Join(jt, left, right, on, [f]), false) && !Blocks(f) && RefsOf(cond) <= {left, right}
    ensures var s := ExtractConditionOf(cond);
            var (ol, or) := Shares(f, left, right, s.second);
            var p := Filtered(jt, left, right, on, f, cond);
            && RefsOf(ol) <= {left} && RefsOf(or) <= {right} && SplitInto(w, cond, s.first, ol, or)
            && Eval(w, p) == RowsAfter(w, jt, left, right, on, cond, None, None)
            && Eval(w, PushDown(p, None).plan) == RowsAfter(w, jt, left, right, on, s.first, ol, or)
  {
    var s := ExtractConditionOf(cond);
    assert Combine(cond, None) == cond;
    SplitForJoin(w, cond, None, {left, right});
    var a, b := if IsFeed(f, left, right) then left else right, if IsFeed(f, left, right) then right else left;
    var oa, ob := PushFeed(w, f, a, b, s.second);
    var r := PushDown(f, s.second);
    PushFiltered(jt, left, right, on, f, cond);
    assert Combine(s.first, None) == s.first;
    FeedMeans(w, f, a, b);
    TwoSources(w, a, b, None, None, Eval(w, f));
    TwoSources(w, a, b, oa, ob, Eval(w, r.plan));
    EvalJoinOne(w, jt, left, right, on, f);
    EvalJoinOne(w, jt, left, right, on, r.plan);
    EvalFilterOne(w, cond, Join(jt, left, right, on, [f]));
    EvalFiltered(w, s.first, Join(jt, left, right, on, [r.plan]));
  }

  /** Below a window that takes no filter nothing is pushed. */
  lemma BlockedRows(w: World, jt: JoinType, left: string, right: string, on: Option<Expr>, f: Plan, cond: Option<Expr>)
    requires jt != Inner && Blocks(f) && RefsOf(cond) <= {left, right}
    ensures var p := Filtered(jt, left, right, on, f, cond); Eval(w, PushDown(p, None).plan) == Eval(w, p)
  {
    var s, j := ExtractConditionOf(cond), Join(jt, left, right, on, [f]);
    var rest := Combine(s.first, s.second);
    assert Combine(cond, None) == cond;
    SplitForJoin(w, cond, None, {left, right});
    PushFiltered(jt, left, right, on, f, cond);
    EvalFiltered(w, rest, j);
    EvalFilterOne(w, cond, j);
    forall row | row in Eval(w, j) ensures Keeps(w, rest)(row) == Keeps(w, cond)(row) {
      CombineHolds(w, s.first, s.second, row);
    }
    SelectAgree(Eval(w, j), Keeps(w, rest), Keeps(w, cond));
  }

  /** What stays above the join has no atom of a single stream or none. */
  lemma {:induction false} RestNamesBoth(e: Expr, x: Expr)
    requires x in AtomsOf(ExtractCondition(e).first)
    ensures x.Atom? && (|x.refs| > 1 || DEFAULT_STREAM in x.refs)
  {
    ExtractConditionApart(e);
    if Apart(e) {
      var a, b := ExtractCondition(e.lhs).first, ExtractCondition(e.rhs).first;
      assert x in AtomsOf(a) || x in AtomsOf(b);
      RestNamesBoth(if x in AtomsOf(a) then e.lhs else e.rhs, x);
    }
  }

  lemma ShareNotInRest(cond: Option<Expr>, name: string, own: Option<Expr>, x: Expr)
    requires name != DEFAULT_STREAM && RefsOf(own) <= {name} && x in AtomsOf(own)
    ensures x !in AtomsOf(ExtractConditionOf(cond).first)
  {
    AtomsName(own.value, x);
    assert x.refs == {} || x.refs == {name};
    if x in AtomsOf(ExtractConditionOf(cond).first) {
      RestNamesBoth(cond.value, x);
      assert false;
    }
  }

  lemma AllButIsSane(x: Expr)
    ensures Sane(AllBut(x))
  {}

  /** A filter on a LEFT, RIGHT, FULL or CROSS join over two sources keeps its rows under push-down, in every world, if
      and only if the window below takes no filter, or a side that the join fills up takes nothing of the condition
      but constants that the other side takes as well. */
  lemma OuterJoinPreservedExactly(
    jt: JoinType, left: string, right: string, on: Option<Expr>, f: Plan, cond: Option<Expr>)
    requires jt != Inner && Built(Join(jt, left, right, on, [f]), false) && RefsOf(cond) <= {left, right}
    ensures var (ol, or) := Shares(f, left, right, ExtractConditionOf(cond).second);
            Preserved(Filtered(jt, left, right, on, f, cond)) <==> Blocks(f) || SafeShares(jt, ol, or)
  {
    var p, s := Filtered(jt, left, right, on, f, cond), ExtractConditionOf(cond);
    var (ol, or) := Shares(f, left, right, s.second);
    if Blocks(f) {
      forall w | Sane(w) ensures Eval(w, PushDown(p, None).plan) == Eval(w, p) {
        BlockedRows(w, jt, left, right, on, f, cond);
      }
    } else if SafeShares(jt, ol, or) {
      forall w | Sane(w) ensures Eval(w, PushDown(p, None).plan) == Eval(w, p) {
        OpenRows(w, jt, left, right, on, f, cond);
        SafeSharesKeep(w, jt, left, right, on, cond, s.first, ol, or);
      }
    } else {
      var x := LoneAtom(jt, ol, or);
      OpenRows(AllBut(x), jt, left, right, on, f, cond);
      if x in AtomsOf(ol) {
        ShareNotInRest(cond, left, ol, x);
      } else {
        ShareNotInRest(cond, right, or, x);
      }
      LoneAtomChanges(x, jt, left, right, on, cond, s.first, ol, or);
      AllButIsSane(x);
    }
  }

  lemma LoneAtom(jt: JoinType, ol: Option<Expr>, or: Option<Expr>) returns (x: Expr)
    requires !SafeShares(jt, ol, or)
    ensures || (jt in {Left, Cross, Full} && x in AtomsOf(or) - AtomsOf(ol))
            || (jt in {Right, Full} && x in AtomsOf(ol) - AtomsOf(or))
  {
    if jt != Right && !(AtomsOf(or) <= AtomsOf(ol)) {
      x :| x in AtomsOf(or) && x !in AtomsOf(ol);
    } else {
      x :| x in AtomsOf(ol) && x !in AtomsOf(or);
    }
  }

  lemma CommonAtom(a: string, b: string, oa: Expr, ob: Expr, x: Expr)
    requires a != b && Refs(oa) <= {a} && Refs(ob) <= {b} && x in Atoms(oa) && x in Atoms(ob)
    ensures Refs(x) == {}
  {
    AtomsName(oa, x);
    AtomsName(ob, x);
  }

  /** Where every atom names a stream, the condition is that a side to be filled up takes nothing. */
  lemma NamedShares(jt: JoinType, left: string, right: string, ol: Option<Expr>, or: Option<Expr>)
    requires left != right && RefsOf(ol) <= {left} && RefsOf(or) <= {right}
    requires forall x :: x in AtomsOf(ol) + AtomsOf(or) ==> Refs(x) != {}
    ensures SafeShares(jt, ol, or) <==>
              (jt in {Left, Cross, Full} ==> or == None) && (jt in {Right, Full} ==> ol == None)
  {
    forall x | x in AtomsOf(ol) ensures x !in AtomsOf(or) {
      if x in AtomsOf(or) {
        CommonAtom(left, right, ol.value, or.value, x);
      }
    }
    if ol.Some? {
      var _ := SomeAtom(ol.value);
    }
    if or.Some? {
      var _ := SomeAtom(or.value);
    }
  }
}
