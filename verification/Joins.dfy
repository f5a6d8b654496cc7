/** The join evaluators of internal/topo/operator/join_operator.go against the relational definition of a joined table
    (SQL-92, ISO/IEC 9075:1992, section 7.5). A row is the list of tuples of a JoinTuple; a plain left tuple is the row
    that holds just it. */
module Joins {
  import opened Wrappers
  import opened Sequences
  import opened Collections

  type Row = seq<Tuple>

  datatype JoinType = Inner | Left | Right | Full | Cross

  /** The ON expression as a pure function of a left row and a right tuple; no expression is constantly true. */
  type On = (Row, Tuple) -> Verdict

  /** How the tuples of a matching pair are listed: left before right, or right before left for right joins. */
  datatype Form = LeftFirst | RightFirst

  function Merge(form: Form, l: Row, r: Tuple): (row: Row) {
    if form == LeftFirst then l + [r] else [r] + l
  }

  // ----- the relational definition

  /** The rows of one left row: one for every right tuple that matches. */
  function MatchesOf(form: Form, l: Row, rights: seq<Tuple>, on: On): (rows: seq<Row>) {
    if rights == [] then []
    else
      var n := |rights| - 1;
      var rest := MatchesOf(form, l, rights[..n], on);
      if on(l, rights[n]) == True then rest + [Merge(form, l, rights[n])] else rest
  }

  /** The rows of one right tuple. */
  function MatchedBy(form: Form, lefts: seq<Row>, r: Tuple, on: On): (rows: seq<Row>) {
    if lefts == [] then []
    else
      var n := |lefts| - 1;
      var rest := MatchedBy(form, lefts[..n], r, on);
      if on(lefts[n], r) == True then rest + [Merge(form, lefts[n], r)] else rest
  }

  /** Every matching pair once. */
  function Matched(form: Form, lefts: seq<Row>, rights: seq<Tuple>, on: On): (rows: seq<Row>) {
    if lefts == [] then []
    else Matched(form, lefts[..|lefts| - 1], rights, on) + MatchesOf(form, lefts[|lefts| - 1], rights, on)
  }

  function Singles(ts: seq<Tuple>): (rows: seq<Row>)
    ensures |rows| == |ts| && forall i :: 0 <= i < |ts| ==> rows[i] == [ts[i]]
  {
    seq(|ts|, i requires 0 <= i < |ts| => [ts[i]])
  }

  function WithoutRight(rights: seq<Tuple>, on: On): (p: Row -> bool) {
    l => MatchesOf(LeftFirst, l, rights, on) == []
  }

  function WithoutLeft(lefts: seq<Row>, on: On): (p: Tuple -> bool) {
    r => MatchedBy(LeftFirst, lefts, r, on) == []
  }

  /** The left rows without a match. */
  function LeftOver(lefts: seq<Row>, rights: seq<Tuple>, on: On): (rows: seq<Row>) {
    Select(lefts, WithoutRight(rights, on))
  }

  /** The right tuples without a match. */
  function RightOver(lefts: seq<Row>, rights: seq<Tuple>, on: On): (ts: seq<Tuple>) {
    Select(rights, WithoutLeft(lefts, on))
  }

  function Always(): (on: On) {
    (_, _) => True
  }

  function Product(lefts: seq<Row>, rights: seq<Tuple>): (rows: seq<Row>) {
    Matched(LeftFirst, lefts, rights, Always())
  }

  /** The joined table as a bag of rows. */
  function Joined(jt: JoinType, lefts: seq<Row>, rights: seq<Tuple>, on: On): (rows: multiset<Row>) {
    match jt
    case Inner => multiset(Matched(LeftFirst, lefts, rights, on))
    case Left => multiset(Matched(LeftFirst, lefts, rights, on)) + multiset(LeftOver(lefts, rights, on))
    case Right => multiset(Matched(RightFirst, lefts, rights, on)) + multiset(Singles(RightOver(lefts, rights, on)))
    case Full =>
      multiset(Matched(LeftFirst, lefts, rights, on)) + multiset(LeftOver(lefts, rights, on))
      + multiset(Singles(RightOver(lefts, rights, on)))
    case Cross => multiset(Product(lefts, rights))
  }

  /** Some pair on which the ON expression is not boolean. */
  ghost predicate Faulty(lefts: seq<Row>, rights: seq<Tuple>, on: On) {
    exists i, j :: 0 <= i < |lefts| && 0 <= j < |rights| && on(lefts[i], rights[j]) == Invalid
  }

  // ----- the same rows by right tuple

  function RightMajor(form: Form, lefts: seq<Row>, rights: seq<Tuple>, on: On): (rows: seq<Row>) {
    if rights == [] then []
    else RightMajor(form, lefts, rights[..|rights| - 1], on) + MatchedBy(form, lefts, rights[|rights| - 1], on)
  }

  lemma {:induction false} MatchedNoRights(form: Form, lefts: seq<Row>, on: On)
    ensures Matched(form, lefts, [], on) == []
  {
    if lefts != [] {
      MatchedNoRights(form, lefts[..|lefts| - 1], on);
    }
  }

  lemma {:induction false} MatchedAddRight(form: Form, lefts: seq<Row>, rights: seq<Tuple>, r: Tuple, on: On)
    ensures multiset(Matched(form, lefts, rights + [r], on))
         == multiset(Matched(form, lefts, rights, on)) + multiset(MatchedBy(form, lefts, r, on))
  {
    if lefts != [] {
      var n := |lefts| - 1;
      MatchedAddRight(form, lefts[..n], rights, r, on);
      assert (rights + [r])[..|rights|] == rights;
    }
  }

  /** Going through the right tuples first visits the same pairs. */
  lemma {:induction false} Transposed(form: Form, lefts: seq<Row>, rights: seq<Tuple>, on: On)
    ensures multiset(RightMajor(form, lefts, rights, on)) == multiset(Matched(form, lefts, rights, on))
  {
    if rights == [] {
      MatchedNoRights(form, lefts, on);
    } else {
      var n := |rights| - 1;
      Transposed(form, lefts, rights[..n], on);
      MatchedAddRight(form, lefts, rights[..n], rights[n], on);
      assert rights == rights[..n] + [rights[n]];
    }
  }

  // ----- what the passes compute

  /** A chained inner join puts the left tuples only before the first match. */
  function ChainedMatchesOf(l: Row, rights: seq<Tuple>, on: On): (rows: seq<Row>) {
    if rights == [] then []
    else
      var n := |rights| - 1;
      var rest := ChainedMatchesOf(l, rights[..n], on);
      if on(l, rights[n]) != True then rest
      else if rest == [] then [l + [rights[n]]] else rest + [[rights[n]]]
  }

  /** What the left pass appends for one left row. */
  function LeftRows(jt: JoinType, chained: bool, l: Row, rights: seq<Tuple>, on: On): (rows: seq<Row>) {
    if jt == Inner && chained then ChainedMatchesOf(l, rights, on)
    else
      var rows := MatchesOf(LeftFirst, l, rights, on);
      if rows == [] && jt != Inner then [l] else rows
  }

  function LeftPassRows(jt: JoinType, chained: bool, lefts: seq<Row>, rights: seq<Tuple>, on: On): (rows: seq<Row>) {
    if lefts == [] then []
    else
      LeftPassRows(jt, chained, lefts[..|lefts| - 1], rights, on)
      + LeftRows(jt, chained, lefts[|lefts| - 1], rights, on)
  }

  /** What the right pass appends: every match unless excluded, and the right tuples without one. */
  function RightPassRows(lefts: seq<Row>, rights: seq<Tuple>, on: On, excludeJoint: bool): (rows: seq<Row>) {
    if rights == [] then []
    else
      var r := rights[|rights| - 1];
      var m := MatchedBy(RightFirst, lefts, r, on);
      RightPassRows(lefts, rights[..|rights| - 1], on, excludeJoint)
      + (if m == [] then [[r]] else if excludeJoint then [] else m)
  }

  lemma {:induction false} FormIsIrrelevant(lefts: seq<Row>, r: Tuple, on: On)
    ensures MatchedBy(RightFirst, lefts, r, on) == [] <==> MatchedBy(LeftFirst, lefts, r, on) == []
  {
    if lefts != [] {
      FormIsIrrelevant(lefts[..|lefts| - 1], r, on);
    }
  }

  /** The left pass of LEFT and FULL yields the matching pairs and the left rows without a match. */
  lemma {:induction false} LeftPassIsOuter(jt: JoinType, chained: bool, lefts: seq<Row>, rights: seq<Tuple>, on: On)
    requires jt == Left || jt == Full
    ensures multiset(LeftPassRows(jt, chained, lefts, rights, on))
         == multiset(Matched(LeftFirst, lefts, rights, on)) + multiset(LeftOver(lefts, rights, on))
  {
    if lefts != [] {
      var n := |lefts| - 1;
      LeftPassIsOuter(jt, chained, lefts[..n], rights, on);
      LeftRowsAreOuter(jt, chained, lefts[n], rights, on);
      BagConcat(LeftPassRows(jt, chained, lefts[..n], rights, on), LeftRows(jt, chained, lefts[n], rights, on));
      BagConcat(Matched(LeftFirst, lefts[..n], rights, on), MatchesOf(LeftFirst, lefts[n], rights, on));
      LeftOverNext(lefts, rights, on);
    }
  }

  lemma {:induction false} LeftOverNext(lefts: seq<Row>, rights: seq<Tuple>, on: On)
    requires lefts != []
    ensures var n := |lefts| - 1;
            multiset(LeftOver(lefts, rights, on))
              == multiset(LeftOver(lefts[..n], rights, on)) + multiset(LeftOverOne(lefts[n], rights, on))
  {
  }

  /** The row itself if nothing matches it. */
  function LeftOverOne(l: Row, rights: seq<Tuple>, on: On): (rows: seq<Row>) {
    if MatchesOf(LeftFirst, l, rights, on) == [] then [l] else []
  }

  /** One left row. */
  lemma {:induction false} LeftRowsAreOuter(jt: JoinType, chained: bool, l: Row, rights: seq<Tuple>, on: On)
    requires jt == Left || jt == Full
    ensures multiset(LeftRows(jt, chained, l, rights, on))
         == multiset(MatchesOf(LeftFirst, l, rights, on)) + multiset(LeftOverOne(l, rights, on))
  {
  }

  lemma {:induction false} LeftPassIsInner(lefts: seq<Row>, rights: seq<Tuple>, on: On)
    ensures LeftPassRows(Inner, false, lefts, rights, on) == Matched(LeftFirst, lefts, rights, on)
  {
    if lefts != [] {
      LeftPassIsInner(lefts[..|lefts| - 1], rights, on);
    }
  }

  lemma SinglesAppend(ts: seq<Tuple>, t: Tuple)
    ensures Singles(ts + [t]) == Singles(ts) + [[t]]
  {}

  lemma {:induction false} RightPassIsOuter(lefts: seq<Row>, rights: seq<Tuple>, on: On)
    ensures multiset(RightPassRows(lefts, rights, on, false))
         == multiset(RightMajor(RightFirst, lefts, rights, on)) + multiset(Singles(RightOver(lefts, rights, on)))
  {
    if rights != [] {
      var n := |rights| - 1;
      RightPassIsOuter(lefts, rights[..n], on);
      FormIsIrrelevant(lefts, rights[n], on);
      SinglesAppend(RightOver(lefts, rights[..n], on), rights[n]);
    }
  }

  lemma {:induction false} RightPassIsLeftOver(lefts: seq<Row>, rights: seq<Tuple>, on: On)
    ensures RightPassRows(lefts, rights, on, true) == Singles(RightOver(lefts, rights, on))
  {
    if rights != [] {
      var n := |rights| - 1;
      RightPassIsLeftOver(lefts, rights[..n], on);
      FormIsIrrelevant(lefts, rights[n], on);
      SinglesAppend(RightOver(lefts, rights[..n], on), rights[n]);
    }
  }

  // ----- the loops

  lemma MatchesNext(form: Form, l: Row, rights: seq<Tuple>, j: nat, on: On)
    requires j < |rights|
    ensures MatchesOf(form, l, rights[..j + 1], on)
         == MatchesOf(form, l, rights[..j], on) + if on(l, rights[j]) == True then [Merge(form, l, rights[j])] else []
    ensures ChainedMatchesOf(l, rights[..j + 1], on)
         == if on(l, rights[j]) != True then ChainedMatchesOf(l, rights[..j], on)
            else if ChainedMatchesOf(l, rights[..j], on) == [] then [l + [rights[j]]]
            else ChainedMatchesOf(l, rights[..j], on) + [[rights[j]]]
  {
    assert rights[..j + 1][..j] == rights[..j];
  }

  lemma MatchedByNext(form: Form, lefts: seq<Row>, r: Tuple, i: nat, on: On)
    requires i < |lefts|
    ensures MatchedBy(form, lefts[..i + 1], r, on)
         == MatchedBy(form, lefts[..i], r, on) + if on(lefts[i], r) == True then [Merge(form, lefts[i], r)] else []
  {
    assert lefts[..i + 1][..i] == lefts[..i];
  }

  lemma {:induction false} ChainedIffMatched(l: Row, rights: seq<Tuple>, on: On)
    ensures |ChainedMatchesOf(l, rights, on)| == |MatchesOf(LeftFirst, l, rights, on)|
  {
    if rights != [] {
      ChainedIffMatched(l, rights[..|rights| - 1], on);
    }
  }

  /** One iteration of the outer loop of evalSet and, with `chained`, of evalJoinSets. A cross join comes here with an
      ON that always holds. */
  method JoinLeft(jt: JoinType, chained: bool, left: Row, rights: seq<Tuple>, on: On)
    returns (r: Result<seq<Row>>)
    requires jt != Right
    ensures r.Err? <==> exists j :: 0 <= j < |rights| && on(left, rights[j]) == Invalid
    ensures r.Ok? ==> r.value == LeftRows(jt, chained, left, rights, on)
  {
    var rows: seq<Row> := [];
    var leftJoined, innerAppend := false, false;
    var outer := jt == Left || jt == Full || jt == Cross;
    for j := 0 to |rights|
      invariant forall k :: 0 <= k < j ==> on(left, rights[k]) != Invalid
      invariant innerAppend == (jt == Inner && MatchesOf(LeftFirst, left, rights[..j], on) != [])
      invariant var m := if jt == Inner && chained then ChainedMatchesOf(left, rights[..j], on)
                         else MatchesOf(LeftFirst, left, rights[..j], on);
                if outer && left != [] && m == [] && 0 < j == |rights| then rows == [left] && leftJoined
                else rows == m && leftJoined == (m != [])
    {
      MatchesNext(LeftFirst, left, rights, j, on);
      ChainedIffMatched(left, rights[..j], on);
      ghost var before := rows;
      assert before == if jt == Inner && chained then ChainedMatchesOf(left, rights[..j], on)
                       else MatchesOf(LeftFirst, left, rights[..j], on);
      var tupleJoined := false;
      var merged: Row := if outer then left else [];
      var result := on(left, rights[j]);
      if result == Invalid {
        return Err;
      }
      if result == True {
        leftJoined, tupleJoined := true, true;
        if jt == Inner && !(chained && innerAppend) {
          merged := left;
          innerAppend := true;
        }
        merged := merged + [rights[j]];
      }
      if tupleJoined || (!leftJoined && j == |rights| - 1 && |merged| > 0) {
        leftJoined := true;
        rows := rows + [merged];
        assert tupleJoined && jt == Inner && chained && before != [] ==> merged == [rights[j]];
        assert tupleJoined && !(jt == Inner && chained && before != []) ==> merged == left + [rights[j]];
      }
    }
    assert rights[..|rights|] == rights;
    // if no messages in the right
    if !leftJoined && jt != Inner {
      rows := rows + [left];
    }
    r := Ok(rows);
  }

  lemma PassNext(jt: JoinType, chained: bool, lefts: seq<Row>, rights: seq<Tuple>, on: On, i: nat)
    requires i < |lefts|
    ensures LeftPassRows(jt, chained, lefts[..i + 1], rights, on)
         == LeftPassRows(jt, chained, lefts[..i], rights, on) + LeftRows(jt, chained, lefts[i], rights, on)
  {
    assert lefts[..i + 1][..i] == lefts[..i];
  }

  /** The outer loop over the left rows. */
  method LeftPass(jt: JoinType, chained: bool, lefts: seq<Row>, rights: seq<Tuple>, on: On)
    returns (r: Result<seq<Row>>)
    requires jt != Right
    ensures r.Err? <==> Faulty(lefts, rights, on)
    ensures r.Ok? ==> r.value == LeftPassRows(jt, chained, lefts, rights, on)
  {
    var rows: seq<Row> := [];
    for i := 0 to |lefts|
      invariant forall i', j :: 0 <= i' < i && 0 <= j < |rights| ==> on(lefts[i'], rights[j]) != Invalid
      invariant rows == LeftPassRows(jt, chained, lefts[..i], rights, on)
    {
      var one := JoinLeft(jt, chained, lefts[i], rights, on);
      if one.Err? {
        return Err;
      }
      PassNext(jt, chained, lefts, rights, on, i);
      rows := rows + one.value;
    }
    assert lefts[..|lefts|] == lefts;
    r := Ok(rows);
  }

  /** One iteration of the outer loop of evalSetWithRightJoin and evalRightJoinSets. */
  method JoinRight(lefts: seq<Row>, right: Tuple, on: On, excludeJoint: bool) returns (r: Result<seq<Row>>)
    ensures r.Err? <==> exists i :: 0 <= i < |lefts| && on(lefts[i], right) == Invalid
    ensures r.Ok? ==> var m := MatchedBy(RightFirst, lefts, right, on);
                      r.value == if m == [] then [[right]] else if excludeJoint then [] else m
  {
    var rows: seq<Row> := [];
    var isJoint := false;
    for i := 0 to |lefts|
      invariant forall k :: 0 <= k < i ==> on(lefts[k], right) != Invalid
      invariant var m := MatchedBy(RightFirst, lefts[..i], right, on);
                if !excludeJoint && m == [] && 0 < i == |lefts| then rows == [[right]] && isJoint
                else rows == (if excludeJoint then [] else m) && isJoint == (m != [])
    {
      MatchedByNext(RightFirst, lefts, right, i, on);
      var tupleJoined := false;
      var merged: Row := [right];
      var result := on(lefts[i], right);
      if result == Invalid {
        return Err;
      }
      if result == True {
        merged := merged + lefts[i];
        isJoint, tupleJoined := true, true;
      }
      if !excludeJoint && (tupleJoined || (!isJoint && i == |lefts| - 1 && |merged| > 0)) {
        isJoint := true;
        rows := rows + [merged];
      }
    }
    assert lefts[..|lefts|] == lefts;
    if !isJoint {
      rows := rows + [[right]];
    }
    r := Ok(rows);
  }

  lemma RightPassNext(lefts: seq<Row>, rights: seq<Tuple>, on: On, excludeJoint: bool, j: nat)
    requires j < |rights|
    ensures var m := MatchedBy(RightFirst, lefts, rights[j], on);
            RightPassRows(lefts, rights[..j + 1], on, excludeJoint) ==
              RightPassRows(lefts, rights[..j], on, excludeJoint)
              + if m == [] then [[rights[j]]] else if excludeJoint then [] else m
  {
    assert rights[..j + 1][..j] == rights[..j];
  }

  /** evalSetWithRightJoin and evalRightJoinSets. */
  method RightPass(lefts: seq<Row>, rights: seq<Tuple>, on: On, excludeJoint: bool) returns (r: Result<seq<Row>>)
    ensures r.Err? <==> Faulty(lefts, rights, on)
    ensures r.Ok? ==> r.value == RightPassRows(lefts, rights, on, excludeJoint)
  {
    var rows: seq<Row> := [];
    for j := 0 to |rights|
      invariant forall i, j' :: 0 <= i < |lefts| && 0 <= j' < j ==> on(lefts[i], rights[j']) != Invalid
      invariant rows == RightPassRows(lefts, rights[..j], on, excludeJoint)
    {
      var one := JoinRight(lefts, rights[j], on, excludeJoint);
      if one.Err? {
        return Err;
      }
      RightPassNext(lefts, rights, on, excludeJoint, j);
      rows := rows + one.value;
    }
    assert rights[..|rights|] == rights;
    r := Ok(rows);
  }

  // ----- cross joins

  /** A cross join with an empty right side lists the bare left rows instead of nothing. */
  lemma {:induction false} CrossPass(chained: bool, lefts: seq<Row>, rights: seq<Tuple>)
    ensures LeftPassRows(Cross, chained, lefts, rights, Always())
         == if rights == [] then lefts else Product(lefts, rights)
  {
    if lefts != [] {
      var n := |lefts| - 1;
      CrossPass(chained, lefts[..n], rights);
      assert rights != [] ==> MatchesOf(LeftFirst, lefts[n], rights, Always()) != [];
      assert lefts == lefts[..n] + [lefts[n]];
    }
  }

  // ----- chained inner joins

  /** The number of tuples in all rows together. */
  function Weight(rows: seq<Row>): (n: nat) {
    if rows == [] then 0 else Weight(rows[..|rows| - 1]) + |rows[|rows| - 1]|
  }

  lemma {:induction false} WeightConcat(a: seq<Row>, b: seq<Row>)
    ensures Weight(a + b) == Weight(a) + Weight(b)
  {
    if b == [] {
      assert a + b == a;
    } else {
      var n := |b| - 1;
      WeightConcat(a, b[..n]);
      assert (a + b)[..|a + b| - 1] == a + b[..n];
    }
  }

  lemma WeightOne(row: Row)
    ensures Weight([row]) == |row|
  {
    assert [row][..0] == [];
  }

  /** Taking one row out. */
  lemma TakeOut(b: seq<Row>, i: nat) returns (rest: seq<Row>)
    requires i < |b|
    ensures multiset(rest) + multiset{b[i]} == multiset(b) && |rest| == |b| - 1
    ensures Weight(rest) + |b[i]| == Weight(b)
  {
    var b1, b2 := b[..i], b[i + 1..];
    rest := b1 + b2;
    assert b == b1 + ([b[i]] + b2);
    WeightConcat(b1, b2);
    WeightConcat([b[i]], b2);
    WeightConcat(b1, [b[i]] + b2);
    WeightOne(b[i]);
  }

  /** Equal bags of rows weigh the same. */
  lemma {:induction false} WeightOfBag(a: seq<Row>, b: seq<Row>)
    requires multiset(a) == multiset(b)
    ensures Weight(a) == Weight(b)
    decreases |a|
  {
    if a == [] {
      assert |multiset(b)| == 0;
    } else {
      var x := a[|a| - 1];
      var a' := TakeOut(a, |a| - 1);
      assert x in multiset(b);
      var i :| 0 <= i < |b| && b[i] == x;
      var b' := TakeOut(b, i);
      assert multiset(a') == multiset(a) - multiset{x};
      assert multiset(b') == multiset(b) - multiset{x};
      WeightOfBag(a', b');
    }
  }

  /** Every match of a left row after the first loses the left tuples. */
  lemma {:induction false} ChainedWeight(l: Row, rights: seq<Tuple>, on: On)
    ensures var m, c := MatchesOf(LeftFirst, l, rights, on), ChainedMatchesOf(l, rights, on);
            && |m| == |c|
            && (|m| <= 1 ==> m == c)
            && Weight(c) <= Weight(m)
            && (|m| >= 2 && l != [] ==> Weight(c) < Weight(m))
  {
    if rights != [] {
      var n := |rights| - 1;
      ChainedWeight(l, rights[..n], on);
      var m, c := MatchesOf(LeftFirst, l, rights[..n], on), ChainedMatchesOf(l, rights[..n], on);
      WeightConcat(m, [l + [rights[n]]]);
      WeightConcat(c, [[rights[n]]]);
      WeightOne(l + [rights[n]]);
      WeightOne([rights[n]]);
      assert [] + [l + [rights[n]]] == [l + [rights[n]]];
    }
  }

  /** No left row with tuples has two matches. */
  ghost predicate AtMostOneMatch(lefts: seq<Row>, rights: seq<Tuple>, on: On) {
    forall l :: l in lefts && l != [] ==> |MatchesOf(LeftFirst, l, rights, on)| <= 1
  }

  lemma {:induction false} ChainedPassWeight(lefts: seq<Row>, rights: seq<Tuple>, on: On)
    ensures var c, m := LeftPassRows(Inner, true, lefts, rights, on), Matched(LeftFirst, lefts, rights, on);
            Weight(c) <= Weight(m) && (!AtMostOneMatch(lefts, rights, on) ==> Weight(c) < Weight(m))
  {
    if lefts != [] {
      var n := |lefts| - 1;
      ChainedPassWeight(lefts[..n], rights, on);
      ChainedWeight(lefts[n], rights, on);
      WeightConcat(LeftPassRows(Inner, true, lefts[..n], rights, on), ChainedMatchesOf(lefts[n], rights, on));
      WeightConcat(Matched(LeftFirst, lefts[..n], rights, on), MatchesOf(LeftFirst, lefts[n], rights, on));
      assert forall l :: l in lefts <==> l in lefts[..n] || l == lefts[n];
    }
  }

  /** A left row without tuples has none to lose. */
  lemma {:induction false} ChainedEmptyLeft(rights: seq<Tuple>, on: On)
    ensures ChainedMatchesOf([], rights, on) == MatchesOf(LeftFirst, [], rights, on)
  {
    if rights != [] {
      var n := |rights| - 1;
      ChainedEmptyLeft(rights[..n], on);
      assert [] + [rights[n]] == [rights[n]];
    }
  }

  lemma {:induction false} ChainedPassSame(lefts: seq<Row>, rights: seq<Tuple>, on: On)
    requires AtMostOneMatch(lefts, rights, on)
    ensures LeftPassRows(Inner, true, lefts, rights, on) == Matched(LeftFirst, lefts, rights, on)
  {
    if lefts != [] {
      var n := |lefts| - 1;
      assert lefts[n] in lefts;
      ChainedPassSame(lefts[..n], rights, on);
      ChainedWeight(lefts[n], rights, on);
      ChainedEmptyLeft(rights, on);
    }
  }

  /** A chained inner join is the joined table if and only if no left row has two matches. */
  lemma ChainedInnerExactly(lefts: seq<Row>, rights: seq<Tuple>, on: On)
    ensures multiset(LeftPassRows(Inner, true, lefts, rights, on)) == Joined(Inner, lefts, rights, on)
       <==> AtMostOneMatch(lefts, rights, on)
  {
    if AtMostOneMatch(lefts, rights, on) {
      ChainedPassSame(lefts, rights, on);
    } else {
      ChainedPassWeight(lefts, rights, on);
      if multiset(LeftPassRows(Inner, true, lefts, rights, on)) == Joined(Inner, lefts, rights, on) {
        WeightOfBag(LeftPassRows(Inner, true, lefts, rights, on), Matched(LeftFirst, lefts, rights, on));
      }
    }
  }

  /** Cross joins are the product if and only if the right side has tuples or the left side has none. */
  lemma CrossExactly(lefts: seq<Row>, rights: seq<Tuple>)
    ensures multiset(LeftPassRows(Cross, false, lefts, rights, Always())) == Joined(Cross, lefts, rights, Always())
       <==> rights != [] || lefts == []
  {
    CrossPass(false, lefts, rights);
    if rights == [] {
      MatchedNoRights(LeftFirst, lefts, Always());
      EmptyBag(lefts);
    }
  }

  lemma EmptyBag(rows: seq<Row>)
    ensures multiset(rows) == multiset{} <==> rows == []
  {
    if rows != [] {
      assert rows[0] in multiset(rows);
    }
  }

  /** One left row with two matches: a chained inner join lists the second match without the left tuples. */
  lemma ChainedSecondMatchIsBare(l: Row, r: Tuple)
    requires l != []
    ensures LeftPassRows(Inner, true, [l], [r, r], Always()) == [l + [r], [r]]
    ensures multiset(LeftPassRows(Inner, true, [l], [r, r], Always())) != Joined(Inner, [l], [r, r], Always())
  {
    assert [l][..0] == [] && [r, r][..1] == [r] && [r][..0] == [];
    assert ChainedMatchesOf(l, [r], Always()) == [l + [r]];
    assert ChainedMatchesOf(l, [r, r], Always()) == [l + [r]] + [[r]];
    assert LeftPassRows(Inner, true, [l], [r, r], Always()) == [] + [l + [r], [r]];
    assert MatchesOf(LeftFirst, l, [r], Always()) == [l + [r]];
    assert Matched(LeftFirst, [l], [r, r], Always()) == [] + ([l + [r]] + [l + [r]]);
    assert [l + [r], [r]][1] in multiset([l + [r], [r]]);
    assert [r] !in Joined(Inner, [l], [r, r], Always());
  }

  /** One left row and nothing on the right: a cross join yields the row. */
  lemma CrossWithNothingIsBare(l: Row)
    ensures LeftPassRows(Cross, false, [l], [], Always()) == [l]
    ensures Joined(Cross, [l], [], Always()) == multiset{}
  {
    CrossPass(false, [l], []);
    MatchedNoRights(LeftFirst, [l], Always());
  }

  // ----- the evaluators

  /** The rows evalSet yields. */
  function EvalJoin(jt: JoinType, lefts: seq<Row>, rights: seq<Tuple>, on: On): (rows: seq<Row>) {
    match jt
    case Inner => Matched(LeftFirst, lefts, rights, on)
    case Left => LeftPassRows(Left, false, lefts, rights, on)
    case Right => RightPassRows(lefts, rights, on, false)
    case Full => LeftPassRows(Full, false, lefts, rights, on) + RightPassRows(lefts, rights, on, true)
    case Cross => LeftPassRows(Cross, false, lefts, rights, Always())
  }

  /** evalSet: the first join, over the tuples of two streams. */
  method EvalSet(jt: JoinType, lefts: seq<Tuple>, rights: seq<Tuple>, on: On) returns (r: Result<seq<Row>>)
    ensures jt != Cross ==> (r.Err? <==> Faulty(Singles(lefts), rights, on))
    ensures jt != Cross && r.Ok? ==> multiset(r.value) == Joined(jt, Singles(lefts), rights, on)
    ensures jt == Cross ==> r.Ok? && r.value == if rights == [] then Singles(lefts) else Product(Singles(lefts), rights)
    ensures r.Ok? ==> r.value == EvalJoin(jt, Singles(lefts), rights, on)
  {
    var rows := Singles(lefts);
    if jt == Right {
      r := RightPass(rows, rights, on, false);
      RightPassIsOuter(rows, rights, on);
      Transposed(RightFirst, rows, rights, on);
      return;
    }
    r := LeftPass(jt, false, rows, rights, if jt == Cross then Always() else on);
    match jt
    case Inner => LeftPassIsInner(rows, rights, on);
    case Cross => CrossPass(false, rows, rights);
    case Left => LeftPassIsOuter(jt, false, rows, rights, on);
    case Full =>
      LeftPassIsOuter(jt, false, rows, rights, on);
      if r.Ok? {
        var right := RightPass(rows, rights, on, true);
        RightPassIsLeftOver(rows, rights, on);
        r := if right.Ok? then Ok(r.value + right.value) else Err;
      }
  }

  /** evalJoinSets: a further join, over joined rows. For INNER see ChainedInnerExactly. */
  method EvalJoinSets(jt: JoinType, lefts: seq<Row>, rights: seq<Tuple>, on: On) returns (r: Result<seq<Row>>)
    ensures jt != Cross ==> (r.Err? <==> Faulty(lefts, rights, on))
    ensures r.Ok? && jt in {Left, Right, Full} ==> multiset(r.value) == Joined(jt, lefts, rights, on)
    ensures r.Ok? && jt == Inner ==>
              (multiset(r.value) == Joined(Inner, lefts, rights, on) <==> AtMostOneMatch(lefts, rights, on))
    ensures jt == Cross ==> r.Ok? && r.value == if rights == [] then lefts else Product(lefts, rights)
  {
    if jt == Right {
      r := RightPass(lefts, rights, on, false);
      RightPassIsOuter(lefts, rights, on);
      Transposed(RightFirst, lefts, rights, on);
      return;
    }
    r := LeftPass(jt, true, lefts, rights, if jt == Cross then Always() else on);
    match jt
    case Inner => ChainedInnerExactly(lefts, rights, on);
    case Cross => CrossPass(true, lefts, rights);
    case Left => LeftPassIsOuter(jt, true, lefts, rights, on);
    case Full =>
      LeftPassIsOuter(jt, true, lefts, rights, on);
      if r.Ok? {
        var right := RightPass(lefts, rights, on, true);
        RightPassIsLeftOver(lefts, rights, on);
        if right.Ok? && |right.value| > 0 {
          r := Ok(r.value + right.value);
        }
      }
  }
}
