/** The joined table row by row: how often a row occurs in it (SQL-92, ISO/IEC 9075:1992, section 7.5). */
module JoinMeaning {
  import opened Wrappers
  import opened Sequences
  import opened Collections
  import opened Joins

  /** The right tuples that match a left row and give this row with it. */
  ghost function Hits(form: Form, l: Row, rights: seq<Tuple>, on: On, row: Row): (s: set<int>) {
    set j | 0 <= j < |rights| && on(l, rights[j]) == True && Merge(form, l, rights[j]) == row
  }

  /** The matching pairs that give this row. */
  ghost function Pairs(form: Form, lefts: seq<Row>, rights: seq<Tuple>, on: On, row: Row): (s: set<(int, int)>) {
    set i, j | 0 <= i < |lefts| && 0 <= j < |rights| && on(lefts[i], rights[j]) == True
               && Merge(form, lefts[i], rights[j]) == row :: (i, j)
  }

  lemma {:induction false} MatchesCount(form: Form, l: Row, rights: seq<Tuple>, on: On, row: Row)
    ensures multiset(MatchesOf(form, l, rights, on))[row] == |Hits(form, l, rights, on, row)|
  {
    if rights == [] {
      assert Hits(form, l, rights, on, row) == {};
    } else {
      var n := |rights| - 1;
      MatchesCount(form, l, rights[..n], on, row);
      HitsNext(form, l, rights, on, row);
      var rest := MatchesOf(form, l, rights[..n], on);
      assert multiset(rest + [Merge(form, l, rights[n])]) == multiset(rest) + multiset{Merge(form, l, rights[n])};
    }
  }

  lemma {:induction false} HitsNext(form: Form, l: Row, rights: seq<Tuple>, on: On, row: Row)
    requires rights != []
    ensures var n := |rights| - 1;
            var hit := on(l, rights[n]) == True && Merge(form, l, rights[n]) == row;
            |Hits(form, l, rights, on, row)| == |Hits(form, l, rights[..n], on, row)| + if hit then 1 else 0
  {
    var n := |rights| - 1;
    var before, after := Hits(form, l, rights[..n], on, row), Hits(form, l, rights, on, row);
    forall j | 0 <= j < n ensures j in after <==> j in before {
      assert rights[..n][j] == rights[j];
    }
    assert after == before + if n in after then {n} else {};
  }

  lemma {:induction false} TaggedSize(i: int, s: set<int>)
    ensures |set j | j in s :: (i, j)| == |s|
    decreases s
  {
    if s == {} {
      assert (set j | j in s :: (i, j)) == {};
    } else {
      NonEmpty(s);
      var x :| x in s;
      TaggedSize(i, s - {x});
      assert (set j | j in s :: (i, j)) == (set j | j in s - {x} :: (i, j)) + {(i, x)};
    }
  }

  /** Every matching pair gives its row once. */
  lemma {:induction false} MatchedCount(form: Form, lefts: seq<Row>, rights: seq<Tuple>, on: On, row: Row)
    ensures multiset(Matched(form, lefts, rights, on))[row] == |Pairs(form, lefts, rights, on, row)|
  {
    if lefts == [] {
      assert Pairs(form, lefts, rights, on, row) == {};
    } else {
      var n := |lefts| - 1;
      MatchedCount(form, lefts[..n], rights, on, row);
      MatchesCount(form, lefts[n], rights, on, row);
      PairsNext(form, lefts, rights, on, row);
    }
  }

  lemma {:induction false} PairsNext(form: Form, lefts: seq<Row>, rights: seq<Tuple>, on: On, row: Row)
    requires lefts != []
    ensures var n := |lefts| - 1;
            |Pairs(form, lefts, rights, on, row)|
              == |Pairs(form, lefts[..n], rights, on, row)| + |Hits(form, lefts[n], rights, on, row)|
  {
    var n := |lefts| - 1;
    var before, hits := Pairs(form, lefts[..n], rights, on, row), Hits(form, lefts[n], rights, on, row);
    var last, after := set j | j in hits :: (n, j), Pairs(form, lefts, rights, on, row);
    TaggedSize(n, hits);
    forall x | x in after ensures x in before + last {
      assert x == (x.0, x.1);
      if x.0 < n {
        assert lefts[..n][x.0] == lefts[x.0];
      } else {
        assert x.1 in hits;
      }
    }
    forall x | x in before ensures x in after && x !in last {
      assert lefts[..n][x.0] == lefts[x.0];
    }
    assert after == before + last;
  }

  lemma {:induction false} SelectCount<T>(s: seq<T>, p: T -> bool, x: T)
    ensures multiset(Select(s, p))[x] == if p(x) then multiset(s)[x] else 0
  {
    if s != [] {
      SelectCount(s[..|s| - 1], p, x);
      assert s == s[..|s| - 1] + [s[|s| - 1]];
    }
  }

  lemma {:induction false} SinglesCount(ts: seq<Tuple>, row: Row)
    ensures multiset(Singles(ts))[row] == if |row| == 1 then multiset(ts)[row[0]] else 0
  {
    if ts != [] {
      var n := |ts| - 1;
      SinglesCount(ts[..n], row);
      assert ts == ts[..n] + [ts[n]];
      SinglesAppend(ts[..n], ts[n]);
      assert row == [ts[n]] <==> |row| == 1 && row[0] == ts[n];
    }
  }

  ghost predicate NoRightMatches(l: Row, rights: seq<Tuple>, on: On) {
    forall j :: 0 <= j < |rights| ==> on(l, rights[j]) != True
  }

  ghost predicate NoLeftMatches(lefts: seq<Row>, r: Tuple, on: On) {
    forall i :: 0 <= i < |lefts| ==> on(lefts[i], r) != True
  }

  lemma {:induction false} NoMatches(l: Row, rights: seq<Tuple>, on: On)
    ensures MatchesOf(LeftFirst, l, rights, on) == [] <==> NoRightMatches(l, rights, on)
  {
    if rights != [] {
      var n := |rights| - 1;
      NoMatches(l, rights[..n], on);
      assert NoRightMatches(l, rights, on) <==> NoRightMatches(l, rights[..n], on) && on(l, rights[n]) != True;
    }
  }

  lemma {:induction false} NoneMatched(lefts: seq<Row>, r: Tuple, on: On)
    ensures MatchedBy(LeftFirst, lefts, r, on) == [] <==> NoLeftMatches(lefts, r, on)
  {
    if lefts != [] {
      var n := |lefts| - 1;
      NoneMatched(lefts[..n], r, on);
      assert NoLeftMatches(lefts, r, on) <==> NoLeftMatches(lefts[..n], r, on) && on(lefts[n], r) != True;
    }
  }

  /** How often a left row is listed for want of a match, and a right tuple. */
  ghost function LeftAlone(lefts: seq<Row>, rights: seq<Tuple>, on: On, row: Row): (n: nat) {
    if NoRightMatches(row, rights, on) then multiset(lefts)[row] else 0
  }

  ghost function RightAlone(lefts: seq<Row>, rights: seq<Tuple>, on: On, row: Row): (n: nat) {
    if |row| == 1 && NoLeftMatches(lefts, row[0], on) then multiset(rights)[row[0]] else 0
  }

  lemma {:induction false} AloneCount(lefts: seq<Row>, rights: seq<Tuple>, on: On, row: Row)
    ensures multiset(LeftOver(lefts, rights, on))[row] == LeftAlone(lefts, rights, on, row)
    ensures multiset(Singles(RightOver(lefts, rights, on)))[row] == RightAlone(lefts, rights, on, row)
  {
    SelectCount(lefts, WithoutRight(rights, on), row);
    NoMatches(row, rights, on);
    SinglesCount(RightOver(lefts, rights, on), row);
    if |row| == 1 {
      SelectCount(rights, WithoutLeft(lefts, on), row[0]);
      NoneMatched(lefts, row[0], on);
    }
  }

  /** The multiplicity of a row in a joined table: the number of matching pairs that give it, plus the unmatched left
      rows and right tuples equal to it where the join type keeps them. */
  lemma {:induction false} JoinedMeans(jt: JoinType, lefts: seq<Row>, rights: seq<Tuple>, on: On, row: Row)
    ensures Joined(jt, lefts, rights, on)[row] ==
              |Pairs(if jt == Right then RightFirst else LeftFirst, lefts, rights,
                     if jt == Cross then Always() else on, row)|
              + (if jt == Left || jt == Full then LeftAlone(lefts, rights, on, row) else 0)
              + (if jt == Right || jt == Full then RightAlone(lefts, rights, on, row) else 0)
  {
    var form, on' := if jt == Right then RightFirst else LeftFirst, if jt == Cross then Always() else on;
    MatchedCount(form, lefts, rights, on', row);
    AloneCount(lefts, rights, on, row);
  }
}
