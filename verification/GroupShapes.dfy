/** What calls and CASE expressions may look like, item by item: the grammar that parseCall and parseCaseExpr of
    internal/xsql/parser.go accept, without their loops. */
module GroupShapes {
  import opened TokenRing
  import opened Expressions
  import opened ExpressionTrees

  /** The arguments of a call: a comma after each but the last, and a parenthesis at the end. After the last comma an
      asterisk, or nothing at all, may stand before the parenthesis. */
  ghost predicate IsCallList(items: seq<Item>, tail: seq<Token>) {
    && (forall i :: 0 <= i < |items| ==> WellFormed(items[i].expr, false))
    && (forall i :: 0 <= i < |items| - 1 ==> items[i].after == Comma)
    && if tail == [] then items != [] && items[|items| - 1].after == RParen
       else
         && (tail == [RParen] || tail == [Asterisk, RParen])
         && (items != [] ==> items[|items| - 1].after == Comma)
  }

  /** The part of a CASE expression that an item is: the value or the first condition, the condition after WHEN, or the
      result after THEN and ELSE. */
  datatype Part = Value | When | Result

  function PartOf(first: Part, items: seq<Item>, i: nat): (p: Part)
    requires i < |items|
  {
    if i == 0 then first else if items[i - 1].after == Token.When then Part.When else Result
  }

  /** What IsBooleanArg takes for a condition: TRUE and FALSE, a comparison, AND and OR. */
  predicate IsCondition(e: Expr) {
    || (e.Lit? && e.token.Truth?)
    || (e.Bin? && e.op in {Infix(Eq), Infix(Neq), Infix(Lt), Infix(Lte), Infix(Gt), Infix(Gte), Infix(And), Infix(Or)})
  }

  /** WHEN follows the value, THEN a condition, and WHEN, ELSE or the final END a result. Without a value a condition
      has to be boolean. */
  predicate FitsPart(p: Part, valued: bool, item: Item, last: bool) {
    match p
    case Value => item.after == Token.When && !last
    case When => item.after == Then && !last && (valued || IsCondition(item.expr))
    case Result => if last then item.after == Token.End else item.after == Token.When || item.after == Token.Else
  }

  ghost predicate IsCaseList(valued: bool, first: Part, items: seq<Item>) {
    && items != []
    && forall i :: 0 <= i < |items| ==>
         WellFormed(items[i].expr, false) && FitsPart(PartOf(first, items, i), valued, items[i], i == |items| - 1)
  }

  lemma {:induction false} CallList(items: seq<Item>, tail: seq<Token>)
    ensures ItemsOk(Argument, items, tail) <==> IsCallList(items, tail)
    decreases items
  {
    if items != [] {
      CallList(items[1..], tail);
      CallListStep(items, tail);
    }
  }

  lemma CallListStep(items: seq<Item>, tail: seq<Token>)
    requires items != []
    ensures IsCallList(items, tail) <==>
              && WellFormed(items[0].expr, false)
              && if items[0].after == RParen then |items| == 1 && tail == []
                 else items[0].after == Comma && IsCallList(items[1..], tail)
  {
    var rest := items[1..];
    assert items == [items[0]] + rest;
    forall i | 0 <= i < |rest| ensures rest[i] == items[i + 1] {}
    if IsCallList(rest, tail) && WellFormed(items[0].expr, false) && items[0].after == Comma {
      forall i | 0 <= i < |items|
        ensures WellFormed(items[i].expr, false) && (i < |items| - 1 ==> items[i].after == Comma)
      {
        assert i > 0 ==> items[i] == rest[i - 1];
      }
    }
  }

  /** The mode in which the parser reads a part. */
  function ModeOf(p: Part, valued: bool): (m: Mode) {
    match p
    case Value => CaseValue
    case When => Condition(valued)
    case Result => Outcome(valued)
  }

  lemma {:induction false} CaseList(valued: bool, first: Part, items: seq<Item>, tail: seq<Token>)
    requires first == Value ==> valued
    ensures ItemsOk(ModeOf(first, valued), items, tail) <==> tail == [] && IsCaseList(valued, first, items)
    decreases items
  {
    if items != [] {
      var next := if items[0].after == Token.When then Part.When else Result;
      CaseList(valued, next, items[1..], tail);
      CaseListStep(valued, first, items);
      assert IsBoolean(items[0].expr) == IsCondition(items[0].expr);
    }
  }

  lemma CaseListStep(valued: bool, first: Part, items: seq<Item>)
    requires items != []
    ensures var next := if items[0].after == Token.When then Part.When else Result;
            IsCaseList(valued, first, items) <==>
              && WellFormed(items[0].expr, false) && FitsPart(first, valued, items[0], |items| == 1)
              && (|items| > 1 ==> IsCaseList(valued, next, items[1..]))
  {
    var next := if items[0].after == Token.When then Part.When else Result;
    var rest := items[1..];
    forall i | 0 <= i < |rest|
      ensures rest[i] == items[i + 1] && PartOf(next, rest, i) == PartOf(first, items, i + 1) {}
    if |items| > 1 && IsCaseList(valued, next, rest) {
      forall i | 1 <= i < |items| ensures WellFormed(items[i].expr, false)
      ensures FitsPart(PartOf(first, items, i), valued, items[i], i == |items| - 1) {
        assert items[i] == rest[i - 1];
      }
    }
  }

  /** The groups that are parsed: calls with an argument list, and CASE expressions with or without a value. */
  lemma GroupsAre(open: seq<Token>, items: seq<Item>, tail: seq<Token>, arrow: bool)
    ensures WellFormed(Group(open, items, tail), arrow) <==>
              || (|open| == 2 && open[0].Ident? && open[1] == LParen && IsCallList(items, tail))
              || (open == [Token.Case] && tail == [] && IsCaseList(true, Value, items))
              || (open == [Token.Case, Token.When] && tail == [] && IsCaseList(false, Part.When, items))
  {
    CallList(items, tail);
    CaseList(true, Value, items, tail);
    CaseList(false, Part.When, items, tail);
  }
}
