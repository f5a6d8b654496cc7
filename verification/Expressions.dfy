/** Expression parsing of internal/xsql/parser.go on values: the operands, among them calls and CASE expressions, and
    the precedence loop. */
module Expressions {
  import opened TokenRing

  /** Operands keep the tokens they were read from. `sub` marks a field of a struct, read after an arrow. A call or a
      CASE expression is a group: the tokens that open it, expressions each with the token after it, and what is left up
      to the end of the group. */
  datatype Expr =
    | Lit(token: Token)
    | Neg(token: Token)
    | Field(path: seq<Token>, sub: bool)
    | Bracket(inner: seq<Token>)
    | Paren(expr: Expr)
    | Group(open: seq<Token>, items: seq<Item>, tail: seq<Token>)
    | Bin(op: Operator, lhs: Expr, rhs: Expr)

  datatype Item = Item(expr: Expr, after: Token)

  // ----- names and brackets

  predicate IsName(t: Token) {
    t.Ident? || t.Asterisk?
  }

  /** parseFieldNameSections: where the dotted name ends, and how many sections it has. */
  function FieldEnd(ts: seq<Token>, pos: nat, names: nat): (r: (nat, nat))
    ensures pos <= r.0 && names <= r.1
    ensures r.0 <= |ts| || r.0 == pos
    decreases |ts| - pos
  {
    if !IsName(At(ts, pos)) then (pos, names)
    else if At(ts, pos + 1) == Dot then FieldEnd(ts, pos + 2, names + 1)
    else (pos + 1, names + 1)
  }

  /** How many tokens an index takes, zero if there is none: an integer, or a minus sign and an integer. */
  function IndexLength(ts: seq<Token>, pos: nat): (n: nat)
    ensures n <= 2 && (n > 0 ==> pos + n <= |ts|)
  {
    if At(ts, pos).Integer? then 1
    else if At(ts, pos) == Op(Sub) && At(ts, pos + 1).Integer? then 2 else 0
  }

  /** parseColonExpr: the position of the closing bracket. */
  function ColonEnd(ts: seq<Token>, pos: nat): (r: Parsed<()>)
    ensures r.Ok? ==> pos <= r.pos < |ts|
  {
    var n := IndexLength(ts, pos);
    if At(ts, pos + n) == RBracket then Ok((), pos + n) else Err
  }

  /** parseBracketExpr, after the first index. */
  function IndexEnd(ts: seq<Token>, pos: nat): (r: Parsed<()>)
    ensures r.Ok? ==> pos <= r.pos < |ts|
  {
    match At(ts, pos)
    case RBracket => Ok((), pos)
    case Colon => ColonEnd(ts, pos + 1)
    case _ => Err
  }

  /** parseBracketExpr: the position of the closing bracket. */
  function BracketEnd(ts: seq<Token>, pos: nat): (r: Parsed<()>)
    ensures r.Ok? ==> pos <= r.pos < |ts|
  {
    IndexEnd(ts, pos + IndexLength(ts, pos))
  }

  // ----- calls and CASE expressions

  /** What is being read: the arguments of a call, the value of a CASE, the condition of a WHEN, or the result after
      THEN or ELSE. `valued` says that the CASE has a value. */
  datatype Mode = Argument | CaseValue | Condition(valued: bool) | Outcome(valued: bool)

  /** IsBooleanArg of pkg/ast/funcArgsValidator.go. */
  predicate IsBoolean(e: Expr) {
    (e.Lit? && e.token.Truth?) || (e.Bin? && IsBooleanOp(e.op))
  }

  predicate IsBooleanOp(op: Operator) {
    op.Infix? && op.symbol in {And, Or, Eq, Neq, Lt, Lte, Gt, Gte}
  }

  /** Does the token after the expression end the group? */
  predicate Ends(m: Mode, after: Token) {
    (m.Argument? && after == RParen) || (m.Outcome? && after == Token.End)
  }

  /** May the group go on after this expression and token? */
  predicate GoesOn(m: Mode, boolean: bool, after: Token) {
    match m
    case Argument => after == Comma
    case CaseValue => after == When
    case Condition(valued) => after == Then && (valued || boolean)
    case Outcome(_) => after == When || after == Token.Else
  }

  function NextMode(m: Mode, after: Token): (r: Mode) {
    match m
    case Argument => Argument
    case CaseValue => Condition(true)
    case Condition(valued) => Outcome(valued)
    case Outcome(valued) => if after == When then Condition(valued) else m
  }

  /** How a group starts: a name and a parenthesis, or CASE, with WHEN if it has no value. */
  function GroupMode(open: seq<Token>): (m: Mode) {
    if open == [Token.Case] then CaseValue else if open == [Token.Case, When] then Condition(false) else Argument
  }

  // ----- the precedence loop

  /** The inner loop of ParseExpr: down the right spine to the place of the new operator. */
  function Insert(t: Expr, op: Operator, rhs: Expr): (r: Expr) {
    if !t.Bin? || Precedence(t.op) >= Precedence(op) then Bin(op, t, rhs)
    else Bin(t.op, t.lhs, Insert(t.rhs, op, rhs))
  }

  function OperatorOf(t: Token): (op: Operator)
    requires IsOperator(t)
  {
    match t
    case Op(s) => Infix(s)
    case Asterisk => Mul
    case LBracket => Subset
  }

  /** Where the operand after an operator starts: a bracket is pushed back. */
  function OperandAt(t: Token, pos: nat): (p: nat)
    requires IsOperator(t)
  {
    if t == LBracket then pos else pos + 1
  }

  function ParseUnary(ts: seq<Token>, pos: nat, sub: bool): (r: Parsed<Expr>)
    ensures r.Ok? ==> pos < r.pos <= |ts|
    decreases Remaining(ts, pos), 0
  {
    match At(ts, pos)
    case LParen =>
      var e := ParseExpr(ts, pos + 1);
      if e.Err? then Err
      else if At(ts, e.pos) == RParen then Ok(Paren(e.value), e.pos + 1) else Err
    case LBracket =>
      var b := BracketEnd(ts, pos + 1);
      if b.Err? then Err else Ok(Bracket(ts[pos + 1..b.pos]), b.pos + 1)
    case Ident(_) =>
      if At(ts, pos + 1) == LParen then ParseGroup(ts, pos, 2)
      else
        var (end, names) := FieldEnd(ts, pos, 0);
        if names > 2 then Err else Ok(Field(ts[pos..end], sub && names == 1), end)
    case Case => ParseGroup(ts, pos, if At(ts, pos + 1) == When then 2 else 1)
    case Op(Sub) => if IsNumber(At(ts, pos + 1)) then Ok(Neg(ts[pos + 1]), pos + 2) else Err
    case Integer(_) => Ok(Lit(ts[pos]), pos + 1)
    case Number(_) => Ok(Lit(ts[pos]), pos + 1)
    case Truth(_) => Ok(Lit(ts[pos]), pos + 1)
    case Literal(_) => Ok(Lit(ts[pos]), pos + 1)
    case _ => Err
  }

  /** parseCall and parseCaseExpr, with `n` tokens that open the group. */
  function ParseGroup(ts: seq<Token>, pos: nat, n: nat): (r: Parsed<Expr>)
    requires 1 <= n && pos + n <= |ts|
    ensures r.Ok? ==> pos < r.pos <= |ts|
    decreases Remaining(ts, pos + n), 3
  {
    var open := ts[pos..pos + n];
    var r := ParseItems(ts, pos + n, GroupMode(open));
    if r.Err? then Err else Ok(Group(open, r.value.0, r.value.1), r.pos)
  }

  /** The loops of parseCall and parseCaseExpr: expressions with the token after each, and the tokens left over. */
  function ParseItems(ts: seq<Token>, pos: nat, m: Mode): (r: Parsed<(seq<Item>, seq<Token>)>)
    ensures r.Ok? ==> pos < r.pos <= |ts|
    decreases Remaining(ts, pos), 2
  {
    if m.Argument? && At(ts, pos) == RParen then Ok(([], [RParen]), pos + 1)
    else if m.Argument? && At(ts, pos) == Asterisk then
      if At(ts, pos + 1) == RParen then Ok(([], [Asterisk, RParen]), pos + 2) else Err
    else
      var e := ParseExpr(ts, pos);
      if e.Err? then Err
      else
        var after := At(ts, e.pos);
        var item := Item(e.value, after);
        if Ends(m, after) then Ok(([item], []), e.pos + 1)
        else if GoesOn(m, IsBoolean(e.value), after) then
          var r := ParseItems(ts, e.pos + 1, NextMode(m, after));
          if r.Err? then Err else Ok(([item] + r.value.0, r.value.1), r.pos)
        else Err
  }

  /** More expressions in front of those of a group. */
  function Prepended(items: seq<Item>, r: Parsed<(seq<Item>, seq<Token>)>): (s: Parsed<(seq<Item>, seq<Token>)>) {
    if r.Ok? then Ok((items + r.value.0, r.value.1), r.pos) else Err
  }

  /** One expression of a group with the token after it, and what the others are read as. */
  function FirstAndMore(
    m: Mode, e: Parsed<Expr>, after: Token, more: Parsed<(seq<Item>, seq<Token>)>): (r: Parsed<(seq<Item>, seq<Token>)>)
    requires e.Ok?
  {
    if Ends(m, after) then Ok(([Item(e.value, after)], []), e.pos + 1)
    else if !GoesOn(m, IsBoolean(e.value), after) then Err
    else Prepended([Item(e.value, after)], more)
  }

  /** One expression of a group, and the others. */
  lemma {:induction false} ItemsStep(ts: seq<Token>, pos: nat, m: Mode)
    requires !(m.Argument? && (At(ts, pos) == RParen || At(ts, pos) == Asterisk)) && ParseExpr(ts, pos).Ok?
    ensures var e := ParseExpr(ts, pos);
      var after := At(ts, e.pos);
      ParseItems(ts, pos, m) == FirstAndMore(m, e, after, ParseItems(ts, e.pos + 1, NextMode(m, after)))
  {
  }

  lemma {:induction false} NoItem(ts: seq<Token>, pos: nat, m: Mode)
    requires !(m.Argument? && (At(ts, pos) == RParen || At(ts, pos) == Asterisk)) && ParseExpr(ts, pos).Err?
    ensures ParseItems(ts, pos, m).Err?
  {
  }

  function ParseExpr(ts: seq<Token>, pos: nat): (r: Parsed<Expr>)
    ensures r.Ok? ==> pos < r.pos <= |ts|
    decreases Remaining(ts, pos), 1
  {
    var u := ParseUnary(ts, pos, false);
    if u.Err? then Err else ParseRest(ts, u.pos, u.value)
  }

  /** The outer loop of ParseExpr with the tree built so far. */
  function ParseRest(ts: seq<Token>, pos: nat, t: Expr): (r: Parsed<Expr>)
    requires pos <= |ts|
    ensures r.Ok? ==> pos <= r.pos <= |ts|
    decreases Remaining(ts, pos), 2
  {
    var tok := At(ts, pos);
    if !IsOperator(tok) then Ok(t, pos)
    else
      var op := OperatorOf(tok);
      var u := ParseUnary(ts, OperandAt(tok, pos), op == Infix(Arrow));
      if u.Err? then Err else ParseRest(ts, u.pos, Insert(t, op, u.value))
  }
}
