/** What the precedence loop of internal/xsql/parser.go builds: the one tree that reads as its tokens and in which
    tighter operators sit lower. */
module ExpressionTrees {
  import opened Sequences
  import opened TokenRing
  import opened Expressions

  // ----- the in-order reading

  function OpTokens(op: Operator): (ts: seq<Token>) {
    if op == Mul then [Asterisk] else if op == Subset then [] else [Op(op.symbol)]
  }

  /** The tokens of a tree, from left to right. */
  function Tokens(t: Expr): (ts: seq<Token>)
    decreases t
  {
    match t
    case Lit(token) => [token]
    case Neg(token) => [Op(Sub), token]
    case Field(path, _) => path
    case Bracket(inner) => [LBracket] + inner + [RBracket]
    case Paren(e) => [LParen] + Tokens(e) + [RParen]
    case Group(open, items, tail) => open + ItemTokens(items) + tail
    case Bin(op, l, r) => Tokens(l) + OpTokens(op) + Tokens(r)
  }

  function ItemTokens(items: seq<Item>): (ts: seq<Token>)
    decreases items
  {
    if items == [] then []
    else
      var item := items[0];
      assert item.expr < item;
      Tokens(item.expr) + [item.after] + ItemTokens(items[1..])
  }

  // ----- the shape

  /** A name of one or two sections; the dot after the last section may be left hanging. */
  predicate PathOk(path: seq<Token>) {
    && 1 <= |path| <= 4
    && path[0].Ident?
    && (|path| > 1 ==> path[1] == Dot)
    && (|path| > 2 ==> path[2].Ident? || path[2] == Asterisk)
    && (|path| > 3 ==> path[3] == Dot)
  }

  predicate IsIndex(s: seq<Token>) {
    (|s| == 1 && s[0].Integer?) || (|s| == 2 && s[0] == Op(Sub) && s[1].Integer?)
  }

  /** What may stand between brackets: nothing, `i`, `i:`, `i:j`, `:` or `:j`. */
  ghost predicate InnerOk(inner: seq<Token>) {
    inner == [] || IsIndex(inner) || exists k :: 0 <= k < |inner| && IsSlice(inner, k)
  }

  predicate IsSlice(inner: seq<Token>, k: nat)
    requires k < |inner|
  {
    inner[k] == Colon && (k == 0 || IsIndex(inner[..k])) && (k + 1 == |inner| || IsIndex(inner[k + 1..]))
  }

  /** The last operand of a tree. */
  function Last(t: Expr): (r: Expr)
    ensures !r.Bin?
  {
    if t.Bin? then Last(t.rhs) else t
  }

  /** May this token come after the tree, without becoming part of its last operand? */
  predicate Follows(t: Expr, next: Token) {
    var last := Last(t);
    !last.Field? || NameEnds(last.path, next)
  }

  predicate NameEnds(path: seq<Token>, next: Token) {
    if |path| % 2 == 0 then !next.Ident? && next != Asterisk else next != Dot && (|path| == 1 ==> next != LParen)
  }

  /** The token the parser sees when it looks for an operator. */
  function Sign(op: Operator): (t: Token)
    ensures IsOperator(t) && OperatorOf(t) == op
  {
    if op == Mul then Asterisk else if op == Subset then LBracket else Op(op.symbol)
  }

  /** How a group may start. */
  predicate OpenOk(open: seq<Token>) {
    (|open| == 2 && open[0].Ident? && open[1] == LParen) || open == [Token.Case] || open == [Token.Case, When]
  }

  /** Is every operator of the tree below a looser one, equal ones nesting to the left? `arrow`: the tree comes after
      an arrow. */
  ghost predicate WellFormed(t: Expr, arrow: bool)
    decreases t
  {
    match t
    case Lit(token) => token.Integer? || token.Number? || token.Truth? || token.Literal?
    case Neg(token) => token.Integer? || token.Number?
    case Field(path, sub) => PathOk(path) && sub == (arrow && |path| <= 2)
    case Bracket(inner) => InnerOk(inner)
    case Paren(e) => WellFormed(e, false)
    case Group(open, items, tail) => OpenOk(open) && ItemsOk(GroupMode(open), items, tail)
    case Bin(op, l, r) =>
      && WellFormed(l, arrow) && WellFormed(r, op == Infix(Arrow))
      && (l.Bin? ==> Precedence(l.op) >= Precedence(op))
      && (r.Bin? ==> Precedence(r.op) > Precedence(op))
      && (op == Subset ==> r.Bracket?)
      && Follows(l, Sign(op))
  }

  /** Are these the expressions of a call or a CASE, from this mode on? */
  ghost predicate ItemsOk(m: Mode, items: seq<Item>, tail: seq<Token>)
    decreases items
  {
    if items == [] then m.Argument? && (tail == [RParen] || tail == [Asterisk, RParen])
    else
      var item := items[0];
      assert item.expr < item;
      && WellFormed(item.expr, false)
      && if Ends(m, item.after) then |items| == 1 && tail == []
         else
           && GoesOn(m, IsBoolean(item.expr), item.after)
           && ItemsOk(NextMode(m, item.after), items[1..], tail)
  }

  // ----- operands

  lemma {:induction false} FieldTaken(ts: seq<Token>, pos: nat)
    requires At(ts, pos).Ident?
    ensures var (end, names) := FieldEnd(ts, pos, 0);
      names <= 2 ==> end <= |ts| && PathOk(ts[pos..end]) && names == (if end - pos <= 2 then 1 else 2)
    ensures var (end, names) := FieldEnd(ts, pos, 0);
      names <= 2 && At(ts, pos + 1) != LParen ==> NameEnds(ts[pos..end], At(ts, end))
  {
    if At(ts, pos + 1) == Dot && IsName(At(ts, pos + 2)) && At(ts, pos + 3) == Dot {
      var _ := FieldEnd(ts, pos + 4, 2);
    }
  }

  lemma {:induction false} FieldRead(ts: seq<Token>, pos: nat, end: nat)
    requires pos <= end <= |ts| && PathOk(ts[pos..end])
    requires NameEnds(ts[pos..end], At(ts, end))
    ensures FieldEnd(ts, pos, 0) == (end, if end - pos <= 2 then 1 else 2)
    ensures At(ts, pos).Ident? && At(ts, pos + 1) != LParen
  {
    var path := ts[pos..end];
    assert path[0] == At(ts, pos);
    if |path| > 1 {
      assert path[1] == At(ts, pos + 1);
      if |path| > 2 {
        assert path[2] == At(ts, pos + 2);
        if |path| > 3 {
          assert path[3] == At(ts, pos + 3);
          assert FieldEnd(ts, pos + 4, 2) == (pos + 4, 2);
        }
        assert FieldEnd(ts, pos + 2, 1) == (end, 2);
      }
    }
  }

  lemma {:induction false} IndexTaken(ts: seq<Token>, pos: nat)
    requires IndexLength(ts, pos) > 0
    ensures IsIndex(ts[pos..pos + IndexLength(ts, pos)])
  {
  }

  lemma {:induction false} BracketTaken(ts: seq<Token>, pos: nat)
    ensures var b := BracketEnd(ts, pos);
      b.Ok? ==> InnerOk(ts[pos..b.pos]) && ts[b.pos] == RBracket
  {
    var b, n := BracketEnd(ts, pos), IndexLength(ts, pos);
    if b.Ok? {
      var inner := ts[pos..b.pos];
      if n > 0 {
        IndexTaken(ts, pos);
      }
      if At(ts, pos + n) == Colon {
        if IndexLength(ts, pos + n + 1) > 0 {
          IndexTaken(ts, pos + n + 1);
        }
        assert inner[..n] == ts[pos..pos + n] && inner[n + 1..] == ts[pos + n + 1..b.pos];
        assert inner[n] == ts[pos + n] == Colon;
        assert IsSlice(inner, n);
      }
    }
  }

  lemma {:induction false} IndexRead(ts: seq<Token>, pos: nat, end: nat)
    requires pos <= end <= |ts| && IsIndex(ts[pos..end])
    ensures IndexLength(ts, pos) == end - pos
  {
    assert ts[pos..end][0] == ts[pos];
    if end == pos + 2 {
      assert ts[pos..end][1] == ts[pos + 1];
    }
  }

  lemma {:induction false} SliceRead(ts: seq<Token>, pos: nat, end: nat, k: nat)
    requires pos <= pos + k < end < |ts| && ts[end] == RBracket && ts[pos + k] == Colon
    requires (k == 0 || IsIndex(ts[pos..pos + k])) && (pos + k + 1 == end || IsIndex(ts[pos + k + 1..end]))
    ensures BracketEnd(ts, pos) == Ok((), end)
  {
    if k > 0 {
      IndexRead(ts, pos, pos + k);
    }
    if pos + k + 1 < end {
      IndexRead(ts, pos + k + 1, end);
    }
    assert ColonEnd(ts, pos + k + 1) == Ok((), end);
  }

  lemma {:induction false} BracketRead(ts: seq<Token>, pos: nat, end: nat)
    requires pos <= end < |ts| && InnerOk(ts[pos..end]) && ts[end] == RBracket
    ensures BracketEnd(ts, pos) == Ok((), end)
  {
    var inner := ts[pos..end];
    if inner != [] && !IsIndex(inner) {
      var k :| 0 <= k < |inner| && IsSlice(inner, k);
      SliceAt(ts, pos, end, k);
      SliceRead(ts, pos, end, k);
    } else if inner != [] {
      IndexRead(ts, pos, end);
    }
  }

  lemma {:induction false} SliceAt(ts: seq<Token>, pos: nat, end: nat, k: nat)
    requires pos + k < end <= |ts|
    ensures var inner := ts[pos..end];
      inner[k] == ts[pos + k] && inner[..k] == ts[pos..pos + k] && inner[k + 1..] == ts[pos + k + 1..end]
  {
  }

  // ----- every tree the parser returns is well formed and reads as the tokens it consumed

  lemma {:induction false} InsertReads(t: Expr, op: Operator, u: Expr)
    requires !u.Bin?
    ensures Tokens(Insert(t, op, u)) == Tokens(t) + OpTokens(op) + Tokens(u)
    ensures Last(Insert(t, op, u)) == u
  {
    if t.Bin? && Precedence(t.op) < Precedence(op) {
      InsertReads(t.rhs, op, u);
      BinTokens(t);
      BinTokens(Insert(t, op, u));
      Nested(Tokens(t.lhs), OpTokens(t.op), Tokens(t.rhs), OpTokens(op), Tokens(u));
    } else {
      BinTokens(Insert(t, op, u));
    }
  }

  lemma BinTokens(t: Expr)
    requires t.Bin?
    ensures Tokens(t) == Tokens(t.lhs) + OpTokens(t.op) + Tokens(t.rhs) && Last(t) == Last(t.rhs)
  {
  }

  lemma {:induction false} InsertKeeps(t: Expr, op: Operator, u: Expr, arrow: bool)
    requires WellFormed(t, arrow) && WellFormed(u, op == Infix(Arrow)) && !u.Bin?
    requires op == Subset ==> u.Bracket?
    requires Follows(t, Sign(op))
    ensures WellFormed(Insert(t, op, u), arrow)
  {
    if t.Bin? && Precedence(t.op) < Precedence(op) {
      InsertKeeps(t.rhs, op, u, t.op == Infix(Arrow));
      var r := Insert(t.rhs, op, u);
      assert t.op != Subset;
      assert r.Bin? && Precedence(r.op) > Precedence(t.op);
    }
  }

  /** What the parser has read between two positions. */
  ghost predicate Reads(ts: seq<Token>, start: nat, r: Parsed<Expr>, arrow: bool) {
    r.Ok? ==>
      && start <= r.pos <= |ts| && Tokens(r.value) == ts[start..r.pos]
      && WellFormed(r.value, arrow) && Follows(r.value, At(ts, r.pos))
  }

  lemma {:induction false} BracketSound(ts: seq<Token>, pos: nat, sub: bool)
    requires At(ts, pos) == LBracket
    ensures Reads(ts, pos, ParseUnary(ts, pos, sub), sub)
  {
    var b := BracketEnd(ts, pos + 1);
    if b.Ok? {
      BracketTaken(ts, pos + 1);
      Wraps(ts, pos, b.pos);
      assert ParseUnary(ts, pos, sub) == Ok(Bracket(ts[pos + 1..b.pos]), b.pos + 1);
    }
  }

  lemma {:induction false} FieldSound(ts: seq<Token>, pos: nat, sub: bool)
    requires At(ts, pos).Ident? && At(ts, pos + 1) != LParen
    ensures Reads(ts, pos, ParseUnary(ts, pos, sub), sub)
  {
    FieldTaken(ts, pos);
  }

  lemma {:induction false} ParenSound(ts: seq<Token>, pos: nat, sub: bool)
    requires At(ts, pos) == LParen && Reads(ts, pos + 1, ParseExpr(ts, pos + 1), false)
    ensures Reads(ts, pos, ParseUnary(ts, pos, sub), sub)
  {
    var e := ParseExpr(ts, pos + 1);
    if e.Ok? && At(ts, e.pos) == RParen {
      Wraps(ts, pos, e.pos);
    }
  }

  lemma {:induction false} UnarySound(ts: seq<Token>, pos: nat, sub: bool)
    ensures Reads(ts, pos, ParseUnary(ts, pos, sub), sub)
    decreases Remaining(ts, pos), 0
  {
    match At(ts, pos)
    case LParen =>
      ExprSound(ts, pos + 1);
      ParenSound(ts, pos, sub);
    case LBracket => BracketSound(ts, pos, sub);
    case Ident(_) =>
      if At(ts, pos + 1) == LParen {
        GroupSound(ts, pos, 2, sub);
      } else {
        FieldSound(ts, pos, sub);
      }
    case Case => GroupSound(ts, pos, if At(ts, pos + 1) == When then 2 else 1, sub);
    case _ =>
  }

  lemma {:induction false} GroupSound(ts: seq<Token>, pos: nat, n: nat, sub: bool)
    requires 1 <= n <= 2 && pos + n <= |ts| && OpenOk(ts[pos..pos + n])
    ensures Reads(ts, pos, ParseGroup(ts, pos, n), sub)
    decreases Remaining(ts, pos + n), 4
  {
    var m, r := GroupMode(ts[pos..pos + n]), ParseItems(ts, pos + n, GroupMode(ts[pos..pos + n]));
    ItemsSound(ts, pos + n, m);
    if r.Ok? {
      SliceJoin(ts, pos, pos + n, r.pos);
      Assoc(ts[pos..pos + n], ItemTokens(r.value.0), r.value.1);
    }
  }

  /** The expressions of a group are read. */
  ghost predicate ReadsItems(ts: seq<Token>, start: nat, r: Parsed<(seq<Item>, seq<Token>)>, m: Mode) {
    r.Ok? ==>
      && start <= r.pos <= |ts| && ItemTokens(r.value.0) + r.value.1 == ts[start..r.pos]
      && ItemsOk(m, r.value.0, r.value.1)
  }

  lemma {:induction false} ItemsSound(ts: seq<Token>, pos: nat, m: Mode)
    ensures ReadsItems(ts, pos, ParseItems(ts, pos, m), m)
    decreases Remaining(ts, pos), 3
  {
    if m.Argument? && (At(ts, pos) == RParen || At(ts, pos) == Asterisk) {
      TailSound(ts, pos, m);
    } else {
      ItemAndMoreSound(ts, pos, m);
      ItemSound(ts, pos, m);
    }
  }

  /** An expression is read, and so are those after its separator. */
  ghost predicate ReadsItemAndMore(ts: seq<Token>, pos: nat, m: Mode, e: Parsed<Expr>) {
    && Reads(ts, pos, e, false)
    && (e.Ok? ==>
          var next := NextMode(m, At(ts, e.pos));
          ReadsItems(ts, e.pos + 1, ParseItems(ts, e.pos + 1, next), next))
  }

  lemma {:induction false} ItemAndMoreSound(ts: seq<Token>, pos: nat, m: Mode)
    ensures ReadsItemAndMore(ts, pos, m, ParseExpr(ts, pos))
    decreases Remaining(ts, pos), 2
  {
    ExprSound(ts, pos);
    var e := ParseExpr(ts, pos);
    if e.Ok? {
      ItemsSound(ts, e.pos + 1, NextMode(m, At(ts, e.pos)));
    }
  }

  lemma {:induction false} TailSound(ts: seq<Token>, pos: nat, m: Mode)
    requires m.Argument? && (At(ts, pos) == RParen || At(ts, pos) == Asterisk)
    ensures ReadsItems(ts, pos, ParseItems(ts, pos, m), m)
  {
    var r := ParseItems(ts, pos, m);
    if r.Ok? {
      assert ts[pos..r.pos] == r.value.1;
      assert ItemTokens([]) + r.value.1 == r.value.1;
    }
  }

  lemma {:induction false} ItemSound(ts: seq<Token>, pos: nat, m: Mode)
    requires !(m.Argument? && (At(ts, pos) == RParen || At(ts, pos) == Asterisk))
    requires ReadsItemAndMore(ts, pos, m, ParseExpr(ts, pos))
    ensures ReadsItems(ts, pos, ParseItems(ts, pos, m), m)
  {
    if ParseExpr(ts, pos).Ok? {
      var e, next, r := ItemAndMore(ts, pos, m);
      OneMoreReads(ts, pos, m, e, next, r);
    } else {
      NoItem(ts, pos, m);
    }
  }

  lemma {:induction false} ItemAndMore(ts: seq<Token>, pos: nat, m: Mode)
    returns (e: Parsed<Expr>, next: Parsed<(seq<Item>, seq<Token>)>, r: Parsed<(seq<Item>, seq<Token>)>)
    requires !(m.Argument? && (At(ts, pos) == RParen || At(ts, pos) == Asterisk))
    requires ReadsItemAndMore(ts, pos, m, ParseExpr(ts, pos)) && ParseExpr(ts, pos).Ok?
    ensures e.Ok? && Reads(ts, pos, e, false) && ReadsItems(ts, e.pos + 1, next, NextMode(m, At(ts, e.pos)))
    ensures r == ParseItems(ts, pos, m) == FirstAndMore(m, e, At(ts, e.pos), next)
  {
    e, r := ParseExpr(ts, pos), ParseItems(ts, pos, m);
    next := ParseItems(ts, e.pos + 1, NextMode(m, At(ts, e.pos)));
    ItemsStep(ts, pos, m);
  }

  lemma {:induction false} OneMoreReads(
    ts: seq<Token>, pos: nat, m: Mode, e: Parsed<Expr>, next: Parsed<(seq<Item>, seq<Token>)>,
    r: Parsed<(seq<Item>, seq<Token>)>)
    requires e.Ok? && Reads(ts, pos, e, false) && ReadsItems(ts, e.pos + 1, next, NextMode(m, At(ts, e.pos)))
    requires r == FirstAndMore(m, e, At(ts, e.pos), next)
    ensures ReadsItems(ts, pos, r, m)
  {
    if r.Ok? {
      var item, rest := Item(e.value, At(ts, e.pos)), r.value.0[1..];
      assert r.value.0 == [item] + rest;
      OneItemMore(ts, pos, e.pos, r.pos, item, rest, r.value.1);
      OneMoreOk(m, item, rest, r.value.1);
    }
  }

  lemma {:induction false} OneItemMore(
    ts: seq<Token>, pos: nat, q: nat, end: nat, item: Item, rest: seq<Item>, tail: seq<Token>)
    requires pos <= q < end <= |ts| && Tokens(item.expr) == ts[pos..q] && item.after == ts[q]
    requires ItemTokens(rest) + tail == ts[q + 1..end]
    ensures ItemTokens([item] + rest) + tail == ts[pos..end]
  {
    ItemTokensOf(item, rest);
    Adjacent(ts, pos, q, q + 1, end);
    assert ts[q..q + 1] == [item.after];
    Regroup(Tokens(item.expr), [item.after], ItemTokens(rest), tail);
  }

  lemma {:induction false} OneMoreOk(m: Mode, item: Item, rest: seq<Item>, tail: seq<Token>)
    requires WellFormed(item.expr, false)
    requires if Ends(m, item.after) then rest == [] && tail == []
      else GoesOn(m, IsBoolean(item.expr), item.after) && ItemsOk(NextMode(m, item.after), rest, tail)
    ensures ItemsOk(m, [item] + rest, tail)
  {
    assert ([item] + rest)[1..] == rest;
  }

  lemma {:induction false} ItemTokensOf(item: Item, rest: seq<Item>)
    ensures ItemTokens([item] + rest) == Tokens(item.expr) + [item.after] + ItemTokens(rest)
  {
    assert ([item] + rest)[1..] == rest;
  }

  lemma {:induction false} UnaryShape(ts: seq<Token>, pos: nat, sub: bool)
    ensures var u := ParseUnary(ts, pos, sub);
      u.Ok? ==> !u.value.Bin? && (At(ts, pos) == LBracket ==> u.value.Bracket?)
  {
  }

  /** And what comes next does not go on with an operator. */
  predicate Stops(ts: seq<Token>, r: Parsed<Expr>) {
    r.Ok? ==> !IsOperator(At(ts, r.pos))
  }

  lemma {:induction false} ExprSound(ts: seq<Token>, pos: nat)
    ensures Reads(ts, pos, ParseExpr(ts, pos), false) && Stops(ts, ParseExpr(ts, pos))
    decreases Remaining(ts, pos), 1
  {
    UnarySound(ts, pos, false);
    var u := ParseUnary(ts, pos, false);
    if u.Ok? {
      RestSound(ts, pos, u.pos, u.value);
    }
  }

  lemma {:induction false} RestSound(ts: seq<Token>, start: nat, pos: nat, t: Expr)
    requires pos <= |ts| && Reads(ts, start, Ok(t, pos), false)
    ensures Reads(ts, start, ParseRest(ts, pos, t), false) && Stops(ts, ParseRest(ts, pos, t))
    decreases Remaining(ts, pos), 2
  {
    var tok := At(ts, pos);
    if IsOperator(tok) {
      var op, p := OperatorOf(tok), OperandAt(tok, pos);
      var u := ParseUnary(ts, p, op == Infix(Arrow));
      if u.Ok? {
        UnarySound(ts, p, op == Infix(Arrow));
        RoundSound(ts, start, pos, t, u);
        RestSound(ts, start, u.pos, Insert(t, op, u.value));
      }
    }
  }

  lemma {:induction false} RoundSound(ts: seq<Token>, start: nat, pos: nat, t: Expr, u: Parsed<Expr>)
    requires pos < |ts| && Reads(ts, start, Ok(t, pos), false) && IsOperator(ts[pos])
    requires var op, p := OperatorOf(ts[pos]), OperandAt(ts[pos], pos);
      u.Ok? && u == ParseUnary(ts, p, op == Infix(Arrow)) && Reads(ts, p, u, op == Infix(Arrow))
    ensures Reads(ts, start, Ok(Insert(t, OperatorOf(ts[pos]), u.value), u.pos), false)
  {
    var op, p := OperatorOf(ts[pos]), OperandAt(ts[pos], pos);
    SignRead(ts, pos);
    assert WellFormed(Insert(t, op, u.value), false) by {
      UnaryShape(ts, p, op == Infix(Arrow));
      InsertKeeps(t, op, u.value, false);
    }
    assert !u.value.Bin? by {
      UnaryShape(ts, p, op == Infix(Arrow));
    }
    InsertReads(t, op, u.value);
    Adjacent(ts, start, pos, p, u.pos);
  }

  lemma {:induction false} SignRead(ts: seq<Token>, pos: nat)
    requires pos < |ts| && IsOperator(ts[pos])
    ensures var op, p := OperatorOf(ts[pos]), OperandAt(ts[pos], pos);
      Sign(op) == ts[pos] && OpTokens(op) == ts[pos..p]
  {
    assert ts[pos..pos + 1] == [ts[pos]];
  }

  // ----- every well-formed tree is what its tokens parse to

  /** The right spine above the place where the parser is at work, from the root down. */
  type Spine = seq<(Operator, Expr)>

  function Plug(spine: Spine, t: Expr): (r: Expr) {
    if spine == [] then t else Bin(spine[0].0, spine[0].1, Plug(spine[1..], t))
  }

  predicate Looser(spine: Spine, op: Operator) {
    forall s :: s in spine ==> Precedence(s.0) < Precedence(op)
  }

  lemma {:induction false} PlugMore(spine: Spine, op: Operator, l: Expr, t: Expr)
    ensures Plug(spine + [(op, l)], t) == Plug(spine, Bin(op, l, t))
  {
    if spine == [] {
      assert (spine + [(op, l)])[1..] == [];
    } else {
      assert (spine + [(op, l)])[1..] == spine[1..] + [(op, l)];
      PlugMore(spine[1..], op, l, t);
    }
  }

  lemma {:induction false} InsertBelow(spine: Spine, t: Expr, op: Operator, u: Expr)
    requires Looser(spine, op)
    ensures Insert(Plug(spine, t), op, u) == Plug(spine, Insert(t, op, u))
  {
    if spine != [] {
      assert spine[0] in spine;
      InsertBelow(spine[1..], t, op, u);
    }
  }

  /** Are these the tokens of the tree, with nothing after them that continues it? */
  ghost predicate Stands(ts: seq<Token>, pos: nat, end: nat, t: Expr) {
    pos <= end <= |ts| && ts[pos..end] == Tokens(t) && Follows(t, At(ts, end))
  }

  /** Does the loop, below this spine, read the tree? */
  predicate IsRead(ts: seq<Token>, pos: nat, end: nat, t: Expr, arrow: bool, spine: Spine)
    requires end <= |ts|
  {
    ReadAs(ts, ParseUnary(ts, pos, arrow), end, t, spine)
  }

  /** With its first operand read, does the loop read the rest of the tree? */
  predicate ReadAs(ts: seq<Token>, first: Parsed<Expr>, end: nat, t: Expr, spine: Spine)
    requires end <= |ts|
  {
    && first.Ok? && first.pos <= |ts|
    && ParseRest(ts, first.pos, Plug(spine, first.value)) == ParseRest(ts, end, Plug(spine, t))
  }

  /** Every tree is read below every looser spine. */
  lemma {:induction false} TreeRead(ts: seq<Token>, pos: nat, end: nat, t: Expr, arrow: bool, spine: Spine)
    requires Stands(ts, pos, end, t) && WellFormed(t, arrow)
    requires t.Bin? ==> Looser(spine, t.op)
    ensures IsRead(ts, pos, end, t, arrow, spine)
    decreases t, 1
  {
    match t
    case Bin(_, _, _) => BinTreeRead(ts, pos, end, t, arrow, spine);
    case Paren(e) =>
      ParenParts(ts, pos, end, t);
      TreeRead(ts, pos + 1, end - 1, e, false, []);
      ParenRead(ts, pos, end, t, arrow, spine);
    case Group(_, _, _) => GroupTreeRead(ts, pos, end, t, arrow, spine);
    case _ => LeafRead(ts, pos, end, t, arrow, spine);
  }

  lemma {:induction false} GroupTreeRead(ts: seq<Token>, pos: nat, end: nat, t: Expr, arrow: bool, spine: Spine)
    requires Stands(ts, pos, end, t) && WellFormed(t, arrow) && t.Group?
    ensures IsRead(ts, pos, end, t, arrow, spine)
    decreases t, 0
  {
    var Group(open, items, tail) := t;
    var p := pos + |open|;
    Slices(ts, pos, open, ItemTokens(items), tail);
    assert ts[p..end] == ItemTokens(items) + tail by {
      assert ts[p..p + |ItemTokens(items)|] + ts[p + |ItemTokens(items)|..end] == ts[p..end];
    }
    ItemsRead(ts, p, end, GroupMode(open), items, tail);
    GroupRead(ts, pos, end, t, arrow);
  }

  lemma {:induction false} GroupRead(ts: seq<Token>, pos: nat, end: nat, t: Expr, arrow: bool)
    requires t.Group? && OpenOk(t.open) && pos + |t.open| <= end <= |ts| && ts[pos..pos + |t.open|] == t.open
    requires ParseItems(ts, pos + |t.open|, GroupMode(t.open)) == Ok((t.items, t.tail), end)
    requires t.open == [Token.Case] ==> At(ts, pos + 1) != When
    ensures ParseUnary(ts, pos, arrow) == Ok(t, end)
  {
    assert ts[pos] == ts[pos..pos + |t.open|][0];
    if |t.open| == 2 {
      assert ts[pos + 1] == ts[pos..pos + 2][1];
    }
    assert ParseGroup(ts, pos, |t.open|) == Ok(t, end);
  }

  /** Expressions of a group that stand in the tokens are read. */
  lemma {:induction false} ItemsRead(ts: seq<Token>, pos: nat, end: nat, m: Mode, items: seq<Item>, tail: seq<Token>)
    requires pos <= end <= |ts| && ts[pos..end] == ItemTokens(items) + tail && ItemsOk(m, items, tail)
    ensures ParseItems(ts, pos, m) == Ok((items, tail), end)
    ensures m.CaseValue? ==> At(ts, pos) != When
    decreases items, 2
  {
    if items == [] {
      TailRead(ts, pos, end, tail);
    } else {
      FirstAndMoreRead(ts, pos, end, m, items, tail);
    }
  }

  lemma {:induction false} FirstAndMoreRead(
    ts: seq<Token>, pos: nat, end: nat, m: Mode, items: seq<Item>, tail: seq<Token>)
    requires pos <= end <= |ts| && items != [] && ts[pos..end] == ItemTokens(items) + tail && ItemsOk(m, items, tail)
    ensures ParseItems(ts, pos, m) == Ok((items, tail), end) && At(ts, pos) != When
    decreases items, 1
  {
    var q := FirstItemRead(ts, pos, end, m, items, tail);
    MoreRead(ts, q, end, m, items, tail);
    ItemAndRest(ts, pos, q, end, m, items, tail);
  }

  /** Is what follows the first expression read? */
  predicate RestIsRead(ts: seq<Token>, q: nat, end: nat, m: Mode, items: seq<Item>, tail: seq<Token>)
    requires items != []
  {
    var after := items[0].after;
    if Ends(m, after) then |items| == 1 && tail == [] && end == q + 1
    else
      && GoesOn(m, IsBoolean(items[0].expr), after)
      && ParseItems(ts, q + 1, NextMode(m, after)) == Ok((items[1..], tail), end)
  }

  lemma {:induction false} MoreRead(
    ts: seq<Token>, q: nat, end: nat, m: Mode, items: seq<Item>, tail: seq<Token>)
    requires q < end <= |ts| && items != [] && ItemsOk(m, items, tail)
    requires ts[q + 1..end] == ItemTokens(items[1..]) + tail && (items[1..] == [] && tail == [] ==> q + 1 == end)
    ensures RestIsRead(ts, q, end, m, items, tail)
    decreases items, 0
  {
    MoreOk(m, items, tail);
    if !Ends(m, items[0].after) {
      ItemsRead(ts, q + 1, end, NextMode(m, items[0].after), items[1..], tail);
    }
  }

  lemma {:induction false} MoreOk(m: Mode, items: seq<Item>, tail: seq<Token>)
    requires items != [] && ItemsOk(m, items, tail)
    ensures var after := items[0].after;
      if Ends(m, after) then items[1..] == [] && tail == []
      else GoesOn(m, IsBoolean(items[0].expr), after) && ItemsOk(NextMode(m, after), items[1..], tail)
  {
  }

  lemma {:induction false} FirstItemRead(
    ts: seq<Token>, pos: nat, end: nat, m: Mode, items: seq<Item>, tail: seq<Token>) returns (q: nat)
    requires pos <= end <= |ts| && items != [] && ts[pos..end] == ItemTokens(items) + tail && ItemsOk(m, items, tail)
    ensures q < end && ts[q] == items[0].after && ts[q + 1..end] == ItemTokens(items[1..]) + tail
    ensures items[1..] == [] && tail == [] ==> q + 1 == end
    ensures ParseExpr(ts, pos) == Ok(items[0].expr, q)
    ensures At(ts, pos) != RParen && At(ts, pos) != Asterisk && At(ts, pos) != When
    decreases items, 0
  {
    var item := items[0];
    q := ItemParts(ts, pos, end, items, tail);
    SeparatorFollows(m, item);
    assert item.expr < item;
    TreeRead(ts, pos, q, item.expr, false, []);
    ItemRead(ts, pos, q, m, item);
  }

  lemma {:induction false} ItemAndRest(
    ts: seq<Token>, pos: nat, q: nat, end: nat, m: Mode, items: seq<Item>, tail: seq<Token>)
    requires items != [] && q < |ts| && ts[q] == items[0].after && ParseExpr(ts, pos) == Ok(items[0].expr, q)
    requires At(ts, pos) != RParen && At(ts, pos) != Asterisk && RestIsRead(ts, q, end, m, items, tail)
    ensures ParseItems(ts, pos, m) == Ok((items, tail), end)
  {
    ItemsStep(ts, pos, m);
    FirstAndRest(items, ParseItems(ts, q + 1, NextMode(m, items[0].after)), tail, end);
  }

  lemma {:induction false} FirstAndRest(
    items: seq<Item>, next: Parsed<(seq<Item>, seq<Token>)>, tail: seq<Token>, end: nat)
    requires items != []
    ensures |items| == 1 ==> items == [Item(items[0].expr, items[0].after)]
    ensures next == Ok((items[1..], tail), end) ==>
      Prepended([Item(items[0].expr, items[0].after)], next) == Ok((items, tail), end)
  {
    assert items == [items[0]] + items[1..];
  }

  lemma {:induction false} ItemParts(ts: seq<Token>, pos: nat, end: nat, items: seq<Item>, tail: seq<Token>)
    returns (q: nat)
    requires pos <= end <= |ts| && items != [] && ts[pos..end] == ItemTokens(items) + tail
    ensures pos <= q < end && ts[pos..q] == Tokens(items[0].expr) && ts[q] == items[0].after
    ensures ts[q + 1..end] == ItemTokens(items[1..]) + tail
    ensures items[1..] == [] && tail == [] ==> q + 1 == end
  {
    ItemTokensSplit(items, tail);
    q := Around(ts, pos, end, Tokens(items[0].expr), items[0].after, ItemTokens(items[1..]) + tail);
  }

  lemma {:induction false} ItemTokensSplit(items: seq<Item>, tail: seq<Token>)
    requires items != []
    ensures ItemTokens(items) + tail == Tokens(items[0].expr) + [items[0].after] + (ItemTokens(items[1..]) + tail)
    ensures items[1..] == [] && tail == [] ==> ItemTokens(items[1..]) + tail == []
  {
    assert items == [items[0]] + items[1..];
    ItemTokensOf(items[0], items[1..]);
    Regroup(Tokens(items[0].expr), [items[0].after], ItemTokens(items[1..]), tail);
  }

  lemma {:induction false} Around(ts: seq<Token>, pos: nat, end: nat, a: seq<Token>, x: Token, c: seq<Token>)
    returns (q: nat)
    requires pos <= end <= |ts| && ts[pos..end] == a + [x] + c
    ensures pos <= q < end && ts[pos..q] == a && ts[q] == x && ts[q + 1..end] == c && (c == [] ==> q + 1 == end)
  {
    q := pos + |a|;
    Slices(ts, pos, a, [x], c);
    assert ts[pos + |a|..pos + |a| + 1][0] == ts[pos + |a|];
  }

  lemma {:induction false} TailRead(ts: seq<Token>, pos: nat, end: nat, tail: seq<Token>)
    requires pos <= end <= |ts| && ts[pos..end] == [] + tail && (tail == [RParen] || tail == [Asterisk, RParen])
    ensures ParseItems(ts, pos, Argument) == Ok(([], tail), end)
  {
    assert ts[pos..end] == tail && ts[pos..end][0] == ts[pos];
    if |tail| == 2 {
      assert ts[pos..end][1] == ts[pos + 1];
    }
  }

  /** The token after an expression of a group does not continue it. */
  lemma {:induction false} SeparatorFollows(m: Mode, item: Item)
    requires Ends(m, item.after) || GoesOn(m, IsBoolean(item.expr), item.after)
    ensures Follows(item.expr, item.after) && !IsOperator(item.after)
  {
  }

  /** One expression of a group. */
  lemma {:induction false} ItemRead(ts: seq<Token>, pos: nat, q: nat, m: Mode, item: Item)
    requires q < |ts| && ts[q] == item.after && !IsOperator(item.after) && IsRead(ts, pos, q, item.expr, false, [])
    ensures ParseExpr(ts, pos) == Ok(item.expr, q)
    ensures At(ts, pos) != RParen && At(ts, pos) != Asterisk && At(ts, pos) != When
  {
  }

  lemma {:induction false} BinTreeRead(ts: seq<Token>, pos: nat, end: nat, t: Expr, arrow: bool, spine: Spine)
    requires Stands(ts, pos, end, t) && WellFormed(t, arrow) && t.Bin? && Looser(spine, t.op)
    ensures IsRead(ts, pos, end, t, arrow, spine)
    decreases t, 0
  {
    var m, p := Parts(ts, pos, end, t, arrow);
    SidesWellFormed(t, arrow, spine);
    TreeRead(ts, pos, m, t.lhs, arrow, spine);
    TreeRead(ts, p, end, t.rhs, t.op == Infix(Arrow), spine + [(t.op, t.lhs)]);
    BothRead(ts, pos, m, p, end, t, arrow, spine);
  }

  lemma {:induction false} SidesWellFormed(t: Expr, arrow: bool, spine: Spine)
    requires WellFormed(t, arrow) && t.Bin? && Looser(spine, t.op)
    ensures WellFormed(t.lhs, arrow) && WellFormed(t.rhs, t.op == Infix(Arrow))
    ensures t.lhs.Bin? ==> Looser(spine, t.lhs.op) && Precedence(t.lhs.op) >= Precedence(t.op)
    ensures t.rhs.Bin? ==> Looser(spine + [(t.op, t.lhs)], t.rhs.op)
  {
  }

  lemma {:induction false} BothRead(
    ts: seq<Token>, pos: nat, m: nat, p: nat, end: nat, t: Expr, arrow: bool, spine: Spine)
    requires t.Bin? && p == m + |OpTokens(t.op)| && Looser(spine, t.op)
    requires t.lhs.Bin? ==> Precedence(t.lhs.op) >= Precedence(t.op)
    requires m < |ts| && end <= |ts| && ts[m] == Sign(t.op) && IsRead(ts, pos, m, t.lhs, arrow, spine)
    requires IsRead(ts, p, end, t.rhs, t.op == Infix(Arrow), spine + [(t.op, t.lhs)])
    ensures IsRead(ts, pos, end, t, arrow, spine)
  {
    var u := ParseUnary(ts, p, t.op == Infix(Arrow));
    RoundRead(ts, m, spine, t.op, t.lhs);
    BinRead(ts, ParseUnary(ts, pos, arrow), u, m, end, t, spine, spine + [(t.op, t.lhs)]);
  }

  lemma {:induction false} ParenParts(ts: seq<Token>, pos: nat, end: nat, t: Expr)
    requires Stands(ts, pos, end, t) && t.Paren?
    ensures pos + 1 < end && Stands(ts, pos + 1, end - 1, t.expr) && ts[pos] == LParen && ts[end - 1] == RParen
  {
    Wrapped(ts, pos, end, LParen, Tokens(t.expr), RParen);
  }

  lemma {:induction false} ParenRead(ts: seq<Token>, pos: nat, end: nat, t: Expr, arrow: bool, spine: Spine)
    requires t.Paren? && pos + 1 < end <= |ts| && ts[pos] == LParen && ts[end - 1] == RParen
    requires IsRead(ts, pos + 1, end - 1, t.expr, false, [])
    ensures IsRead(ts, pos, end, t, arrow, spine)
  {
    assert ParseExpr(ts, pos + 1) == Ok(t.expr, end - 1);
    assert ParseUnary(ts, pos, arrow) == Ok(t, end);
  }

  lemma {:induction false} LeafRead(ts: seq<Token>, pos: nat, end: nat, t: Expr, arrow: bool, spine: Spine)
    requires Stands(ts, pos, end, t) && WellFormed(t, arrow) && !t.Bin? && !t.Paren? && !t.Group?
    ensures IsRead(ts, pos, end, t, arrow, spine)
  {
    match t
    case Lit(_) => TokenRead(ts, pos, end, t, arrow);
    case Neg(_) => TokenRead(ts, pos, end, t, arrow);
    case Field(path, sub) => FieldOperandRead(ts, pos, end, path, sub, arrow);
    case Bracket(inner) => BracketOperandRead(ts, pos, end, inner, arrow);
  }

  lemma {:induction false} TokenRead(ts: seq<Token>, pos: nat, end: nat, t: Expr, arrow: bool)
    requires Stands(ts, pos, end, t) && WellFormed(t, arrow) && (t.Lit? || t.Neg?)
    ensures ParseUnary(ts, pos, arrow) == Ok(t, end)
  {
    assert ts[pos..end][0] == ts[pos];
    if t.Neg? {
      assert ts[pos..end][1] == ts[pos + 1];
    }
  }

  lemma {:induction false} FieldOperandRead(
    ts: seq<Token>, pos: nat, end: nat, path: seq<Token>, sub: bool, arrow: bool)
    requires Stands(ts, pos, end, Field(path, sub)) && WellFormed(Field(path, sub), arrow)
    ensures ParseUnary(ts, pos, arrow) == Ok(Field(path, sub), end)
  {
    FieldRead(ts, pos, end);
  }

  lemma {:induction false} BracketOperandRead(ts: seq<Token>, pos: nat, end: nat, inner: seq<Token>, arrow: bool)
    requires Stands(ts, pos, end, Bracket(inner)) && InnerOk(inner)
    ensures ParseUnary(ts, pos, arrow) == Ok(Bracket(inner), end)
  {
    Wrapped(ts, pos, end, LBracket, inner, RBracket);
    BracketRead(ts, pos + 1, end - 1);
    assert BracketEnd(ts, pos + 1) == Ok((), end - 1);
  }

  lemma {:induction false} Parts(ts: seq<Token>, pos: nat, end: nat, t: Expr, arrow: bool)
    returns (m: nat, p: nat)
    requires Stands(ts, pos, end, t) && t.Bin? && WellFormed(t, arrow)
    ensures m < |ts| && ts[m] == Sign(t.op) && p == m + |OpTokens(t.op)|
    ensures Stands(ts, pos, m, t.lhs) && Stands(ts, p, end, t.rhs)
  {
    var l, s, r := Tokens(t.lhs), OpTokens(t.op), Tokens(t.rhs);
    m, p := pos + |l|, pos + |l| + |s|;
    Slices(ts, pos, l, s, r);
    if t.op == Subset {
      assert r[0] == LBracket && ts[m..m + |r|][0] == ts[m];
    } else {
      assert s[0] == Sign(t.op) && ts[m..m + |s|][0] == ts[m];
    }
  }

  /** One round of the outer loop: the operator and the first operand of its right-hand side go below the spine. */
  lemma {:induction false} RoundRead(ts: seq<Token>, m: nat, spine: Spine, op: Operator, l: Expr)
    requires Looser(spine, op) && (l.Bin? ==> Precedence(l.op) >= Precedence(op))
    requires m < |ts| && ts[m] == Sign(op) && ParseUnary(ts, m + |OpTokens(op)|, op == Infix(Arrow)).Ok?
    ensures var u := ParseUnary(ts, m + |OpTokens(op)|, op == Infix(Arrow));
      ParseRest(ts, m, Plug(spine, l)) == ParseRest(ts, u.pos, Plug(spine + [(op, l)], u.value))
  {
    var u := ParseUnary(ts, m + |OpTokens(op)|, op == Infix(Arrow));
    assert OperandAt(Sign(op), m) == m + |OpTokens(op)|;
    InsertBelow(spine, l, op, u.value);
    PlugMore(spine, op, l, u.value);
  }

  /** The left-hand side, one round, and the right-hand side below it. */
  lemma {:induction false} BinRead(
    ts: seq<Token>, l: Parsed<Expr>, r: Parsed<Expr>, m: nat, end: nat, t: Expr, spine: Spine, below: Spine)
    requires t.Bin? && m <= |ts| && end <= |ts| && below == spine + [(t.op, t.lhs)]
    requires ReadAs(ts, l, m, t.lhs, spine) && ReadAs(ts, r, end, t.rhs, below)
    requires ParseRest(ts, m, Plug(spine, t.lhs)) == ParseRest(ts, r.pos, Plug(below, r.value))
    ensures ReadAs(ts, l, end, t, spine)
  {
    PlugMore(spine, t.op, t.lhs, t.rhs);
    assert Plug(below, t.rhs) == Plug(spine, t);
  }

  // ----- main results

  /** ParseExpr returns a tree at a position exactly when the tree is well formed, reads as the tokens in between, and
      the next token cannot continue it. */
  lemma {:induction false} ParseExprExactly(ts: seq<Token>, pos: nat, t: Expr, end: nat)
    ensures ParseExpr(ts, pos) == Ok(t, end) <==>
      && pos <= end <= |ts| && ts[pos..end] == Tokens(t) && WellFormed(t, false)
      && Follows(t, At(ts, end)) && !IsOperator(At(ts, end))
  {
    ExprSound(ts, pos);
    if && pos <= end <= |ts| && ts[pos..end] == Tokens(t) && WellFormed(t, false)
       && Follows(t, At(ts, end)) && !IsOperator(At(ts, end)) {
      TreeRead(ts, pos, end, t, false, []);
    }
  }

  /** Parsing a tree's own tokens gives the tree back. */
  lemma {:induction false} RoundTrip(t: Expr)
    requires WellFormed(t, false)
    ensures ParseExpr(Tokens(t), 0) == Ok(t, |Tokens(t)|)
  {
    assert Tokens(t)[0..|Tokens(t)|] == Tokens(t);
    ParseExprExactly(Tokens(t), 0, t, |Tokens(t)|);
  }

  /** There is no second tree with the same reading. */
  lemma {:induction false} WellFormedTreeIsUnique(t: Expr, other: Expr)
    requires WellFormed(t, false) && WellFormed(other, false) && Tokens(t) == Tokens(other)
    ensures t == other
  {
    RoundTrip(t);
    RoundTrip(other);
  }

  // ----- which operator binds tighter

  /** The five levels of pkg/ast/token.go, from the loosest operators to the tightest. */
  function Levels(): (r: seq<set<Operator>>) {
    [{Infix(Or)},
     {Infix(And)},
     {Infix(Eq), Infix(Neq), Infix(Lt), Infix(Lte), Infix(Gt), Infix(Gte)},
     {Infix(Add), Infix(Sub), Infix(BitOr), Infix(BitXor)},
     {Mul, Infix(Div), Infix(Mod), Infix(BitAnd), Infix(Arrow), Subset}]
  }

  /** Is `op'` on a tighter level than `op`? */
  predicate Tighter(op: Operator, op': Operator) {
    exists i, j :: 0 <= i < j < |Levels()| && op in Levels()[i] && op' in Levels()[j]
  }

  /** An operator with a name after it, as it is written; after `[` the name is an index. */
  function Written(op: Operator, name: string): (ts: seq<Token>) {
    if op == Subset then [LBracket, Integer(name), RBracket]
    else if op == Mul then [Asterisk, Ident(name)] else [Op(op.symbol), Ident(name)]
  }

  /** What such a name is read as. */
  function Named(op: Operator, name: string): (t: Expr) {
    if op == Subset then Bracket([Integer(name)]) else Field([Ident(name)], op == Infix(Arrow))
  }

  /** Every operator is on one level only. */
  lemma LevelsApart(op: Operator)
    ensures exists i :: 0 <= i < 5 && op in Levels()[i]
    ensures forall i, j :: 0 <= i < j < 5 ==> !(op in Levels()[i] && op in Levels()[j])
  {
    assert op in Levels()[Precedence(op) - 1];
  }

  lemma TighterIs(op: Operator, op': Operator)
    ensures Tighter(op, op') <==> Precedence(op) < Precedence(op')
  {
    LevelsApart(op);
    LevelsApart(op');
    assert op in Levels()[Precedence(op) - 1] && op' in Levels()[Precedence(op') - 1];
  }

  /** `a op b op' c`: the operator on the tighter level takes its operands first, on the same level the left one. */
  lemma TwoOperators(a: string, op: Operator, b: string, op': Operator, c: string)
    ensures var ts := [Ident(a)] + Written(op, b) + Written(op', c);
      var x, y, z := Field([Ident(a)], false), Named(op, b), Named(op', c);
      ParseExpr(ts, 0) == Ok(if Tighter(op, op') then Bin(op, x, Bin(op', y, z)) else Bin(op', Bin(op, x, y), z), |ts|)
  {
    var x, y, z := Field([Ident(a)], false), Named(op, b), Named(op', c);
    TighterIs(op, op');
    NamedIs(op, b);
    NamedIs(op', c);
    if Tighter(op, op') {
      RightFirst(op, op', x, y, z);
      RoundTrip(Bin(op, x, Bin(op', y, z)));
    } else {
      LeftFirst(op, op', x, y, z);
      RoundTrip(Bin(op', Bin(op, x, y), z));
    }
  }

  /** Operands that a looser or equal operator to the right leaves alone. */
  ghost predicate Fit(op: Operator, op': Operator, x: Expr, y: Expr, z: Expr) {
    && WellFormed(x, false) && WellFormed(y, op == Infix(Arrow)) && WellFormed(z, op' == Infix(Arrow))
    && !x.Bin? && !y.Bin? && !z.Bin? && (op == Subset ==> y.Bracket?) && (op' == Subset ==> z.Bracket?)
    && Follows(x, Sign(op)) && Follows(y, Sign(op'))
  }

  lemma RightFirst(op: Operator, op': Operator, x: Expr, y: Expr, z: Expr)
    requires Fit(op, op', x, y, z) && Precedence(op) < Precedence(op')
    ensures var t := Bin(op, x, Bin(op', y, z));
      WellFormed(t, false) && Tokens(t) == Tokens(x) + (OpTokens(op) + Tokens(y)) + (OpTokens(op') + Tokens(z))
  {
    assert WellFormed(Bin(op', y, z), op == Infix(Arrow));
    Flat(Tokens(x), OpTokens(op), Tokens(y), OpTokens(op'), Tokens(z));
  }

  lemma LeftFirst(op: Operator, op': Operator, x: Expr, y: Expr, z: Expr)
    requires Fit(op, op', x, y, z) && Precedence(op) >= Precedence(op')
    ensures var t := Bin(op', Bin(op, x, y), z);
      WellFormed(t, false) && Tokens(t) == Tokens(x) + (OpTokens(op) + Tokens(y)) + (OpTokens(op') + Tokens(z))
  {
    assert WellFormed(Bin(op, x, y), false);
    Flat(Tokens(x), OpTokens(op), Tokens(y), OpTokens(op'), Tokens(z));
  }

  lemma NamedIs(op: Operator, name: string)
    ensures Written(op, name) == OpTokens(op) + Tokens(Named(op, name))
    ensures WellFormed(Named(op, name), op == Infix(Arrow)) && !Named(op, name).Bin?
    ensures op == Subset ==> Named(op, name).Bracket?
  {
    if op == Subset {
      assert IsIndex([Integer(name)]);
    }
  }
}
