/** The expression parser of internal/xsql/parser.go as it runs: tokens come from the push-back ring, and a new operator
    is spliced into the tree by overwriting the right-hand side of a node. */
module ExpressionParser {
  import opened Sequences
  import opened TokenRing
  import opened Expressions

  /** A pointer to an expression. */
  datatype Link =
    | Operand(expr: Expr)
    | InParens(inner: Link)
    | InGroup(open: seq<Token>, items: seq<LinkItem>, tail: seq<Token>)
    | Binary(node: Node)

  datatype LinkItem = LinkItem(link: Link, after: Token)

  class Node {
    var op: Operator
    var lhs: Link
    var rhs: Link

    constructor (op: Operator, lhs: Link, rhs: Link)
      ensures this.op == op && this.lhs == lhs && this.rhs == rhs
    {
      this.op, this.lhs, this.rhs := op, lhs, rhs;
    }
  }

  /** An expression together with the nodes that hold it. */
  datatype Shape =
    | Atom(expr: Expr)
    | Parens(inner: Shape)
    | Groups(open: seq<Token>, items: seq<ShapeItem>, tail: seq<Token>)
    | Tree(node: Node, op: Operator, l: Shape, r: Shape)

  datatype ShapeItem = ShapeItem(shape: Shape, after: Token)

  ghost function Value(s: Shape): (t: Expr)
    decreases s
  {
    match s
    case Atom(e) => e
    case Parens(i) => Paren(Value(i))
    case Groups(open, items, tail) => Group(open, ItemValues(items), tail)
    case Tree(_, op, l, r) => Bin(op, Value(l), Value(r))
  }

  ghost function ItemValues(items: seq<ShapeItem>): (r: seq<Item>)
    decreases items
  {
    if items == [] then []
    else
      var item := items[|items| - 1];
      assert item.shape < item;
      ItemValues(items[..|items| - 1]) + [Item(Value(item.shape), item.after)]
  }

  ghost function Nodes(s: Shape): (ns: set<Node>)
    decreases s
  {
    match s
    case Atom(_) => {}
    case Parens(i) => Nodes(i)
    case Groups(_, items, _) => ItemNodes(items)
    case Tree(n, _, l, r) => {n} + Nodes(l) + Nodes(r)
  }

  ghost function ItemNodes(items: seq<ShapeItem>): (ns: set<Node>)
    decreases items
  {
    if items == [] then {}
    else
      var item := items[|items| - 1];
      assert item.shape < item;
      ItemNodes(items[..|items| - 1]) + Nodes(item.shape)
  }

  lemma {:induction false} NodesExist(s: Shape)
    ensures forall n :: n in Nodes(s) ==> allocated(n)
    decreases s
  {
    match s
    case Atom(_) =>
    case Parens(i) => NodesExist(i);
    case Groups(_, items, _) => ItemNodesExist(items);
    case Tree(_, _, l, r) =>
      NodesExist(l);
      NodesExist(r);
  }

  lemma {:induction false} ItemNodesExist(items: seq<ShapeItem>)
    ensures forall n :: n in ItemNodes(items) ==> allocated(n)
    decreases items
  {
    if items != [] {
      var item := items[|items| - 1];
      assert item.shape < item;
      NodesExist(item.shape);
      ItemNodesExist(items[..|items| - 1]);
    }
  }

  /** Is this what the pointer leads to? */
  ghost predicate Shows(x: Link, s: Shape)
    reads Nodes(s)
    decreases s
  {
    match s
    case Atom(e) => x == Operand(e) && !e.Bin?
    case Parens(i) => x.InParens? && Shows(x.inner, i)
    case Groups(open, items, tail) => x.InGroup? && x.open == open && x.tail == tail && ShowsItems(x.items, items)
    case Tree(n, op, l, r) => x == Binary(n) && n.op == op && Shows(n.lhs, l) && Shows(n.rhs, r)
  }

  ghost predicate ShowsItems(xs: seq<LinkItem>, items: seq<ShapeItem>)
    reads ItemNodes(items)
    decreases items
  {
    && |xs| == |items|
    && (items != [] ==>
          var n := |items| - 1;
          var item := items[n];
          assert item.shape < item;
          && ShowsItems(xs[..n], items[..n])
          && xs[n].after == item.after && Shows(xs[n].link, item.shape))
  }

  /** Is no node of the tree reached twice? */
  ghost predicate Distinct(s: Shape)
    decreases s
  {
    match s
    case Atom(_) => true
    case Parens(i) => Distinct(i)
    case Groups(_, items, _) => DistinctItems(items)
    case Tree(n, _, l, r) =>
      Distinct(l) && Distinct(r) && n !in Nodes(l) && n !in Nodes(r) && Nodes(l) !! Nodes(r)
  }

  /** Nor shared by two expressions of a group? */
  ghost predicate DistinctItems(items: seq<ShapeItem>)
    decreases items
  {
    items != [] ==>
      var n := |items| - 1;
      var item := items[n];
      assert item.shape < item;
      DistinctItems(items[..n]) && Distinct(item.shape) && ItemNodes(items[..n]) !! Nodes(item.shape)
  }

  // ----- the nodes the inner loop has passed, from the root down

  type Passed = seq<(Node, Operator, Shape)>

  ghost function Under(passed: Passed, s: Shape): (r: Shape) {
    if passed == [] then s else Tree(passed[0].0, passed[0].1, passed[0].2, Under(passed[1..], s))
  }

  ghost function Bottom(root: Node, passed: Passed): (n: Node) {
    if passed == [] then root else Bottom(passed[0].0, passed[1..])
  }

  /** The nodes above the bottom one. */
  ghost function Above(root: Node, passed: Passed): (ns: set<Node>) {
    if passed == [] then {} else {root} + Above(passed[0].0, passed[1..])
  }

  ghost function Own(passed: Passed): (ns: set<Node>) {
    if passed == [] then {} else {passed[0].0} + Own(passed[1..])
  }

  /** The nodes hanging to the left. */
  ghost function Left(passed: Passed): (ns: set<Node>) {
    if passed == [] then {} else Nodes(passed[0].2) + Left(passed[1..])
  }

  /** Is this the way down from the root? What hangs below the bottom node is left open. */
  ghost predicate Leads(root: Node, passed: Passed)
    reads Above(root, passed)`rhs, Own(passed)`op, Own(passed)`lhs, Left(passed)
    decreases |passed|
  {
    passed == [] ||
    var (n, op, l) := passed[0];
    root.rhs == Binary(n) && n.op == op && Shows(n.lhs, l) && Leads(n, passed[1..])
  }

  ghost predicate AllLooser(passed: Passed, op: Operator) {
    forall p :: p in passed ==> Precedence(p.1) < Precedence(op)
  }

  lemma {:induction false} OneMore(root: Node, passed: Passed, one: (Node, Operator, Shape), s: Shape)
    requires Leads(root, passed)
    requires var b := Bottom(root, passed);
      b.rhs == Binary(one.0) && one.0.op == one.1 && Shows(one.0.lhs, one.2)
    ensures Leads(root, passed + [one]) && Bottom(root, passed + [one]) == one.0
    ensures Under(passed + [one], s) == Under(passed, Tree(one.0, one.1, one.2, s))
    decreases |passed|
  {
    if passed == [] {
      assert (passed + [one])[1..] == [];
    } else {
      assert (passed + [one])[1..] == passed[1..] + [one];
      OneMore(passed[0].0, passed[1..], one, s);
    }
  }

  /** Nothing the way down depends on is changed by writing below the bottom node. */
  lemma {:induction false} BottomApart(root: Node, passed: Passed, s: Shape)
    requires Distinct(Under(passed, s)) && root !in Nodes(Under(passed, s))
    ensures Bottom(root, passed) !in Above(root, passed) + Left(passed) + Nodes(s)
    ensures Above(root, passed) + Left(passed) + {Bottom(root, passed)} <= Nodes(Under(passed, s)) + {root}
    ensures Own(passed) <= Nodes(Under(passed, s))
    ensures passed != [] ==> Bottom(root, passed) in Nodes(Under(passed, s))
    ensures Nodes(s) <= Nodes(Under(passed, s)) && Distinct(s)
    decreases |passed|
  {
    if passed != [] {
      BottomApart(passed[0].0, passed[1..], s);
    }
  }

  lemma {:induction false} ShowsUnder(root: Node, passed: Passed, s: Shape)
    requires Leads(root, passed) && Shows(Bottom(root, passed).rhs, s)
    ensures Shows(root.rhs, Under(passed, s))
    decreases |passed|
  {
    if passed != [] {
      ShowsUnder(passed[0].0, passed[1..], s);
    }
  }

  /** What hangs at the bottom can be replaced by something larger made of other nodes. */
  lemma {:induction false} DistinctUnder(passed: Passed, was: Shape, now: Shape)
    requires Distinct(Under(passed, was)) && Distinct(now)
    requires (Nodes(now) - Nodes(was)) !! Nodes(Under(passed, was))
    ensures Distinct(Under(passed, now)) && Nodes(Under(passed, now)) <= Nodes(Under(passed, was)) + Nodes(now)
    decreases |passed|
  {
    if passed != [] {
      DistinctUnder(passed[1..], was, now);
      UnderHolds(passed[1..], was);
    }
  }

  lemma {:induction false} UnderHolds(passed: Passed, s: Shape)
    ensures Nodes(s) <= Nodes(Under(passed, s))
    decreases |passed|
  {
    if passed != [] {
      UnderHolds(passed[1..], s);
    }
  }

  lemma {:induction false} SplicedValue(passed: Passed, n: Node, s: Shape, op: Operator, u: Shape)
    requires AllLooser(passed, op)
    requires Value(s).Bin? ==> Precedence(Value(s).op) >= Precedence(op)
    ensures Value(Under(passed, Tree(n, op, s, u))) == Insert(Value(Under(passed, s)), op, Value(u))
    decreases |passed|
  {
    if passed != [] {
      assert passed[0] in passed;
      SplicedValue(passed[1..], n, s, op, u);
    }
  }

  /** Where the inner loop of ParseExpr stops: the node whose right-hand side the operator takes over. */
  method Place(root: Node, op: Operator, ghost s: Shape) returns (node: Node, ghost passed: Passed, ghost cur: Shape)
    requires Shows(root.rhs, s)
    ensures Leads(root, passed) && AllLooser(passed, op)
    ensures Under(passed, cur) == s && Bottom(root, passed) == node && Shows(node.rhs, cur)
    ensures Value(cur).Bin? ==> Precedence(Value(cur).op) >= Precedence(op)
  {
    node := root;
    passed, cur := [], s;
    while node.rhs.Binary? && Precedence(node.rhs.node.op) < Precedence(op)
      invariant Leads(root, passed) && AllLooser(passed, op)
      invariant Under(passed, cur) == s && Bottom(root, passed) == node && Shows(node.rhs, cur)
      decreases cur
    {
      ghost var one := (cur.node, cur.op, cur.l);
      OneMore(root, passed, one, cur.r);
      passed, cur, node := passed + [one], cur.r, node.rhs.node;
    }
  }

  /** The assignment: a new node between the bottom one and what hung there. */
  method Hang(root: Node, op: Operator, rhs: Link, node: Node, ghost passed: Passed, ghost cur: Shape, ghost u: Shape)
    returns (n: Node)
    requires Leads(root, passed) && Bottom(root, passed) == node && Shows(node.rhs, cur) && Shows(rhs, u)
    requires node !in Above(root, passed) + Left(passed) + Nodes(cur) + Nodes(u)
    requires forall k :: k in Above(root, passed) ==> allocated(k)
    requires forall k :: k in Own(passed) ==> allocated(k)
    requires forall k :: k in Left(passed) ==> allocated(k)
    requires forall k :: k in Nodes(cur) ==> allocated(k)
    requires forall k :: k in Nodes(u) ==> allocated(k)
    modifies node`rhs
    ensures fresh(n) && Leads(root, passed) && Shows(node.rhs, Tree(n, op, cur, u))
  {
    ghost var below := node.rhs;
    n := new Node(op, node.rhs, rhs);
    assert Leads(root, passed) && Shows(below, cur) && Shows(rhs, u);
    node.rhs := Binary(n);
    assert Leads(root, passed) && Shows(below, cur) && Shows(rhs, u);
  }

  /** The inner loop of ParseExpr. */
  method Splice(root: Node, op: Operator, rhs: Link, ghost s: Shape, ghost u: Shape) returns (ghost t: Shape)
    requires Shows(root.rhs, s) && Distinct(s) && root !in Nodes(s)
    requires Shows(rhs, u) && Distinct(u) && Nodes(u) !! Nodes(s) + {root}
    modifies Nodes(s), root
    ensures Shows(root.rhs, t) && Distinct(t) && root !in Nodes(t)
    ensures Value(t) == Insert(Value(s), op, Value(u))
    ensures forall k :: k in Nodes(t) ==> k in Nodes(s) || k in Nodes(u) || fresh(k)
  {
    NodesExist(s);
    NodesExist(u);
    var node, passed, cur := Place(root, op, s);
    BottomApart(root, passed, cur);
    var n := Hang(root, op, rhs, node, passed, cur, u);
    t := Under(passed, Tree(n, op, cur, u));
    ShowsUnder(root, passed, Tree(n, op, cur, u));
    DistinctUnder(passed, cur, Tree(n, op, cur, u));
    SplicedValue(passed, n, cur, op, u);
  }

  // ----- operands

  /** parseFieldNameSections: the tokens of the name, and the number of its sections. */
  method ParseFieldNameSections(p: Parser) returns (path: seq<Token>, names: nat)
    requires p.Valid() && p.cursor <= |p.tokens| && p.n <= 2 && IsName(At(p.tokens, p.cursor))
    modifies p, p.buf
    ensures p.Valid() && p.buf == old(p.buf) && p.n <= 1
    ensures (p.cursor, names) == FieldEnd(p.tokens, old(p.cursor), 0)
    ensures p.cursor <= |p.tokens| && path == p.tokens[old(p.cursor)..p.cursor]
  {
    ghost var ts, start := p.tokens, p.cursor;
    path, names := [], 0;
    var more := true;
    while more
      invariant p.Valid() && p.buf == old(p.buf) && start <= p.cursor <= |ts|
      invariant path == ts[start..p.cursor] && p.n <= 2 && (path != [] ==> p.n <= 1)
      invariant path == [] ==> more
      invariant FieldEnd(ts, start, 0) == if more then FieldEnd(ts, p.cursor, names) else (p.cursor, names)
      decreases |ts| - p.cursor, more
    {
      ghost var was := p.cursor;
      var section;
      section, more := ParseSection(p);
      SliceJoin(ts, start, was, p.cursor);
      path, names := path + section, names + if section == [] then 0 else 1;
    }
  }

  /** One round: a name, and the dot after it. */
  method ParseSection(p: Parser) returns (section: seq<Token>, more: bool)
    requires p.Valid() && p.cursor <= |p.tokens| && p.n <= 2
    modifies p, p.buf
    ensures p.Valid() && p.buf == old(p.buf) && old(p.cursor) <= p.cursor <= |p.tokens|
    ensures p.n <= if section == [] && old(p.n) == 2 then 2 else 1
    ensures section == p.tokens[old(p.cursor)..p.cursor]
    ensures section == [] <==> !IsName(At(p.tokens, old(p.cursor)))
    ensures |section| <= 2 && (more <==> |section| == 2)
    ensures more <==> IsName(At(p.tokens, old(p.cursor))) && At(p.tokens, old(p.cursor) + 1) == Dot
  {
    var tok := p.ScanIgnoreWhitespace();
    if !IsName(tok) {
      p.Unscan();
      return [], false;
    }
    var tok1 := p.ScanIgnoreWhitespace();
    if tok1 != Dot {
      p.Unscan();
      return [tok], false;
    }
    return [tok, tok1], true;
  }

  /** A token, and with a minus sign the integer after it: scanIgnoreWhiteSpaceWithNegativeNum between brackets. */
  method ScanIndex(p: Parser) returns (isIndex: bool, toks: seq<Token>)
    requires p.Valid() && p.n <= 1
    modifies p, p.buf
    ensures p.Valid() && p.buf == old(p.buf) && p.n == 0
    ensures isIndex == (IndexLength(p.tokens, old(p.cursor)) > 0) && |toks| >= 1
    ensures toks[0] == At(p.tokens, old(p.cursor))
    ensures isIndex ==> old(p.cursor) <= p.cursor <= |p.tokens| && toks == p.tokens[old(p.cursor)..p.cursor]
    ensures isIndex ==> p.cursor == old(p.cursor) + IndexLength(p.tokens, old(p.cursor))
    ensures !isIndex && toks[0] != Op(Sub) ==> p.cursor == old(p.cursor) + 1
  {
    var tok := p.ScanIgnoreWhitespace();
    if tok != Op(Sub) {
      return tok.Integer?, [tok];
    }
    var number := p.ScanNumber();
    return number.Integer?, [tok, number];
  }

  /** What parseColonExpr and parseBracketExpr return: the tokens up to the closing bracket. */
  ghost predicate UpTo(p: Parser, start: nat, ok: bool, inner: seq<Token>, r: Parsed<()>)
    reads p
  {
    && ok == r.Ok?
    && (ok ==> p.cursor == r.pos + 1 && start <= r.pos < |p.tokens| && inner == p.tokens[start..r.pos])
  }

  method ParseColonExpr(p: Parser) returns (ok: bool, inner: seq<Token>)
    requires p.Valid() && p.n <= 1
    modifies p, p.buf
    ensures p.Valid() && p.buf == old(p.buf) && p.n == 0
    ensures UpTo(p, old(p.cursor), ok, inner, ColonEnd(p.tokens, old(p.cursor)))
  {
    var isIndex, toks := ScanIndex(p);
    if !isIndex {
      return toks[0] == RBracket, [];
    }
    var tok1 := p.ScanIgnoreWhitespace();
    return tok1 == RBracket, toks;
  }

  method ParseBracketExpr(p: Parser) returns (ok: bool, inner: seq<Token>)
    requires p.Valid() && p.n <= 1
    modifies p, p.buf
    ensures p.Valid() && p.buf == old(p.buf) && p.n == 0
    ensures UpTo(p, old(p.cursor), ok, inner, BracketEnd(p.tokens, old(p.cursor)))
  {
    ghost var start := p.cursor;
    var isIndex, toks := ScanIndex(p);
    if isIndex {
      ok, inner := ParseAfterIndex(p, start, toks);
    } else {
      ok, inner := ParseIndexEnd(p, toks[0]);
    }
  }

  method ParseAfterIndex(p: Parser, ghost start: nat, toks: seq<Token>) returns (ok: bool, inner: seq<Token>)
    requires p.Valid() && p.n == 0 && start <= p.cursor <= |p.tokens| && toks == p.tokens[start..p.cursor]
    modifies p, p.buf
    ensures p.Valid() && p.buf == old(p.buf) && p.n == 0
    ensures UpTo(p, start, ok, inner, IndexEnd(p.tokens, old(p.cursor)))
  {
    ghost var q := p.cursor;
    var tok3 := p.ScanIgnoreWhitespace();
    ok, inner := ParseIndexEnd(p, tok3);
    if ok {
      SliceJoin(p.tokens, start, q, p.cursor - 1);
      inner := toks + inner;
    }
  }

  /** The branches on the token after the first index. */
  method ParseIndexEnd(p: Parser, tok: Token) returns (ok: bool, inner: seq<Token>)
    requires p.Valid() && p.n == 0
    requires tok == RBracket || tok == Colon ==> p.cursor > 0 && tok == At(p.tokens, p.cursor - 1)
    modifies p, p.buf
    ensures p.Valid() && p.buf == old(p.buf) && p.n == 0
    ensures ok ==> old(p.cursor) > 0
    ensures if tok == RBracket || tok == Colon
            then UpTo(p, old(p.cursor) - 1, ok, inner, IndexEnd(p.tokens, old(p.cursor) - 1)) else !ok
  {
    if tok != Colon {
      return tok == RBracket, [];
    }
    ghost var q := p.cursor;
    ok, inner := ParseColonExpr(p);
    if ok {
      SliceJoin(p.tokens, q - 1, q, p.cursor - 1);
      assert p.tokens[q - 1..q] == [tok];
      inner := [tok] + inner;
    }
  }

  // ----- the parser against the functions on values

  /** Does the pointer show what the function on values returns, and is the cursor where it says? */
  ghost predicate Agrees(p: Parser, ok: bool, x: Link, s: Shape, r: Parsed<Expr>)
    reads p, Nodes(s)
  {
    ok == r.Ok? && (ok ==> Shows(x, s) && Distinct(s) && Value(s) == r.value && p.cursor == r.pos)
  }

  method ParseUnaryExpr(p: Parser, sub: bool) returns (ok: bool, x: Link, ghost s: Shape)
    requires p.Valid() && p.n <= 1
    modifies p, p.buf
    ensures p.Valid() && p.buf == old(p.buf) && (ok ==> p.n <= 1)
    ensures Agrees(p, ok, x, s, ParseUnary(p.tokens, old(p.cursor), sub))
    ensures fresh(Nodes(s))
    decreases Remaining(p.tokens, p.cursor), 0, 1
  {
    var tok1 := p.ScanIgnoreWhitespace();
    if tok1 == LParen {
      ok, x, s := ParseParenExpr(p, sub);
      return;
    } else if tok1 == LBracket {
      ok, x, s := ParseBracketOperand(p, sub);
      return;
    }
    p.Unscan();
    ok, x, s := ParseOperand(p, sub);
  }

  /** The branch of parseUnaryExpr after an opening bracket. */
  method ParseBracketOperand(p: Parser, ghost sub: bool) returns (ok: bool, x: Link, ghost s: Shape)
    requires p.Valid() && p.n <= 1 && p.cursor > 0 && At(p.tokens, p.cursor - 1) == LBracket
    modifies p, p.buf
    ensures p.Valid() && p.buf == old(p.buf) && (ok ==> p.n <= 1)
    ensures Agrees(p, ok, x, s, ParseUnary(p.tokens, old(p.cursor) - 1, sub))
    ensures Nodes(s) == {}
  {
    BracketIsOperand(p.tokens, p.cursor - 1, sub);
    var inner;
    ok, inner := ParseBracketExpr(p);
    x, s := Operand(Bracket(inner)), Atom(Bracket(inner));
  }

  lemma {:induction false} BracketIsOperand(ts: seq<Token>, pos: nat, sub: bool)
    requires At(ts, pos) == LBracket
    ensures var b := BracketEnd(ts, pos + 1);
      ParseUnary(ts, pos, sub) == if b.Err? then Err else Ok(Bracket(ts[pos + 1..b.pos]), b.pos + 1)
  {
  }

  /** The branches of parseUnaryExpr after neither a parenthesis nor a bracket. */
  method ParseOperand(p: Parser, sub: bool) returns (ok: bool, x: Link, ghost s: Shape)
    requires p.Valid() && p.n <= 1 && At(p.tokens, p.cursor) != LParen && At(p.tokens, p.cursor) != LBracket
    modifies p, p.buf
    ensures p.Valid() && p.buf == old(p.buf) && (ok ==> p.n <= 1)
    ensures Agrees(p, ok, x, s, ParseUnary(p.tokens, old(p.cursor), sub))
    ensures fresh(Nodes(s))
    decreases Remaining(p.tokens, p.cursor), 0, 0
  {
    var tok := p.ScanIgnoreWhitespace();
    if tok == Token.Case {
      ok, x, s := ParseCaseExpr(p, sub);
    } else if tok.Ident? {
      ok, x, s := ParseName(p, tok, sub);
    } else {
      var operand;
      ok, operand := ParseToken(p, tok, sub);
      x, s := Operand(operand), Atom(operand);
    }
  }

  /** The branches of parseUnaryExpr on literals, with the number after a minus sign. */
  method ParseToken(p: Parser, tok: Token, ghost sub: bool) returns (ok: bool, operand: Expr)
    requires p.Valid() && p.n == 0 && p.cursor > 0 && At(p.tokens, p.cursor - 1) == tok
    requires !tok.Ident? && tok != Token.Case && tok != LParen && tok != LBracket
    modifies p, p.buf
    ensures p.Valid() && p.buf == old(p.buf) && p.n == 0 && !operand.Bin?
    ensures ok == ParseUnary(p.tokens, old(p.cursor) - 1, sub).Ok?
    ensures ok ==> ParseUnary(p.tokens, old(p.cursor) - 1, sub) == Ok(operand, p.cursor)
  {
    if tok == Op(Sub) {
      var number := p.ScanNumber();
      return IsNumber(number), Neg(number);
    }
    return IsNumber(tok) || tok.Truth? || tok.Literal?, Lit(tok);
  }

  /** The branch of parseUnaryExpr after an opening parenthesis. */
  method ParseParenExpr(p: Parser, ghost sub: bool) returns (ok: bool, x: Link, ghost s: Shape)
    requires p.Valid() && p.n <= 1 && p.cursor > 0 && At(p.tokens, p.cursor - 1) == LParen
    modifies p, p.buf
    ensures p.Valid() && p.buf == old(p.buf) && (ok ==> p.n <= 1)
    ensures Agrees(p, ok, x, s, ParseUnary(p.tokens, old(p.cursor) - 1, sub))
    ensures fresh(Nodes(s))
    decreases Remaining(p.tokens, p.cursor), 3
  {
    ok, x, s := ParseExpression(p);
    if ok {
      NodesExist(s);
      var tok2 := p.ScanIgnoreWhitespace();
      ok, x, s := tok2 == RParen, InParens(x), Parens(s);
    }
  }

  /** The branch of parseUnaryExpr after a name: a call, or a field. */
  method ParseName(p: Parser, tok: Token, sub: bool) returns (ok: bool, x: Link, ghost s: Shape)
    requires p.Valid() && p.n == 0 && p.room > 0 && 0 < p.cursor <= |p.tokens|
    requires tok.Ident? && At(p.tokens, p.cursor - 1) == tok
    modifies p, p.buf
    ensures p.Valid() && p.buf == old(p.buf) && (ok ==> p.n <= 1)
    ensures Agrees(p, ok, x, s, ParseUnary(p.tokens, old(p.cursor) - 1, sub))
    ensures fresh(Nodes(s))
    decreases Remaining(p.tokens, p.cursor), 6
  {
    var call := StartsCall(p);
    if call {
      CallIsGroup(p.tokens, p.cursor - 2, sub);
      ok, x, s := ParseGroupAfter(p, [tok, LParen]);
    } else {
      ok, x, s := ParseFieldRef(p, sub);
    }
  }

  /** After a name: a parenthesis is read, anything else is pushed back, and so is the name. */
  method StartsCall(p: Parser) returns (call: bool)
    requires p.Valid() && p.n == 0 && p.room > 0 && 0 < p.cursor <= |p.tokens|
    modifies p, p.buf
    ensures p.Valid() && p.buf == old(p.buf)
    ensures call == (At(p.tokens, old(p.cursor)) == LParen)
    ensures if call then p.n == 0 && p.cursor == old(p.cursor) + 1 else p.n <= 2 && p.cursor == old(p.cursor) - 1
  {
    var tok := p.ScanIgnoreWhitespace();
    call := tok == LParen;
    if !call {
      p.Unscan();
      p.Unscan();
    }
  }

  lemma {:induction false} CallIsGroup(ts: seq<Token>, pos: nat, sub: bool)
    requires pos + 2 <= |ts| && At(ts, pos).Ident? && At(ts, pos + 1) == LParen
    ensures ts[pos..pos + 2] == [At(ts, pos), LParen]
    ensures ParseUnary(ts, pos, sub) == ParseGroup(ts, pos, 2)
  {
  }

  method ParseFieldRef(p: Parser, sub: bool) returns (ok: bool, x: Link, ghost s: Shape)
    requires p.Valid() && p.n <= 2 && At(p.tokens, p.cursor).Ident? && At(p.tokens, p.cursor + 1) != LParen
    modifies p, p.buf
    ensures p.Valid() && p.buf == old(p.buf) && p.n <= 1
    ensures Agrees(p, ok, x, s, ParseUnary(p.tokens, old(p.cursor), sub))
    ensures Nodes(s) == {}
  {
    var path, names := ParseFieldNameSections(p);
    var field := Field(path, sub && names == 1);
    ok, x, s := names <= 2, Operand(field), Atom(field);
    FieldRefIs(p.tokens, old(p.cursor), sub, p.cursor, names);
  }

  lemma {:induction false} FieldRefIs(ts: seq<Token>, pos: nat, sub: bool, end: nat, names: nat)
    requires At(ts, pos).Ident? && At(ts, pos + 1) != LParen && FieldEnd(ts, pos, 0) == (end, names)
    ensures pos <= end <= |ts|
    ensures ParseUnary(ts, pos, sub) == if names > 2 then Err else Ok(Field(ts[pos..end], sub && names == 1), end)
  {
  }

  /** parseCaseExpr: a WHEN right after CASE means that there is no value. */
  method ParseCaseExpr(p: Parser, ghost sub: bool) returns (ok: bool, x: Link, ghost s: Shape)
    requires p.Valid() && p.n == 0 && 0 < p.cursor <= |p.tokens| && At(p.tokens, p.cursor - 1) == Token.Case
    modifies p, p.buf
    ensures p.Valid() && p.buf == old(p.buf) && (ok ==> p.n <= 1)
    ensures Agrees(p, ok, x, s, ParseUnary(p.tokens, old(p.cursor) - 1, sub))
    ensures fresh(Nodes(s))
    decreases Remaining(p.tokens, p.cursor), 6
  {
    var when := StartsWhen(p);
    var open := if when then [Token.Case, When] else [Token.Case];
    CaseIsGroup(p.tokens, p.cursor - |open|, open, sub);
    ok, x, s := ParseGroupAfter(p, open);
  }

  /** After CASE: a WHEN is read, anything else is pushed back. */
  method StartsWhen(p: Parser) returns (when: bool)
    requires p.Valid() && p.n == 0 && 0 < p.cursor <= |p.tokens|
    modifies p, p.buf
    ensures p.Valid() && p.buf == old(p.buf) && p.n <= 1
    ensures when == (At(p.tokens, old(p.cursor)) == When)
    ensures p.cursor == old(p.cursor) + if when then 1 else 0
  {
    var tok := p.ScanIgnoreWhitespace();
    when := tok == When;
    if !when {
      p.Unscan();
    }
  }

  lemma {:induction false} CaseIsGroup(ts: seq<Token>, pos: nat, open: seq<Token>, sub: bool)
    requires pos < |ts| && At(ts, pos) == Token.Case
    requires open == if At(ts, pos + 1) == When then [Token.Case, When] else [Token.Case]
    ensures pos + |open| <= |ts| && ts[pos..pos + |open|] == open
    ensures ParseUnary(ts, pos, sub) == ParseGroup(ts, pos, |open|)
  {
  }

  /** parseCall and parseCaseExpr, the opening tokens having been read. */
  method ParseGroupAfter(p: Parser, open: seq<Token>) returns (ok: bool, x: Link, ghost s: Shape)
    requires p.Valid() && p.n <= 1 && 1 <= |open| <= p.cursor <= |p.tokens|
    requires p.tokens[p.cursor - |open|..p.cursor] == open
    modifies p, p.buf
    ensures p.Valid() && p.buf == old(p.buf) && (ok ==> p.n <= 1)
    ensures Agrees(p, ok, x, s, ParseGroup(p.tokens, old(p.cursor) - |open|, |open|))
    ensures fresh(Nodes(s))
    decreases Remaining(p.tokens, p.cursor), 5
  {
    var items, tail;
    ghost var shapes;
    ok, items, tail, shapes := ParseList(p, GroupMode(open));
    x, s := InGroup(open, items, tail), Groups(open, shapes, tail);
  }

  lemma {:induction false} PrependTwice(a: seq<Item>, b: seq<Item>, r: Parsed<(seq<Item>, seq<Token>)>)
    ensures Prepended(a, Prepended(b, r)) == Prepended(a + b, r) && Prepended([], r) == r
  {
    if r.Ok? {
      assert a + (b + r.value.0) == a + b + r.value.0 && [] + r.value.0 == r.value.0;
    }
  }

  /** The loops of parseCall and parseCaseExpr. */
  method ParseList(p: Parser, mode: Mode)
    returns (ok: bool, items: seq<LinkItem>, tail: seq<Token>, ghost shapes: seq<ShapeItem>)
    requires p.Valid() && p.n <= 1 && p.cursor <= |p.tokens|
    modifies p, p.buf
    ensures p.Valid() && p.buf == old(p.buf) && (ok ==> p.n <= 1)
    ensures ok == ParseItems(p.tokens, old(p.cursor), mode).Ok?
    ensures ok ==> ParseItems(p.tokens, old(p.cursor), mode) == Ok((ItemValues(shapes), tail), p.cursor)
    ensures ok ==> ShowsItems(items, shapes) && DistinctItems(shapes)
    ensures fresh(ItemNodes(shapes))
    decreases Remaining(p.tokens, p.cursor), 4, 0
  {
    ghost var r := ParseItems(p.tokens, p.cursor, mode);
    var m := mode;
    items, shapes, tail := [], [], [];
    var more := true;
    PrependTwice([], [], r);
    while more
      invariant p.Valid() && p.buf == old(p.buf) && p.n <= 1 && old(p.cursor) <= p.cursor <= |p.tokens|
      invariant fresh(ItemNodes(shapes)) && ShowsItems(items, shapes) && DistinctItems(shapes)
      invariant r == Round(p.tokens, p.cursor, m, more, ItemValues(shapes), tail)
      decreases more, |p.tokens| - p.cursor
    {
      var got;
      ghost var s;
      ok, more, m, got, tail, s := ParseRound(p, m, items, shapes, r);
      if !ok {
        return false, [], [], [];
      }
      items, shapes := items + got, shapes + s;
    }
    ok := true;
  }

  /** One round of the loop, after some expressions have been read. */
  method ParseRound(p: Parser, m: Mode, ghost before: seq<LinkItem>, ghost shown: seq<ShapeItem>,
                    ghost r: Parsed<(seq<Item>, seq<Token>)>)
    returns (ok: bool, more: bool, next: Mode, items: seq<LinkItem>, tail: seq<Token>, ghost shapes: seq<ShapeItem>)
    requires p.Valid() && p.n <= 1 && p.cursor <= |p.tokens| && ShowsItems(before, shown) && DistinctItems(shown)
    requires r == Prepended(ItemValues(shown), ParseItems(p.tokens, p.cursor, m))
    modifies p, p.buf
    ensures p.Valid() && p.buf == old(p.buf) && (ok ==> p.n == 0 && old(p.cursor) < p.cursor <= |p.tokens|)
    ensures !ok ==> r.Err?
    ensures ok ==> ShowsItems(before + items, shown + shapes) && DistinctItems(shown + shapes)
    ensures ok ==> r == Round(p.tokens, p.cursor, next, more, ItemValues(shown + shapes), tail)
    ensures fresh(ItemNodes(shapes)) && (ok ==> ItemNodes(shown + shapes) == ItemNodes(shown) + ItemNodes(shapes))
    decreases Remaining(p.tokens, p.cursor), 3, 2
  {
    ItemNodesExist(shown);
    ok, more, next, items, tail, shapes := ParseItem(p, m);
    if ok {
      ShowsConcat(before, shown, items, shapes);
      DistinctConcat(shown, shapes);
      RoundTwice(ItemValues(shown), ItemValues(shapes), p.tokens, p.cursor, next, more, tail);
    }
  }

  /** What a group is read as after some rounds: the expressions so far with what follows, or all of it. */
  ghost function Round(
    ts: seq<Token>, pos: nat, m: Mode, more: bool, items: seq<Item>, tail: seq<Token>
  ): (r: Parsed<(seq<Item>, seq<Token>)>) {
    if more then Prepended(items, ParseItems(ts, pos, m)) else Ok((items, tail), pos)
  }

  lemma {:induction false} RoundTwice(
    a: seq<Item>, b: seq<Item>, ts: seq<Token>, pos: nat, m: Mode, more: bool, tail: seq<Token>)
    ensures Prepended(a, Round(ts, pos, m, more, b, tail)) == Round(ts, pos, m, more, a + b, tail)
  {
    if more {
      PrependTwice(a, b, ParseItems(ts, pos, m));
    }
  }

  lemma {:induction false} ShowsConcat(
    xs: seq<LinkItem>, items: seq<ShapeItem>, xs': seq<LinkItem>, items': seq<ShapeItem>)
    requires ShowsItems(xs, items) && ShowsItems(xs', items') && |items'| <= 1
    ensures ItemNodes(items + items') == ItemNodes(items) + ItemNodes(items')
    ensures ItemValues(items + items') == ItemValues(items) + ItemValues(items')
    ensures ShowsItems(xs + xs', items + items')
  {
    if items' == [] {
      assert items + items' == items && xs + xs' == xs;
    } else {
      var n := |items|;
      assert (items + items')[..n] == items && (xs + xs')[..n] == xs && items'[..0] == [] && xs'[..0] == [];
    }
  }

  lemma {:induction false} DistinctConcat(items: seq<ShapeItem>, items': seq<ShapeItem>)
    requires DistinctItems(items) && DistinctItems(items') && |items'| <= 1 && ItemNodes(items) !! ItemNodes(items')
    ensures DistinctItems(items + items')
  {
    if items' == [] {
      assert items + items' == items;
    } else {
      assert (items + items')[..|items|] == items && items'[..0] == [];
    }
  }

  /** IsBooleanArg, on a pointer. */
  predicate IsBooleanLink(x: Link)
    reads if x.Binary? then {x.node} else {}
  {
    (x.Operand? && IsBoolean(x.expr)) || (x.Binary? && IsBooleanOp(x.node.op))
  }

  lemma {:induction false} BooleanShown(x: Link, s: Shape)
    requires Shows(x, s)
    ensures IsBooleanLink(x) == IsBoolean(Value(s))
  {
  }

  /** One round: the tokens that end a call, or an expression and the token after it. */
  method ParseItem(p: Parser, m: Mode)
    returns (ok: bool, more: bool, next: Mode, items: seq<LinkItem>, tail: seq<Token>, ghost shapes: seq<ShapeItem>)
    requires p.Valid() && p.n <= 1 && p.cursor <= |p.tokens|
    modifies p, p.buf
    ensures p.Valid() && p.buf == old(p.buf) && (ok ==> p.n == 0 && old(p.cursor) < p.cursor <= |p.tokens|)
    ensures fresh(ItemNodes(shapes)) && |shapes| <= 1 && (ok ==> ShowsItems(items, shapes) && DistinctItems(shapes))
    ensures ParseItems(p.tokens, old(p.cursor), m)
         == if ok then Round(p.tokens, p.cursor, next, more, ItemValues(shapes), tail) else Err
    decreases Remaining(p.tokens, p.cursor), 3, 1
  {
    if m.Argument? {
      ok, tail := ParseCallEnd(p);
      if tail != [] {
        more, next, items, shapes := false, m, [], [];
        return;
      }
    }
    var item;
    ghost var shape;
    ok, more, item, shape := ParseExprItem(p, m);
    next, items, tail, shapes := NextMode(m, item.after), [item], [], [shape];
    OneShown(item, shape);
  }

  lemma {:induction false} OneShown(item: LinkItem, shape: ShapeItem)
    ensures ItemNodes([shape]) == Nodes(shape.shape)
    ensures ItemValues([shape]) == [Item(Value(shape.shape), shape.after)]
    ensures item.after == shape.after && Shows(item.link, shape.shape) ==> ShowsItems([item], [shape])
    ensures Distinct(shape.shape) ==> DistinctItems([shape])
  {
    assert [shape][..0] == [] && [item][..0] == [];
    assert ItemNodes([]) == {} && ItemValues([]) == [];
    assert ItemValues([shape]) == [] + [Item(Value(shape.shape), shape.after)];
    assert ItemNodes([shape]) == {} + Nodes(shape.shape);
    assert ShowsItems([], []) && DistinctItems([]);
  }

  method ParseExprItem(p: Parser, m: Mode) returns (ok: bool, more: bool, item: LinkItem, ghost shape: ShapeItem)
    requires p.Valid() && p.n <= 1
    requires !(m.Argument? && (At(p.tokens, p.cursor) == RParen || At(p.tokens, p.cursor) == Asterisk))
    modifies p, p.buf
    ensures p.Valid() && p.buf == old(p.buf) && (ok ==> p.n == 0 && old(p.cursor) < p.cursor <= |p.tokens|)
    ensures fresh(Nodes(shape.shape)) && item.after == shape.after
    ensures ok ==> Shows(item.link, shape.shape) && Distinct(shape.shape)
    ensures !ok ==> ParseItems(p.tokens, old(p.cursor), m).Err?
    ensures ok ==>
              var value := [Item(Value(shape.shape), shape.after)];
              ParseItems(p.tokens, old(p.cursor), m)
                == Round(p.tokens, p.cursor, NextMode(m, item.after), more, value, [])
    decreases Remaining(p.tokens, p.cursor), 3, 0
  {
    var x, after, boolean;
    ghost var s;
    ok, x, after, boolean, s := ParseExprAndNext(p);
    item, shape, more := LinkItem(x, after), ShapeItem(s, after), !Ends(m, after);
    if !ok {
      NoItem(p.tokens, old(p.cursor), m);
      return;
    }
    ItemRound(p.tokens, old(p.cursor), m, Value(s), p.cursor, after);
    ok := Fits(m, boolean, after);
  }

  predicate Fits(m: Mode, boolean: bool, after: Token) {
    Ends(m, after) || GoesOn(m, boolean, after)
  }

  lemma {:induction false} ItemRound(ts: seq<Token>, pos: nat, m: Mode, e: Expr, next: nat, after: Token)
    requires !(m.Argument? && (At(ts, pos) == RParen || At(ts, pos) == Asterisk))
    requires next > 0 && ParseExpr(ts, pos) == Ok(e, next - 1) && after == At(ts, next - 1)
    ensures ParseItems(ts, pos, m) ==
      if Fits(m, IsBoolean(e), after)
      then Round(ts, next, NextMode(m, after), !Ends(m, after), [Item(e, after)], []) else Err
  {
    ItemsStep(ts, pos, m);
    FirstRound(ts, m, e, next, after);
  }

  lemma {:induction false} FirstRound(ts: seq<Token>, m: Mode, e: Expr, next: nat, after: Token)
    requires next > 0
    ensures var mode := NextMode(m, after);
      FirstAndMore(m, Ok(e, next - 1), after, ParseItems(ts, next, mode)) ==
      if Fits(m, IsBoolean(e), after) then Round(ts, next, mode, !Ends(m, after), [Item(e, after)], []) else Err
  {
  }

  /** An expression and the token after it. */
  method ParseExprAndNext(p: Parser) returns (ok: bool, x: Link, after: Token, boolean: bool, ghost s: Shape)
    requires p.Valid() && p.n <= 1
    modifies p, p.buf
    ensures p.Valid() && p.buf == old(p.buf) && fresh(Nodes(s))
    ensures ok == ParseExpr(p.tokens, old(p.cursor)).Ok?
    ensures ok ==> Shows(x, s) && Distinct(s) && boolean == IsBoolean(Value(s)) && p.n == 0
    ensures ok ==> p.cursor > 0 && ParseExpr(p.tokens, old(p.cursor)) == Ok(Value(s), p.cursor - 1)
    ensures ok ==> after == At(p.tokens, p.cursor - 1)
    decreases Remaining(p.tokens, p.cursor), 2, 1
  {
    after, boolean := Eof, false;
    ok, x, s := ParseExpression(p);
    if ok {
      NodesExist(s);
      BooleanShown(x, s);
      boolean := IsBooleanLink(x);
      after := p.ScanIgnoreWhitespace();
    }
  }

  /** The start of the loop of parseCall: a closing parenthesis, or an asterisk before one. */
  method ParseCallEnd(p: Parser) returns (ok: bool, tail: seq<Token>)
    requires p.Valid() && p.n <= 1 && p.cursor <= |p.tokens|
    modifies p, p.buf
    ensures p.Valid() && p.buf == old(p.buf) && p.n <= 1
    ensures tail == [] <==> At(p.tokens, old(p.cursor)) != RParen && At(p.tokens, old(p.cursor)) != Asterisk
    ensures if tail == [] then p.cursor == old(p.cursor)
            else
              && ok == ParseItems(p.tokens, old(p.cursor), Argument).Ok?
              && (ok ==> p.n == 0 && ParseItems(p.tokens, old(p.cursor), Argument) == Ok(([], tail), p.cursor))
  {
    var tok := p.ScanIgnoreWhitespace();
    if tok == RParen {
      return true, [RParen];
    } else if tok == Asterisk {
      var tok2 := p.ScanIgnoreWhitespace();
      return tok2 == RParen, [Asterisk, RParen];
    }
    p.Unscan();
    return true, [];
  }

  method ParseExpression(p: Parser) returns (ok: bool, x: Link, ghost s: Shape)
    requires p.Valid() && p.n <= 1
    modifies p, p.buf
    ensures p.Valid() && p.buf == old(p.buf) && (ok ==> p.n <= 1)
    ensures Agrees(p, ok, x, s, ParseExpr(p.tokens, old(p.cursor)))
    ensures fresh(Nodes(s))
    decreases Remaining(p.tokens, p.cursor), 2, 0
  {
    ok, x, s := ParseUnaryExpr(p, false);
    if ok {
      NodesExist(s);
      var root := new Node(Subset, x, x);
      ok, s := ParseOperations(p, root, s);
      x := root.rhs;
    }
  }

  /** The outer loop of ParseExpr. */
  method ParseOperations(p: Parser, root: Node, ghost s: Shape) returns (ok: bool, ghost t: Shape)
    requires p.Valid() && p.n <= 1 && p.cursor <= |p.tokens| && Held(root, s)
    modifies p, p.buf, root, Nodes(s)
    ensures p.Valid() && p.buf == old(p.buf) && (ok ==> p.n <= 1)
    ensures forall k :: k in Nodes(t) ==> k in Nodes(s) || fresh(k)
    ensures Agrees(p, ok, root.rhs, t, ParseRest(p.tokens, old(p.cursor), Value(s)))
    decreases Remaining(p.tokens, p.cursor), 3
  {
    ghost var r := ParseRest(p.tokens, p.cursor, Value(s));
    ok, t := true, s;
    var tok := ScanNext(p, root, t, r);
    while IsOperator(tok)
      invariant p.Valid() && p.buf == old(p.buf) && old(p.cursor) < p.cursor && p.n == 0
      invariant Ahead(p, root, tok, t, r) && (forall k :: k in Nodes(t) ==> k in Nodes(s) || fresh(k))
      decreases |p.tokens| + 1 - p.cursor
    {
      ok, t := ParseOperation(p, root, tok, t, r);
      if !ok {
        return;
      }
      tok := ScanNext(p, root, t, r);
    }
    EndOperations(p, root, tok, t, r);
  }

  /** What is no operator is pushed back. */
  method EndOperations(p: Parser, root: Node, tok: Token, ghost t: Shape, ghost r: Parsed<Expr>)
    requires p.Valid() && p.n == 0 && Ahead(p, root, tok, t, r) && !IsOperator(tok)
    modifies p, p.buf
    ensures p.Valid() && p.buf == old(p.buf) && p.n <= 1 && Agrees(p, true, root.rhs, t, r)
  {
    RestStops(p.tokens, p.cursor - 1, Value(t));
    NodesExist(t);
    p.Unscan();
  }

  /** The state of the outer loop: the tree read so far hangs below the root, and with what follows it gives r. */
  ghost predicate Behind(p: Parser, root: Node, t: Shape, r: Parsed<Expr>)
    reads p, root, Nodes(t)
  {
    Held(root, t) && p.cursor <= |p.tokens| && r == ParseRest(p.tokens, p.cursor, Value(t))
  }

  /** And the next token has been read. */
  ghost predicate Ahead(p: Parser, root: Node, tok: Token, t: Shape, r: Parsed<Expr>)
    reads p, root, Nodes(t)
  {
    && Held(root, t) && p.room > 0
    && 0 < p.cursor <= |p.tokens| + 1 && tok == At(p.tokens, p.cursor - 1)
    && r == ParseRest(p.tokens, p.cursor - 1, Value(t))
  }

  method ScanNext(p: Parser, root: Node, ghost t: Shape, ghost r: Parsed<Expr>) returns (tok: Token)
    requires p.Valid() && p.n <= 1 && Behind(p, root, t, r)
    modifies p, p.buf
    ensures p.Valid() && p.buf == old(p.buf) && p.n == 0
    ensures p.cursor == old(p.cursor) + 1 && Ahead(p, root, tok, t, r)
  {
    NodesExist(t);
    tok := p.ScanIgnoreWhitespace();
  }

  lemma {:induction false} RestStops(ts: seq<Token>, pos: nat, t: Expr)
    requires pos <= |ts| && !IsOperator(At(ts, pos))
    ensures ParseRest(ts, pos, t) == Ok(t, pos)
  {
  }

  /** Does the tree built so far hang below the root? */
  ghost predicate Held(root: Node, s: Shape)
    reads root, Nodes(s)
  {
    Shows(root.rhs, s) && Distinct(s) && root !in Nodes(s)
  }

  /** The round of the outer loop of ParseExpr for one operator. */
  method ParseOperation(p: Parser, root: Node, tok: Token, ghost s: Shape, ghost r: Parsed<Expr>)
    returns (ok: bool, ghost t: Shape)
    requires p.Valid() && p.n == 0 && IsOperator(tok) && Ahead(p, root, tok, s, r)
    modifies p, p.buf, root, Nodes(s)
    ensures p.Valid() && p.buf == old(p.buf) && (ok ==> p.n <= 1)
    ensures forall k :: k in Nodes(t) ==> k in Nodes(s) || fresh(k)
    ensures if ok then Behind(p, root, t, r) && old(p.cursor) <= p.cursor else r.Err?
    decreases Remaining(p.tokens, p.cursor - 1), 2
  {
    NodesExist(s);
    OneMoreOperation(p.tokens, p.cursor - 1, Value(s));
    var x;
    ghost var u;
    ok, x, u := ParseRightOperand(p, tok);
    t := u;
    if ok {
      NodesExist(u);
      t := Splice(root, OperatorOf(tok), x, s, u);
    }
  }

  /** An opening bracket is pushed back: it belongs to the operand. */
  method ParseRightOperand(p: Parser, tok: Token) returns (ok: bool, x: Link, ghost u: Shape)
    requires p.Valid() && p.n == 0 && p.room > 0 && p.cursor > 0
    requires IsOperator(tok) && tok == At(p.tokens, p.cursor - 1)
    modifies p, p.buf
    ensures p.Valid() && p.buf == old(p.buf) && (ok ==> p.n <= 1)
    ensures Agrees(p, ok, x, u, RightOperand(p.tokens, old(p.cursor) - 1))
    ensures fresh(Nodes(u))
    decreases Remaining(p.tokens, p.cursor - 1), 1
  {
    if tok == LBracket {
      p.Unscan();
    }
    ok, x, u := ParseUnaryExpr(p, OperatorOf(tok) == Infix(Arrow));
  }

  ghost function RightOperand(ts: seq<Token>, pos: nat): (r: Parsed<Expr>)
    requires IsOperator(At(ts, pos))
    ensures r.Ok? ==> pos < r.pos <= |ts|
  {
    ParseUnary(ts, OperandAt(At(ts, pos), pos), OperatorOf(At(ts, pos)) == Infix(Arrow))
  }

  lemma {:induction false} OneMoreOperation(ts: seq<Token>, pos: nat, t: Expr)
    requires pos < |ts| && IsOperator(At(ts, pos))
    ensures var u := RightOperand(ts, pos);
      ParseRest(ts, pos, t) ==
      if u.Ok? then ParseRest(ts, u.pos, Insert(t, OperatorOf(At(ts, pos)), u.value)) else Err
  {
  }
}
