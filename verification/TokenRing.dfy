/** Tokens (pkg/ast/token.go) and the parser's push-back ring: scan, curr, unscan and scanIgnoreWhitespace of
    internal/xsql/parser.go. */
module TokenRing {

  /** The operators the scanner yields. */
  datatype Symbol =
    | Add | Sub | Div | Mod | BitAnd | BitOr | BitXor | And | Or
    | Eq | Neq | Lt | Lte | Gt | Gte | Arrow

  /** The operators of expressions. The scanner yields `*` and `[` as Asterisk and LBracket. */
  datatype Operator = Infix(symbol: Symbol) | Mul | Subset

  datatype DataType = Bigint | Float | Strings | Bytea | Datetime | Boolean

  /** The tokens the scanner yields. `Truth` stands for TRUE and FALSE, `Literal` for strings and time units, `Space`
      for white space and comments, and `Keyword` for everything else. */
  datatype Token =
    | Op(symbol: Symbol) | Asterisk | LBracket | RBracket | LParen | RParen | Dot | Colon | Comma
    | Ident(lit: string) | Integer(lit: string) | Number(lit: string) | Truth(lit: string) | Literal(lit: string)
    | Case | When | Then | Else | End
    | TypeName(t: DataType) | XArray | XStruct | With | Keyword(lit: string) | Space | Eof

  predicate IsNumber(t: Token) {
    t.Integer? || t.Number?
  }

  predicate IsOperator(t: Token) {
    t.Op? || t.Asterisk? || t.LBracket?
  }

  function Precedence(op: Operator): (p: nat) {
    match op
    case Infix(Or) => 1
    case Infix(And) => 2
    case Infix(Eq) | Infix(Neq) | Infix(Lt) | Infix(Lte) | Infix(Gt) | Infix(Gte) => 3
    case Infix(Add) | Infix(Sub) | Infix(BitOr) | Infix(BitXor) => 4
    case Infix(Div) | Infix(Mod) | Infix(BitAnd) | Infix(Arrow) | Mul | Subset => 5
  }

  /** The token at a position; past the end the scanner yields end of file for ever. */
  function At(ts: seq<Token>, pos: nat): (t: Token) {
    if pos < |ts| then ts[pos] else Eof
  }

  /** What a parser function returns: a value and the position after it. */
  datatype Parsed<+T> = Ok(value: T, pos: nat) | Err

  /** How many tokens are left. */
  function Remaining(ts: seq<Token>, pos: nat): (n: nat) {
    if pos < |ts| then |ts| - pos else 0
  }

  /** The tokens that are not white space. */
  function Solid(ts: seq<Token>): (r: seq<Token>) {
    if ts == [] then []
    else if ts[0].Space? then Solid(ts[1..]) else [ts[0]] + Solid(ts[1..])
  }

  /** The k-th token that is not white space from a position on. */
  function Nth(ts: seq<Token>, pos: nat, k: nat): (t: Token)
    decreases |ts| - pos
  {
    if pos >= |ts| then Eof
    else if ts[pos].Space? then Nth(ts, pos + 1, k)
    else if k == 0 then ts[pos] else Nth(ts, pos + 1, k - 1)
  }

  lemma {:induction false} NthIsSolid(ts: seq<Token>, pos: nat, k: nat)
    requires pos <= |ts|
    ensures Nth(ts, pos, k) == At(Solid(ts[pos..]), k)
    decreases |ts| - pos
  {
    if pos < |ts| {
      assert ts[pos..][1..] == ts[pos + 1..];
      NthIsSolid(ts, pos + 1, if ts[pos].Space? || k == 0 then k else k - 1);
    }
  }

  /** Does the scanner at this position yield the tokens from `read` on? */
  ghost predicate Yields(ts: seq<Token>, pos: nat, tokens: seq<Token>, read: nat) {
    forall k: nat :: Nth(ts, pos, k) == At(tokens, read + k)
  }

  lemma {:induction false} YieldsSolid(ts: seq<Token>)
    ensures Yields(ts, 0, Solid(ts), 0)
  {
    assert ts[0..] == ts;
    forall k: nat ensures Nth(ts, 0, k) == At(Solid(ts), 0 + k) {
      NthIsSolid(ts, 0, k);
    }
  }

  const SIZE := 3

  /** The ring slot that holds the token read `back` tokens before the last one. */
  function Slot(i: nat, back: nat): (s: nat)
    requires i < SIZE && back < SIZE
    ensures s < SIZE
  {
    (i + SIZE - back) % SIZE
  }

  class Parser {
    const input: seq<Token>
    var pos: nat  // the scanner's position in the input
    var buf: array<Token>
    var i: nat
    var n: nat
    ghost const tokens: seq<Token>  // the solid tokens of the input
    ghost var read: nat  // how many of them have been read from the scanner
    ghost var cursor: nat  // the position in them, to a client of scan and unscan
    ghost var room: nat  // how many can be pushed back

    /** The ring holds the last tokens read, and no more are pushed back than it holds. */
    ghost predicate Valid()
      reads this, buf
    {
      && buf.Length == SIZE && i < SIZE && pos <= |input|
      && n <= SIZE && n <= read
      && cursor == read - n && n + room <= SIZE && n + room <= read
      && Holds(buf, i, n + room, read, tokens)
      && Yields(input, pos, tokens, read)
    }

    constructor (input: seq<Token>)
      ensures Valid() && fresh(buf) && this.input == input && tokens == Solid(input) && cursor == 0
    {
      this.input := input;
      this.tokens := Solid(input);
      pos, i, n, read, cursor, room := 0, 0, 0, 0, 0, 0;
      buf := new Token[SIZE](_ => Eof);
      YieldsSolid(input);
    }

    method Scan() returns (t: Token)
      requires Valid()
      modifies this, buf
      ensures Valid() && buf == old(buf) && old(pos) <= pos
      ensures !t.Space? ==> t == At(tokens, old(cursor)) && cursor == old(cursor) + 1
      ensures !t.Space? ==> old(room) < room || room == SIZE
      ensures n == if old(n) > 0 then old(n) - 1 else 0
      ensures t.Space? ==> cursor == old(cursor) && room == old(room) && old(pos) < pos && n == 0
    {
      if n > 0 {
        t := Again();
        return;
      }
      t := Read();
      if !t.Space? {
        Push(t);
        cursor, room := cursor + 1, if room < SIZE then room + 1 else SIZE;
      }
    }

    /** A token that was pushed back. */
    method Again() returns (t: Token)
      requires Valid() && n > 0
      modifies this`n, this`cursor, this`room
      ensures Valid() && n == old(n) - 1 && room == old(room) + 1
      ensures t == At(tokens, old(cursor)) && !t.Space? && cursor == old(cursor) + 1
    {
      n, cursor, room := n - 1, cursor + 1, room + 1;
      t := buf[(i + SIZE - n) % SIZE];
      assert t == buf[Slot(i, n)];
    }

    /** The scanner yields its next token. */
    method Read() returns (t: Token)
      requires pos <= |input| && Yields(input, pos, tokens, read)
      modifies this`pos
      ensures old(pos) <= pos <= |input| && (t.Space? ==> old(pos) < pos)
      ensures t == if old(pos) < |input| then input[old(pos)] else Eof
      ensures !t.Space? ==> t == At(tokens, read)
      ensures Yields(input, pos, tokens, read + if t.Space? then 0 else 1)
    {
      ghost var was := pos;
      if pos < |input| {
        t, pos := input[pos], pos + 1;
      } else {
        t := Eof;
      }
      ghost var step := if t.Space? then 0 else 1;
      assert Nth(input, was, 0) == At(tokens, read + 0);
      forall k: nat ensures Nth(input, pos, k) == At(tokens, read + step + k) {
        assert Nth(input, was, k + step) == At(tokens, read + (k + step));
      }
    }

    /** A solid token enters the ring. */
    method Push(t: Token)
      requires buf.Length == SIZE && i < SIZE && n == 0 && room <= SIZE && room <= read
      requires Holds(buf, i, room, read, tokens) && t == At(tokens, read) && !t.Space?
      modifies this`i, this`read, buf
      ensures i < SIZE && read == old(read) + 1
      ensures Holds(buf, i, if room < SIZE then room + 1 else SIZE, read, tokens)
    {
      i := (i + 1) % SIZE;
      buf[i] := t;
      read := read + 1;
      forall k | 1 <= k < SIZE ensures Slot(i, k) == Slot(old(i), k - 1) && Slot(i, k) != i {}
      assert Slot(i, 0) == i;
    }

    /** After a minus sign: the number that follows, read past the ring, or the token that follows instead. */
    method ScanNumber() returns (t: Token)
      requires Valid() && n == 0
      modifies this
      ensures Valid() && buf == old(buf) && n == 0
      ensures t == At(tokens, old(cursor)) && cursor == old(cursor) + if IsNumber(t) then 1 else 0
    {
      while pos < |input| && input[pos].Space?
        invariant Valid() && buf == old(buf) && n == 0 && cursor == old(cursor)
        decreases |input| - pos
      {
        t := Read();
      }
      assert Nth(input, pos, 0) == At(tokens, read + 0);
      if pos == |input| || !IsNumber(input[pos]) {
        return if pos < |input| then input[pos] else Eof;
      }
      t := Read();
      read, cursor, room := read + 1, cursor + 1, 0;
    }

    method Unscan()
      requires Valid() && room >= 1
      modifies this`n, this`cursor, this`room
      ensures Valid() && cursor == old(cursor) - 1 && room == old(room) - 1 && n == old(n) + 1
    {
      n, cursor, room := n + 1, cursor - 1, room - 1;
    }

    method ScanIgnoreWhitespace() returns (t: Token)
      requires Valid()
      modifies this, buf
      ensures Valid() && buf == old(buf)
      ensures t == At(tokens, old(cursor)) && cursor == old(cursor) + 1
      ensures old(room) < room || room == SIZE
      ensures n == if old(n) > 0 then old(n) - 1 else 0
    {
      t := Scan();
      while t.Space?
        invariant Valid() && buf == old(buf) && n == if old(n) > 0 then old(n) - 1 else 0
        invariant t.Space? ==> n == 0
        invariant t.Space? ==> cursor == old(cursor) && room == old(room)
        invariant !t.Space? ==> t == At(tokens, old(cursor)) && cursor == old(cursor) + 1
        invariant !t.Space? ==> old(room) < room || room == SIZE
        decreases |input| - pos, t.Space?
      {
        t := Scan();
      }
    }
  }

  /** Does the ring hold the last `count` of the tokens read? */
  ghost predicate Holds(buf: array<Token>, i: nat, count: nat, read: nat, tokens: seq<Token>)
    reads buf
    requires buf.Length == SIZE && i < SIZE && count <= SIZE && count <= read
  {
    forall k :: 0 <= k < count ==> !buf[Slot(i, k)].Space? && buf[Slot(i, k)] == At(tokens, read - 1 - k)
  }
}
