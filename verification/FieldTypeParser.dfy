/** The grammar of stream fields as internal/xsql/parser.go runs it over the push-back ring, and the printer of
    internal/processor/stream.go. The stack of open parentheses is left out: it holds one at most, so it is empty
    whenever its length is tested. */
module FieldTypeParser {
  import opened TokenRing
  import opened FieldTypes

  /** Does the method return what the function on values does, with the cursor where that says? */
  ghost predicate Agrees<T>(p: Parser, ok: bool, value: T, r: Parsed<T>)
    reads p
  {
    if ok then r == Ok(value, p.cursor) else r.Err?
  }

  method ParseStreamFields(p: Parser) returns (ok: bool, fields: seq<StreamField>)
    requires p.Valid()
    modifies p, p.buf
    ensures p.Valid() && p.buf == old(p.buf)
    ensures Agrees(p, ok, fields, ParseFields(p.tokens, old(p.cursor)))
    decreases Remaining(p.tokens, p.cursor), 3
  {
    var tok := p.ScanIgnoreWhitespace();
    if tok != LParen {
      return false, [];
    }
    fields := [];
    var more := true;
    ghost var ts, r := p.tokens, ParseMore(p.tokens, p.cursor);
    PrependNothing([], r);
    while more
      invariant p.Valid() && p.buf == old(p.buf) && old(p.cursor) < p.cursor <= |ts|
      invariant if more then r == Prepended(fields, ParseMore(ts, p.cursor)) else r == Ok(fields, p.cursor)
      decreases more, |ts| - p.cursor
    {
      var got;
      ok, got, more := ParseNextField(p);
      if !ok {
        return false, [];
      }
      ghost var rest := if more then ParseMore(ts, p.cursor) else Ok([], p.cursor);
      PrependTwice(fields, got, rest);
      fields := fields + got;
      PrependNothing(fields, r);
    }
    return true, fields;
  }

  ghost function Prepended(fields: seq<StreamField>, r: Parsed<seq<StreamField>>): (s: Parsed<seq<StreamField>>) {
    if r.Ok? then Ok(fields + r.value, r.pos) else Err
  }

  lemma PrependTwice(fields: seq<StreamField>, got: seq<StreamField>, r: Parsed<seq<StreamField>>)
    ensures Prepended(fields, Prepended(got, r)) == Prepended(fields + got, r)
  {
    if r.Ok? {
      assert fields + (got + r.value) == fields + got + r.value;
    }
  }

  lemma PrependNothing(fields: seq<StreamField>, r: Parsed<seq<StreamField>>)
    ensures Prepended([], r) == r && Prepended(fields, Ok([], 0)).value == fields
  {
    assert fields + [] == fields;
    if r.Ok? {
      assert [] + r.value == r.value;
    }
  }

  /** One round of the loop: the field it reads, if any, and whether the list goes on. */
  method ParseNextField(p: Parser) returns (ok: bool, got: seq<StreamField>, more: bool)
    requires p.Valid()
    modifies p, p.buf
    ensures p.Valid() && p.buf == old(p.buf)
    ensures ok ==> old(p.cursor) < p.cursor <= |p.tokens|
    ensures ParseMore(p.tokens, old(p.cursor)) ==
      if !ok then Err else Prepended(got, if more then ParseMore(p.tokens, p.cursor) else Ok([], p.cursor))
    decreases Remaining(p.tokens, p.cursor), 2
  {
    var tok1 := p.ScanIgnoreWhitespace();
    if tok1 == RParen {
      var tok2 := p.ScanIgnoreWhitespace();
      PrependNothing([], Ok([], p.cursor));
      return tok2 == With, [], false;
    }
    p.Unscan();
    ok, got, more := ParseOneField(p);
  }

  method ParseOneField(p: Parser) returns (ok: bool, got: seq<StreamField>, more: bool)
    requires p.Valid() && At(p.tokens, p.cursor) != RParen
    modifies p, p.buf
    ensures p.Valid() && p.buf == old(p.buf)
    ensures ok ==> old(p.cursor) < p.cursor <= |p.tokens|
    ensures ParseMore(p.tokens, old(p.cursor)) ==
      if !ok then Err else Prepended(got, if more then ParseMore(p.tokens, p.cursor) else Ok([], p.cursor))
    decreases Remaining(p.tokens, p.cursor), 1, 1
  {
    var f;
    ok, f := ParseStreamField(p);
    if !ok {
      return false, [], false;
    }
    got := [f];
    PrependNothing(got, Err);
    ok, more := ParseListEnd(p);
  }

  /** After a field: whether the list goes on. The token after its end is consumed only if it is WITH. */
  method ParseListEnd(p: Parser) returns (ok: bool, more: bool)
    requires p.Valid() && p.cursor <= |p.tokens|
    modifies p, p.buf
    ensures p.Valid() && p.buf == old(p.buf) && old(p.cursor) <= p.cursor
    ensures more <==> At(p.tokens, old(p.cursor)) != RParen
    ensures more ==> ok && p.cursor == old(p.cursor)
    ensures !more ==> var next := At(p.tokens, old(p.cursor) + 1);
      && ok == (next == With || Closes(next))
      && (ok ==> p.cursor == old(p.cursor) + (if next == With then 2 else 1) <= |p.tokens|)
  {
    var tok1 := p.ScanIgnoreWhitespace();
    if tok1 != RParen {
      p.Unscan();
      return true, true;
    }
    var tok2 := p.ScanIgnoreWhitespace();
    if Closes(tok2) {
      p.Unscan();
    }
    return tok2 == With || Closes(tok2), false;
  }

  method ParseStreamField(p: Parser) returns (ok: bool, field: StreamField)
    requires p.Valid()
    modifies p, p.buf
    ensures p.Valid() && p.buf == old(p.buf)
    ensures Agrees(p, ok, field, ParseField(p.tokens, old(p.cursor)))
    decreases Remaining(p.tokens, p.cursor), 1, 0
  {
    field := StreamField([], Nil);
    var tok := p.ScanIgnoreWhitespace();
    if !tok.Ident? {
      return false, field;
    }
    var ty;
    ok, ty := ParseStreamType(p);
    if ok {
      field := StreamField(tok.lit, ty);
      var tok2 := p.ScanIgnoreWhitespace();
      ok := Closes(tok2);
      if tok2 == RParen {
        p.Unscan();
      }
    }
  }

  /** The branches of parseStreamField on the kind of type. */
  method ParseStreamType(p: Parser) returns (ok: bool, ty: FieldType)
    requires p.Valid()
    modifies p, p.buf
    ensures p.Valid() && p.buf == old(p.buf)
    ensures Agrees(p, ok, ty, ParseType(p.tokens, old(p.cursor)))
    decreases Remaining(p.tokens, p.cursor), 1
  {
    var tok1 := p.ScanIgnoreWhitespace();
    match tok1 {
      case TypeName(t) => ok, ty := true, Basic(t);
      case XArray => ok, ty := ParseStreamArrayType(p);
      case XStruct => ok, ty := ParseStreamStructType(p);
      case _ => ok, ty := false, Nil;
    }
  }

  method ParseStreamArrayType(p: Parser) returns (ok: bool, ty: FieldType)
    requires p.Valid()
    modifies p, p.buf
    ensures p.Valid() && p.buf == old(p.buf)
    ensures Agrees(p, ok, ty, ParseArray(p.tokens, old(p.cursor)))
    decreases Remaining(p.tokens, p.cursor), 4
  {
    var tok := p.ScanIgnoreWhitespace();
    if tok != LParen {
      return true, Nil;
    }
    ok, ty := ParseElement(p);
  }

  /** The branches on the type of the elements. */
  method ParseElement(p: Parser) returns (ok: bool, ty: FieldType)
    requires p.Valid() && p.cursor > 0 && At(p.tokens, p.cursor - 1) == LParen
    modifies p, p.buf
    ensures p.Valid() && p.buf == old(p.buf)
    ensures Agrees(p, ok, ty, ParseArray(p.tokens, old(p.cursor) - 1))
    decreases Remaining(p.tokens, p.cursor), 5
  {
    var tok1 := p.ScanIgnoreWhitespace();
    if tok1.TypeName? {
      var tok2 := p.ScanIgnoreWhitespace();
      return tok2 == RParen, ArrayOf(tok1.t);
    } else if tok1 == XStruct {
      ok, ty := ParseStreamStructType(p);
      if ok {
        var tok2 := p.ScanIgnoreWhitespace();
        ok, ty := tok2 == RParen, ArrayOfStruct(ty);
      }
    } else if tok1 == Comma {
      p.Unscan();
      return true, Nil;
    } else {
      return false, Nil;
    }
  }

  method ParseStreamStructType(p: Parser) returns (ok: bool, ty: FieldType)
    requires p.Valid()
    modifies p, p.buf
    ensures p.Valid() && p.buf == old(p.buf)
    ensures Agrees(p, ok, ty, ParseStruct(p.tokens, old(p.cursor)))
    decreases Remaining(p.tokens, p.cursor), 4
  {
    var fields;
    ok, fields := ParseStreamFields(p);
    ty := Struct(fields);
    if ok {
      var tok2 := p.ScanIgnoreWhitespace();
      p.Unscan();
      ok := Closes(tok2);
    }
  }

  /** printFieldType, token by token. */
  method PrintFieldType(ft: FieldType) returns (result: seq<Token>)
    ensures result == Print(ft)
    decreases ft
  {
    match ft {
      case Basic(t) => result := [TypeName(t)];
      case ArrayOf(t) => result := [XArray, LParen] + [TypeName(t)] + [RParen];
      case ArrayOfStruct(e) =>
        var inner := PrintFieldType(e);
        result := [XArray, LParen] + inner + [RParen];
      case Struct(fs) =>
        var inner := PrintStreamFields(fs);
        result := [XStruct, LParen] + inner + [RParen];
      case Nil => result := [];
    }
  }

  /** Its loop over the fields of a struct. */
  method PrintStreamFields(fs: seq<StreamField>) returns (result: seq<Token>)
    ensures result == PrintFields(fs)
    decreases fs
  {
    result := [];
    var isFirst := true;
    for i := 0 to |fs|
      invariant isFirst <==> i == 0
      invariant i == 0 ==> result == []
      invariant i > 0 ==> PrintFields(fs) == result + Pending(fs, i)
    {
      ghost var done := result;
      if isFirst {
        isFirst := false;
      } else {
        result := result + [Comma];
      }
      var ty := PrintFieldType(fs[i].ty);
      Unrolled(done, fs, i);
      result := result + [Ident(fs[i].name)] + ty;
    }
  }

  /** What is still to be printed before field i. */
  ghost function Pending(fs: seq<StreamField>, i: nat): (ts: seq<Token>)
    requires i <= |fs|
  {
    if i == |fs| then [] else [Comma] + PrintFields(fs[i..])
  }

  lemma {:induction false} Unrolled(done: seq<Token>, fs: seq<StreamField>, i: nat)
    requires i < |fs| && (i == 0 ==> done == [])
    ensures var r := if i == 0 then done else done + [Comma];
      r + [Ident(fs[i].name)] + Print(fs[i].ty) + Pending(fs, i + 1) ==
      if i == 0 then PrintFields(fs) else done + Pending(fs, i)
  {
    var name, ty, rest := [Ident(fs[i].name)], Print(fs[i].ty), Pending(fs, i + 1);
    assert PrintFields(fs[i..]) == name + ty + rest by {
      assert fs[i..][1..] == fs[i + 1..];
      assert PrintTail(fs[i..]) == rest;
    }
    if i == 0 {
      assert fs[0..] == fs;
      assert done + name + ty + rest == name + ty + rest;
    } else {
      Regroup(done, [Comma], name, ty, rest);
    }
  }

  lemma Regroup(a: seq<Token>, b: seq<Token>, c: seq<Token>, d: seq<Token>, e: seq<Token>)
    ensures a + b + c + d + e == a + (b + (c + d + e))
  {
  }
}
