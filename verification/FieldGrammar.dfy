/** The field lists and types that internal/xsql/parser.go accepts, as a grammar over the tokens: everything in it is
    parsed, and nothing else. */
module FieldGrammar {
  import opened TokenRing
  import opened FieldTypes

  /** The tokens from `pos` to `end` are this type. Without a parenthesis after ARRAY a token is skipped and there is no
      type, and so it is with a comma right after it, which stays. A comma or closing parenthesis follows a struct. */
  ghost predicate IsType(ts: seq<Token>, pos: nat, end: nat, t: FieldType)
    decreases t, 0
  {
    match t
    case Basic(d) => At(ts, pos) == TypeName(d) && end == pos + 1
    case ArrayOf(d) => IsArrayOf(ts, pos, [TypeName(d)]) && end == pos + 4
    case ArrayOfStruct(e) =>
      && e.Struct? && pos + 2 < end && At(ts, pos) == XArray && At(ts, pos + 1) == LParen
      && IsType(ts, pos + 2, end - 1, e) && At(ts, end - 1) == RParen
    case Struct(fs) =>
      At(ts, pos) == XStruct && At(ts, pos + 1) == LParen && IsList(ts, pos + 2, end, fs) && EndsPart(At(ts, end))
    case Nil =>
      && At(ts, pos) == XArray && end == pos + 2
      && (At(ts, pos + 1) == LParen ==> At(ts, pos + 2) == Comma)
  }

  predicate EndsPart(t: Token) {
    t == Comma || t == RParen
  }

  predicate IsArrayOf(ts: seq<Token>, pos: nat, elem: seq<Token>)
    requires |elem| == 1
  {
    At(ts, pos) == XArray && At(ts, pos + 1) == LParen && At(ts, pos + 2) == elem[0] && At(ts, pos + 3) == RParen
  }

  /** The tokens from `pos` to `end` are this list up to its closing parenthesis, with WITH after it if there is one.
      The last field may have a comma after it; the empty list needs WITH. */
  ghost predicate IsList(ts: seq<Token>, pos: nat, end: nat, fs: seq<StreamField>)
    decreases fs, 1
  {
    if fs == [] then At(ts, pos) == RParen && At(ts, pos + 1) == With && end == pos + 2
    else
      exists m: nat :: IsFirst(ts, pos, m, end, fs)
  }

  /** The type of the first field ends at `m`. */
  ghost predicate IsFirst(ts: seq<Token>, pos: nat, m: nat, end: nat, fs: seq<StreamField>)
    requires fs != []
    decreases fs, 0
  {
    && At(ts, pos) == Ident(fs[0].name) && IsType(ts, pos + 1, m, fs[0].ty) && EndsPart(At(ts, m))
    && var next := if At(ts, m) == Comma then m + 1 else m;
       if At(ts, next) == RParen then
         && |fs| == 1
         && (if At(ts, next + 1) == With then end == next + 2 else EndsPart(At(ts, next + 1)) && end == next + 1)
       else |fs| > 1 && IsList(ts, next, end, fs[1..])
  }

  // ----- what is parsed is in the grammar

  lemma {:induction false} TypeSound(ts: seq<Token>, pos: nat)
    ensures ParseType(ts, pos).Ok? ==> IsType(ts, pos, ParseType(ts, pos).pos, ParseType(ts, pos).value)
    decreases Remaining(ts, pos), 0
  {
    match At(ts, pos)
    case XArray =>
      if At(ts, pos + 1) == LParen && At(ts, pos + 2) == XStruct {
        StructSound(ts, pos + 2);
      }
    case XStruct => StructSound(ts, pos);
    case _ =>
  }

  lemma {:induction false} StructSound(ts: seq<Token>, pos: nat)
    requires At(ts, pos) == XStruct
    ensures var r := ParseStruct(ts, pos + 1); r.Ok? ==> r.value.Struct? && IsType(ts, pos, r.pos, r.value)
    decreases Remaining(ts, pos + 1), 3
  {
    if At(ts, pos + 1) == LParen {
      ListSound(ts, pos + 2);
    }
  }

  lemma {:induction false} ListSound(ts: seq<Token>, pos: nat)
    ensures var r := ParseMore(ts, pos); r.Ok? ==> IsList(ts, pos, r.pos, r.value)
    decreases Remaining(ts, pos), 1
  {
    var r := ParseMore(ts, pos);
    if r.Ok? && At(ts, pos) != RParen {
      var t := ParseType(ts, pos + 1);
      TypeSound(ts, pos + 1);
      var f := ParseField(ts, pos);
      if At(ts, f.pos) != RParen {
        ListSound(ts, f.pos);
        assert r.value[1..] == ParseMore(ts, f.pos).value;
      }
      assert IsFirst(ts, pos, t.pos, r.pos, r.value);
    }
  }

  // ----- what is in the grammar is parsed

  lemma {:induction false} TypeComplete(ts: seq<Token>, pos: nat, end: nat, t: FieldType)
    requires IsType(ts, pos, end, t)
    ensures ParseType(ts, pos) == Ok(t, end)
    decreases t, 0
  {
    match t
    case ArrayOfStruct(e) => TypeComplete(ts, pos + 2, end - 1, e);
    case Struct(fs) =>
      ListComplete(ts, pos + 2, end, fs);
      StructStep(ts, pos);
    case _ =>
  }

  lemma {:induction false} ListComplete(ts: seq<Token>, pos: nat, end: nat, fs: seq<StreamField>)
    requires IsList(ts, pos, end, fs)
    ensures ParseMore(ts, pos) == Ok(fs, end)
    decreases fs, 1
  {
    if fs != [] {
      var m: nat :| IsFirst(ts, pos, m, end, fs);
      TypeComplete(ts, pos + 1, m, fs[0].ty);
      var next := if At(ts, m) == Comma then m + 1 else m;
      if At(ts, next) != RParen {
        ListComplete(ts, next, end, fs[1..]);
      }
      FirstComplete(ts, pos, m, end, fs);
    }
  }

  lemma {:induction false} FirstComplete(ts: seq<Token>, pos: nat, m: nat, end: nat, fs: seq<StreamField>)
    requires fs != [] && IsFirst(ts, pos, m, end, fs) && ParseType(ts, pos + 1) == Ok(fs[0].ty, m)
    requires var next := if At(ts, m) == Comma then m + 1 else m;
      At(ts, next) != RParen ==> ParseMore(ts, next) == Ok(fs[1..], end)
    ensures ParseMore(ts, pos) == Ok(fs, end)
  {
    FieldStep(ts, pos);
    MoreStep(ts, pos);
    assert StreamField(fs[0].name, fs[0].ty) == fs[0] && fs == [fs[0]] + fs[1..];
    assert |fs| == 1 ==> fs == [fs[0]];
  }

  // ----- main results

  /** The parser of types accepts exactly the grammar: for all tokens, types and positions. */
  lemma {:induction false} ParseTypeExactly(ts: seq<Token>, pos: nat, t: FieldType, end: nat)
    ensures ParseType(ts, pos) == Ok(t, end) <==> IsType(ts, pos, end, t)
  {
    TypeSound(ts, pos);
    if IsType(ts, pos, end, t) {
      TypeComplete(ts, pos, end, t);
    }
  }

  /** And so does the parser of field lists. */
  lemma {:induction false} ParseFieldsExactly(ts: seq<Token>, pos: nat, fs: seq<StreamField>, end: nat)
    ensures ParseFields(ts, pos) == Ok(fs, end) <==> At(ts, pos) == LParen && IsList(ts, pos + 1, end, fs)
  {
    if At(ts, pos) == LParen {
      ListSound(ts, pos + 1);
      if IsList(ts, pos + 1, end, fs) {
        ListComplete(ts, pos + 1, end, fs);
      }
    }
  }
}
