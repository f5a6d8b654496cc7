/** The types of stream fields: the recursive grammar of internal/xsql/parser.go and the printer of
    internal/processor/stream.go. */
module FieldTypes {
  import opened TokenRing

  /** `Nil` is the missing type that parseStreamArrayType lets through. */
  datatype FieldType =
    | Basic(simple: DataType)
    | ArrayOf(simple: DataType)
    | ArrayOfStruct(elem: FieldType)
    | Struct(fields: seq<StreamField>)
    | Nil

  datatype StreamField = StreamField(name: string, ty: FieldType)

  // ----- the grammar on values

  /** parseStreamFields, after the opening parenthesis and the fields read so far. */
  function ParseMore(ts: seq<Token>, pos: nat): (r: Parsed<seq<StreamField>>)
    ensures r.Ok? ==> pos < r.pos <= |ts|
    decreases Remaining(ts, pos), 1
  {
    if At(ts, pos) == RParen then
      if At(ts, pos + 1) == With then Ok([], pos + 2) else Err
    else
      var f := ParseField(ts, pos);
      if f.Err? then Err
      else if At(ts, f.pos) == RParen then
        match At(ts, f.pos + 1)
        case With => Ok([f.value], f.pos + 2)
        case Comma => Ok([f.value], f.pos + 1)
        case RParen => Ok([f.value], f.pos + 1)
        case _ => Err
      else
        var more := ParseMore(ts, f.pos);
        if more.Err? then Err else Ok([f.value] + more.value, more.pos)
  }

  function ParseFields(ts: seq<Token>, pos: nat): (r: Parsed<seq<StreamField>>)
    ensures r.Ok? ==> pos < r.pos <= |ts|
    decreases Remaining(ts, pos), 2
  {
    if At(ts, pos) == LParen then ParseMore(ts, pos + 1) else Err
  }

  /** parseStreamField: the comma after the field is consumed, a closing parenthesis is not. */
  function ParseField(ts: seq<Token>, pos: nat): (r: Parsed<StreamField>)
    ensures r.Ok? ==> pos < r.pos <= |ts|
    decreases Remaining(ts, pos), 0
  {
    if !At(ts, pos).Ident? then Err
    else
      var t := ParseType(ts, pos + 1);
      if t.Err? then Err
      else
        var f := StreamField(At(ts, pos).lit, t.value);
        match At(ts, t.pos)
        case Comma => Ok(f, t.pos + 1)
        case RParen => Ok(f, t.pos)
        case _ => Err
  }

  function ParseType(ts: seq<Token>, pos: nat): (r: Parsed<FieldType>)
    ensures r.Ok? ==> pos < r.pos
    decreases Remaining(ts, pos), 0
  {
    match At(ts, pos)
    case TypeName(t) => Ok(Basic(t), pos + 1)
    case XArray => ParseArray(ts, pos + 1)
    case XStruct => ParseStruct(ts, pos + 1)
    case _ => Err
  }

  /** parseStreamArrayType: without a parenthesis a token is skipped and there is no type. */
  function ParseArray(ts: seq<Token>, pos: nat): (r: Parsed<FieldType>)
    ensures r.Ok? ==> pos < r.pos
    decreases Remaining(ts, pos), 3
  {
    if At(ts, pos) != LParen then Ok(Nil, pos + 1)
    else
      match At(ts, pos + 1)
      case TypeName(t) => if At(ts, pos + 2) == RParen then Ok(ArrayOf(t), pos + 3) else Err
      case XStruct =>
        var e := ParseStruct(ts, pos + 2);
        if e.Err? then Err
        else if At(ts, e.pos) == RParen then Ok(ArrayOfStruct(e.value), e.pos + 1) else Err
      case Comma => Ok(Nil, pos + 1)
      case _ => Err
  }

  /** parseStreamStructType: the token after the fields must be a comma or a closing parenthesis, and is pushed back. */
  function ParseStruct(ts: seq<Token>, pos: nat): (r: Parsed<FieldType>)
    ensures r.Ok? ==> pos < r.pos <= |ts|
    decreases Remaining(ts, pos), 3
  {
    var fs := ParseFields(ts, pos);
    if fs.Err? then Err
    else if Closes(At(ts, fs.pos)) then Ok(Struct(fs.value), fs.pos) else Err
  }

  predicate Closes(t: Token) {
    t == Comma || t == RParen
  }

  // ----- the printer

  /** The tokens of what printFieldType prints. */
  function Print(t: FieldType): (ts: seq<Token>) {
    match t
    case Basic(s) => [TypeName(s)]
    case ArrayOf(s) => [XArray, LParen] + [TypeName(s)] + [RParen]
    case ArrayOfStruct(e) => [XArray, LParen] + Print(e) + [RParen]
    case Struct(fs) => [XStruct, LParen] + PrintFields(fs) + [RParen]
    case Nil => []
  }

  function PrintFields(fs: seq<StreamField>): (ts: seq<Token>)
    decreases fs, 1
  {
    if fs == [] then []
    else [Ident(fs[0].name)] + Print(fs[0].ty) + PrintTail(fs)
  }

  /** What comes after the first field. */
  function PrintTail(fs: seq<StreamField>): (ts: seq<Token>)
    requires fs != []
    decreases fs, 0
  {
    if |fs| == 1 then [] else [Comma] + PrintFields(fs[1..])
  }

  /** Does the type have every part, structs at least one field, and only structs as compound elements? */
  predicate Complete(t: FieldType) {
    match t
    case Basic(_) => true
    case ArrayOf(_) => true
    case ArrayOfStruct(e) => e.Struct? && Complete(e)
    case Struct(fs) => fs != [] && AllComplete(fs)
    case Nil => false
  }

  predicate AllComplete(fs: seq<StreamField>) {
    fs == [] || (Complete(fs[0].ty) && AllComplete(fs[1..]))
  }

  // ----- reading what was printed

  predicate Here(ts: seq<Token>, pos: nat, end: nat, s: seq<Token>) {
    pos <= end <= |ts| && ts[pos..end] == s
  }

  lemma {:induction false} Split(ts: seq<Token>, pos: nat, end: nat, l: seq<Token>, s: seq<Token>, r: seq<Token>)
    requires Here(ts, pos, end, l + s + r)
    ensures Here(ts, pos, pos + |l|, l) && Here(ts, pos + |l|, end - |r|, s) && Here(ts, end - |r|, end, r)
  {
    var all := l + s + r;
    forall k | 0 <= k < |l| ensures ts[pos..pos + |l|][k] == l[k] {
      assert ts[pos..end][k] == all[k];
    }
    forall k | 0 <= k < |s| ensures ts[pos + |l|..end - |r|][k] == s[k] {
      assert ts[pos..end][|l| + k] == all[|l| + k];
    }
    forall k | 0 <= k < |r| ensures ts[end - |r|..end][k] == r[k] {
      assert ts[pos..end][|l| + |s| + k] == all[|l| + |s| + k];
    }
  }

  lemma {:induction false} HereAt(ts: seq<Token>, pos: nat, end: nat, s: seq<Token>, k: nat)
    requires Here(ts, pos, end, s) && k < |s|
    ensures At(ts, pos + k) == s[k]
  {
    assert ts[pos..end][k] == ts[pos + k];
  }

  /** The parts of a printed array or struct. */
  lemma {:induction false} Wrapped(ts: seq<Token>, pos: nat, end: nat, head: Token, s: seq<Token>)
    requires Here(ts, pos, end, [head, LParen] + s + [RParen])
    ensures Here(ts, pos + 2, end - 1, s)
    ensures At(ts, pos) == head && At(ts, pos + 1) == LParen && At(ts, end - 1) == RParen
  {
    Split(ts, pos, end, [head, LParen], s, [RParen]);
    HereAt(ts, pos, pos + 2, [head, LParen], 0);
    HereAt(ts, pos, pos + 2, [head, LParen], 1);
    HereAt(ts, end - 1, end, [RParen], 0);
  }

  /** The parts of a printed field list: its first field, and the others after a comma. */
  lemma {:induction false} FieldParts(ts: seq<Token>, pos: nat, end: nat, fs: seq<StreamField>)
    requires fs != [] && Here(ts, pos, end, PrintFields(fs))
    ensures var m := pos + 1 + |Print(fs[0].ty)|;
      && At(ts, pos) == Ident(fs[0].name) && Here(ts, pos + 1, m, Print(fs[0].ty))
      && Here(ts, m, end, PrintTail(fs))
  {
    Split(ts, pos, end, [Ident(fs[0].name)], Print(fs[0].ty), PrintTail(fs));
    HereAt(ts, pos, pos + 1, [Ident(fs[0].name)], 0);
  }

  lemma {:induction false} TailParts(ts: seq<Token>, m: nat, end: nat, fs: seq<StreamField>)
    requires |fs| > 1 && Here(ts, m, end, PrintTail(fs))
    ensures At(ts, m) == Comma && Here(ts, m + 1, end, PrintFields(fs[1..])) && At(ts, m + 1) == Ident(fs[1].name)
  {
    HereAt(ts, m, end, PrintTail(fs), 0);
    Split(ts, m, end, [Comma], PrintFields(fs[1..]), []);
    HereAt(ts, m + 1, end, PrintFields(fs[1..]), 0);
  }

  // ----- one step of each parser function

  lemma StructStep(ts: seq<Token>, pos: nat)
    requires At(ts, pos) == XStruct && At(ts, pos + 1) == LParen
    ensures var fs := ParseMore(ts, pos + 2);
      ParseType(ts, pos) == if fs.Ok? && Closes(At(ts, fs.pos)) then Ok(Struct(fs.value), fs.pos) else Err
  {
    assert ParseFields(ts, pos + 1) == ParseMore(ts, pos + 2);
  }

  lemma FieldStep(ts: seq<Token>, pos: nat)
    requires At(ts, pos).Ident?
    ensures var t := ParseType(ts, pos + 1);
      ParseField(ts, pos) ==
      if t.Ok? && Closes(At(ts, t.pos))
      then Ok(StreamField(At(ts, pos).lit, t.value), if At(ts, t.pos) == Comma then t.pos + 1 else t.pos) else Err
  {
  }

  /** What may follow a list: WITH, which is consumed, or a comma or closing parenthesis, which is not. */
  function ListEnd(ts: seq<Token>, fs: seq<StreamField>, pos: nat): (r: Parsed<seq<StreamField>>) {
    if At(ts, pos) == With then Ok(fs, pos + 1) else if Closes(At(ts, pos)) then Ok(fs, pos) else Err
  }

  /** The list goes on or stops with the field just read. */
  lemma MoreStep(ts: seq<Token>, pos: nat)
    requires At(ts, pos).Ident?
    ensures var f, more := ParseField(ts, pos), ParseMore(ts, pos);
      && (more.Ok? ==> f.Ok? && more.value != [] && more.value[0] == f.value)
      && (f.Ok? && At(ts, f.pos) == RParen ==> more == ListEnd(ts, [f.value], f.pos + 1))
      && (f.Ok? && At(ts, f.pos) != RParen ==>
        var others := ParseMore(ts, f.pos);
        more == if others.Ok? then Ok([f.value] + others.value, others.pos) else Err)
  {
  }

  // ----- round trip

  lemma {:induction false} TypeRead(ts: seq<Token>, pos: nat, end: nat, t: FieldType)
    requires Complete(t) && Here(ts, pos, end, Print(t)) && Closes(At(ts, end))
    ensures ParseType(ts, pos) == Ok(t, end)
    decreases t, 1
  {
    match t
    case Basic(_) => HereAt(ts, pos, end, Print(t), 0);
    case ArrayOf(s) =>
      Wrapped(ts, pos, end, XArray, [TypeName(s)]);
      HereAt(ts, pos + 2, end - 1, [TypeName(s)], 0);
    case ArrayOfStruct(e) =>
      Wrapped(ts, pos, end, XArray, Print(e));
      TypeRead(ts, pos + 2, end - 1, e);
      ElementRead(ts, pos, end, e);
    case Struct(fs) => StructRead(ts, pos, end, t);
  }

  lemma {:induction false} ElementRead(ts: seq<Token>, pos: nat, end: nat, e: FieldType)
    requires At(ts, pos) == XArray && At(ts, pos + 1) == LParen && pos + 2 < end && At(ts, end - 1) == RParen
    requires e.Struct? && Here(ts, pos + 2, end - 1, Print(e)) && ParseType(ts, pos + 2) == Ok(e, end - 1)
    ensures ParseType(ts, pos) == Ok(ArrayOfStruct(e), end)
  {
    Wrapped(ts, pos + 2, end - 1, XStruct, PrintFields(e.fields));
  }

  lemma {:induction false} StructRead(ts: seq<Token>, pos: nat, end: nat, t: FieldType)
    requires t.Struct? && Complete(t) && Here(ts, pos, end, Print(t)) && Closes(At(ts, end))
    ensures ParseType(ts, pos) == Ok(t, end)
    decreases t, 0
  {
    Wrapped(ts, pos, end, XStruct, PrintFields(t.fields));
    FieldsRead(ts, pos + 2, end - 1, t.fields);
    StructStep(ts, pos);
  }

  lemma {:induction false} FieldsRead(ts: seq<Token>, pos: nat, end: nat, fs: seq<StreamField>)
    requires fs != [] && AllComplete(fs) && Here(ts, pos, end, PrintFields(fs))
    requires At(ts, end) == RParen
    ensures ParseMore(ts, pos) == ListEnd(ts, fs, end + 1)
    decreases fs
  {
    var m := FirstRead(ts, pos, end, fs);
    MoreStep(ts, pos);
    if |fs| == 1 {
      assert fs == [fs[0]];
    } else {
      FieldsRead(ts, m + 1, end, fs[1..]);
      assert fs == [fs[0]] + fs[1..];
    }
  }

  lemma {:induction false} FirstRead(ts: seq<Token>, pos: nat, end: nat, fs: seq<StreamField>) returns (m: nat)
    requires fs != [] && Complete(fs[0].ty) && Here(ts, pos, end, PrintFields(fs)) && At(ts, end) == RParen
    ensures At(ts, pos).Ident?
    ensures if |fs| == 1 then m == end && ParseField(ts, pos) == Ok(fs[0], end)
      else
        && m < end && ParseField(ts, pos) == Ok(fs[0], m + 1)
        && Here(ts, m + 1, end, PrintFields(fs[1..])) && At(ts, m + 1).Ident?
    decreases fs, 0
  {
    m := pos + 1 + |Print(fs[0].ty)|;
    FieldParts(ts, pos, end, fs);
    if |fs| > 1 {
      TailParts(ts, m, end, fs);
    }
    TypeRead(ts, pos + 1, m, fs[0].ty);
    FieldStep(ts, pos);
  }

  // ----- what is not complete is not read back

  lemma {:induction false} TypeNotRead(ts: seq<Token>, pos: nat, end: nat, t: FieldType)
    requires !Complete(t) && Here(ts, pos, end, Print(t)) && Closes(At(ts, end))
    ensures ParseType(ts, pos).Ok? ==> ParseType(ts, pos).value != t
    decreases t, 1
  {
    match t
    case Nil =>
    case Struct(fs) =>
      Wrapped(ts, pos, end, XStruct, PrintFields(fs));
      StructStep(ts, pos);
      if fs != [] {
        FieldsNotRead(ts, pos + 2, end - 1, fs);
      }
    case ArrayOfStruct(e) =>
      Wrapped(ts, pos, end, XArray, Print(e));
      if e.Struct? {
        TypeNotRead(ts, pos + 2, end - 1, e);
      }
      ElementNotRead(ts, pos, end, e);
  }

  lemma {:induction false} ElementNotRead(ts: seq<Token>, pos: nat, end: nat, e: FieldType)
    requires At(ts, pos) == XArray && At(ts, pos + 1) == LParen && pos + 2 < end && At(ts, end - 1) == RParen
    requires Here(ts, pos + 2, end - 1, Print(e))
    requires e.Struct? ==> ParseType(ts, pos + 2).Ok? ==> ParseType(ts, pos + 2).value != e
    ensures ParseType(ts, pos).Ok? ==> ParseType(ts, pos).value != ArrayOfStruct(e)
  {
    if e.Struct? {
      Wrapped(ts, pos + 2, end - 1, XStruct, PrintFields(e.fields));
    } else if e != Nil {
      HereAt(ts, pos + 2, end - 1, Print(e), 0);
    }
  }

  lemma {:induction false} FieldsNotRead(ts: seq<Token>, pos: nat, end: nat, fs: seq<StreamField>)
    requires fs != [] && !AllComplete(fs) && Here(ts, pos, end, PrintFields(fs))
    requires At(ts, end) == RParen
    ensures ParseMore(ts, pos).Ok? ==> ParseMore(ts, pos).value != fs
    decreases fs
  {
    if !Complete(fs[0].ty) {
      FirstNotRead(ts, pos, end, fs);
      MoreStep(ts, pos);
    } else {
      var m := FirstRead(ts, pos, end, fs);
      MoreStep(ts, pos);
      FieldsNotRead(ts, m + 1, end, fs[1..]);
    }
  }

  lemma {:induction false} FirstNotRead(ts: seq<Token>, pos: nat, end: nat, fs: seq<StreamField>)
    requires fs != [] && !Complete(fs[0].ty) && Here(ts, pos, end, PrintFields(fs)) && At(ts, end) == RParen
    ensures At(ts, pos).Ident?
    ensures ParseField(ts, pos).Ok? ==> ParseField(ts, pos).value != fs[0]
    decreases fs, 0
  {
    var m := pos + 1 + |Print(fs[0].ty)|;
    FieldParts(ts, pos, end, fs);
    if |fs| > 1 {
      TailParts(ts, m, end, fs);
    }
    TypeNotRead(ts, pos + 1, m, fs[0].ty);
    FieldStep(ts, pos);
  }

  // ----- main results

  /** Parsing what was printed, before a comma or a closing parenthesis, gives the type back and consumes just that,
      exactly when the type is complete. */
  lemma {:induction false} PrintedTypeIsReadBack(before: seq<Token>, t: FieldType, after: seq<Token>)
    requires after != [] && Closes(after[0])
    ensures ParseType(before + Print(t) + after, |before|) == Ok(t, |before| + |Print(t)|) <==> Complete(t)
  {
    var ts := before + Print(t) + after;
    var end := |before| + |Print(t)|;
    assert ts[|before|..end] == Print(t);
    if Complete(t) {
      TypeRead(ts, |before|, end, t);
    } else {
      TypeNotRead(ts, |before|, end, t);
    }
  }

  /** The field list of a statement, the empty one included: printed before WITH it is read back, and WITH with it, if
      and only if every type in it is complete. */
  lemma {:induction false} FieldListIsReadBack(before: seq<Token>, fs: seq<StreamField>, after: seq<Token>)
    ensures var list := [LParen] + PrintFields(fs) + [RParen];
      ParseFields(before + list + [With] + after, |before|) == Ok(fs, |before + list| + 1) <==> AllComplete(fs)
  {
    var ts, end := Listing(before, fs, With, after), |before| + 1;
    ListParts(before, fs, With, after);
    if fs != [] && AllComplete(fs) {
      FieldsRead(ts, end, end + |PrintFields(fs)|, fs);
    } else if fs != [] {
      FieldsNotRead(ts, end, end + |PrintFields(fs)|, fs);
    }
  }

  function Listing(before: seq<Token>, fs: seq<StreamField>, next: Token, after: seq<Token>): (ts: seq<Token>) {
    before + ([LParen] + PrintFields(fs) + [RParen]) + [next] + after
  }

  lemma {:induction false} ListParts(before: seq<Token>, fs: seq<StreamField>, next: Token, after: seq<Token>)
    ensures var ts, pos, end := Listing(before, fs, next, after), |before| + 1, |before| + 1 + |PrintFields(fs)|;
      && At(ts, |before|) == LParen && Here(ts, pos, end, PrintFields(fs)) && At(ts, end) == RParen
      && At(ts, end + 1) == next && |ts| == end + 2 + |after|
  {
    var list := [LParen] + PrintFields(fs) + [RParen];
    Placed(before, list, [next], after);
    Parenthesized(Listing(before, fs, next, after), |before|, |before| + |list|, PrintFields(fs));
    HereAt(Listing(before, fs, next, after), |before| + |list|, |before| + |list| + 1, [next], 0);
  }

  lemma {:induction false} Placed(a: seq<Token>, b: seq<Token>, c: seq<Token>, d: seq<Token>)
    ensures var ts := a + b + c + d;
      && Here(ts, |a|, |a| + |b|, b) && Here(ts, |a| + |b|, |a| + |b| + |c|, c) && |ts| == |a| + |b| + |c| + |d|
  {
  }

  lemma {:induction false} Parenthesized(ts: seq<Token>, pos: nat, end: nat, s: seq<Token>)
    requires Here(ts, pos, end, [LParen] + s + [RParen])
    ensures pos + 2 <= end && At(ts, pos) == LParen && Here(ts, pos + 1, end - 1, s) && At(ts, end - 1) == RParen
  {
    Split(ts, pos, end, [LParen], s, [RParen]);
    HereAt(ts, pos, pos + 1, [LParen], 0);
    HereAt(ts, end - 1, end, [RParen], 0);
  }

  /** Before anything else: a list with fields may stand before a comma or a closing parenthesis, which stays; an empty
      list, and any other token, is an error. */
  lemma {:induction false} ListWithoutWith(before: seq<Token>, fs: seq<StreamField>, next: Token, after: seq<Token>)
    requires AllComplete(fs) && next != With
    ensures ParseFields(Listing(before, fs, next, after), |before|)
         == if fs != [] && Closes(next) then Ok(fs, |before| + 2 + |PrintFields(fs)|) else Err
  {
    var ts, end := Listing(before, fs, next, after), |before| + 1 + |PrintFields(fs)|;
    ListParts(before, fs, next, after);
    if fs != [] {
      FieldsRead(ts, |before| + 1, end, fs);
    }
  }

  /** Hence different complete types are printed differently. */
  lemma {:induction false} PrintIsInjective(t: FieldType, other: FieldType)
    requires Complete(t) && Complete(other) && Print(t) == Print(other)
    ensures t == other
  {
    PrintedTypeIsReadBack([], t, [RParen]);
    PrintedTypeIsReadBack([], other, [RParen]);
  }

  // ----- types that are not read back

  /** A struct without fields is printed, but not parsed. */
  lemma EmptyStructIsNotRead(close: Token)
    requires Closes(close)
    ensures Print(Struct([])) == [XStruct, LParen, RParen]
    ensures ParseType([XStruct, LParen, RParen, close], 0) == Err
  {
    var ts := [XStruct, LParen, RParen, close];
    assert Print(Struct([])) == [XStruct, LParen] + [] + [RParen];
    assert ParseMore(ts, 2) == Err;
    StructStep(ts, 0);
  }

  /** An array without an element type is parsed, to no type at all. */
  lemma ArrayOfNothingIsTaken(next: Token)
    requires next != LParen
    ensures ParseType([XArray, LParen, Comma], 0) == Ok(Nil, 2)
    ensures ParseType([XArray, next], 0) == Ok(Nil, 2)
  {
    var ts, ts' := [XArray, LParen, Comma], [XArray, next];
    assert At(ts, 0) == XArray && At(ts, 1) == LParen && At(ts, 2) == Comma;
    assert At(ts', 0) == XArray && At(ts', 1) == next;
  }
}
