/**
 The Go type text the generator emits, and a parser for it. The parser knows nothing of how the
 text was made; it reads a type off the front of a text and gives back the rest. A field's tag is a
 raw string literal, which ends at the first back quote, and in it the value of the `json` key is a
 quoted string. The names of a struct's fields are distinct exported identifiers: JSON sees no others.
 */
module GoText {
  import opened Strings
  import opened Wrappers

  datatype GoType =
    | Prim(name: string)
    | Slice(elem: GoType)
    | MapAny
    | Struct(fields: seq<GoField>)

  /** `tag` is the value of the `json` key in the field's tag: a name, and options after commas. */
  datatype GoField = GoField(name: string, pointer: bool, typ: GoType, tag: string)

  const STRUCT := "struct {"
  const MAP := "map[string]any"
  const JSON := " `json:\""
  const TAIL := "\"`\n"

  function Print(g: GoType): string {
    match g
    case Prim(name) => name
    case Slice(elem) => "[]" + Print(elem)
    case MapAny => MAP
    case Struct(fields) => STRUCT + PrintFields(fields) + "\t}"
  }

  function PrintFields(fields: seq<GoField>): string {
    if fields == [] then "" else PrintField(fields[0]) + PrintFields(fields[1..])
  }

  function PrintField(f: GoField): string
    decreases f
  {
    "\t\t" + f.name + " " + (if f.pointer then "*" else "") + Print(f.typ) + JSON + f.tag + TAIL
  }

  // ----- the parser -------------------------------------------------------------------------

  const PRIMS := ["string", "bool", "int", "any", "float64"]

  /** Which of the scalar type names stands at the front of `s`. */
  function PrimAt(s: string): Option<string> {
    if "string" <= s then Some("string")
    else if "bool" <= s then Some("bool")
    else if "int" <= s then Some("int")
    else if "any" <= s then Some("any")
    else if "float64" <= s then Some("float64")
    else None
  }

  // ----- tags -------------------------------------------------------------------------------

  /**
   What a tag's value cannot hold and be read as it stands: a back quote ends the raw literal and a
   quote the value; a backslash starts an escape; a newline is an error in a quoted string, and a
   carriage return is dropped from a raw one.
   */
  const UNREADABLE := "`\"\\\n\r"

  predicate CleanTag(tag: string) {
    forall c :: c in tag ==> c !in UNREADABLE
  }

  const JSON_KEY := "json:\""

  /** The contents of the raw literal for a tag. */
  function Raw(tag: string): string {
    JSON_KEY + tag + "\""
  }

  /** The tag in a raw literal: the value of its `json` key, if that value is all it holds. */
  function Unquoted(raw: string): Option<string> {
    match Take(JSON_KEY, raw)
    case None => None
    case Some(body) =>
      if body == "" || body[|body| - 1] != '"' || !CleanTag(body[..|body| - 1]) then None
      else Some(body[..|body| - 1])
  }

  /** Reads a tag off the front of `s`: a blank, a raw literal and the end of the line. */
  function ReadTag(s: string): (r: Option<(string, string)>)
    ensures r.Some? ==> |r.value.1| < |s|
  {
    match Take(" `", s)
    case None => None
    case Some(s1) =>
      UntilCuts('`', s1);
      var raw := Until('`', s1);
      match Take("`\n", s1[|raw|..])
      case None => None
      case Some(rest) =>
        match Unquoted(raw)
        case None => None
        case Some(tag) => Some((tag, rest))
  }

  lemma TagText(tag: string, rest: string)
    ensures JSON + (tag + (TAIL + rest)) == " `" + (Raw(tag) + ("`\n" + rest))
  {
    assert JSON == " `" + JSON_KEY && TAIL + rest == "\"" + ("`\n" + rest);
    var end := "`\n" + rest;
    Assoc(" `", JSON_KEY, tag + ("\"" + end));
    Assoc(JSON_KEY, tag, "\"" + end);
    Assoc(JSON_KEY + tag, "\"", end);
  }

  lemma UnquotedInverts(raw: string)
    ensures Unquoted(raw).Some? ==> CleanTag(Unquoted(raw).value) && raw == Raw(Unquoted(raw).value)
  {
    if Unquoted(raw).Some? {
      var body := Take(JSON_KEY, raw).value;
      var tag := Unquoted(raw).value;
      assert body == tag + "\"";
      Assoc(JSON_KEY, tag, "\"");
    }
  }

  lemma RawIsUnquoted(tag: string)
    requires CleanTag(tag)
    ensures Unquoted(Raw(tag)) == Some(tag)
  {
    Assoc(JSON_KEY, tag, "\"");
    FrontOf(JSON_KEY, tag + "\"");
    assert (tag + "\"")[..|tag|] == tag;
  }

  lemma TagIsSound(s: string)
    ensures var r := ReadTag(s); r.Some? ==> CleanTag(r.value.0) && s == JSON + (r.value.0 + (TAIL + r.value.1))
  {
    var r := ReadTag(s);
    if r.Some? {
      var s1 := Take(" `", s).value;
      var raw := Until('`', s1);
      UntilCuts('`', s1);
      UnquotedInverts(raw);
      Joined(raw, s1);
      TagText(r.value.0, r.value.1);
    }
  }

  /** A clean tag has no back quote in its literal. */
  lemma RawHasNoTick(tag: string)
    ensures '`' in Raw(tag) <==> '`' in tag
  {
    assert '`' !in JSON_KEY && '`' !in "\"";
    var raw := Raw(tag);
    assert forall i :: 0 <= i < |tag| ==> raw[|JSON_KEY| + i] == tag[i];
  }

  lemma TagIsRead(tag: string, rest: string)
    requires CleanTag(tag)
    ensures ReadTag(JSON + (tag + (TAIL + rest))) == Some((tag, rest))
  {
    var raw := Raw(tag);
    var end := "`\n" + rest;
    TagText(tag, rest);
    FrontOf(" `", raw + end);
    assert '`' in UNREADABLE by {
      assert UNREADABLE[0] == '`';
    }
    RawHasNoTick(tag);
    UntilFinds('`', raw, end);
    FrontOf(raw, end);
    FrontOf("`\n", rest);
    RawIsUnquoted(tag);
  }

  // ----- types ------------------------------------------------------------------------------

  /** An identifier that starts with a capital; no keyword does. */
  predicate Exported(name: string) {
    name != "" && IsUpper(name[0]) && Word(name)
  }

  /** No two fields of one struct have the same name. */
  predicate DistinctNames(fields: seq<GoField>) {
    forall i, j :: 0 <= i < j < |fields| ==> fields[i].name != fields[j].name
  }

  /** Reads the start of a field off the front of `s`: its indentation, a name and a blank. */
  function ReadName(indent: string, s: string): (r: Option<(string, string)>)
    ensures r.Some? ==> |r.value.1| < |s|
  {
    match Take(indent, s)
    case None => None
    case Some(s0) =>
      UntilCuts(' ', s0);
      var name := Until(' ', s0);
      match Take(" ", s0[|name|..])
      case None => None
      case Some(s1) => if Exported(name) then Some((name, s1)) else None
  }

  lemma NameIsSound(indent: string, s: string)
    ensures var r := ReadName(indent, s);
            r.Some? ==> Exported(r.value.0) && s == indent + (r.value.0 + (" " + r.value.1))
  {
    if ReadName(indent, s).Some? {
      var s0 := Take(indent, s).value;
      UntilCuts(' ', s0);
      Joined(Until(' ', s0), s0);
    }
  }

  lemma NameIsRead(indent: string, name: string, s1: string)
    requires Exported(name)
    ensures ReadName(indent, indent + (name + (" " + s1))) == Some((name, s1))
  {
    FrontOf(indent, name + (" " + s1));
    assert ' ' !in name by {
      assert !WordChar(' ');
    }
    UntilFinds(' ', name, " " + s1);
    FrontOf(name, " " + s1);
    FrontOf(" ", s1);
  }

  function Parse(s: string): (r: Option<(GoType, string)>)
    ensures r.Some? ==> |r.value.1| < |s|
    decreases |s|, 1
  {
    if STRUCT <= s then
      match ParseFields(s[|STRUCT|..])
      case None => None
      case Some((fields, rest)) => if DistinctNames(fields) then Some((Struct(fields), rest)) else None
    else if MAP <= s then Some((MapAny, s[|MAP|..]))
    else if "[]" <= s then
      match Parse(s[2..])
      case None => None
      case Some((elem, rest)) => Some((Slice(elem), rest))
    else
      match PrimAt(s)
      case None => None
      case Some(name) => Some((Prim(name), s[|name|..]))
  }

  function ParseFields(s: string): (r: Option<(seq<GoField>, string)>)
    ensures r.Some? ==> |r.value.1| < |s|
    decreases |s|, 2
  {
    if "\t}" <= s then Some(([], s[2..]))
    else if "\t\t" <= s then
      match ParseField(s)
      case None => None
      case Some((f, rest)) =>
        match ParseFields(rest)
        case None => None
        case Some((fields, after)) => Some(([f] + fields, after))
    else None
  }

  function ParseField(s: string): (r: Option<(GoField, string)>)
    requires "\t\t" <= s
    ensures r.Some? ==> |r.value.1| < |s|
    decreases |s|, 0
  {
    match ReadName("\t\t", s)
    case None => None
    case Some((name, s1)) =>
      var pointer := "*" <= s1;
      var s2 := if pointer then s1[1..] else s1;
      match Parse(s2)
      case None => None
      case Some((typ, s3)) =>
        match ReadTag(s3)
        case None => None
        case Some((tag, s4)) => Some((GoField(name, pointer, typ, tag), s4))
  }

  // ----- what can be read back --------------------------------------------------------------

  /** Types that are Go and can be read back: known scalars, proper names, tags that are read as they stand. */
  predicate Clean(g: GoType) {
    match g
    case Prim(name) => name in PRIMS
    case Slice(elem) => Clean(elem)
    case MapAny => true
    case Struct(fields) => DistinctNames(fields) && CleanFields(fields)
  }

  predicate CleanFields(fields: seq<GoField>) {
    fields == [] || (CleanField(fields[0]) && CleanFields(fields[1..]))
  }

  predicate CleanField(f: GoField)
    decreases f
  {
    Exported(f.name) && CleanTag(f.tag) && Clean(f.typ)
  }

  /** The parser is sound: what it reads is what stands there, and it reads clean types only. */
  lemma {:induction false} ParseIsSound(s: string)
    ensures var r := Parse(s); r.Some? ==> Clean(r.value.0) && s == Print(r.value.0) + r.value.1
    decreases |s|, 1
  {
    if STRUCT <= s {
      FieldsAreSound(s[|STRUCT|..]);
      var r := ParseFields(s[|STRUCT|..]);
      if r.Some? {
        assert s == STRUCT + s[|STRUCT|..];
        Assoc(STRUCT, PrintFields(r.value.0) + "\t}", r.value.1);
        Assoc(STRUCT, PrintFields(r.value.0), "\t}");
      }
    } else if MAP <= s {
    } else if "[]" <= s {
      ParseIsSound(s[2..]);
      var r := Parse(s[2..]);
      if r.Some? {
        assert s == "[]" + s[2..];
        Assoc("[]", Print(r.value.0), r.value.1);
      }
    } else {
      var r := PrimAt(s);
      if r.Some? {
        assert s == r.value + s[|r.value|..];
        PrimsAreKnown(s);
      }
    }
  }

  lemma PrimsAreKnown(s: string)
    ensures PrimAt(s).Some? ==> PrimAt(s).value in PRIMS && PrimAt(s).value <= s
  {
    assert PRIMS[0] == "string" && PRIMS[1] == "bool" && PRIMS[2] == "int" && PRIMS[3] == "any" && PRIMS[4] == "float64";
  }

  lemma {:induction false} FieldsAreSound(s: string)
    ensures var r := ParseFields(s);
            r.Some? ==> CleanFields(r.value.0) && s == (PrintFields(r.value.0) + "\t}") + r.value.1
    decreases |s|, 2
  {
    if "\t}" <= s {
      assert s == "\t}" + s[2..];
      assert "" + "\t}" == "\t}";
    } else if "\t\t" <= s {
      FieldIsSound(s);
      var r := ParseField(s);
      if r.Some? {
        var (f, rest) := r.value;
        FieldsAreSound(rest);
        if ParseFields(rest).Some? {
          var (fields, after) := ParseFields(rest).value;
          FieldsText(f, fields, after);
          assert [f] + fields != [] && ([f] + fields)[0] == f && ([f] + fields)[1..] == fields;
        }
      }
    }
  }

  /** The pieces of a field's text, put together from the left. */
  lemma FieldText(f: GoField, rest: string)
    ensures PrintField(f) + rest ==
            "\t\t" + (f.name + (" " + ((if f.pointer then "*" else "") + (Print(f.typ) + (JSON + (f.tag + (TAIL + rest)))))))
  {
    var star := if f.pointer then "*" else "";
    var p1 := "\t\t" + f.name;
    var p2 := p1 + " ";
    var p3 := p2 + star;
    var p4 := p3 + Print(f.typ);
    var p5 := p4 + JSON;
    var p6 := p5 + f.tag;
    Assoc(p6, TAIL, rest);
    Assoc(p5, f.tag, TAIL + rest);
    Assoc(p4, JSON, f.tag + (TAIL + rest));
    Assoc(p3, Print(f.typ), JSON + (f.tag + (TAIL + rest)));
    var q := Print(f.typ) + (JSON + (f.tag + (TAIL + rest)));
    Assoc(p2, star, q);
    Assoc(p1, " ", star + q);
    Assoc("\t\t", f.name, " " + (star + q));
  }

  lemma {:induction false} FieldIsSound(s: string)
    requires "\t\t" <= s
    ensures var r := ParseField(s); r.Some? ==> CleanField(r.value.0) && s == PrintField(r.value.0) + r.value.1
    decreases |s|, 0
  {
    var r := ParseField(s);
    if r.Some? {
      var (f, rest) := r.value;
      var s1 := ReadName("\t\t", s).value.1;
      var s2 := if f.pointer then s1[1..] else s1;
      ParseIsSound(s2);
      var s3 := Parse(s2).value.1;
      NameIsSound("\t\t", s);
      TagIsSound(s3);
      Joined("*", s1);
      FieldPieces(f, s, s1, s2, rest);
    }
  }

  lemma Joined(p: string, s: string)
    ensures p <= s ==> s == p + s[|p|..]
  {
  }

  /** The pieces the parser cut off, put together again. */
  lemma FieldPieces(f: GoField, s: string, s1: string, s2: string, rest: string)
    requires s == "\t\t" + (f.name + (" " + s1))
    requires s1 == if f.pointer then "*" + s2 else s2
    requires s2 == Print(f.typ) + (JSON + (f.tag + (TAIL + rest)))
    ensures s == PrintField(f) + rest
  {
    FieldText(f, rest);
    if !f.pointer {
      assert "" + s2 == s2;
    }
  }

  lemma Differ(p: string, s: string, i: nat)
    requires i < |p| && (i < |s| ==> p[i] != s[i])
    ensures !(p <= s)
  {
  }

  lemma NotAStruct(s: string)
    requires s == "" || s[0] != 's' || (|s| > 3 && s[3] != 'u')
    requires s == "" || s[0] != 'm'
    ensures !(STRUCT <= s) && !(MAP <= s)
  {
    if s == "" || s[0] != 's' {
      Differ(STRUCT, s, 0);
    } else {
      Differ(STRUCT, s, 3);
    }
    Differ(MAP, s, 0);
  }

  lemma PrimIsFound(name: string, s: string)
    requires name in PRIMS && name <= s
    ensures s[0] !in "m[*" && (s[0] == 's' ==> |s| > 3 && s[3] == 'i') && PrimAt(s) == Some(name)
  {
    var i :| 0 <= i < |PRIMS| && PRIMS[i] == name;
    assert s[0] == name[0];
    if name == "string" {
      assert s[3] == name[3];
    } else {
      Differ("string", s, 0);
      if name != "bool" {
        Differ("bool", s, 0);
        if name != "int" {
          Differ("int", s, 0);
          if name != "any" {
            Differ("any", s, 0);
          }
        }
      }
    }
  }

  lemma PrimIsRead(name: string, rest: string)
    requires name in PRIMS
    ensures Parse(name + rest) == Some((Prim(name), rest))
  {
    var s := name + rest;
    FrontOf(name, rest);
    PrimIsFound(name, s);
    NotAStruct(s);
    Differ("[]", s, 0);
  }

  lemma SliceIsRead(elem: GoType, inner: string, rest: string)
    requires Parse(inner) == Some((elem, rest))
    ensures Parse("[]" + inner) == Some((Slice(elem), rest))
  {
    var s := "[]" + inner;
    FrontOf("[]", inner);
    assert s[0] == '[';
    NotAStruct(s);
  }

  /** The parser is complete: it reads every clean type back, whatever follows. */
  lemma {:induction false} CleanIsRead(g: GoType, rest: string)
    requires Clean(g)
    ensures Parse(Print(g) + rest) == Some((g, rest))
    decreases g, 1
  {
    match g
    case Prim(name) => PrimIsRead(name, rest);
    case Slice(elem) =>
      CleanIsRead(elem, rest);
      Assoc("[]", Print(elem), rest);
      SliceIsRead(elem, Print(elem) + rest, rest);
    case MapAny =>
      FrontOf(MAP, rest);
      assert (MAP + rest)[0] == 'm';
      Differ(STRUCT, MAP + rest, 0);
    case Struct(fields) =>
      FieldsAreRead(fields, rest);
      Assoc(STRUCT, PrintFields(fields) + "\t}", rest);
      Assoc(STRUCT, PrintFields(fields), "\t}");
      FrontOf(STRUCT, PrintFields(fields) + "\t}" + rest);
  }

  lemma FieldsText(f: GoField, fields: seq<GoField>, rest: string)
    ensures PrintFields([f] + fields) + "\t}" + rest == PrintField(f) + (PrintFields(fields) + "\t}" + rest)
  {
    assert ([f] + fields)[1..] == fields;
    Assoc(PrintField(f), PrintFields(fields), "\t}");
    Assoc(PrintField(f), PrintFields(fields) + "\t}", rest);
  }

  lemma NoFieldsAreRead(rest: string)
    ensures ParseFields("\t}" + rest) == Some(([], rest))
  {
    FrontOf("\t}", rest);
  }

  lemma {:induction false} FieldsAreRead(fields: seq<GoField>, rest: string)
    requires CleanFields(fields)
    ensures ParseFields(PrintFields(fields) + "\t}" + rest) == Some((fields, rest))
    decreases fields, 0
  {
    if fields == [] {
      NoFieldsAreRead(rest);
      assert PrintFields(fields) + "\t}" == "\t}";
    } else {
      var f, others := fields[0], fields[1..];
      var after := PrintFields(others) + "\t}" + rest;
      FieldsAreRead(others, rest);
      FieldIsRead(f, after);
      StartsField(f, after);
      FieldsStep(PrintField(f) + after, f, after, others, rest);
      FieldsText(f, others, rest);
      assert [f] + others == fields;
    }
  }

  /** The parser's own step from one field to the rest of them. */
  lemma FieldsStep(s: string, f: GoField, after: string, fields: seq<GoField>, rest: string)
    requires "\t\t" <= s && !("\t}" <= s) && ParseField(s) == Some((f, after))
    requires ParseFields(after) == Some((fields, rest))
    ensures ParseFields(s) == Some(([f] + fields, rest))
  {
  }

  lemma StartsField(f: GoField, rest: string)
    ensures "\t\t" <= PrintField(f) + rest && !("\t}" <= PrintField(f) + rest)
  {
    FieldText(f, rest);
    var more := f.name + (" " + ((if f.pointer then "*" else "") + (Print(f.typ) + (JSON + (f.tag + (TAIL + rest))))));
    FrontOf("\t\t", more);
    assert ("\t\t" + more)[1] == '\t';
  }

  /** No type starts with a star. */
  lemma NoStar(g: GoType, rest: string)
    requires Clean(g)
    ensures !("*" <= Print(g) + rest)
  {
    if g.Prim? {
      var i :| 0 <= i < |PRIMS| && PRIMS[i] == g.name;
    }
    assert Print(g) != "" && Print(g)[0] != '*';
    assert (Print(g) + rest)[0] == Print(g)[0];
  }

  lemma {:induction false} FieldIsRead(f: GoField, rest: string)
    requires CleanField(f)
    ensures "\t\t" <= PrintField(f) + rest && ParseField(PrintField(f) + rest) == Some((f, rest))
    decreases f, 2
  {
    var s := PrintField(f) + rest;
    var s3 := JSON + (f.tag + (TAIL + rest));
    var s2 := Print(f.typ) + s3;
    var s1 := (if f.pointer then "*" else "") + s2;
    StartsField(f, rest);
    FieldText(f, rest);
    NameIsRead("\t\t", f.name, s1);
    NoStar(f.typ, s3);
    CleanIsRead(f.typ, s3);
    TagIsRead(f.tag, rest);
    ReadSteps(f, s, s1, s2, s3, rest);
  }

  /** The parser's own steps on a text whose pieces are known. */
  lemma ReadSteps(f: GoField, s: string, s1: string, s2: string, s3: string, rest: string)
    requires "\t\t" <= s && ReadName("\t\t", s) == Some((f.name, s1))
    requires f.pointer <==> "*" <= s1
    requires s2 == if f.pointer then s1[1..] else s1
    requires Parse(s2) == Some((f.typ, s3))
    requires ReadTag(s3) == Some((f.tag, rest))
    ensures ParseField(s) == Some((f, rest))
  {
  }

  /** Exactly the clean types can be read back from their text. */
  lemma ReadBackIffClean(g: GoType)
    ensures Parse(Print(g)) == Some((g, "")) <==> Clean(g)
  {
    assert Print(g) + "" == Print(g);
    if Clean(g) {
      CleanIsRead(g, "");
    } else {
      ParseIsSound(Print(g));
    }
  }

  // ----- braces and literals ----------------------------------------------------------------

  /**
   Follows `s` from a brace depth of `d` as Go's scanner does, which sees no braces in raw literals:
   the depth it ends at and the literals on the way. `None` if a brace closes too many or the last
   literal is not finished.
   */
  function Lex(s: string, d: nat): Option<(nat, seq<string>)>
    decreases |s|
  {
    if s == "" then Some((d, []))
    else if s[0] == '`' then
      UntilCuts('`', s[1..]);
      var raw := Until('`', s[1..]);
      if |raw| + 1 == |s| then None else Before([raw], Lex(s[|raw| + 2..], d))
    else if s[0] == '{' then Lex(s[1..], d + 1)
    else if s[0] == '}' then (if d == 0 then None else Lex(s[1..], d - 1))
    else Lex(s[1..], d)
  }

  function Before(raws: seq<string>, r: Option<(nat, seq<string>)>): Option<(nat, seq<string>)> {
    match r
    case None => None
    case Some((d, more)) => Some((d, raws + more))
  }

  /** The literals a type's text is meant to have: the tags of its fields. */
  function Literals(g: GoType): seq<string> {
    match g
    case Prim(_) => []
    case Slice(elem) => Literals(elem)
    case MapAny => []
    case Struct(fields) => FieldLiterals(fields)
  }

  function FieldLiterals(fields: seq<GoField>): seq<string> {
    if fields == [] then [] else Literals(fields[0].typ) + [Raw(fields[0].tag)] + FieldLiterals(fields[1..])
  }

  predicate Flat(s: string) {
    '{' !in s && '}' !in s && '`' !in s
  }

  /** Scalar and field names hold neither braces nor back quotes. */
  predicate FlatNames(g: GoType) {
    match g
    case Prim(name) => Flat(name)
    case Slice(elem) => FlatNames(elem)
    case MapAny => true
    case Struct(fields) => FlatFieldNames(fields)
  }

  predicate FlatFieldNames(fields: seq<GoField>) {
    fields == [] || (Flat(fields[0].name) && FlatNames(fields[0].typ) && FlatFieldNames(fields[1..]))
  }

  predicate TickFree(raws: seq<string>) {
    forall r :: r in raws ==> '`' !in r
  }

  lemma BeforeTwice(a: seq<string>, b: seq<string>, r: Option<(nat, seq<string>)>)
    ensures Before(a, Before(b, r)) == Before(a + b, r) && Before([], r) == r
  {
    if r.Some? {
      assert a + (b + r.value.1) == (a + b) + r.value.1 && [] + r.value.1 == r.value.1;
    }
  }

  lemma {:induction false} LexSkips(a: string, rest: string, d: nat)
    requires Flat(a)
    ensures Lex(a + rest, d) == Lex(rest, d)
  {
    if a == "" {
      assert a + rest == rest;
    } else {
      assert (a + rest)[0] == a[0] && (a + rest)[1..] == a[1..] + rest;
      LexSkips(a[1..], rest, d);
    }
  }

  lemma LexRaw(raw: string, rest: string, d: nat)
    requires '`' !in raw
    ensures Lex("`" + (raw + ("`" + rest)), d) == Before([raw], Lex(rest, d))
  {
    var s := "`" + (raw + ("`" + rest));
    assert s[1..] == raw + ("`" + rest);
    UntilFinds('`', raw, "`" + rest);
    Assoc("`", raw, "`" + rest);
    Assoc("`" + raw, "`", rest);
    FrontOf(("`" + raw) + "`", rest);
  }

  lemma LexTag(tag: string, rest: string, d: nat)
    requires '`' !in tag
    ensures Lex(JSON + (tag + (TAIL + rest)), d) == Before([Raw(tag)], Lex(rest, d))
  {
    TagText(tag, rest);
    RawHasNoTick(tag);
    var raw := Raw(tag);
    assert "`\n" + rest == "`" + ("\n" + rest) && " `" + (raw + ("`\n" + rest)) == " " + ("`" + (raw + ("`\n" + rest)));
    LexSkips(" ", "`" + (raw + ("`\n" + rest)), d);
    LexRaw(raw, "\n" + rest, d);
    LexSkips("\n", rest, d);
  }

  lemma LexOpens(inner: string, d: nat)
    ensures Lex(STRUCT + inner, d) == Lex(inner, d + 1)
  {
    assert STRUCT + inner == "struct " + ("{" + inner);
    LexSkips("struct ", "{" + inner, d);
    assert ("{" + inner)[1..] == inner;
  }

  lemma LexCloses(rest: string, d: nat)
    ensures Lex("\t}" + rest, d + 1) == Lex(rest, d)
  {
    assert "\t}" + rest == "\t" + ("}" + rest);
    LexSkips("\t", "}" + rest, d + 1);
    assert ("}" + rest)[1..] == rest;
  }

  /** A text whose tags hold no back quote: the depth is as before, and the literals are the tags. */
  lemma {:induction false} LexesAsMeant(g: GoType, rest: string, d: nat)
    requires FlatNames(g) && TickFree(Literals(g))
    ensures Lex(Print(g) + rest, d) == Before(Literals(g), Lex(rest, d))
    decreases g, 1
  {
    BeforeTwice([], [], Lex(rest, d));
    match g
    case Prim(name) => LexSkips(name, rest, d);
    case Slice(elem) =>
      Assoc("[]", Print(elem), rest);
      LexSkips("[]", Print(elem) + rest, d);
      LexesAsMeant(elem, rest, d);
    case MapAny => LexSkips(MAP, rest, d);
    case Struct(fields) =>
      Assoc(PrintFields(fields), "\t}", rest);
      Assoc(STRUCT, PrintFields(fields) + "\t}", rest);
      Assoc(STRUCT, PrintFields(fields), "\t}");
      LexOpens(PrintFields(fields) + ("\t}" + rest), d);
      FieldsLexAsMeant(fields, "\t}" + rest, d + 1);
      LexCloses(rest, d);
  }

  lemma {:induction false} FieldsLexAsMeant(fields: seq<GoField>, rest: string, d: nat)
    requires FlatFieldNames(fields) && TickFree(FieldLiterals(fields))
    ensures Lex(PrintFields(fields) + rest, d) == Before(FieldLiterals(fields), Lex(rest, d))
    decreases fields, 0
  {
    if fields == [] {
      assert PrintFields(fields) + rest == rest;
      BeforeTwice([], [], Lex(rest, d));
    } else {
      var f, others := fields[0], fields[1..];
      var mine, theirs := Literals(f.typ) + [Raw(f.tag)], FieldLiterals(others);
      TicksApart(mine, theirs);
      TicksApart(Literals(f.typ), [Raw(f.tag)]);
      assert [Raw(f.tag)][0] in [Raw(f.tag)];
      Assoc(PrintField(f), PrintFields(others), rest);
      FieldLexesAsMeant(f, PrintFields(others) + rest, d);
      FieldsLexAsMeant(others, rest, d);
      BeforeTwice(mine, theirs, Lex(rest, d));
    }
  }

  lemma TicksApart(a: seq<string>, b: seq<string>)
    ensures TickFree(a + b) <==> TickFree(a) && TickFree(b)
  {
    assert forall r :: r in a + b <==> r in a || r in b;
  }

  lemma {:induction false} FieldLexesAsMeant(f: GoField, rest: string, d: nat)
    requires Flat(f.name) && FlatNames(f.typ) && TickFree(Literals(f.typ)) && '`' !in Raw(f.tag)
    ensures Lex(PrintField(f) + rest, d) == Before(Literals(f.typ) + [Raw(f.tag)], Lex(rest, d))
    decreases f, 2
  {
    var star := if f.pointer then "*" else "";
    var s3 := JSON + (f.tag + (TAIL + rest));
    var s2 := Print(f.typ) + s3;
    FieldText(f, rest);
    LexSkips("\t\t", f.name + (" " + (star + s2)), d);
    LexSkips(f.name, " " + (star + s2), d);
    LexSkips(" ", star + s2, d);
    LexSkips(star, s2, d);
    LexesAsMeant(f.typ, s3, d);
    RawHasNoTick(f.tag);
    LexTag(f.tag, rest, d);
    BeforeTwice(Literals(f.typ), [Raw(f.tag)], Lex(rest, d));
  }

  /** No literal the scanner finds holds a back quote. */
  lemma {:induction false} LexFindsNoTicks(s: string, d: nat)
    ensures Lex(s, d).Some? ==> TickFree(Lex(s, d).value.1)
    decreases |s|
  {
    if s != "" && s[0] == '`' {
      var raw := Until('`', s[1..]);
      UntilCuts('`', s[1..]);
      if |raw| + 1 != |s| {
        LexFindsNoTicks(s[|raw| + 2..], d);
      }
    } else if s != "" && (s[0] != '}' || d > 0) {
      LexFindsNoTicks(s[1..], if s[0] == '{' then d + 1 else if s[0] == '}' then d - 1 else d);
    }
  }

  /**
   The braces of a type's text balance, at whatever depth it is put, and its literals are exactly
   the tags of its fields, if and only if no tag holds a back quote.
   */
  lemma LexesAsMeantIff(g: GoType, d: nat)
    requires FlatNames(g)
    ensures Lex(Print(g), d) == Some((d, Literals(g))) <==> TickFree(Literals(g))
  {
    LexFindsNoTicks(Print(g), d);
    if TickFree(Literals(g)) {
      LexesAsMeant(g, "", d);
      assert Print(g) + "" == Print(g) && Literals(g) + [] == Literals(g);
    }
  }
}
