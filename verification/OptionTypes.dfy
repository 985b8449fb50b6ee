/**
 The translation of Ansible option trees to Go types. `CompositeType` is the generator's recursive
 string builder; `Translate` is what it means: a Go type, or the error it raises.
 */
module OptionTypes {
  import opened Strings
  import opened Wrappers
  import opened GoText
  import Pascal

  /**
   An option as its documentation has it. A missing or empty `suboptions` is the same to the
   generator; a missing `contains` is not the same as an empty one.
   */
  datatype Opt = Opt(typ: Option<string>, elements: Option<string>, suboptions: seq<Field>,
                     contains: Contents, required: bool)

  datatype Field = Field(key: string, value: Opt)

  datatype Contents = Missing | Contents(fields: seq<Field>)

  datatype Error = UnknownType(t: string) | NoContains | BadElements(e: string)

  function ScalarType(t: string): Result<GoType, Error> {
    match t
    case "str" => Ok(Prim("string"))
    case "path" => Ok(Prim("string"))
    case "bool" => Ok(Prim("bool"))
    case "int" => Ok(Prim("int"))
    case "raw" => Ok(Prim("any"))
    case "float" => Ok(Prim("float64"))
    case "any" => Ok(Prim("any"))
    case "list" => Ok(Slice(Prim("any")))
    case _ => Err(UnknownType(t))
  }

  function TypeOf(o: Opt): string {
    if o.typ.Some? then o.typ.value else "str"
  }

  const OMIT := ",omitempty"

  function Tag(f: Field): string {
    f.key + (if f.value.required then "" else OMIT)
  }

  /** What the generator makes of an option. Note that a list of dicts is not a slice. */
  function Translate(o: Opt): Result<GoType, Error>
    decreases o, 1
  {
    if TypeOf(o) == "complex" then Ok(Prim("any"))
    else if TypeOf(o) == "list" then
      if o.elements.None? || o.elements.value == "" then Ok(Slice(Prim("any")))
      else if o.elements.value == "dict" then Members(o)
      else
        match ScalarType(o.elements.value)
        case Err(e) => Err(e)
        case Ok(elem) => Ok(Slice(elem))
    else if TypeOf(o) == "dict" then
      if o.elements.None? then Members(o)
      else if o.elements.value != "dict" then Err(BadElements(o.elements.value))
      else if o.contains.Missing? then Err(NoContains)
      else
        match TranslateFields(o.contains.fields)
        case Err(e) => Err(e)
        case Ok(_) => Members(o) // the contents were only good for their errors
    else ScalarType(TypeOf(o))
  }

  function Members(o: Opt): Result<GoType, Error>
    decreases o, 0
  {
    if o.suboptions == [] then Ok(MapAny)
    else
      match TranslateFields(o.suboptions)
      case Err(e) => Err(e)
      case Ok(fields) => Ok(Struct(fields))
  }

  /** The struct member for option `f`, whose own type is `typ`. */
  function Member(f: Field, typ: GoType): GoField {
    GoField(Pascal.PascalCased(f.key), !f.value.required, typ, Tag(f))
  }

  function TranslateFields(fields: seq<Field>): (r: Result<seq<GoField>, Error>)
    ensures r.Ok? ==> |r.value| == |fields|
    decreases fields, 0
  {
    if fields == [] then Ok([])
    else
      var f := fields[0];
      match Translate(f.value)
      case Err(e) => Err(e)
      case Ok(typ) =>
        match TranslateFields(fields[1..])
        case Err(e) => Err(e)
        case Ok(rest) => Ok([Member(f, typ)] + rest)
  }

  // ----- the string builder -----------------------------------------------------------------

  function Text(r: Result<GoType, Error>): Result<string, Error> {
    match r
    case Ok(g) => Ok(Print(g))
    case Err(e) => Err(e)
  }

  function FieldsText(start: string, r: Result<seq<GoField>, Error>): Result<string, Error> {
    match r
    case Ok(fields) => Ok(start + PrintFields(fields) + "\t}")
    case Err(e) => Err(e)
  }

  lemma {:induction false} PrintAppend(fields: seq<GoField>, f: GoField)
    ensures PrintFields(fields + [f]) == PrintFields(fields) + PrintField(f)
  {
    if fields == [] {
      assert fields + [f] == [f] && [f][1..] == [];
      assert PrintField(f) + "" == PrintField(f) && "" + PrintField(f) == PrintField(f);
    } else {
      PrintAppend(fields[1..], f);
      assert (fields + [f])[1..] == fields[1..] + [f];
      Assoc(PrintField(fields[0]), PrintFields(fields[1..]), PrintField(f));
    }
  }

  /** A translation that goes on after `first`. */
  function Onto(first: GoField, r: Result<seq<GoField>, Error>): Result<seq<GoField>, Error> {
    match r
    case Err(e) => Err(e)
    case Ok(rest) => Ok([first] + rest)
  }

  /** A translation that ends with the member for `f`. */
  function EndingWith(done: Result<seq<GoField>, Error>, f: Field): Result<seq<GoField>, Error> {
    match done
    case Err(e) => Err(e)
    case Ok(fields) =>
      match Translate(f.value)
      case Err(e) => Err(e)
      case Ok(typ) => Ok(fields + [Member(f, typ)])
  }

  lemma OntoEnding(first: GoField, done: Result<seq<GoField>, Error>, f: Field)
    ensures Onto(first, EndingWith(done, f)) == EndingWith(Onto(first, done), f)
  {
    if done.Ok? && Translate(f.value).Ok? {
      var last := Member(f, Translate(f.value).value);
      assert [first] + (done.value + [last]) == ([first] + done.value) + [last];
    }
  }

  lemma TranslateOne(f: Field)
    ensures TranslateFields([f]) == EndingWith(TranslateFields([]), f)
  {
    assert [f][1..] == [];
    if Translate(f.value).Ok? {
      var last := Member(f, Translate(f.value).value);
      assert [last] + [] == [] + [last];
    }
  }

  lemma {:induction false} TranslateAppend(fields: seq<Field>, f: Field)
    ensures TranslateFields(fields + [f]) == EndingWith(TranslateFields(fields), f)
  {
    if fields == [] {
      assert fields + [f] == [f];
      TranslateOne(f);
    } else {
      assert (fields + [f])[0] == fields[0] && (fields + [f])[1..] == fields[1..] + [f];
      TranslateAppend(fields[1..], f);
      if Translate(fields[0].value).Ok? {
        OntoEnding(Member(fields[0], Translate(fields[0].value).value), TranslateFields(fields[1..]), f);
      }
    }
  }

  lemma {:induction false} ErrorsStay(a: seq<Field>, b: seq<Field>)
    requires TranslateFields(a).Err?
    ensures TranslateFields(a + b) == TranslateFields(a)
  {
    if a != [] {
      assert (a + b)[0] == a[0] && (a + b)[1..] == a[1..] + b;
      if Translate(a[0].value).Ok? {
        ErrorsStay(a[1..], b);
      }
    }
  }

  /** The text of one member, piece by piece. */
  lemma MemberText(before: string, f: Field, typ: GoType)
    ensures var star := if f.value.required then "" else "*";
            var omit := if f.value.required then "" else OMIT;
            before + "\t\t" + Pascal.PascalCased(f.key) + " " + star + Print(typ) + JSON + f.key + omit + TAIL
            == before + PrintField(Member(f, typ))
  {
    var name := Pascal.PascalCased(f.key);
    var star := if f.value.required then "" else "*";
    var omit := if f.value.required then "" else OMIT;
    var p1 := "\t\t" + name;
    var p2 := p1 + " ";
    var p3 := p2 + star;
    var p4 := p3 + Print(typ);
    var p5 := p4 + JSON;
    Assoc(before, "\t\t", name);
    Assoc(before, p1, " ");
    Assoc(before, p2, star);
    Assoc(before, p3, Print(typ));
    Assoc(before, p4, JSON);
    Assoc(before + p5, f.key, omit);
    Assoc(before, p5, f.key + omit);
    Assoc(before, p5 + (f.key + omit), TAIL);
  }

  /** The body of the loops over struct members: one member is added to the text. */
  method AddMember(before: string, f: Field) returns (r: Result<string, Error>)
    ensures r == match Translate(f.value)
                 case Err(e) => Err(e)
                 case Ok(typ) => Ok(before + PrintField(Member(f, typ)))
    decreases f, 2
  {
    var required := f.value.required;
    var result := before;
    result := result + "\t\t";
    result := result + Pascal.PascalCased(f.key);
    result := result + " ";
    result := result + (if required then "" else "*");
    var inner := CompositeType(f.value);
    if inner.Err? {
      return Err(inner.error);
    }
    result := result + inner.value;
    result := result + " `json:\"";
    result := result + f.key;
    result := result + (if required then "" else ",omitempty");
    result := result + "\"`\n";
    MemberText(before, f, Translate(f.value).value);
    return Ok(result);
  }

  lemma MemberFails(before: seq<Field>, f: Field, after: seq<Field>)
    requires TranslateFields(before).Ok? && Translate(f.value).Err?
    ensures TranslateFields((before + [f]) + after) == Err(Translate(f.value).error)
  {
    TranslateAppend(before, f);
    ErrorsStay(before + [f], after);
  }

  /** One more member, both in the translation and in the text. */
  lemma MemberAdds(start: string, before: seq<Field>, f: Field, done: seq<GoField>, typ: GoType)
    requires TranslateFields(before) == Ok(done) && Translate(f.value) == Ok(typ)
    ensures TranslateFields(before + [f]) == Ok(done + [Member(f, typ)])
    ensures start + PrintFields(done) + PrintField(Member(f, typ)) == start + PrintFields(done + [Member(f, typ)])
  {
    TranslateAppend(before, f);
    PrintAppend(done, Member(f, typ));
    Assoc(start, PrintFields(done), PrintField(Member(f, typ)));
  }

  lemma CutAround(fields: seq<Field>, i: nat)
    requires i < |fields|
    ensures fields[..i + 1] == fields[..i] + [fields[i]]
    ensures (fields[..i] + [fields[i]]) + fields[i + 1..] == fields
  {
  }

  /** The loop over a struct's members: it grows the text member by member and stops at an error. */
  method StructType(start: string, fields: seq<Field>) returns (r: Result<string, Error>)
    ensures r == FieldsText(start, TranslateFields(fields))
    decreases fields, 0
  {
    var result := start;
    ghost var done := [];
    var i := 0;
    assert start + "" == start;
    while i < |fields|
      invariant 0 <= i <= |fields|
      invariant TranslateFields(fields[..i]) == Ok(done)
      invariant result == start + PrintFields(done)
    {
      var next := AddMember(result, fields[i]);
      CutAround(fields, i);
      if next.Err? {
        MemberFails(fields[..i], fields[i], fields[i + 1..]);
        return Err(next.error);
      }
      MemberAdds(start, fields[..i], fields[i], done, Translate(fields[i].value).value);
      result := next.value;
      done := done + [Member(fields[i], Translate(fields[i].value).value)];
      i := i + 1;
    }
    assert fields[..|fields|] == fields;
    result := result + "\t}";
    return Ok(result);
  }

  method CompositeType(o: Opt) returns (r: Result<string, Error>)
    ensures r == Text(Translate(o))
    decreases o, 1
  {
    var typ := if o.typ.Some? then o.typ.value else "str";
    if typ == "complex" {
      return Ok("any");
    } else if typ == "list" {
      if o.elements.None? || o.elements.value == "" {
        assert "[]any" == "[]" + "any";
        return Ok("[]any");
      }
      if o.elements.value == "dict" {
        if o.suboptions == [] {
          return Ok("map[string]any");
        }
        r := StructType("struct {", o.suboptions);
      } else {
        var elem := Text(ScalarType(o.elements.value));
        return if elem.Ok? then Ok("[]" + elem.value) else elem;
      }
    } else if typ == "dict" {
      if o.elements.Some? {
        if o.elements.value != "dict" {
          return Err(BadElements(o.elements.value));
        }
        if o.contains.Missing? {
          return Err(NoContains);
        }
        var discarded := StructType("map[string]struct {", o.contains.fields);
        if discarded.Err? {
          return Err(discarded.error);
        }
      }
      if o.suboptions == [] {
        return Ok("map[string]any");
      }
      r := StructType("struct {", o.suboptions);
    } else {
      return Text(ScalarType(typ));
    }
  }
}
