/** What the option translator promises: when it fails, and what its text gives back. */
module OptionTheorems {
  import opened Strings
  import opened Wrappers
  import opened GoText
  import opened OptionTypes
  import Pascal

  // ----- exactly when it fails --------------------------------------------------------------

  /** The error an option raises by itself, before any of its members is looked at. */
  function OwnError(o: Opt): Option<Error> {
    var t := TypeOf(o);
    if t == "complex" then None
    else if t == "list" then
      if o.elements.None? || o.elements.value in ["", "dict"] || o.elements.value in SCALARS then None
      else Some(UnknownType(o.elements.value))
    else if t == "dict" then
      if o.elements.None? then None
      else if o.elements.value != "dict" then Some(BadElements(o.elements.value))
      else if o.contains.Missing? then Some(NoContains)
      else None
    else if t in SCALARS then None
    else Some(UnknownType(t))
  }

  const SCALARS := {"str", "path", "bool", "int", "raw", "float", "any", "list"}

  /** Whether the members of `contains` are translated, only to be thrown away. */
  predicate Discards(o: Opt) {
    TypeOf(o) == "dict" && o.elements == Some("dict") && o.contains.Contents?
  }

  /** Whether the members of `suboptions` are translated and shown. */
  predicate Shows(o: Opt) {
    TypeOf(o) == "dict" || (TypeOf(o) == "list" && o.elements == Some("dict"))
  }

  /** All the options the generator may look at, in the order it does. */
  function Visited(o: Opt): seq<Opt> {
    [o] + (if Discards(o) then VisitedAll(o.contains.fields) else [])
        + (if Shows(o) then VisitedAll(o.suboptions) else [])
  }

  function VisitedAll(fields: seq<Field>): seq<Opt> {
    if fields == [] then [] else Visited(fields[0].value) + VisitedAll(fields[1..])
  }

  function FirstError(os: seq<Opt>): (r: Option<Error>)
    ensures r.None? <==> forall o :: o in os ==> OwnError(o).None?
  {
    if os == [] then None
    else if OwnError(os[0]).Some? then OwnError(os[0])
    else FirstError(os[1..])
  }

  lemma {:induction false} FirstErrorAppend(a: seq<Opt>, b: seq<Opt>)
    ensures FirstError(a + b) == if FirstError(a).Some? then FirstError(a) else FirstError(b)
  {
    if a == [] {
      assert a + b == b;
    } else {
      assert (a + b)[1..] == a[1..] + b;
      FirstErrorAppend(a[1..], b);
    }
  }

  function ErrorOf<T>(r: Result<T, Error>): Option<Error> {
    if r.Err? then Some(r.error) else None
  }

  lemma ScalarErrors(t: string)
    ensures ErrorOf(ScalarType(t)) == if t in SCALARS then None else Some(UnknownType(t))
  {
  }

  /** The option's own error comes first, then those of its contents, then those of its members. */
  lemma VisitedErrors(o: Opt)
    ensures FirstError(Visited(o)) ==
            if OwnError(o).Some? then OwnError(o)
            else if Discards(o) && FirstError(VisitedAll(o.contains.fields)).Some? then FirstError(VisitedAll(o.contains.fields))
            else if Shows(o) then FirstError(VisitedAll(o.suboptions))
            else None
  {
    var inner := if Discards(o) then VisitedAll(o.contains.fields) else [];
    var shown := if Shows(o) then VisitedAll(o.suboptions) else [];
    FirstErrorAppend([o] + inner, shown);
    FirstErrorAppend([o], inner);
    assert FirstError([o]) == OwnError(o) by {
      assert [o][1..] == [];
    }
  }

  /** An option without members of its own. */
  lemma PlainErrors(o: Opt)
    requires !Shows(o)
    ensures ErrorOf(Translate(o)) == OwnError(o) && !Discards(o)
  {
    ScalarErrors(TypeOf(o));
    if o.elements.Some? {
      ScalarErrors(o.elements.value);
    }
  }

  /** An option with members: its own error, then those of its contents, then those of its members. */
  lemma MemberErrors(o: Opt)
    requires Shows(o)
    ensures OwnError(o).Some? ==> ErrorOf(Translate(o)) == OwnError(o)
    ensures OwnError(o).None? && Discards(o) && TranslateFields(o.contains.fields).Err? ==>
              ErrorOf(Translate(o)) == ErrorOf(TranslateFields(o.contains.fields))
    ensures OwnError(o).None? && (Discards(o) ==> TranslateFields(o.contains.fields).Ok?) ==>
              Translate(o) == Members(o)
  {
  }

  /** The generator raises the error of the first option it visits that has one, and only then. */
  lemma {:induction false} FirstErrorIsRaised(o: Opt)
    ensures ErrorOf(Translate(o)) == FirstError(Visited(o))
    decreases o, 1
  {
    VisitedErrors(o);
    if Shows(o) {
      MemberErrors(o);
      if Discards(o) {
        FirstErrorIsRaisedIn(o.contains.fields);
      }
      FirstErrorIsRaisedIn(o.suboptions);
    } else {
      PlainErrors(o);
    }
  }

  lemma {:induction false} FirstErrorIsRaisedIn(fields: seq<Field>)
    ensures ErrorOf(TranslateFields(fields)) == FirstError(VisitedAll(fields))
    decreases fields, 0
  {
    if fields != [] {
      FirstErrorIsRaised(fields[0].value);
      FirstErrorIsRaisedIn(fields[1..]);
      FirstErrorAppend(Visited(fields[0].value), VisitedAll(fields[1..]));
    }
  }

  /** So it fails exactly when some visited option has an unsupported type or no `contains`. */
  lemma FailsIffSomeVisitedIsBad(o: Opt)
    ensures Translate(o).Err? <==> exists v :: v in Visited(o) && OwnError(v).Some?
  {
    FirstErrorIsRaised(o);
  }

  /** The same tree without what the `contains` of its dicts of dicts hold. */
  function Stripped(o: Opt): Opt
    decreases o, 1
  {
    var bare := if TypeOf(o) == "dict" && o.elements == Some("dict") then o.(elements := None, contains := Missing) else o;
    if Shows(o) then bare.(suboptions := StrippedAll(o.suboptions)) else bare
  }

  function StrippedAll(fields: seq<Field>): (r: seq<Field>)
    ensures |r| == |fields|
    decreases fields, 0
  {
    if fields == [] then []
    else [Field(fields[0].key, Stripped(fields[0].value))] + StrippedAll(fields[1..])
  }

  /**
   Contents matter for their errors only: taking them out of a whole tree, at every depth, leaves
   what is generated as it is, if anything is.
   */
  lemma {:induction false} ContentsAreDiscarded(o: Opt)
    requires Translate(o).Ok?
    ensures Translate(Stripped(o)) == Translate(o) && Stripped(o).required == o.required
    decreases o, 1
  {
    if Shows(o) {
      MemberErrors(o);
      StrippedShows(o);
      if o.suboptions != [] {
        MemberContentsAreDiscarded(o.suboptions);
      }
    }
  }

  /** A stripped option with members has nothing to fail but its members. */
  lemma StrippedShows(o: Opt)
    requires Shows(o) && Translate(o).Ok?
    ensures Translate(Stripped(o)) == Members(Stripped(o))
    ensures Stripped(o).suboptions == StrippedAll(o.suboptions)
  {
    MemberErrors(o);
    MemberErrors(Stripped(o));
  }

  lemma {:induction false} MemberContentsAreDiscarded(fields: seq<Field>)
    requires TranslateFields(fields).Ok?
    ensures TranslateFields(StrippedAll(fields)) == TranslateFields(fields)
    decreases fields, 0
  {
    if fields != [] {
      var first := Field(fields[0].key, Stripped(fields[0].value));
      ContentsAreDiscarded(fields[0].value);
      MemberContentsAreDiscarded(fields[1..]);
      assert StrippedAll(fields)[1..] == StrippedAll(fields[1..]) && StrippedAll(fields)[0] == first;
      assert Member(first, Translate(first.value).value) == Member(fields[0], Translate(first.value).value);
    }
  }

  // ----- how Go reads a tag -----------------------------------------------------------------

  /** ASCII characters a JSON name may have: letters, digits, blanks and marks other than quotes, commas and backslashes. */
  predicate JsonChar(c: char) {
    WordChar(c) || c in " !" || '#' <= c <= '&' || '(' <= c <= '+' || '-' <= c <= '/' || ':' <= c <= '@' || c == '['
    || ']' <= c <= '_' || '{' <= c <= '~'
  }

  predicate JsonName(name: string) {
    name != "" && forall c :: c in name ==> JsonChar(c)
  }

  /**
   The JSON key of a field: what stands before the first comma of its tag, or the field's own name if
   that is no JSON name; and a tag that is just `-` leaves the field out.
   */
  function KeyIn(f: GoField): Option<string> {
    if f.tag == "-" then None
    else if JsonName(Split(',', f.tag)[0]) then Some(Split(',', f.tag)[0])
    else Some(f.name)
  }

  /** The options in a tag's value: what stands after its first comma, split at the others. */
  function Options(tag: string): seq<string> {
    Split(',', tag)[1..]
  }

  predicate Omits(f: GoField) {
    "omitempty" in Options(f.tag)
  }

  lemma OmitPieces(key: string)
    ensures Split(',', key + OMIT) == Split(',', key) + ["omitempty"]
  {
    assert key + OMIT == key + [','] + "omitempty";
    SplitJoins(',', key, "omitempty", "");
    SplitNone(',', "omitempty", "");
    assert "" + "omitempty" == "omitempty";
  }

  lemma FirstPiece(key: string)
    ensures Split(',', key)[0] == key <==> ',' !in key
  {
    SplitHolds(',', key, "");
    assert Split(',', key)[0] in Split(',', key);
    if ',' !in key {
      SplitNone(',', key, "");
      assert "" + key == key;
    }
  }

  /** Whether a member keeps its option's key: it is a JSON name, or the member's own, and not left out. */
  predicate Kept(f: Field) {
    && !(f.value.required && f.key == "-")
    && (JsonName(f.key) || Pascal.PascalCased(f.key) == f.key)
  }

  lemma KeptHasNoComma(f: Field)
    requires Kept(f)
    ensures ',' !in f.key
  {
    assert !JsonChar(',') && ',' in Pascal.SEPARATORS;
    Pascal.NoSeparators(f.key, ',');
  }

  /** A member's tag gives its key back exactly when it keeps it. */
  lemma KeyIsKeptIff(f: Field, typ: GoType)
    ensures KeyIn(Member(f, typ)) == Some(f.key) <==> Kept(f)
  {
    FirstPiece(f.key);
    OmitPieces(f.key);
    assert f.key + "" == f.key;
    assert (Split(',', f.key) + ["omitempty"])[0] == Split(',', f.key)[0];
    assert Tag(f) == "-" <==> f.value.required && f.key == "-";
    if ',' in f.key {
      CommaIsLost(f, typ);
    }
  }

  lemma CommaIsLost(f: Field, typ: GoType)
    requires ',' in f.key
    ensures KeyIn(Member(f, typ)) != Some(f.key) && !Kept(f)
  {
    if Kept(f) {
      KeptHasNoComma(f);
    }
    assert ',' in Pascal.SEPARATORS;
    Pascal.NoSeparators(f.key, ',');
    SplitHolds(',', Tag(f), "");
    assert Split(',', Tag(f))[0] in Split(',', Tag(f));
  }

  /** A member that is not required always says `omitempty`; a required one only if its key does. */
  lemma OmitsIff(f: Field, typ: GoType)
    ensures Omits(Member(f, typ)) <==> (f.value.required ==> "omitempty" in Options(f.key))
  {
    if f.value.required {
      assert Tag(f) == f.key;
    } else {
      OmitPieces(f.key);
      var pieces := Split(',', f.key);
      assert (pieces + ["omitempty"])[|pieces|] == "omitempty";
      assert (pieces + ["omitempty"])[1..][|pieces| - 1] == "omitempty";
    }
  }

  /**
   `*` is there if and only if `omitempty` is, and both if and only if the option is not required,
   exactly when the option is not a required one whose key has `omitempty` after a comma.
   */
  lemma FlagsAgreeIff(f: Field, typ: GoType)
    ensures var m := Member(f, typ);
            && (m.pointer <==> !f.value.required)
            && ((Omits(m) <==> m.pointer) <==> !(f.value.required && "omitempty" in Options(f.key)))
  {
    OmitsIff(f, typ);
  }

  /** Such a key: the option is required, its member no pointer, and yet left out when empty. */
  lemma RequiredMemberOmits(x: string, o: Opt, typ: GoType)
    requires o.required
    ensures var m := Member(Field(x + OMIT, o), typ); !m.pointer && Omits(m)
  {
    OmitPieces(x);
    var pieces := Split(',', x);
    assert (pieces + ["omitempty"])[1..][|pieces| - 1] == "omitempty";
    OmitsIff(Field(x + OMIT, o), typ);
  }

  // ----- what the text gives back -----------------------------------------------------------

  /** The type of an option without members. */
  predicate MirrorsPlain(o: Opt, g: GoType) {
    if Shows(o) then g == MapAny
    else if TypeOf(o) == "complex" then g == Prim("any")
    else if TypeOf(o) == "list" then
      g.Slice? && (if o.elements.None? || o.elements.value == "" then g.elem == Prim("any")
                   else ScalarType(o.elements.value) == Ok(g.elem))
    else ScalarType(TypeOf(o)) == Ok(g)
  }

  /** The Go type shows the option: same members in order, their names, keys, flags and types. */
  predicate Mirrors(o: Opt, g: GoType)
    decreases o, 1
  {
    if Shows(o) && o.suboptions != [] then g.Struct? && MirrorsAll(o.suboptions, g.fields)
    else MirrorsPlain(o, g)
  }

  predicate MirrorsAll(fields: seq<Field>, gs: seq<GoField>)
    decreases fields, 0
  {
    if fields == [] then gs == [] else
    && gs != []
    && gs[0].name == Pascal.PascalCased(fields[0].key)
    && KeyIn(gs[0]) == Some(fields[0].key)
    && gs[0].pointer == !fields[0].value.required
    && Omits(gs[0]) == !fields[0].value.required
    && Mirrors(fields[0].value, gs[0].typ)
    && MirrorsAll(fields[1..], gs[1..])
  }

  /** The Go type has the option's members in order, with their names, tags and pointer flags. */
  predicate Shapes(o: Opt, g: GoType)
    decreases o, 1
  {
    if Shows(o) && o.suboptions != [] then g.Struct? && ShapesAll(o.suboptions, g.fields)
    else MirrorsPlain(o, g)
  }

  predicate ShapesAll(fields: seq<Field>, gs: seq<GoField>)
    decreases fields, 0
  {
    if fields == [] then gs == [] else
    && gs != []
    && gs[0] == Member(fields[0], gs[0].typ)
    && Shapes(fields[0].value, gs[0].typ)
    && ShapesAll(fields[1..], gs[1..])
  }

  /** What every shown key, at any depth, must be free of. */
  predicate KeysFree(o: Opt, chars: string)
    decreases o, 1
  {
    Shows(o) ==> AllKeysFree(o.suboptions, chars)
  }

  predicate AllKeysFree(fields: seq<Field>, chars: string)
    decreases fields, 0
  {
    fields == [] || (Free(fields[0].key, chars) && KeysFree(fields[0].value, chars) && AllKeysFree(fields[1..], chars))
  }

  predicate Free(key: string, chars: string) {
    forall c :: c in key ==> c !in chars
  }

  /** Every shown member keeps its key. */
  predicate KeysKept(o: Opt)
    decreases o, 1
  {
    Shows(o) ==> AllKeysKept(o.suboptions)
  }

  predicate AllKeysKept(fields: seq<Field>)
    decreases fields, 0
  {
    fields == [] || (Kept(fields[0]) && KeysKept(fields[0].value) && AllKeysKept(fields[1..]))
  }

  lemma MemberMirrorsIff(f: Field, typ: GoType)
    ensures var m := Member(f, typ);
            KeyIn(m) == Some(f.key) && Omits(m) == !f.value.required <==> Kept(f)
  {
    KeyIsKeptIff(f, typ);
    OmitsIff(f, typ);
    if Kept(f) {
      KeptHasNoComma(f);
      SplitNone(',', f.key, "");
    }
  }

  /**
   Every option that generates gives a type of its shape; and Go reads its names, keys, flags and
   nested types out of that type exactly when every shown member keeps its key.
   */
  lemma {:induction false} TranslationMirrors(o: Opt)
    requires Translate(o).Ok?
    ensures Shapes(o, Translate(o).value)
    ensures Mirrors(o, Translate(o).value) <==> KeysKept(o)
    decreases o, 1
  {
    if Shows(o) {
      MemberErrors(o);
      if o.suboptions != [] {
        MembersMirror(o.suboptions);
      }
    }
  }

  lemma {:induction false} MembersMirror(fields: seq<Field>)
    requires TranslateFields(fields).Ok?
    ensures ShapesAll(fields, TranslateFields(fields).value)
    ensures MirrorsAll(fields, TranslateFields(fields).value) <==> AllKeysKept(fields)
    decreases fields, 0
  {
    if fields != [] {
      var typ := Translate(fields[0].value).value;
      var rest := TranslateFields(fields[1..]).value;
      TranslationMirrors(fields[0].value);
      MembersMirror(fields[1..]);
      MemberMirrorsIff(fields[0], typ);
      assert ([Member(fields[0], typ)] + rest)[1..] == rest;
    }
  }

  // ----- which options are read back --------------------------------------------------------

  /** Separators that a JSON name cannot have: quotes of any kind and commas. */
  predicate Unnamed(c: char) {
    c == '`' || c == '"' || c == ',' || c == '\''
  }

  /** A key that names a field and is its JSON name. */
  predicate ReadableKey(key: string) {
    Pascal.Naming(key) && forall c :: c in key ==> !Unnamed(c)
  }

  /** The keys of one struct have different words, so its fields have different names. */
  predicate DistinctWords(fields: seq<Field>) {
    forall i, j :: 0 <= i < j < |fields| ==>
      Pascal.Glue(Pascal.WordsOf(fields[i].key)) != Pascal.Glue(Pascal.WordsOf(fields[j].key))
  }

  /**
   Every shown key is made of letters, digits, underscores and separators other than quotes of any
   kind and commas, its first letter or digit is a letter, and no two in one struct have the same words.
   */
  predicate Readable(o: Opt)
    decreases o, 1
  {
    Shows(o) ==> DistinctWords(o.suboptions) && AllReadable(o.suboptions)
  }

  predicate AllReadable(fields: seq<Field>)
    decreases fields, 0
  {
    fields == [] || (ReadableKey(fields[0].key) && Readable(fields[0].value) && AllReadable(fields[1..]))
  }

  lemma SeparatorsInJson(c: char)
    requires c in Pascal.SEPARATORS
    ensures JsonChar(c) || Unnamed(c)
  {
  }

  lemma UnreadableIsNoName(c: char)
    requires c in UNREADABLE
    ensures Unnamed(c) || (!WordChar(c) && c !in Pascal.SEPARATORS)
  {
    assert c == '`' || c == '"' || c == '\\' || c == '\n' || c == '\r';
  }

  lemma ReadableIsKept(f: Field)
    requires ReadableKey(f.key)
    ensures Kept(f)
  {
    forall c | c in f.key
      ensures JsonChar(c)
    {
      if c in Pascal.SEPARATORS {
        SeparatorsInJson(c);
      }
    }
    assert f.key != "" && f.key != "-" by {
      assert '-' in Pascal.SEPARATORS && "-"[1..] == "";
      assert Pascal.Core("-") == "" + Pascal.Core("");
    }
  }

  lemma ReadableTagIsClean(f: Field)
    requires ReadableKey(f.key)
    ensures CleanTag(Tag(f))
  {
    assert Free(OMIT, UNREADABLE);
    forall c | c in UNREADABLE
      ensures c !in f.key
    {
      UnreadableIsNoName(c);
    }
  }

  lemma ScalarsAreClean(t: string)
    ensures ScalarType(t).Ok? ==> Clean(ScalarType(t).value)
  {
    assert PRIMS[0] == "string" && PRIMS[1] == "bool" && PRIMS[2] == "int" && PRIMS[3] == "any" && PRIMS[4] == "float64";
  }

  lemma PlainIsClean(o: Opt)
    requires Translate(o).Ok? && !Shows(o)
    ensures Clean(Translate(o).value)
  {
    ScalarsAreClean(TypeOf(o));
    ScalarsAreClean("any");
    if o.elements.Some? {
      ScalarsAreClean(o.elements.value);
    }
    assert Prim("any") == ScalarType("any").value;
  }

  lemma {:induction false} NamesOfMembers(fields: seq<Field>, i: nat)
    requires TranslateFields(fields).Ok? && i < |fields|
    ensures TranslateFields(fields).value[i].name == Pascal.PascalCased(fields[i].key)
  {
    if i > 0 {
      NamesOfMembers(fields[1..], i - 1);
    }
  }

  /** The names of a struct's fields are distinct exactly when the words of its keys are. */
  lemma NamesDistinctIff(fields: seq<Field>, gs: seq<GoField>)
    requires |gs| == |fields| && forall i :: 0 <= i < |fields| ==> gs[i].name == Pascal.PascalCased(fields[i].key)
    ensures DistinctNames(gs) <==> DistinctWords(fields)
  {
    forall i, j | 0 <= i < j < |fields|
      ensures gs[i].name == gs[j].name <==>
              Pascal.Glue(Pascal.WordsOf(fields[i].key)) == Pascal.Glue(Pascal.WordsOf(fields[j].key))
    {
      Pascal.CollisionIffSameWords(fields[i].key, fields[j].key);
    }
  }

  lemma {:induction false} ReadableIsClean(o: Opt)
    requires Translate(o).Ok? && Readable(o)
    ensures Clean(Translate(o).value) && KeysKept(o)
    decreases o, 1
  {
    if Shows(o) {
      MemberErrors(o);
      if o.suboptions != [] {
        var gs := TranslateFields(o.suboptions).value;
        forall i | 0 <= i < |gs|
          ensures gs[i].name == Pascal.PascalCased(o.suboptions[i].key)
        {
          NamesOfMembers(o.suboptions, i);
        }
        NamesDistinctIff(o.suboptions, gs);
        ReadableAreClean(o.suboptions);
      }
    } else {
      PlainIsClean(o);
    }
  }

  lemma {:induction false} ReadableAreClean(fields: seq<Field>)
    requires TranslateFields(fields).Ok? && AllReadable(fields)
    ensures CleanFields(TranslateFields(fields).value) && AllKeysKept(fields)
    decreases fields, 0
  {
    if fields != [] {
      var f, typ := fields[0], Translate(fields[0].value).value;
      var rest := TranslateFields(fields[1..]).value;
      ReadableIsClean(f.value);
      ReadableAreClean(fields[1..]);
      ReadableIsKept(f);
      ReadableTagIsClean(f);
      Pascal.IdentifierIsGoIff(f.key);
      assert ([Member(f, typ)] + rest)[1..] == rest;
    }
  }

  predicate Named(fields: seq<Field>, gs: seq<GoField>) {
    if fields == [] then gs == []
    else gs != [] && gs[0].name == Pascal.PascalCased(fields[0].key) && Named(fields[1..], gs[1..])
  }

  lemma {:induction false} MirroredIsNamed(fields: seq<Field>, gs: seq<GoField>)
    requires MirrorsAll(fields, gs)
    ensures Named(fields, gs)
    decreases fields
  {
    if fields != [] {
      MirroredIsNamed(fields[1..], gs[1..]);
    }
  }

  lemma {:induction false} NamedCount(fields: seq<Field>, gs: seq<GoField>)
    requires Named(fields, gs)
    ensures |gs| == |fields|
  {
    if fields != [] {
      NamedCount(fields[1..], gs[1..]);
    }
  }

  lemma {:induction false} NamedAt(fields: seq<Field>, gs: seq<GoField>, i: nat)
    requires Named(fields, gs) && i < |fields| && |gs| == |fields|
    ensures gs[i].name == Pascal.PascalCased(fields[i].key)
  {
    if i > 0 {
      NamedAt(fields[1..], gs[1..], i - 1);
    }
  }

  lemma MirroredNames(fields: seq<Field>, gs: seq<GoField>)
    requires MirrorsAll(fields, gs)
    ensures |gs| == |fields| && forall i :: 0 <= i < |fields| ==> gs[i].name == Pascal.PascalCased(fields[i].key)
  {
    MirroredIsNamed(fields, gs);
    NamedCount(fields, gs);
    forall i | 0 <= i < |fields|
      ensures gs[i].name == Pascal.PascalCased(fields[i].key)
    {
      NamedAt(fields, gs, i);
    }
  }

  /** A clean type shows an option only if the option's keys are readable. */
  lemma {:induction false} MirroredIsReadable(o: Opt, g: GoType)
    requires Mirrors(o, g) && Clean(g)
    ensures Readable(o)
    decreases o, 1
  {
    if Shows(o) && o.suboptions != [] {
      MirroredNames(o.suboptions, g.fields);
      NamesDistinctIff(o.suboptions, g.fields);
      MirroredAreReadable(o.suboptions, g.fields);
    }
  }

  lemma {:induction false} MirroredAreReadable(fields: seq<Field>, gs: seq<GoField>)
    requires MirrorsAll(fields, gs) && CleanFields(gs)
    ensures AllReadable(fields)
    decreases fields, 0
  {
    if fields != [] {
      KeyIsReadable(gs[0], fields[0].key);
      MirroredIsReadable(fields[0].value, gs[0].typ);
      MirroredAreReadable(fields[1..], gs[1..]);
    }
  }

  lemma KeyHasJsonChars(f: GoField, key: string)
    requires Exported(f.name) && KeyIn(f) == Some(key)
    ensures forall c :: c in key ==> JsonChar(c)
  {
  }

  lemma KeyIsReadable(f: GoField, key: string)
    requires Exported(f.name) && f.name == Pascal.PascalCased(key) && KeyIn(f) == Some(key)
    ensures ReadableKey(key)
  {
    Pascal.IdentifierIsGoIff(key);
    KeyHasJsonChars(f, key);
  }

  /** Reading the emitted text as Go does gives a type that shows the option, and nothing is left over. */
  predicate ReadsBack(o: Opt)
    requires Translate(o).Ok?
  {
    match Parse(Print(Translate(o).value))
    case None => false
    case Some((h, rest)) => rest == "" && Mirrors(o, h)
  }

  /**
   The round trip: for every option that generates, the emitted text is a Go type that gives back its
   members' order, names, JSON keys, flags and nested types, if and only if the option is readable.
   */
  lemma TextIsReadBack(o: Opt)
    requires Translate(o).Ok?
    ensures ReadsBack(o) <==> Readable(o)
    ensures Readable(o) ==> Parse(Print(Translate(o).value)) == Some((Translate(o).value, ""))
  {
    var text := Print(Translate(o).value);
    ReadBackIffClean(Translate(o).value);
    TranslationMirrors(o);
    ParseIsSound(text);
    if ReadsBack(o) {
      MirroredIsReadable(o, Parse(text).value.0);
    }
    if Readable(o) {
      ReadableIsClean(o);
    }
  }

  /** A dict with one required string in it. */
  function Holder(key: string): Opt {
    Opt(Some("dict"), None, [Field(key, Opt(None, None, [], Missing, true))], Missing, true)
  }

  lemma HolderTranslates(key: string)
    ensures Translate(Holder(key)) == Ok(Struct([GoField(Pascal.PascalCased(key), false, Prim("string"), key)]))
  {
    var fields := Holder(key).suboptions;
    assert fields[1..] == [] && TypeOf(fields[0].value) == "str";
    var m := Member(fields[0], Prim("string"));
    assert m.tag == key + "" == key;
    assert TranslateFields(fields) == Ok([m] + []) && [m] + [] == [m];
    assert Translate(Holder(key)) == Members(Holder(key)) by {
      MemberErrors(Holder(key));
    }
  }

  lemma HolderIsReadable(key: string)
    ensures Readable(Holder(key)) <==> ReadableKey(key)
  {
    var fields := Holder(key).suboptions;
    var inner := fields[0].value;
    assert Shows(Holder(key)) && fields[0].key == key && DistinctWords(fields);
    assert TypeOf(inner) == "str" && !Shows(inner) && Readable(inner);
    assert fields[1..] == [] && AllReadable(fields[1..]);
    assert AllReadable(fields) <==> ReadableKey(key);
  }

  /** A single key is read back exactly when it is readable. */
  lemma KeyReadsBackIff(key: string)
    ensures Translate(Holder(key)).Ok? && (ReadsBack(Holder(key)) <==> ReadableKey(key))
  {
    HolderTranslates(key);
    HolderIsReadable(key);
    TextIsReadBack(Holder(key));
  }

  /** Such characters lose a key wherever they stand in it: quotes of any kind, commas, what no name has. */
  lemma UnreadableKeyIsLost(x: string, c: char, y: string)
    requires c in UNREADABLE || Unnamed(c) || !(WordChar(c) || c in Pascal.SEPARATORS)
    ensures Translate(Holder(x + [c] + y)).Ok? && !ReadsBack(Holder(x + [c] + y))
  {
    var key := x + [c] + y;
    assert key[|x|] == c && c in key;
    KeyReadsBackIff(key);
    if c in UNREADABLE {
      UnreadableIsNoName(c);
    }
  }

  /** So is a key whose first letter or digit is a digit: its member's name is no identifier. */
  lemma NumberedKeyIsLost(d: char, x: string)
    requires '0' <= d <= '9'
    ensures Translate(Holder([d] + x)).Ok? && !ReadsBack(Holder([d] + x))
  {
    Pascal.NumberedIsNoName(d, x);
    KeyReadsBackIff([d] + x);
  }

  /** And one of separators and underscores only: its member has no name. */
  lemma NamelessKeyIsLost(key: string)
    requires Pascal.Core(key) == ""
    ensures Translate(Holder(key)).Ok? && !ReadsBack(Holder(key))
  {
    KeyReadsBackIff(key);
  }

  /** Two keys with the same words are lost in one struct, whatever the options: they name one field. */
  lemma CollidingKeysAreLost(o: Opt, i: nat, j: nat)
    requires Translate(o).Ok? && Shows(o) && i < j < |o.suboptions|
    requires Pascal.PascalCased(o.suboptions[i].key) == Pascal.PascalCased(o.suboptions[j].key)
    ensures !ReadsBack(o)
  {
    TextIsReadBack(o);
    Pascal.CollisionIffSameWords(o.suboptions[i].key, o.suboptions[j].key);
  }

  // ----- braces and literals ----------------------------------------------------------------

  lemma NameIsFlat(key: string)
    ensures Flat(Pascal.PascalCased(key))
  {
    assert '{' in Pascal.SEPARATORS && '}' in Pascal.SEPARATORS && '`' in Pascal.SEPARATORS;
    Pascal.NoSeparators(key, '{');
    Pascal.NoSeparators(key, '}');
    Pascal.NoSeparators(key, '`');
  }

  lemma ScalarsAreFlat(t: string)
    requires ScalarType(t).Ok?
    ensures FlatNames(ScalarType(t).value) && Literals(ScalarType(t).value) == []
  {
    assert Flat("string") && Flat("bool") && Flat("int") && Flat("any") && Flat("float64");
  }

  lemma PlainIsFlat(o: Opt)
    requires Translate(o).Ok? && !Shows(o)
    ensures FlatNames(Translate(o).value) && Literals(Translate(o).value) == []
  {
    ScalarsAreFlat("any");
    assert ScalarType("any").value == Prim("any");
    if ScalarType(TypeOf(o)).Ok? {
      ScalarsAreFlat(TypeOf(o));
    }
    if o.elements.Some? && ScalarType(o.elements.value).Ok? {
      ScalarsAreFlat(o.elements.value);
    }
  }

  lemma MemberTicks(f: Field)
    ensures '`' in Raw(Tag(f)) <==> '`' in f.key
  {
    RawHasNoTick(Tag(f));
    assert '`' !in OMIT;
    assert forall i :: 0 <= i < |f.key| ==> Tag(f)[i] == f.key[i];
  }

  lemma {:induction false} TranslationIsFlat(o: Opt)
    requires Translate(o).Ok?
    ensures FlatNames(Translate(o).value)
    ensures TickFree(Literals(Translate(o).value)) <==> KeysFree(o, "`")
    decreases o, 1
  {
    if Shows(o) {
      MemberErrors(o);
      if o.suboptions != [] {
        MembersAreFlat(o.suboptions);
      }
    } else {
      PlainIsFlat(o);
    }
  }

  lemma {:induction false} MembersAreFlat(fields: seq<Field>)
    requires TranslateFields(fields).Ok?
    ensures FlatFieldNames(TranslateFields(fields).value)
    ensures TickFree(FieldLiterals(TranslateFields(fields).value)) <==> AllKeysFree(fields, "`")
    decreases fields, 0
  {
    if fields != [] {
      var f, typ := fields[0], Translate(fields[0].value).value;
      var rest := TranslateFields(fields[1..]).value;
      TranslationIsFlat(f.value);
      MembersAreFlat(fields[1..]);
      NameIsFlat(f.key);
      MemberTicks(f);
      assert ([Member(f, typ)] + rest)[1..] == rest;
      TicksApart(Literals(typ) + [Raw(Tag(f))], FieldLiterals(rest));
      TicksApart(Literals(typ), [Raw(Tag(f))]);
      assert TickFree([Raw(Tag(f))]) <==> '`' !in Raw(Tag(f)) by {
        assert [Raw(Tag(f))][0] in [Raw(Tag(f))];
      }
      assert Free(f.key, "`") <==> '`' !in f.key;
    }
  }

  /**
   As Go scans it, the emitted text's braces balance at every depth and its raw literals are exactly
   the members' tags, if and only if no shown key holds a back quote. Braces in keys do no harm.
   */
  lemma TextBalances(o: Opt, d: nat)
    requires Translate(o).Ok?
    ensures var g := Translate(o).value;
            Lex(Print(g), d) == Some((d, Literals(g))) <==> KeysFree(o, "`")
  {
    TranslationIsFlat(o);
    LexesAsMeantIff(Translate(o).value, d);
  }

  /** A back-quoted brace in a key is scanned as one, and closes the struct too early. */
  lemma TickedBraceUnbalances(x: string, y: string)
    requires Flat(x) && Flat(y)
    ensures var key := x + "`}`" + y;
            Translate(Holder(key)).Ok? && Lex(Print(Translate(Holder(key)).value), 0).None?
  {
    var key := x + "`}`" + y;
    var f := GoField(Pascal.PascalCased(key), false, Prim("string"), key);
    HolderTranslates(key);
    NameIsFlat(key);
    assert PrintFields([f]) == PrintField(f) + PrintFields([]) && [f][1..] == [];
    TickedFieldCloses(f, x, y, "\t}");
    LexOpens(PrintField(f) + "\t}", 0);
    assert PrintField(f) + "" == PrintField(f);
    Assoc(STRUCT, PrintField(f), "\t}");
  }

  /** The field's text, scanned at depth one, comes to a second closing brace at depth zero. */
  lemma TickedFieldCloses(f: GoField, x: string, y: string, rest: string)
    requires f.tag == x + "`}`" + y && Flat(x) && Flat(y) && Flat(f.name) && !f.pointer && f.typ == Prim("string")
    requires rest == "\t}"
    ensures Lex(PrintField(f) + rest, 1).None?
  {
    var end := TAIL + rest;
    var body := f.tag + end;
    FieldText(f, rest);
    assert Flat("\t\t") && Flat(" ") && Flat("") && Flat("string");
    LexSkips("\t\t", f.name + (" " + ("" + (Print(f.typ) + (JSON + body)))), 1);
    LexSkips(f.name, " " + ("" + (Print(f.typ) + (JSON + body))), 1);
    LexSkips(" ", "" + (Print(f.typ) + (JSON + body)), 1);
    LexSkips("", Print(f.typ) + (JSON + body), 1);
    LexSkips("string", JSON + body, 1);
    TickedTag(x, y, end);
    TagLeavesOff(x, y, rest);
  }

  lemma TickedTag(x: string, y: string, end: string)
    ensures JSON + ((x + "`}`" + y) + end) == " " + ("`" + ((JSON_KEY + x) + ("`" + ("}" + ("`" + (y + end))))))
  {
    assert JSON == " " + ("`" + JSON_KEY);
    assert (x + "`}`" + y) + end == x + ("`" + ("}" + ("`" + (y + end))));
    Assoc(JSON_KEY, x, "`" + ("}" + ("`" + (y + end))));
  }

  lemma TagLeavesOff(x: string, y: string, rest: string)
    requires Flat(x) && Flat(y) && rest == "\t}"
    ensures Lex(" " + ("`" + ((JSON_KEY + x) + ("`" + ("}" + ("`" + (y + (TAIL + rest))))))), 1).None?
  {
    var last := "`" + (y + (TAIL + rest));
    assert '`' !in JSON_KEY;
    LexSkips(" ", "`" + ((JSON_KEY + x) + ("`" + ("}" + last))), 1);
    LexRaw(JSON_KEY + x, "}" + last, 1);
    assert ("}" + last)[1..] == last;
    var second := y + "\"";
    assert y + (TAIL + rest) == second + ("`" + ("\n" + rest));
    LexRaw(second, "\n" + rest, 0);
    LexSkips("\n\t", "}", 0);
    assert "\n" + rest == "\n\t" + "}";
  }
}
