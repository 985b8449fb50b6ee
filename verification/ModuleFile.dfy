/**
 One module's generated file: the enum declarations of its options with choices, and the members of
 its parameters struct. Comments are left out, but not the errors raised while writing them: every
 option must have a description, and the default of a list with choices must be a list of strings.
 */
module ModuleFile {
  import opened Strings
  import opened Wrappers
  import opened GoText
  import OptionTheorems
  import OptionTypes
  import Pascal

  /** A default: none, a list (`None` is an item that is no string), or anything else, null included. */
  datatype Default = NoDefault | Listed(items: seq<Option<string>>) | Single

  /** A module's option. An empty choice-key map is the same to the generator as none. */
  datatype Entry = Entry(key: string, value: OptionTypes.Opt, described: bool, default: Default,
                         choices: Option<seq<string>>, choiceKeys: map<string, string>)

  datatype Decl =
    | TypeDecl(name: string, underlying: GoType)
    | ConstDecl(name: string, of: string, choice: string)
    | HelperDecl(name: string, of: string)

  datatype TypeRef = Enum(name: string) | Plain(typ: GoType)

  datatype Param = Param(name: string, pointer: bool, typ: TypeRef, tag: string)

  datatype Fail =
    | MissingType(key: string)
    | MissingDescription(key: string)
    | BadType(e: OptionTypes.Error)
    | UnmappedChoice(choice: string)
    | BadDefault(key: string)

  function TypeName(name: string, key: string): string {
    Pascal.PascalCased(name) + Pascal.PascalCased(key)
  }

  // ----- the enum loop ----------------------------------------------------------------------

  /** The Go type behind an enum: that of the elements, if the option says what they are. */
  function EnumType(e: Entry): Result<GoType, OptionTypes.Error>
    requires e.value.typ.Some?
  {
    if e.value.elements.Some? && e.value.elements.value != "" then OptionTypes.ScalarType(e.value.elements.value)
    else OptionTypes.ScalarType(e.value.typ.value)
  }

  /** The identifier part a choice contributes. */
  function ChoiceKey(e: Entry, choice: string): Result<string, Fail> {
    if e.choiceKeys == map[] then Ok(Pascal.PascalCased(choice))
    else if choice in e.choiceKeys then Ok(e.choiceKeys[choice])
    else Err(UnmappedChoice(choice))
  }

  function Consts(name: string, e: Entry, choices: seq<string>): Result<seq<Decl>, Fail> {
    if choices == [] then Ok([])
    else
      match ChoiceKey(e, choices[0])
      case Err(f) => Err(f)
      case Ok(part) =>
        match Consts(name, e, choices[1..])
        case Err(f) => Err(f)
        case Ok(rest) => Ok([ConstDecl(TypeName(name, e.key) + part, TypeName(name, e.key), choices[0])] + rest)
  }

  /** Whether an option gets a type of its own; looking at the type of one that has none is an error. */
  predicate IsEnum(e: Entry) {
    e.choices.Some? && e.value.typ.Some? && e.value.typ.value != "raw"
  }

  function EntryDecls(name: string, e: Entry): Result<seq<Decl>, Fail> {
    if e.choices.None? then Ok([])
    else if e.value.typ.None? then Err(MissingType(e.key))
    else if !IsEnum(e) then Ok([])
    else
      match EnumType(e)
      case Err(x) => Err(BadType(x))
      case Ok(typ) =>
        if !e.described then Err(MissingDescription(e.key)) else
        match Consts(name, e, e.choices.value)
        case Err(f) => Err(f)
        case Ok(consts) =>
          Ok([TypeDecl(TypeName(name, e.key), typ)] + consts
             + if e.value.required then []
               else [HelperDecl("Optional" + TypeName(name, e.key), TypeName(name, e.key))])
  }

  function Decls(name: string, entries: seq<Entry>): Result<seq<Decl>, Fail> {
    if entries == [] then Ok([])
    else
      match EntryDecls(name, entries[0])
      case Err(f) => Err(f)
      case Ok(first) =>
        match Decls(name, entries[1..])
        case Err(f) => Err(f)
        case Ok(rest) => Ok(first + rest)
  }

  method EmitConsts(name: string, e: Entry, choices: seq<string>) returns (r: Result<seq<Decl>, Fail>)
    ensures r == Consts(name, e, choices)
  {
    var decls := [];
    var i := 0;
    assert choices[0..] == choices;
    assert forall rest: seq<Decl> :: decls + rest == rest;
    while i < |choices|
      invariant 0 <= i <= |choices|
      invariant Consts(name, e, choices) ==
                match Consts(name, e, choices[i..]) case Err(f) => Err(f) case Ok(rest) => Ok(decls + rest)
    {
      var part: string;
      if e.choiceKeys != map[] {
        if choices[i] !in e.choiceKeys {
          return Err(UnmappedChoice(choices[i]));
        }
        part := e.choiceKeys[choices[i]];
      } else {
        part := Pascal.PascalCased(choices[i]);
      }
      var decl := ConstDecl(TypeName(name, e.key) + part, TypeName(name, e.key), choices[i]);
      assert choices[i..][1..] == choices[i + 1..];
      assert forall rest: seq<Decl> :: decls + ([decl] + rest) == (decls + [decl]) + rest;
      decls := decls + [decl];
      i := i + 1;
    }
    assert decls + [] == decls;
    return Ok(decls);
  }

  method EmitEntry(name: string, e: Entry) returns (r: Result<seq<Decl>, Fail>)
    ensures r == EntryDecls(name, e)
  {
    if e.choices.None? {
      return Ok([]);
    }
    if e.value.typ.None? {
      return Err(MissingType(e.key));
    }
    if e.value.typ.value == "raw" {
      return Ok([]);
    }
    var enumType: Result<GoType, OptionTypes.Error>;
    if e.value.elements.Some? && e.value.elements.value != "" {
      enumType := OptionTypes.ScalarType(e.value.elements.value);
    } else {
      enumType := OptionTypes.ScalarType(e.value.typ.value);
    }
    if enumType.Err? {
      return Err(BadType(enumType.error));
    }
    if !e.described {
      return Err(MissingDescription(e.key));
    }
    var decls := [TypeDecl(TypeName(name, e.key), enumType.value)];
    var consts := EmitConsts(name, e, e.choices.value);
    if consts.Err? {
      return consts;
    }
    decls := decls + consts.value;
    assert decls + [] == decls;
    if !e.value.required {
      decls := decls + [HelperDecl("Optional" + TypeName(name, e.key), TypeName(name, e.key))];
    }
    return Ok(decls);
  }

  method EmitDecls(name: string, entries: seq<Entry>) returns (r: Result<seq<Decl>, Fail>)
    ensures r == Decls(name, entries)
  {
    var decls := [];
    var i := 0;
    assert entries[0..] == entries;
    assert forall rest: seq<Decl> :: decls + rest == rest;
    while i < |entries|
      invariant 0 <= i <= |entries|
      invariant Decls(name, entries) ==
                match Decls(name, entries[i..]) case Err(f) => Err(f) case Ok(rest) => Ok(decls + rest)
    {
      var next := EmitEntry(name, entries[i]);
      assert entries[i..][1..] == entries[i + 1..];
      if next.Err? {
        return next;
      }
      assert forall rest: seq<Decl> :: decls + (next.value + rest) == (decls + next.value) + rest;
      decls := decls + next.value;
      i := i + 1;
    }
    assert decls + [] == decls;
    return Ok(decls);
  }

  // ----- the parameters struct --------------------------------------------------------------

  /** What is raised while the comment on a default is made: only a list with choices is looked into. */
  function DefaultError(e: Entry): Option<Fail> {
    if e.default.NoDefault? || e.choices.None? then None
    else if e.value.typ.None? then Some(MissingType(e.key))
    else if e.value.typ.value == "list" && (e.default.Single? || None in e.default.items) then Some(BadDefault(e.key))
    else None
  }

  method CheckDefault(e: Entry) returns (r: Option<Fail>)
    ensures r == DefaultError(e)
  {
    if e.default == NoDefault || e.choices.None? {
      return None;
    }
    if e.value.typ.None? {
      return Some(MissingType(e.key));
    }
    if e.value.typ.value == "list" {
      if !e.default.Listed? {
        return Some(BadDefault(e.key));
      }
      for i := 0 to |e.default.items|
        invariant None !in e.default.items[..i]
      {
        if e.default.items[i].None? {
          return Some(BadDefault(e.key));
        }
      }
      assert e.default.items[..|e.default.items|] == e.default.items;
    }
    return None;
  }

  function ParamOf(name: string, e: Entry): Result<Param, Fail> {
    var pascal := Pascal.PascalCased(e.key);
    var tag := e.key + (if e.value.required then "" else OptionTypes.OMIT);
    if !e.described then Err(MissingDescription(e.key))
    else if DefaultError(e).Some? then Err(DefaultError(e).value)
    else if e.choices.Some? && e.value.typ.None? then Err(MissingType(e.key))
    else if IsEnum(e) then Ok(Param(pascal, !e.value.required, Enum(TypeName(name, e.key)), tag))
    else
      match OptionTypes.Translate(e.value)
      case Err(x) => Err(BadType(x))
      case Ok(g) => Ok(Param(pascal, !e.value.required, Plain(g), tag))
  }

  function Params(name: string, entries: seq<Entry>): Result<seq<Param>, Fail> {
    if entries == [] then Ok([])
    else
      match ParamOf(name, entries[0])
      case Err(f) => Err(f)
      case Ok(p) =>
        match Params(name, entries[1..])
        case Err(f) => Err(f)
        case Ok(rest) => Ok([p] + rest)
  }

  function RefText(t: TypeRef): string {
    match t
    case Enum(name) => name
    case Plain(g) => Print(g)
  }

  function ParamText(p: Param): string {
    "\t" + p.name + " " + (if p.pointer then "*" else "") + RefText(p.typ) + " `json:\"" + p.tag + "\"`\n\n"
  }

  function ParamsText(ps: seq<Param>): string {
    if ps == [] then "" else ParamText(ps[0]) + ParamsText(ps[1..])
  }

  /** The text so far, followed by that of the members still to come. */
  function Followed(text: string, r: Result<seq<Param>, Fail>): Result<string, Fail> {
    match r
    case Err(f) => Err(f)
    case Ok(ps) => Ok(text + ParamsText(ps))
  }

  lemma FollowedStep(text: string, name: string, entries: seq<Entry>)
    requires entries != []
    ensures Followed(text, Params(name, entries)) ==
            match ParamOf(name, entries[0])
            case Err(f) => Err(f)
            case Ok(p) => Followed(text + ParamText(p), Params(name, entries[1..]))
  {
    if ParamOf(name, entries[0]).Ok? && Params(name, entries[1..]).Ok? {
      var p := ParamOf(name, entries[0]).value;
      var rest := Params(name, entries[1..]).value;
      assert ([p] + rest)[1..] == rest;
      Assoc(text, ParamText(p), ParamsText(rest));
    }
  }

  /** The text of one member, piece by piece. */
  lemma ParamPieces(before: string, p: Param, key: string, omit: string)
    requires p.tag == key + omit
    ensures var star := if p.pointer then "*" else "";
            before + "\t" + p.name + " " + star + RefText(p.typ) + " `json:\"" + key + omit + "\"`\n\n" == before + ParamText(p)
  {
    var star := if p.pointer then "*" else "";
    var p1 := "\t" + p.name;
    var p2 := p1 + " ";
    var p3 := p2 + star;
    var p4 := p3 + RefText(p.typ);
    var p5 := p4 + " `json:\"";
    Assoc(before, "\t", p.name);
    Assoc(before, p1, " ");
    Assoc(before, p2, star);
    Assoc(before, p3, RefText(p.typ));
    Assoc(before, p4, " `json:\"");
    Assoc(before + p5, key, omit);
    Assoc(before, p5, key + omit);
    Assoc(before, p5 + (key + omit), "\"`\n\n");
  }

  method AddParam(before: string, name: string, e: Entry) returns (r: Result<string, Fail>)
    ensures r == match ParamOf(name, e) case Err(f) => Err(f) case Ok(p) => Ok(before + ParamText(p))
  {
    if !e.described {
      return Err(MissingDescription(e.key));
    }
    var odd := CheckDefault(e);
    if odd.Some? {
      return Err(odd.value);
    }
    var text := before;
    text := text + "\t";
    text := text + Pascal.PascalCased(e.key);
    text := text + " ";
    text := text + (if e.value.required then "" else "*");
    if e.choices.Some? && e.value.typ.None? {
      return Err(MissingType(e.key));
    }
    if e.choices.Some? && e.value.typ.value != "raw" {
      text := text + TypeName(name, e.key);
    } else {
      var typ := OptionTypes.CompositeType(e.value);
      if typ.Err? {
        return Err(BadType(typ.error));
      }
      text := text + typ.value;
    }
    text := text + " `json:\"";
    text := text + e.key;
    text := text + (if e.value.required then "" else ",omitempty");
    text := text + "\"`\n\n";
    ParamPieces(before, ParamOf(name, e).value, e.key, if e.value.required then "" else OptionTypes.OMIT);
    return Ok(text);
  }

  method EmitParams(name: string, entries: seq<Entry>) returns (r: Result<string, Fail>)
    ensures r == Followed("", Params(name, entries))
  {
    var text := "";
    var i := 0;
    assert entries[0..] == entries;
    while i < |entries|
      invariant 0 <= i <= |entries|
      invariant Followed("", Params(name, entries)) == Followed(text, Params(name, entries[i..]))
    {
      var next := AddParam(text, name, entries[i]);
      FollowedStep(text, name, entries[i..]);
      assert entries[i..][1..] == entries[i + 1..];
      if next.Err? {
        return next;
      }
      text := next.value;
      i := i + 1;
    }
    assert text + "" == text;
    return Ok(text);
  }

  // ----- the two loops agree ----------------------------------------------------------------

  function Declared(decls: seq<Decl>): seq<string> {
    if decls == [] then []
    else (if decls[0].TypeDecl? then [decls[0].name] else []) + Declared(decls[1..])
  }

  function Referenced(ps: seq<Param>): seq<string> {
    if ps == [] then []
    else (if ps[0].typ.Enum? then [ps[0].typ.name] else []) + Referenced(ps[1..])
  }

  lemma {:induction false} DeclaredAppend(a: seq<Decl>, b: seq<Decl>)
    ensures Declared(a + b) == Declared(a) + Declared(b)
  {
    if a == [] {
      assert a + b == b;
    } else {
      assert (a + b)[1..] == a[1..] + b;
      DeclaredAppend(a[1..], b);
    }
  }

  /** Declaring the constants of an enum fails exactly when a choice-key map leaves one of them out. */
  lemma {:induction false} ConstsFailIff(name: string, e: Entry, choices: seq<string>)
    ensures Consts(name, e, choices).Ok? <==> e.choiceKeys == map[] || forall c :: c in choices ==> c in e.choiceKeys
  {
    if choices != [] {
      ConstsFailIff(name, e, choices[1..]);
      assert forall c :: c in choices <==> c == choices[0] || c in choices[1..];
    }
  }

  predicate ConstFor(name: string, e: Entry, choice: string, d: Decl) {
    && d.ConstDecl? && d.of == TypeName(name, e.key) && d.choice == choice
    && ChoiceKey(e, choice).Ok? && d.name == TypeName(name, e.key) + ChoiceKey(e, choice).value
  }

  lemma {:induction false} ConstsCount(name: string, e: Entry, choices: seq<string>)
    requires Consts(name, e, choices).Ok?
    ensures |Consts(name, e, choices).value| == |choices|
  {
    if choices != [] {
      ConstsCount(name, e, choices[1..]);
    }
  }

  lemma {:induction false} ConstAt(name: string, e: Entry, choices: seq<string>, i: nat)
    requires Consts(name, e, choices).Ok? && i < |choices|
    ensures i < |Consts(name, e, choices).value| && ConstFor(name, e, choices[i], Consts(name, e, choices).value[i])
    decreases i
  {
    if i > 0 {
      ConstAt(name, e, choices[1..], i - 1);
    }
  }

  /** The constants of an enum are its choices, in order and with their own values. */
  lemma ConstsAreChoices(name: string, e: Entry, choices: seq<string>)
    requires Consts(name, e, choices).Ok?
    ensures var consts := Consts(name, e, choices).value;
            && |consts| == |choices|
            && forall i :: 0 <= i < |choices| ==> ConstFor(name, e, choices[i], consts[i])
  {
    ConstsCount(name, e, choices);
    forall i | 0 <= i < |choices|
      ensures ConstFor(name, e, choices[i], Consts(name, e, choices).value[i])
    {
      ConstAt(name, e, choices, i);
    }
  }

  lemma {:induction false} NoTypesDeclared(decls: seq<Decl>)
    requires forall d :: d in decls ==> !d.TypeDecl?
    ensures Declared(decls) == []
  {
    if decls != [] {
      NoTypesDeclared(decls[1..]);
    }
  }

  /** What the constants are not: types, or constants of another type. */
  lemma ConstsAreNoTypes(name: string, e: Entry, choices: seq<string>)
    requires Consts(name, e, choices).Ok?
    ensures Declared(Consts(name, e, choices).value) == []
    ensures forall d :: d in Consts(name, e, choices).value ==> d.ConstDecl? && d.of == TypeName(name, e.key)
  {
    var consts := Consts(name, e, choices).value;
    ConstsAreChoices(name, e, choices);
    forall d | d in consts
      ensures d.ConstDecl? && d.of == TypeName(name, e.key)
    {
      var i :| 0 <= i < |consts| && consts[i] == d;
      assert ConstFor(name, e, choices[i], d);
    }
    NoTypesDeclared(consts);
  }

  lemma EntryDeclares(name: string, e: Entry)
    requires EntryDecls(name, e).Ok?
    ensures Declared(EntryDecls(name, e).value) == if IsEnum(e) then [TypeName(name, e.key)] else []
    ensures forall d :: d in EntryDecls(name, e).value && !d.TypeDecl? ==> d.of == TypeName(name, e.key)
  {
    if IsEnum(e) {
      var consts := Consts(name, e, e.choices.value).value;
      ConstsAreNoTypes(name, e, e.choices.value);
      var t := TypeDecl(TypeName(name, e.key), EnumType(e).value);
      var h := HelperDecl("Optional" + TypeName(name, e.key), TypeName(name, e.key));
      DeclaredAppend([t] + consts, [h]);
      DeclaredAppend([t], consts);
      assert [t][1..] == [] && [h][1..] == [];
      assert [t] + consts + [] == [t] + consts;
    }
  }

  /** What an enum option declares, in order: its type, a constant for each choice, and a helper if it is not required. */
  lemma EnumDeclares(name: string, e: Entry)
    requires IsEnum(e) && EntryDecls(name, e).Ok?
    ensures var decls, n := EntryDecls(name, e).value, |e.choices.value|;
            && |decls| == 1 + n + (if e.value.required then 0 else 1)
            && decls[0].TypeDecl?
            && (forall i :: 0 <= i < n ==> ConstFor(name, e, e.choices.value[i], decls[1 + i]))
            && (!e.value.required ==> decls[1 + n].HelperDecl? && decls[1 + n].name == "Optional" + decls[0].name)
  {
    ConstsAreChoices(name, e, e.choices.value);
    var consts := Consts(name, e, e.choices.value).value;
    var decls := EntryDecls(name, e).value;
    forall i | 0 <= i < |consts|
      ensures decls[1 + i] == consts[i]
    {
    }
  }

  /**
   The parameters struct refers to exactly the enum types the file declares, in the order in which
   it declares them; and every constant and helper is of a type the file declares.
   */
  lemma {:induction false} ReferencesAreDeclared(name: string, entries: seq<Entry>)
    requires Decls(name, entries).Ok? && Params(name, entries).Ok?
    ensures Referenced(Params(name, entries).value) == Declared(Decls(name, entries).value)
    ensures forall d :: d in Decls(name, entries).value && !d.TypeDecl? ==> d.of in Declared(Decls(name, entries).value)
  {
    if entries != [] {
      ReferencesAreDeclared(name, entries[1..]);
      var first := EntryDecls(name, entries[0]).value;
      var rest := Decls(name, entries[1..]).value;
      EntryDeclares(name, entries[0]);
      DeclaredAppend(first, rest);
      FirstIsEnum(name, entries[0]);
      var p := ParamOf(name, entries[0]).value;
      var ps := Params(name, entries[1..]).value;
      assert ([p] + ps)[1..] == ps;
    }
  }

  /** An entry that declares something other than its type declares its type. */
  lemma FirstIsEnum(name: string, e: Entry)
    requires EntryDecls(name, e).Ok?
    ensures EntryDecls(name, e).value != [] ==> IsEnum(e)
  {
  }

  // ----- exactly when a module fails --------------------------------------------------------

  /** What an option with choices must have to become an enum. */
  predicate EnumIsFine(e: Entry)
    requires e.choices.Some? && e.value.typ.Some?
  {
    && (if e.value.elements.Some? && e.value.elements.value != "" then e.value.elements.value in OptionTheorems.SCALARS
        else e.value.typ.value in OptionTheorems.SCALARS)
    && (e.choiceKeys == map[] || forall c :: c in e.choices.value ==> c in e.choiceKeys)
  }

  /** A list with choices has a list of strings as its default, or none. */
  predicate DefaultIsFine(e: Entry) {
    e.choices.Some? && e.value.typ == Some("list") ==>
      e.default.NoDefault? || (e.default.Listed? && forall i :: i in e.default.items ==> i.Some?)
  }

  predicate EntryIsFine(e: Entry) {
    && e.described && DefaultIsFine(e)
    && (e.choices.Some? ==> e.value.typ.Some?)
    && (if IsEnum(e) then EnumIsFine(e)
        else forall v :: v in OptionTheorems.Visited(e.value) ==> OptionTheorems.OwnError(v).None?)
  }

  lemma EntryFailsIff(name: string, e: Entry)
    ensures EntryDecls(name, e).Ok? && ParamOf(name, e).Ok? <==> EntryIsFine(e)
  {
    if IsEnum(e) {
      ConstsFailIff(name, e, e.choices.value);
      OptionTheorems.ScalarErrors(e.value.typ.value);
      if e.value.elements.Some? {
        OptionTheorems.ScalarErrors(e.value.elements.value);
      }
    } else {
      OptionTheorems.FailsIffSomeVisitedIsBad(e.value);
    }
  }

  /**
   A module's two loops both succeed exactly when each option has a description, each with choices a
   type and, if that is a list, no default but a list of strings, each that becomes an enum has a scalar
   type and a complete choice-key map, and each other one has no bad option among those the translator
   visits.
   */
  lemma {:induction false} ModuleFailsIff(name: string, entries: seq<Entry>)
    ensures Decls(name, entries).Ok? && Params(name, entries).Ok? <==> forall e :: e in entries ==> EntryIsFine(e)
  {
    if entries != [] {
      EntryFailsIff(name, entries[0]);
      ModuleFailsIff(name, entries[1..]);
      assert forall e :: e in entries <==> e == entries[0] || e in entries[1..];
    }
  }

  // ----- what a choice-key map is for -------------------------------------------------------

  /** With a choice-key map, a constant's name is that of its type and what the map has for its choice. */
  lemma MappedConst(name: string, e: Entry, choices: seq<string>, i: nat)
    requires e.choiceKeys != map[] && Consts(name, e, choices).Ok? && i < |choices|
    ensures i < |Consts(name, e, choices).value| && choices[i] in e.choiceKeys
    ensures Consts(name, e, choices).value[i] ==
            ConstDecl(Pascal.PascalCased(name) + Pascal.PascalCased(e.key) + e.choiceKeys[choices[i]],
                      Pascal.PascalCased(name) + Pascal.PascalCased(e.key), choices[i])
  {
    ConstAt(name, e, choices, i);
  }

  lemma SameSuffix(p: string, a: string, b: string)
    ensures p + a == p + b <==> a == b
  {
    FrontOf(p, a);
    FrontOf(p, b);
  }

  /**
   Two constants of one option have the same name exactly when the map has the same for their choices,
   or, without a map, when the choices have the same glued words.
   */
  lemma ConstsCollideIff(name: string, e: Entry, choices: seq<string>, i: nat, j: nat)
    requires Consts(name, e, choices).Ok? && i < |choices| && j < |choices|
    ensures var consts := Consts(name, e, choices).value;
            && |consts| == |choices|
            && (e.choiceKeys != map[] ==>
                  && choices[i] in e.choiceKeys && choices[j] in e.choiceKeys
                  && (consts[i].name == consts[j].name <==> e.choiceKeys[choices[i]] == e.choiceKeys[choices[j]]))
            && (e.choiceKeys == map[] ==>
                  (consts[i].name == consts[j].name <==>
                   Pascal.Glue(Pascal.WordsOf(choices[i])) == Pascal.Glue(Pascal.WordsOf(choices[j]))))
  {
    ConstsCount(name, e, choices);
    ConstAt(name, e, choices, i);
    ConstAt(name, e, choices, j);
    Pascal.CollisionIffSameWords(choices[i], choices[j]);
    SameSuffix(TypeName(name, e.key), ChoiceKey(e, choices[i]).value, ChoiceKey(e, choices[j]).value);
  }

  /**
   A map can keep a constant apart from a type: it meets the type of another module's option exactly
   when what the map has for its choice is all that the type's name has after that of the constant's type.
   */
  lemma MappedConstMeetsType(name: string, e: Entry, choice: string, other: string, key: string)
    requires choice in e.choiceKeys
    ensures ChoiceKey(e, choice).Ok?
    ensures TypeName(name, e.key) + ChoiceKey(e, choice).value == TypeName(other, key) <==>
            TypeName(name, e.key) <= TypeName(other, key)
            && TypeName(other, key)[|TypeName(name, e.key)|..] == e.choiceKeys[choice]
  {
    var typ := TypeName(name, e.key);
    FrontOf(typ, e.choiceKeys[choice]);
    if typ <= TypeName(other, key) {
      Joined(typ, TypeName(other, key));
    }
  }

  // ----- identifiers across modules ---------------------------------------------------------

  /** Without a choice-key map, a constant's identifier is that of its module, option and choice. */
  lemma ConstIdentifier(name: string, e: Entry, choice: string)
    requires e.choiceKeys == map[]
    ensures ChoiceKey(e, choice).Ok?
    ensures TypeName(name, e.key) + ChoiceKey(e, choice).value == Pascal.Identifier([name, e.key, choice])
  {
    IdentifierOfThree(name, e.key, choice);
  }

  lemma IdentifierOfTwo(a: string, b: string)
    ensures Pascal.Identifier([a, b]) == Pascal.PascalCased(a) + Pascal.PascalCased(b)
  {
    assert [a, b][1..] == [b] && [b][1..] == [];
    assert Pascal.Identifier([b]) == Pascal.PascalCased(b) + Pascal.Identifier([]);
  }

  lemma IdentifierOfThree(a: string, b: string, c: string)
    ensures Pascal.Identifier([a, b, c]) == Pascal.PascalCased(a) + Pascal.PascalCased(b) + Pascal.PascalCased(c)
  {
    IdentifierOfTwo(b, c);
    assert [a, b, c][1..] == [b, c];
    Assoc(Pascal.PascalCased(a), Pascal.PascalCased(b), Pascal.PascalCased(c));
  }

  /**
   A constant of one module collides with a type of another, and so breaks the package, exactly when
   the words of its module, option and choice, run together, are those of the other's module and
   option.
   */
  lemma ConstMeetsType(name: string, e: Entry, choice: string, other: string, key: string)
    requires e.choiceKeys == map[]
    ensures TypeName(name, e.key) + ChoiceKey(e, choice).value == TypeName(other, key) <==>
            Pascal.Glue(Pascal.WordsOf(Pascal.Snake([name, e.key, choice]))) ==
            Pascal.Glue(Pascal.WordsOf(Pascal.Snake([other, key])))
  {
    IdentifierOfThree(name, e.key, choice);
    IdentifierOfTwo(other, key);
    Pascal.IdentifiersCollide([name, e.key, choice], [other, key]);
  }
}
