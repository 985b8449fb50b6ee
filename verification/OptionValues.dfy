/**
 Which JSON values fit: those an option is documented to have, and those the Go type generated for it
 can hold. A missing value or a null is not among them: pointers stand for these.
 */
module OptionValues {
  import opened Wrappers
  import opened GoText
  import opened OptionTypes
  import opened OptionTheorems
  import ModuleFile

  datatype Kind = Text | Truth | Whole | Fraction | Array | Object

  const ALL := {Text, Truth, Whole, Fraction, Array, Object}

  /** The values of an Ansible type by its name; none if there is no such type. */
  function TypeKinds(t: string): set<Kind> {
    match t
    case "str" => {Text}
    case "path" => {Text}
    case "bool" => {Truth}
    case "int" => {Whole}
    case "float" => {Whole, Fraction}
    case "list" => {Array}
    case "dict" => {Object}
    case "raw" => ALL
    case "any" => ALL
    case "complex" => ALL
    case _ => {}
  }

  /** The values that `encoding/json` stores in a Go type. */
  function GoKinds(g: GoType): set<Kind> {
    match g
    case Prim(name) =>
      if name == "string" then {Text}
      else if name == "bool" then {Truth}
      else if name == "int" then {Whole}
      else if name == "float64" then {Whole, Fraction}
      else if name == "any" then ALL
      else {}
    case Slice(_) => {Array}
    case MapAny => {Object}
    case Struct(_) => {Object}
  }

  /** A scalar type's Go type holds exactly its values. */
  lemma ScalarHolds(t: string)
    ensures ScalarType(t).Ok? <==> TypeKinds(t) != {} && t != "dict" && t != "complex"
    ensures ScalarType(t).Ok? ==> GoKinds(ScalarType(t).value) == TypeKinds(t)
  {
    assert Text in ALL;
  }

  predicate ListOfDicts(o: Opt) {
    TypeOf(o) == "list" && o.elements == Some("dict")
  }

  /** A list of known elements other than dicts. */
  predicate ListOfScalars(o: Opt) {
    TypeOf(o) == "list" && o.elements.Some? && o.elements.value != "" && o.elements.value != "dict"
  }

  /** A Go type holds exactly the option's values, the elements of a list and the members of a dict included. */
  predicate Holds(o: Opt, g: GoType)
    decreases o, 1
  {
    && GoKinds(g) == TypeKinds(TypeOf(o))
    && (ListOfScalars(o) ==> g.Slice? && GoKinds(g.elem) == TypeKinds(o.elements.value))
    && (Shows(o) && o.suboptions != [] ==> g.Struct? && HoldsAll(o.suboptions, g.fields))
  }

  predicate HoldsAll(fields: seq<Field>, gs: seq<GoField>)
    decreases fields, 0
  {
    if fields == [] then gs == []
    else gs != [] && Holds(fields[0].value, gs[0].typ) && HoldsAll(fields[1..], gs[1..])
  }

  /** No shown option, at any depth, is a list of dicts. */
  predicate NoDictLists(o: Opt)
    decreases o, 1
  {
    !ListOfDicts(o) && (Shows(o) ==> NoDictListsIn(o.suboptions))
  }

  predicate NoDictListsIn(fields: seq<Field>)
    decreases fields, 0
  {
    fields == [] || (NoDictLists(fields[0].value) && NoDictListsIn(fields[1..]))
  }

  lemma PlainHolds(o: Opt)
    requires Translate(o).Ok? && !Shows(o)
    ensures Holds(o, Translate(o).value)
  {
    ScalarHolds(TypeOf(o));
    if o.elements.Some? {
      ScalarHolds(o.elements.value);
    }
  }

  /** A list of dicts gets the type of one dict, which holds no list. */
  lemma DictListIsNoList(o: Opt)
    requires Translate(o).Ok? && ListOfDicts(o)
    ensures Array in TypeKinds(TypeOf(o)) && Array !in GoKinds(Translate(o).value)
    ensures !Holds(o, Translate(o).value)
  {
  }

  /**
   The generated Go type holds exactly the values the option is documented to have, at every depth that
   is shown, if and only if no option shown is a list of dicts.
   */
  lemma {:induction false} TranslationHoldsIff(o: Opt)
    requires Translate(o).Ok?
    ensures Holds(o, Translate(o).value) <==> NoDictLists(o)
    decreases o, 1
  {
    if ListOfDicts(o) {
      DictListIsNoList(o);
    } else if Shows(o) {
      MemberErrors(o);
      if o.suboptions != [] {
        MembersHoldIff(o.suboptions);
      }
    } else {
      PlainHolds(o);
    }
  }

  lemma {:induction false} MembersHoldIff(fields: seq<Field>)
    requires TranslateFields(fields).Ok?
    ensures HoldsAll(fields, TranslateFields(fields).value) <==> NoDictListsIn(fields)
    decreases fields, 0
  {
    if fields != [] {
      var rest := TranslateFields(fields[1..]).value;
      TranslationHoldsIff(fields[0].value);
      MembersHoldIff(fields[1..]);
      assert ([Member(fields[0], Translate(fields[0].value).value)] + rest)[1..] == rest;
    }
  }

  predicate SaysElements(o: Opt) {
    o.elements.Some? && o.elements.value != ""
  }

  lemma EnumTypeHolds(e: ModuleFile.Entry)
    requires e.value.typ.Some? && ModuleFile.EnumType(e).Ok?
    ensures GoKinds(ModuleFile.EnumType(e).value) ==
            TypeKinds(if SaysElements(e.value) then e.value.elements.value else e.value.typ.value)
  {
    ScalarHolds(e.value.typ.value);
    if e.value.elements.Some? {
      ScalarHolds(e.value.elements.value);
    }
  }

  /**
   The type declared for an option with choices holds the values of the option's elements, if it says
   what they are, and else the option's own.
   */
  lemma EnumHolds(name: string, e: ModuleFile.Entry)
    requires ModuleFile.IsEnum(e) && ModuleFile.EntryDecls(name, e).Ok?
    ensures var decls := ModuleFile.EntryDecls(name, e).value;
            && decls != [] && decls[0].TypeDecl? && decls[0].name == ModuleFile.TypeName(name, e.key)
            && GoKinds(decls[0].underlying) ==
               TypeKinds(if SaysElements(e.value) then e.value.elements.value else e.value.typ.value)
  {
    EnumTypeHolds(e);
  }

  /** So the type of a list with choices that says what its elements are holds lists only if these may be lists. */
  lemma ListWithChoices(name: string, e: ModuleFile.Entry)
    requires ModuleFile.IsEnum(e) && ModuleFile.EntryDecls(name, e).Ok?
    requires e.value.typ == Some("list") && SaysElements(e.value)
    ensures var decls := ModuleFile.EntryDecls(name, e).value;
            && decls != [] && decls[0].TypeDecl?
            && (Array in GoKinds(decls[0].underlying) <==> e.value.elements.value in {"list", "raw", "any"})
  {
    EnumHolds(name, e);
    ElementsHold(e.value.elements.value);
    EnumTypeHolds(e);
  }

  lemma ElementsHold(t: string)
    requires ScalarType(t).Ok?
    ensures Array in TypeKinds(t) <==> t in {"list", "raw", "any"}
  {
    assert Array in ALL;
  }
}
