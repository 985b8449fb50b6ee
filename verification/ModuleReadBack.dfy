/**
 What a module's parameters struct gives back: its members' text is read by a parser that knows
 nothing of how it was made, and compared with the options it was made from.
 */
module ModuleReadBack {
  import opened Strings
  import opened Wrappers
  import opened GoText
  import opened ModuleFile
  import OptionTheorems
  import OptionTypes
  import Pascal

  // ----- the parser -------------------------------------------------------------------------

  /** Reads a type off the front of `s`: the name of an exported type, or a type written out. */
  function ReadRef(s: string): (r: Option<(TypeRef, string)>)
    ensures r.Some? ==> |r.value.1| < |s|
  {
    if s != "" && IsUpper(s[0]) then
      UntilCuts(' ', s);
      var name := Until(' ', s);
      if Exported(name) then Some((Enum(name), s[|name|..])) else None
    else
      match Parse(s)
      case None => None
      case Some((g, rest)) => Some((Plain(g), rest))
  }

  /** Reads a member off the front of `s`, with the empty line after it. */
  function ReadParam(s: string): (r: Option<(Param, string)>)
    ensures r.Some? ==> |r.value.1| < |s|
  {
    match ReadName("\t", s)
    case None => None
    case Some((name, s1)) =>
      var pointer := "*" <= s1;
      var s2 := if pointer then s1[1..] else s1;
      match ReadRef(s2)
      case None => None
      case Some((typ, s3)) =>
        match ReadTag(s3)
        case None => None
        case Some((tag, s4)) =>
          match Take("\n", s4)
          case None => None
          case Some(rest) => Some((Param(name, pointer, typ, tag), rest))
  }

  function ReadParams(s: string): Option<seq<Param>>
    decreases |s|
  {
    if s == "" then Some([])
    else
      match ReadParam(s)
      case None => None
      case Some((p, rest)) =>
        match ReadParams(rest)
        case None => None
        case Some(ps) => Some([p] + ps)
  }

  predicate DistinctParams(ps: seq<Param>) {
    forall i, j :: 0 <= i < j < |ps| ==> ps[i].name != ps[j].name
  }

  /** Reads the members of a struct; as in any struct, no two may have the same name. */
  function ReadStruct(s: string): Option<seq<Param>> {
    match ReadParams(s)
    case None => None
    case Some(ps) => if DistinctParams(ps) then Some(ps) else None
  }

  // ----- what the parser reads --------------------------------------------------------------

  predicate CleanRef(t: TypeRef) {
    match t
    case Enum(name) => Exported(name)
    case Plain(g) => Clean(g)
  }

  predicate CleanParam(p: Param) {
    Exported(p.name) && CleanTag(p.tag) && CleanRef(p.typ)
  }

  predicate CleanParams(ps: seq<Param>) {
    forall i :: 0 <= i < |ps| ==> CleanParam(ps[i])
  }

  /** The pieces of a member's text, put together from the right. */
  lemma ParamSplits(p: Param, rest: string)
    ensures var star := if p.pointer then "*" else "";
            ParamText(p) + rest ==
            "\t" + (p.name + (" " + (star + (RefText(p.typ) + (JSON + (p.tag + (TAIL + ("\n" + rest))))))))
  {
    var star := if p.pointer then "*" else "";
    var p1 := "\t" + p.name;
    var p2 := p1 + " ";
    var p3 := p2 + star;
    var p4 := p3 + RefText(p.typ);
    var p5 := p4 + JSON;
    var p6 := p5 + p.tag;
    var end := TAIL + ("\n" + rest);
    assert "\"`\n\n" + rest == end;
    Assoc(p6, "\"`\n\n", rest);
    Assoc(p5, p.tag, end);
    Assoc(p4, JSON, p.tag + end);
    Assoc(p3, RefText(p.typ), JSON + (p.tag + end));
    var q := RefText(p.typ) + (JSON + (p.tag + end));
    Assoc(p2, star, q);
    Assoc(p1, " ", star + q);
    Assoc("\t", p.name, " " + (star + q));
  }

  lemma RefIsSound(s: string)
    ensures var r := ReadRef(s); r.Some? ==> CleanRef(r.value.0) && s == RefText(r.value.0) + r.value.1
  {
    if s != "" && IsUpper(s[0]) {
      UntilCuts(' ', s);
      Joined(Until(' ', s), s);
    } else {
      ParseIsSound(s);
    }
  }

  lemma ParamIsSound(s: string)
    ensures var r := ReadParam(s); r.Some? ==> CleanParam(r.value.0) && s == ParamText(r.value.0) + r.value.1
  {
    var r := ReadParam(s);
    if r.Some? {
      var (p, rest) := r.value;
      var s1 := ReadName("\t", s).value.1;
      var s2 := if p.pointer then s1[1..] else s1;
      NameIsSound("\t", s);
      Joined("*", s1);
      assert p.pointer || "" + s2 == s2;
      RefIsSound(s2);
      TagIsSound(ReadRef(s2).value.1);
      ParamSplits(p, rest);
    }
  }

  /** The parser is sound: what it reads is what stands there. */
  lemma {:induction false} ParamsAreSound(s: string)
    ensures var r := ReadParams(s); r.Some? ==> CleanParams(r.value) && s == ParamsText(r.value)
    decreases |s|
  {
    if s != "" && ReadParams(s).Some? {
      var (p, rest) := ReadParam(s).value;
      ParamIsSound(s);
      ParamsAreSound(rest);
      assert ([p] + ReadParams(rest).value)[1..] == ReadParams(rest).value;
    }
  }

  lemma StarIsNoType(t: TypeRef, s3: string)
    requires CleanRef(t)
    ensures !("*" <= RefText(t) + s3)
  {
    match t
    case Enum(name) => assert (name + s3)[0] == name[0];
    case Plain(g) => NoStar(g, s3);
  }

  /** No type that is written out starts with a capital. */
  lemma WrittenIsLow(g: GoType, s3: string)
    requires Clean(g)
    ensures Print(g) + s3 != "" && !IsUpper((Print(g) + s3)[0])
  {
    if g.Prim? {
      var i :| 0 <= i < |PRIMS| && PRIMS[i] == g.name;
    }
    assert Print(g) != "" && !IsUpper(Print(g)[0]);
    assert (Print(g) + s3)[0] == Print(g)[0];
  }

  lemma RefIsRead(t: TypeRef, s3: string)
    requires CleanRef(t) && s3 != "" && s3[0] == ' '
    ensures ReadRef(RefText(t) + s3) == Some((t, s3))
  {
    match t
    case Enum(name) =>
      assert ' ' !in name by {
        assert !WordChar(' ');
      }
      UntilFinds(' ', name, s3);
      FrontOf(name, s3);
      assert (name + s3)[0] == name[0];
    case Plain(g) =>
      WrittenIsLow(g, s3);
      CleanIsRead(g, s3);
  }

  lemma ParamIsRead(p: Param, rest: string)
    requires CleanParam(p)
    ensures ReadParam(ParamText(p) + rest) == Some((p, rest))
  {
    var s4 := "\n" + rest;
    var s3 := JSON + (p.tag + (TAIL + s4));
    var s2 := RefText(p.typ) + s3;
    var s1 := (if p.pointer then "*" else "") + s2;
    ParamSplits(p, rest);
    NameIsRead("\t", p.name, s1);
    StarIsNoType(p.typ, s3);
    assert s2 == if p.pointer then s1[1..] else s1;
    assert s3[0] == JSON[0];
    RefIsRead(p.typ, s3);
    TagIsRead(p.tag, s4);
    FrontOf("\n", rest);
  }

  /** The parser is complete: it reads clean members back. */
  lemma {:induction false} ParamsAreRead(ps: seq<Param>)
    requires CleanParams(ps)
    ensures ReadParams(ParamsText(ps)) == Some(ps)
  {
    if ps != [] {
      ParamIsRead(ps[0], ParamsText(ps[1..]));
      assert ParamText(ps[0]) + ParamsText(ps[1..]) != "";
      ParamsAreRead(ps[1..]);
      assert [ps[0]] + ps[1..] == ps;
    }
  }

  // ----- what the options promise -----------------------------------------------------------

  /** The member as a field, for what JSON makes of its name and tag. */
  function AsField(p: Param): GoField {
    GoField(p.name, p.pointer, MapAny, p.tag)
  }

  /**
   The member shows the option: its name and its JSON key; a pointer that is omitted when empty if the
   option is not required, and neither if it is; and as its type the option's own enum if it has
   choices and is not raw, or else a type written out that mirrors the option.
   */
  predicate ShowsEntry(name: string, e: Entry, p: Param) {
    && p.name == Pascal.PascalCased(e.key)
    && OptionTheorems.KeyIn(AsField(p)) == Some(e.key)
    && p.pointer == !e.value.required
    && OptionTheorems.Omits(AsField(p)) == !e.value.required
    && (if e.choices.Some? && e.value.typ != Some("raw") then p.typ == Enum(TypeName(name, e.key))
        else p.typ.Plain? && OptionTheorems.Mirrors(e.value, p.typ.typ))
  }

  predicate ShowsEntries(name: string, entries: seq<Entry>, ps: seq<Param>) {
    |ps| == |entries| && forall i :: 0 <= i < |entries| ==> ShowsEntry(name, entries[i], ps[i])
  }

  /** The text, read as Go reads a struct, shows the options. */
  predicate ReadsBack(name: string, entries: seq<Entry>, text: string) {
    ReadStruct(text).Some? && ShowsEntries(name, entries, ReadStruct(text).value)
  }

  /** The key names a member; and the module's name with the key an enum, or the option can be read back. */
  predicate EntryReadable(name: string, e: Entry) {
    && OptionTheorems.ReadableKey(e.key)
    && (if e.choices.Some? && e.value.typ != Some("raw") then Pascal.Naming(name + "_" + e.key)
        else OptionTheorems.Readable(e.value))
  }

  predicate DistinctKeys(entries: seq<Entry>) {
    forall i, j :: 0 <= i < j < |entries| ==>
      Pascal.Glue(Pascal.WordsOf(entries[i].key)) != Pascal.Glue(Pascal.WordsOf(entries[j].key))
  }

  lemma TypeNameIsGoIff(name: string, key: string)
    ensures Exported(TypeName(name, key)) <==> Pascal.Naming(name + "_" + key)
  {
    Pascal.PascalIsHomomorphic(name, key);
    Pascal.IdentifierIsGoIff(name + "_" + key);
  }

  lemma ParamIsMember(name: string, e: Entry)
    requires ParamOf(name, e).Ok?
    ensures AsField(ParamOf(name, e).value) == OptionTypes.Member(OptionTypes.Field(e.key, e.value), MapAny)
  {
  }

  lemma ReadableIsShown(name: string, e: Entry)
    requires ParamOf(name, e).Ok? && EntryReadable(name, e)
    ensures CleanParam(ParamOf(name, e).value) && ShowsEntry(name, e, ParamOf(name, e).value)
  {
    var f := OptionTypes.Field(e.key, e.value);
    ParamIsMember(name, e);
    OptionTheorems.ReadableIsKept(f);
    OptionTheorems.MemberMirrorsIff(f, MapAny);
    OptionTheorems.ReadableTagIsClean(f);
    Pascal.IdentifierIsGoIff(e.key);
    if IsEnum(e) {
      TypeNameIsGoIff(name, e.key);
    } else {
      OptionTheorems.ReadableIsClean(e.value);
      OptionTheorems.TranslationMirrors(e.value);
    }
  }

  lemma ShownIsReadable(name: string, e: Entry, p: Param)
    requires CleanParam(p) && ShowsEntry(name, e, p)
    ensures EntryReadable(name, e)
  {
    OptionTheorems.KeyIsReadable(AsField(p), e.key);
    if p.typ.Enum? {
      TypeNameIsGoIff(name, e.key);
    } else {
      OptionTheorems.MirroredIsReadable(e.value, p.typ.typ);
    }
  }

  lemma {:induction false} ParamsCount(name: string, entries: seq<Entry>)
    requires Params(name, entries).Ok?
    ensures |Params(name, entries).value| == |entries|
  {
    if entries != [] {
      ParamsCount(name, entries[1..]);
    }
  }

  lemma {:induction false} ParamAt(name: string, entries: seq<Entry>, i: nat)
    requires Params(name, entries).Ok? && i < |entries| == |Params(name, entries).value|
    ensures ParamOf(name, entries[i]) == Ok(Params(name, entries).value[i])
    decreases i
  {
    if i > 0 {
      ParamsCount(name, entries[1..]);
      ParamAt(name, entries[1..], i - 1);
    }
  }

  lemma NamesAreDistinctIff(entries: seq<Entry>, ps: seq<Param>)
    requires |ps| == |entries| && forall i :: 0 <= i < |entries| ==> ps[i].name == Pascal.PascalCased(entries[i].key)
    ensures DistinctParams(ps) <==> DistinctKeys(entries)
  {
    forall i, j | 0 <= i < j < |entries|
      ensures ps[i].name == ps[j].name <==>
              Pascal.Glue(Pascal.WordsOf(entries[i].key)) == Pascal.Glue(Pascal.WordsOf(entries[j].key))
    {
      Pascal.CollisionIffSameWords(entries[i].key, entries[j].key);
    }
  }

  lemma ReadableAreShown(name: string, entries: seq<Entry>)
    requires Params(name, entries).Ok? && forall i :: 0 <= i < |entries| ==> EntryReadable(name, entries[i])
    ensures CleanParams(Params(name, entries).value) && ShowsEntries(name, entries, Params(name, entries).value)
  {
    var ps := Params(name, entries).value;
    ParamsCount(name, entries);
    forall i | 0 <= i < |entries|
      ensures CleanParam(ps[i]) && ShowsEntry(name, entries[i], ps[i])
    {
      ParamAt(name, entries, i);
      ReadableIsShown(name, entries[i]);
    }
  }

  /**
   The round trip of the parameters struct: the members' text gives the options back, in their order,
   with their names, JSON keys, flags and types, if and only if the words of the keys are distinct,
   each key can be read back, and so can each option's type.
   */
  lemma ParametersAreReadBack(name: string, entries: seq<Entry>, text: string)
    requires Followed("", Params(name, entries)) == Ok(text)
    ensures ReadsBack(name, entries, text) <==>
            DistinctKeys(entries) && forall i :: 0 <= i < |entries| ==> EntryReadable(name, entries[i])
  {
    var ps := Params(name, entries).value;
    assert text == ParamsText(ps);
    if ReadsBack(name, entries, text) {
      var qs := ReadStruct(text).value;
      ParamsAreSound(text);
      NamesAreDistinctIff(entries, qs);
      forall i | 0 <= i < |entries|
        ensures EntryReadable(name, entries[i])
      {
        ShownIsReadable(name, entries[i], qs[i]);
      }
    }
    if DistinctKeys(entries) && forall i :: 0 <= i < |entries| ==> EntryReadable(name, entries[i]) {
      ReadableAreShown(name, entries);
      NamesAreDistinctIff(entries, ps);
      ParamsAreRead(ps);
    }
  }
}
