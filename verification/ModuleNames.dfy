/**
 All the names one module's file declares in the package: its enums with their constants and helpers,
 and the names it always declares. They are identifiers of the package, so they are distinct exactly
 when their words are.
 */
module ModuleNames {
  import opened Strings
  import opened Wrappers
  import opened ModuleFile
  import GoText
  import Pascal

  predicate AllDistinct<T(==)>(s: seq<T>) {
    forall i, j :: 0 <= i < j < |s| ==> s[i] != s[j]
  }

  function DeclNames(decls: seq<Decl>): seq<string> {
    seq(|decls|, i requires 0 <= i < |decls| => decls[i].name)
  }

  const OWN := ["Name", "Parameters", "Return", "ReturnFromRPCResult"]

  /** The words those names, and the helpers', are made of, and what the naming scheme makes of them. */
  const SMALL := ["name", "parameters", "return", "from", "r", "p", "c", "result", "optional"]
  const CAPITAL := ["Name", "Parameters", "Return", "From", "R", "P", "C", "Result", "Optional"]

  function OwnName(name: string, k: nat): string
    requires k < |OWN|
  {
    Pascal.PascalCased(name) + OWN[k]
  }

  /** The names the file has before its options', and after them. */
  function OwnFirst(name: string): seq<string> {
    [OwnName(name, 0)]
  }

  function OwnLast(name: string): seq<string> {
    [OwnName(name, 1), OwnName(name, 2), OwnName(name, 3)]
  }

  /** The names in the order of the file. */
  function FileNames(name: string, entries: seq<Entry>): seq<string>
    requires Decls(name, entries).Ok?
  {
    OwnFirst(name) + DeclNames(Decls(name, entries).value) + OwnLast(name)
  }

  /** The last of the file's own names, from its words on. */
  const TAILS := ["", "", "ReturnFromRPCResult", "FromRPCResult", "RPCResult", "PCResult", "CResult", "Result", ""]

  // ----- what the names are made of ---------------------------------------------------------

  function EntryParts(name: string, e: Entry): seq<seq<string>> {
    if !IsEnum(e) then [] else [[name, e.key]] + ChoiceParts(name, e.key, e.choices.value) + HelperParts(name, e)
  }

  function ChoiceParts(name: string, key: string, choices: seq<string>): seq<seq<string>> {
    seq(|choices|, i requires 0 <= i < |choices| => [name, key, choices[i]])
  }

  function HelperParts(name: string, e: Entry): seq<seq<string>> {
    if e.value.required then [] else [[SMALL[8], name, e.key]]
  }

  function AllParts(name: string, entries: seq<Entry>): seq<seq<string>> {
    if entries == [] then [] else EntryParts(name, entries[0]) + AllParts(name, entries[1..])
  }

  function FileParts(name: string, entries: seq<Entry>): seq<seq<string>> {
    FirstParts(name) + AllParts(name, entries) + LastParts(name)
  }

  function FirstParts(name: string): seq<seq<string>> {
    [[name, SMALL[0]]]
  }

  function LastParts(name: string): seq<seq<string>> {
    [[name, SMALL[1]], [name, SMALL[2]], ResultParts(name)]
  }

  function ResultParts(name: string): seq<string> {
    [name] + SMALL[2..8]
  }

  /** The words of a name's parts, run together. */
  function WordLists(parts: seq<seq<string>>): seq<seq<string>> {
    seq(|parts|, i requires 0 <= i < |parts| => Pascal.Glue(Pascal.WordsOf(Pascal.Snake(parts[i]))))
  }

  predicate Spells(names: seq<string>, parts: seq<seq<string>>) {
    |names| == |parts| && forall i :: 0 <= i < |names| ==> names[i] == Pascal.Identifier(parts[i])
  }

  lemma SpellsAppend(a: seq<string>, b: seq<string>, p: seq<seq<string>>, q: seq<seq<string>>)
    requires Spells(a, p) && Spells(b, q)
    ensures Spells(a + b, p + q)
  {
  }

  lemma SpellsThree(a: seq<string>, b: seq<string>, c: seq<string>,
                    p: seq<seq<string>>, q: seq<seq<string>>, r: seq<seq<string>>)
    requires Spells(a, p) && Spells(b, q) && Spells(c, r)
    ensures Spells(a + b + c, p + q + r)
  {
    SpellsAppend(a, b, p, q);
    SpellsAppend(a + b, c, p + q, r);
  }

  // ----- the fixed names --------------------------------------------------------------------

  lemma {:induction false} LowerIs(w: string)
    requires forall i :: 0 <= i < |w| ==> IsLower(w[i])
    ensures Lower(w) == w
  {
    if w != "" {
      assert forall i :: 0 <= i < |w[1..]| ==> w[1..][i] == w[i + 1];
      LowerIs(w[1..]);
    }
  }

  /** A word of small letters gives itself with a capital. */
  lemma SmallWord(w: string)
    requires w != "" && forall i :: 0 <= i < |w| ==> IsLower(w[i])
    ensures Pascal.PascalCased(w) == [Up(w[0])] + w[1..]
  {
    forall i | 0 <= i < |w|
      ensures w[i] != '_' && w[i] !in Pascal.SEPARATORS
    {
      if w[i] in Pascal.SEPARATORS {
        Pascal.SeparatorsAreNotLetters(w[i]);
      }
    }
    Pascal.PlainSub(w, false);
    SplitNone('_', w, "");
    assert "" + w == w && [w][1..] == [];
    assert forall i :: 0 <= i < |w[1..]| ==> w[1..][i] == w[i + 1];
    LowerIs(w[1..]);
    assert Pascal.Join([w]) == Pascal.Capitalize(w) + "";
  }

  lemma CapitalIs(k: nat)
    requires k < |SMALL|
    ensures SMALL[k] != "" && (forall i :: 0 <= i < |SMALL[k]| ==> IsLower(SMALL[k][i]))
    ensures CAPITAL[k] == [Up(SMALL[k][0])] + SMALL[k][1..]
  {
  }

  lemma FixedWord(k: nat)
    requires k < |SMALL|
    ensures Pascal.PascalCased(SMALL[k]) == CAPITAL[k]
  {
    CapitalIs(k);
    SmallWord(SMALL[k]);
  }

  lemma IdentifierFrom(words: seq<string>)
    requires words != []
    ensures Pascal.Identifier(words) == Pascal.PascalCased(words[0]) + Pascal.Identifier(words[1..])
  {
  }

  lemma TailIs(k: nat)
    requires 2 <= k < 8
    ensures TAILS[k] == CAPITAL[k] + TAILS[k + 1]
  {
  }

  lemma {:induction false} TailIsSpelt(k: nat)
    requires 2 <= k <= 8
    ensures Pascal.Identifier(SMALL[k..8]) == TAILS[k]
    decreases 8 - k
  {
    if k < 8 {
      FixedWord(k);
      TailIs(k);
      TailIsSpelt(k + 1);
      IdentifierFrom(SMALL[k..8]);
      assert SMALL[k..8][0] == SMALL[k] && SMALL[k..8][1..] == SMALL[k + 1..8];
    }
  }

  lemma TwoWordName(name: string, k: nat)
    requires k < 3
    ensures OwnName(name, k) == Pascal.Identifier([name, SMALL[k]])
  {
    FixedWord(k);
    IdentifierOfTwo(name, SMALL[k]);
    assert OWN[k] == CAPITAL[k];
  }

  lemma ResultName(name: string)
    ensures OwnName(name, 3) == Pascal.Identifier(ResultParts(name))
  {
    TailIsSpelt(2);
    TailIsOwn();
    IdentifierFrom(ResultParts(name));
    assert ResultParts(name)[1..] == SMALL[2..8];
  }

  lemma TailIsOwn()
    ensures TAILS[2] == OWN[3]
  {
  }

  lemma SpellsOne(a: string, p: seq<string>)
    requires a == Pascal.Identifier(p)
    ensures Spells([a], [p])
  {
  }

  lemma SpellsList(a: string, b: string, c: string, p: seq<string>, q: seq<string>, r: seq<string>)
    requires a == Pascal.Identifier(p) && b == Pascal.Identifier(q) && c == Pascal.Identifier(r)
    ensures Spells([a, b, c], [p, q, r])
  {
  }

  lemma OwnNamesAreSpelt(name: string)
    ensures Spells(OwnFirst(name), FirstParts(name)) && Spells(OwnLast(name), LastParts(name))
  {
    TwoWordName(name, 0);
    TwoWordName(name, 1);
    TwoWordName(name, 2);
    ResultName(name);
    SpellsOne(OwnName(name, 0), [name, SMALL[0]]);
    SpellsList(OwnName(name, 1), OwnName(name, 2), OwnName(name, 3), [name, SMALL[1]], [name, SMALL[2]], ResultParts(name));
  }

  // ----- all names --------------------------------------------------------------------------

  lemma ConstNames(name: string, e: Entry, choices: seq<string>)
    requires e.choiceKeys == map[] && Consts(name, e, choices).Ok?
    ensures Spells(DeclNames(Consts(name, e, choices).value), ChoiceParts(name, e.key, choices))
  {
    ConstsAreChoices(name, e, choices);
    forall i | 0 <= i < |choices|
      ensures Consts(name, e, choices).value[i].name == Pascal.Identifier([name, e.key, choices[i]])
    {
      assert ConstFor(name, e, choices[i], Consts(name, e, choices).value[i]);
      ConstIdentifier(name, e, choices[i]);
    }
  }

  lemma DeclNamesAppend(a: seq<Decl>, b: seq<Decl>)
    ensures DeclNames(a + b) == DeclNames(a) + DeclNames(b)
  {
  }

  lemma HelperName(name: string, key: string)
    ensures "Optional" + TypeName(name, key) == Pascal.Identifier([SMALL[8], name, key])
  {
    FixedWord(8);
    IdentifierOfTwo(name, key);
    assert [SMALL[8], name, key][1..] == [name, key];
  }

  function Helper(name: string, e: Entry): seq<Decl> {
    if e.value.required then [] else [HelperDecl("Optional" + TypeName(name, e.key), TypeName(name, e.key))]
  }

  lemma HelperIsSpelt(name: string, e: Entry)
    ensures Spells(DeclNames(Helper(name, e)), HelperParts(name, e))
  {
    HelperName(name, e.key);
  }

  lemma TypeIsSpelt(name: string, e: Entry, typ: GoText.GoType)
    ensures Spells(DeclNames([TypeDecl(TypeName(name, e.key), typ)]), [[name, e.key]])
  {
    IdentifierOfTwo(name, e.key);
  }

  lemma EnumHasThree(name: string, e: Entry)
    requires EntryDecls(name, e).Ok? && IsEnum(e)
    ensures EnumType(e).Ok? && Consts(name, e, e.choices.value).Ok?
    ensures EntryDecls(name, e).value ==
            [TypeDecl(TypeName(name, e.key), EnumType(e).value)] + Consts(name, e, e.choices.value).value + Helper(name, e)
  {
  }

  lemma ThreeNames(a: seq<Decl>, b: seq<Decl>, c: seq<Decl>)
    ensures DeclNames(a + b + c) == DeclNames(a) + DeclNames(b) + DeclNames(c)
  {
    DeclNamesAppend(a, b);
    DeclNamesAppend(a + b, c);
  }

  lemma EnumNames(name: string, e: Entry, first: seq<Decl>, consts: seq<Decl>)
    requires Spells(DeclNames(first), [[name, e.key]])
    requires e.choices.Some? && Spells(DeclNames(consts), ChoiceParts(name, e.key, e.choices.value))
    ensures Spells(DeclNames(first + consts + Helper(name, e)),
                   [[name, e.key]] + ChoiceParts(name, e.key, e.choices.value) + HelperParts(name, e))
  {
    HelperIsSpelt(name, e);
    ThreeNames(first, consts, Helper(name, e));
    SpellsThree(DeclNames(first), DeclNames(consts), DeclNames(Helper(name, e)),
                [[name, e.key]], ChoiceParts(name, e.key, e.choices.value), HelperParts(name, e));
  }

  lemma EntryNames(name: string, e: Entry)
    requires EntryDecls(name, e).Ok? && e.choiceKeys == map[]
    ensures Spells(DeclNames(EntryDecls(name, e).value), EntryParts(name, e))
  {
    if IsEnum(e) {
      EnumHasThree(name, e);
      TypeIsSpelt(name, e, EnumType(e).value);
      ConstNames(name, e, e.choices.value);
      EnumNames(name, e, [TypeDecl(TypeName(name, e.key), EnumType(e).value)], Consts(name, e, e.choices.value).value);
    }
  }

  lemma {:induction false} AllNames(name: string, entries: seq<Entry>)
    requires Decls(name, entries).Ok? && forall e :: e in entries ==> e.choiceKeys == map[]
    ensures Spells(DeclNames(Decls(name, entries).value), AllParts(name, entries))
  {
    if entries != [] {
      var first, rest := EntryDecls(name, entries[0]).value, Decls(name, entries[1..]).value;
      EntryNames(name, entries[0]);
      AllNames(name, entries[1..]);
      DeclNamesAppend(first, rest);
      SpellsAppend(DeclNames(first), DeclNames(rest), EntryParts(name, entries[0]), AllParts(name, entries[1..]));
    }
  }

  lemma FileIsSpelt(name: string, entries: seq<Entry>)
    requires Decls(name, entries).Ok? && forall e :: e in entries ==> e.choiceKeys == map[]
    ensures Spells(FileNames(name, entries), FileParts(name, entries))
  {
    OwnNamesAreSpelt(name);
    AllNames(name, entries);
    SpellsThree(OwnFirst(name), DeclNames(Decls(name, entries).value), OwnLast(name),
                FirstParts(name), AllParts(name, entries), LastParts(name));
  }

  lemma SpeltAlike(names: seq<string>, parts: seq<seq<string>>, i: nat, j: nat)
    requires Spells(names, parts) && i < |names| && j < |names|
    ensures names[i] == names[j] <==> WordLists(parts)[i] == WordLists(parts)[j]
  {
    Pascal.IdentifiersCollide(parts[i], parts[j]);
  }

  lemma DistinctAlike<A, B>(a: seq<A>, b: seq<B>)
    requires |a| == |b| && forall i, j :: 0 <= i < j < |a| ==> (a[i] == a[j] <==> b[i] == b[j])
    ensures AllDistinct(a) <==> AllDistinct(b)
  {
  }

  lemma SpeltDistinctIff(names: seq<string>, parts: seq<seq<string>>)
    requires Spells(names, parts)
    ensures AllDistinct(names) <==> AllDistinct(WordLists(parts))
  {
    var lists := WordLists(parts);
    forall i, j | 0 <= i < j < |names|
      ensures names[i] == names[j] <==> lists[i] == lists[j]
    {
      SpeltAlike(names, parts, i, j);
    }
    DistinctAlike(names, lists);
  }

  /**
   The names a file declares, its own four included, are distinct exactly when no two of them have the
   same words run together: those of the module and an option or its choice, of `optional`, the module
   and an option, and of the module and `name`, `parameters`, `return` or `return from r p c result`.
   */
  lemma FileNamesDistinctIff(name: string, entries: seq<Entry>)
    requires Decls(name, entries).Ok? && forall e :: e in entries ==> e.choiceKeys == map[]
    ensures AllDistinct(FileNames(name, entries)) <==> AllDistinct(WordLists(FileParts(name, entries)))
  {
    FileIsSpelt(name, entries);
    SpeltDistinctIff(FileNames(name, entries), FileParts(name, entries));
  }

  lemma {:induction false} TypeIsDeclared(name: string, entries: seq<Entry>, e: Entry)
    requires Decls(name, entries).Ok? && e in entries && IsEnum(e)
    ensures TypeName(name, e.key) in DeclNames(Decls(name, entries).value)
  {
    var first, rest := EntryDecls(name, entries[0]).value, Decls(name, entries[1..]).value;
    DeclNamesAppend(first, rest);
    if e == entries[0] {
      assert DeclNames(first)[0] == TypeName(name, e.key);
    } else {
      TypeIsDeclared(name, entries[1..], e);
    }
  }

  /** An option with choices called like one of the file's own names clashes with it, whatever the rest. */
  lemma OwnNameClashes(name: string, entries: seq<Entry>, e: Entry, k: nat)
    requires Decls(name, entries).Ok? && e in entries && IsEnum(e)
    requires k < |OWN| && Pascal.PascalCased(e.key) == OWN[k]
    ensures !AllDistinct(FileNames(name, entries))
  {
    TypeIsDeclared(name, entries, e);
    Clash(OwnFirst(name), DeclNames(Decls(name, entries).value), OwnLast(name), TypeName(name, e.key));
    OwnIsDeclared(name, k);
  }

  lemma OwnIsDeclared(name: string, k: nat)
    requires k < |OWN|
    ensures OwnName(name, k) in OwnFirst(name) || OwnName(name, k) in OwnLast(name)
  {
    if k == 0 {
      assert OwnFirst(name)[0] == OwnName(name, k);
    } else {
      assert OwnLast(name)[k - 1] == OwnName(name, k);
    }
  }

  /** A name in the middle that is also before or after it. */
  lemma Clash(a: seq<string>, b: seq<string>, c: seq<string>, x: string)
    requires x in b
    ensures x in a || x in c ==> !AllDistinct(a + b + c)
  {
    var all := a + b + c;
    var i :| 0 <= i < |b| && b[i] == x;
    assert all[|a| + i] == x;
    if j :| 0 <= j < |a| && a[j] == x {
      assert all[j] == x;
    }
    if j :| 0 <= j < |c| && c[j] == x {
      assert all[|a| + |b| + j] == x;
    }
  }
}
