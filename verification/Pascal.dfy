/**
 The identifiers of the generated Go package: `pascalcased`, and when two of them collide. Every
 module's identifiers land in one package, so a collision is a compile error or a wrong type.
 Case mapping is that of ASCII letters.
 */
module Pascal {
  import opened Strings

  const SEPARATORS := "'\"!@#$%^&*()[]{};:,./<>?|`~=-+ "

  /** First character up, the rest down. */
  function Capitalize(s: string): string {
    if s == "" then "" else [Up(s[0])] + Lower(s[1..])
  }

  /** Every maximal run of separator characters becomes one underscore. */
  function Sub(s: string, inRun: bool := false): string {
    if s == "" then ""
    else if s[0] in SEPARATORS then (if inRun then "" else "_") + Sub(s[1..], true)
    else [s[0]] + Sub(s[1..], false)
  }

  function Join(words: seq<string>): string {
    if words == [] then "" else Capitalize(words[0]) + Join(words[1..])
  }

  function PascalCased(s: string): string {
    Join(Split('_', Sub(s)))
  }

  /** The separators are the printable ASCII characters that identifiers do not have, but for the backslash. */
  lemma SeparatorsAre(c: char)
    ensures c in SEPARATORS <==> ' ' <= c <= '~' && !WordChar(c) && c != '\\'
  {
    SeparatorMarks(c);
    MarksAreSeparators(c);
  }

  lemma SeparatorMarks(c: char)
    ensures c in SEPARATORS ==> ' ' <= c <= '~' && !WordChar(c) && c != '\\'
  {
    if c in SEPARATORS {
      var i :| 0 <= i < |SEPARATORS| && SEPARATORS[i] == c;
      SeparatorAt(SEPARATORS, i);
    }
  }

  lemma SeparatorAt(s: string, i: nat)
    requires s == SEPARATORS && i < |s|
    ensures ' ' <= s[i] <= '~' && !WordChar(s[i]) && s[i] != '\\'
  {
  }

  lemma MarksAreSeparators(c: char)
    ensures ' ' <= c <= '~' && !WordChar(c) && c != '\\' ==> c in SEPARATORS
  {
  }

  // ----- a homomorphism ---------------------------------------------------------------------

  lemma SubUnderscore(b: string, inRun: bool)
    ensures Sub("_" + b, inRun) == "_" + Sub(b)
  {
    assert ("_" + b)[0] == '_' && ("_" + b)[1..] == b;
    assert '_' !in SEPARATORS;
  }

  lemma {:induction false} SubSplits(a: string, b: string, inRun: bool)
    ensures Sub(a + "_" + b, inRun) == Sub(a, inRun) + "_" + Sub(b)
    decreases |a|
  {
    if a == "" {
      assert a + "_" + b == "_" + b;
      SubUnderscore(b, inRun);
    } else {
      assert (a + "_" + b)[0] == a[0] && (a + "_" + b)[1..] == a[1..] + "_" + b;
      SubSplits(a[1..], b, a[0] in SEPARATORS);
    }
  }

  lemma {:induction false} JoinAppend(a: seq<string>, b: seq<string>)
    ensures Join(a + b) == Join(a) + Join(b)
  {
    if a == [] {
      assert a + b == b;
    } else {
      assert (a + b)[1..] == a[1..] + b;
      JoinAppend(a[1..], b);
    }
  }

  /** Joining two names with an underscore joins their identifiers. */
  lemma PascalIsHomomorphic(a: string, b: string)
    ensures PascalCased(a + "_" + b) == PascalCased(a) + PascalCased(b)
  {
    SubSplits(a, b, false);
    SplitJoins('_', Sub(a), Sub(b), "");
    JoinAppend(Split('_', Sub(a)), Split('_', Sub(b)));
  }

  // ----- no separators ----------------------------------------------------------------------

  lemma {:induction false} SubHasNone(s: string, inRun: bool, c: char)
    requires c in SEPARATORS
    ensures c !in Sub(s, inRun)
  {
    if s != "" {
      SubHasNone(s[1..], s[0] in SEPARATORS, c);
      assert '_' !in SEPARATORS;
    }
  }

  lemma {:induction false} CapitalizeHasNone(s: string, c: char)
    requires c !in s && c in SEPARATORS
    ensures c !in Lower(s) && c !in Capitalize(s)
  {
    SeparatorsAreNotLetters(c);
    if s != "" {
      CapitalizeHasNone(s[1..], c);
      assert s[0] in s;
    }
  }

  lemma SeparatorsAreNotLetters(c: char)
    requires c in SEPARATORS
    ensures !IsUpper(c) && !IsLower(c)
  {
  }

  lemma {:induction false} JoinHasNone(words: seq<string>, c: char)
    requires c in SEPARATORS && forall w :: w in words ==> c !in w
    ensures c !in Join(words)
  {
    if words != [] {
      assert words[0] in words;
      CapitalizeHasNone(words[0], c);
      JoinHasNone(words[1..], c);
    }
  }

  /** An identifier holds no separator character. */
  lemma NoSeparators(name: string, c: char)
    requires c in SEPARATORS
    ensures c !in PascalCased(name)
  {
    SubHasNone(name, false, c);
    SplitHolds('_', Sub(name), "");
    JoinHasNone(Split('_', Sub(name)), c);
  }

  // ----- when a name gives an identifier ----------------------------------------------------

  /** What counts of a name: its characters other than underscores and separators. */
  function Core(s: string): string {
    if s == "" then ""
    else (if s[0] == '_' || s[0] in SEPARATORS then "" else [s[0]]) + Core(s[1..])
  }

  function Unscored(s: string): string {
    if s == "" then "" else (if s[0] == '_' then "" else [s[0]]) + Unscored(s[1..])
  }

  function Concat(words: seq<string>): string {
    if words == [] then "" else words[0] + Concat(words[1..])
  }

  lemma {:induction false} SubCore(s: string, inRun: bool)
    ensures Unscored(Sub(s, inRun)) == Core(s)
  {
    if s != "" {
      SubCore(s[1..], s[0] in SEPARATORS);
      var rest := Sub(s[1..], s[0] in SEPARATORS);
      assert ("_" + rest)[1..] == rest && ([s[0]] + rest)[1..] == rest && "" + rest == rest;
      assert "" + Core(s[1..]) == Core(s[1..]);
    }
  }

  lemma {:induction false} SplitConcat(t: string, word: string)
    ensures Concat(Split('_', t, word)) == word + Unscored(t)
    decreases |t|
  {
    if t == "" {
      assert [word][1..] == [];
    } else if t[0] == '_' {
      SplitConcat(t[1..], "");
      assert ([word] + Split('_', t[1..]))[1..] == Split('_', t[1..]);
      assert "" + Unscored(t[1..]) == Unscored(t[1..]);
    } else {
      SplitConcat(t[1..], word + [t[0]]);
      Assoc(word, [t[0]], Unscored(t[1..]));
    }
  }

  lemma LowerOfCapitalized(w: string)
    ensures Lower(Capitalize(w)) == Lower(w)
  {
    if w != "" {
      LowerTwice(w[1..]);
      assert Capitalize(w)[1..] == Lower(w[1..]);
    }
  }

  lemma {:induction false} LowerOfJoin(words: seq<string>)
    ensures Lower(Join(words)) == Lower(Concat(words))
  {
    if words != [] {
      LowerOfJoin(words[1..]);
      LowerOfCapitalized(words[0]);
      LowerAppend(Capitalize(words[0]), Join(words[1..]));
      LowerAppend(words[0], Concat(words[1..]));
    }
  }

  /** An identifier is what counts of its name, as far as case does not matter. */
  lemma IdentifierIsCore(s: string)
    ensures Lower(PascalCased(s)) == Lower(Core(s))
  {
    SubCore(s, false);
    SplitConcat(Sub(s), "");
    assert "" + Unscored(Sub(s)) == Core(s);
    LowerOfJoin(Split('_', Sub(s)));
  }

  lemma {:induction false} JoinStartsHigh(words: seq<string>)
    ensures Join(words) != "" ==> !IsLower(Join(words)[0])
  {
    if words != [] {
      JoinStartsHigh(words[1..]);
      if words[0] == "" {
        assert Join(words) == Join(words[1..]);
      } else {
        assert Join(words)[0] == Up(words[0][0]);
      }
    }
  }

  lemma {:induction false} WordOfLower(s: string)
    ensures Word(Lower(s)) <==> Word(s)
    ensures s != "" ==> Lower(s) != "" && Lower(s)[0] == Down(s[0])
  {
    if s != "" {
      WordOfLower(s[1..]);
      assert WordChar(Down(s[0])) <==> WordChar(s[0]);
      assert forall c :: c in s <==> c == s[0] || c in s[1..];
      assert forall c :: c in Lower(s) <==> c == Down(s[0]) || c in Lower(s[1..]);
    }
  }

  lemma {:induction false} WordOfCore(s: string)
    ensures Word(Core(s)) <==> forall c :: c in s ==> WordChar(c) || c in SEPARATORS
  {
    if s != "" {
      WordOfCore(s[1..]);
      assert forall c :: c in s <==> c == s[0] || c in s[1..];
      if s[0] == '_' || s[0] in SEPARATORS {
        assert Core(s) == Core(s[1..]);
      } else {
        assert forall c :: c in Core(s) <==> c == s[0] || c in Core(s[1..]);
      }
    }
  }

  /** Letters, digits, underscores and separators only, and the first that counts is a letter. */
  predicate Naming(name: string) {
    && (forall c :: c in name ==> WordChar(c) || c in SEPARATORS)
    && Core(name) != "" && (IsLower(Core(name)[0]) || IsUpper(Core(name)[0]))
  }

  /** A name gives an identifier that starts with a capital exactly when it is such a name. */
  lemma IdentifierIsGoIff(name: string)
    ensures var id := PascalCased(name);
            id != "" && IsUpper(id[0]) && Word(id) <==> Naming(name)
  {
    var id := PascalCased(name);
    IdentifierIsCore(name);
    WordOfLower(id);
    WordOfLower(Core(name));
    WordOfCore(name);
    JoinStartsHigh(Split('_', Sub(name)));
  }

  lemma DigitCounts(d: char)
    requires '0' <= d <= '9'
    ensures d !in SEPARATORS
  {
  }

  /** A name whose first character is a digit gives no identifier. */
  lemma NumberedIsNoName(d: char, x: string)
    requires '0' <= d <= '9'
    ensures !Naming([d] + x)
  {
    DigitCounts(d);
    assert ([d] + x)[0] == d && ([d] + x)[1..] == x;
    assert Core([d] + x) == [d] + Core(x);
  }

  // ----- when identifiers collide -----------------------------------------------------------

  /** The words of a name, as far as case does not matter. */
  function LowerAll(words: seq<string>): seq<string> {
    if words == [] then [] else [Lower(words[0])] + LowerAll(words[1..])
  }

  function WordsOf(name: string): seq<string> {
    LowerAll(Split('_', Sub(name)))
  }

  /** A word whose first character has an upper case: only such a word shows where it starts. */
  predicate Marked(word: string) {
    word != "" && IsLower(word[0])
  }

  /** Glues each word that does not show where it starts to the word before it. */
  function Glue(words: seq<string>): seq<string> {
    if words == [] then []
    else
      var rest := Glue(words[1..]);
      if rest == [] then (if words[0] == "" then [] else [words[0]])
      else if Marked(rest[0]) then (if words[0] == "" then rest else [words[0]] + rest)
      else [words[0] + rest[0]] + rest[1..]
  }

  /** Reads an identifier back: a new word starts at every capital. */
  function Recover(s: string): seq<string> {
    if s == "" then []
    else
      var rest := Recover(s[1..]);
      if s[1..] == "" || IsUpper(s[1]) then [[Down(s[0])]] + rest
      else if rest == [] then [[Down(s[0])]]
      else [[Down(s[0])] + rest[0]] + rest[1..]
  }

  /** Glued words: none empty, and each but the first shows where it starts. */
  ghost predicate Glued(words: seq<string>) {
    && (forall i :: 0 <= i < |words| ==> words[i] != "" && Lower(words[i]) == words[i])
    && (forall i :: 1 <= i < |words| ==> Marked(words[i]))
  }

  predicate AllLower(words: seq<string>) {
    forall w :: w in words ==> Lower(w) == w
  }

  lemma {:induction false} LowerTwice(s: string)
    ensures Lower(Lower(s)) == Lower(s)
    ensures |Lower(s)| == |s|
    ensures Capitalize(Lower(s)) == Capitalize(s)
  {
    if s != "" {
      LowerTwice(s[1..]);
      assert Lower(s)[1..] == Lower(s[1..]);
    }
  }

  lemma {:induction false} LowerAppend(a: string, b: string)
    ensures Lower(a + b) == Lower(a) + Lower(b)
  {
    if a == "" {
      assert a + b == b;
    } else {
      assert (a + b)[1..] == a[1..] + b;
      LowerAppend(a[1..], b);
    }
  }

  lemma {:induction false} LowerAllIsLower(words: seq<string>)
    ensures AllLower(LowerAll(words)) && Join(LowerAll(words)) == Join(words)
  {
    if words != [] {
      LowerAllIsLower(words[1..]);
      LowerTwice(words[0]);
      assert LowerAll(words)[1..] == LowerAll(words[1..]);
    }
  }

  /** A word that does not show where it starts reads the same capitalised or not. */
  lemma UnmarkedStays(w: string)
    requires !Marked(w) && Lower(w) == w
    ensures Capitalize(w) == w
  {
    if w != "" {
      assert Lower(w)[1..] == Lower(w[1..]);
    }
  }

  lemma CapitalizeAppend(a: string, b: string)
    requires a != "" && Lower(b) == b
    ensures Capitalize(a + b) == Capitalize(a) + b
  {
    assert (a + b)[0] == a[0] && (a + b)[1..] == a[1..] + b;
    LowerAppend(a[1..], b);
    assert [Up(a[0])] + (Lower(a[1..]) + b) == ([Up(a[0])] + Lower(a[1..])) + b;
  }

  lemma {:induction false} GlueIsGlued(words: seq<string>)
    requires AllLower(words)
    ensures Glued(Glue(words)) && Join(Glue(words)) == Join(words)
  {
    if words != [] {
      GlueIsGlued(words[1..]);
      GlueStep(words[0], Glue(words[1..]));
    }
  }

  lemma GlueMarked(w: string, rest: seq<string>)
    requires Lower(w) == w && w != "" && Glued(rest) && (rest != [] ==> Marked(rest[0]))
    ensures Glued([w] + rest) && Join([w] + rest) == Capitalize(w) + Join(rest)
  {
    assert ([w] + rest)[1..] == rest;
  }

  lemma GlueUnmarked(w: string, rest: seq<string>)
    requires Lower(w) == w && Glued(rest) && rest != [] && !Marked(rest[0])
    ensures Glued([w + rest[0]] + rest[1..])
    ensures Join([w + rest[0]] + rest[1..]) == Capitalize(w) + Join(rest)
  {
    var g := [w + rest[0]] + rest[1..];
    LowerAppend(w, rest[0]);
    UnmarkedStays(rest[0]);
    assert g[1..] == rest[1..] && g[0] == w + rest[0];
    if w == "" {
      assert w + rest[0] == rest[0];
    } else {
      CapitalizeAppend(w, rest[0]);
    }
    Assoc(Capitalize(w), rest[0], Join(rest[1..]));
  }

  lemma GlueStep(w: string, rest: seq<string>)
    requires Lower(w) == w && Glued(rest)
    ensures var g := if rest == [] then (if w == "" then [] else [w])
                     else if Marked(rest[0]) then (if w == "" then rest else [w] + rest)
                     else [w + rest[0]] + rest[1..];
            Glued(g) && Join(g) == Capitalize(w) + Join(rest)
  {
    if rest != [] && !Marked(rest[0]) {
      GlueUnmarked(w, rest);
    } else if w == "" {
      assert Capitalize(w) + Join(rest) == Join(rest);
    } else {
      GlueMarked(w, rest);
      assert rest == [] ==> [w] + rest == [w];
    }
  }

  // ----- reading an identifier back ---------------------------------------------------------

  lemma LowerAt(s: string, i: nat)
    requires i < |s| && Lower(s) == s
    ensures !IsUpper(s[i])
    decreases i
  {
    if i > 0 {
      assert Lower(s)[1..] == Lower(s[1..]);
      LowerAt(s[1..], i - 1);
    }
  }

  lemma LowerTail(s: string)
    requires s != "" && Lower(s) == s
    ensures Lower(s[1..]) == s[1..]
  {
    assert Lower(s)[1..] == Lower(s[1..]);
  }

  /** Characters that are not capitals are read into the word they follow. */
  lemma {:induction false} RecoverTail(t: string, rest: string, c: char)
    requires Lower(t) == t && (rest != "" ==> IsUpper(rest[0]))
    ensures Recover([c] + t + rest) == [[Down(c)] + t] + Recover(rest)
    decreases |t|
  {
    var s := [c] + t + rest;
    if t == "" {
      assert s == [c] + rest && s[1..] == rest;
      assert [Down(c)] + t == [Down(c)];
    } else {
      LowerAt(t, 0);
      LowerTail(t);
      assert s[1..] == [t[0]] + t[1..] + rest && s[1] == t[0];
      RecoverTail(t[1..], rest, t[0]);
      assert Down(t[0]) == t[0];
      assert [t[0]] + t[1..] == t;
      assert Recover(s[1..]) == [t] + Recover(rest);
      assert ([t] + Recover(rest))[1..] == Recover(rest);
    }
  }

  /** What follows a word starts with a capital, so the word ends where it should. */
  lemma JoinStarts(words: seq<string>)
    requires Glued(words) && words != [] && Marked(words[0])
    ensures Join(words) != "" && IsUpper(Join(words)[0])
  {
  }

  lemma DownUp(w: string)
    requires w != "" && Lower(w) == w
    ensures Down(Up(w[0])) == w[0]
  {
    LowerAt(w, 0);
  }

  /** Splitting an identifier at its capitals recovers the glued words. */
  lemma {:induction false} RecoverInverts(words: seq<string>)
    requires Glued(words)
    ensures Recover(Join(words)) == words
  {
    if words != [] {
      var w := words[0];
      var rest := words[1..];
      RecoverInverts(rest);
      LowerTail(w);
      DownUp(w);
      if rest != [] {
        assert Marked(rest[0]);
        JoinStarts(rest);
      }
      assert Capitalize(w) == [Up(w[0])] + w[1..];
      RecoverTail(w[1..], Join(rest), Up(w[0]));
      assert [Down(Up(w[0]))] + w[1..] == w;
      assert [w] + rest == words;
    }
  }

  /** A name's identifier is what its glued words spell, and spells them back. */
  lemma NameIsRecovered(name: string)
    ensures Recover(PascalCased(name)) == Glue(WordsOf(name))
    ensures PascalCased(name) == Join(Glue(WordsOf(name)))
  {
    LowerAllIsLower(Split('_', Sub(name)));
    GlueIsGlued(WordsOf(name));
    RecoverInverts(Glue(WordsOf(name)));
  }

  /** Two names get the same identifier exactly when their glued words are the same. */
  lemma CollisionIffSameWords(a: string, b: string)
    ensures PascalCased(a) == PascalCased(b) <==> Glue(WordsOf(a)) == Glue(WordsOf(b))
  {
    NameIsRecovered(a);
    NameIsRecovered(b);
  }

  // ----- identifiers of the package ---------------------------------------------------------

  /** The identifier of a module's option, or of one of its choices. */
  function Identifier(parts: seq<string>): string {
    if parts == [] then "" else PascalCased(parts[0]) + Identifier(parts[1..])
  }

  /** The parts as one name, joined with underscores. */
  function Snake(parts: seq<string>): string {
    if parts == [] then "" else if |parts| == 1 then parts[0] else parts[0] + "_" + Snake(parts[1..])
  }

  lemma {:induction false} IdentifierOfSnake(parts: seq<string>)
    ensures Identifier(parts) == PascalCased(Snake(parts))
  {
    if |parts| == 0 {
      assert PascalCased("") == "" by {
        assert Split('_', "") == [""];
        assert [""][1..] == [];
      }
    } else if |parts| == 1 {
      assert parts[1..] == [];
      assert PascalCased(parts[0]) + "" == PascalCased(parts[0]);
    } else {
      IdentifierOfSnake(parts[1..]);
      PascalIsHomomorphic(parts[0], Snake(parts[1..]));
    }
  }

  /**
   Two identifiers of the package, each of a module, an option and maybe a choice, collide exactly
   when the words of their parts, run together, are the same: where one part ends is forgotten.
   */
  lemma IdentifiersCollide(p: seq<string>, q: seq<string>)
    ensures Identifier(p) == Identifier(q) <==> Glue(WordsOf(Snake(p))) == Glue(WordsOf(Snake(q)))
  {
    IdentifierOfSnake(p);
    IdentifierOfSnake(q);
    CollisionIffSameWords(Snake(p), Snake(q));
  }

  // ----- the common case: every word starts with a letter -----------------------------------

  lemma {:induction false} LowerAllAppend(a: seq<string>, b: seq<string>)
    ensures LowerAll(a + b) == LowerAll(a) + LowerAll(b)
  {
    if a == [] {
      assert a + b == b;
    } else {
      assert (a + b)[1..] == a[1..] + b;
      LowerAllAppend(a[1..], b);
    }
  }

  lemma WordsRunTogether(a: string, b: string)
    ensures WordsOf(a + "_" + b) == WordsOf(a) + WordsOf(b)
  {
    SubSplits(a, b, false);
    SplitJoins('_', Sub(a), Sub(b), "");
    LowerAllAppend(Split('_', Sub(a)), Split('_', Sub(b)));
  }

  function AllWords(parts: seq<string>): seq<string> {
    if parts == [] then [] else WordsOf(parts[0]) + AllWords(parts[1..])
  }

  lemma {:induction false} SnakeWords(parts: seq<string>)
    requires parts != []
    ensures WordsOf(Snake(parts)) == AllWords(parts)
  {
    if |parts| == 1 {
      assert AllWords(parts[1..]) == [];
      assert WordsOf(parts[0]) + [] == WordsOf(parts[0]);
    } else {
      SnakeWords(parts[1..]);
      WordsRunTogether(parts[0], Snake(parts[1..]));
    }
  }

  lemma {:induction false} MarkedWordsStay(words: seq<string>)
    requires forall w :: w in words ==> Marked(w)
    ensures Glue(words) == words
  {
    if words != [] {
      MarkedWordsStay(words[1..]);
      assert [words[0]] + words[1..] == words;
      assert Marked(words[0]);
      if |words| > 1 {
        assert words[1..][0] == words[1] && Marked(words[1]);
      }
    }
  }

  /**
   When every word starts with a letter, as in the names the generator is given, identifiers collide
   exactly when the word lists of their parts, run together, are equal.
   */
  lemma LetteredIdentifiersCollide(p: seq<string>, q: seq<string>)
    requires p != [] && q != []
    requires forall w :: w in AllWords(p) || w in AllWords(q) ==> Marked(w)
    ensures Identifier(p) == Identifier(q) <==> AllWords(p) == AllWords(q)
  {
    SnakeWords(p);
    SnakeWords(q);
    MarkedWordsStay(AllWords(p));
    MarkedWordsStay(AllWords(q));
    IdentifiersCollide(p, q);
  }

  /**
   Where a module ends and its option begins is forgotten, whatever the names. This is the clash
   the choice-key map is there to avoid: the choice `policy` of option `pull` of
   `docker_compose_v2`, and the option `policy` of `docker_compose_v2_pull`.
   */
  lemma ModuleBoundaryIsForgotten(name: string, option: string, choice: string)
    ensures Identifier([name, option, choice]) == Identifier([name + "_" + option, choice])
  {
    PascalIsHomomorphic(name, option);
    assert [name, option, choice][1..] == [option, choice] && [option, choice][1..] == [choice] && [choice][1..] == [];
    assert [name + "_" + option, choice][1..] == [choice];
    Assoc(PascalCased(name), PascalCased(option), Identifier([choice]));
  }

  /** A word as it stands in a name: lower case, nothing that separates. */
  predicate PlainWord(w: string) {
    w != "" && Lower(w) == w && forall i :: 0 <= i < |w| ==> w[i] != '_' && w[i] !in SEPARATORS
  }

  lemma {:induction false} PlainSub(w: string, inRun: bool)
    requires forall i :: 0 <= i < |w| ==> w[i] !in SEPARATORS
    ensures Sub(w, inRun) == w
    decreases |w|
  {
    if w != "" {
      PlainSub(w[1..], false);
      assert [w[0]] + w[1..] == w;
    }
  }

  lemma PlainIsOneWord(w: string)
    requires PlainWord(w)
    ensures WordsOf(w) == [w]
  {
    PlainSub(w, false);
    SplitNone('_', w, "");
    assert "" + w == w;
    assert Split('_', Sub(w)) == [w];
    assert LowerAll([w]) == [Lower(w)] + LowerAll([w][1..]) && [w][1..] == [];
    assert LowerAll([w]) == [w];
  }

  lemma GlueOne(w: string)
    requires w != ""
    ensures Glue([w]) == [w]
  {
    assert [w][1..] == [];
  }

  /**
   A word that does not start with a letter hides the underscore before it: the names `a_2` and
   `a2` have different words and the same identifier.
   */
  lemma DigitsHideUnderscores(a: string, d: string)
    requires PlainWord(a) && PlainWord(d) && !Marked(d)
    ensures PascalCased(a + "_" + d) == PascalCased(a + d) && WordsOf(a + "_" + d) != WordsOf(a + d)
  {
    WordsRunTogether(a, d);
    PlainIsOneWord(a);
    PlainIsOneWord(d);
    LowerAppend(a, d);
    assert forall i :: 0 <= i < |a| ==> (a + d)[i] == a[i];
    assert forall i :: 0 <= i < |d| ==> (a + d)[|a| + i] == d[i];
    PlainIsOneWord(a + d);
    assert [a] + [d] == [a, d] && [a, d][1..] == [d] && [d][1..] == [];
    GlueOne(d);
    GlueOne(a + d);
    assert Glue([a, d]) == [a + d] + [d][1..];
    CollisionIffSameWords(a + "_" + d, a + d);
  }
}
