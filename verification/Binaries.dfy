/**
 The generator of the agent-binary lookup: what `main` builds and writes, line by line, and what
 the written Go function means. The reader below looks for the file's fixed lines as they are, and
 reads every name out of the others, as far as the Go compiler would take it; it is not told which
 names were listed. Identifiers are those of ASCII letters.
 */
module Binaries {
  import opened Strings
  import opened Wrappers
  import opened GoLookup
  import Retries

  type Pair = (string, string)

  function FileName(os: string, arch: string): string {
    "mid-agent-" + os + "-" + arch
  }

  const VARIABLE := "AgentBinary_"

  function Variable(os: string, arch: string): string {
    VARIABLE + os + "_" + arch + "_"
  }

  // ----- what is written --------------------------------------------------------------------

  const HEADER := [
    "//" + " Code generated by ./hack/generate-agent-binaries.py DO NOT EDIT\n",
    "package " + "agent" + "\n", "\n", "import (\n", "\t" + "_ \"embed\"" + "\n", "\t" + "\"fmt\"" + "\n", ")\n", "\n"]
  const SIGNATURE := "func GetAgentBinary(" + ("goos" + " string, " + "goarch") + " string) ([]byte, error) {\n"
  const FUNC := [SIGNATURE, "\tswitch " + "goos" + " {\n"]
  const SWITCH_ARCH := "\t\tswitch " + "goarch" + " {\n"
  const DEFAULT_ARCH := DefaultOf("\t\t", "unsupported GOARCH=", "goarch")
  const DEFAULT_OS := DefaultOf("\t", "unsupported GOOS=", "goos")
  const FOOTER := DEFAULT_OS + ["}\n"]

  function DefaultOf(tabs: string, message: string, argument: string): seq<string> {
    [tabs + "default:\n",
     tabs + "\treturn nil, fmt.Errorf(\"" + (message + "%s\", " + argument) + ")\n",
     tabs + "}\n"]
  }

  function PairsOf(os: string, arches: seq<string>): seq<Pair> {
    if arches == [] then [] else [(os, arches[0])] + PairsOf(os, arches[1..])
  }

  function Combinations(oses: seq<string>, arches: seq<string>): seq<Pair> {
    if oses == [] then [] else PairsOf(oses[0], arches) + Combinations(oses[1..], arches)
  }

  function EmbedOf(p: Pair): seq<string> {
    ["//go:embed " + FileName(p.0, p.1) + "\n", "var " + Variable(p.0, p.1) + " []byte\n", "\n"]
  }

  function EmbedLines(pairs: seq<Pair>): seq<string> {
    if pairs == [] then [] else EmbedOf(pairs[0]) + EmbedLines(pairs[1..])
  }

  function CaseOf(os: string, arch: string): seq<string> {
    ["\t\tcase \"" + arch + "\":\n", "\t\t\treturn " + Variable(os, arch) + ", nil\n"]
  }

  function ArchLines(os: string, arches: seq<string>): seq<string> {
    if arches == [] then [] else CaseOf(os, arches[0]) + ArchLines(os, arches[1..])
  }

  function OsHead(os: string): seq<string> {
    ["\tcase \"" + os + "\":\n", SWITCH_ARCH]
  }

  function OsLines(oses: seq<string>, arches: seq<string>): seq<string> {
    if oses == [] then []
    else OsHead(oses[0]) + (ArchLines(oses[0], arches) + (DEFAULT_ARCH + OsLines(oses[1..], arches)))
  }

  function FileLines(oses: seq<string>, arches: seq<string>): seq<string> {
    HEADER + (EmbedLines(Combinations(oses, arches)) + (FUNC + (OsLines(oses, arches) + FOOTER)))
  }

  /** The pairs still to come, when one more of them is taken. */
  lemma NextPair(os: string, arches: seq<string>, j: nat, rest: seq<Pair>)
    requires j < |arches|
    ensures PairsOf(os, arches[j..]) + rest == [(os, arches[j])] + (PairsOf(os, arches[j + 1..]) + rest)
  {
    assert arches[j..][1..] == arches[j + 1..];
    Assoc([(os, arches[j])], PairsOf(os, arches[j + 1..]), rest);
  }

  method Combine(oses: seq<string>, arches: seq<string>) returns (pairs: seq<Pair>)
    ensures pairs == Combinations(oses, arches)
  {
    pairs := [];
    for i := 0 to |oses|
      invariant pairs + Combinations(oses[i..], arches) == Combinations(oses, arches)
    {
      ghost var rest := Combinations(oses[i + 1..], arches);
      assert oses[i..][1..] == oses[i + 1..];
      for j := 0 to |arches|
        invariant pairs + (PairsOf(oses[i], arches[j..]) + rest) == Combinations(oses, arches)
      {
        NextPair(oses[i], arches, j, rest);
        Assoc(pairs, [(oses[i], arches[j])], PairsOf(oses[i], arches[j + 1..]) + rest);
        pairs := pairs + [(oses[i], arches[j])];
      }
      assert PairsOf(oses[i], arches[|arches|..]) + rest == rest;
    }
  }

  lemma NextEmbed(lines: seq<string>, p: Pair, rest: seq<Pair>)
    ensures lines + EmbedLines([p] + rest) == (lines + EmbedOf(p)) + EmbedLines(rest)
  {
    assert ([p] + rest)[1..] == rest;
    Assoc(lines, EmbedOf(p), EmbedLines(rest));
  }

  method WriteEmbeds(before: seq<string>, oses: seq<string>, arches: seq<string>) returns (lines: seq<string>)
    ensures lines == before + EmbedLines(Combinations(oses, arches))
  {
    lines := before;
    for i := 0 to |oses|
      invariant lines + EmbedLines(Combinations(oses[i..], arches)) == before + EmbedLines(Combinations(oses, arches))
    {
      ghost var rest := Combinations(oses[i + 1..], arches);
      assert oses[i..][1..] == oses[i + 1..];
      for j := 0 to |arches|
        invariant lines + EmbedLines(PairsOf(oses[i], arches[j..]) + rest) ==
                  before + EmbedLines(Combinations(oses, arches))
      {
        NextPair(oses[i], arches, j, rest);
        NextEmbed(lines, (oses[i], arches[j]), PairsOf(oses[i], arches[j + 1..]) + rest);
        lines := lines + [
          "//go:embed " + FileName(oses[i], arches[j]) + "\n",
          "var " + Variable(oses[i], arches[j]) + " []byte\n",
          "\n"];
      }
      assert PairsOf(oses[i], arches[|arches|..]) + rest == rest;
    }
  }

  method WriteCases(before: seq<string>, os: string, arches: seq<string>) returns (lines: seq<string>)
    ensures lines == before + ArchLines(os, arches)
  {
    lines := before;
    for j := 0 to |arches|
      invariant lines + ArchLines(os, arches[j..]) == before + ArchLines(os, arches)
    {
      assert arches[j..][1..] == arches[j + 1..];
      Assoc(lines, CaseOf(os, arches[j]), ArchLines(os, arches[j + 1..]));
      lines := lines + ["\t\tcase \"" + arches[j] + "\":\n", "\t\t\treturn " + Variable(os, arches[j]) + ", nil\n"];
    }
  }

  lemma NextOs(lines: seq<string>, oses: seq<string>, arches: seq<string>)
    requires oses != []
    ensures lines + OsLines(oses, arches) ==
            (((lines + OsHead(oses[0])) + ArchLines(oses[0], arches)) + DEFAULT_ARCH) + OsLines(oses[1..], arches)
  {
    var head, cases, more := OsHead(oses[0]), ArchLines(oses[0], arches), OsLines(oses[1..], arches);
    Assoc(lines, head, cases + (DEFAULT_ARCH + more));
    Assoc(lines + head, cases, DEFAULT_ARCH + more);
    Assoc((lines + head) + cases, DEFAULT_ARCH, more);
  }

  method WriteSwitch(before: seq<string>, oses: seq<string>, arches: seq<string>) returns (lines: seq<string>)
    ensures lines == before + OsLines(oses, arches)
  {
    lines := before;
    for i := 0 to |oses|
      invariant lines + OsLines(oses[i..], arches) == before + OsLines(oses, arches)
    {
      assert oses[i..][1..] == oses[i + 1..];
      NextOs(lines, oses[i..], arches);
      lines := lines + ["\tcase \"" + oses[i] + "\":\n", SWITCH_ARCH];
      lines := WriteCases(lines, oses[i], arches);
      lines := lines + DEFAULT_ARCH;
    }
  }

  datatype Error = NoWorkers

  /** A pool of no workers is an error: with nothing to build, nothing is written. */
  method Generate(oses: seq<string>, arches: seq<string>) returns (built: seq<Pair>, r: Result<seq<string>, Error>)
    ensures built == Combinations(oses, arches)
    ensures r == if built == [] then Err(NoWorkers) else Ok(FileLines(oses, arches))
  {
    built := Combine(oses, arches);
    if |built| == 0 {
      return built, Err(NoWorkers);
    }
    var lines := HEADER;
    lines := WriteEmbeds(lines, oses, arches);
    lines := lines + FUNC;
    lines := WriteSwitch(lines, oses, arches);
    lines := lines + FOOTER;
    Assoc(HEADER + EmbedLines(built) + FUNC, OsLines(oses, arches), FOOTER);
    Assoc(HEADER + EmbedLines(built), FUNC, OsLines(oses, arches) + FOOTER);
    Assoc(HEADER, EmbedLines(built), FUNC + (OsLines(oses, arches) + FOOTER));
    return built, Ok(lines);
  }

  // ----- what the file says -----------------------------------------------------------------

  const IMPORTS := ["_ \"embed\"", "\"fmt\""]
  const NO_ARCH := Default("unsupported GOARCH=", "goarch")
  const NO_OS := Default("unsupported GOOS=", "goos")

  function EmbedsOf(pairs: seq<Pair>): seq<Embed> {
    if pairs == [] then []
    else [Embed(FileName(pairs[0].0, pairs[0].1), Variable(pairs[0].0, pairs[0].1))] + EmbedsOf(pairs[1..])
  }

  function ArchCases(os: string, arches: seq<string>): seq<ArchCase> {
    if arches == [] then [] else [ArchCase(arches[0], Variable(os, arches[0]))] + ArchCases(os, arches[1..])
  }

  function OsCaseOf(os: string, arches: seq<string>): OsCase {
    OsCase(os, "goarch", ArchCases(os, arches), NO_ARCH)
  }

  function OsCases(oses: seq<string>, arches: seq<string>): seq<OsCase> {
    if oses == [] then []
    else [OsCaseOf(oses[0], arches)] + OsCases(oses[1..], arches)
  }

  function FuncOf(oses: seq<string>, arches: seq<string>): Func {
    Func("goos", "goarch", "goos", OsCases(oses, arches), NO_OS)
  }

  function FileOf(oses: seq<string>, arches: seq<string>): File {
    File("agent", IMPORTS, EmbedsOf(Combinations(oses, arches)), FuncOf(oses, arches))
  }

  predicate Words(names: seq<string>) {
    forall n :: n in names ==> Word(n)
  }

  lemma WordAppend(a: string, b: string)
    ensures Word(a + b) <==> Word(a) && Word(b)
  {
    assert forall c :: c in a + b <==> c in a || c in b;
  }

  lemma VariableIsIdent(os: string, arch: string)
    ensures Ident(Variable(os, arch)) <==> Word(os) && Word(arch)
  {
    WordAppend(VARIABLE + os + "_" + arch, "_");
    WordAppend(VARIABLE + os + "_", arch);
    WordAppend(VARIABLE + os, "_");
    WordAppend(VARIABLE, os);
    assert Variable(os, arch)[0] == 'A';
  }

  lemma WordIsPlain(s: string)
    requires Word(s)
    ensures Plain(s)
  {
    assert !WordChar('"') && !WordChar('\\') && !WordChar('\n');
  }

  predicate WordPair(p: Pair) {
    Word(p.0) && Word(p.1)
  }

  // ----- reading the file -------------------------------------------------------------------

  lemma ImportIsRead(what: string, rest: seq<string>)
    ensures ReadImports(["\t" + what + "\n"] + rest) == ([what] + ReadImports(rest).0, ReadImports(rest).1)
  {
    BetweenFinds("\t", what, "\n");
    var lines := ["\t" + what + "\n"] + rest;
    assert lines[0] == "\t" + what + "\n" && lines[1..] == rest;
  }

  lemma ImportsEnd(rest: seq<string>)
    ensures ReadImports([")\n"] + rest) == ([], [")\n"] + rest)
  {
    assert ([")\n"] + rest)[0][0] == ')';
  }

  lemma ImportsAreRead(rest: seq<string>)
    ensures ReadImports(HEADER[4..6] + ([")\n"] + rest)) == (IMPORTS, [")\n"] + rest)
  {
    var end := [")\n"] + rest;
    ImportsEnd(rest);
    ImportIsRead(IMPORTS[1], end);
    ImportIsRead(IMPORTS[0], [HEADER[5]] + end);
    assert HEADER[4..6] + end == [HEADER[4]] + ([HEADER[5]] + end);
    assert [IMPORTS[0]] + ([IMPORTS[1]] + []) == IMPORTS;
  }

  lemma TopIsRead(rest: seq<string>)
    ensures ReadTop(HEADER + rest) == Some(("agent", IMPORTS, rest))
  {
    var lines := HEADER + rest;
    BetweenFinds("package ", "agent", "\n");
    assert lines[4..] == HEADER[4..6] + ([")\n"] + (["\n"] + rest));
    ImportsAreRead(["\n"] + rest);
    assert ([")\n"] + (["\n"] + rest))[2..] == rest;
    assert lines[0] == HEADER[0] && HEADER[0][0] == '/' && HEADER[0][1] == '/';
  }

  lemma EmbedIsRead(p: Pair, rest: seq<string>)
    ensures ReadEmbed(EmbedOf(p) + rest) ==
            if WordPair(p) then Some(Embed(FileName(p.0, p.1), Variable(p.0, p.1))) else None
  {
    BetweenFinds("//go:embed ", FileName(p.0, p.1), "\n");
    BetweenFinds("var ", Variable(p.0, p.1), " []byte\n");
    VariableIsIdent(p.0, p.1);
  }

  lemma FuncIsNoEmbed(rest: seq<string>)
    ensures ReadEmbed(FUNC + rest).None?
  {
    assert (FUNC + rest)[0] == FUNC[0];
    assert FUNC[0] == SIGNATURE && SIGNATURE[0] == 'f';
  }

  lemma EmbedIsNoFunc(p: Pair, rest: seq<string>)
    ensures ReadFunc(EmbedOf(p) + rest).None?
  {
    var s := EmbedOf(p) + rest;
    assert s[0] == EmbedOf(p)[0] && s[0][0] == '/';
  }

  /** The declarations are all read, or reading stops at one that is not Go. */
  lemma {:induction false} EmbedsAreRead(pairs: seq<Pair>, rest: seq<string>)
    ensures var r := ReadEmbeds(EmbedLines(pairs) + (FUNC + rest));
            if forall p :: p in pairs ==> WordPair(p) then r == (EmbedsOf(pairs), FUNC + rest) else ReadFunc(r.1).None?
  {
    if pairs == [] {
      FuncIsNoEmbed(rest);
      assert EmbedLines(pairs) + (FUNC + rest) == FUNC + rest;
    } else {
      var more := EmbedLines(pairs[1..]) + (FUNC + rest);
      Assoc(EmbedOf(pairs[0]), EmbedLines(pairs[1..]), FUNC + rest);
      EmbedIsRead(pairs[0], more);
      EmbedIsNoFunc(pairs[0], more);
      assert (EmbedOf(pairs[0]) + more)[3..] == more;
      EmbedsAreRead(pairs[1..], rest);
      assert forall p :: p in pairs <==> p == pairs[0] || p in pairs[1..];
    }
  }

  lemma CaseIsRead(os: string, arch: string, rest: seq<string>)
    requires Word(os) && Word(arch)
    ensures ReadCase(CaseOf(os, arch) + rest) == Some(ArchCase(arch, Variable(os, arch)))
  {
    BetweenFinds("\t\tcase \"", arch, "\":\n");
    BetweenFinds("\t\t\treturn ", Variable(os, arch), ", nil\n");
    VariableIsIdent(os, arch);
    WordIsPlain(arch);
  }

  /** A text that stands for itself in an error's format. */
  predicate Quotable(s: string) {
    forall i :: 0 <= i < |s| ==> s[i] != '"' && s[i] != '\\' && s[i] != '\n' && s[i] != '%'
  }

  lemma ErrorIsRead(message: string, argument: string)
    requires Ident(argument) && Quotable(message)
    ensures ReadError(message + "%s\", " + argument) == Some(Default(message, argument))
  {
    assert message + "%s\", " + argument == message + ("%s\", " + argument);
    UntilFinds('%', message, "%s\", " + argument);
    FrontOf(message, "%s\", " + argument);
    FrontOf("%s\", ", argument);
  }

  lemma DefaultIsRead(tabs: string, message: string, argument: string, rest: seq<string>)
    requires Ident(argument) && Quotable(message)
    ensures ReadDefault(tabs, DefaultOf(tabs, message, argument) + rest) == Some((Default(message, argument), rest))
  {
    var lines := DefaultOf(tabs, message, argument) + rest;
    BetweenFinds(tabs + "\treturn nil, fmt.Errorf(\"", message + "%s\", " + argument, ")\n");
    ErrorIsRead(message, argument);
    assert lines[3..] == rest;
  }

  /** A default is neither a case of an inner switch nor one of an outer one. */
  lemma DefaultIsNoCase(message: string, argument: string, rest: seq<string>)
    ensures ReadCase(DefaultOf("\t\t", message, argument) + rest).None?
    ensures ReadHead(DefaultOf("\t", message, argument) + rest).None?
  {
    assert ("\t\t" + "default:\n")[2] == 'd' && ("\t" + "default:\n")[1] == 'd';
  }

  lemma ArchIsQuotable()
    ensures Quotable(NO_ARCH.message) && Ident(NO_ARCH.argument)
  {
  }

  lemma OsIsQuotable()
    ensures Quotable(NO_OS.message) && Ident(NO_OS.argument)
  {
  }

  lemma ArchDefaultIsRead(rest: seq<string>)
    ensures ReadCase(DEFAULT_ARCH + rest).None?
    ensures ReadDefault("\t\t", DEFAULT_ARCH + rest) == Some((NO_ARCH, rest))
  {
    ArchIsQuotable();
    DefaultIsNoCase(NO_ARCH.message, NO_ARCH.argument, rest);
    DefaultIsRead("\t\t", NO_ARCH.message, NO_ARCH.argument, rest);
  }

  lemma FooterIsRead()
    ensures ReadHead(FOOTER).None? && ReadDefault("\t", FOOTER) == Some((NO_OS, ["}\n"]))
  {
    OsIsQuotable();
    DefaultIsNoCase(NO_OS.message, NO_OS.argument, ["}\n"]);
    DefaultIsRead("\t", NO_OS.message, NO_OS.argument, ["}\n"]);
  }

  lemma {:induction false} CasesAreRead(os: string, arches: seq<string>, rest: seq<string>)
    requires Word(os) && Words(arches)
    ensures ReadCases(ArchLines(os, arches) + (DEFAULT_ARCH + rest)) == (ArchCases(os, arches), DEFAULT_ARCH + rest)
  {
    if arches == [] {
      ArchDefaultIsRead(rest);
      assert ArchLines(os, arches) + (DEFAULT_ARCH + rest) == DEFAULT_ARCH + rest;
    } else {
      var more := ArchLines(os, arches[1..]) + (DEFAULT_ARCH + rest);
      Assoc(CaseOf(os, arches[0]), ArchLines(os, arches[1..]), DEFAULT_ARCH + rest);
      CaseIsRead(os, arches[0], more);
      assert (CaseOf(os, arches[0]) + more)[2..] == more;
      CasesAreRead(os, arches[1..], rest);
    }
  }

  lemma HeadIsRead(os: string, rest: seq<string>)
    requires Word(os)
    ensures ReadHead(OsHead(os) + rest) == Some((os, "goarch"))
  {
    BetweenFinds("\tcase \"", os, "\":\n");
    BetweenFinds("\t\tswitch ", "goarch", " {\n");
    WordIsPlain(os);
  }

  lemma OsIsRead(os: string, arches: seq<string>, more: seq<string>)
    requires Word(os) && Words(arches)
    ensures var r := ReadOses(OsHead(os) + (ArchLines(os, arches) + (DEFAULT_ARCH + more)));
            r == ([OsCase(os, "goarch", ArchCases(os, arches), NO_ARCH)] + ReadOses(more).0, ReadOses(more).1)
  {
    var tail := ArchLines(os, arches) + (DEFAULT_ARCH + more);
    HeadIsRead(os, tail);
    assert (OsHead(os) + tail)[2..] == tail;
    CasesAreRead(os, arches, more);
    ArchDefaultIsRead(more);
  }

  lemma {:induction false} OsesAreRead(oses: seq<string>, arches: seq<string>)
    requires Words(oses) && Words(arches)
    ensures ReadOses(OsLines(oses, arches) + FOOTER) == (OsCases(oses, arches), FOOTER)
  {
    if oses == [] {
      FooterIsRead();
      assert OsLines(oses, arches) + FOOTER == FOOTER;
    } else {
      var head, cases, more := OsHead(oses[0]), ArchLines(oses[0], arches), OsLines(oses[1..], arches);
      Assoc(head, cases + (DEFAULT_ARCH + more), FOOTER);
      Assoc(cases, DEFAULT_ARCH + more, FOOTER);
      Assoc(DEFAULT_ARCH, more, FOOTER);
      OsIsRead(oses[0], arches, more + FOOTER);
      OsesAreRead(oses[1..], arches);
    }
  }

  lemma ParametersAreRead(first: string, second: string)
    requires Ident(first) && Ident(second)
    ensures ReadParameters(first + " string, " + second) == Some((first, second))
  {
    Assoc(first, " string, ", second);
    assert ' ' !in first by {
      assert !WordChar(' ');
    }
    UntilFinds(' ', first, " string, " + second);
    FrontOf(first, " string, " + second);
    FrontOf(" string, ", second);
  }

  lemma SignatureIsRead()
    ensures Between("func GetAgentBinary(", SIGNATURE, " string) ([]byte, error) {\n") == Some("goos" + " string, " + "goarch")
    ensures ReadParameters("goos" + " string, " + "goarch") == Some(("goos", "goarch"))
  {
    BetweenFinds("func GetAgentBinary(", "goos" + " string, " + "goarch", " string) ([]byte, error) {\n");
    ParametersAreRead("goos", "goarch");
  }

  lemma FuncIsRead(oses: seq<string>, arches: seq<string>)
    requires Words(oses) && Words(arches)
    ensures ReadFunc(FUNC + (OsLines(oses, arches) + FOOTER)) == Some(FuncOf(oses, arches))
  {
    var body := OsLines(oses, arches) + FOOTER;
    var lines := FUNC + body;
    assert lines[0] == FUNC[0] && lines[1] == FUNC[1] && lines[2..] == body;
    SignatureIsRead();
    BetweenFinds("\tswitch ", "goos", " {\n");
    OsesAreRead(oses, arches);
    FooterIsRead();
  }

  // ----- the pairs are the product ----------------------------------------------------------

  lemma {:induction false} PairsOfIs(os: string, arches: seq<string>, p: Pair)
    ensures p in PairsOf(os, arches) <==> p.0 == os && p.1 in arches
  {
    if arches != [] {
      PairsOfIs(os, arches[1..], p);
      assert arches == [arches[0]] + arches[1..];
    }
  }

  /** A pair is built exactly when its system and its architecture are both listed. */
  lemma {:induction false} CombinationsAreProduct(oses: seq<string>, arches: seq<string>, p: Pair)
    ensures p in Combinations(oses, arches) <==> p.0 in oses && p.1 in arches
  {
    if oses != [] {
      PairsOfIs(oses[0], arches, p);
      CombinationsAreProduct(oses[1..], arches, p);
      assert oses == [oses[0]] + oses[1..];
    }
  }

  lemma PairsAreWords(oses: seq<string>, arches: seq<string>)
    requires oses != [] && arches != []
    ensures (forall p :: p in Combinations(oses, arches) ==> WordPair(p)) <==> Words(oses) && Words(arches)
  {
    forall p: Pair ensures p in Combinations(oses, arches) <==> p.0 in oses && p.1 in arches {
      CombinationsAreProduct(oses, arches, p);
    }
    if forall p :: p in Combinations(oses, arches) ==> WordPair(p) {
      forall os | os in oses ensures Word(os) {
        assert (os, arches[0]) in Combinations(oses, arches);
        assert WordPair((os, arches[0]));
      }
      forall arch | arch in arches ensures Word(arch) {
        assert (oses[0], arch) in Combinations(oses, arches);
        assert WordPair((oses[0], arch));
      }
    }
  }

  /**
   The written file is Go exactly when all names are made of word characters; it is then of package
   `agent`, embeds a file for every pair built, and switches over the two lists.
   */
  lemma FileIsRead(oses: seq<string>, arches: seq<string>)
    requires oses != [] && arches != []
    ensures ReadFile(FileLines(oses, arches)) == if Words(oses) && Words(arches) then Some(FileOf(oses, arches)) else None
  {
    var pairs := Combinations(oses, arches);
    var last := OsLines(oses, arches) + FOOTER;
    TopIsRead(EmbedLines(pairs) + (FUNC + last));
    EmbedsAreRead(pairs, last);
    PairsAreWords(oses, arches);
    if Words(oses) && Words(arches) {
      FuncIsRead(oses, arches);
    }
  }

  // ----- what the function answers ----------------------------------------------------------

  lemma {:induction false} InnerIs(f: Func, a: string, b: string, os: string, arches: seq<string>)
    requires f.first == "goos" && f.second == "goarch"
    ensures Inner(f, a, b, ArchCases(os, arches), b, NO_ARCH) ==
            Some(if b in arches then Binary(Variable(os, b)) else Failed("unsupported GOARCH=" + b))
  {
    if arches != [] {
      InnerIs(f, a, b, os, arches[1..]);
      assert ArchCases(os, arches)[1..] == ArchCases(os, arches[1..]);
      assert arches == [arches[0]] + arches[1..];
    }
  }

  lemma {:induction false} OuterIs(f: Func, a: string, b: string, oses: seq<string>, arches: seq<string>)
    requires f.first == "goos" && f.second == "goarch" && f.default == NO_OS
    ensures Outer(f, a, b, OsCases(oses, arches), a) ==
            Some(if a !in oses then Failed("unsupported GOOS=" + a)
                 else if b !in arches then Failed("unsupported GOARCH=" + b)
                 else Binary(Variable(a, b)))
  {
    if oses != [] {
      InnerIs(f, a, b, oses[0], arches);
      OuterIs(f, a, b, oses[1..], arches);
      assert OsCases(oses, arches)[1..] == OsCases(oses[1..], arches);
      assert oses == [oses[0]] + oses[1..];
    }
  }

  lemma ErrorsDiffer(a: string, b: string)
    ensures "unsupported GOOS=" + a != "unsupported GOARCH=" + b
  {
    assert ("unsupported GOOS=" + a)[14] == 'O' && ("unsupported GOARCH=" + b)[14] == 'A';
  }

  /**
   A call of the written function with a system and an architecture, in this order: the pair's own
   variable exactly if both are listed; otherwise an error, which names the system exactly if that is
   not listed, and else the architecture.
   */
  lemma SwitchIsMembership(oses: seq<string>, arches: seq<string>, file: File, goos: string, goarch: string)
    requires oses != [] && arches != [] && ReadFile(FileLines(oses, arches)) == Some(file)
    ensures var r := Call(file.func, goos, goarch);
            && (r == Some(Binary(Variable(goos, goarch))) <==> goos in oses && goarch in arches)
            && (r == Some(Failed("unsupported GOOS=" + goos)) <==> goos !in oses)
            && (r == Some(Failed("unsupported GOARCH=" + goarch)) <==> goos in oses && goarch !in arches)
  {
    FileIsRead(oses, arches);
    OuterIs(file.func, goos, goarch, oses, arches);
    ErrorsDiffer(goos, goarch);
  }

  // ----- declared once, returned where declared ---------------------------------------------

  /** The declarations, one by one. */
  lemma {:induction false} EmbedsAt(pairs: seq<Pair>, i: nat)
    requires i < |pairs|
    ensures |Declared(EmbedsOf(pairs))| == |Files(EmbedsOf(pairs))| == |pairs|
    ensures Declared(EmbedsOf(pairs))[i] == Variable(pairs[i].0, pairs[i].1)
    ensures Files(EmbedsOf(pairs))[i] == FileName(pairs[i].0, pairs[i].1)
  {
    assert EmbedsOf(pairs)[1..] == EmbedsOf(pairs[1..]);
    if |pairs| > 1 {
      EmbedsAt(pairs[1..], if i > 0 then i - 1 else 0);
    }
  }

  lemma DeclaredIs(pairs: seq<Pair>, v: string)
    ensures v in Declared(EmbedsOf(pairs)) <==> exists p :: p in pairs && v == Variable(p.0, p.1)
  {
    if pairs != [] {
      EmbedsAt(pairs, 0);
    }
    if v in Declared(EmbedsOf(pairs)) {
      var i :| 0 <= i < |Declared(EmbedsOf(pairs))| && Declared(EmbedsOf(pairs))[i] == v;
      EmbedsAt(pairs, i);
      assert pairs[i] in pairs;
    }
    if p :| p in pairs && v == Variable(p.0, p.1) {
      var i :| 0 <= i < |pairs| && pairs[i] == p;
      EmbedsAt(pairs, i);
    }
  }

  lemma FilesAre(pairs: seq<Pair>, f: string)
    ensures f in Files(EmbedsOf(pairs)) <==> exists p :: p in pairs && f == FileName(p.0, p.1)
  {
    if pairs != [] {
      EmbedsAt(pairs, 0);
    }
    if f in Files(EmbedsOf(pairs)) {
      var i :| 0 <= i < |Files(EmbedsOf(pairs))| && Files(EmbedsOf(pairs))[i] == f;
      EmbedsAt(pairs, i);
      assert pairs[i] in pairs;
    }
    if p :| p in pairs && f == FileName(p.0, p.1) {
      var i :| 0 <= i < |pairs| && pairs[i] == p;
      EmbedsAt(pairs, i);
    }
  }

  /** The variables the function can return are the declared ones, and the files embedded those built. */
  lemma ReturnedAreDeclared(oses: seq<string>, arches: seq<string>, file: File, v: string)
    requires oses != [] && arches != [] && ReadFile(FileLines(oses, arches)) == Some(file)
    ensures v in Declared(file.embeds) <==> exists goos, goarch :: Call(file.func, goos, goarch) == Some(Binary(v))
    ensures v in Files(file.embeds) <==> exists p :: p in Combinations(oses, arches) && v == FileName(p.0, p.1)
  {
    var pairs := Combinations(oses, arches);
    FileIsRead(oses, arches);
    FilesAre(pairs, v);
    DeclaredIs(pairs, v);
    if p :| p in pairs && v == Variable(p.0, p.1) {
      CombinationsAreProduct(oses, arches, p);
      SwitchIsMembership(oses, arches, file, p.0, p.1);
    }
    if goos, goarch :| Call(file.func, goos, goarch) == Some(Binary(v)) {
      OuterIs(file.func, goos, goarch, oses, arches);
      CombinationsAreProduct(oses, arches, (goos, goarch));
      assert (goos, goarch) in pairs;
    }
  }

  // ----- when the file compiles -------------------------------------------------------------

  /** A listed system that extends another, by what a listed architecture has in front of another. */
  ghost predicate Clash(oses: seq<string>, arches: seq<string>) {
    exists a, w, d :: a in oses && a + "_" + w in oses && d in arches && w + "_" + d in arches
  }

  lemma SameVariable(a: string, b: string, c: string, d: string)
    ensures Variable(a, b) == Variable(c, d) <==> a + "_" + b == c + "_" + d
  {
    var x, y := a + "_" + b, c + "_" + d;
    assert Variable(a, b) == VARIABLE + (x + "_") && Variable(c, d) == VARIABLE + (y + "_");
    assert (VARIABLE + (x + "_"))[|VARIABLE|..] == x + "_" && (VARIABLE + (y + "_"))[|VARIABLE|..] == y + "_";
    assert (x + "_")[..|x|] == x && (y + "_")[..|y|] == y;
  }

  lemma SplitAtSystem(a: string, b: string, c: string, d: string)
    requires a + "_" + b == c + "_" + d && |a| < |c|
    ensures var w := c[|a| + 1..]; c == a + "_" + w && b == w + "_" + d
  {
    var s := a + "_" + b;
    assert s[..|a|] == a && s[|a|] == '_' && s[|a| + 1..] == b;
    assert s[..|c|] == c && s[|c|] == '_' && s[|c| + 1..] == d;
    assert c[..|a|] == s[..|a|] && c[|a|] == s[|a|];
    var w := c[|a| + 1..];
    assert s[|a| + 1..|c|] == w;
    assert b == s[|a| + 1..|c|] + [s[|c|]] + s[|c| + 1..];
  }

  /** Two pairs share a variable exactly when an underscore can be read on either side. */
  lemma VariablesCollideIff(a: string, b: string, c: string, d: string)
    ensures Variable(a, b) == Variable(c, d) <==>
            || (a == c && b == d)
            || (exists w :: c == a + "_" + w && b == w + "_" + d)
            || (exists w :: a == c + "_" + w && d == w + "_" + b)
  {
    SameVariable(a, b, c, d);
    if a + "_" + b == c + "_" + d {
      if |a| < |c| {
        SplitAtSystem(a, b, c, d);
      } else if |c| < |a| {
        SplitAtSystem(c, d, a, b);
      } else {
        var s := a + "_" + b;
        assert s[..|a|] == a && s[..|a|] == c && s[|a| + 1..] == b && s[|a| + 1..] == d;
      }
    }
    if w :| c == a + "_" + w && b == w + "_" + d {
      assert a + "_" + (w + "_" + d) == (a + "_" + w) + "_" + d;
    }
    if w :| a == c + "_" + w && d == w + "_" + b {
      assert c + "_" + (w + "_" + b) == (c + "_" + w) + "_" + b;
    }
  }

  predicate Apart(a: seq<string>, b: seq<string>) {
    forall x :: x in a ==> x !in b
  }

  lemma {:induction false} DistinctAppend(a: seq<string>, b: seq<string>)
    ensures Distinct(a + b) <==> Distinct(a) && Distinct(b) && Apart(a, b)
  {
    if a == [] {
      assert a + b == b;
    } else {
      assert (a + b)[0] == a[0] && (a + b)[1..] == a[1..] + b;
      DistinctAppend(a[1..], b);
      assert a == [a[0]] + a[1..];
    }
  }

  lemma {:induction false} DeclaredAppend(p: seq<Pair>, q: seq<Pair>)
    ensures Declared(EmbedsOf(p + q)) == Declared(EmbedsOf(p)) + Declared(EmbedsOf(q))
  {
    if p == [] {
      assert p + q == q;
    } else {
      assert (p + q)[0] == p[0] && (p + q)[1..] == p[1..] + q;
      DeclaredAppend(p[1..], q);
      assert EmbedsOf(p)[1..] == EmbedsOf(p[1..]) && EmbedsOf(p + q)[1..] == EmbedsOf(p[1..] + q);
    }
  }

  lemma {:induction false} OneSystem(os: string, arches: seq<string>)
    ensures Distinct(Declared(EmbedsOf(PairsOf(os, arches)))) <==> Distinct(arches)
  {
    if arches != [] {
      OneSystem(os, arches[1..]);
      var rest := PairsOf(os, arches[1..]);
      assert PairsOf(os, arches)[1..] == rest;
      assert EmbedsOf(PairsOf(os, arches))[1..] == EmbedsOf(rest);
      var v := Variable(os, arches[0]);
      DeclaredIs(rest, v);
      assert v in Declared(EmbedsOf(rest)) <==> arches[0] in arches[1..] by {
        FirstAgain(os, arches);
      }
    }
  }

  lemma FirstAgain(os: string, arches: seq<string>)
    requires arches != []
    ensures (exists p :: p in PairsOf(os, arches[1..]) && Variable(os, arches[0]) == Variable(p.0, p.1)) <==>
            arches[0] in arches[1..]
  {
    forall p: Pair
      ensures p in PairsOf(os, arches[1..]) <==> p.0 == os && p.1 in arches[1..]
      ensures p.0 == os && Variable(os, arches[0]) == Variable(p.0, p.1) ==> arches[0] == p.1
    {
      PairsOfIs(os, arches[1..], p);
      VariablesCollideIff(os, arches[0], p.0, p.1);
    }
    if arches[0] in arches[1..] {
      assert (os, arches[0]) in PairsOf(os, arches[1..]);
    }
  }

  /** Whether system `os` shares a variable with one of the others. */
  ghost predicate Shares(os: string, others: seq<string>, arches: seq<string>) {
    exists b, c, d :: b in arches && c in others && d in arches && Variable(os, b) == Variable(c, d)
  }

  lemma SystemsApart(os: string, others: seq<string>, arches: seq<string>)
    ensures Apart(Declared(EmbedsOf(PairsOf(os, arches))), Declared(EmbedsOf(Combinations(others, arches)))) <==>
            !Shares(os, others, arches)
  {
    var mine, theirs := Declared(EmbedsOf(PairsOf(os, arches))), Declared(EmbedsOf(Combinations(others, arches)));
    if Shares(os, others, arches) {
      var b, c, d :| b in arches && c in others && d in arches && Variable(os, b) == Variable(c, d);
      VariablesOf(os, arches, Variable(os, b));
      VariablesOfAll(others, arches, Variable(c, d));
      assert Variable(os, b) in mine && Variable(c, d) in theirs;
    } else {
      forall v | v in mine ensures v !in theirs {
        VariablesOf(os, arches, v);
        VariablesOfAll(others, arches, v);
      }
    }
  }

  lemma VariablesOf(os: string, arches: seq<string>, v: string)
    ensures v in Declared(EmbedsOf(PairsOf(os, arches))) <==> exists b :: b in arches && v == Variable(os, b)
  {
    DeclaredIs(PairsOf(os, arches), v);
    forall p: Pair ensures p in PairsOf(os, arches) <==> p.0 == os && p.1 in arches {
      PairsOfIs(os, arches, p);
    }
    if b :| b in arches && v == Variable(os, b) {
      assert (os, b) in PairsOf(os, arches);
    }
  }

  lemma VariablesOfAll(oses: seq<string>, arches: seq<string>, v: string)
    ensures v in Declared(EmbedsOf(Combinations(oses, arches))) <==>
            exists c, d :: c in oses && d in arches && v == Variable(c, d)
  {
    DeclaredIs(Combinations(oses, arches), v);
    forall p: Pair ensures p in Combinations(oses, arches) <==> p.0 in oses && p.1 in arches {
      CombinationsAreProduct(oses, arches, p);
    }
    if c, d :| c in oses && d in arches && v == Variable(c, d) {
      assert (c, d) in Combinations(oses, arches);
    }
  }

  /** With one architecture at least, a repeated system shares; a new one shares by a clash only. */
  lemma SharesIff(os: string, others: seq<string>, arches: seq<string>)
    requires arches != []
    ensures Shares(os, others, arches) <==> os in others || ClashWith(os, others, arches)
  {
    if os in others {
      assert arches[0] in arches && Variable(os, arches[0]) == Variable(os, arches[0]);
    }
    if b, c, d :| b in arches && c in others && d in arches && Variable(os, b) == Variable(c, d) {
      VariablesCollideIff(os, b, c, d);
    }
    if c, w, d :| c in others && d in arches && w + "_" + d in arches && (c == os + "_" + w) {
      VariablesCollideIff(os, w + "_" + d, c, d);
    }
    if c, w, d :| c in others && d in arches && w + "_" + d in arches && (os == c + "_" + w) {
      VariablesCollideIff(os, d, c, w + "_" + d);
    }
  }

  /** One of two clashing systems is `os`, the other one of `others`. */
  ghost predicate ClashWith(os: string, others: seq<string>, arches: seq<string>) {
    exists c, w, d :: c in others && d in arches && w + "_" + d in arches && (c == os + "_" + w || os == c + "_" + w)
  }

  lemma ClashStep(oses: seq<string>, arches: seq<string>)
    requires oses != []
    ensures Clash(oses, arches) <==> Clash(oses[1..], arches) || ClashWith(oses[0], oses[1..], arches)
  {
    assert oses == [oses[0]] + oses[1..];
    if a, w, d :| a in oses && a + "_" + w in oses && d in arches && w + "_" + d in arches {
      assert a + "_" + w != a;
      if a in oses[1..] && a + "_" + w in oses[1..] {
        assert Clash(oses[1..], arches);
      } else {
        var c := if a == oses[0] then a + "_" + w else a;
        assert c in oses[1..];
        assert ClashWith(oses[0], oses[1..], arches);
      }
    }
    if c, w, d :| c in oses[1..] && d in arches && w + "_" + d in arches &&
                  (c == oses[0] + "_" + w || oses[0] == c + "_" + w) {
      var a := if c == oses[0] + "_" + w then oses[0] else c;
      assert a in oses && a + "_" + w in oses;
      assert Clash(oses, arches);
    }
  }

  lemma {:induction false} DeclaredOnceIff(oses: seq<string>, arches: seq<string>)
    requires oses != [] && arches != []
    ensures Distinct(Declared(EmbedsOf(Combinations(oses, arches)))) <==>
            Distinct(oses) && Distinct(arches) && !Clash(oses, arches)
  {
    var os, others := oses[0], oses[1..];
    DeclaredAppend(PairsOf(os, arches), Combinations(others, arches));
    DistinctAppend(Declared(EmbedsOf(PairsOf(os, arches))), Declared(EmbedsOf(Combinations(others, arches))));
    OneSystem(os, arches);
    SystemsApart(os, others, arches);
    SharesIff(os, others, arches);
    ClashStep(oses, arches);
    if others != [] {
      DeclaredOnceIff(others, arches);
    }
  }

  lemma {:induction false} LabelsAre(oses: seq<string>, arches: seq<string>)
    ensures Labels(OsCases(oses, arches)) == oses
  {
    if oses != [] {
      LabelsAre(oses[1..], arches);
      assert OsCases(oses, arches)[1..] == OsCases(oses[1..], arches);
    }
  }

  lemma {:induction false} CaseIs(oses: seq<string>, arches: seq<string>, c: OsCase)
    requires c in OsCases(oses, arches)
    ensures c.name in oses && c == OsCaseOf(c.name, arches)
  {
    if c != OsCaseOf(oses[0], arches) {
      assert OsCases(oses, arches) == [OsCaseOf(oses[0], arches)] + OsCases(oses[1..], arches);
      CaseIs(oses[1..], arches, c);
    }
  }

  lemma {:induction false} InnerLabelsAre(os: string, arches: seq<string>)
    ensures InnerLabels(ArchCases(os, arches)) == arches
    ensures forall d :: d in ArchCases(os, arches) ==> d.name in arches && d.variable == Variable(os, d.name)
  {
    if arches != [] {
      InnerLabelsAre(os, arches[1..]);
      assert ArchCases(os, arches)[1..] == ArchCases(os, arches[1..]);
    }
  }

  lemma ReturnsDeclared(oses: seq<string>, arches: seq<string>, c: OsCase, d: ArchCase)
    requires c in OsCases(oses, arches) && d in c.cases
    ensures d.variable in Declared(EmbedsOf(Combinations(oses, arches)))
  {
    CaseIs(oses, arches, c);
    InnerLabelsAre(c.name, arches);
    CombinationsAreProduct(oses, arches, (c.name, d.name));
    DeclaredIs(Combinations(oses, arches), d.variable);
    assert (c.name, d.name) in Combinations(oses, arches);
  }

  lemma NamesAreKnown(oses: seq<string>, arches: seq<string>)
    ensures Scoped(FuncOf(oses, arches)) && Imported(IMPORTS)
  {
    forall c | c in OsCases(oses, arches)
      ensures c.subject == "goarch" && c.default == NO_ARCH
    {
      CaseIs(oses, arches, c);
    }
    assert ["goos", "goarch"][0] == "goos" && ["goos", "goarch"][1] == "goarch";
  }

  /**
   The written file compiles exactly when no name is listed twice and no two pairs clash, that is,
   unless some `a` and `a_w` are both listed systems and some `d` and `w_d` both listed architectures.
   */
  lemma CompilesIff(oses: seq<string>, arches: seq<string>, file: File)
    requires oses != [] && arches != [] && ReadFile(FileLines(oses, arches)) == Some(file)
    ensures Compiles(file) <==> Distinct(oses) && Distinct(arches) && !Clash(oses, arches)
  {
    FileIsRead(oses, arches);
    LabelsAre(oses, arches);
    NamesAreKnown(oses, arches);
    forall c | c in file.func.cases
      ensures InnerLabels(c.cases) == arches
    {
      CaseIs(oses, arches, c);
      InnerLabelsAre(c.name, arches);
    }
    assert OsCases(oses, arches)[0] in file.func.cases;
    forall c, d | c in file.func.cases && d in c.cases
      ensures d.variable in Declared(file.embeds)
    {
      ReturnsDeclared(oses, arches, c, d);
    }
    DeclaredOnceIff(oses, arches);
  }

  // ----- the function finds the binaries ----------------------------------------------------

  /** A variable that is declared once embeds the file it was declared with. */
  lemma {:induction false} EmbeddedAt(pairs: seq<Pair>, p: Pair)
    requires p in pairs && Distinct(Declared(EmbedsOf(pairs)))
    ensures Embedded(EmbedsOf(pairs), Variable(p.0, p.1)) == Some(FileName(p.0, p.1))
  {
    assert EmbedsOf(pairs)[1..] == EmbedsOf(pairs[1..]);
    if p != pairs[0] {
      EmbeddedAt(pairs[1..], p);
      DeclaredIs(pairs[1..], Variable(p.0, p.1));
    }
  }

  /**
   A written file that compiles: called with a system and an architecture, its function returns the
   contents of the very file that was built for the two exactly if both are listed; otherwise the
   error, as `SwitchIsMembership` says.
   */
  lemma BinariesAreFetched(oses: seq<string>, arches: seq<string>, file: File, goos: string, goarch: string)
    requires oses != [] && arches != [] && ReadFile(FileLines(oses, arches)) == Some(file) && Compiles(file)
    ensures Fetch(file, goos, goarch) ==
            Some(if goos in oses && goarch in arches then Contents(FileName(goos, goarch))
                 else if goos in oses then Error("unsupported GOARCH=" + goarch)
                 else Error("unsupported GOOS=" + goos))
  {
    FileIsRead(oses, arches);
    OuterIs(file.func, goos, goarch, oses, arches);
    if goos in oses && goarch in arches {
      CombinationsAreProduct(oses, arches, (goos, goarch));
      EmbeddedAt(Combinations(oses, arches), (goos, goarch));
    }
  }

  lemma {:induction false} DashedPieces(a: string, b: string)
    requires Word(a) && Word(b)
    ensures Split('-', a + "-" + b) == [a, b]
  {
    assert !WordChar('-');
    SplitJoins('-', a, b, "");
    SplitNone('-', a, "");
    SplitNone('-', b, "");
    assert "" + a == a && "" + b == b;
    assert [a] + [b] == [a, b];
  }

  /** Different pairs are built into different files, so no build overwrites another. */
  lemma FileNamesAreDistinct(a: string, b: string, c: string, d: string)
    requires Word(a) && Word(b) && Word(c) && Word(d)
    ensures FileName(a, b) == FileName(c, d) <==> a == c && b == d
  {
    var x, y := a + "-" + b, c + "-" + d;
    assert FileName(a, b) == "mid-agent-" + x && FileName(c, d) == "mid-agent-" + y;
    FrontOf("mid-agent-", x);
    FrontOf("mid-agent-", y);
    DashedPieces(a, b);
    DashedPieces(c, d);
    if x == y {
      assert [a, b][0] == [c, d][0] && [a, b][1] == [c, d][1];
    }
  }

  lemma JoinedWords(a: string, b: string)
    requires Word(a) && Word(b)
    ensures Word(a + "_" + b) && a != a + "_" + b && b != a + "_" + b
  {
    WordAppend(a + "_", b);
    WordAppend(a, "_");
    assert |a + "_" + b| > |a| && |a + "_" + b| > |b|;
  }

  lemma PairIsDistinct(a: string, b: string)
    requires Word(a) && Word(b) && a != b
    ensures Distinct([a, b]) && Words([a, b]) && [a, b] != []
  {
    assert [a, b][1..] == [b] && [b][1..] == [];
  }

  lemma ClashBreaks(oses: seq<string>, arches: seq<string>) returns (file: File)
    requires oses != [] && arches != [] && Words(oses) && Words(arches) && Clash(oses, arches)
    ensures ReadFile(FileLines(oses, arches)) == Some(file) && !Compiles(file)
  {
    FileIsRead(oses, arches);
    file := FileOf(oses, arches);
    CompilesIff(oses, arches, file);
  }

  lemma PairsClash(a: string, w: string, d: string)
    ensures Clash([a, a + "_" + w], [d, w + "_" + d])
  {
    var oses, arches := [a, a + "_" + w], [d, w + "_" + d];
    assert oses[0] == a && oses[1] == a + "_" + w && arches[0] == d && arches[1] == w + "_" + d;
  }

  /** Two systems and two architectures that are fine by themselves, and do not compile together. */
  lemma UnderscoresClash(a: string, w: string, d: string) returns (file: File)
    requires Word(a) && Word(w) && Word(d)
    ensures var oses, arches := [a, a + "_" + w], [d, w + "_" + d];
            && Distinct(oses) && Distinct(arches)
            && ReadFile(FileLines(oses, arches)) == Some(file) && !Compiles(file)
  {
    JoinedWords(a, w);
    JoinedWords(w, d);
    PairIsDistinct(a, a + "_" + w);
    PairIsDistinct(d, w + "_" + d);
    PairsClash(a, w, d);
    file := ClashBreaks([a, a + "_" + w], [d, w + "_" + d]);
  }

  // ----- the binaries that are shipped ------------------------------------------------------

  const GOOS := ["linux"]
  const GOARCH := ["amd64", "arm64"]

  lemma ShippedNames()
    ensures Words(GOOS) && Words(GOARCH) && Distinct(GOOS) && Distinct(GOARCH)
    ensures forall n :: n in GOOS + GOARCH ==> '_' !in n
  {
    assert GOARCH[0] == "amd64" && GOARCH[1] == "arm64" && GOARCH[1..] == ["arm64"] && GOOS[1..] == [];
  }

  /** What the installer asks for, given what `uname -m` printed; `None` is an installation error. */
  function TargetOf(output: string): Option<Pair> {
    match Retries.TrimSpace(output)
    case "aarch64" => Some(("linux", "arm64"))
    case "x86_64" => Some(("linux", "amd64"))
    case _ => None
  }

  /** What the kernel of a machine with an architecture, as Go calls it, prints as the machine's name. */
  function Machine(arch: string): Option<string> {
    if arch == "amd64" then Some("x86_64") else if arch == "arm64" then Some("aarch64") else None
  }

  /** The installer asks for a pair exactly if it is one of the shipped ones and the output names its machine. */
  lemma TargetIsMachine(output: string, os: string, arch: string)
    ensures TargetOf(output) == Some((os, arch)) <==>
            os in GOOS && arch in GOARCH && Machine(arch) == Some(Retries.TrimSpace(output))
  {
    assert GOOS[0] == "linux" && GOARCH[0] == "amd64" && GOARCH[1] == "arm64";
    assert "x86_64" != "aarch64";
  }

  lemma ShippedFile() returns (file: File)
    ensures ReadFile(FileLines(GOOS, GOARCH)) == Some(file) && Compiles(file)
  {
    ShippedNames();
    FileIsRead(GOOS, GOARCH);
    file := FileOf(GOOS, GOARCH);
    NoUnderscoreNoClash(GOOS, GOARCH);
    CompilesIff(GOOS, GOARCH, file);
  }

  /**
   The shipped lists give a file that compiles; and of every machine the installer accepts, the written
   function returns the binary that was built for that machine's architecture.
   */
  lemma AcceptedMachinesHaveBinaries(output: string)
    ensures exists file :: && ReadFile(FileLines(GOOS, GOARCH)) == Some(file) && Compiles(file)
                           && match TargetOf(output)
                              case None => true
                              case Some(p) =>
                                && Machine(p.1) == Some(Retries.TrimSpace(output))
                                && Fetch(file, p.0, p.1) == Some(Contents(FileName("linux", p.1)))
  {
    var file := ShippedFile();
    if TargetOf(output).Some? {
      var p := TargetOf(output).value;
      TargetIsMachine(output, p.0, p.1);
      BinariesAreFetched(GOOS, GOARCH, file, p.0, p.1);
    }
  }

  /** Every shipped architecture is reached: by the line that its machines print. */
  lemma ShippedBinariesAreUsed(arch: string)
    requires arch in GOARCH
    ensures Machine(arch).Some? && TargetOf(Machine(arch).value + "\n") == Some(("linux", arch))
  {
    assert arch == "amd64" || arch == "arm64";
    var machine := Machine(arch).value;
    assert Word(machine);
    Retries.LineIsTrimmed(machine, "\n");
    TargetIsMachine(machine + "\n", "linux", arch);
    assert GOOS[0] == "linux";
  }

  /** Systems without underscores never clash. */
  lemma NoUnderscoreNoClash(oses: seq<string>, arches: seq<string>)
    requires forall n :: n in oses ==> '_' !in n
    ensures !Clash(oses, arches)
  {
    forall a: string, w: string ensures '_' in a + "_" + w {
      HasUnderscore(a, w);
    }
  }

  lemma HasUnderscore(a: string, w: string)
    ensures '_' in a + "_" + w
  {
    assert (a + "_" + w)[|a|] == '_';
  }
}
