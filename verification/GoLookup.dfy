/**
 The Go files that look binaries up: a reader and what such a file means. The reader knows how Go
 writes imports, embedded files, functions, switches and errors, as far as such a file has them; all
 names and texts, those of the function's parameters and of what it switches over included, are read
 out of the file. It takes only identifiers of ASCII letters and literals that stand for themselves.
 */
module GoLookup {
  import opened Strings
  import opened Wrappers

  datatype Embed = Embed(file: string, variable: string)
  datatype ArchCase = ArchCase(name: string, variable: string)

  /** The error of a switch's default: a text, followed by the value of a parameter. */
  datatype Default = Default(message: string, argument: string)

  /** One case of the outer switch: an inner switch over `subject`. */
  datatype OsCase = OsCase(name: string, subject: string, cases: seq<ArchCase>, default: Default)

  /** The function: its two parameters in order, and its switch over `subject`. */
  datatype Func = Func(first: string, second: string, subject: string, cases: seq<OsCase>, default: Default)

  datatype File = File(package: string, imports: seq<string>, embeds: seq<Embed>, func: Func)

  predicate Ident(s: string) {
    Word(s) && s != "" && !('0' <= s[0] <= '9')
  }

  /** The text of a string literal that stands for itself. */
  predicate Plain(s: string) {
    '"' !in s && '\\' !in s && '\n' !in s
  }

  /** What stands between `before` and `after`. */
  function Between(before: string, line: string, after: string): Option<string> {
    if |before| + |after| <= |line| && before <= line && line[|line| - |after|..] == after
    then Some(line[|before|..|line| - |after|])
    else None
  }

  lemma BetweenFinds(before: string, middle: string, after: string)
    ensures Between(before, before + middle + after, after) == Some(middle)
  {
    var line := before + middle + after;
    assert line == before + (middle + after);
    assert line[|line| - |after|..] == after;
  }

  // ----- the top of the file ----------------------------------------------------------------

  function ReadImports(lines: seq<string>): (seq<string>, seq<string>) {
    if lines == [] then ([], lines)
    else
      match Between("\t", lines[0], "\n")
      case None => ([], lines)
      case Some(what) =>
        var (rest, after) := ReadImports(lines[1..]);
        ([what] + rest, after)
  }

  /** A comment, the package and the imports, each with an empty line after it. */
  function ReadTop(lines: seq<string>): Option<(string, seq<string>, seq<string>)> {
    if |lines| < 4 || !("//" <= lines[0]) || lines[2] != "\n" || lines[3] != "import (\n" then None
    else
      match Between("package ", lines[1], "\n")
      case None => None
      case Some(package) =>
        var (imports, after) := ReadImports(lines[4..]);
        if |after| < 2 || after[0] != ")\n" || after[1] != "\n" then None else Some((package, imports, after[2..]))
  }

  /** A variable with the file embedded in it. */
  function ReadEmbed(lines: seq<string>): Option<Embed> {
    if |lines| < 3 || lines[2] != "\n" then None
    else
      match Between("//go:embed ", lines[0], "\n")
      case None => None
      case Some(file) =>
        match Between("var ", lines[1], " []byte\n")
        case None => None
        case Some(variable) => if Ident(variable) then Some(Embed(file, variable)) else None
  }

  function ReadEmbeds(lines: seq<string>): (seq<Embed>, seq<string>) {
    match ReadEmbed(lines)
    case None => ([], lines)
    case Some(e) =>
      var (rest, after) := ReadEmbeds(lines[3..]);
      ([e] + rest, after)
  }

  // ----- the function -----------------------------------------------------------------------

  /** The two names of a list of string parameters whose last type was already cut off. */
  function ReadParameters(s: string): Option<(string, string)> {
    UntilCuts(' ', s);
    var first := Until(' ', s);
    match Take(" string, ", s[|first|..])
    case None => None
    case Some(second) => if Ident(first) && Ident(second) then Some((first, second)) else None
  }

  /** The text and the argument of an error whose format has one verb, at its end. */
  function ReadError(s: string): Option<Default> {
    UntilCuts('%', s);
    var message := Until('%', s);
    match Take("%s\", ", s[|message|..])
    case None => None
    case Some(argument) => if Plain(message) && Ident(argument) then Some(Default(message, argument)) else None
  }

  /** The default of a switch that is indented by `tabs`, and the end of the switch. */
  function ReadDefault(tabs: string, lines: seq<string>): (r: Option<(Default, seq<string>)>)
    ensures r.Some? ==> |r.value.1| < |lines|
  {
    if |lines| < 3 || lines[0] != tabs + "default:\n" || lines[2] != tabs + "}\n" then None
    else
      match Between(tabs + "\treturn nil, fmt.Errorf(\"", lines[1], ")\n")
      case None => None
      case Some(error) =>
        match ReadError(error)
        case None => None
        case Some(default) => Some((default, lines[3..]))
  }

  function ReadCase(lines: seq<string>): Option<ArchCase> {
    if |lines| < 2 then None
    else
      match Between("\t\tcase \"", lines[0], "\":\n")
      case None => None
      case Some(name) =>
        match Between("\t\t\treturn ", lines[1], ", nil\n")
        case None => None
        case Some(variable) => if Plain(name) && Ident(variable) then Some(ArchCase(name, variable)) else None
  }

  function ReadCases(lines: seq<string>): (r: (seq<ArchCase>, seq<string>))
    ensures |r.1| <= |lines|
  {
    match ReadCase(lines)
    case None => ([], lines)
    case Some(c) =>
      var (rest, after) := ReadCases(lines[2..]);
      ([c] + rest, after)
  }

  /** The head of an outer case: the value it is for, and what the switch in it is over. */
  function ReadHead(lines: seq<string>): (r: Option<(string, string)>)
    ensures r.Some? ==> |lines| >= 2
  {
    if |lines| < 2 then None
    else
      match Between("\tcase \"", lines[0], "\":\n")
      case None => None
      case Some(name) =>
        match Between("\t\tswitch ", lines[1], " {\n")
        case None => None
        case Some(subject) => if Plain(name) then Some((name, subject)) else None
  }

  function ReadOses(lines: seq<string>): (seq<OsCase>, seq<string>)
    decreases |lines|
  {
    match ReadHead(lines)
    case None => ([], lines)
    case Some((name, subject)) =>
      var (cases, after) := ReadCases(lines[2..]);
      match ReadDefault("\t\t", after)
      case None => ([], lines)
      case Some((default, more)) =>
        var (rest, last) := ReadOses(more);
        ([OsCase(name, subject, cases, default)] + rest, last)
  }

  function ReadFunc(lines: seq<string>): Option<Func> {
    if |lines| < 2 then None
    else
      match Between("func GetAgentBinary(", lines[0], " string) ([]byte, error) {\n")
      case None => None
      case Some(parameters) =>
        match ReadParameters(parameters)
        case None => None
        case Some((first, second)) =>
          match Between("\tswitch ", lines[1], " {\n")
          case None => None
          case Some(subject) =>
            var (cases, after) := ReadOses(lines[2..]);
            match ReadDefault("\t", after)
            case None => None
            case Some((default, last)) =>
              if last == ["}\n"] then Some(Func(first, second, subject, cases, default)) else None
  }

  function ReadFile(lines: seq<string>): Option<File> {
    match ReadTop(lines)
    case None => None
    case Some((package, imports, body)) =>
      var (embeds, rest) := ReadEmbeds(body);
      match ReadFunc(rest)
      case None => None
      case Some(func) => Some(File(package, imports, embeds, func))
  }

  // ----- what the file means ----------------------------------------------------------------

  /** A variable, or an error's text. */
  datatype Answer = Binary(variable: string) | Failed(error: string)

  /** The value of a name in a call of `f` with the arguments `a` and `b`. */
  function Value(f: Func, a: string, b: string, name: string): Option<string> {
    if name == f.first then Some(a) else if name == f.second then Some(b) else None
  }

  function Raise(f: Func, a: string, b: string, d: Default): Option<Answer> {
    match Value(f, a, b, d.argument)
    case None => None
    case Some(value) => Some(Failed(d.message + value))
  }

  /** The first case of that value, or the default. */
  function Inner(f: Func, a: string, b: string, cases: seq<ArchCase>, value: string, d: Default): Option<Answer> {
    if cases == [] then Raise(f, a, b, d)
    else if cases[0].name == value then Some(Binary(cases[0].variable))
    else Inner(f, a, b, cases[1..], value, d)
  }

  function Outer(f: Func, a: string, b: string, cases: seq<OsCase>, value: string): Option<Answer> {
    if cases == [] then Raise(f, a, b, f.default)
    else if cases[0].name == value then
      match Value(f, a, b, cases[0].subject)
      case None => None
      case Some(inner) => Inner(f, a, b, cases[0].cases, inner, cases[0].default)
    else Outer(f, a, b, cases[1..], value)
  }

  /** A call of the function; `None` if it uses a name that it does not have. */
  function Call(f: Func, a: string, b: string): Option<Answer> {
    match Value(f, a, b, f.subject)
    case None => None
    case Some(value) => Outer(f, a, b, f.cases, value)
  }

  /** The file embedded in the first declaration of a variable. */
  function Embedded(embeds: seq<Embed>, v: string): Option<string> {
    if embeds == [] then None
    else if embeds[0].variable == v then Some(embeds[0].file)
    else Embedded(embeds[1..], v)
  }

  datatype Fetched = Contents(file: string) | Error(error: string)

  /** A call of the file's function: the embedded file whose contents it returns, or its error. */
  function Fetch(file: File, a: string, b: string): Option<Fetched> {
    match Call(file.func, a, b)
    case None => None
    case Some(Failed(error)) => Some(Error(error))
    case Some(Binary(v)) =>
      match Embedded(file.embeds, v)
      case None => None
      case Some(name) => Some(Contents(name))
  }

  // ----- what the compiler demands ----------------------------------------------------------

  predicate Distinct(s: seq<string>) {
    s == [] || (s[0] !in s[1..] && Distinct(s[1..]))
  }

  function Declared(embeds: seq<Embed>): seq<string> {
    if embeds == [] then [] else [embeds[0].variable] + Declared(embeds[1..])
  }

  function Files(embeds: seq<Embed>): seq<string> {
    if embeds == [] then [] else [embeds[0].file] + Files(embeds[1..])
  }

  function Labels(cases: seq<OsCase>): seq<string> {
    if cases == [] then [] else [cases[0].name] + Labels(cases[1..])
  }

  function InnerLabels(cases: seq<ArchCase>): seq<string> {
    if cases == [] then [] else [cases[0].name] + InnerLabels(cases[1..])
  }

  /** Names are those of parameters. */
  predicate Scoped(f: Func) {
    && f.first != f.second
    && f.subject in [f.first, f.second] && f.default.argument in [f.first, f.second]
    && forall c :: c in f.cases ==> c.subject in [f.first, f.second] && c.default.argument in [f.first, f.second]
  }

  /** What is used is imported, embedding included, and nothing else is. */
  predicate Imported(imports: seq<string>) {
    imports == ["_ \"embed\"", "\"fmt\""] || imports == ["\"fmt\"", "_ \"embed\""]
  }

  /** No case twice in a switch, no variable declared twice, and no name used that is not declared or imported. */
  predicate Compiles(file: File) {
    && Distinct(Labels(file.func.cases))
    && (forall c :: c in file.func.cases ==> Distinct(InnerLabels(c.cases)))
    && (forall c, d :: c in file.func.cases && d in c.cases ==> d.variable in Declared(file.embeds))
    && Distinct(Declared(file.embeds))
    && Scoped(file.func) && Imported(file.imports)
  }
}
