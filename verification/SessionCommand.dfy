/**
 The command line that starts the remote agent, and how a POSIX shell splits it into words
 (POSIX.1-2017, XCU, sections 2.2 and 2.3).
 */
module SessionCommand {
  import opened Wrappers
  import Strings

  const PASSED := "PULUMI_MID_"
  const INSTANCE := "PULUMI_MID_AGENT_INSTANCE_UUID="
  const PRESERVE := "--preserve-env="
  const AGENT := ".mid/mid-agent"

  // ----- building the command ---------------------------------------------------------------

  predicate Contains(s: string, part: string) {
    part <= s || (s != "" && Contains(s[1..], part))
  }

  /** The part of an environment entry before its first `=`, or all of it. */
  function KeyOf(entry: string): string {
    Strings.Until('=', entry)
  }

  function Passed(environ: seq<string>): seq<string> {
    if environ == [] then []
    else (if PASSED <= environ[0] then [environ[0]] else []) + Passed(environ[1..])
  }

  function Entries(environ: seq<string>, uuid: string): seq<string> {
    Passed(environ) + [INSTANCE + uuid]
  }

  function Keys(entries: seq<string>): seq<string> {
    seq(|entries|, i requires 0 <= i < |entries| => KeyOf(entries[i]))
  }

  /** Each entry in single quotes, followed by a blank. */
  function Quoted(entries: seq<string>): string {
    if entries == [] then "" else "'" + entries[0] + "' " + Quoted(entries[1..])
  }

  /** Each key followed by a comma. */
  function Listed(keys: seq<string>): string {
    if keys == [] then "" else keys[0] + "," + Listed(keys[1..])
  }

  function Command(entries: seq<string>, sudo: bool): string {
    "env " + Quoted(entries) + (if sudo then "sudo " + PRESERVE + Listed(Keys(entries)) + " " else "") + AGENT
  }

  lemma {:induction false} QuotedAppend(a: seq<string>, e: string)
    ensures Quoted(a + [e]) == Quoted(a) + "'" + e + "' "
  {
    if a == [] {
      assert a + [e] == [e] && [e][1..] == [];
    } else {
      QuotedAppend(a[1..], e);
      assert (a + [e])[1..] == a[1..] + [e];
    }
  }

  lemma {:induction false} ListedAppend(a: seq<string>, k: string)
    ensures Listed(a + [k]) == Listed(a) + k + ","
  {
    if a == [] {
      assert a + [k] == [k] && [k][1..] == [];
    } else {
      ListedAppend(a[1..], k);
      assert (a + [k])[1..] == a[1..] + [k];
    }
  }

  lemma {:induction false} PassedAppend(a: seq<string>, e: string)
    ensures Passed(a + [e]) == Passed(a) + if PASSED <= e then [e] else []
  {
    if a == [] {
      assert a + [e] == [e] && [e][1..] == [];
    } else {
      PassedAppend(a[1..], e);
      assert (a + [e])[1..] == a[1..] + [e];
    }
  }

  /** Builds the command, entry by entry, out of what `os.Environ` and the remote's `id` report. */
  method BuildSessionCommand(environ: seq<string>, uuid: string, idOutput: string) returns (cmd: string)
    ensures cmd == Command(Entries(environ, uuid), !Contains(idOutput, "uid=0("))
  {
    var useSudo := !Contains(idOutput, "uid=0(");
    var envvars := [];
    for i := 0 to |environ|
      invariant envvars == Passed(environ[..i])
    {
      assert environ[..i + 1] == environ[..i] + [environ[i]];
      PassedAppend(environ[..i], environ[i]);
      if PASSED <= environ[i] {
        envvars := envvars + [environ[i]];
      }
    }
    assert environ[..|environ|] == environ;
    envvars := envvars + [INSTANCE + uuid];

    cmd := "";
    if |envvars| > 0 {
      cmd := cmd + "env ";
      for i := 0 to |envvars|
        invariant cmd == "env " + Quoted(envvars[..i])
      {
        assert envvars[..i + 1] == envvars[..i] + [envvars[i]];
        QuotedAppend(envvars[..i], envvars[i]);
        cmd := cmd + "'";
        cmd := cmd + envvars[i];
        cmd := cmd + "' ";
      }
      assert envvars[..|envvars|] == envvars;
    }
    if useSudo {
      cmd := cmd + "sudo ";
      if |envvars| > 0 {
        cmd := cmd + PRESERVE;
        cmd := AppendKeys(cmd, envvars);
        cmd := cmd + " ";
      }
    }
    cmd := cmd + AGENT;
  }

  method AppendKeys(start: string, envvars: seq<string>) returns (cmd: string)
    ensures cmd == start + Listed(Keys(envvars))
  {
    cmd := start;
    var keys := Keys(envvars);
    for i := 0 to |envvars|
      invariant cmd == start + Listed(keys[..i])
    {
      assert keys[..i + 1] == keys[..i] + [KeyOf(envvars[i])];
      ListedAppend(keys[..i], KeyOf(envvars[i]));
      cmd := cmd + KeyOf(envvars[i]);
      cmd := cmd + ",";
    }
    assert keys[..|envvars|] == keys;
  }

  // ----- what the command is made of --------------------------------------------------------

  /** A text contains another exactly if that stands somewhere in it. */
  lemma {:induction false} ContainsIff(s: string, part: string)
    ensures Contains(s, part) <==> exists i :: 0 <= i <= |s| && part <= s[i..]
  {
    if s == "" {
      assert s[0..] == s;
    } else {
      ContainsIff(s[1..], part);
      if part <= s {
        assert s[0..] == s;
      } else {
        if i :| 0 <= i <= |s[1..]| && part <= s[1..][i..] {
          assert s[1..][i..] == s[i + 1..];
        }
        if i :| 0 <= i <= |s| && part <= s[i..] {
          assert s[0..] == s && i > 0;
          assert s[1..][i - 1..] == s[i..];
        }
      }
    }
  }

  /** What the last entry for a variable gives it, as `env` takes them one after the other. */
  function Assigned(entries: seq<string>, key: string): Option<string> {
    if entries == [] then None
    else if Assigned(entries[1..], key).Some? then Assigned(entries[1..], key)
    else if key + "=" <= entries[0] then Some(entries[0][|key| + 1..])
    else None
  }

  lemma {:induction false} AssignedAppend(a: seq<string>, e: string, key: string)
    ensures Assigned(a + [e], key) == if key + "=" <= e then Some(e[|key| + 1..]) else Assigned(a, key)
  {
    if a == [] {
      assert a + [e] == [e] && [e][1..] == [];
    } else {
      assert (a + [e])[0] == a[0] && (a + [e])[1..] == a[1..] + [e];
      AssignedAppend(a[1..], e, key);
    }
  }

  /** A part of an entry's front without `=` is part of its key. */
  lemma FrontOfKey(e: string, key: string, p: string)
    requires key + "=" <= e && '=' !in p
    ensures p <= e <==> p <= key
  {
    assert e[|key|] == (key + "=")[|key|] && key == e[..|key|];
    if p <= e {
      assert forall k {:trigger e[k]} :: 0 <= k < |p| ==> e[k] == p[k] && p[k] in p;
      assert |p| <= |key|;
    }
  }

  lemma {:induction false} PassedAssigns(environ: seq<string>, key: string)
    requires '=' !in key
    ensures Assigned(Passed(environ), key) == if PASSED <= key then Assigned(environ, key) else None
  {
    if environ != [] {
      var e := environ[0];
      PassedAssigns(environ[1..], key);
      if key + "=" <= e {
        assert '=' !in PASSED;
        FrontOfKey(e, key, PASSED);
      }
      if PASSED <= e {
        assert Passed(environ)[1..] == Passed(environ[1..]);
      } else {
        assert Passed(environ) == Passed(environ[1..]);
      }
    }
  }

  lemma InstanceIsNamed(uuid: string, key: string)
    requires '=' !in key
    ensures key + "=" <= INSTANCE + uuid <==> key == "PULUMI_MID_AGENT_INSTANCE_UUID"
    ensures (INSTANCE + uuid)[|INSTANCE|..] == uuid
  {
    var name := "PULUMI_MID_AGENT_INSTANCE_UUID";
    var e := INSTANCE + uuid;
    assert INSTANCE == name + "=";
    assert '=' !in name && e[|name|] == '=' && e[..|name|] == name;
    if key + "=" <= e {
      FrontOfKey(e, key, name);
      FrontOfKey(e, name, key);
    }
  }

  /**
   The environment the remote agent gets: its instance is the one named here, whatever the local
   environment says; of all other variables those whose names start so, with their local values.
   */
  lemma RemoteEnvironment(environ: seq<string>, uuid: string, key: string)
    requires '=' !in key
    ensures Assigned(Entries(environ, uuid), key) ==
            if key == "PULUMI_MID_AGENT_INSTANCE_UUID" then Some(uuid)
            else if "PULUMI_MID_" <= key then Assigned(environ, key)
            else None
  {
    AssignedAppend(Passed(environ), INSTANCE + uuid, key);
    InstanceIsNamed(uuid, key);
    PassedAssigns(environ, key);
  }

  // ----- how a shell reads it ---------------------------------------------------------------

  predicate Blank(c: char) {
    c == ' ' || c == '\t'
  }

  /** Unquoted, these are operators, expansions, patterns or quotes of some kind. */
  predicate Special(c: char) {
    c in "|&;<>()$`\\\"'*?[\n"
  }

  predicate Ordinary(s: string) {
    forall i :: 0 <= i < |s| ==> !Blank(s[i]) && !Special(s[i])
  }

  function Then(word: Option<string>, rest: Option<seq<string>>): Option<seq<string>> {
    if rest.None? then None
    else if word.None? then rest
    else Some([word.value] + rest.value)
  }

  /**
   Reads on from inside `word` (or between words), inside single quotes or not. `None` stands for
   text the shell would not take literally, or an unfinished quote.
   */
  function Scan(s: string, word: Option<string>, quoted: bool): Option<seq<string>>
    decreases |s|
  {
    var soFar := if word.Some? then word.value else "";
    if s == "" then
      if quoted then None else Then(word, Some([]))
    else if s[0] == '\'' then Scan(s[1..], Some(soFar), !quoted)
    else if quoted then Scan(s[1..], Some(soFar + [s[0]]), true)
    else if Blank(s[0]) then Then(word, Scan(s[1..], None, false))
    else if Special(s[0]) || (word.None? && s[0] in "#~") then None
    else Scan(s[1..], Some(soFar + [s[0]]), false)
  }

  function Words(s: string): Option<seq<string>> {
    Scan(s, None, false)
  }

  /** The words the command is meant to be read as. */
  function Intended(entries: seq<string>, sudo: bool): seq<string> {
    ["env"] + entries + (if sudo then ["sudo", "--preserve-env=" + Listed(Keys(entries))] else []) + [".mid/mid-agent"]
  }

  lemma {:induction false} ScanQuote(e: string, rest: string, pre: string)
    requires '\'' !in e
    ensures Scan(e + "'" + rest, Some(pre), true) == Scan(rest, Some(pre + e), false)
    decreases |e|
  {
    if e == "" {
      assert e + "'" + rest == "'" + rest && pre + e == pre;
      assert ("'" + rest)[1..] == rest;
    } else {
      assert (e + "'" + rest)[1..] == e[1..] + "'" + rest;
      ScanQuote(e[1..], rest, pre + [e[0]]);
      assert pre + [e[0]] + e[1..] == pre + e;
    }
  }

  lemma ScanEntry(e: string, rest: string)
    requires '\'' !in e
    ensures Scan("'" + e + "' " + rest, None, false) == Then(Some(e), Scan(rest, None, false))
  {
    var after := " " + rest;
    assert "'" + e + "' " + rest == "'" + (e + "'" + after);
    assert ("'" + (e + "'" + after))[1..] == e + "'" + after;
    ScanQuote(e, after, "");
    assert after[1..] == rest;
    assert "" + e == e;
  }

  lemma {:induction false} ScanEntries(entries: seq<string>, rest: string)
    requires forall e :: e in entries ==> '\'' !in e
    ensures Scan(Quoted(entries) + rest, None, false) ==
            match Scan(rest, None, false) case None => None case Some(ws) => Some(entries + ws)
  {
    if entries == [] {
      assert Quoted(entries) + rest == rest;
      assert forall ws: seq<string> :: entries + ws == ws;
    } else {
      assert Quoted(entries) + rest == "'" + entries[0] + "' " + (Quoted(entries[1..]) + rest);
      ScanEntry(entries[0], Quoted(entries[1..]) + rest);
      ScanEntries(entries[1..], rest);
      assert forall ws: seq<string> :: [entries[0]] + (entries[1..] + ws) == entries + ws;
    }
  }

  lemma {:induction false} ScanOn(w: string, rest: string, pre: string)
    requires Ordinary(w)
    ensures Scan(w + rest, Some(pre), false) == Scan(rest, Some(pre + w), false)
    decreases |w|
  {
    if w == "" {
      assert w + rest == rest && pre + w == pre;
    } else {
      assert (w + rest)[1..] == w[1..] + rest;
      ScanOn(w[1..], rest, pre + [w[0]]);
      assert pre + [w[0]] + w[1..] == pre + w;
    }
  }

  lemma ScanStart(w: string, rest: string)
    requires w != "" && Ordinary(w) && w[0] !in "#~"
    ensures Scan(w + rest, None, false) == Scan(rest, Some(w), false)
  {
    assert (w + rest)[0] == w[0] && (w + rest)[1..] == w[1..] + rest;
    assert "" + [w[0]] == [w[0]];
    ScanOn(w[1..], rest, [w[0]]);
    assert [w[0]] + w[1..] == w;
  }

  /** A word of ordinary characters and a blank are read as that word. */
  lemma ScanWord(w: string, rest: string)
    requires w != "" && Ordinary(w) && w[0] !in "#~"
    ensures Scan(w + " " + rest, None, false) == Then(Some(w), Scan(rest, None, false))
    ensures Scan(w, None, false) == Some([w])
  {
    ScanStart(w, " " + rest);
    assert w + " " + rest == w + (" " + rest) && (" " + rest)[1..] == rest;
    ScanStart(w, "");
    assert w + "" == w;
    assert [w] + [] == [w];
  }

  /** Everything a shell reads before the preserve list. */
  lemma ScanHead(entries: seq<string>, tail: string)
    requires forall e :: e in entries ==> '\'' !in e
    ensures Scan("env " + Quoted(entries) + tail, None, false) ==
            match Scan(tail, None, false) case None => None case Some(ws) => Some(["env"] + entries + ws)
  {
    assert Ordinary("env");
    assert "env " + Quoted(entries) + tail == "env" + " " + (Quoted(entries) + tail);
    ScanWord("env", Quoted(entries) + tail);
    ScanEntries(entries, tail);
    assert forall ws: seq<string> :: ["env"] + (entries + ws) == ["env"] + entries + ws;
  }

  lemma AgentIsOrdinary()
    ensures Ordinary(AGENT) && AGENT[0] !in "#~"
  {
  }

  lemma AgentIsAWord()
    ensures Ordinary(AGENT) && Scan(AGENT, None, false) == Some([AGENT])
  {
    AgentIsOrdinary();
    ScanWord(AGENT, "");
  }

  function Tail(list: string): string {
    "sudo " + PRESERVE + list + " " + AGENT
  }

  lemma ScanSudo(list: string)
    ensures Scan(Tail(list), None, false) == Then(Some("sudo"), Scan(PRESERVE + list + " " + AGENT, None, false))
  {
    assert Ordinary("sudo");
    assert Tail(list) == "sudo" + " " + (PRESERVE + list + " " + AGENT);
    ScanWord("sudo", PRESERVE + list + " " + AGENT);
  }

  lemma PreserveIsOrdinary()
    ensures Ordinary(PRESERVE) && PRESERVE[0] !in "#~"
  {
  }

  lemma TwoWords(prefix: string, list: string, last: string)
    requires prefix != "" && Ordinary(prefix) && prefix[0] !in "#~" && Ordinary(list)
    requires Scan(last, None, false) == Some([last])
    ensures Scan(prefix + list + " " + last, None, false) == Some([prefix + list, last])
  {
    var w := prefix + list;
    OrdinaryAppend(prefix, list);
    assert w[0] == prefix[0];
    ScanWord(w, last);
    assert [w] + [last] == [w, last];
  }

  lemma ListIsAWord(list: string)
    requires Ordinary(list)
    ensures Scan(PRESERVE + list + " " + AGENT, None, false) == Some([PRESERVE + list, AGENT])
  {
    PreserveIsOrdinary();
    AgentIsAWord();
    TwoWords(PRESERVE, list, AGENT);
  }

  lemma {:induction false} ListedOrdinary(keys: seq<string>)
    ensures Ordinary(Listed(keys)) <==> forall k :: k in keys ==> Ordinary(k)
  {
    if keys != [] {
      ListedOrdinary(keys[1..]);
      var rest := Listed(keys[1..]);
      OrdinaryAppend(keys[0], "," + rest);
      OrdinaryAppend(",", rest);
      assert Listed(keys) == keys[0] + ("," + rest);
      assert forall k :: k in keys <==> k == keys[0] || k in keys[1..];
    }
  }

  lemma OrdinaryAppend(a: string, b: string)
    ensures Ordinary(a + b) <==> Ordinary(a) && Ordinary(b)
  {
    assert forall i :: 0 <= i < |a| ==> (a + b)[i] == a[i];
    assert forall i :: 0 <= i < |b| ==> (a + b)[|a| + i] == b[i];
  }

  /** What the environment must be like for the command to be read as intended. */
  ghost predicate Safe(entries: seq<string>, sudo: bool) {
    && (forall e :: e in entries ==> '\'' !in e)
    && (sudo ==> forall e :: e in entries ==> Ordinary(KeyOf(e)))
  }

  lemma KeysOrdinary(entries: seq<string>)
    ensures (forall k :: k in Keys(entries) ==> Ordinary(k)) <==> (forall e :: e in entries ==> Ordinary(KeyOf(e)))
  {
    var keys := Keys(entries);
    if forall k :: k in keys ==> Ordinary(k) {
      forall e | e in entries
        ensures Ordinary(KeyOf(e))
      {
        var i :| 0 <= i < |entries| && entries[i] == e;
        assert keys[i] in keys;
      }
    }
    if forall e :: e in entries ==> Ordinary(KeyOf(e)) {
      forall k | k in keys
        ensures Ordinary(k)
      {
        var i :| 0 <= i < |keys| && keys[i] == k;
        assert entries[i] in entries;
      }
    }
  }

  lemma SafeIsRead(entries: seq<string>, sudo: bool)
    requires Safe(entries, sudo)
    ensures Words(Command(entries, sudo)) == Some(Intended(entries, sudo))
  {
    var list := Listed(Keys(entries));
    var tail := if sudo then Tail(list) else AGENT;
    assert Command(entries, sudo) == "env " + Quoted(entries) + tail;
    ScanHead(entries, tail);
    AgentIsAWord();
    if sudo {
      KeysOrdinary(entries);
      ListedOrdinary(Keys(entries));
      ScanSudo(list);
      ListIsAWord(list);
      assert ["env"] + entries + (["sudo"] + [PRESERVE + list, AGENT]) == Intended(entries, sudo);
    } else {
      assert ["env"] + entries + [] + [AGENT] == ["env"] + entries + [AGENT];
    }
  }

  // ----- and when not -----------------------------------------------------------------------

  /** Quotes are never part of a word. */
  lemma {:induction false} WordsHaveNoQuotes(s: string, word: Option<string>, quoted: bool)
    requires word.Some? ==> '\'' !in word.value
    ensures var ws := Scan(s, word, quoted); ws.Some? ==> forall w :: w in ws.value ==> '\'' !in w
    decreases |s|
  {
    if s != "" {
      var soFar := if word.Some? then word.value else "";
      if s[0] == '\'' {
        WordsHaveNoQuotes(s[1..], Some(soFar), !quoted);
      } else if quoted {
        WordsHaveNoQuotes(s[1..], Some(soFar + [s[0]]), true);
      } else if Blank(s[0]) {
        WordsHaveNoQuotes(s[1..], None, false);
      } else {
        WordsHaveNoQuotes(s[1..], Some(soFar + [s[0]]), false);
      }
    }
  }

  /** A blank or special character cuts the word short, or spoils the text. */
  lemma {:induction false} UnsafeCuts(w: string, rest: string, pre: string)
    requires '\'' !in w && !Ordinary(w)
    ensures var ws := Scan(w + rest, Some(pre), false);
            ws.Some? ==> ws.value != [] && |ws.value[0]| < |pre| + |w|
    decreases |w|
  {
    assert (w + rest)[0] == w[0] && (w + rest)[1..] == w[1..] + rest;
    if !Blank(w[0]) && !Special(w[0]) {
      OrdinaryAppend([w[0]], w[1..]);
      assert w == [w[0]] + w[1..];
      assert '\'' !in w[1..];
      UnsafeCuts(w[1..], rest, pre + [w[0]]);
    }
  }

  lemma UnsafeListIsMisread(list: string)
    requires '\'' !in list && !Ordinary(list)
    ensures Scan(PRESERVE + list + " " + AGENT, None, false) != Some([PRESERVE + list, AGENT])
  {
    PreserveIsOrdinary();
    assert PRESERVE + list + " " + AGENT == PRESERVE + (list + (" " + AGENT));
    ScanStart(PRESERVE, list + (" " + AGENT));
    UnsafeCuts(list, " " + AGENT, PRESERVE);
  }

  lemma KeyOfIsPrefix(e: string)
    ensures KeyOf(e) <= e && '=' !in KeyOf(e) && (KeyOf(e) == e || e[|KeyOf(e)|] == '=')
  {
    Strings.UntilCuts('=', e);
  }

  lemma {:induction false} ListedHasNoQuotes(keys: seq<string>)
    requires forall k :: k in keys ==> '\'' !in k
    ensures '\'' !in Listed(keys)
  {
    if keys != [] {
      ListedHasNoQuotes(keys[1..]);
    }
  }

  lemma KeysHaveNoQuotes(entries: seq<string>)
    requires forall e :: e in entries ==> '\'' !in e
    ensures forall k :: k in Keys(entries) ==> '\'' !in k
  {
    forall k | k in Keys(entries)
      ensures '\'' !in k
    {
      var i :| 0 <= i < |entries| && k == KeyOf(entries[i]);
      KeyOfIsPrefix(entries[i]);
      assert entries[i] in entries;
    }
  }

  lemma ReadIsSafe(entries: seq<string>, sudo: bool)
    requires Words(Command(entries, sudo)) == Some(Intended(entries, sudo))
    ensures Safe(entries, sudo)
  {
    WordsHaveNoQuotes(Command(entries, sudo), None, false);
    forall e | e in entries
      ensures '\'' !in e
    {
      assert e in Intended(entries, sudo);
    }
    if sudo {
      var list := Listed(Keys(entries));
      assert Command(entries, sudo) == "env " + Quoted(entries) + Tail(list);
      ScanHead(entries, Tail(list));
      ScanSudo(list);
      KeysHaveNoQuotes(entries);
      ListedHasNoQuotes(Keys(entries));
      KeysOrdinary(entries);
      ListedOrdinary(Keys(entries));
      var got := Scan(PRESERVE + list + " " + AGENT, None, false);
      assert got.Some?;
      assert ["env"] + entries + (["sudo"] + got.value) == Intended(entries, sudo);
      assert got.value == Intended(entries, sudo)[|entries| + 2..];
      assert got.value == [PRESERVE + list, AGENT];
      if !Ordinary(list) {
        UnsafeListIsMisread(list);
      }
    }
  }

  /**
   The shell reads the command as intended, whatever the environment, exactly when no passed entry
   holds a single quote and, under sudo, no key holds a blank or a character special to the shell.
   */
  lemma CommandIsReadAsIntended(environ: seq<string>, uuid: string, sudo: bool)
    ensures var entries := Entries(environ, uuid);
            Words(Command(entries, sudo)) == Some(Intended(entries, sudo)) <==> Safe(entries, sudo)
  {
    var entries := Entries(environ, uuid);
    if Safe(entries, sudo) {
      SafeIsRead(entries, sudo);
    }
    if Words(Command(entries, sudo)) == Some(Intended(entries, sudo)) {
      ReadIsSafe(entries, sudo);
    }
  }

  // ----- how sudo reads the preserve list ---------------------------------------------------

  /** Splits at commas; a trailing comma leaves an empty last piece. */
  function Pieces(s: string): seq<string> {
    Strings.Split(',', s)
  }

  /** The preserve list names exactly the keys, in order, exactly when no key holds a comma. */
  lemma {:induction false} ListNamesTheKeys(keys: seq<string>)
    ensures Pieces(Listed(keys)) == keys + [""] <==> forall k :: k in keys ==> ',' !in k
  {
    if forall k :: k in keys ==> ',' !in k {
      ListNamesCleanKeys(keys);
    } else {
      Strings.SplitHolds(',', Listed(keys), "");
      var k :| k in keys && ',' in k;
      assert k in keys + [""];
    }
  }

  lemma {:induction false} ListNamesCleanKeys(keys: seq<string>)
    requires forall k :: k in keys ==> ',' !in k
    ensures Pieces(Listed(keys)) == keys + [""]
  {
    if keys != [] {
      Strings.SplitJoins(',', keys[0], Listed(keys[1..]), "");
      Strings.SplitNone(',', keys[0], "");
      ListNamesCleanKeys(keys[1..]);
      assert "" + keys[0] == keys[0];
      assert [keys[0]] + (keys[1..] + [""]) == keys + [""];
    }
  }
}
