/** The retry loops of the agent: waiting for the install lock, and re-running a remote command. */
module Retries {
  import opened Strings
  import opened Wrappers

  /** What the remote answers to one command, by attempt; `None` is an error. */
  type Answers = nat -> Option<string>

  /** What Unicode calls white space. */
  predicate IsSpace(c: char) {
    || 0x09 <= c as int <= 0x0D || 0x2000 <= c as int <= 0x200A
    || c as int in {0x20, 0x85, 0xA0, 0x1680, 0x2028, 0x2029, 0x202F, 0x205F, 0x3000}
  }

  function TrimLeft(s: string): string {
    if s != "" && IsSpace(s[0]) then TrimLeft(s[1..]) else s
  }

  function TrimRight(s: string): string {
    if s != "" && IsSpace(s[|s| - 1]) then TrimRight(s[..|s| - 1]) else s
  }

  function TrimSpace(s: string): string {
    TrimRight(TrimLeft(s))
  }

  /** All of `s` is white space. */
  ghost predicate Blank(s: string) {
    forall i :: 0 <= i < |s| ==> IsSpace(s[i])
  }

  lemma {:induction false} TrimLeftCuts(s: string)
    ensures var t := TrimLeft(s);
            && |t| <= |s| && t == s[|s| - |t|..] && Blank(s[..|s| - |t|])
            && (t != "" ==> !IsSpace(t[0]))
  {
    if s != "" && IsSpace(s[0]) {
      TrimLeftCuts(s[1..]);
      var n := |s| - |TrimLeft(s)|;
      assert s[..n] == [s[0]] + s[1..][..n - 1];
    }
  }

  lemma {:induction false} TrimRightCuts(s: string)
    ensures var t := TrimRight(s);
            && |t| <= |s| && t == s[..|t|] && Blank(s[|t|..])
            && (t != "" ==> !IsSpace(t[|t| - 1]))
  {
    if s != "" && IsSpace(s[|s| - 1]) {
      var body := s[..|s| - 1];
      TrimRightCuts(body);
      var n := |TrimRight(s)|;
      assert s[n..] == body[n..] + [s[|s| - 1]];
    }
  }

  /** Trimming takes white space off both ends and nothing else. */
  lemma TrimSpaceCuts(s: string) returns (before: string, after: string)
    ensures s == before + TrimSpace(s) + after && Blank(before) && Blank(after)
    ensures TrimSpace(s) != "" ==> !IsSpace(TrimSpace(s)[0]) && !IsSpace(TrimSpace(s)[|TrimSpace(s)| - 1])
  {
    var left := TrimLeft(s);
    TrimLeftCuts(s);
    TrimRightCuts(left);
    before, after := s[..|s| - |left|], left[|TrimSpace(s)|..];
  }

  lemma {:induction false} BlankInFront(a: string, s: string)
    requires Blank(a)
    ensures TrimLeft(a + s) == TrimLeft(s)
  {
    if a == "" {
      assert a + s == s;
    } else {
      assert (a + s)[0] == a[0] && (a + s)[1..] == a[1..] + s;
      BlankInFront(a[1..], s);
    }
  }

  lemma {:induction false} BlankBehind(s: string, b: string)
    requires Blank(b)
    ensures TrimRight(s + b) == TrimRight(s)
  {
    if b == "" {
      assert s + b == s;
    } else {
      var body := b[..|b| - 1];
      assert (s + b)[|s + b| - 1] == b[|b| - 1] && (s + b)[..|s + b| - 1] == s + body;
      BlankBehind(s, body);
    }
  }

  lemma NothingToTrim(s: string)
    requires s != "" && !IsSpace(s[0]) && !IsSpace(s[|s| - 1])
    ensures TrimLeft(s) == s && TrimRight(s) == s
  {
  }

  /** Whatever white space is put around a text that neither starts nor ends with any is trimmed again. */
  lemma TrimSpaceInverts(a: string, s: string, b: string)
    requires Blank(a) && Blank(b) && s != "" && !IsSpace(s[0]) && !IsSpace(s[|s| - 1])
    ensures TrimSpace(a + s + b) == s
  {
    assert a + s + b == a + (s + b);
    BlankInFront(a, s + b);
    assert (s + b)[0] == s[0];
    BlankBehind(s, b);
    NothingToTrim(s);
  }

  /** A word of letters, digits and underscores in a line of its own is what is left of that line. */
  lemma LineIsTrimmed(s: string, end: string)
    requires s != "" && Word(s) && end in {"", "\n", "\r\n", " \n", "\t\n"}
    ensures TrimSpace(s + end) == s
  {
    assert "" + s + end == s + end;
    assert WordChar(s[0]) && WordChar(s[|s| - 1]);
    TrimSpaceInverts("", s, end);
  }

  // ----- waiting for the install lock -------------------------------------------------------

  const CHECKS := 10

  /** The lock check came back without an error and did not say that the lock file is there. */
  predicate Free(check: Option<string>) {
    check.Some? && TrimSpace(check.value) != "0"
  }

  /**
   A check without an error says that the lock is there exactly if it prints a zero among white space;
   one with an error does not say that it is free.
   */
  lemma FreeIff(out: string)
    ensures Free(Some(out)) <==> !exists a, b :: Blank(a) && Blank(b) && out == a + "0" + b
    ensures !Free(Some("0\n")) && Free(Some("1\n")) && !Free(None)
  {
    var before, after := TrimSpaceCuts(out);
    if a, b :| Blank(a) && Blank(b) && out == a + "0" + b {
      TrimSpaceInverts(a, "0", b);
    }
    assert "0\n" == "0" + "\n" && "1\n" == "1" + "\n";
    assert Word("0") && Word("1");
    LineIsTrimmed("0", "\n");
    LineIsTrimmed("1", "\n");
  }

  /**
   Waits until a check finds no lock. `checks` is how many checks were made and `slept` how long
   was slept between them, in seconds.
   */
  method AwaitInstallLock(check: Answers) returns (ok: bool, checks: nat, slept: nat)
    ensures ok ==> 1 <= checks <= CHECKS && Free(check(checks - 1))
    ensures ok ==> forall j :: 0 <= j < checks - 1 ==> !Free(check(j))
    ensures !ok ==> checks == CHECKS && forall j :: 0 <= j < checks ==> !Free(check(j))
    ensures var failed := if ok then checks - 1 else checks; slept == 5 * failed * (failed - 1)
    ensures slept <= 450
  {
    checks := 0;
    slept := 0;
    var i := 0;
    while i <= 10
      invariant 0 <= i <= 10 && checks == i
      invariant forall j :: 0 <= j < i ==> !Free(check(j))
      invariant slept == 5 * i * (i - 1)
    {
      if i == 10 {
        return false, checks, slept;
      }
      var answer := check(i);
      checks := checks + 1;
      if answer.Some? && TrimSpace(answer.value) == "0" {
        slept := slept + i * 10;
        i := i + 1;
        continue;
      }
      if answer.None? {
        slept := slept + i * 10;
        i := i + 1;
        continue;
      }
      return true, checks, slept;
    }
    assert false;
  }

  // ----- re-running a command ---------------------------------------------------------------

  const ATTEMPTS := 9

  /** The seconds slept after `n` failed attempts, the `k`th of which sleeps `10 * k`. */
  function Slept(n: nat): nat {
    if n == 0 then 0 else Slept(n - 1) + n * 10
  }

  lemma {:induction false} SleptIs(n: nat)
    ensures Slept(n) == 5 * n * (n + 1)
  {
    if n > 0 {
      SleptIs(n - 1);
    }
  }

  lemma {:induction false} SleptGrows(m: nat, n: nat)
    requires m <= n
    ensures Slept(m) <= Slept(n)
    decreases n - m
  {
    if m < n {
      SleptGrows(m, n - 1);
    }
  }

  /** Eight failures and a success sleep at most 360 s, nine failures 450 s. */
  lemma SleptBounds(failed: nat, ok: bool)
    requires failed <= if ok then 8 else 9
    ensures Slept(failed) <= if ok then 360 else 450
  {
    SleptIs(8);
    SleptIs(9);
    SleptGrows(failed, if ok then 8 else 9);
  }

  /** The first answer without an error from attempt `a` on, if the nine attempts have one. */
  function Outcome(answer: Answers, a: nat): (r: Option<string>)
    ensures r.None? <==> forall b :: a <= b <= ATTEMPTS ==> answer(b).None?
    decreases 10 - a
  {
    if a > ATTEMPTS then None
    else if answer(a).Some? then answer(a)
    else Outcome(answer, a + 1)
  }

  /**
   Runs a command until it succeeds, at most nine times. `result` is the last attempt's answer, so
   the loop ends without an error exactly when its last attempt succeeded.
   */
  method RunWithRetries(answer: Answers) returns (result: Option<string>, attempts: nat, slept: nat)
    ensures 1 <= attempts <= ATTEMPTS && result == answer(attempts) == Outcome(answer, 1)
    ensures forall a :: 1 <= a < attempts ==> answer(a).None?
    ensures result.None? ==> attempts == ATTEMPTS
    ensures var failed := if result.Some? then attempts - 1 else attempts; slept == 5 * failed * (failed + 1)
    ensures slept <= if result.Some? then 360 else 450
  {
    result := None;
    attempts := 0;
    slept := 0;
    var attempt := 1;
    while attempt <= 10
      invariant 1 <= attempt <= 10 && attempts == attempt - 1 && result.None?
      invariant forall a :: 1 <= a < attempt ==> answer(a).None?
      invariant Outcome(answer, 1) == Outcome(answer, attempt)
      invariant attempt > 1 ==> result == answer(attempt - 1)
      invariant slept == Slept(attempt - 1)
      decreases 10 - attempt
    {
      if attempt == 10 {
        break;
      }
      result := answer(attempt);
      attempts := attempt;
      if result.Some? {
        break;
      }
      slept := slept + attempt * 10;
      attempt := attempt + 1;
    }
    SleptIs(if result.Some? then attempts - 1 else attempts);
    SleptBounds(if result.Some? then attempts - 1 else attempts, result.Some?);
  }
}
