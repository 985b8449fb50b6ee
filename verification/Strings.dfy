/** Strings as more than one part of the model needs them: ASCII case, and the text up to a character. */
module Strings {
  import opened Wrappers

  predicate IsUpper(c: char) {
    'A' <= c <= 'Z'
  }

  predicate IsLower(c: char) {
    'a' <= c <= 'z'
  }

  function Up(c: char): char {
    if IsLower(c) then c - 'a' + 'A' else c
  }

  function Down(c: char): char {
    if IsUpper(c) then c - 'A' + 'a' else c
  }

  /** What Go identifiers are made of, as far as ASCII goes. */
  predicate WordChar(c: char) {
    IsLower(c) || IsUpper(c) || '0' <= c <= '9' || c == '_'
  }

  predicate Word(s: string) {
    forall c :: c in s ==> WordChar(c)
  }

  function Lower(s: string): string {
    if s == "" then "" else [Down(s[0])] + Lower(s[1..])
  }

  /** The part of `s` before its first `c`, or all of it. */
  function Until(c: char, s: string): string {
    if s == "" || s[0] == c then "" else [s[0]] + Until(c, s[1..])
  }

  lemma {:induction false} UntilCuts(c: char, s: string)
    ensures var t := Until(c, s);
            t <= s && c !in t && (|t| < |s| ==> s[|t|] == c)
  {
    if s != "" && s[0] != c {
      UntilCuts(c, s[1..]);
    }
  }

  lemma {:induction false} UntilFinds(c: char, t: string, rest: string)
    requires c !in t && rest != "" && rest[0] == c
    ensures Until(c, t + rest) == t
  {
    if t == "" {
      assert t + rest == rest;
    } else {
      assert (t + rest)[0] == t[0] && (t + rest)[1..] == t[1..] + rest;
      UntilFinds(c, t[1..], rest);
    }
  }

  /** Takes `prefix` off the front of `s`. */
  function Take(prefix: string, s: string): (r: Option<string>)
    ensures r.Some? <==> prefix <= s
    ensures r.Some? ==> s == prefix + r.value
  {
    if prefix <= s then Some(s[|prefix|..]) else None
  }

  lemma FrontOf(a: string, rest: string)
    ensures a <= a + rest && (a + rest)[|a|..] == rest
  {
  }

  /** Splits at every `c`; `word` is what was read of the first piece so far. */
  function Split(c: char, s: string, word: string := ""): (words: seq<string>)
    ensures words != []
    decreases |s|
  {
    if s == "" then [word]
    else if s[0] == c then [word] + Split(c, s[1..])
    else Split(c, s[1..], word + [s[0]])
  }

  lemma {:induction false} SplitJoins(c: char, a: string, b: string, word: string)
    ensures Split(c, a + [c] + b, word) == Split(c, a, word) + Split(c, b)
    decreases |a|
  {
    if a == "" {
      assert a + [c] + b == [c] + b && ([c] + b)[1..] == b;
    } else {
      assert (a + [c] + b)[0] == a[0] && (a + [c] + b)[1..] == a[1..] + [c] + b;
      SplitJoins(c, a[1..], b, if a[0] == c then "" else word + [a[0]]);
    }
  }

  lemma {:induction false} SplitNone(c: char, s: string, word: string)
    requires c !in s
    ensures Split(c, s, word) == [word + s]
    decreases |s|
  {
    if s == "" {
      assert word + s == word;
    } else {
      SplitNone(c, s[1..], word + [s[0]]);
      assert word + [s[0]] + s[1..] == word + s;
    }
  }

  /** The pieces hold no `c`, and nothing that the string does not hold. */
  lemma {:induction false} SplitHolds(c: char, s: string, word: string)
    requires c !in word
    ensures forall w :: w in Split(c, s, word) ==> c !in w && forall x :: x in w ==> x in s || x in word
    decreases |s|
  {
    if s != "" {
      SplitHolds(c, s[1..], if s[0] == c then "" else word + [s[0]]);
    }
  }

  lemma Assoc<T>(a: seq<T>, b: seq<T>, c: seq<T>)
    ensures (a + b) + c == a + (b + c)
  {
  }
}
