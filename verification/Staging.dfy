/**
 Staging a file on the remote: make the directory, resolve the path, copy. The copy loop reads from
 one reader that it never rewinds, while each attempt truncates the remote file, so what an attempt
 read before failing is gone.
 */
module Staging {
  import opened Strings
  import opened Wrappers
  import opened Retries

  type Bytes = seq<bv8>

  /** The caller's reader: what it will ever give, and how far it has been read. */
  class Reader {
    const content: Bytes
    var pos: nat

    constructor (content: Bytes)
      ensures this.content == content && pos == 0
    {
      this.content := content;
      pos := 0;
    }
  }

  /** The staged file on the remote. */
  class RemoteFile {
    var present: bool
    var data: Bytes

    constructor ()
      ensures !present && data == []
    {
      present := false;
      data := [];
    }
  }

  /**
   What happens to one copy attempt: the remote file cannot be opened; or the copy fails after
   taking `taken` bytes from the reader, of which `landed` reached the file; or it succeeds.
   */
  datatype Copy = OpenFails | CopyFails(taken: nat, landed: nat) | Succeeds

  type Copies = nat -> Copy

  /** The reader's position and the remote file, as the copy loop leaves them. */
  datatype Progress = Progress(pos: nat, present: bool, data: Bytes)

  function Least(a: nat, b: nat): nat {
    if a <= b then a else b
  }

  /** One attempt. A copy cannot take more than is left, nor land more than it took. */
  function Attempted(content: Bytes, p: Progress, copy: Copy): Progress
    requires p.pos <= |content|
  {
    match copy
    case OpenFails => p
    case CopyFails(taken, landed) =>
      var after := Least(p.pos + taken, |content|);
      Progress(after, true, content[p.pos..p.pos + Least(landed, after - p.pos)])
    case Succeeds => Progress(|content|, true, content[p.pos..])
  }

  function After(content: Bytes, start: Progress, copies: Copies, n: nat): (p: Progress)
    requires start.pos <= |content|
    ensures start.pos <= p.pos <= |content|
  {
    if n == 0 then start else Attempted(content, After(content, start, copies, n - 1), copies(n))
  }

  /** The bytes attempt `n` takes from the reader. */
  function TakenBy(content: Bytes, start: Progress, copies: Copies, n: nat): Bytes
    requires start.pos <= |content| && n > 0
  {
    content[After(content, start, copies, n - 1).pos..After(content, start, copies, n).pos]
  }

  /** All the bytes the first `n` attempts take from the reader, in order. */
  function TakenIn(content: Bytes, start: Progress, copies: Copies, n: nat): Bytes
    requires start.pos <= |content|
  {
    if n == 0 then [] else TakenIn(content, start, copies, n - 1) + TakenBy(content, start, copies, n)
  }

  lemma {:induction false} TakenIsSlice(content: Bytes, start: Progress, copies: Copies, n: nat)
    requires start.pos <= |content|
    ensures TakenIn(content, start, copies, n) == content[start.pos..After(content, start, copies, n).pos]
  {
    if n > 0 {
      TakenIsSlice(content, start, copies, n - 1);
    }
  }

  /** What the attempts before `n` took, followed by `data`, is what the reader had to give. */
  predicate Conserves(content: Bytes, start: Progress, copies: Copies, n: nat, data: Bytes) {
    && start.pos <= |content| && n > 0
    && content[start.pos..] == TakenIn(content, start, copies, n - 1) + data
  }

  /**
   Conservation: when attempt `n` is the first to succeed, what the failed attempts took followed
   by what was staged is what the reader had to give. So the staged file is the whole of it if and
   only if the failed attempts took nothing.
   */
  lemma StagedIsTheRest(content: Bytes, start: Progress, copies: Copies, n: nat)
    requires start.pos <= |content| && n > 0 && copies(n) == Succeeds
    ensures var end := After(content, start, copies, n);
            && Conserves(content, start, copies, n, end.data)
            && (end.data == content[start.pos..] <==> TakenIn(content, start, copies, n - 1) == [])
            && end.pos == |content|
  {
    TakenIsSlice(content, start, copies, n - 1);
    CutAt(content, start.pos, After(content, start, copies, n - 1).pos);
  }

  lemma CutAt(content: Bytes, a: nat, b: nat)
    requires a <= b <= |content|
    ensures content[a..] == content[a..b] + content[b..]
    ensures content[a..] == content[b..] <==> content[a..b] == []
  {
    assert |content[a..]| == |content[b..]| + (b - a);
  }

  /** When a failed attempt takes bytes: it opened the file and read, and there was something left. */
  lemma {:induction false} TakenNothing(content: Bytes, start: Progress, copies: Copies, n: nat)
    requires start.pos <= |content|
    requires forall a :: 1 <= a <= n ==> copies(a) != Succeeds
    ensures TakenIn(content, start, copies, n) == [] <==>
            (start.pos == |content| || forall a :: 1 <= a <= n ==> copies(a) == OpenFails || copies(a).taken == 0)
  {
    if n > 0 {
      TakenNothing(content, start, copies, n - 1);
      TakenIsSlice(content, start, copies, n - 1);
      TakenIsSlice(content, start, copies, n);
    }
  }

  /**
   What a failed attempt leaves on the remote: if the file could not be opened, what was there; or else
   a file with the front of what the attempt took, as far as it landed, and nothing of an earlier one.
   */
  lemma LeftBehind(content: Bytes, start: Progress, copies: Copies, n: nat)
    requires start.pos <= |content| && n > 0 && copies(n) != Succeeds
    ensures var before, end := After(content, start, copies, n - 1), After(content, start, copies, n);
            && (copies(n).OpenFails? ==> end == before && TakenBy(content, start, copies, n) == [])
            && (copies(n).CopyFails? ==>
                  && end.present && end.data <= TakenBy(content, start, copies, n)
                  && |end.data| == Least(copies(n).landed, |TakenBy(content, start, copies, n)|)
                  && |TakenBy(content, start, copies, n)| == Least(copies(n).taken, |content| - before.pos))
  {
  }

  /** One attempt of the copy loop: open and truncate, then copy from wherever the reader stands. */
  method CopyOnce(reader: Reader, dest: RemoteFile, copy: Copy)
    requires reader.pos <= |reader.content|
    modifies reader`pos, dest
    ensures reader.pos <= |reader.content|
    ensures Progress(reader.pos, dest.present, dest.data) ==
            Attempted(reader.content, old(Progress(reader.pos, dest.present, dest.data)), copy)
  {
    match copy
    case OpenFails =>
    case CopyFails(taken, landed) =>
      var after := Least(reader.pos + taken, |reader.content|);
      dest.present, dest.data := true, reader.content[reader.pos..reader.pos + Least(landed, after - reader.pos)];
      reader.pos := after;
    case Succeeds =>
      dest.present, dest.data := true, reader.content[reader.pos..];
      reader.pos := |reader.content|;
  }

  /** The copy loop. */
  method CopyWithRetries(reader: Reader, dest: RemoteFile, copies: Copies)
    returns (ok: bool, attempts: nat, slept: nat)
    requires reader.pos <= |reader.content|
    modifies reader`pos, dest
    ensures reader.pos <= |reader.content|
    ensures Progress(reader.pos, dest.present, dest.data) ==
            After(reader.content, old(Progress(reader.pos, dest.present, dest.data)), copies, attempts)
    ensures 1 <= attempts <= ATTEMPTS && (ok <==> copies(attempts) == Succeeds)
    ensures forall a :: 1 <= a < attempts ==> copies(a) != Succeeds
    ensures ok ==> Conserves(reader.content, old(Progress(reader.pos, dest.present, dest.data)), copies, attempts, dest.data)
    ensures !ok ==> attempts == ATTEMPTS
    ensures var failed := if ok then attempts - 1 else attempts; slept == 5 * failed * (failed + 1)
    ensures slept <= if ok then 360 else 450
  {
    ghost var start := Progress(reader.pos, dest.present, dest.data);
    ok := false;
    attempts := 0;
    slept := 0;
    var attempt := 1;
    while attempt <= 10
      invariant 1 <= attempt <= 10 && attempts == attempt - 1 && !ok
      invariant start.pos <= reader.pos <= |reader.content|
      invariant Progress(reader.pos, dest.present, dest.data) == After(reader.content, start, copies, attempt - 1)
      invariant forall a :: 1 <= a < attempt ==> copies(a) != Succeeds
      invariant slept == Slept(attempt - 1)
      decreases 10 - attempt
    {
      if attempt == 10 {
        break;
      }
      attempts := attempt;
      CopyOnce(reader, dest, copies(attempt));
      if copies(attempt) == Succeeds {
        ok := true;
        break;
      }
      slept := slept + attempt * 10;
      attempt := attempt + 1;
    }
    SleptIs(if ok then attempts - 1 else attempts);
    SleptBounds(if ok then attempts - 1 else attempts, ok);
    if ok {
      StagedIsTheRest(reader.content, start, copies, attempts);
    }
  }

  /** What the remote and the libraries answer during one staging. */
  datatype Remote = Remote(mkdir: Answers, sftp: bool, uuid: Option<string>, realpath: Answers, copies: Copies)

  function StagingPath(uuid: string): string {
    ".mid/staging/" + Lower(uuid)
  }

  lemma {:induction false} LowerHasNoCapitals(s: string)
    ensures |Lower(s)| == |s| && forall c :: c in Lower(s) ==> !IsUpper(c)
  {
    if s != "" {
      LowerHasNoCapitals(s[1..]);
      assert Lower(s) == [Down(s[0])] + Lower(s[1..]);
    }
  }

  /** The path is in the staging directory, and in small letters; equal ones come of equal UUIDs, case apart. */
  lemma StagingPaths(u: string, v: string)
    ensures ".mid/staging/" <= StagingPath(u) && |StagingPath(u)| == 13 + |u|
    ensures forall c :: c in StagingPath(u)[13..] ==> !IsUpper(c)
    ensures StagingPath(u) == StagingPath(v) <==> Lower(u) == Lower(v)
  {
    LowerHasNoCapitals(u);
    FrontOf(".mid/staging/", Lower(u));
    FrontOf(".mid/staging/", Lower(v));
  }

  /** The copy loop is reached: everything before it succeeded. */
  predicate Resolves(remote: Remote) {
    Outcome(remote.mkdir, 1).Some? && remote.sftp && remote.uuid.Some? && Outcome(remote.realpath, 1).Some?
  }

  predicate Lands(copies: Copies) {
    exists a :: 1 <= a <= ATTEMPTS && copies(a) == Succeeds
  }

  /**
   Stages a file. With no error the staged file is the reader's content less what failed copies
   took, under the path the remote resolved; with an error, one of the three loops failed nine
   times, or the SFTP client or the UUID could not be had.
   */
  method StageFile(reader: Reader, dest: RemoteFile, remote: Remote)
    returns (path: string, err: bool, slept: nat, attempts: nat)
    requires reader.pos <= |reader.content|
    modifies reader`pos, dest
    ensures reader.pos <= |reader.content| && attempts <= ATTEMPTS
    ensures Progress(reader.pos, dest.present, dest.data) ==
            After(reader.content, old(Progress(reader.pos, dest.present, dest.data)), remote.copies, attempts)
    ensures err <==> !Resolves(remote) || !Lands(remote.copies)
    ensures !err ==> attempts > 0 && remote.copies(attempts) == Succeeds && dest.present
    ensures !err ==>
              Conserves(reader.content, old(Progress(reader.pos, dest.present, dest.data)), remote.copies, attempts, dest.data)
    ensures forall a :: 1 <= a < attempts ==> remote.copies(a) != Succeeds
    ensures attempts == 0 <==> !Resolves(remote)
    ensures Resolves(remote) ==> path == TrimSpace(Outcome(remote.realpath, 1).value)
    ensures Outcome(remote.mkdir, 1).Some? && remote.sftp && remote.uuid.Some? && !Resolves(remote) ==>
              path == StagingPath(remote.uuid.value)
    ensures Outcome(remote.mkdir, 1).None? || !remote.sftp || remote.uuid.None? ==> path == ""
    ensures slept <= 1170
  {
    path, err, slept, attempts := "", true, 0, 0;
    var mkdir, tries, waited := RunWithRetries(remote.mkdir);
    slept := slept + waited;
    if mkdir.None? {
      return;
    }
    if !remote.sftp || remote.uuid.None? {
      return;
    }
    path := StagingPath(remote.uuid.value);
    var resolved;
    resolved, tries, waited := RunWithRetries(remote.realpath);
    slept := slept + waited;
    if resolved.None? {
      return;
    }
    path := TrimSpace(resolved.value);
    var ok;
    ok, attempts, waited := CopyWithRetries(reader, dest, remote.copies);
    slept := slept + waited;
    err := !ok;
  }
}
