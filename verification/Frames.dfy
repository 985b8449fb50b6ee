/**
 The bytes one call puts on the wire, and how a reader cuts a byte stream back into frames.
 The encoder writes one JSON object and a newline for each call; JSON text holds no raw
 newline, so a frame is exactly one line.
 */
module Frames {
  import opened Strings
  import opened Wrappers

  datatype Request = Request(uuid: string, fn: string, args: string)

  /** What JSON encoding guarantees of the pieces: no raw newline, and a UUID without quotes. */
  predicate WellFormed(r: Request) {
    && r.uuid != ""
    && '"' !in r.uuid
    && '\n' !in r.uuid + r.fn + r.args
  }

  const PREFIX := "{\"UUID\":\""

  const FN := "\",\"RPCFunction\":\""
  const ARGS := "\",\"Args\":"

  function Encode(r: Request): string {
    PREFIX + r.uuid + FN + r.fn + ARGS + r.args + "}" + "\n"
  }

  /** The UUID a reader finds in a frame: the text between the quotes of the first value. */
  function UuidIn(line: string): string {
    if |line| < |PREFIX| then "" else Until('"', line[|PREFIX|..])
  }

  predicate IsLine(s: string) {
    && s != ""
    && s[|s| - 1] == '\n'
    && '\n' !in s[..|s| - 1]
  }

  function Flatten(lines: seq<string>): string {
    if lines == [] then "" else lines[0] + Flatten(lines[1..])
  }

  /** Cuts a stream at its newlines: the whole lines, and what follows the last newline. */
  function CutLines(s: string, start: string := ""): (seq<string>, string)
    decreases |s|
  {
    if s == "" then ([], start)
    else if s[0] == '\n' then
      var (lines, rest) := CutLines(s[1..]);
      ([start + "\n"] + lines, rest)
    else CutLines(s[1..], start + [s[0]])
  }

  lemma TakeMore(s: string, w: nat, n: nat)
    requires w + n <= |s|
    ensures s[..w] + s[w..w + n] == s[..w + n]
  {
  }

  lemma Absent(c: char, a: string, b: string)
    ensures c !in a + b <==> c !in a && c !in b
  {
    assert forall i :: 0 <= i < |a| ==> (a + b)[i] == a[i];
    assert forall i :: 0 <= i < |b| ==> (a + b)[|a| + i] == b[i];
  }

  /** The frame without its newline. */
  function Body(r: Request): string {
    PREFIX + r.uuid + FN + r.fn + ARGS + r.args + "}"
  }

  lemma BodyHasNoNewline(r: Request)
    requires WellFormed(r)
    ensures '\n' !in Body(r)
  {
    Absent('\n', r.uuid + r.fn, r.args);
    Absent('\n', r.uuid, r.fn);
    Absent('\n', PREFIX, r.uuid);
    Absent('\n', PREFIX + r.uuid, FN);
    Absent('\n', PREFIX + r.uuid + FN, r.fn);
    Absent('\n', PREFIX + r.uuid + FN + r.fn, ARGS);
    Absent('\n', PREFIX + r.uuid + FN + r.fn + ARGS, r.args);
    Absent('\n', PREFIX + r.uuid + FN + r.fn + ARGS + r.args, "}");
  }

  lemma UuidIsFound(uuid: string, tail: string)
    requires '"' !in uuid
    ensures UuidIn(PREFIX + uuid + ['"'] + tail) == uuid
  {
    var line := PREFIX + uuid + ['"'] + tail;
    assert line[|PREFIX|..] == uuid + (['"'] + tail);
    UntilFinds('"', uuid, ['"'] + tail);
  }

  /** A frame is one line, and a reader finds in it the UUID that was put there. */
  lemma EncodeIsLine(r: Request)
    requires WellFormed(r)
    ensures IsLine(Encode(r))
    ensures UuidIn(Encode(r)) == r.uuid
  {
    BodyHasNoNewline(r);
    assert Encode(r)[..|Encode(r)| - 1] == Body(r);
    var tail := FN[1..] + r.fn + ARGS + r.args + "}" + "\n";
    assert FN == ['"'] + FN[1..];
    assert Encode(r) == PREFIX + r.uuid + ['"'] + tail;
    UuidIsFound(r.uuid, tail);
  }

  lemma {:induction false} FlattenAppend(a: seq<string>, b: seq<string>)
    ensures Flatten(a + b) == Flatten(a) + Flatten(b)
  {
    if a == [] {
      assert a + b == b;
    } else {
      FlattenAppend(a[1..], b);
      assert (a + b)[1..] == a[1..] + b;
      assert Flatten(a + b) == a[0] + (Flatten(a[1..]) + Flatten(b));
    }
  }

  lemma FlattenOne(line: string)
    ensures Flatten([line]) == line
  {
    assert [line][1..] == [];
  }

  /** A line at the front of a stream of whole frames and an unfinished one is the first frame. */
  lemma FirstLine(lines: seq<string>, part: string, n: nat)
    requires forall l :: l in lines ==> IsLine(l)
    requires '\n' !in part
    requires n <= |Flatten(lines) + part| && IsLine((Flatten(lines) + part)[..n])
    ensures lines != [] && (Flatten(lines) + part)[..n] == lines[0]
  {
    var s := Flatten(lines) + part;
    var line := s[..n];
    assert s[n - 1] == '\n' && forall k :: 0 <= k < n - 1 ==> s[k] != '\n' by {
      forall k | 0 <= k < n - 1
        ensures s[k] != '\n'
      {
        assert line[..|line| - 1][k] == s[k];
      }
    }
    assert lines == [] ==> s == part;
    assert forall k :: 0 <= k < |part| ==> part[k] != '\n';
    if lines == [] {
      assert false;
    } else {
      var l := lines[0];
      assert l in lines && IsLine(l);
      assert s == l + (Flatten(lines[1..]) + part);
      assert forall k :: 0 <= k < |l| ==> s[k] == l[k];
      assert forall k :: 0 <= k < |l| - 1 ==> l[k] != '\n' by {
        forall k | 0 <= k < |l| - 1
          ensures l[k] != '\n'
        {
          assert l[..|l| - 1][k] == l[k];
        }
      }
      assert n == |l|;
      assert line == l;
    }
  }

  /** A reader that has taken `k` whole frames and then takes one more line has taken frame `k`. */
  lemma NextLine(lines: seq<string>, part: string, k: nat, n: nat)
    requires forall l :: l in lines ==> IsLine(l)
    requires '\n' !in part && k <= |lines|
    requires var pos := |Flatten(lines[..k])|;
             pos + n <= |Flatten(lines) + part| && IsLine((Flatten(lines) + part)[pos..pos + n])
    ensures var pos := |Flatten(lines[..k])|;
            k < |lines| && (Flatten(lines) + part)[pos..pos + n] == lines[k]
    ensures k < |lines| && |Flatten(lines[..k + 1])| == |Flatten(lines[..k])| + n
  {
    var s := Flatten(lines) + part;
    var pos := |Flatten(lines[..k])|;
    var left := Flatten(lines[k..]) + part;
    assert lines[..k] + lines[k..] == lines;
    FlattenAppend(lines[..k], lines[k..]);
    Assoc(Flatten(lines[..k]), Flatten(lines[k..]), part);
    assert s[pos..] == left;
    assert s[pos..pos + n] == left[..n];
    FirstLine(lines[k..], part, n);
    assert lines[..k + 1] == lines[..k] + [lines[k]];
    FlattenAppend(lines[..k], [lines[k]]);
    FlattenOne(lines[k]);
  }

  lemma {:induction false} CutOne(line: string, rest: string, start: string)
    requires IsLine(line)
    ensures CutLines(line + rest, start) ==
            var (lines, left) := CutLines(rest); ([start + line] + lines, left)
    decreases |line|
  {
    assert (line + rest)[0] == line[0];
    assert (line + rest)[1..] == line[1..] + rest;
    if |line| == 1 {
      assert line == "\n" && line[1..] + rest == rest;
    } else {
      assert line[0] != '\n' by {
        assert line[..|line| - 1][0] == line[0];
      }
      assert line[1..][..|line| - 2] == line[..|line| - 1][1..];
      CutOne(line[1..], rest, start + [line[0]]);
      assert start + [line[0]] + line[1..] == start + line;
    }
  }

  lemma {:induction false} CutPart(part: string, start: string)
    requires '\n' !in part
    ensures CutLines(part, start) == ([], start + part)
    decreases |part|
  {
    if part == "" {
      assert start + part == start;
    } else {
      CutPart(part[1..], start + [part[0]]);
      assert start + [part[0]] + part[1..] == start + part;
    }
  }

  /** Cutting a stream of whole frames and an unfinished one gives back exactly those. */
  lemma {:induction false} CutRecoversLines(lines: seq<string>, part: string)
    requires forall l :: l in lines ==> IsLine(l)
    requires '\n' !in part
    ensures CutLines(Flatten(lines) + part) == (lines, part)
  {
    if lines == [] {
      assert Flatten(lines) + part == part;
      CutPart(part, "");
      assert "" + part == part;
    } else {
      CutRecoversLines(lines[1..], part);
      assert Flatten(lines) + part == lines[0] + (Flatten(lines[1..]) + part);
      CutOne(lines[0], Flatten(lines[1..]) + part, "");
      assert "" + lines[0] == lines[0];
      assert [lines[0]] + lines[1..] == lines;
    }
  }

  // ----- reading a frame --------------------------------------------------------------------

  /** Reads a member with a string value off the front of a JSON text. */
  function Member(name: string, s: string): Option<(string, string)> {
    match Take("\"" + name + "\":\"", s)
    case None => None
    case Some(s1) =>
      UntilCuts('"', s1);
      var value := Until('"', s1);
      match Take("\"", s1[|value|..])
      case None => None
      case Some(s2) => Some((value, s2))
  }

  /** Reads a frame as the remote does: an object of a UUID, a function and arguments, on one line. */
  function Decode(line: string): Option<Request> {
    match Take("{", line)
    case None => None
    case Some(s1) =>
      match Member("UUID", s1)
      case None => None
      case Some((uuid, s2)) =>
        match Take(",", s2)
        case None => None
        case Some(s3) =>
          match Member("RPCFunction", s3)
          case None => None
          case Some((fn, s4)) =>
            match Take(",\"Args\":", s4)
            case None => None
            case Some(s5) =>
              if |s5| >= 2 && s5[|s5| - 2..] == "}\n" then Some(Request(uuid, fn, s5[..|s5| - 2])) else None
  }

  lemma MemberIsRead(name: string, value: string, rest: string)
    requires '"' !in value
    ensures Member(name, ("\"" + name + "\":\"") + (value + ("\"" + rest))) == Some((value, rest))
  {
    FrontOf("\"" + name + "\":\"", value + ("\"" + rest));
    UntilFinds('"', value, "\"" + rest);
    FrontOf(value, "\"" + rest);
    FrontOf("\"", rest);
  }

  const UUID_MEMBER := "\"" + "UUID" + "\":\""
  const FN_MEMBER := "\"" + "RPCFunction" + "\":\""
  const ARGS_MEMBER := ",\"Args\":"

  /** The pieces of a frame, put together from the left. */
  lemma EncodePieces(r: Request)
    ensures Encode(r) ==
            "{" + (UUID_MEMBER + (r.uuid + ("\"" + ("," + (FN_MEMBER + (r.fn + ("\"" + (ARGS_MEMBER + (r.args + "}\n")))))))))
  {
    assert PREFIX == "{" + UUID_MEMBER && FN == "\"" + ("," + FN_MEMBER) && ARGS == "\"" + ARGS_MEMBER;
    var s6 := r.args + "}\n";
    var s5 := r.fn + (ARGS + s6);
    var head := PREFIX + r.uuid;
    assert Encode(r) == head + (FN + s5) by {
      Assoc(head + FN + r.fn + ARGS, r.args, "}");
      Assoc(head + FN + r.fn + ARGS + r.args, "}", "\n");
      Assoc(head + FN + r.fn + ARGS, r.args, "}\n");
      Assoc(head + FN + r.fn, ARGS, s6);
      Assoc(head + FN, r.fn, ARGS + s6);
      Assoc(head, FN, s5);
    }
    Assoc(PREFIX, r.uuid, FN + s5);
    Assoc("{", UUID_MEMBER, r.uuid + (FN + s5));
    Assoc("\"", "," + FN_MEMBER, s5);
    Assoc(",", FN_MEMBER, s5);
    Assoc("\"", ARGS_MEMBER, s6);
  }

  /** Decoding what was encoded gives the call back: its UUID, its function and its arguments. */
  lemma DecodeInvertsEncode(r: Request)
    requires WellFormed(r) && '"' !in r.fn
    ensures Decode(Encode(r)) == Some(r)
  {
    var s6 := r.args + "}\n";
    var s5 := ARGS_MEMBER + s6;
    var s4 := r.fn + ("\"" + s5);
    var s3 := FN_MEMBER + s4;
    var s1 := UUID_MEMBER + (r.uuid + ("\"" + ("," + s3)));
    EncodePieces(r);
    FrontOf("{", s1);
    MemberIsRead("UUID", r.uuid, "," + s3);
    FrontOf(",", s3);
    MemberIsRead("RPCFunction", r.fn, s5);
    FrontOf(ARGS_MEMBER, s6);
    assert s6[..|s6| - 2] == r.args;
  }

  /** Different calls have different frames. */
  lemma FramesAreDistinct(a: Request, b: Request)
    requires WellFormed(a) && WellFormed(b) && '"' !in a.fn && '"' !in b.fn
    ensures Encode(a) == Encode(b) <==> a == b
  {
    DecodeInvertsEncode(a);
    DecodeInvertsEncode(b);
  }
}
