/**
 A call from its start to its end: from wherever the system stands, each call can be written, read by
 the remote, answered, and given that very answer.
 */
module RpcCompletion {
  import opened Strings
  import opened Wrappers
  import opened Frames
  import opened Rpc
  import opened RpcInvariants
  import opened RpcPreservation
  import opened RpcRefinement
  import opened RpcTheorems
  import opened RpcProgress
  import opened RpcDelivery
  import RpcShutdown

  /** What calls, or the loop and its deliverers, do by themselves is part of a round trip. */
  lemma WidenPath(p: Path, st: State, who: Party, end: State)
    requires p.Leads(st, who, end) && (who.CallsOnly? || who.Delivery?)
    ensures p.Leads(st, RoundTrip, end)
  {
    forall i | 0 <= i < |p.steps|
      ensures p.Moves(RoundTrip, i)
    {
      assert p.Moves(who, i);
    }
  }

  // ----- the call is sent -------------------------------------------------------------------

  lemma ReachedAfter(st: State, before: seq<Step>, p: Path, who: Party, end: State)
    requires Reached(st, before) && p.Leads(st, who, end)
    ensures Reached(end, before + p.steps)
  {
    PathRuns(p, st, who, end);
    RpcShutdown.ReachedTogether(st, before, p.steps, end);
  }

  lemma SentIsOwner(st: State, steps: seq<Step>, c: CallId)
    requires Reached(st, steps) && c in st.calls && Sent(st.calls[c].pc)
    ensures c in st.enc.owners
  {
    ReachedIsGood(st, steps);
  }

  /**
   A call that can still be sent gets through: its own steps and those of the holder of the encoder's
   lock write its whole frame and bring it to its select, or, if it is a `Close`, to its end.
   */
  lemma CallsGetThrough(st: State, steps: seq<Step>, c: CallId) returns (p: Path, end: State)
    requires Reached(st, steps) && CanSend(st, c)
    ensures p.Leads(st, CallsOnly, end) && Reached(end, steps + p.steps)
    ensures OnlyCalls(st, end, c) && c in end.enc.owners
    ensures end.calls[c].pc == if st.calls[c].request.fn == "Close" then Ended(Closed) else Waiting
  {
    ReachedIsOrderly(st, steps);
    p, end := CallsSettle(st, c, CallsOnly);
    ReachedAfter(st, steps, p, CallsOnly, end);
    SentIsOwner(end, steps + p.steps, c);
  }

  // ----- the remote reads it and answers ----------------------------------------------------

  lemma RemoteStepLeads(st: State, step: RemoteStep) returns (p: Path, next: State)
    requires TryRemote(st, step).Some? && !step.Stray?
    ensures next == TryRemote(st, step).value && p.Leads(st, RoundTrip, next) && p.steps == [OfRemote(step)]
  {
    next := TryRemote(st, step).value;
    p := Path([st, next], [OfRemote(step)]);
    OneStepLeads(st, OfRemote(step), RoundTrip, next);
  }

  lemma {:induction false} FlattenSplits(lines: seq<string>, k: nat)
    requires k < |lines|
    ensures Flatten(lines) == Flatten(lines[..k]) + (lines[k] + Flatten(lines[k + 1..]))
  {
    if k == 0 {
      assert lines[..0] == [] && lines[1..] == lines[0 + 1..];
    } else {
      FlattenSplits(lines[1..], k - 1);
      assert lines[..k][0] == lines[0] && lines[..k][1..] == lines[1..][..k - 1];
      assert lines[1..][k..] == lines[k + 1..];
    }
  }

  /** The next line stands on the wire where the remote has got to. */
  lemma NextLine(st: State)
    requires Framing(st.calls, st.enc) && Reading(st.enc, st.remote) && |st.remote.read| < |st.enc.lines|
    ensures var line := st.enc.lines[|st.remote.read|];
            && st.remote.pos + |line| <= |st.enc.wire|
            && st.enc.wire[st.remote.pos..st.remote.pos + |line|] == line
  {
    var k := |st.remote.read|;
    var line := st.enc.lines[k];
    FlattenSplits(st.enc.lines, k);
    var front, back := Flatten(st.remote.read), Flatten(st.enc.lines[k + 1..]) + st.enc.part;
    Assoc(front, line + Flatten(st.enc.lines[k + 1..]), st.enc.part);
    Assoc(line, Flatten(st.enc.lines[k + 1..]), st.enc.part);
    Slice(front, line, back);
  }

  lemma Slice(front: string, line: string, back: string)
    ensures var s := front + (line + back);
            |front| + |line| <= |s| && s[|front|..|front| + |line|] == line
  {
  }

  lemma NextIsRead(st: State)
    requires Registry(st.calls, st.inFlight) && Framing(st.calls, st.enc) && Reading(st.enc, st.remote)
    requires |st.remote.read| < |st.enc.lines|
    ensures var line := st.enc.lines[|st.remote.read|];
            TryRemote(st, Read(|line|)) == Some(st.(remote := Further(st.remote, line)))
  {
    FramesAreLines(st);
    NextLine(st);
  }

  lemma ReadNext(st: State, steps: seq<Step>) returns (p: Path, next: State)
    requires Reached(st, steps) && |st.remote.read| < |st.enc.lines|
    ensures p.Leads(st, RoundTrip, next)
    ensures next == st.(remote := next.remote) && next.remote.back == st.remote.back
    ensures next.remote.read == st.remote.read + [st.enc.lines[|st.remote.read|]]
  {
    ReachedIsGood(st, steps);
    NextIsRead(st);
    p, next := RemoteStepLeads(st, Read(|st.enc.lines[|st.remote.read|]|));
  }

  /** The remote can read on to any whole line on the wire. */
  lemma {:induction false} ReadsOn(st: State, steps: seq<Step>, j: nat) returns (p: Path, end: State)
    requires Reached(st, steps) && j < |st.enc.lines|
    ensures p.Leads(st, RoundTrip, end)
    ensures end == st.(remote := end.remote) && end.remote.back == st.remote.back
    ensures j < |end.remote.read| && Reached(end, steps + p.steps)
    decreases |st.enc.lines| - |st.remote.read|
  {
    if j < |st.remote.read| {
      p, end := Here(st), st;
    } else {
      var next, more;
      p, next := ReadNext(st, steps);
      ReachedAfter(st, steps, p, RoundTrip, next);
      more, end := ReadsOn(next, steps + p.steps, j);
      p.ThenLeads(st, RoundTrip, next, more, end);
      p := p.Then(more);
    }
    ReachedAfter(st, steps, p, RoundTrip, end);
  }

  lemma OwnerIsAsked(st: State, steps: seq<Step>, j: nat)
    requires Reached(st, steps) && j < |st.remote.read|
    ensures j < |st.enc.owners| && st.enc.owners[j] in st.calls
    ensures UuidIn(st.remote.read[j]) == st.calls[st.enc.owners[j]].request.uuid
  {
    ReachedIsGood(st, steps);
    LineIsOf(st, j);
  }

  lemma LineOfOwner(st: State, steps: seq<Step>, c: CallId) returns (j: nat)
    requires Reached(st, steps) && c in st.enc.owners
    ensures j < |st.enc.lines| && j < |st.enc.owners| && st.enc.owners[j] == c
  {
    ReachedIsGood(st, steps);
    j :| 0 <= j < |st.enc.owners| && st.enc.owners[j] == c;
  }

  /** The remote can answer a call whose frame is on the wire, with what it likes. */
  lemma RemoteAnswers(st: State, steps: seq<Step>, c: CallId, payload: Payload) returns (p: Path, end: State)
    requires Reached(st, steps) && c in st.calls && c in st.enc.owners
    ensures p.Leads(st, RoundTrip, end) && Reached(end, steps + p.steps)
    ensures end == st.(remote := end.remote)
    ensures end.remote.back == st.remote.back + [Answer(st.calls[c].request.uuid, payload, false)]
  {
    var j := LineOfOwner(st, steps, c);
    var read, more;
    p, read := ReadsOn(st, steps, j);
    OwnerIsAsked(read, steps + p.steps, j);
    more, end := RemoteStepLeads(read, Reply(j, payload));
    p.ThenLeads(st, RoundTrip, read, more, end);
    p := p.Then(more);
    ReachedAfter(st, steps, p, RoundTrip, end);
  }

  // ----- the whole round trip ---------------------------------------------------------------

  /** The loop is where it takes results from. */
  predicate Taking(st: State) {
    st.running && (st.loop.pc.AtTest? || st.loop.pc.InDecode?)
  }

  lemma EndsAnswered(st: State, steps: seq<Step>, c: CallId, payload: Payload) returns (p: Path, end: State)
    requires Reached(st, steps) && Taking(st) && c in st.calls && st.calls[c].pc == Waiting && c in st.enc.owners
    ensures p.Leads(st, RoundTrip, end) && c in end.calls
    ensures end.calls[c].pc == Ended(Received(Answer(st.calls[c].request.uuid, payload, false), true))
  {
    var answered, taken, more;
    p, answered := RemoteAnswers(st, steps, c, payload);
    var i := |st.remote.back|;
    more, taken := AnswersArrive(answered, steps + p.steps, c, i);
    WidenPath(more, answered, Delivery, taken);
    p.ThenLeads(st, RoundTrip, answered, more, taken);
    p := p.Then(more);
    end := TryCall(taken, c, CloseChannel).value;
    more := Path([taken, end], [OfCall(c, CloseChannel)]);
    OneStepLeads(taken, OfCall(c, CloseChannel), RoundTrip, end);
    p.ThenLeads(st, RoundTrip, taken, more, end);
    p := p.Then(more);
  }

  /**
   Completion: while the agent runs, its loop takes results and no write has failed, every call other
   than a `Close` that has not been refused can come to its end with any answer of the remote's: by
   steps of calls, the remote, the loop and deliverers, with no error, no timeout and no ended context.
   */
  lemma CallsComplete(st: State, steps: seq<Step>, c: CallId, payload: Payload) returns (p: Path, end: State)
    requires Reached(st, steps) && Taking(st) && CanSend(st, c) && st.calls[c].request.fn != "Close"
    ensures p.Leads(st, RoundTrip, end) && Run(st, p.steps) == Some(end) && c in end.calls
    ensures end.calls[c].pc == Ended(Received(Answer(st.calls[c].request.uuid, payload, false), true))
  {
    var sent, more;
    p, sent := CallsGetThrough(st, steps, c);
    WidenPath(p, st, CallsOnly, sent);
    more, end := EndsAnswered(sent, steps + p.steps, c, payload);
    p.ThenLeads(st, RoundTrip, sent, more, end);
    p := p.Then(more);
    PathRuns(p, st, RoundTrip, end);
  }
}
