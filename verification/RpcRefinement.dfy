/** Every step of the system is a step of its specification, or none. */
module RpcRefinement {
  import opened Wrappers
  import opened Frames
  import opened Rpc
  import opened RpcInvariants
  import opened RpcPreservation
  import opened RpcSpec

  /** The specification either stands still or takes one of its own steps. */
  ghost predicate Simulates(st: State, next: State) {
    Meaning(next) == Meaning(st) || SpecNext(Meaning(st), Meaning(next))
  }

  function SeenAll(calls: map<CallId, Call>): map<CallId, SpecCall> {
    map c | c in calls :: Seen(calls[c])
  }

  lemma SeenSet(calls: map<CallId, Call>, c: CallId, call: Call)
    ensures SeenAll(calls[c := call]) == SeenAll(calls)[c := Seen(call)]
  {
  }

  lemma FirstsGrow(owners: seq<CallId>, c: CallId, n: nat)
    requires n <= |owners|
    ensures Firsts(owners + [c], n) == Firsts(owners, n)
    ensures Firsts(owners + [c], |owners| + 1) == Firsts(owners, |owners|) + {c}
  {
    var more := owners + [c];
    assert more[|owners|] == c;
    forall x
      ensures x in Firsts(more, n) <==> x in Firsts(owners, n)
      ensures x in Firsts(more, |owners| + 1) <==> x in Firsts(owners, |owners|) || x == c
    {
      if x in Firsts(owners, |owners|) {
        var i :| 0 <= i < |owners| && owners[i] == x;
        assert more[i] == x;
      }
      if x in Firsts(owners, n) {
        var i :| 0 <= i < n && owners[i] == x;
        assert more[i] == x;
      }
    }
  }

  lemma InFirsts(owners: seq<CallId>, c: CallId)
    ensures c in owners <==> c in Firsts(owners, |owners|)
  {
  }

  /** Moving a call whose request stays leaves the answers as they are. */
  lemma AnsweredStays(calls: map<CallId, Call>, produced: set<Msg>, c: CallId, pc: CallPc)
    requires c in calls
    ensures Answered(Moved(calls, c, pc), produced) == Answered(calls, produced)
  {
    var after := Moved(calls, c, pc);
    forall b, p
      ensures (b, p) in Answered(after, produced) <==> (b, p) in Answered(calls, produced)
    {
    }
  }

  lemma AnsweredDraw(calls: map<CallId, Call>, produced: set<Msg>, c: CallId, call: Call)
    requires forall m :: m in produced ==> m.uuid != call.request.uuid
    requires c !in calls
    ensures Answered(calls[c := call], produced) == Answered(calls, produced)
  {
  }

  lemma FreshIsUnasked(st: State, request: Request)
    requires Registry(st.calls, st.inFlight) && Framing(st.calls, st.enc) && Progress(st.calls, st.enc)
    requires Reading(st.enc, st.remote) && Answering(st.remote)
    requires forall b :: b in st.calls ==> st.calls[b].request.uuid != request.uuid
    ensures forall m :: m in st.remote.produced ==> m.uuid != request.uuid
  {
    forall m | m in st.remote.produced
      ensures m.uuid != request.uuid
    {
      AskedIsKnown(st, m.uuid);
      var b :| Owns(st.calls, b, m.uuid);
    }
  }

  lemma DrawMeans(st: State, c: CallId, call: Call, next: State)
    requires c !in st.calls && call.pc == Drawn && next == st.(calls := st.calls[c := call])
    requires forall m :: m in st.remote.produced ==> m.uuid != call.request.uuid
    ensures SpecNext(Meaning(st), Meaning(next))
  {
    SeenSet(st.calls, c, call);
    AnsweredDraw(st.calls, st.remote.produced, c, call);
    assert Opens(Meaning(st), Meaning(next), c, call.request.fn == CLOSE);
  }

  lemma DrawRefines(st: State, c: CallId, request: Request, ch: Chan, next: State)
    requires Registry(st.calls, st.inFlight) && Framing(st.calls, st.enc) && Progress(st.calls, st.enc)
    requires Reading(st.enc, st.remote) && Answering(st.remote)
    requires TryDraw(st, c, request, ch) == Some(next)
    ensures SpecNext(Meaning(st), Meaning(next))
  {
    FreshIsUnasked(st, request);
    DrawMeans(st, c, Call(request, ch, Drawn), next);
  }

  /** A move that ends nothing and finishes no frame means nothing. */
  lemma QuietMove(st: State, c: CallId, next: State)
    requires c in st.calls && c in next.calls && next.calls == Moved(st.calls, c, next.calls[c].pc)
    requires next.enc.owners == st.enc.owners && next.remote == st.remote && next.running == st.running
    ensures Meaning(next) == Meaning(st).(calls := Meaning(st).calls[c := Seen(next.calls[c])])
  {
    SeenSet(st.calls, c, next.calls[c]);
    AnsweredStays(st.calls, st.remote.produced, c, next.calls[c].pc);
  }

  lemma WriteRefines(st: State, c: CallId, n: nat, next: State)
    requires Progress(st.calls, st.enc) && |st.remote.read| <= |st.enc.owners|
    requires TryCall(st, c, Write(n)) == Some(next)
    ensures Simulates(st, next)
  {
    SeenSet(st.calls, c, next.calls[c]);
    AnsweredStays(st.calls, st.remote.produced, c, next.calls[c].pc);
    assert SeenAll(next.calls) == SeenAll(st.calls);
    if next.enc.owners != st.enc.owners {
      FirstsGrow(st.enc.owners, c, |st.remote.read|);
      InFirsts(st.enc.owners, c);
      assert Sends(Meaning(st), Meaning(next), c);
    }
  }

  /** The end a call's own step gives it is one the specification allows. */
  lemma EndIsAllowed(st: State, c: CallId, step: CallStep, next: State)
    requires Progress(st.calls, st.enc) && Outcomes(st.calls, st.remote.produced)
    requires TryCall(st, c, step) == Some(next)
    requires Seen(next.calls[c]) != Seen(st.calls[c])
    ensures Seen(st.calls[c]).Open? && Seen(next.calls[c]).Over?
    ensures MayEnd(Meaning(st), c, Seen(next.calls[c]).end)
  {
    InFirsts(st.enc.owners, c);
  }

  lemma CallRefines(st: State, c: CallId, step: CallStep, next: State)
    requires Progress(st.calls, st.enc) && Outcomes(st.calls, st.remote.produced)
    requires TryCall(st, c, step) == Some(next) && !step.Write?
    ensures Simulates(st, next)
  {
    CallEffect(st, c, step, next);
    assert next.enc.owners == st.enc.owners;
    QuietMove(st, c, next);
    if Seen(next.calls[c]) == Seen(st.calls[c]) {
      assert Meaning(next).calls == Meaning(st).calls;
    } else {
      EndIsAllowed(st, c, step, next);
      assert Ends(Meaning(st), Meaning(next), c, Seen(next.calls[c]).end);
    }
  }

  lemma MeetIsAllowed(st: State, s: SenderId, c: CallId, cast: bool)
    requires Progress(st.calls, st.enc)
    requires StoppedFirst(st) && TrySender(st, s, Meet(c, cast)).Some?
    requires Ending(st.calls[c], Leaving(Received(st.senders[s].msg, cast)), st.remote.produced)
    ensures Seen(st.calls[c]).Open? && MayEnd(Meaning(st), c, EndOf(Received(st.senders[s].msg, cast)))
  {
    var m := st.senders[s].msg;
    InFirsts(st.enc.owners, c);
    if m.Answer? {
      assert m.(faulty := false) == Answer(st.calls[c].request.uuid, m.payload, false);
    }
  }

  lemma MeetRefines(st: State, s: SenderId, c: CallId, cast: bool, next: State)
    requires Progress(st.calls, st.enc)
    requires StoppedFirst(st) && TrySender(st, s, Meet(c, cast)) == Some(next)
    requires Ending(st.calls[c], Leaving(Received(st.senders[s].msg, cast)), st.remote.produced)
    ensures SpecNext(Meaning(st), Meaning(next))
  {
    MeetIsAllowed(st, s, c, cast);
    QuietMove(st, c, next);
    assert Ends(Meaning(st), Meaning(next), c, EndOf(Received(st.senders[s].msg, cast)));
  }

  lemma ReadRefines(st: State, n: nat, next: State)
    requires Framing(st.calls, st.enc) && |st.remote.read| <= |st.enc.owners|
    requires TryRemote(st, Read(n)) == Some(next) && |next.remote.read| <= |next.enc.owners|
    ensures SpecNext(Meaning(st), Meaning(next))
  {
    var k := |st.remote.read|;
    var c := st.enc.owners[k];
    assert Firsts(st.enc.owners, k + 1) == Firsts(st.enc.owners, k) + {c};
    assert c in Firsts(st.enc.owners, |st.enc.owners|) && c !in Firsts(st.enc.owners, k);
    assert Reads(Meaning(st), Meaning(next), c);
  }

  /** The line the remote answers is the frame of exactly one call. */
  lemma LineIsOf(st: State, i: nat)
    requires Registry(st.calls, st.inFlight) && Framing(st.calls, st.enc) && Reading(st.enc, st.remote)
    requires i < |st.remote.read|
    ensures var c := st.enc.owners[i];
            && c in st.calls && st.remote.read[i] == Text(st.calls[c])
            && UuidIn(st.remote.read[i]) == st.calls[c].request.uuid
            && forall b :: b in st.calls && st.calls[b].request.uuid == UuidIn(st.remote.read[i]) ==> b == c
  {
    assert st.remote.read[i] == st.enc.lines[i];
    EncodeIsLine(st.calls[st.enc.owners[i]].request);
  }

  lemma AnsweredReply(calls: map<CallId, Call>, produced: set<Msg>, c: CallId, p: Payload)
    requires c in calls
    requires forall b :: b in calls && calls[b].request.uuid == calls[c].request.uuid ==> b == c
    ensures Answered(calls, produced + {Answer(calls[c].request.uuid, p, false)}) == Answered(calls, produced) + {(c, p)}
  {
  }

  lemma ReplyRefines(st: State, i: nat, p: Payload, next: State)
    requires Registry(st.calls, st.inFlight) && Framing(st.calls, st.enc) && Reading(st.enc, st.remote)
    requires TryRemote(st, Reply(i, p)) == Some(next)
    ensures SpecNext(Meaning(st), Meaning(next))
  {
    LineIsOf(st, i);
    var c := st.enc.owners[i];
    AnsweredReply(st.calls, st.remote.produced, c, p);
    assert c in Meaning(st).read;
    assert Answers(Meaning(st), Meaning(next), c, p);
  }

  /** Only calls, frames, the remote and the stop mean anything. */
  lemma SameMeaning(st: State, next: State)
    requires next.calls == st.calls && next.enc == st.enc && next.remote == st.remote && next.running == st.running
    ensures Meaning(next) == Meaning(st)
  {
  }

  lemma HeartRefines(st: State, step: HeartStep, next: State)
    requires Registry(st.calls, st.inFlight) && Framing(st.calls, st.enc) && Progress(st.calls, st.enc)
    requires Reading(st.enc, st.remote) && Answering(st.remote)
    requires TryHeart(st, step) == Some(next)
    ensures Simulates(st, next)
  {
    if step.StartPing? {
      var mid := st.(heart := Heart(Pinging(step.c), st.heart.pings + 1));
      SameMeaning(st, mid);
      DrawRefines(mid, step.c, step.request, step.ch, next);
    } else {
      HeartEffect(st, step, next);
      SameMeaning(st, next);
    }
  }

  lemma DiscEffect(st: State, d: DiscId, step: DiscStep, next: State)
    requires TryDisc(st, d, step) == Some(next) && !step.CallClose?
    ensures next == st.(discs := next.discs, senders := next.senders, running := next.running)
    ensures next.running == (st.running && !step.Stop?)
  {
  }

  lemma DiscMeans(st: State, next: State)
    requires next == st.(discs := next.discs, senders := next.senders, running := next.running)
    requires next.running ==> st.running
    ensures Simulates(st, next)
  {
    assert Meaning(next) == if next.running then Meaning(st) else Meaning(st).(stopped := true);
  }

  lemma DiscRefines(st: State, d: DiscId, step: DiscStep, next: State)
    requires Registry(st.calls, st.inFlight) && Framing(st.calls, st.enc) && Progress(st.calls, st.enc)
    requires Reading(st.enc, st.remote) && Answering(st.remote)
    requires TryDisc(st, d, step) == Some(next)
    ensures Simulates(st, next)
  {
    if step.CallClose? {
      var mid := DiscAt(st, d, Closing(step.c));
      SameMeaning(st, mid);
      DrawRefines(mid, step.c, step.request, step.ch, next);
    } else {
      DiscEffect(st, d, step, next);
      DiscMeans(st, next);
    }
  }

  /** Steps that concern nobody outside the agent. */
  predicate Inner(step: Step) {
    match step
    case OfSender(_, send) => !send.Meet?
    case OfLoop(_) => true
    case NewDisconnect(_, _) => true
    case OfRemote(remote) => remote.Stray?
    case _ => false
  }

  lemma InnerMeansNothing(st: State, step: Step, next: State)
    requires Try(st, step) == Some(next) && Inner(step)
    ensures Meaning(next) == Meaning(st)
  {
    match step
    case OfSender(s, send) => SenderEffect(st, s, send, next);
    case OfLoop(loop) => LoopEffect(st, loop, next);
    case _ =>
  }

  lemma StepRefines(st: State, step: Step, next: State)
    requires Inv(st) && StoppedFirst(st) && Try(st, step) == Some(next)
    requires |next.remote.read| <= |next.enc.owners|
    ensures Simulates(st, next)
  {
    if Inner(step) {
      InnerMeansNothing(st, step, next);
    } else {
      match step
      case NewCall(c, request, ch) => DrawRefines(st, c, request, ch, next);
      case OfCall(c, Write(n)) => WriteRefines(st, c, n, next);
      case OfCall(c, call) => CallRefines(st, c, call, next);
      case OfSender(s, Meet(c, cast)) =>
        MeetOutcomes(st, s, c, cast);
        MeetRefines(st, s, c, cast, next);
      case OfDisc(d, disc) => DiscRefines(st, d, disc, next);
      case OfRemote(Read(n)) => ReadRefines(st, n, next);
      case OfRemote(Reply(i, p)) => ReplyRefines(st, i, p, next);
      case OfHeart(heart) => HeartRefines(st, heart, next);
      case _ =>
    }
  }

  lemma TraceCons(s: Spec, rest: seq<Spec>)
    requires SpecTrace(rest) && (s == rest[0] || SpecNext(s, rest[0]))
    ensures SpecTrace([s] + rest)
  {
    var trace := [s] + rest;
    forall i | 0 <= i < |trace| - 1
      ensures trace[i] == trace[i + 1] || SpecNext(trace[i], trace[i + 1])
    {
      if i > 0 {
        assert trace[i] == rest[i - 1] && trace[i + 1] == rest[i - 1 + 1];
      }
    }
  }

  ghost predicate Good(st: State) {
    Inv(st) && StoppedFirst(st)
  }

  lemma GoodStep(st: State, step: Step, next: State)
    requires Good(st) && Try(st, step) == Some(next)
    ensures Good(next)
    ensures Meaning(st) == Meaning(next) || SpecNext(Meaning(st), Meaning(next))
  {
    StepKeeps(st, step, next);
    StoppedFirstKeeps(st, step, next);
    StepRefines(st, step, next);
  }

  lemma FirstStep(st: State, steps: seq<Step>, end: State) returns (next: State)
    requires Good(st) && steps != [] && Run(st, steps) == Some(end)
    ensures Try(st, steps[0]) == Some(next) && Good(next) && Run(next, steps[1..]) == Some(end)
    ensures Meaning(st) == Meaning(next) || SpecNext(Meaning(st), Meaning(next))
  {
    next := Try(st, steps[0]).value;
    GoodStep(st, steps[0], next);
  }

  /** What the states of a run mean, one after another. */
  ghost function Meanings(st: State, steps: seq<Step>): (trace: seq<Spec>)
    requires Run(st, steps).Some?
    ensures |trace| == |steps| + 1 && trace[0] == Meaning(st)
    decreases |steps|
  {
    if steps == [] then [Meaning(st)] else [Meaning(st)] + Meanings(Try(st, steps[0]).value, steps[1..])
  }

  /** Element `i` of the trace is what the state after `i` steps means. */
  ghost predicate Depicts(trace: seq<Spec>, st: State, steps: seq<Step>, i: nat) {
    && i <= |steps| && i < |trace|
    && Run(st, steps[..i]).Some?
    && trace[i] == Meaning(Run(st, steps[..i]).value)
  }

  lemma {:induction false} MeaningsDepict(st: State, steps: seq<Step>, i: nat)
    requires Run(st, steps).Some? && i <= |steps|
    ensures Depicts(Meanings(st, steps), st, steps, i)
    decreases i
  {
    if i > 0 {
      MeaningsDepict(Try(st, steps[0]).value, steps[1..], i - 1);
      assert steps[..i][0] == steps[0] && steps[..i][1..] == steps[1..][..i - 1];
    }
  }

  lemma {:induction false} MeaningsTrace(st: State, steps: seq<Step>, end: State)
    requires Good(st) && Run(st, steps) == Some(end)
    ensures Good(end) && SpecTrace(Meanings(st, steps))
    decreases |steps|
  {
    if steps != [] {
      var next := FirstStep(st, steps, end);
      MeaningsTrace(next, steps[1..], end);
      TraceCons(Meaning(st), Meanings(next, steps[1..]));
    }
  }

  /**
   Every run of the system, however its goroutines interleave, is a run of the specification:
   `trace[i]` is what the state after `i` steps means.
   */
  lemma RunRefines(st: State, steps: seq<Step>, end: State) returns (trace: seq<Spec>)
    requires Good(st) && Run(st, steps) == Some(end)
    ensures Good(end)
    ensures SpecTrace(trace) && |trace| == |steps| + 1
    ensures forall i :: 0 <= i <= |steps| ==> Depicts(trace, st, steps, i)
    ensures trace[0] == Meaning(st) && trace[|steps|] == Meaning(end)
  {
    trace := Meanings(st, steps);
    MeaningsTrace(st, steps, end);
    forall i | 0 <= i <= |steps|
      ensures Depicts(trace, st, steps, i)
    {
      MeaningsDepict(st, steps, i);
    }
    assert Depicts(trace, st, steps, |steps|) && steps[..|steps|] == steps;
  }
}
