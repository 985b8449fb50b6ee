/** What the heartbeat makes of a ping: it goes on after a clean answer, and only then. */
module RpcHeartbeat {
  import opened Wrappers
  import opened Frames
  import opened Rpc
  import opened RpcInvariants
  import opened RpcPreservation
  import opened RpcTheorems
  import opened RpcProgress
  import RpcShutdown

  /** The call ended with an answer of the remote that decoded and was cast without an error. */
  ghost predicate Answered(st: State, c: CallId) {
    c in st.calls && exists m :: m in st.remote.produced && st.calls[c].pc == Ended(Received(m, true))
  }

  ghost predicate AllAnswered(st: State, pings: seq<CallId>) {
    forall k :: 0 <= k < |pings| ==> Answered(st, pings[k])
  }

  /**
   The pings so far: the last is the one the heartbeat waits for or judges, or the one it drops the
   agent for; all others, and the last too while the heartbeat goes on, were answered.
   */
  ghost predicate History(st: State, pings: seq<CallId>) {
    match st.heart.pc
    case Pinging(c) =>
      pings != [] && pings[|pings| - 1] == c && AllAnswered(st, pings[..|pings| - 1]) && c in st.calls
    case After(c) =>
      && pings != [] && pings[|pings| - 1] == c && AllAnswered(st, pings[..|pings| - 1])
      && c in st.calls && st.calls[c].pc.Ended?
    case Dropping(_) => pings != [] && AllAnswered(st, pings[..|pings| - 1])
    case Stilled => pings == [] || AllAnswered(st, pings[..|pings| - 1])
    case _ => AllAnswered(st, pings)
  }

  // ----- the verdict on one ping ------------------------------------------------------------

  /** An ended call was answered exactly if it took a clean answer and could cast it. */
  lemma CleanIsAnswered(st: State, c: CallId)
    requires Outcomes(st.calls, st.remote.produced) && Answering(st.remote)
    requires c in st.calls && st.calls[c].pc.Ended?
    ensures var o := st.calls[c].pc.outcome;
            (o.Received? && o.cast && o.msg.Answer? && !o.msg.faulty) <==> Answered(st, c)
  {
    var o := st.calls[c].pc.outcome;
    if o.Received? && o.cast && o.msg.Answer? && !o.msg.faulty {
      assert GotMessage(st.calls[c].pc) && o.msg.(faulty := false) == o.msg;
      assert o == Received(o.msg, true);
    }
  }

  lemma JudgeEffect(st: State, c: CallId, remoteError: bool, d: DiscId)
    requires st.heart.pc == After(c) && st.running && d !in st.discs && c in st.calls && st.calls[c].pc.Ended?
    ensures var o := st.calls[c].pc.outcome;
            var good := o.Received? && o.cast && o.msg.Answer? && !o.msg.faulty && !remoteError;
            TryHeart(st, Judge(remoteError, d)) ==
            Some(if good then HeartAt(st, Sleeping) else HeartAt(st, Dropping(d)).(discs := st.discs[d := NewDisc(false)]))
  {
  }

  lemma ReachedHistory(st: State, steps: seq<Step>)
    requires Reached(st, steps)
    ensures History(st, Pings(steps))
  {
    assert AllAnswered(START, []);
    RunHistory(START, steps, st, []);
    assert [] + Pings(steps) == Pings(steps);
  }

  /**
   The verdict: with the agent running, a judged ping lets the heartbeat sleep if and only if the remote
   produced an answer, without an error in it, that the ping's call took, decoded and cast; otherwise
   the heartbeat starts a Disconnect.
   */
  lemma VerdictIff(st: State, steps: seq<Step>, c: CallId, remoteError: bool, d: DiscId)
    requires Reached(st, steps) && st.heart.pc == After(c) && st.running && d !in st.discs
    ensures var next := TryHeart(st, Judge(remoteError, d));
            && next.Some?
            && (next.value.heart.pc == Sleeping <==> !remoteError && Answered(st, c))
            && (next.value.heart.pc != Sleeping ==>
                  next.value.heart.pc == Dropping(d) && next.value.discs == st.discs[d := NewDisc(false)])
  {
    ReachedHistory(st, steps);
    ReachedIsGood(st, steps);
    CleanIsAnswered(st, c);
    JudgeEffect(st, c, remoteError, d);
  }

  // ----- over runs --------------------------------------------------------------------------

  /** The call of the ping that a step starts, if it starts one. */
  function PingOf(step: Step): seq<CallId> {
    if step.OfHeart? && step.heart.StartPing? then [step.heart.c] else []
  }

  function Pings(steps: seq<Step>): seq<CallId> {
    if steps == [] then [] else PingOf(steps[0]) + Pings(steps[1..])
  }

  /** Ended calls stay as they are, and the remote forgets nothing it produced. */
  ghost predicate Lasting(st: State, next: State) {
    && (forall c :: c in st.calls ==> c in next.calls && (st.calls[c].pc.Ended? ==> next.calls[c] == st.calls[c]))
    && st.remote.produced <= next.remote.produced
  }

  lemma LastingAnswers(st: State, next: State, pings: seq<CallId>)
    requires Lasting(st, next) && AllAnswered(st, pings)
    ensures AllAnswered(next, pings)
  {
    forall k | 0 <= k < |pings|
      ensures Answered(next, pings[k])
    {
      assert Answered(st, pings[k]);
    }
  }

  lemma CallLasts(st: State, c: CallId, step: CallStep, next: State)
    requires TryCall(st, c, step) == Some(next)
    ensures Lasting(st, next)
  {
    CallEffect(st, c, step, next);
  }

  lemma SenderLasts(st: State, s: SenderId, step: SendStep, next: State)
    requires TrySender(st, s, step) == Some(next)
    ensures Lasting(st, next) && next.heart == st.heart
  {
    SenderEffect(st, s, step, next);
  }

  lemma RemoteLasts(st: State, step: RemoteStep, next: State)
    requires TryRemote(st, step) == Some(next)
    ensures Lasting(st, next) && next.heart == st.heart
  {
  }

  lemma DiscLasts(st: State, d: DiscId, step: DiscStep, next: State)
    requires TryDisc(st, d, step) == Some(next)
    ensures Lasting(st, next) && next.heart == st.heart
  {
  }

  lemma OthersLast(st: State, step: Step, next: State)
    requires Try(st, step) == Some(next) && !step.OfHeart?
    ensures Lasting(st, next) && next.heart == st.heart
  {
    match step
    case OfCall(c, call) =>
      CallEffect(st, c, call, next);
      CallLasts(st, c, call, next);
    case OfSender(s, send) => SenderLasts(st, s, send, next);
    case OfDisc(d, disc) => DiscLasts(st, d, disc, next);
    case OfLoop(loop) => LoopEffect(st, loop, next);
    case OfRemote(remote) => RemoteLasts(st, remote, next);
    case _ =>
  }

  lemma OthersKeepHistory(st: State, step: Step, next: State, pings: seq<CallId>)
    requires History(st, pings) && Try(st, step) == Some(next) && !step.OfHeart?
    ensures History(next, pings)
  {
    OthersLast(st, step, next);
    if AllAnswered(st, pings) {
      LastingAnswers(st, next, pings);
    }
    if pings != [] && AllAnswered(st, pings[..|pings| - 1]) {
      LastingAnswers(st, next, pings[..|pings| - 1]);
    }
  }

  lemma PingKeepsHistory(st: State, step: HeartStep, next: State, pings: seq<CallId>)
    requires History(st, pings) && TryHeart(st, step) == Some(next) && step.StartPing?
    ensures History(next, pings + [step.c])
  {
    assert st.heart.pc == Ready && AllAnswered(st, pings);
    assert (pings + [step.c])[..|pings|] == pings;
    assert Lasting(st, next);
    LastingAnswers(st, next, pings);
  }

  lemma AnsweredAll(st: State, pings: seq<CallId>)
    requires pings != [] && AllAnswered(st, pings[..|pings| - 1]) && Answered(st, pings[|pings| - 1])
    ensures AllAnswered(st, pings)
  {
    forall k | 0 <= k < |pings|
      ensures Answered(st, pings[k])
    {
      if k < |pings| - 1 {
        assert pings[..|pings| - 1][k] == pings[k];
      }
    }
  }

  lemma FewerAnswered(st: State, pings: seq<CallId>)
    requires AllAnswered(st, pings)
    ensures pings == [] || AllAnswered(st, pings[..|pings| - 1])
  {
  }

  lemma JudgeKeepsHistory(st: State, step: HeartStep, next: State, pings: seq<CallId>)
    requires Outcomes(st.calls, st.remote.produced) && Answering(st.remote)
    requires History(st, pings) && TryHeart(st, step) == Some(next) && step.Judge?
    ensures History(next, pings)
  {
    var c := st.heart.pc.c;
    CleanIsAnswered(st, c);
    LastingAnswers(st, next, pings[..|pings| - 1]);
    if Answered(st, c) {
      AnsweredAll(st, pings);
      LastingAnswers(st, next, pings);
    }
  }

  lemma HeartKeepsHistory(st: State, step: HeartStep, next: State, pings: seq<CallId>)
    requires History(st, pings) && TryHeart(st, step) == Some(next) && !step.StartPing? && !step.Judge?
    ensures History(next, pings)
  {
    HeartEffect(st, step, next);
    if AllAnswered(st, pings) {
      FewerAnswered(st, pings);
      LastingAnswers(st, next, pings);
    }
    if pings != [] && AllAnswered(st, pings[..|pings| - 1]) {
      LastingAnswers(st, next, pings[..|pings| - 1]);
    }
  }

  lemma StepHistory(st: State, step: Step, next: State, pings: seq<CallId>)
    requires Outcomes(st.calls, st.remote.produced) && Answering(st.remote)
    requires History(st, pings) && Try(st, step) == Some(next)
    ensures History(next, pings + PingOf(step))
  {
    assert pings + [] == pings;
    if !step.OfHeart? {
      OthersKeepHistory(st, step, next, pings);
    } else if step.heart.StartPing? {
      PingKeepsHistory(st, step.heart, next, pings);
    } else if step.heart.Judge? {
      JudgeKeepsHistory(st, step.heart, next, pings);
    } else {
      HeartKeepsHistory(st, step.heart, next, pings);
    }
  }

  lemma HistoryStep(st: State, steps: seq<Step>, end: State, pings: seq<CallId>) returns (next: State)
    requires Inv(st) && History(st, pings) && steps != [] && Run(st, steps) == Some(end)
    ensures Inv(next) && History(next, pings + PingOf(steps[0])) && Run(next, steps[1..]) == Some(end)
  {
    next := Try(st, steps[0]).value;
    StepHistory(st, steps[0], next, pings);
    StepKeeps(st, steps[0], next);
  }

  lemma PingsOn(pings: seq<CallId>, first: seq<CallId>, rest: seq<CallId>)
    ensures (pings + first) + rest == pings + (first + rest)
  {
  }

  lemma {:induction false} RunHistory(st: State, steps: seq<Step>, end: State, pings: seq<CallId>)
    requires Inv(st) && History(st, pings) && Run(st, steps) == Some(end)
    ensures History(end, pings + Pings(steps))
    decreases |steps|
  {
    if steps == [] {
      assert pings + [] == pings;
    } else {
      var next := HistoryStep(st, steps, end, pings);
      RunHistory(next, steps[1..], end, pings + PingOf(steps[0]));
      PingsOn(pings, PingOf(steps[0]), Pings(steps[1..]));
    }
  }

  /**
   In every run each ping but the last was answered by the remote, and the last too while the heartbeat
   sleeps or is about to ping again: a heartbeat goes on only with answers.
   */
  lemma PingsWereAnswered(st: State, steps: seq<Step>)
    requires Reached(st, steps)
    ensures var pings := Pings(steps);
            && (pings != [] ==> AllAnswered(st, pings[..|pings| - 1]))
            && (st.heart.pc.Sleeping? || st.heart.pc.Top? || st.heart.pc.Ready? ==> AllAnswered(st, pings))
  {
    ReachedHistory(st, steps);
    if AllAnswered(st, Pings(steps)) {
      FewerAnswered(st, Pings(steps));
    }
  }

  // ----- pings are pings --------------------------------------------------------------------

  ghost predicate AsksPing(st: State, c: CallId) {
    c in st.calls && st.calls[c].request.fn == "AgentPing"
  }

  lemma StepAsks(st: State, step: Step, next: State)
    requires Try(st, step) == Some(next)
    ensures RpcShutdown.CallsStay(st, next)
    ensures forall c :: c in PingOf(step) ==> AsksPing(next, c)
  {
    if step.OfDisc? {
      DiscCallsStay(st, step.d, step.disc, next);
    } else {
      RpcShutdown.OtherCalls(st, step, next);
    }
  }

  lemma DiscCallsStay(st: State, d: DiscId, step: DiscStep, next: State)
    requires TryDisc(st, d, step) == Some(next)
    ensures RpcShutdown.CallsStay(st, next)
  {
  }

  lemma {:induction false} AsksOn(st: State, steps: seq<Step>, end: State, c: CallId)
    requires Run(st, steps) == Some(end) && AsksPing(st, c)
    ensures AsksPing(end, c)
    decreases |steps|
  {
    if steps != [] {
      var next := Try(st, steps[0]).value;
      StepAsks(st, steps[0], next);
      AsksOn(next, steps[1..], end, c);
    }
  }

  /** Every ping a run starts is a call of the remote's ping function. */
  lemma {:induction false} PingsAsk(st: State, steps: seq<Step>, end: State, c: CallId)
    requires Run(st, steps) == Some(end) && c in Pings(steps)
    ensures AsksPing(end, c)
    decreases |steps|
  {
    if steps != [] {
      var next := Try(st, steps[0]).value;
      StepAsks(st, steps[0], next);
      if c in PingOf(steps[0]) {
        AsksOn(next, steps[1..], end, c);
      } else {
        PingsAsk(next, steps[1..], end, c);
      }
    }
  }

  // ----- the heartbeat beats on -------------------------------------------------------------

  lemma HeartStepLeads(st: State, step: HeartStep) returns (p: Path, next: State)
    requires TryHeart(st, step).Some?
    ensures next == TryHeart(st, step).value && p.Leads(st, HeartOnly, next) && |p.steps| == 1
  {
    next := TryHeart(st, step).value;
    p := Path([st, next], [OfHeart(step)]);
    OneStepLeads(st, OfHeart(step), HeartOnly, next);
  }

  /** What the heartbeat does next on its way to a ping. */
  function Approach(pc: HeartPc): HeartStep {
    match pc
    case Idle => Begin
    case Sleeping => Wake
    case _ => CheckRunning
  }

  function Distance(pc: HeartPc): nat {
    match pc
    case Idle => 5
    case Sleeping => 5
    case Top => 4
    case Entry => 3
    case Second => 2
    case _ => 1
  }

  predicate Approaching(pc: HeartPc) {
    pc.Idle? || pc.Sleeping? || pc.Top? || pc.Entry? || pc.Second? || pc.Ready?
  }

  lemma {:induction false} ApproachLeads(st: State) returns (p: Path, end: State)
    requires st.running && Approaching(st.heart.pc)
    ensures p.Leads(st, HeartOnly, end) && end == HeartAt(st, Ready) && |p.steps| < Distance(st.heart.pc)
    decreases Distance(st.heart.pc)
  {
    if st.heart.pc.Ready? {
      p, end := Here(st), st;
    } else {
      var next, more;
      p, next := HeartStepLeads(st, Approach(st.heart.pc));
      more, end := ApproachLeads(next);
      p.ThenLeads(st, HeartOnly, next, more, end);
      p := p.Then(more);
    }
  }

  lemma PingEffect(st: State, c: CallId, request: Request, ch: Chan)
    requires st.heart.pc == Ready && c !in st.calls && WellFormed(request) && request.fn == PING
    requires forall b :: b in st.calls ==> st.calls[b].request.uuid != request.uuid && st.calls[b].ch != ch
    ensures TryHeart(st, StartPing(c, request, ch)) ==
            Some(st.(heart := Heart(Pinging(c), st.heart.pings + 1), calls := st.calls[c := Call(request, ch, Drawn)]))
  {
  }

  /** While the agent runs, a heartbeat that is not busy with a ping gets to its next one by itself. */
  lemma HeartBeatsOn(st: State) returns (p: Path, end: State)
    requires st.running && Approaching(st.heart.pc)
    ensures p.Leads(st, HeartOnly, end) && Run(st, p.steps) == Some(end) && |p.steps| <= 5
    ensures end.heart.pc.Pinging? && end.heart.pc.c in end.calls && end.calls[end.heart.pc.c].request.fn == PING
  {
    var ready, more;
    p, ready := ApproachLeads(st);
    var c, close, ch := FreshCall(ready.calls);
    PingEffect(ready, c, close.(fn := PING), ch);
    more, end := HeartStepLeads(ready, StartPing(c, close.(fn := PING), ch));
    p.ThenLeads(st, HeartOnly, ready, more, end);
    p := p.Then(more);
    PathRuns(p, st, HeartOnly, end);
  }

  /** A ping whose call has ended is judged next. */
  lemma PingsAreJudged(st: State, steps: seq<Step>)
    requires Reached(st, steps) && st.heart.pc.Pinging?
    ensures st.heart.pc.c in st.calls
    ensures st.calls[st.heart.pc.c].pc.Ended? <==> TryHeart(st, PingReturned).Some?
    ensures TryHeart(st, PingReturned).Some? ==> TryHeart(st, PingReturned) == Some(HeartAt(st, After(st.heart.pc.c)))
  {
    ReachedHistory(st, steps);
  }
}
