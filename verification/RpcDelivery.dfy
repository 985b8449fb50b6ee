/**
 Answers do arrive: whatever the remote answers to a waiting call can be brought to it by the decoder
 loop and a deliverer alone, and every result the loop decodes goes to a deliverer of its own.
 */
module RpcDelivery {
  import opened Wrappers
  import opened Frames
  import opened Rpc
  import opened RpcInvariants
  import opened RpcPreservation
  import opened RpcTheorems
  import opened RpcProgress

  // ----- one round of the loop --------------------------------------------------------------

  lemma LoopStepLeads(st: State, step: LoopStep) returns (p: Path, next: State)
    requires TryLoop(st, step).Some? && !step.Fails?
    ensures next == TryLoop(st, step).value && p.Leads(st, Delivery, next)
  {
    next := TryLoop(st, step).value;
    p := Path([st, next], [OfLoop(step)]);
    OneStepLeads(st, OfLoop(step), Delivery, next);
  }

  /** What stands after the loop has taken the head of `back` and started deliverer `s` for it. */
  function Handed(st: State, s: SenderId): State
    requires st.remote.back != []
  {
    st.(loop := Loop(AtTest, st.loop.spawned + 1),
        senders := st.senders[s := Deliver(st.remote.back[0])],
        remote := st.remote.(back := st.remote.back[1..]))
  }

  lemma DecodingLeads(st: State) returns (p: Path, next: State)
    requires st.running && (st.loop.pc.AtTest? || st.loop.pc.InDecode?)
    ensures p.Leads(st, Delivery, next) && next == LoopAt(st, InDecode)
  {
    if st.loop.pc.AtTest? {
      p, next := LoopStepLeads(st, Test);
    } else {
      p, next := Here(st), st;
    }
  }

  /** A running loop takes the next result and starts a deliverer for it. */
  lemma RoundLeads(st: State) returns (p: Path, s: SenderId, next: State)
    requires st.running && (st.loop.pc.AtTest? || st.loop.pc.InDecode?) && st.remote.back != []
    ensures s !in st.senders && next == Handed(st, s) && p.Leads(st, Delivery, next)
  {
    var decoding, handling, more;
    p, decoding := DecodingLeads(st);
    more, handling := LoopStepLeads(decoding, LoopStep.Result);
    p.ThenLeads(st, Delivery, decoding, more, handling);
    p := p.Then(more);
    s := FreshId(st.senders.Keys);
    more, next := LoopStepLeads(handling, Spawn(s));
    p.ThenLeads(st, Delivery, handling, more, next);
    p := p.Then(more);
  }

  /** Only the loop, deliverers and what is on its way back have changed, and the loop is at its test. */
  ghost predicate Delivering(st: State, end: State) {
    && end == st.(loop := end.loop, senders := end.senders, remote := st.remote.(back := end.remote.back))
    && (end.loop.pc.AtTest? || end.loop.pc.InDecode?)
  }

  /** A running loop gets to any of the results on their way back. */
  lemma {:induction false} RoundsLead(st: State, i: nat) returns (p: Path, end: State)
    requires st.running && (st.loop.pc.AtTest? || st.loop.pc.InDecode?) && i < |st.remote.back|
    ensures p.Leads(st, Delivery, end) && Delivering(st, end) && end.remote.back == st.remote.back[i..]
    decreases i
  {
    if i == 0 {
      p, end := Here(st), st;
      assert st.remote.back[0..] == st.remote.back;
    } else {
      var s, next, more;
      p, s, next := RoundLeads(st);
      more, end := RoundsLead(next, i - 1);
      p.ThenLeads(st, Delivery, next, more, end);
      p := p.Then(more);
      assert st.remote.back[1..][i - 1..] == st.remote.back[i..];
    }
  }

  lemma SendStepLeads(st: State, s: SenderId, step: SendStep) returns (p: Path, next: State)
    requires TrySender(st, s, step).Some? && st.senders[s].kind.Deliverer? && (step.Load? || step.Meet?)
    ensures next == TrySender(st, s, step).value && p.Leads(st, Delivery, next)
  {
    next := TrySender(st, s, step).value;
    p := Path([st, next], [OfSender(s, step)]);
    OneStepLeads(st, OfSender(s, step), Delivery, next);
  }

  /** A fresh deliverer loads the channel of the call it is for, and gives it the message. */
  lemma HandOver(st: State, s: SenderId, c: CallId) returns (p: Path, end: State)
    requires s in st.senders && c in st.calls && st.senders[s] == Deliver(st.senders[s].msg)
    requires st.senders[s].msg.uuid != "" && st.senders[s].msg.uuid in st.inFlight
    requires st.inFlight[st.senders[s].msg.uuid] == st.calls[c].ch && st.calls[c].pc == Waiting
    ensures p.Leads(st, Delivery, end) && c in end.calls
    ensures end.calls[c] == st.calls[c].(pc := Leaving(Received(st.senders[s].msg, true)))
  {
    var loaded, more;
    p, loaded := SendStepLeads(st, s, Load);
    more, end := SendStepLeads(loaded, s, Meet(c, true));
    p.ThenLeads(st, Delivery, loaded, more, end);
    p := p.Then(more);
  }

  lemma DeliverFrom(st: State, c: CallId, i: nat) returns (p: Path, end: State)
    requires st.running && (st.loop.pc.AtTest? || st.loop.pc.InDecode?) && i < |st.remote.back|
    requires c in st.calls && st.calls[c].pc == Waiting
    requires st.remote.back[i].uuid == st.calls[c].request.uuid != ""
    requires st.calls[c].request.uuid in st.inFlight && st.inFlight[st.calls[c].request.uuid] == st.calls[c].ch
    ensures p.Leads(st, Delivery, end) && c in end.calls
    ensures end.calls[c] == st.calls[c].(pc := Leaving(Received(st.remote.back[i], true)))
  {
    var near, s, handed, more;
    p, near := RoundsLead(st, i);
    more, s, handed := RoundLeads(near);
    p.ThenLeads(st, Delivery, near, more, handed);
    p := p.Then(more);
    assert handed.senders[s] == Deliver(st.remote.back[i]);
    more, end := HandOver(handed, s, c);
    p.ThenLeads(st, Delivery, handed, more, end);
    p := p.Then(more);
  }

  lemma WaitingIsRegistered(st: State, steps: seq<Step>, c: CallId)
    requires Reached(st, steps) && c in st.calls && st.calls[c].pc == Waiting
    ensures st.calls[c].request.uuid != ""
    ensures st.calls[c].request.uuid in st.inFlight && st.inFlight[st.calls[c].request.uuid] == st.calls[c].ch
  {
    ReachedIsGood(st, steps);
  }

  /**
   Delivery: while the agent runs and its loop is at its test or decoding, any answer on its way back
   can be brought to the waiting call it is for by steps of the loop and of deliverers alone, with no
   decode error, no timeout and no ended context; and it is that very answer that the call takes.
   */
  lemma AnswersArrive(st: State, steps: seq<Step>, c: CallId, i: nat) returns (p: Path, end: State)
    requires Reached(st, steps) && st.running && (st.loop.pc.AtTest? || st.loop.pc.InDecode?)
    requires c in st.calls && st.calls[c].pc == Waiting
    requires i < |st.remote.back| && st.remote.back[i].uuid == st.calls[c].request.uuid
    ensures p.Leads(st, Delivery, end) && Run(st, p.steps) == Some(end)
    ensures c in end.calls && end.calls[c].pc == Leaving(Received(st.remote.back[i], true))
    ensures st.remote.back[i].Answer? && !st.remote.back[i].faulty
  {
    WaitingIsRegistered(st, steps, c);
    p, end := DeliverFrom(st, c, i);
    PathRuns(p, st, Delivery, end);
    RunClean(START, steps, st);
  }

  // ----- every result goes to a deliverer ---------------------------------------------------

  /** What is on its way back is clean; only the local decoder makes an answer faulty. */
  ghost predicate CleanBack(st: State) {
    && (forall m :: m in st.remote.back ==> m.Answer? && !m.faulty)
    && (st.loop.pc.Failed? && st.loop.pc.res.Some? ==> st.loop.pc.res.value.Answer? && st.loop.pc.res.value.faulty)
  }

  lemma LoopClean(st: State, step: LoopStep, next: State)
    requires CleanBack(st) && TryLoop(st, step) == Some(next)
    ensures CleanBack(next)
  {
  }

  lemma SameBackClean(st: State, next: State)
    requires CleanBack(st) && next.remote.back == st.remote.back && next.loop == st.loop
    ensures CleanBack(next)
  {
  }

  lemma RemoteClean(st: State, step: RemoteStep, next: State)
    requires CleanBack(st) && TryRemote(st, step) == Some(next)
    ensures CleanBack(next)
  {
    RemoteEffect(st, step, next);
  }

  /** Steps of others leave the loop and what is on its way back to it alone. */
  lemma OthersLeaveLoop(st: State, step: Step, next: State)
    requires Try(st, step) == Some(next) && !step.OfLoop? && !step.OfRemote?
    ensures next.loop == st.loop && next.remote == st.remote
  {
    match step
    case OfCall(c, call) => CallEffect(st, c, call, next);
    case OfSender(s, send) => SenderEffect(st, s, send, next);
    case OfHeart(heart) =>
      if !heart.StartPing? {
        HeartEffect(st, heart, next);
      }
    case _ =>
  }

  lemma StepClean(st: State, step: Step, next: State)
    requires CleanBack(st) && Try(st, step) == Some(next)
    ensures CleanBack(next)
  {
    match step
    case OfLoop(loop) => LoopClean(st, loop, next);
    case OfRemote(remote) => RemoteClean(st, remote, next);
    case _ =>
      OthersLeaveLoop(st, step, next);
      SameBackClean(st, next);
  }

  lemma {:induction false} RunClean(st: State, steps: seq<Step>, end: State)
    requires CleanBack(st) && Run(st, steps) == Some(end)
    ensures CleanBack(end)
    decreases |steps|
  {
    if steps != [] {
      var next := Try(st, steps[0]).value;
      StepClean(st, steps[0], next);
      RunClean(next, steps[1..], end);
    }
  }

  /** The results a run's loop decodes without an error, in order: what `Result` takes off the wire. */
  function Decoded(st: State, steps: seq<Step>): seq<Msg>
    decreases |steps|
  {
    if steps == [] then [] else
    match Try(st, steps[0])
    case None => []
    case Some(next) =>
      (if steps[0] == OfLoop(Result) && st.remote.back != [] then [st.remote.back[0]] else [])
      + Decoded(next, steps[1..])
  }

  /** The clean messages of the deliverers a run's loop starts, in order. */
  function Started(st: State, steps: seq<Step>): seq<Msg>
    decreases |steps|
  {
    if steps == [] then [] else
    match Try(st, steps[0])
    case None => []
    case Some(next) => CleanStart(st, steps[0], next) + Started(next, steps[1..])
  }

  function CleanStart(st: State, step: Step, next: State): seq<Msg> {
    if step.OfLoop? && step.loop.Spawn? && step.loop.s !in st.senders && step.loop.s in next.senders
       && next.senders[step.loop.s] == Deliver(next.senders[step.loop.s].msg) && Clean(next.senders[step.loop.s].msg)
    then [next.senders[step.loop.s].msg]
    else []
  }

  predicate Clean(m: Msg) {
    m.Answer? && !m.faulty
  }

  /** The clean result the loop has in hand, if any. */
  function InHand(st: State): seq<Msg> {
    if st.loop.pc.Handling? && Clean(st.loop.pc.msg) then [st.loop.pc.msg] else []
  }

  lemma LoopHandsOn(st: State, step: LoopStep, next: State)
    requires CleanBack(st) && TryLoop(st, step) == Some(next)
    ensures InHand(st) + (if step.Result? && st.remote.back != [] then [st.remote.back[0]] else []) ==
            CleanStart(st, OfLoop(step), next) + InHand(next)
  {
  }

  lemma StepHandsOn(st: State, step: Step, next: State)
    requires CleanBack(st) && Try(st, step) == Some(next)
    ensures InHand(st) + (if step == OfLoop(Result) && st.remote.back != [] then [st.remote.back[0]] else []) ==
            CleanStart(st, step, next) + InHand(next)
  {
    match step
    case OfLoop(loop) => LoopHandsOn(st, loop, next);
    case OfRemote(remote) => RemoteEffect(st, remote, next);
    case _ => OthersLeaveLoop(st, step, next);
  }

  lemma {:induction false} RunHandsOn(st: State, steps: seq<Step>, end: State)
    requires CleanBack(st) && Run(st, steps) == Some(end)
    ensures InHand(st) + Decoded(st, steps) == Started(st, steps) + InHand(end)
    decreases |steps|
  {
    if steps != [] {
      var next := Try(st, steps[0]).value;
      StepHandsOn(st, steps[0], next);
      StepClean(st, steps[0], next);
      RunHandsOn(next, steps[1..], end);
      Regroup(InHand(st), if steps[0] == OfLoop(Result) && st.remote.back != [] then [st.remote.back[0]] else [],
              CleanStart(st, steps[0], next), InHand(next), Decoded(next, steps[1..]), Started(next, steps[1..]),
              InHand(end));
    }
  }

  lemma Regroup(hand: seq<Msg>, got: seq<Msg>, start: seq<Msg>, next: seq<Msg>, more: seq<Msg>, later: seq<Msg>, end: seq<Msg>)
    requires hand + got == start + next && next + more == later + end
    ensures hand + (got + more) == (start + later) + end
  {
    assert hand + (got + more) == (hand + got) + more;
    assert (start + next) + more == start + (next + more);
    assert start + (later + end) == (start + later) + end;
  }

  /**
   No result is lost between the decoder and the deliverers: in every run the results decoded without
   an error are, in order, the clean messages of the deliverers started, and the one in hand.
   */
  lemma ResultsAreDelivered(st: State, steps: seq<Step>)
    requires Reached(st, steps)
    ensures Decoded(START, steps) == Started(START, steps) + InHand(st)
  {
    RunHandsOn(START, steps, st);
    assert InHand(START) + Decoded(START, steps) == Decoded(START, steps);
  }

  // ----- results that decode with an error --------------------------------------------------

  /** The loop's step from a result kept in spite of a decode error to a deliverer for it. */
  lemma KeptIsHanded(st: State, m: Msg) returns (p: Path, s: SenderId, end: State)
    requires st.running && st.loop.pc == Failed(false, Some(m))
    ensures s !in st.senders && p.Leads(st, Delivery, end)
    ensures end == st.(loop := Loop(AtTest, st.loop.spawned + 1), senders := st.senders[s := Deliver(m)])
  {
    var handling, more;
    p, handling := LoopStepLeads(st, LoopStep.Check(0));
    s := FreshId(st.senders.Keys);
    more, end := LoopStepLeads(handling, Spawn(s));
    p.ThenLeads(st, Delivery, handling, more, end);
    p := p.Then(more);
  }

  lemma KeptAfter(st: State)
    requires st.loop.pc == InDecode && st.remote.back != [] && st.remote.back[0].Answer? && st.remote.back[0].uuid != ""
    ensures TryLoop(st, Fails(false, true, true)) ==
            Some(LoopAt(st, Failed(false, Some(st.remote.back[0].(faulty := true))))
                 .(remote := st.remote.(back := st.remote.back[1..])))
  {
  }

  /**
   A result that decodes with an error is not lost, if its UUID could be read: the same steps bring it,
   with the error in it, to the waiting call it is for.
   */
  lemma FaultyAnswersArrive(st: State, steps: seq<Step>, c: CallId) returns (failed: State, p: Path, end: State)
    requires Reached(st, steps) && st.running && st.loop.pc == InDecode
    requires c in st.calls && st.calls[c].pc == Waiting
    requires st.remote.back != [] && st.remote.back[0].uuid == st.calls[c].request.uuid
    ensures TryLoop(st, Fails(false, true, true)) == Some(failed) && p.Leads(failed, Delivery, end)
    ensures st.remote.back[0].Answer? && c in end.calls
    ensures end.calls[c].pc == Leaving(Received(st.remote.back[0].(faulty := true), true))
  {
    WaitingIsRegistered(st, steps, c);
    RunClean(START, steps, st);
    KeptAfter(st);
    failed := TryLoop(st, Fails(false, true, true)).value;
    var s, handed, more;
    p, s, handed := KeptIsHanded(failed, st.remote.back[0].(faulty := true));
    more, end := HandOver(handed, s, c);
    p.ThenLeads(failed, Delivery, handed, more, end);
    p := p.Then(more);
  }
}
