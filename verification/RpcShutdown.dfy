/**
 What a stop reaches: every call that was registered before a Disconnect ranged over them, a decoder
 loop that has met the end of its stream, and a Disconnect that waits for that loop.
 */
module RpcShutdown {
  import opened Wrappers
  import opened Frames
  import opened Rpc
  import opened RpcInvariants
  import opened RpcPreservation
  import opened RpcRefinement
  import opened RpcTheorems
  import opened RpcProgress

  // ----- the decoder loop's end -------------------------------------------------------------

  predicate Ending(pc: LoopPc) {
    pc.Disconnecting? || pc.Returned? || (pc.Failed? && pc.eof)
  }

  /** The loop does not leave while the agent runs, and an own Disconnect that is past its stop has stopped it. */
  ghost predicate LeavesStopped(st: State) {
    && (st.loop.pc.Returned? ==> !st.running)
    && (forall d :: d in st.discs && st.discs[d].pc != Entered ==> !st.running)
  }

  lemma DiscStops(st: State, d: DiscId, step: DiscStep, next: State)
    requires LeavesStopped(st) && TryDisc(st, d, step) == Some(next)
    ensures LeavesStopped(next)
  {
  }

  lemma LoopStops(st: State, step: LoopStep, next: State)
    requires LeavesStopped(st) && TryLoop(st, step) == Some(next)
    ensures LeavesStopped(next)
  {
    LoopEffect(st, step, next);
  }

  lemma HeartStops(st: State, step: HeartStep, next: State)
    requires LeavesStopped(st) && TryHeart(st, step) == Some(next)
    ensures LeavesStopped(next)
  {
    if !step.StartPing? {
      HeartEffect(st, step, next);
    }
  }

  lemma StepStops(st: State, step: Step, next: State)
    requires LeavesStopped(st) && Try(st, step) == Some(next)
    ensures LeavesStopped(next)
  {
    match step
    case OfDisc(d, disc) => DiscStops(st, d, disc, next);
    case OfLoop(loop) => LoopStops(st, loop, next);
    case OfHeart(heart) => HeartStops(st, heart, next);
    case OfCall(c, call) => CallEffect(st, c, call, next);
    case OfSender(s, send) => SenderEffect(st, s, send, next);
    case OfRemote(remote) => RemoteEffect(st, remote, next);
    case NewCall(_, _, _) =>
    case NewDisconnect(_, _) =>
  }

  lemma {:induction false} RunStops(st: State, steps: seq<Step>, end: State)
    requires LeavesStopped(st) && Run(st, steps) == Some(end)
    ensures LeavesStopped(end)
    decreases |steps|
  {
    if steps != [] {
      var next := Try(st, steps[0]).value;
      StepStops(st, steps[0], next);
      RunStops(next, steps[1..], end);
    }
  }

  /** The decoder loop never leaves a running agent behind. */
  lemma LoopLeavesOnlyStopped(st: State, steps: seq<Step>)
    requires Reached(st, steps) && st.loop.pc.Returned?
    ensures !st.running
  {
    RunStops(START, steps, st);
  }

  lemma EndingStep(st: State, step: Step, next: State)
    requires Try(st, step) == Some(next) && Ending(st.loop.pc) && (st.loop.pc.Failed? ==> st.loop.pc.res.None?)
    ensures Ending(next.loop.pc) && (next.loop.pc.Failed? ==> next.loop.pc.res.None?)
    ensures next.loop.spawned == st.loop.spawned
  {
    match step
    case OfLoop(_) =>
    case OfDisc(d, disc) => DiscKeepsWait(st, d, disc, next);
    case OfCall(c, call) => CallEffect(st, c, call, next);
    case OfSender(s, send) => SenderEffect(st, s, send, next);
    case OfHeart(heart) =>
      if !heart.StartPing? {
        HeartEffect(st, heart, next);
      }
    case _ =>
  }

  /** The end of the stream is final: the loop decodes nothing more and starts no more deliverers. */
  lemma {:induction false} EndOfStreamIsFinal(st: State, steps: seq<Step>, end: State)
    requires Run(st, steps) == Some(end) && Ending(st.loop.pc) && (st.loop.pc.Failed? ==> st.loop.pc.res.None?)
    ensures Ending(end.loop.pc) && end.loop.spawned == st.loop.spawned
    decreases |steps|
  {
    if steps != [] {
      var next := Try(st, steps[0]).value;
      EndingStep(st, steps[0], next);
      EndOfStreamIsFinal(next, steps[1..], end);
    }
  }

  /** And the loop's next look at it makes it leave, if the agent was stopped, or stop the agent. */
  lemma EndOfStreamStops(st: State, d: DiscId)
    requires st.loop.pc == Failed(true, None) && d !in st.discs
    ensures var next := TryLoop(st, Check(d));
            && next.Some?
            && (!st.running ==> next.value.loop.pc == Returned)
            && (st.running ==> next.value.loop.pc == Disconnecting(d) && d in next.value.discs
                               && TryDisc(next.value, d, Stop).Some? && !TryDisc(next.value, d, Stop).value.running)
  {
  }

  // ----- a Disconnect that waited -----------------------------------------------------------

  /** A waiting Disconnect is over only if its context has ended or the decoder loop has returned. */
  ghost predicate WaitedOut(st: State) {
    forall d :: d in st.discs && st.discs[d].pc == Finished && st.discs[d].wait && !st.discs[d].ctxDone ==>
      st.loop.pc == Returned
  }

  lemma DiscWaits(st: State, d: DiscId, step: DiscStep, next: State)
    requires WaitedOut(st) && TryDisc(st, d, step) == Some(next)
    ensures WaitedOut(next)
  {
  }

  lemma LoopWaits(st: State, step: LoopStep, next: State)
    requires WaitedOut(st) && TryLoop(st, step) == Some(next)
    ensures WaitedOut(next)
  {
    LoopEffect(st, step, next);
  }

  lemma HeartWaits(st: State, step: HeartStep, next: State)
    requires WaitedOut(st) && TryHeart(st, step) == Some(next)
    ensures WaitedOut(next)
  {
    if !step.StartPing? {
      HeartEffect(st, step, next);
    }
  }

  lemma StepWaits(st: State, step: Step, next: State)
    requires WaitedOut(st) && Try(st, step) == Some(next)
    ensures WaitedOut(next)
  {
    match step
    case OfDisc(d, disc) => DiscWaits(st, d, disc, next);
    case OfLoop(loop) => LoopWaits(st, loop, next);
    case OfHeart(heart) => HeartWaits(st, heart, next);
    case OfCall(c, call) => CallEffect(st, c, call, next);
    case OfSender(s, send) => SenderEffect(st, s, send, next);
    case OfRemote(remote) => RemoteEffect(st, remote, next);
    case NewCall(_, _, _) =>
    case NewDisconnect(_, _) =>
  }

  lemma {:induction false} RunWaits(st: State, steps: seq<Step>, end: State)
    requires WaitedOut(st) && Run(st, steps) == Some(end)
    ensures WaitedOut(end)
    decreases |steps|
  {
    if steps != [] {
      var next := Try(st, steps[0]).value;
      StepWaits(st, steps[0], next);
      RunWaits(next, steps[1..], end);
    }
  }

  /** A waiting Disconnect that is over with its context not done has seen the decoder loop return. */
  lemma WaitSeesTheLoopReturn(st: State, steps: seq<Step>, d: DiscId)
    requires Reached(st, steps) && d in st.discs && st.discs[d].wait && !st.discs[d].ctxDone
    requires st.discs[d].pc == Finished
    ensures st.loop.pc == Returned && !st.running
  {
    RunWaits(START, steps, st);
    LoopLeavesOnlyStopped(st, steps);
  }

  // ----- whom a Disconnect tells ------------------------------------------------------------

  predicate BeforeRange(pc: DiscPc) {
    pc.Entered? || pc.Stopped? || pc.Closing?
  }

  /** `u` is registered before the range, or in what the range began with. */
  predicate Owed(st: State, d: DiscId, u: string) {
    d in st.discs && if BeforeRange(st.discs[d].pc) then u in st.inFlight else u in st.discs[d].snap
  }

  lemma DiscOwes(st: State, e: DiscId, step: DiscStep, next: State, d: DiscId, u: string)
    requires Owed(st, d, u) && TryDisc(st, e, step) == Some(next)
    ensures Owed(next, d, u)
  {
  }

  lemma StepOwes(st: State, step: Step, next: State, d: DiscId, u: string)
    requires Registry(st.calls, st.inFlight) && Owed(st, d, u) && Try(st, step) == Some(next)
    ensures Owed(next, d, u)
  {
    match step
    case OfDisc(e, disc) => DiscOwes(st, e, disc, next, d, u);
    case OfCall(c, call) =>
      CallEffect(st, c, call, next);
      CallGrows(st, c, call, next);
    case OfLoop(loop) => LoopEffect(st, loop, next);
    case OfSender(s, send) => SenderEffect(st, s, send, next);
    case OfRemote(remote) => RemoteEffect(st, remote, next);
    case OfHeart(heart) =>
      if !heart.StartPing? {
        HeartEffect(st, heart, next);
      }
    case NewCall(_, _, _) =>
    case NewDisconnect(_, _) =>
  }

  lemma OweStep(st: State, steps: seq<Step>, end: State, d: DiscId, u: string) returns (next: State)
    requires Good(st) && Owed(st, d, u) && steps != [] && Run(st, steps) == Some(end)
    ensures Good(next) && Owed(next, d, u) && Run(next, steps[1..]) == Some(end)
  {
    next := FirstStep(st, steps, end);
    StepOwes(st, steps[0], next, d, u);
  }

  lemma {:induction false} RunOwes(st: State, steps: seq<Step>, end: State, d: DiscId, u: string)
    requires Good(st) && Owed(st, d, u) && Run(st, steps) == Some(end)
    ensures Owed(end, d, u)
    decreases |steps|
  {
    if steps != [] {
      var next := OweStep(st, steps, end, d, u);
      RunOwes(next, steps[1..], end, d, u);
    }
  }

  /**
   Shutdown completeness, without a word of snapshots: a call that is registered before a waiting
   Disconnect begins to range over the channels has, once that Disconnect is past its notify loop with
   its context not done, taken a message or closed its channel.
   */
  lemma RegisteredCallsAreServed(st: State, before: seq<Step>, steps: seq<Step>, end: State, d: DiscId, c: CallId)
    requires Reached(st, before) && Run(st, steps) == Some(end)
    requires d in st.discs && BeforeRange(st.discs[d].pc)
    requires c in st.calls && Owns(st.calls, c, st.calls[c].request.uuid)
    requires d in end.discs && end.discs[d].wait && !end.discs[d].ctxDone
    requires end.discs[d].pc.Left? || end.discs[d].pc.Finished?
    ensures c in end.calls && Served(end.calls[c].pc)
  {
    ReachedIsGood(st, before);
    var u := st.calls[c].request.uuid;
    RunOwes(st, steps, end, d, u);
    RequestsStay(st, steps, end, c);
    ReachedTogether(st, before, steps, end);
    ShutdownIsComplete(end, before + steps, d);
  }

  lemma {:induction false} ReachedTogether(st: State, before: seq<Step>, steps: seq<Step>, end: State)
    requires Reached(st, before) && Run(st, steps) == Some(end)
    ensures Reached(end, before + steps)
  {
    RunAppend(START, before, st, steps);
  }

  lemma {:induction false} RunAppend(st: State, a: seq<Step>, mid: State, b: seq<Step>)
    requires Run(st, a) == Some(mid)
    ensures Run(st, a + b) == Run(mid, b)
    decreases |a|
  {
    if a == [] {
      assert a + b == b;
    } else {
      assert (a + b)[0] == a[0] && (a + b)[1..] == a[1..] + b;
      RunAppend(Try(st, a[0]).value, a[1..], mid, b);
    }
  }

  lemma RequestStep(st: State, step: Step, next: State, c: CallId)
    requires Try(st, step) == Some(next) && c in st.calls
    ensures c in next.calls && next.calls[c].request == st.calls[c].request
  {
    match step
    case OfDisc(d, disc) =>
    case OfCall(b, call) => CallEffect(st, b, call, next);
    case OfLoop(loop) => LoopEffect(st, loop, next);
    case OfSender(s, send) => MeetSameRequests(st, s, send, next);
    case OfRemote(remote) => RemoteEffect(st, remote, next);
    case OfHeart(heart) => HeartSameRequests(st, heart, next);
    case NewCall(_, _, _) =>
    case NewDisconnect(_, _) =>
  }

  lemma {:induction false} RequestsStay(st: State, steps: seq<Step>, end: State, c: CallId)
    requires Run(st, steps) == Some(end) && c in st.calls
    ensures c in end.calls && end.calls[c].request == st.calls[c].request
    decreases |steps|
  {
    if steps != [] {
      var next := Try(st, steps[0]).value;
      RequestStep(st, steps[0], next, c);
      RequestsStay(next, steps[1..], end, c);
    }
  }

  // ----- notices of a Disconnect that does not wait -----------------------------------------

  ghost predicate NoticeFor(st: State, u: string) {
    exists s :: s in st.senders && st.senders[s].kind == Notifier && st.senders[s].msg == ShutDown(u)
  }

  /** For each UUID it has dealt with, a Disconnect that does not wait has started a notifier. */
  ghost predicate Noticed(st: State) {
    forall d, u :: d in st.discs && !st.discs[d].wait && u in st.discs[d].seen ==> NoticeFor(st, u)
  }

  /** Senders stay what they are, except for their progress. */
  ghost predicate SendersStay(st: State, next: State) {
    forall s :: s in st.senders && st.senders[s].kind == Notifier ==>
      s in next.senders && next.senders[s].kind == Notifier && next.senders[s].msg == st.senders[s].msg
  }

  lemma NoticeStays(st: State, next: State, u: string)
    requires SendersStay(st, next) && NoticeFor(st, u)
    ensures NoticeFor(next, u)
  {
    var s :| s in st.senders && st.senders[s].kind == Notifier && st.senders[s].msg == ShutDown(u);
    assert s in next.senders;
  }

  lemma NoticedStays(st: State, next: State)
    requires Noticed(st) && SendersStay(st, next)
    requires forall d :: d in next.discs ==> next.discs[d].seen == {} || (d in st.discs && st.discs[d].wait == next.discs[d].wait
                                                                          && next.discs[d].seen == st.discs[d].seen)
    ensures Noticed(next)
  {
    forall d, u | d in next.discs && !next.discs[d].wait && u in next.discs[d].seen
      ensures NoticeFor(next, u)
    {
      NoticeStays(st, next, u);
    }
  }

  lemma PickNotices(st: State, d: DiscId, u: string, s: SenderId, next: State)
    requires Noticed(st) && TryDisc(st, d, Pick(u, s)) == Some(next)
    ensures Noticed(next)
  {
    forall e, v | e in next.discs && !next.discs[e].wait && v in next.discs[e].seen
      ensures NoticeFor(next, v)
    {
      if e == d && v == u {
        assert s in next.senders && next.senders[s].msg == ShutDown(u);
      } else {
        assert v in st.discs[e].seen;
        NoticeStays(st, next, v);
      }
    }
  }

  lemma NextWaits(st: State, d: DiscId, step: DiscStep, next: State)
    requires TryDisc(st, d, step) == Some(next) && !step.Pick?
    ensures SendersStay(st, next)
    ensures forall e :: e in next.discs ==> e in st.discs && st.discs[e].wait == next.discs[e].wait
                                            && ((step.Next? && e == d) || next.discs[e].seen == st.discs[e].seen)
  {
  }

  lemma DiscNotices(st: State, d: DiscId, step: DiscStep, next: State)
    requires Notices(st.senders, st.discs) && Noticed(st) && TryDisc(st, d, step) == Some(next)
    ensures Noticed(next)
  {
    if step.Pick? {
      PickNotices(st, d, step.uuid, step.s, next);
    } else {
      NextWaits(st, d, step, next);
      if step.Next? {
        assert st.discs[d].wait;
        forall e, v | e in next.discs && !next.discs[e].wait && v in next.discs[e].seen
          ensures NoticeFor(next, v)
        {
          NoticeStays(st, next, v);
        }
      } else {
        NoticedStays(st, next);
      }
    }
  }

  lemma SenderNotices(st: State, s: SenderId, step: SendStep, next: State)
    requires Noticed(st) && TrySender(st, s, step) == Some(next)
    ensures Noticed(next)
  {
    SenderEffect(st, s, step, next);
    NoticedStays(st, next);
  }

  lemma OtherNotices(st: State, step: Step, next: State)
    requires Noticed(st) && Try(st, step) == Some(next) && !step.OfDisc? && !step.OfSender?
    ensures Noticed(next)
  {
    match step {
      case OfCall(c, call) => CallEffect(st, c, call, next);
      case OfLoop(loop) => LoopEffect(st, loop, next);
      case OfHeart(heart) =>
        if !heart.StartPing? {
          HeartEffect(st, heart, next);
        }
      case OfRemote(remote) => RemoteEffect(st, remote, next);
      case _ =>
    }
    NoticedStays(st, next);
  }

  lemma NoticeStep(st: State, steps: seq<Step>, end: State) returns (next: State)
    requires Good(st) && Noticed(st) && steps != [] && Run(st, steps) == Some(end)
    ensures Good(next) && Noticed(next) && Run(next, steps[1..]) == Some(end)
  {
    next := FirstStep(st, steps, end);
    if steps[0].OfDisc? {
      DiscNotices(st, steps[0].d, steps[0].disc, next);
    } else if steps[0].OfSender? {
      SenderNotices(st, steps[0].s, steps[0].send, next);
    } else {
      OtherNotices(st, steps[0], next);
    }
  }

  lemma {:induction false} RunNotices(st: State, steps: seq<Step>, end: State)
    requires Good(st) && Noticed(st) && Run(st, steps) == Some(end)
    ensures Good(end) && Noticed(end)
    decreases |steps|
  {
    if steps != [] {
      var next := NoticeStep(st, steps, end);
      RunNotices(next, steps[1..], end);
    }
  }

  /**
   A Disconnect that does not wait, once past its range, has started a notifier for every call that
   was registered before the range.
   */
  lemma EveryCallIsNoticed(st: State, before: seq<Step>, steps: seq<Step>, end: State, d: DiscId, c: CallId)
    requires Reached(st, before) && Run(st, steps) == Some(end)
    requires d in st.discs && BeforeRange(st.discs[d].pc)
    requires c in st.calls && Owns(st.calls, c, st.calls[c].request.uuid)
    requires d in end.discs && !end.discs[d].wait && (end.discs[d].pc.Left? || end.discs[d].pc.Finished?)
    ensures NoticeFor(end, st.calls[c].request.uuid)
  {
    ReachedTogether(st, before, steps, end);
    NoticedWhenDone(end, before + steps, d);
    ReachedIsGood(st, before);
    RunOwes(st, steps, end, d, st.calls[c].request.uuid);
  }

  lemma NoticedWhenDone(st: State, steps: seq<Step>, d: DiscId)
    requires Reached(st, steps) && d in st.discs && !st.discs[d].wait && (st.discs[d].pc.Left? || st.discs[d].pc.Finished?)
    ensures forall u :: u in st.discs[d].snap ==> NoticeFor(st, u)
  {
    StartHolds();
    RunNotices(START, steps, st);
    assert ShutOwn(st.discs[d], st.calls, st.inFlight);
  }

  // ----- nobody waits past a time limit -----------------------------------------------------

  /** A sender inside a Disconnect whose context has ended. */
  predicate Abandoned(st: State, s: SenderId)
    requires s in st.senders
  {
    st.senders[s].kind.Inline? && st.senders[s].kind.d in st.discs && st.discs[st.senders[s].kind.d].ctxDone
  }

  /** A call that waits can give up, when its context ends, and a sender in a Disconnect or a notifier too. */
  lemma WaitsAreLimited(st: State)
    ensures forall c :: c in st.calls && st.calls[c].pc == Waiting ==>
              TryCall(st, c, CtxDone) == Some(At(st, c, Leaving(CtxEnded)))
    ensures forall s :: s in st.senders && st.senders[s].pc.Sending? && st.senders[s].kind == Notifier ==>
              TrySender(st, s, TimeOut).Some? && TrySender(st, s, TimeOut).value.senders[s].pc == Done(Expired)
    ensures forall s :: s in st.senders && st.senders[s].pc.Sending? && Abandoned(st, s) ==>
              TrySender(st, s, CtxGivesUp).Some? && TrySender(st, s, CtxGivesUp).value.senders[s].pc == Done(Expired)
  {
  }

  // ----- the remote is told -----------------------------------------------------------------

  ghost predicate HasClosed(calls: map<CallId, Call>) {
    exists c :: c in calls && calls[c].request.fn == "Close" && calls[c].pc.Ended?
  }

  /** A Disconnect makes a `Close` call, and goes on when a `Close` call has ended. */
  ghost predicate ClosingOwn(pc: DiscPc, calls: map<CallId, Call>) {
    match pc
    case Entered => true
    case Stopped => true
    case Closing(c) => c in calls && calls[c].request.fn == "Close"
    case _ => HasClosed(calls)
  }

  ghost predicate ClosingAll(st: State) {
    forall d :: d in st.discs ==> ClosingOwn(st.discs[d].pc, st.calls)
  }

  /** No call changes its request, and ended calls stay ended. */
  ghost predicate CallsStay(st: State, next: State) {
    forall c :: c in st.calls ==> c in next.calls && next.calls[c].request == st.calls[c].request
                                  && (st.calls[c].pc.Ended? ==> next.calls[c].pc.Ended?)
  }

  lemma OwnStays(st: State, next: State, pc: DiscPc)
    requires CallsStay(st, next) && ClosingOwn(pc, st.calls)
    ensures ClosingOwn(pc, next.calls)
  {
    if HasClosed(st.calls) {
      var c :| c in st.calls && st.calls[c].request.fn == "Close" && st.calls[c].pc.Ended?;
      assert c in next.calls;
    }
  }

  lemma AllStay(st: State, next: State)
    requires CallsStay(st, next) && ClosingAll(st)
    requires forall d :: d in next.discs ==> next.discs[d].pc == Entered || (d in st.discs && next.discs[d].pc == st.discs[d].pc)
    ensures ClosingAll(next)
  {
    forall d | d in next.discs
      ensures ClosingOwn(next.discs[d].pc, next.calls)
    {
      if next.discs[d].pc != Entered {
        OwnStays(st, next, st.discs[d].pc);
      }
    }
  }

  /** A Disconnect's own step: calls stay, and so does where all other Disconnects stand. */
  lemma DiscCloses(st: State, d: DiscId, step: DiscStep, next: State)
    requires TryDisc(st, d, step) == Some(next) && ClosingAll(st)
    ensures CallsStay(st, next) && d in next.discs
    ensures forall e :: e in next.discs && e != d ==> e in st.discs && next.discs[e].pc == st.discs[e].pc
    ensures ClosingOwn(next.discs[d].pc, next.calls)
  {
    assert ClosingOwn(st.discs[d].pc, st.calls);
  }

  lemma DiscStepCloses(st: State, d: DiscId, step: DiscStep, next: State)
    requires TryDisc(st, d, step) == Some(next) && ClosingAll(st)
    ensures ClosingAll(next)
  {
    DiscCloses(st, d, step, next);
    forall e | e in next.discs
      ensures ClosingOwn(next.discs[e].pc, next.calls)
    {
      if e != d {
        OwnStays(st, next, st.discs[e].pc);
      }
    }
  }

  lemma SenderCalls(st: State, s: SenderId, step: SendStep, next: State)
    requires TrySender(st, s, step) == Some(next)
    ensures CallsStay(st, next) && next.discs == st.discs
  {
    SenderEffect(st, s, step, next);
  }

  lemma HeartCalls(st: State, step: HeartStep, next: State)
    requires TryHeart(st, step) == Some(next)
    ensures CallsStay(st, next)
    ensures forall d :: d in next.discs ==> next.discs[d].pc == Entered || (d in st.discs && next.discs[d].pc == st.discs[d].pc)
  {
    if !step.StartPing? {
      HeartEffect(st, step, next);
    }
  }

  lemma OtherCalls(st: State, step: Step, next: State)
    requires Try(st, step) == Some(next) && !step.OfDisc?
    ensures CallsStay(st, next)
    ensures forall d :: d in next.discs ==> next.discs[d].pc == Entered || (d in st.discs && next.discs[d].pc == st.discs[d].pc)
  {
    match step
    case OfLoop(loop) => LoopEffect(st, loop, next);
    case OfHeart(heart) => HeartCalls(st, heart, next);
    case OfCall(c, call) => CallEffect(st, c, call, next);
    case OfSender(s, send) => SenderCalls(st, s, send, next);
    case OfRemote(remote) => RemoteEffect(st, remote, next);
    case NewCall(_, _, _) =>
    case NewDisconnect(_, _) =>
  }

  lemma {:induction false} RunCloses(st: State, steps: seq<Step>, end: State)
    requires ClosingAll(st) && Run(st, steps) == Some(end)
    ensures ClosingAll(end)
    decreases |steps|
  {
    if steps != [] {
      var next := Try(st, steps[0]).value;
      if steps[0].OfDisc? {
        DiscStepCloses(st, steps[0].d, steps[0].disc, next);
      } else {
        OtherCalls(st, steps[0], next);
        AllStay(st, next);
      }
      RunCloses(next, steps[1..], end);
    }
  }

  lemma ClosedOrRefused(st: State, steps: seq<Step>, c: CallId)
    requires Reached(st, steps) && c in st.calls && st.calls[c].request.fn == "Close" && st.calls[c].pc.Ended?
    ensures st.calls[c].pc == Ended(Closed) || st.calls[c].pc == Ended(EncodeFailed)
    ensures st.calls[c].pc == Ended(Closed) ==> c in st.enc.owners
  {
    ReachedIsGood(st, steps);
  }

  /**
   The remote is told: past its notify loop, or in it, a Disconnect has seen a `Close` call end, whose
   frame stands whole on the wire unless the encoder failed.
   */
  lemma DisconnectsClose(st: State, steps: seq<Step>, d: DiscId) returns (c: CallId)
    requires Reached(st, steps) && d in st.discs
    requires !st.discs[d].pc.Entered? && !st.discs[d].pc.Stopped? && !st.discs[d].pc.Closing?
    ensures c in st.calls && st.calls[c].request.fn == "Close"
    ensures st.calls[c].pc == Ended(EncodeFailed) || (st.calls[c].pc == Ended(Closed) && c in st.enc.owners)
  {
    RunCloses(START, steps, st);
    assert ClosingOwn(st.discs[d].pc, st.calls);
    c :| c in st.calls && st.calls[c].request.fn == "Close" && st.calls[c].pc.Ended?;
    ClosedOrRefused(st, steps, c);
  }

  // ----- a notifier's patience --------------------------------------------------------------

  predicate NotifierOwn(sender: Sender) {
    sender.kind.Notifier? ==> sender.blocked == if sender.pc == Done(Expired) then 1_000_000_000 else 0
  }

  ghost predicate NotifierWaits(senders: map<SenderId, Sender>) {
    forall s :: s in senders ==> NotifierOwn(senders[s])
  }

  lemma SenderWaits(st: State, s: SenderId, step: SendStep, next: State)
    requires NotifierWaits(st.senders) && TrySender(st, s, step) == Some(next)
    ensures s in next.senders && next.senders == st.senders[s := next.senders[s]] && NotifierOwn(next.senders[s])
  {
  }

  lemma NewWaits(st: State, step: Step, next: State)
    requires NotifierWaits(st.senders) && Try(st, step) == Some(next) && !step.OfSender?
    ensures NotifierWaits(next.senders)
  {
    match step
    case OfLoop(loop) => LoopEffect(st, loop, next);
    case OfDisc(d, disc) =>
    case OfHeart(heart) => if !heart.StartPing? { HeartEffect(st, heart, next); }
    case OfCall(c, call) => CallEffect(st, c, call, next);
    case OfRemote(remote) => RemoteEffect(st, remote, next);
    case _ =>
  }

  lemma {:induction false} RunNotifiers(st: State, steps: seq<Step>, end: State)
    requires NotifierWaits(st.senders) && Run(st, steps) == Some(end)
    ensures NotifierWaits(end.senders)
    decreases |steps|
  {
    if steps != [] {
      var next := Try(st, steps[0]).value;
      if steps[0].OfSender? {
        SenderWaits(st, steps[0].s, steps[0].send, next);
      } else {
        NewWaits(st, steps[0], next);
      }
      RunNotifiers(next, steps[1..], end);
    }
  }

  /** A notifier that gives up has blocked for exactly one second. */
  lemma NotifiersGiveUp(st: State, steps: seq<Step>, s: SenderId)
    requires Reached(st, steps) && s in st.senders && st.senders[s].kind.Notifier?
    ensures st.senders[s].blocked == if st.senders[s].pc == Done(Expired) then 1_000_000_000 else 0
  {
    RunNotifiers(START, steps, st);
    assert NotifierOwn(st.senders[s]);
  }
}
