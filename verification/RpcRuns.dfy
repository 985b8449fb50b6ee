/** What holds over whole runs: the refinement, the count of messages, and how a stop drains. */
module RpcRuns {
  import opened Wrappers
  import opened Frames
  import opened Rpc
  import opened RpcInvariants
  import opened RpcPreservation
  import opened RpcSpec
  import opened RpcRefinement
  import opened RpcTheorems

  /** Every run from the start is a run of the specification from its empty state. */
  lemma SystemRefinesSpec(st: State, steps: seq<Step>) returns (trace: seq<Spec>)
    requires Reached(st, steps)
    ensures SpecTrace(trace) && |trace| == |steps| + 1
    ensures trace[0] == Spec(map[], {}, {}, {}, false)
    ensures forall i :: 0 <= i <= |steps| ==> Depicts(trace, START, steps, i)
    ensures forall c :: c in st.calls ==>
              c in trace[|steps|].calls && trace[|steps|].calls[c] == Seen(st.calls[c])
    ensures forall c: CallId, p: Payload :: (c, p) in trace[|steps|].answers <==>
              c in st.calls && Answer(st.calls[c].request.uuid, p, false) in st.remote.produced
  {
    StartHolds();
    trace := RunRefines(START, steps, st);
    assert Meaning(START) == Spec(map[], {}, {}, {}, false);
  }

  // ----- one message out, one message in ----------------------------------------------------

  function DeliveredSet(senders: map<SenderId, Sender>): set<SenderId> {
    set s | s in senders && senders[s].pc == Done(Delivered)
  }

  function GotSet(calls: map<CallId, Call>): set<CallId> {
    set c | c in calls && GotMessage(calls[c].pc)
  }

  lemma DeliveredGrows(senders: map<SenderId, Sender>, s: SenderId)
    requires s in senders && senders[s].pc != Done(Delivered)
    ensures |DeliveredSet(senders[s := senders[s].(pc := Done(Delivered))])| == |DeliveredSet(senders)| + 1
  {
    assert DeliveredSet(senders[s := senders[s].(pc := Done(Delivered))]) == DeliveredSet(senders) + {s};
  }

  lemma GotGrows(calls: map<CallId, Call>, c: CallId, pc: CallPc)
    requires c in calls && !GotMessage(calls[c].pc) && GotMessage(pc)
    ensures |GotSet(Moved(calls, c, pc))| == |GotSet(calls)| + 1
  {
    assert GotSet(Moved(calls, c, pc)) == GotSet(calls) + {c};
  }

  lemma MeetCounts(st: State, s: SenderId, c: CallId, cast: bool, next: State)
    requires TrySender(st, s, Meet(c, cast)) == Some(next)
    ensures |DeliveredSet(next.senders)| == |DeliveredSet(st.senders)| + 1
    ensures |GotSet(next.calls)| == |GotSet(st.calls)| + 1
  {
    DeliveredGrows(st.senders, s);
    GotGrows(st.calls, c, Leaving(Received(st.senders[s].msg, cast)));
  }

  /** The send that went through to a call. */
  ghost predicate Gave(st: State, s: SenderId, c: CallId) {
    && s in st.senders && st.senders[s].pc == Done(Delivered)
    && c in st.calls && GotMessage(st.calls[c].pc)
    && st.calls[c].request.uuid == st.senders[s].msg.uuid
    && st.calls[c].pc.outcome.msg == st.senders[s].msg
  }

  /** Every call that took a message took it from one sender, and no two senders gave to one call. */
  ghost predicate Paired(st: State) {
    && (forall c :: c in st.calls && GotMessage(st.calls[c].pc) ==> exists s :: Gave(st, s, c))
    && (forall r, s :: r in DeliveredSet(st.senders) && s in DeliveredSet(st.senders) && r != s ==>
          st.senders[r].msg.uuid != st.senders[s].msg.uuid)
  }

  /** Calls that took a message and senders that delivered one are as they were. */
  ghost predicate SamePairs(st: State, next: State) {
    && GotSet(next.calls) == GotSet(st.calls)
    && DeliveredSet(next.senders) == DeliveredSet(st.senders)
    && (forall c :: c in GotSet(st.calls) ==>
          && next.calls[c].request == st.calls[c].request
          && next.calls[c].pc.outcome == st.calls[c].pc.outcome)
    && (forall s :: s in DeliveredSet(st.senders) ==> next.senders[s].msg == st.senders[s].msg)
  }

  lemma SamePairsPaired(st: State, next: State)
    requires Paired(st) && SamePairs(st, next)
    ensures Paired(next)
  {
    forall c | c in next.calls && GotMessage(next.calls[c].pc)
      ensures exists s :: Gave(next, s, c)
    {
      assert c in GotSet(next.calls);
      var s :| Gave(st, s, c);
      assert s in DeliveredSet(st.senders);
      assert Gave(next, s, c);
    }
  }

  lemma CallSamePairs(st: State, c: CallId, step: CallStep, next: State)
    requires TryCall(st, c, step) == Some(next)
    ensures SamePairs(st, next)
  {
    CallEffect(st, c, step, next);
  }

  lemma SenderSamePairs(st: State, s: SenderId, step: SendStep, next: State)
    requires TrySender(st, s, step) == Some(next) && !step.Meet?
    ensures SamePairs(st, next)
  {
    SenderEffect(st, s, step, next);
    assert st.senders[s].pc != Done(Delivered);
  }

  lemma DiscSamePairs(st: State, d: DiscId, step: DiscStep, next: State)
    requires TryDisc(st, d, step) == Some(next)
    ensures SamePairs(st, next)
  {
  }

  lemma LoopSamePairs(st: State, step: LoopStep, next: State)
    requires TryLoop(st, step) == Some(next)
    ensures SamePairs(st, next)
  {
    LoopEffect(st, step, next);
  }

  lemma DrawSamePairs(st: State, c: CallId, request: Request, ch: Chan, next: State)
    requires TryDraw(st, c, request, ch) == Some(next)
    ensures SamePairs(st, next)
  {
  }

  lemma HeartSamePairs(st: State, step: HeartStep, next: State)
    requires TryHeart(st, step) == Some(next)
    ensures SamePairs(st, next)
  {
    if step.StartPing? {
      DrawSamePairs(st.(heart := Heart(Pinging(step.c), st.heart.pings + 1)), step.c, step.request, step.ch, next);
    } else {
      HeartEffect(st, step, next);
    }
  }

  lemma OtherSamePairs(st: State, step: Step, next: State)
    requires Try(st, step) == Some(next) && !step.OfSender? && !step.OfDisc? && !step.OfCall?
    ensures SamePairs(st, next)
  {
    match step
    case OfLoop(loop) => LoopSamePairs(st, loop, next);
    case OfHeart(heart) => HeartSamePairs(st, heart, next);
    case OfRemote(remote) => RemoteEffect(st, remote, next);
    case NewCall(c, request, ch) => DrawSamePairs(st, c, request, ch, next);
    case _ =>
  }

  /** Only a meeting makes a pair. */
  lemma StepSamePairs(st: State, step: Step, next: State)
    requires Try(st, step) == Some(next) && !(step.OfSender? && step.send.Meet?)
    ensures SamePairs(st, next)
  {
    match step
    case OfSender(s, send) => SenderSamePairs(st, s, send, next);
    case OfDisc(d, disc) => DiscSamePairs(st, d, disc, next);
    case OfCall(c, call) => CallSamePairs(st, c, call, next);
    case _ => OtherSamePairs(st, step, next);
  }

  /** Conservation: as many sends went through as calls took a message. */
  lemma {:induction false} MessagesAreConserved(st: State, steps: seq<Step>, end: State)
    requires Run(st, steps) == Some(end)
    requires |DeliveredSet(st.senders)| == |GotSet(st.calls)|
    ensures |DeliveredSet(end.senders)| == |GotSet(end.calls)|
    decreases |steps|
  {
    if steps != [] {
      var next := Try(st, steps[0]).value;
      if steps[0].OfSender? && steps[0].send.Meet? {
        MeetCounts(st, steps[0].s, steps[0].send.c, steps[0].send.cast, next);
      } else {
        StepSamePairs(st, steps[0], next);
      }
      MessagesAreConserved(next, steps[1..], end);
    }
  }

  lemma MeetIsFirst(st: State, s: SenderId, c: CallId, cast: bool)
    requires Registry(st.calls, st.inFlight) && Addressed(st.senders, st.inFlight) && Met(st.senders, st.calls)
    requires TrySender(st, s, Meet(c, cast)).Some?
    ensures s !in DeliveredSet(st.senders) && st.calls[c].request.uuid == st.senders[s].msg.uuid
    ensures forall r :: r in DeliveredSet(st.senders) ==> st.senders[r].msg.uuid != st.senders[s].msg.uuid
  {
    OnlyOwner(st.calls, st.inFlight, c, st.senders[s].msg.uuid);
  }

  /** One more pair: nobody gave to the call while it was still waiting. */
  lemma OneMorePair(st: State, s: SenderId, c: CallId, cast: bool, next: State)
    requires Paired(st) && s in st.senders && s !in DeliveredSet(st.senders)
    requires c in st.calls && c !in GotSet(st.calls) && st.calls[c].request.uuid == st.senders[s].msg.uuid
    requires forall r :: r in DeliveredSet(st.senders) ==> st.senders[r].msg.uuid != st.senders[s].msg.uuid
    requires next.senders == st.senders[s := st.senders[s].(pc := Done(Delivered))]
    requires next.calls == Moved(st.calls, c, Leaving(Received(st.senders[s].msg, cast)))
    ensures Paired(next)
  {
    forall b | b in next.calls && GotMessage(next.calls[b].pc)
      ensures exists r :: Gave(next, r, b)
    {
      if b == c {
        assert Gave(next, s, c);
      } else {
        var r :| Gave(st, r, b);
        assert Gave(next, r, b);
      }
    }
    assert DeliveredSet(next.senders) == DeliveredSet(st.senders) + {s};
  }

  lemma MeetPairs(st: State, s: SenderId, c: CallId, cast: bool, next: State)
    requires Registry(st.calls, st.inFlight) && Addressed(st.senders, st.inFlight) && Met(st.senders, st.calls)
    requires Paired(st) && TrySender(st, s, Meet(c, cast)) == Some(next)
    ensures Paired(next)
  {
    MeetIsFirst(st, s, c, cast);
    OneMorePair(st, s, c, cast, next);
  }

  lemma StepPairs(st: State, step: Step, next: State)
    requires Good(st) && Paired(st) && Try(st, step) == Some(next)
    ensures Paired(next)
  {
    if step.OfSender? && step.send.Meet? {
      MeetPairs(st, step.s, step.send.c, step.send.cast, next);
    } else {
      StepSamePairs(st, step, next);
      SamePairsPaired(st, next);
    }
  }

  lemma {:induction false} RunPairs(st: State, steps: seq<Step>, end: State)
    requires Good(st) && Paired(st) && Run(st, steps) == Some(end)
    ensures Good(end) && Paired(end)
    decreases |steps|
  {
    if steps != [] {
      var next := FirstStep(st, steps, end);
      StepPairs(st, steps[0], next);
      RunPairs(next, steps[1..], end);
    }
  }

  lemma DeliveredGave(st: State, s: SenderId)
    requires Registry(st.calls, st.inFlight) && Addressed(st.senders, st.inFlight) && Met(st.senders, st.calls)
    requires s in st.senders && st.senders[s].pc == Done(Delivered)
    ensures exists c :: Gave(st, s, c)
  {
    assert AddressedOwn(st.senders[s], st.inFlight);
    var c :| Owns(st.calls, c, st.senders[s].msg.uuid);
    assert Gave(st, s, c);
  }

  lemma GaveOnce(st: State)
    requires Registry(st.calls, st.inFlight) && Paired(st)
    ensures forall r, s, c :: Gave(st, r, c) && Gave(st, s, c) ==> r == s
    ensures forall s, b, c :: Gave(st, s, b) && Gave(st, s, c) ==> b == c
  {
    forall r, s, c | Gave(st, r, c) && Gave(st, s, c)
      ensures r == s
    {
      assert r in DeliveredSet(st.senders) && s in DeliveredSet(st.senders);
    }
  }

  lemma ReachedIsPaired(st: State, steps: seq<Step>)
    requires Reached(st, steps)
    ensures Good(st) && Paired(st)
  {
    StartHolds();
    RunPairs(START, steps, st);
  }

  /**
   Sends and receives are in bijection: every send that went through gave its message to exactly
   one call, every call that took a message took it from exactly one send, and there are as many
   of the one as of the other.
   */
  lemma EverySendIsOneReceive(st: State, steps: seq<Step>)
    requires Reached(st, steps)
    ensures forall s :: s in DeliveredSet(st.senders) ==> exists c :: Gave(st, s, c)
    ensures forall c :: c in GotSet(st.calls) ==> exists s :: Gave(st, s, c)
    ensures forall r, s, c :: Gave(st, r, c) && Gave(st, s, c) ==> r == s
    ensures forall s, b, c :: Gave(st, s, b) && Gave(st, s, c) ==> b == c
    ensures |DeliveredSet(st.senders)| == |GotSet(st.calls)|
  {
    ReachedIsPaired(st, steps);
    GaveOnce(st);
    forall s | s in DeliveredSet(st.senders)
      ensures exists c :: Gave(st, s, c)
    {
      DeliveredGave(st, s);
    }
    assert DeliveredSet(START.senders) == {} && GotSet(START.calls) == {};
    MessagesAreConserved(START, steps, st);
  }

  /** Only its own steps move a sender, so its measure bounds the steps it can still take. */
  lemma OthersLeaveSenders(st: State, step: Step, next: State, s: SenderId)
    requires Try(st, step) == Some(next) && s in st.senders
    requires !(step.OfSender? && step.s == s)
    ensures s in next.senders && next.senders[s] == st.senders[s]
  {
    match step
    case OfSender(b, send) => SenderEffect(st, b, send, next);
    case OfCall(c, call) => CallEffect(st, c, call, next);
    case OfLoop(loop) => LoopEffect(st, loop, next);
    case OfHeart(heart) =>
      if !heart.StartPing? {
        HeartEffect(st, heart, next);
      }
    case _ =>
  }

  function OwnSteps(steps: seq<Step>, s: SenderId): nat {
    if steps == [] then 0
    else (if steps[0].OfSender? && steps[0].s == s then 1 else 0) + OwnSteps(steps[1..], s)
  }

  lemma OwnDelivererStep(st: State, s: SenderId, send: SendStep, next: State)
    requires Patience(st.senders) && TrySender(st, s, send) == Some(next) && st.senders[s].kind.Deliverer?
    ensures s in next.senders && next.senders[s].kind.Deliverer?
    ensures Patient(next.senders[s]) + 1 <= Patient(st.senders[s])
  {
    assert PatientOwn(st.senders[s]);
    SenderEffect(st, s, send, next);
    DelivererDescends(st, s, send, next);
  }

  lemma OneDelivererStep(st: State, step: Step, next: State, s: SenderId)
    requires Patience(st.senders) && Try(st, step) == Some(next) && s in st.senders && st.senders[s].kind.Deliverer?
    ensures s in next.senders && next.senders[s].kind.Deliverer?
    ensures Patient(next.senders[s]) + (if step.OfSender? && step.s == s then 1 else 0) <= Patient(st.senders[s])
  {
    if step.OfSender? && step.s == s {
      OwnDelivererStep(st, s, step.send, next);
    } else {
      OthersLeaveSenders(st, step, next, s);
    }
  }

  /** In any run, however long, one deliverer takes at most 20 steps. */
  lemma {:induction false} DeliverersAreBounded(st: State, steps: seq<Step>, end: State, s: SenderId)
    requires Good(st) && Run(st, steps) == Some(end) && s in st.senders && st.senders[s].kind.Deliverer?
    ensures s in end.senders && OwnSteps(steps, s) + Patient(end.senders[s]) <= Patient(st.senders[s])
    ensures OwnSteps(steps, s) <= 20
    decreases |steps|
  {
    assert PatientOwn(st.senders[s]);
    DelivererMoves(st, s);
    if steps != [] {
      var next := Try(st, steps[0]).value;
      GoodStep(st, steps[0], next);
      OneDelivererStep(st, steps[0], next, s);
      DeliverersAreBounded(next, steps[1..], end, s);
    }
  }

  // ----- no call goes on forever ------------------------------------------------------------

  function CallSteps(steps: seq<Step>, c: CallId): nat {
    if steps == [] then 0
    else (if steps[0].OfCall? && steps[0].c == c then 1 else 0) + CallSteps(steps[1..], c)
  }

  lemma SenderRank(st: State, s: SenderId, step: SendStep, next: State, c: CallId)
    requires TrySender(st, s, step) == Some(next) && c in st.calls
    ensures c in next.calls && Rank(next.calls[c]) <= Rank(st.calls[c])
  {
    if !step.Meet? {
      SenderEffect(st, s, step, next);
    }
  }

  lemma CallRank(st: State, b: CallId, step: CallStep, next: State, c: CallId)
    requires TryCall(st, b, step) == Some(next) && c in st.calls
    ensures c in next.calls && Rank(next.calls[c]) + (if b == c then 1 else 0) <= Rank(st.calls[c])
  {
    CallsDescend(st, b, step, next);
    CallEffect(st, b, step, next);
  }

  lemma OtherRank(st: State, step: Step, next: State, c: CallId)
    requires Try(st, step) == Some(next) && c in st.calls && !step.OfCall? && !step.OfSender?
    ensures c in next.calls && next.calls[c] == st.calls[c]
  {
    match step
    case OfLoop(loop) => LoopEffect(st, loop, next);
    case OfHeart(heart) =>
      if !heart.StartPing? {
        HeartEffect(st, heart, next);
      }
    case OfRemote(remote) => RemoteEffect(st, remote, next);
    case _ =>
  }

  lemma OneCallStep(st: State, step: Step, next: State, c: CallId)
    requires Try(st, step) == Some(next) && c in st.calls
    ensures c in next.calls
    ensures Rank(next.calls[c]) + (if step.OfCall? && step.c == c then 1 else 0) <= Rank(st.calls[c])
  {
    match step
    case OfCall(b, call) => CallRank(st, b, call, next, c);
    case OfSender(s, send) => SenderRank(st, s, send, next, c);
    case _ => OtherRank(st, step, next, c);
  }

  /**
   In any run, however long, one call takes no more steps of its own than its frame has bytes and
   eight besides; nobody else's step takes a call further from its end.
   */
  lemma {:induction false} CallsAreBounded(st: State, steps: seq<Step>, end: State, c: CallId)
    requires Run(st, steps) == Some(end) && c in st.calls
    ensures c in end.calls && CallSteps(steps, c) + Rank(end.calls[c]) <= Rank(st.calls[c])
    ensures CallSteps(steps, c) < |Text(st.calls[c])| + 8
    decreases |steps|
  {
    if steps != [] {
      var next := Try(st, steps[0]).value;
      OneCallStep(st, steps[0], next, c);
      CallsAreBounded(next, steps[1..], end, c);
    }
  }

  // ----- a stop is final, and drains --------------------------------------------------------

  /** How many deliverers the decoder loop may still start after a stop. */
  function LoopBudget(st: State): nat {
    if st.loop.pc.InDecode? || st.loop.pc.Handling? then 1 else 0
  }

  /** How many pings the heartbeat loop may still start after a stop. */
  function HeartBudget(st: State): nat {
    if st.heart.pc.Ready? then 1 else 0
  }

  lemma LoopDrains(st: State, step: LoopStep, next: State)
    requires !st.running && TryLoop(st, step) == Some(next)
    ensures !next.running && next.loop.spawned + LoopBudget(next) <= st.loop.spawned + LoopBudget(st)
    ensures next.heart == st.heart
  {
    LoopEffect(st, step, next);
  }

  lemma HeartDrains(st: State, step: HeartStep, next: State)
    requires !st.running && TryHeart(st, step) == Some(next)
    ensures !next.running && next.heart.pings + HeartBudget(next) <= st.heart.pings + HeartBudget(st)
    ensures next.loop == st.loop
  {
    if !step.StartPing? {
      HeartEffect(st, step, next);
    }
  }

  lemma StepDrains(st: State, step: Step, next: State)
    requires !st.running && Try(st, step) == Some(next)
    ensures !next.running
    ensures next.loop.spawned + LoopBudget(next) <= st.loop.spawned + LoopBudget(st)
    ensures next.heart.pings + HeartBudget(next) <= st.heart.pings + HeartBudget(st)
  {
    match step
    case OfLoop(loop) => LoopDrains(st, loop, next);
    case OfHeart(heart) => HeartDrains(st, heart, next);
    case OfCall(c, call) => CallEffect(st, c, call, next);
    case OfSender(s, send) => SenderEffect(st, s, send, next);
    case _ =>
  }

  /**
   Once cleared, `Running` stays clear for the rest of the epoch; in any run after that the decoder
   loop starts at most one more deliverer, and only if it was decoding or had a result in hand past
   its last check, and the heartbeat loop starts at most one more ping, and only if it had passed
   its last check.
   */
  lemma {:induction false} StopIsFinalAndDrains(st: State, steps: seq<Step>, end: State)
    requires !st.running && Run(st, steps) == Some(end)
    ensures !end.running
    ensures end.loop.spawned + LoopBudget(end) <= st.loop.spawned + LoopBudget(st)
    ensures end.heart.pings + HeartBudget(end) <= st.heart.pings + HeartBudget(st)
    decreases |steps|
  {
    if steps != [] {
      var next := Try(st, steps[0]).value;
      StepDrains(st, steps[0], next);
      StopIsFinalAndDrains(next, steps[1..], end);
    }
  }
}
