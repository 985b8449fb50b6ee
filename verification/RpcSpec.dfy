/**
 The RPC system as its callers see it: calls open, the remote takes frames and answers them, and
 every call ends once. Nothing here knows about channels, locks, deliverers or UUIDs.
 */
module RpcSpec {
  import opened Wrappers
  import opened Rpc
  import opened RpcInvariants
  import opened RpcPreservation

  datatype End =
    | EncodeError
    | ContextError
    | ShutdownError
    | AnswerOf(payload: Payload)
    | NoAnswer

  datatype SpecCall = Open(close: bool) | Over(end: End)

  datatype Spec = Spec(calls: map<CallId, SpecCall>, sent: set<CallId>, read: set<CallId>,
                       answers: set<(CallId, Payload)>, stopped: bool)

  /** When a call may end, and with what. */
  predicate MayEnd(s: Spec, c: CallId, end: End)
    requires c in s.calls && s.calls[c].Open?
  {
    match end
    case EncodeError => true
    case ContextError => !s.calls[c].close && c in s.sent
    case ShutdownError => !s.calls[c].close && c in s.sent && s.stopped
    case AnswerOf(p) => !s.calls[c].close && c in s.sent && (c, p) in s.answers
    case NoAnswer => s.calls[c].close && c in s.sent
  }

  predicate Opens(s: Spec, t: Spec, c: CallId, close: bool) {
    c !in s.calls && t == s.(calls := s.calls[c := Open(close)])
  }

  predicate Sends(s: Spec, t: Spec, c: CallId) {
    c in s.calls && c !in s.sent && t == s.(sent := s.sent + {c})
  }

  predicate Reads(s: Spec, t: Spec, c: CallId) {
    c in s.sent && c !in s.read && t == s.(read := s.read + {c})
  }

  predicate Answers(s: Spec, t: Spec, c: CallId, p: Payload) {
    c in s.read && t == s.(answers := s.answers + {(c, p)})
  }

  predicate Ends(s: Spec, t: Spec, c: CallId, end: End) {
    c in s.calls && s.calls[c].Open? && MayEnd(s, c, end) && t == s.(calls := s.calls[c := Over(end)])
  }

  ghost predicate SpecNext(s: Spec, t: Spec) {
    || (exists c: CallId, close: bool :: Opens(s, t, c, close))
    || (exists c: CallId :: Sends(s, t, c))
    || (exists c: CallId :: Reads(s, t, c))
    || (exists c: CallId, p: Payload :: Answers(s, t, c, p))
    || (exists c: CallId, end: End :: Ends(s, t, c, end))
    || t == s.(stopped := true)
  }

  ghost predicate SpecTrace(trace: seq<Spec>) {
    && trace != []
    && forall i :: 0 <= i < |trace| - 1 ==> trace[i] == trace[i + 1] || SpecNext(trace[i], trace[i + 1])
  }

  /** A call that is over stays over, with the same end: every call ends at most once. */
  lemma {:induction false} EndsOnce(trace: seq<Spec>, i: nat, j: nat, c: CallId)
    requires SpecTrace(trace) && i <= j < |trace|
    requires c in trace[i].calls && trace[i].calls[c].Over?
    ensures c in trace[j].calls && trace[j].calls[c] == trace[i].calls[c]
    decreases j - i
  {
    if i < j {
      EndsOnce(trace, i, j - 1, c);
      assert trace[j - 1] == trace[j - 1 + 1] || SpecNext(trace[j - 1], trace[j - 1 + 1]);
    }
  }

  // ----- what a state of the system means ---------------------------------------------------

  function EndOf(outcome: Outcome): End {
    match outcome
    case EncodeFailed => EncodeError
    case CtxEnded => ContextError
    case Closed => NoAnswer
    case Received(ShutDown(_), _) => ShutdownError
    case Received(Answer(_, p, _), _) => AnswerOf(p)
  }

  function Seen(call: Call): SpecCall {
    if call.pc.Leaving? || call.pc.Ended? then Over(EndOf(call.pc.outcome)) else Open(call.request.fn == CLOSE)
  }

  ghost function Answered(calls: map<CallId, Call>, produced: set<Msg>): (r: set<(CallId, Payload)>)
    ensures forall c: CallId, p: Payload :: (c, p) in r <==> c in calls && Answer(calls[c].request.uuid, p, false) in produced
  {
    var r := set c, m | c in calls && m in produced && m == Asks(calls[c], m) :: (c, m.payload);
    assert forall c: CallId, p: Payload :: c in calls && Answer(calls[c].request.uuid, p, false) in produced ==>
        (c, Answer(calls[c].request.uuid, p, false).payload) in r;
    r
  }

  /** An answer to this call's own frame, with the payload of `m`. */
  function Asks(call: Call, m: Msg): Msg {
    if m.Answer? then Answer(call.request.uuid, m.payload, false) else Answer(call.request.uuid, 0, false)
  }

  function Firsts(owners: seq<CallId>, n: nat): set<CallId> {
    set i | 0 <= i < n && i < |owners| :: owners[i]
  }

  ghost function Meaning(st: State): Spec {
    Spec(map c | c in st.calls :: Seen(st.calls[c]),
         Firsts(st.enc.owners, |st.enc.owners|),
         Firsts(st.enc.owners, |st.remote.read|),
         Answered(st.calls, st.remote.produced),
         !st.running)
  }

  /** Nobody is told of a shutdown before the stop. */
  ghost predicate StoppedFirst(st: State) {
    && (forall d :: d in st.discs && !st.discs[d].pc.Entered? ==> !st.running)
    && (forall s :: s in st.senders && st.senders[s].msg.ShutDown? ==> !st.running)
  }

  lemma LoopStopped(st: State, step: LoopStep, next: State)
    requires Carrying(st.senders, st.loop, st.remote.produced) && Answering(st.remote)
    requires StoppedFirst(st) && TryLoop(st, step) == Some(next)
    ensures StoppedFirst(next)
  {
    LoopEffect(st, step, next);
  }

  lemma SenderStopped(st: State, s: SenderId, step: SendStep, next: State)
    requires StoppedFirst(st) && TrySender(st, s, step) == Some(next)
    ensures StoppedFirst(next)
  {
    SenderEffect(st, s, step, next);
  }

  lemma HeartStopped(st: State, step: HeartStep, next: State)
    requires StoppedFirst(st) && TryHeart(st, step) == Some(next)
    ensures StoppedFirst(next)
  {
    if !step.StartPing? {
      HeartEffect(st, step, next);
    }
  }

  lemma DiscStopped(st: State, d: DiscId, step: DiscStep, next: State)
    requires StoppedFirst(st) && TryDisc(st, d, step) == Some(next)
    ensures StoppedFirst(next)
  {
  }

  lemma StoppedFirstKeeps(st: State, step: Step, next: State)
    requires Carrying(st.senders, st.loop, st.remote.produced) && Answering(st.remote)
    requires StoppedFirst(st) && Try(st, step) == Some(next)
    ensures StoppedFirst(next)
  {
    match step
    case OfSender(s, send) => SenderStopped(st, s, send, next);
    case OfLoop(loop) => LoopStopped(st, loop, next);
    case OfHeart(heart) => HeartStopped(st, heart, next);
    case OfDisc(d, disc) => DiscStopped(st, d, disc, next);
    case OfCall(c, call) => CallEffect(st, c, call, next);
    case OfRemote(remote) => RemoteEffect(st, remote, next);
    case NewCall(_, _, _) =>
    case NewDisconnect(_, _) =>
  }
}
