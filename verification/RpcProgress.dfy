/**
 Nobody is left waiting for good: what the calls can always do by themselves, so that a Disconnect
 stuck on one of them is served, and that the decoder loop's own Disconnect needs no decoder loop.
 */
module RpcProgress {
  import opened Wrappers
  import opened Frames
  import opened Rpc
  import opened RpcInvariants
  import opened RpcPreservation
  import opened RpcTheorems

  // ----- paths ------------------------------------------------------------------------------

  /**
   Who may move: the calls, with one Disconnect or without; the decoder loop and its deliverers; these, the
   calls and the remote; the heartbeat.
   */
  datatype Party = CallsOnly | AndDisconnect(d: DiscId) | Delivery | RoundTrip | HeartOnly

  type CallParty = who: Party | who.CallsOnly? || who.AndDisconnect? witness CallsOnly

  /**
   Steps of a party that wait for nothing outside: a call's own, with no answer, no ended context and
   no write that fails, and of encode errors only those the encoder cannot help; a Disconnect's, other
   than the end of its context; the loop's without a decode error, and a deliverer's without a timeout;
   those of the remote that read or answer; any of the heartbeat's.
   */
  predicate Unaided(st: State, step: Step, who: Party) {
    match step
    case OfCall(_, call) =>
      && (who.CallsOnly? || who.AndDisconnect? || who.RoundTrip?)
      && !call.CtxDone? && !call.WriteFails? && (call.Refuse? ==> st.enc.broken.Some?)
    case OfDisc(e, disc) => who == AndDisconnect(e) && !disc.CtxExpires?
    case OfLoop(loop) => (who.Delivery? || who.RoundTrip?) && !loop.Fails?
    case OfSender(s, send) =>
      (who.Delivery? || who.RoundTrip?) && s in st.senders && st.senders[s].kind.Deliverer? && (send.Load? || send.Meet?)
    case OfRemote(remote) => who.RoundTrip? && !remote.Stray?
    case OfHeart(_) => who.HeartOnly?
    case _ => false
  }

  /** Steps, and the states between them. */
  datatype Path = Path(states: seq<State>, steps: seq<Step>) {
    ghost predicate Moves(who: Party, i: nat) {
      && i < |steps| && i + 1 < |states|
      && Unaided(states[i], steps[i], who)
      && Try(states[i], steps[i]) == Some(states[i + 1])
    }

    ghost predicate Leads(st: State, who: Party, end: State) {
      && |states| == |steps| + 1
      && states[0] == st && states[|steps|] == end
      && forall i :: 0 <= i < |steps| ==> Moves(who, i)
    }

    function Then(p: Path): Path
      requires p.states != []
    {
      Path(states + p.states[1..], steps + p.steps)
    }

    lemma ThenMoves(p: Path, who: Party, i: nat)
      requires |states| == |steps| + 1 && |p.states| == |p.steps| + 1 && p.states[0] == states[|steps|]
      requires i < |steps| + |p.steps|
      requires if i < |steps| then Moves(who, i) else p.Moves(who, i - |steps|)
      ensures Then(p).Moves(who, i)
    {
    }

    lemma ThenLeads(st: State, who: Party, mid: State, p: Path, end: State)
      requires Leads(st, who, mid) && p.Leads(mid, who, end)
      ensures Then(p).Leads(st, who, end) && |Then(p).steps| == |steps| + |p.steps|
    {
      forall i | 0 <= i < |steps| + |p.steps|
        ensures Then(p).Moves(who, i)
      {
        if i >= |steps| {
          assert p.Moves(who, i - |steps|);
        }
        ThenMoves(p, who, i);
      }
    }
  }

  function Here(st: State): Path {
    Path([st], [])
  }

  lemma OneStepLeads(st: State, step: Step, who: Party, next: State)
    requires Unaided(st, step, who) && Try(st, step) == Some(next)
    ensures Path([st, next], [step]).Leads(st, who, next)
  {
    assert Path([st, next], [step]).Moves(who, 0);
  }

  /** A path is a run. */
  lemma {:induction false} PathRuns(p: Path, st: State, who: Party, end: State)
    requires p.Leads(st, who, end)
    ensures Run(st, p.steps) == Some(end)
    decreases |p.steps|
  {
    if p.steps != [] {
      var rest := Path(p.states[1..], p.steps[1..]);
      assert p.Moves(who, 0);
      forall i | 0 <= i < |rest.steps|
        ensures rest.Moves(who, i)
      {
        assert p.Moves(who, i + 1);
      }
      PathRuns(rest, p.states[1], who, end);
    }
  }

  // ----- the holder of the lock lets it go --------------------------------------------------

  /** All that progress rests on: who holds the lock, and that no write runs past its frame. */
  ghost predicate Orderly(st: State) {
    && Locking(st.calls, st.enc)
    && forall c :: c in st.calls ==> InFrame(st.calls[c])
  }

  predicate InFrame(call: Call) {
    call.pc.Encoding? ==> call.pc.written <= |Text(call)|
  }

  /** Only call `c` and what calls share have changed. */
  ghost predicate OnlyCall(st: State, end: State, c: CallId) {
    && c in st.calls && c in end.calls
    && end == st.(calls := Moved(st.calls, c, end.calls[c].pc), inFlight := end.inFlight, enc := end.enc)
  }

  lemma CallStepOrderly(st: State, c: CallId, step: CallStep, next: State)
    requires Orderly(st) && TryCall(st, c, step) == Some(next)
    ensures Orderly(next) && OnlyCall(st, next, c) && Rank(next.calls[c]) < Rank(st.calls[c])
  {
    CallsDescend(st, c, step, next);
    CallEffect(st, c, step, next);
    assert InFrame(st.calls[c]);
  }

  /** What the holder of the lock does next. */
  function HolderStep(st: State, b: CallId): CallStep
    requires b in st.calls
  {
    match st.calls[b].pc
    case Locked => if st.enc.broken.Some? then Refuse else StartWrite
    case Encoding(n) => if n < |Text(st.calls[b])| then Write(|Text(st.calls[b])| - n) else WriteReturns
    case _ => Unlock
  }

  lemma HolderSteps(st: State, b: CallId) returns (next: State)
    requires b in st.calls && InFrame(st.calls[b]) && Holds(st.calls[b].pc)
    ensures TryCall(st, b, HolderStep(st, b)) == Some(next) && b in next.calls
    ensures if st.calls[b].pc.Encoded? then next.enc.lock.None? && Unlocked(st.calls[b], next.calls[b].pc)
            else Holds(next.calls[b].pc)
    ensures next.enc.broken == st.enc.broken && next.calls[b].request == st.calls[b].request
    ensures Unhurt(st, b) ==>
              if st.calls[b].pc.Encoded? then next.calls[b].pc == Select(st.calls[b]) else Unhurt(next, b)
  {
    next := TryCall(st, b, HolderStep(st, b)).value;
  }

  /** Where a call stands once it is out of the lock: only a call that is no `Close` waits. */
  predicate Unlocked(call: Call, pc: CallPc) {
    pc.Leaving? || (pc.Waiting? && call.request.fn != CLOSE)
  }

  /** No write has failed, and the call's own has not been refused. */
  predicate Unhurt(st: State, b: CallId) {
    b in st.calls && st.enc.broken.None? && st.calls[b].pc != Encoded(false)
  }

  /** Where a call goes once its frame is written. */
  function Select(call: Call): CallPc {
    if call.request.fn == CLOSE then Leaving(Closed) else Waiting
  }

  lemma {:induction false} Release(st: State, b: CallId, who: CallParty) returns (p: Path, end: State)
    requires Orderly(st) && b in st.calls && Holds(st.calls[b].pc)
    ensures p.Leads(st, who, end) && Orderly(end) && OnlyCall(st, end, b) && end.enc.lock.None?
    ensures Unlocked(st.calls[b], end.calls[b].pc) && end.enc.broken == st.enc.broken
    ensures Unhurt(st, b) ==> end.calls[b].pc == Select(st.calls[b])
    ensures |p.steps| + Rank(end.calls[b]) <= Rank(st.calls[b])
    decreases Rank(st.calls[b])
  {
    var step := HolderStep(st, b);
    assert InFrame(st.calls[b]);
    var next := HolderSteps(st, b);
    CallStepOrderly(st, b, step, next);
    OneStepLeads(st, OfCall(b, step), who, next);
    p := Path([st, next], [OfCall(b, step)]);
    end := next;
    if !st.calls[b].pc.Encoded? {
      var more;
      more, end := Release(next, b, who);
      p.ThenLeads(st, who, next, more, end);
      p := p.Then(more);
    }
  }

  // ----- a call comes to its select or its end ----------------------------------------------

  /** Call `c` is at its select or its end; a `Close` that was not at the select is at its end. */
  predicate Settled(before: Call, pc: CallPc) {
    pc.Ended? || (pc.Waiting? && (before.pc.Waiting? || before.request.fn != CLOSE))
  }

  /** The call has yet to write its frame, or to return from doing so, and nothing is in its way. */
  predicate CanSend(st: State, c: CallId) {
    Unhurt(st, c) && !st.calls[c].pc.Waiting? && !st.calls[c].pc.Leaving? && !st.calls[c].pc.Ended?
  }

  /** Where such a call settles. */
  function Goal(call: Call): CallPc {
    if call.request.fn == CLOSE then Ended(Closed) else Waiting
  }

  lemma CallStepLeads(st: State, c: CallId, step: CallStep, who: CallParty) returns (p: Path, next: State)
    requires Orderly(st) && TryCall(st, c, step).Some?
    requires !step.CtxDone? && !step.WriteFails? && !step.Refuse?
    ensures next == TryCall(st, c, step).value && |p.steps| == 1
    ensures p.Leads(st, who, next) && Orderly(next) && OnlyCall(st, next, c) && Rank(next.calls[c]) < Rank(st.calls[c])
  {
    next := TryCall(st, c, step).value;
    p := Path([st, next], [OfCall(c, step)]);
    OneStepLeads(st, OfCall(c, step), who, next);
    CallStepOrderly(st, c, step, next);
  }

  lemma CloseChannelLeads(st: State, c: CallId, who: CallParty) returns (p: Path, end: State)
    requires Orderly(st) && c in st.calls && st.calls[c].pc.Leaving?
    ensures p.Leads(st, who, end) && Orderly(end) && OnlyCall(st, end, c)
    ensures end.calls[c].pc == Ended(st.calls[c].pc.outcome)
    ensures |p.steps| < Rank(st.calls[c])
  {
    p, end := CallStepLeads(st, c, CloseChannel, who);
  }

  /** A call that has been through the lock, or is in it, settles by itself. */
  lemma SettleInside(st: State, c: CallId, who: CallParty) returns (p: Path, end: State)
    requires Orderly(st) && c in st.calls && st.calls[c].pc != Drawn && st.calls[c].pc != Queued
    ensures p.Leads(st, who, end) && OnlyCall(st, end, c) && Settled(st.calls[c], end.calls[c].pc)
    ensures CanSend(st, c) ==> end.calls[c].pc == Goal(st.calls[c])
    ensures |p.steps| <= Rank(st.calls[c])
  {
    p, end := Here(st), st;
    if Holds(st.calls[c].pc) {
      p, end := Release(st, c, who);
    }
    if end.calls[c].pc.Leaving? {
      var mid := end;
      var last;
      last, end := CloseChannelLeads(mid, c, who);
      p.ThenLeads(st, who, mid, last, end);
      p := p.Then(last);
    }
  }

  /** Only calls and what they share have changed, and call `c` is still the same call. */
  ghost predicate OnlyCalls(st: State, end: State, c: CallId) {
    && end == st.(calls := end.calls, inFlight := end.inFlight, enc := end.enc)
    && c in st.calls && c in end.calls
    && end.calls[c] == st.calls[c].(pc := end.calls[c].pc)
  }

  /** How far the holder of the lock is from its end, if there is one. */
  function HolderRank(st: State): nat {
    if st.enc.lock.Some? && st.enc.lock.value in st.calls then Rank(st.calls[st.enc.lock.value]) else 0
  }

  lemma FreeLock(st: State, who: CallParty) returns (p: Path, free: State)
    requires Orderly(st)
    ensures p.Leads(st, who, free) && Orderly(free) && free.enc.lock.None? && |p.steps| <= HolderRank(st)
    ensures free == st.(calls := free.calls, inFlight := free.inFlight, enc := free.enc)
    ensures free.enc.broken == st.enc.broken
    ensures forall c :: c in st.calls && !Holds(st.calls[c].pc) ==> c in free.calls && free.calls[c] == st.calls[c]
  {
    if st.enc.lock.Some? {
      p, free := Release(st, st.enc.lock.value, who);
    } else {
      p, free := Here(st), st;
    }
  }

  /** A call that queues for the lock gets it, once its holder has let it go, and settles. */
  lemma SettleQueued(st: State, c: CallId, who: CallParty) returns (p: Path, end: State)
    requires Orderly(st) && c in st.calls && st.calls[c].pc == Queued
    ensures p.Leads(st, who, end) && OnlyCalls(st, end, c) && Settled(st.calls[c], end.calls[c].pc)
    ensures CanSend(st, c) ==> end.calls[c].pc == Goal(st.calls[c])
    ensures |p.steps| <= Rank(st.calls[c]) + HolderRank(st)
  {
    var free, locked, next;
    p, free := FreeLock(st, who);
    next, locked := CallStepLeads(free, c, Lock, who);
    p.ThenLeads(st, who, free, next, locked);
    p := p.Then(next);
    next, end := SettleInside(locked, c, who);
    p.ThenLeads(st, who, locked, next, end);
    p := p.Then(next);
  }

  lemma SettleDrawn(st: State, c: CallId, who: CallParty) returns (p: Path, end: State)
    requires Orderly(st) && c in st.calls && st.calls[c].pc == Drawn
    ensures p.Leads(st, who, end) && OnlyCalls(st, end, c) && Settled(st.calls[c], end.calls[c].pc)
    ensures CanSend(st, c) ==> end.calls[c].pc == Goal(st.calls[c])
    ensures |p.steps| <= Rank(st.calls[c]) + HolderRank(st)
  {
    var next, more;
    p, next := CallStepLeads(st, c, Register, who);
    more, end := SettleQueued(next, c, who);
    p.ThenLeads(st, who, next, more, end);
    p := p.Then(more);
  }

  /**
   Any call comes to its select or its end by steps of its own and of the holder of the lock, and
   takes no more of them than the two have left. If no write has failed and the call has not been
   refused, a `Close` ends as one and any other call comes to its select.
   */
  lemma CallsSettle(st: State, c: CallId, who: CallParty) returns (p: Path, end: State)
    requires Orderly(st) && c in st.calls
    ensures p.Leads(st, who, end) && OnlyCalls(st, end, c) && Settled(st.calls[c], end.calls[c].pc)
    ensures CanSend(st, c) ==> end.calls[c].pc == Goal(st.calls[c])
    ensures |p.steps| <= Rank(st.calls[c]) + HolderRank(st)
  {
    if st.calls[c].pc == Drawn {
      p, end := SettleDrawn(st, c, who);
    } else if st.calls[c].pc == Queued {
      p, end := SettleQueued(st, c, who);
    } else {
      p, end := SettleInside(st, c, who);
    }
  }

  // ----- a notify loop is served ------------------------------------------------------------

  lemma ReachedIsOrderly(st: State, steps: seq<Step>)
    requires Reached(st, steps)
    ensures Orderly(st)
  {
    ReachedIsGood(st, steps);
  }

  /** The call a stuck Disconnect sends to, on the channel it waits on. */
  lemma NotifiedCall(st: State, steps: seq<Step>, d: DiscId) returns (c: CallId)
    requires Reached(st, steps) && d in st.discs && st.discs[d].pc.Notifying?
    requires st.discs[d].pc.s in st.senders ==> !st.senders[st.discs[d].pc.s].pc.Done?
    ensures st.discs[d].pc.s in st.senders
    ensures var sender := st.senders[st.discs[d].pc.s];
            Owns(st.calls, c, sender.msg.uuid) && sender.pc == Sending(st.calls[c].ch)
  {
    ReachedIsGood(st, steps);
    var s := st.discs[d].pc.s;
    assert NoticeOwn(st.senders[s], st.discs) && CarriesOwn(st.senders[s], st.remote.produced);
    assert AddressedOwn(st.senders[s], st.inFlight);
    c :| Owns(st.calls, c, st.senders[s].msg.uuid);
  }

  lemma SendGoesThrough(end: State, s: SenderId, c: CallId)
    requires s in end.senders && c in end.calls && end.senders[s].pc == Sending(end.calls[c].ch)
    requires end.calls[c].pc.Waiting? || end.calls[c].pc.Ended?
    ensures TrySender(end, s, Meet(c, true)).Some? || TrySender(end, s, Panic(c)).Some?
  {
  }

  /**
   The notify loop never deadlocks against the encoder lock. Wherever a waiting Disconnect is stuck
   on one call, a run of no more steps than that call and the holder of the lock have left, all of
   them calls' own, leads to where its send goes through, to the call itself or on its closed channel.
   */
  lemma NotifyNeverDeadlocks(st: State, steps: seq<Step>, d: DiscId) returns (c: CallId, p: Path, end: State)
    requires Reached(st, steps) && d in st.discs && st.discs[d].pc.Notifying?
    requires st.discs[d].pc.s in st.senders ==> !st.senders[st.discs[d].pc.s].pc.Done?
    ensures st.discs[d].pc.s in st.senders && Owns(st.calls, c, st.senders[st.discs[d].pc.s].msg.uuid)
    ensures p.Leads(st, CallsOnly, end) && Run(st, p.steps) == Some(end) && |p.steps| <= Rank(st.calls[c]) + HolderRank(st)
    ensures var s := st.discs[d].pc.s;
            TrySender(end, s, Meet(c, true)).Some? || TrySender(end, s, Panic(c)).Some?
  {
    ReachedIsOrderly(st, steps);
    c := NotifiedCall(st, steps, d);
    p, end := CallsSettle(st, c, CallsOnly);
    SendGoesThrough(end, st.discs[d].pc.s, c);
    PathRuns(p, st, CallsOnly, end);
  }

  // ----- a Disconnect that does not wait ----------------------------------------------------

  lemma {:induction false} FreshId(used: set<nat>) returns (n: nat)
    ensures forall k :: k in used ==> k < n
  {
    n := 0;
    if used != {} {
      var k :| k in used;
      var m := FreshId(used - {k});
      n := if m <= k then k + 1 else m;
      forall j | j in used
        ensures j < n
      {
        assert j == k || j in used - {k};
      }
    }
  }

  /** A request to close with a UUID nobody has. */
  lemma FreshClose(used: set<string>) returns (request: Request)
    ensures WellFormed(request) && request.fn == CLOSE && request.uuid !in used
  {
    var lengths := set u | u in used :: |u|;
    var n := FreshId(lengths);
    request := Request(seq(n + 1, _ => 'a'), CLOSE, "");
    assert forall u :: u in used ==> |u| in lengths;
  }

  /** Disconnect `d` is over, and the decoder and heartbeat loops are where they were. */
  ghost predicate Completed(st: State, d: DiscId, end: State) {
    d in end.discs && end.discs[d].pc == Finished && end.loop == st.loop && end.heart == st.heart
  }

  lemma DiscStepLeads(st: State, d: DiscId, step: DiscStep) returns (p: Path, next: State)
    requires TryDisc(st, d, step).Some? && !step.CtxExpires?
    ensures next == TryDisc(st, d, step).value && p.Leads(st, AndDisconnect(d), next)
  {
    next := TryDisc(st, d, step).value;
    p := Path([st, next], [OfDisc(d, step)]);
    OneStepLeads(st, OfDisc(d, step), AndDisconnect(d), next);
  }

  lemma FinishLeft(st: State, d: DiscId) returns (p: Path, end: State)
    requires d in st.discs && st.discs[d].pc == Left && !st.discs[d].wait
    ensures p.Leads(st, AndDisconnect(d), end) && Completed(st, d, end)
  {
    p, end := DiscStepLeads(st, d, Finish);
  }

  lemma FinishSeen(st: State, d: DiscId) returns (p: Path, end: State)
    requires d in st.discs && st.discs[d].pc == Ranging && !st.discs[d].wait && st.discs[d].snap <= st.discs[d].seen
    ensures p.Leads(st, AndDisconnect(d), end) && Completed(st, d, end)
  {
    var next, more;
    p, next := DiscStepLeads(st, d, Leave);
    more, end := FinishLeft(next, d);
    p.ThenLeads(st, AndDisconnect(d), next, more, end);
    p := p.Then(more);
  }

  /** One more entry of `InFlight` is dealt with: a notifier is started for it. */
  lemma PickLeads(st: State, d: DiscId, u: string) returns (p: Path, next: State)
    requires d in st.discs && st.discs[d].pc == Ranging && !st.discs[d].wait
    requires u in st.inFlight && u !in st.discs[d].seen
    ensures p.Leads(st, AndDisconnect(d), next)
    ensures next.inFlight == st.inFlight && next.loop == st.loop && next.heart == st.heart
    ensures d in next.discs && next.discs[d] == st.discs[d].(seen := st.discs[d].seen + {u})
  {
    var s := FreshId(st.senders.Keys);
    p, next := DiscStepLeads(st, d, DiscStep.Pick(u, s));
  }

  lemma {:induction false} FinishRanging(st: State, d: DiscId) returns (p: Path, end: State)
    requires d in st.discs && st.discs[d].pc == Ranging && !st.discs[d].wait
    requires st.discs[d].snap <= st.inFlight.Keys
    ensures p.Leads(st, AndDisconnect(d), end) && Completed(st, d, end)
    decreases st.inFlight.Keys - st.discs[d].seen
  {
    var seen := st.discs[d].seen;
    if u :| u in st.inFlight && u !in seen {
      var next, more;
      p, next := PickLeads(st, d, u);
      assert u in st.inFlight.Keys - seen;
      more, end := FinishRanging(next, d);
      p.ThenLeads(st, AndDisconnect(d), next, more, end);
      p := p.Then(more);
    } else {
      assert st.inFlight.Keys <= seen;
      p, end := FinishSeen(st, d);
    }
  }

  /** The `Close` call never waits for an answer, so it ends by itself. */
  lemma FinishClosing(st: State, d: DiscId) returns (p: Path, end: State)
    requires Orderly(st) && d in st.discs && st.discs[d].pc.Closing? && !st.discs[d].wait && ClosesOwn(st, d)
    ensures p.Leads(st, AndDisconnect(d), end) && Completed(st, d, end)
  {
    var mid, next, more;
    p, mid := CallsSettle(st, st.discs[d].pc.c, AndDisconnect(d));
    more, next := DiscStepLeads(mid, d, CloseReturned);
    p.ThenLeads(st, AndDisconnect(d), mid, more, next);
    p := p.Then(more);
    more, end := FinishRanging(next, d);
    p.ThenLeads(st, AndDisconnect(d), next, more, end);
    p := p.Then(more);
  }

  /** A call to `Close` that nobody else has drawn. */
  lemma FreshCall(calls: map<CallId, Call>) returns (c: CallId, request: Request, ch: Chan)
    ensures c !in calls && WellFormed(request) && request.fn == CLOSE
    ensures forall b :: b in calls ==> calls[b].request.uuid != request.uuid && calls[b].ch != ch
  {
    var chans := set b | b in calls :: calls[b].ch;
    var uuids := set b | b in calls :: calls[b].request.uuid;
    c := FreshId(calls.Keys);
    ch := FreshId(chans);
    request := FreshClose(uuids);
    assert forall b :: b in calls ==> calls[b].request.uuid in uuids && calls[b].ch in chans;
  }

  lemma DrawOrderly(st: State, next: State, c: CallId, call: Call)
    requires Orderly(st) && c !in st.calls && call.pc == Drawn
    requires next.calls == st.calls[c := call] && next.enc == st.enc
    ensures Orderly(next)
  {
  }

  lemma CallCloseEffect(st: State, d: DiscId, c: CallId, request: Request, ch: Chan)
    requires d in st.discs && st.discs[d].pc == Stopped && c !in st.calls && WellFormed(request) && request.fn == CLOSE
    requires forall b :: b in st.calls ==> st.calls[b].request.uuid != request.uuid && st.calls[b].ch != ch
    ensures TryDisc(st, d, CallClose(c, request, ch)) ==
            Some(DiscAt(st, d, Closing(c)).(calls := st.calls[c := Call(request, ch, Drawn)]))
  {
  }

  lemma CallCloseLeads(st: State, d: DiscId) returns (p: Path, next: State)
    requires Orderly(st) && d in st.discs && st.discs[d].pc == Stopped
    ensures p.Leads(st, AndDisconnect(d), next) && Orderly(next)
    ensures d in next.discs && next.discs[d].wait == st.discs[d].wait && next.discs[d].pc.Closing? && ClosesOwn(next, d)
    ensures next.loop == st.loop && next.heart == st.heart
  {
    var c, request, ch := FreshCall(st.calls);
    CallCloseEffect(st, d, c, request, ch);
    p, next := DiscStepLeads(st, d, CallClose(c, request, ch));
    DrawOrderly(st, next, c, Call(request, ch, Drawn));
  }

  lemma FinishStopped(st: State, d: DiscId) returns (p: Path, end: State)
    requires Orderly(st) && d in st.discs && st.discs[d].pc == Stopped && !st.discs[d].wait
    ensures p.Leads(st, AndDisconnect(d), end) && Completed(st, d, end)
  {
    var next, more;
    p, next := CallCloseLeads(st, d);
    more, end := FinishClosing(next, d);
    p.ThenLeads(st, AndDisconnect(d), next, more, end);
    p := p.Then(more);
  }

  lemma FinishEntered(st: State, d: DiscId) returns (p: Path, end: State)
    requires Orderly(st) && d in st.discs && st.discs[d].pc == Entered && !st.discs[d].wait
    ensures p.Leads(st, AndDisconnect(d), end) && Completed(st, d, end)
  {
    var next, more;
    p, next := DiscStepLeads(st, d, Stop);
    more, end := FinishStopped(next, d);
    p.ThenLeads(st, AndDisconnect(d), next, more, end);
    p := p.Then(more);
  }

  /** The call a Disconnect makes and waits for is a `Close`, which never waits for an answer. */
  predicate ClosesOwn(st: State, d: DiscId) {
    d in st.discs && st.discs[d].pc.Closing? ==>
      var c := st.discs[d].pc.c;
      c in st.calls && st.calls[c].request.fn == CLOSE && !st.calls[c].pc.Waiting?
  }

  /** Wherever a Disconnect that does not wait stands, it can be finished without help. */
  lemma DisconnectFinishes(st: State, d: DiscId) returns (p: Path, end: State)
    requires Orderly(st) && ClosesOwn(st, d) && d in st.discs && !st.discs[d].wait && !st.discs[d].pc.Notifying?
    requires st.discs[d].pc.Ranging? ==> st.discs[d].snap <= st.inFlight.Keys
    ensures p.Leads(st, AndDisconnect(d), end) && Completed(st, d, end)
  {
    match st.discs[d].pc
    case Entered => p, end := FinishEntered(st, d);
    case Stopped => p, end := FinishStopped(st, d);
    case Closing(_) => p, end := FinishClosing(st, d);
    case Ranging => p, end := FinishRanging(st, d);
    case Left => p, end := FinishLeft(st, d);
    case Finished => p, end := Here(st), st;
  }

  // ----- the decoder loop never waits on itself ---------------------------------------------

  /** The disconnects started by the decoder loop and by the heartbeat do not wait. */
  predicate OwnDisconnects(st: State) {
    && (st.loop.pc.Disconnecting? ==> st.loop.pc.d in st.discs && !st.discs[st.loop.pc.d].wait)
    && (st.heart.pc.Dropping? ==> st.heart.pc.d in st.discs && !st.discs[st.heart.pc.d].wait)
  }

  lemma DiscKeepsWait(st: State, d: DiscId, step: DiscStep, next: State)
    requires TryDisc(st, d, step) == Some(next)
    ensures d in st.discs && d in next.discs && next.discs == st.discs[d := next.discs[d]]
    ensures next.discs[d].wait == st.discs[d].wait && next.loop == st.loop && next.heart == st.heart
  {
  }

  lemma HeartOwn(st: State, step: HeartStep, next: State)
    requires OwnDisconnects(st) && TryHeart(st, step) == Some(next)
    ensures OwnDisconnects(next)
  {
  }

  lemma OwnDisconnectsStep(st: State, step: Step, next: State)
    requires OwnDisconnects(st) && Try(st, step) == Some(next)
    ensures OwnDisconnects(next)
  {
    match step
    case OfDisc(d, disc) => DiscKeepsWait(st, d, disc, next);
    case OfCall(c, call) => CallEffect(st, c, call, next);
    case OfSender(s, send) => SenderEffect(st, s, send, next);
    case OfRemote(remote) => RemoteEffect(st, remote, next);
    case OfLoop(loop) => LoopEffect(st, loop, next);
    case OfHeart(heart) => HeartOwn(st, heart, next);
    case NewCall(_, _, _) =>
    case NewDisconnect(_, _) =>
  }

  ghost predicate Closes(st: State) {
    forall d :: d in st.discs && st.discs[d].pc.Closing? ==>
      st.discs[d].pc.c in st.calls && st.calls[st.discs[d].pc.c].request.fn == CLOSE
  }

  /** Requests stay what they were drawn with. */
  ghost predicate SameRequests(before: map<CallId, Call>, after: map<CallId, Call>) {
    forall c :: c in before ==> c in after && after[c].request == before[c].request
  }

  lemma MeetSameRequests(st: State, s: SenderId, step: SendStep, next: State)
    requires TrySender(st, s, step) == Some(next)
    ensures SameRequests(st.calls, next.calls)
  {
    if !step.Meet? {
      SenderEffect(st, s, step, next);
    }
  }

  lemma HeartSameRequests(st: State, step: HeartStep, next: State)
    requires TryHeart(st, step) == Some(next)
    ensures SameRequests(st.calls, next.calls)
    ensures forall d :: d in next.discs && d !in st.discs ==> next.discs[d].pc == Entered
    ensures forall d :: d in st.discs ==> d in next.discs && next.discs[d] == st.discs[d]
  {
    if !step.StartPing? {
      HeartEffect(st, step, next);
    }
  }

  lemma DiscCloses(st: State, d: DiscId, step: DiscStep, next: State)
    requires Closes(st) && TryDisc(st, d, step) == Some(next)
    ensures Closes(next)
  {
  }

  lemma LoopCloses(st: State, step: LoopStep, next: State)
    requires Closes(st) && TryLoop(st, step) == Some(next)
    ensures Closes(next)
  {
    LoopEffect(st, step, next);
  }

  lemma ClosesStep(st: State, step: Step, next: State)
    requires Closes(st) && Try(st, step) == Some(next)
    ensures Closes(next)
  {
    match step
    case OfDisc(d, disc) => DiscCloses(st, d, disc, next);
    case OfCall(c, call) => CallEffect(st, c, call, next);
    case OfSender(s, send) =>
      MeetSameRequests(st, s, send, next);
      SenderEffect(st, s, send, next);
    case OfRemote(remote) => RemoteEffect(st, remote, next);
    case OfLoop(loop) => LoopCloses(st, loop, next);
    case OfHeart(heart) => HeartSameRequests(st, heart, next);
    case NewCall(_, _, _) =>
    case NewDisconnect(_, _) =>
  }

  lemma {:induction false} OwnDisconnectsRun(st: State, steps: seq<Step>, end: State)
    requires OwnDisconnects(st) && Closes(st) && Run(st, steps) == Some(end)
    ensures OwnDisconnects(end) && Closes(end)
    decreases |steps|
  {
    if steps != [] {
      var next := Try(st, steps[0]).value;
      OwnDisconnectsStep(st, steps[0], next);
      ClosesStep(st, steps[0], next);
      OwnDisconnectsRun(next, steps[1..], end);
    }
  }

  /** What a Disconnect that does not wait needs to be finished holds wherever it is reached. */
  lemma ReachedDisconnect(st: State, steps: seq<Step>, d: DiscId)
    requires Reached(st, steps) && d in st.discs && !st.discs[d].wait
    ensures Orderly(st) && ClosesOwn(st, d) && !st.discs[d].pc.Notifying?
    ensures st.discs[d].snap <= st.inFlight.Keys
  {
    ReachedIsGood(st, steps);
    OwnDisconnectsRun(START, steps, st);
    assert ShutOwn(st.discs[d], st.calls, st.inFlight);
  }

  /**
   The decoder loop's own Disconnect never waits for the decoder loop. Wherever that Disconnect
   stands, steps of its own, of its `Close` call and of the holder of the lock finish it, without a
   step of the loop, of the remote or of any deliverer; and then the loop can return.
   */
  lemma DecoderNeverWaitsOnItself(st: State, steps: seq<Step>) returns (p: Path, end: State)
    requires Reached(st, steps) && st.loop.pc.Disconnecting?
    ensures p.Leads(st, AndDisconnect(st.loop.pc.d), end) && Run(st, p.steps) == Some(end)
    ensures TryLoop(end, DisconnectReturned) == Some(LoopAt(end, Returned))
  {
    OwnDisconnectsRun(START, steps, st);
    ReachedDisconnect(st, steps, st.loop.pc.d);
    p, end := DisconnectFinishes(st, st.loop.pc.d);
    PathRuns(p, st, AndDisconnect(st.loop.pc.d), end);
  }

  /** Nor does the heartbeat's: its loop can then stop. */
  lemma HeartNeverWaitsOnItself(st: State, steps: seq<Step>) returns (p: Path, end: State)
    requires Reached(st, steps) && st.heart.pc.Dropping?
    ensures p.Leads(st, AndDisconnect(st.heart.pc.d), end) && Run(st, p.steps) == Some(end)
    ensures TryHeart(end, Dropped) == Some(HeartAt(end, Stilled))
  {
    OwnDisconnectsRun(START, steps, st);
    ReachedDisconnect(st, steps, st.heart.pc.d);
    p, end := DisconnectFinishes(st, st.heart.pc.d);
    PathRuns(p, st, AndDisconnect(st.heart.pc.d), end);
  }
}
