/** What every reachable state, and every run, of the RPC system promises. */
module RpcTheorems {
  import opened Wrappers
  import opened Frames
  import opened Rpc
  import opened RpcInvariants
  import opened RpcPreservation
  import opened RpcSpec
  import opened RpcRefinement

  ghost predicate Reached(st: State, steps: seq<Step>) {
    Run(START, steps) == Some(st)
  }

  lemma ReachedIsGood(st: State, steps: seq<Step>)
    requires Reached(st, steps)
    ensures Good(st)
  {
    StartHolds();
    var _ := RunRefines(START, steps, st);
  }

  // ----- answers ----------------------------------------------------------------------------

  /**
   Answers are never crossed: a call that ends with an answer ends with one the remote produced
   after reading the frame of that very call, whole.
   */
  lemma AnswersAreNotCrossed(st: State, steps: seq<Step>, c: CallId)
    requires Reached(st, steps)
    requires c in st.calls && GotMessage(st.calls[c].pc) && st.calls[c].pc.outcome.msg.Answer?
    ensures var m := st.calls[c].pc.outcome.msg;
            && m.uuid == st.calls[c].request.uuid
            && m.(faulty := false) in st.remote.produced
            && Text(st.calls[c]) in st.remote.read
            && forall b :: b in st.calls && st.calls[b].request.uuid == m.uuid ==> b == c
  {
    ReachedIsGood(st, steps);
    var m := st.calls[c].pc.outcome.msg.(faulty := false);
    assert Asked(st.remote.read, m.uuid);
    var i :| 0 <= i < |st.remote.read| && UuidIn(st.remote.read[i]) == m.uuid;
    LineIsOf(st, i);
  }

  /** Every UUID in a whole frame, in the remote, on its way back or being delivered is registered. */
  lemma AnswersAreKnown(st: State, steps: seq<Step>)
    requires Reached(st, steps)
    ensures forall l :: l in st.enc.lines ==> UuidIn(l) in st.inFlight
    ensures forall l :: l in st.remote.read ==> UuidIn(l) in st.inFlight
    ensures forall m :: m in st.remote.produced ==> m.uuid in st.inFlight
    ensures forall m :: m in st.remote.back && m.uuid != "" ==> m.uuid in st.inFlight
    ensures forall s :: s in st.senders && st.senders[s].msg.uuid != "" ==> st.senders[s].msg.uuid in st.inFlight
    ensures Held(st.loop).Some? && Held(st.loop).value.uuid != "" ==> Held(st.loop).value.uuid in st.inFlight
  {
    ReachedIsGood(st, steps);
    LinesAreKnown(st);
    forall m | m in st.remote.produced
      ensures m.uuid in st.inFlight
    {
      AskedIsKnown(st, m.uuid);
    }
    MessagesAreKnown(st);
  }

  lemma LinesAreKnown(st: State)
    requires Registry(st.calls, st.inFlight) && Framing(st.calls, st.enc) && Progress(st.calls, st.enc)
    requires Reading(st.enc, st.remote)
    ensures forall l :: l in st.enc.lines ==> UuidIn(l) in st.inFlight
    ensures forall l :: l in st.remote.read ==> UuidIn(l) in st.inFlight
  {
    forall l | l in st.enc.lines
      ensures UuidIn(l) in st.inFlight
    {
      var i :| 0 <= i < |st.enc.lines| && st.enc.lines[i] == l;
      assert st.enc.owners[i] in st.enc.owners;
      EncodeIsLine(st.calls[st.enc.owners[i]].request);
    }
  }

  lemma MessagesAreKnown(st: State)
    requires Answering(st.remote) && Carrying(st.senders, st.loop, st.remote.produced)
    requires Addressed(st.senders, st.inFlight)
    requires forall m :: m in st.remote.produced ==> m.uuid in st.inFlight
    ensures forall m :: m in st.remote.back && m.uuid != "" ==> m.uuid in st.inFlight
    ensures forall s :: s in st.senders && st.senders[s].msg.uuid != "" ==> st.senders[s].msg.uuid in st.inFlight
  {
    forall m | m in st.remote.back && m.uuid != ""
      ensures m.uuid in st.inFlight
    {
      assert m.(faulty := false) in st.remote.produced;
    }
    forall s | s in st.senders && st.senders[s].msg.uuid != ""
      ensures st.senders[s].msg.uuid in st.inFlight
    {
      var sender := st.senders[s];
      assert CarriesOwn(sender, st.remote.produced) && AddressedOwn(sender, st.inFlight);
      if sender.msg.Answer? {
        assert sender.msg.(faulty := false) in st.remote.produced;
      }
    }
  }

  /** So a deliverer with a UUID always finds a channel: the one its own call waits on. */
  lemma NotFoundIsUnreachable(st: State, steps: seq<Step>, s: SenderId)
    requires Reached(st, steps)
    requires s in st.senders && st.senders[s].pc == Loading && st.senders[s].msg.uuid != ""
    ensures exists c :: && Owns(st.calls, c, st.senders[s].msg.uuid)
                        && TrySender(st, s, Load) == Some(SenderAt(st, s, Sending(st.calls[c].ch)))
  {
    ReachedIsGood(st, steps);
    AnswersAreKnown(st, steps);
    assert NoticeOwn(st.senders[s], st.discs);
    var u := st.senders[s].msg.uuid;
    var c :| Owns(st.calls, c, u);
    assert st.inFlight[u] == st.calls[c].ch;
  }

  // ----- the wire ---------------------------------------------------------------------------

  /**
   The stream is whole frames of different calls and at most one unfinished frame, which belongs
   to the lock holder or to the call whose write failed; a reader that cuts it at newlines gets
   exactly those frames, and every call past the encode step without error is among their owners.
   */
  lemma WireIsFrames(st: State, steps: seq<Step>)
    requires Reached(st, steps)
    ensures CutLines(st.enc.wire) == (st.enc.lines, st.enc.part)
    ensures |st.enc.owners| == |st.enc.lines|
    ensures forall i :: 0 <= i < |st.enc.owners| ==>
              st.enc.owners[i] in st.calls && st.enc.lines[i] == Text(st.calls[st.enc.owners[i]])
    ensures forall i, j :: 0 <= i < j < |st.enc.owners| ==> st.enc.owners[i] != st.enc.owners[j]
    ensures forall c :: c in st.calls && Sent(st.calls[c].pc) ==> c in st.enc.owners
    ensures st.enc.part != "" ==>
              exists c :: && c in st.calls && (st.enc.broken == Some(c) || (st.enc.broken.None? && st.enc.lock == Some(c)))
                          && |st.enc.part| < |Text(st.calls[c])| && st.enc.part == Text(st.calls[c])[..|st.enc.part|]
  {
    ReachedIsGood(st, steps);
    FramesAreLines(st);
    PartHasNoNewline(st);
    CutRecoversLines(st.enc.lines, st.enc.part);
    UnfinishedHasOwner(st);
  }

  lemma UnfinishedHasOwner(st: State)
    requires Progress(st.calls, st.enc) && Unfinished(st.calls, st.enc)
    ensures st.enc.part != "" ==>
              exists c :: && c in st.calls && (st.enc.broken == Some(c) || (st.enc.broken.None? && st.enc.lock == Some(c)))
                          && |st.enc.part| < |Text(st.calls[c])| && st.enc.part == Text(st.calls[c])[..|st.enc.part|]
  {
    if st.enc.part != "" {
      var c := if st.enc.broken.Some? then st.enc.broken.value else st.enc.lock.value;
      assert c in st.calls;
    }
  }

  /** Every line the remote has read decodes to the call that owns it, function and arguments included. */
  lemma RemoteReadsTheCalls(st: State, steps: seq<Step>, i: nat)
    requires Reached(st, steps) && i < |st.remote.read|
    ensures i < |st.enc.owners| && st.enc.owners[i] in st.calls
    ensures var request := st.calls[st.enc.owners[i]].request;
            '"' !in request.fn ==> Decode(st.remote.read[i]) == Some(request)
  {
    ReachedIsGood(st, steps);
    LineIsOf(st, i);
    var request := st.calls[st.enc.owners[i]].request;
    if '"' !in request.fn {
      DecodeInvertsEncode(request);
    }
  }

  // ----- shutdown ---------------------------------------------------------------------------

  /**
   When a waiting Disconnect is past its notify loop with its context not done, every call it saw
   registered has taken a message or closed its channel.
   */
  lemma ShutdownIsComplete(st: State, steps: seq<Step>, d: DiscId)
    requires Reached(st, steps)
    requires d in st.discs && st.discs[d].wait && !st.discs[d].ctxDone
    requires st.discs[d].pc.Left? || st.discs[d].pc.Finished?
    ensures forall c :: c in st.calls && st.calls[c].request.uuid in st.discs[d].snap ==> Served(st.calls[c].pc)
    ensures forall c :: c in st.calls && st.calls[c].pc.Waiting? ==> st.calls[c].request.uuid !in st.discs[d].snap
  {
    ReachedIsGood(st, steps);
    assert ShutOwn(st.discs[d], st.calls, st.inFlight);
  }

  /** How far a call is from its end, in steps of its own. */
  function Rank(call: Call): nat {
    var text := |Text(call)|;
    match call.pc
    case Drawn => text + 8
    case Queued => text + 7
    case Locked => text + 6
    case Encoding(n) => 5 + (if n <= text then text - n else 0)
    case Encoded(_) => 4
    case Waiting => 3
    case Leaving(_) => 2
    case Ended(_) => 1
  }

  /** Every step of a call brings it closer to its end. */
  lemma CallsDescend(st: State, c: CallId, step: CallStep, next: State)
    requires TryCall(st, c, step) == Some(next)
    ensures Rank(next.calls[c]) < Rank(st.calls[c])
  {
  }

  // ----- delivery ---------------------------------------------------------------------------

  /** How many steps a deliverer may still take. */
  function Patient(sender: Sender): nat {
    match (sender.kind, sender.pc)
    case (_, Done(_)) => 0
    case (Deliverer(a), Loading) => 2 + 2 * (if a <= ATTEMPTS then ATTEMPTS - a else 0)
    case (Deliverer(a), Sending(_)) => 1 + 2 * (if a <= ATTEMPTS then ATTEMPTS - a else 0)
    case (_, _) => 1
  }

  /** Every deliverer stops: each of its steps lowers its measure, and it always has a step to take. */
  lemma DeliverersStop(st: State, steps: seq<Step>, s: SenderId, step: SendStep, next: State)
    requires Reached(st, steps) && s in st.senders && st.senders[s].kind.Deliverer?
    ensures TrySender(st, s, step) == Some(next) ==> s in next.senders && Patient(next.senders[s]) < Patient(st.senders[s])
    ensures !st.senders[s].pc.Done? ==> TrySender(st, s, Load).Some? || TrySender(st, s, TimeOut).Some?
    ensures Patient(st.senders[s]) <= 20
  {
    ReachedIsGood(st, steps);
    assert PatientOwn(st.senders[s]);
    DelivererDescends(st, s, step, next);
    DelivererMoves(st, s);
  }

  lemma DelivererMoves(st: State, s: SenderId)
    requires s in st.senders && st.senders[s].kind.Deliverer? && PatientOwn(st.senders[s])
    ensures !st.senders[s].pc.Done? ==> TrySender(st, s, Load).Some? || TrySender(st, s, TimeOut).Some?
    ensures Patient(st.senders[s]) <= 20
  {
  }

  lemma DelivererDescends(st: State, s: SenderId, step: SendStep, next: State)
    requires s in st.senders && st.senders[s].kind.Deliverer? && PatientOwn(st.senders[s])
    ensures TrySender(st, s, step) == Some(next) ==> s in next.senders && Patient(next.senders[s]) < Patient(st.senders[s])
  {
  }

  /**
   How a deliverer stopped: delivered, dropped on a closed channel, dropped after ten attempts, or
   dropped because the answer named no call. Giving up took exactly 10 s and 45 ns of nominal
   waiting, since the back-off is in nanoseconds, and nothing else took longer.
   */
  lemma DeliverersEnd(st: State, steps: seq<Step>, s: SenderId)
    requires Reached(st, steps) && s in st.senders && st.senders[s].kind.Deliverer? && st.senders[s].pc.Done?
    ensures st.senders[s].blocked <= 10 * SECOND + 45
    ensures match st.senders[s].pc.how
            case Delivered => exists c :: && Owns(st.calls, c, st.senders[s].msg.uuid) && GotMessage(st.calls[c].pc)
                                          && st.calls[c].pc.outcome.msg == st.senders[s].msg
            case OnClosed => exists c :: Owns(st.calls, c, st.senders[s].msg.uuid) && st.calls[c].pc.Ended?
            case Expired => st.senders[s].kind.attempt == ATTEMPTS && st.senders[s].blocked == 10 * SECOND + 45
            case NoUuid => true
  {
    ReachedIsGood(st, steps);
    AnswersAreKnown(st, steps);
    assert PatientOwn(st.senders[s]) && AddressedOwn(st.senders[s], st.inFlight);
    if st.senders[s].pc.how == Delivered || st.senders[s].pc.how == OnClosed {
      var c :| Owns(st.calls, c, st.senders[s].msg.uuid);
    }
    BackOffGrows(st.senders[s].kind.attempt);
  }

  lemma {:induction false} BackOffGrows(a: nat)
    requires a <= ATTEMPTS
    ensures BackOff(a) <= 45 && BackOff(ATTEMPTS) == 45
  {
    assert BackOff(ATTEMPTS) == 45 by {
      assert BackOff(5) == 10;
      assert BackOff(8) == 28;
    }
    if a < ATTEMPTS {
      BackOffStep(a, ATTEMPTS);
    }
  }

  lemma {:induction false} BackOffStep(a: nat, b: nat)
    requires a <= b
    ensures BackOff(a) <= BackOff(b)
    decreases b - a
  {
    if a < b {
      BackOffStep(a, b - 1);
    }
  }
}
