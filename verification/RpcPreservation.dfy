/** Every step keeps the invariant, so every run from the start does. */
module RpcPreservation {
  import opened Strings
  import opened Wrappers
  import opened Frames
  import opened Rpc
  import opened RpcInvariants

  // ----- one call moves on ------------------------------------------------------------------

  function Moved(calls: map<CallId, Call>, c: CallId, pc: CallPc): map<CallId, Call>
    requires c in calls
  {
    calls[c := calls[c].(pc := pc)]
  }

  /** What a move must not undo. */
  predicate Onward(before: CallPc, after: CallPc) {
    && HasRegistered(after)
    && (GotMessage(before) ==> GotMessage(after) && after.outcome == before.outcome)
    && (before.Ended? ==> after.Ended?)
  }

  lemma MoveRegistry(calls: map<CallId, Call>, inFlight: map<string, Chan>, c: CallId, pc: CallPc)
    requires Registry(calls, inFlight)
    requires c in calls && HasRegistered(pc) && HasRegistered(calls[c].pc)
    ensures Registry(Moved(calls, c, pc), inFlight)
  {
    forall u | u in inFlight
      ensures exists b :: Owns(Moved(calls, c, pc), b, u)
    {
      var b :| Owns(calls, b, u);
      assert Owns(Moved(calls, c, pc), b, u);
    }
  }

  lemma RegisterRegistry(calls: map<CallId, Call>, inFlight: map<string, Chan>, c: CallId)
    requires Registry(calls, inFlight)
    requires c in calls
    ensures Registry(Moved(calls, c, Queued), inFlight[calls[c].request.uuid := calls[c].ch])
  {
    var after := inFlight[calls[c].request.uuid := calls[c].ch];
    forall u | u in after
      ensures exists b :: Owns(Moved(calls, c, Queued), b, u)
    {
      if u == calls[c].request.uuid {
        assert Owns(Moved(calls, c, Queued), c, u);
      } else {
        var b :| Owns(calls, b, u);
        assert Owns(Moved(calls, c, Queued), b, u);
      }
    }
  }

  /** What a call may end with. */
  predicate Ending(call: Call, pc: CallPc, produced: set<Msg>) {
    && (GotMessage(pc) ==>
          && pc.outcome.msg.uuid == call.request.uuid
          && (pc.outcome.msg.Answer? ==> Genuine(produced, pc.outcome.msg)))
    && (pc.Waiting? || GotMessage(pc) ==> call.request.fn != CLOSE)
    && ((pc.Leaving? || pc.Ended?) && pc.outcome == CtxEnded ==> call.request.fn != CLOSE)
    && ((pc.Leaving? || pc.Ended?) && pc.outcome == Closed ==> call.request.fn == CLOSE)
  }

  lemma MoveOutcomes(calls: map<CallId, Call>, produced: set<Msg>, c: CallId, pc: CallPc)
    requires Outcomes(calls, produced) && c in calls && Ending(calls[c], pc, produced)
    ensures Outcomes(Moved(calls, c, pc), produced)
  {
  }

  lemma MoveMet(senders: map<SenderId, Sender>, calls: map<CallId, Call>, c: CallId, pc: CallPc)
    requires Met(senders, calls) && c in calls && Onward(calls[c].pc, pc)
    ensures Met(senders, Moved(calls, c, pc))
  {
  }

  lemma MoveShutting(discs: map<DiscId, Disc>, calls: map<CallId, Call>, inFlight: map<string, Chan>,
                     c: CallId, pc: CallPc)
    requires Shutting(discs, calls, inFlight) && c in calls && Onward(calls[c].pc, pc)
    ensures Shutting(discs, Moved(calls, c, pc), inFlight)
  {
  }

  lemma MoveFraming(calls: map<CallId, Call>, enc: Encoder, c: CallId, pc: CallPc)
    requires Framing(calls, enc) && c in calls
    ensures Framing(Moved(calls, c, pc), enc)
  {
  }

  /** A move between two points that are both inside the lock, or both outside it. */
  lemma MoveEncoder(calls: map<CallId, Call>, enc: Encoder, c: CallId, pc: CallPc)
    requires Locking(calls, enc) && Progress(calls, enc) && Unfinished(calls, enc)
    requires c in calls && Holds(pc) == Holds(calls[c].pc)
    requires !pc.Encoding? || (pc == Encoding(0) && calls[c].pc.Locked? && enc.broken.None? && enc.part == "")
    requires pc.Drawn? || pc.Queued? || pc.Locked? ==> c !in enc.owners
    requires Sent(pc) ==> c in enc.owners
    requires calls[c].pc.Encoding? ==> enc.part == ""
    requires enc.broken == Some(c) ==>
               pc == Encoded(false) || pc == Leaving(EncodeFailed) || pc == Ended(EncodeFailed)
    ensures Locking(Moved(calls, c, pc), enc)
    ensures Progress(Moved(calls, c, pc), enc)
    ensures Unfinished(Moved(calls, c, pc), enc)
  {
    MoveProgress(calls, enc, c, pc);
    MoveUnfinished(calls, enc, c, pc);
  }

  lemma MoveProgress(calls: map<CallId, Call>, enc: Encoder, c: CallId, pc: CallPc)
    requires Progress(calls, enc) && c in calls
    requires pc.Encoding? ==> pc == Encoding(0) && enc.broken.None? && enc.part == "" && c !in enc.owners
    requires pc.Drawn? || pc.Queued? || pc.Locked? ==> c !in enc.owners
    requires Sent(pc) ==> c in enc.owners
    ensures Progress(Moved(calls, c, pc), enc)
  {
    TextNonempty(calls[c]);
  }

  lemma MoveUnfinished(calls: map<CallId, Call>, enc: Encoder, c: CallId, pc: CallPc)
    requires Unfinished(calls, enc) && c in calls
    requires calls[c].pc.Encoding? ==> enc.part == ""
    requires enc.broken == Some(c) ==>
               pc == Encoded(false) || pc == Leaving(EncodeFailed) || pc == Ended(EncodeFailed)
    ensures Unfinished(Moved(calls, c, pc), enc)
  {
  }

  lemma TextNonempty(call: Call)
    ensures |Text(call)| > 0
  {
  }

  lemma LockKeeps(calls: map<CallId, Call>, enc: Encoder, c: CallId)
    requires Locking(calls, enc) && Progress(calls, enc) && Unfinished(calls, enc)
    requires c in calls && calls[c].pc == Queued && enc.lock.None?
    ensures Locking(Moved(calls, c, Locked), enc.(lock := Some(c)))
    ensures Progress(Moved(calls, c, Locked), enc.(lock := Some(c)))
    ensures Unfinished(Moved(calls, c, Locked), enc.(lock := Some(c)))
  {
  }

  lemma UnlockKeeps(calls: map<CallId, Call>, enc: Encoder, c: CallId, ok: bool)
    requires Locking(calls, enc) && Progress(calls, enc) && Unfinished(calls, enc)
    requires c in calls && calls[c].pc == Encoded(ok)
    ensures var pc := AfterEncode(calls[c], ok);
            && Locking(Moved(calls, c, pc), enc.(lock := None))
            && Progress(Moved(calls, c, pc), enc.(lock := None))
            && Unfinished(Moved(calls, c, pc), enc.(lock := None))
  {
  }

  lemma FailKeeps(calls: map<CallId, Call>, enc: Encoder, c: CallId, n: nat)
    requires Locking(calls, enc) && Progress(calls, enc) && Unfinished(calls, enc)
    requires c in calls && calls[c].pc == Encoding(n)
    ensures Locking(Moved(calls, c, Encoded(false)), enc.(broken := Some(c)))
    ensures Progress(Moved(calls, c, Encoded(false)), enc.(broken := Some(c)))
    ensures Unfinished(Moved(calls, c, Encoded(false)), enc.(broken := Some(c)))
  {
    TextNonempty(calls[c]);
  }

  /** Bytes that do not finish the frame extend the unfinished part. */
  lemma WriteSomeKeeps(calls: map<CallId, Call>, enc: Encoder, c: CallId, w: nat, n: nat)
    requires Locking(calls, enc) && Progress(calls, enc) && Unfinished(calls, enc) && Framing(calls, enc)
    requires c in calls && calls[c].pc == Encoding(w) && n > 0 && w + n < |Text(calls[c])|
    ensures var after := Written(enc, c, Text(calls[c]), w, n);
            && Locking(Moved(calls, c, Encoding(w + n)), after)
            && Progress(Moved(calls, c, Encoding(w + n)), after)
            && Unfinished(Moved(calls, c, Encoding(w + n)), after)
            && Framing(Moved(calls, c, Encoding(w + n)), after)
  {
    var text := Text(calls[c]);
    TakeMore(text, w, n);
    Assoc(Flatten(enc.lines), enc.part, text[w..w + n]);
  }

  /** The last byte turns the unfinished part into a whole frame. */
  lemma WriteLastKeeps(calls: map<CallId, Call>, enc: Encoder, c: CallId, w: nat, n: nat)
    requires Locking(calls, enc) && Progress(calls, enc) && Unfinished(calls, enc)
    requires c in calls && calls[c].pc == Encoding(w) && n > 0 && w + n == |Text(calls[c])|
    ensures var after := Written(enc, c, Text(calls[c]), w, n);
            && Locking(Moved(calls, c, Encoding(w + n)), after)
            && Progress(Moved(calls, c, Encoding(w + n)), after)
            && Unfinished(Moved(calls, c, Encoding(w + n)), after)
  {
    var after := Written(enc, c, Text(calls[c]), w, n);
    forall b | b in calls
      ensures b in after.owners <==> b in enc.owners || b == c
    {
      assert after.owners[|enc.owners|] == c;
      if b in enc.owners {
        var i :| 0 <= i < |enc.owners| && enc.owners[i] == b;
        assert after.owners[i] == b;
      }
    }
  }

  lemma WriteLastWire(enc: Encoder, c: CallId, text: string, w: nat, n: nat)
    requires w + n == |text| && n > 0
    requires enc.wire == Flatten(enc.lines) + enc.part && enc.part == text[..w]
    ensures var after := Written(enc, c, text, w, n); after.wire == Flatten(after.lines) + after.part
  {
    FlattenAppend(enc.lines, [text]);
    FlattenOne(text);
    TakeMore(text, w, n);
    Assoc(Flatten(enc.lines), enc.part, text[w..w + n]);
    assert text[..w + n] == text;
    var whole := Flatten(enc.lines + [text]);
    assert whole + "" == whole;
  }

  lemma WriteLastFraming(calls: map<CallId, Call>, enc: Encoder, c: CallId, w: nat, n: nat)
    requires Framing(calls, enc) && c !in enc.owners
    requires c in calls && n > 0 && w + n == |Text(calls[c])| && enc.part == Text(calls[c])[..w]
    ensures Framing(Moved(calls, c, Encoding(w + n)), Written(enc, c, Text(calls[c]), w, n))
  {
    WriteLastWire(enc, c, Text(calls[c]), w, n);
  }

  lemma WriteReading(enc: Encoder, after: Encoder, remote: Remote)
    requires Reading(enc, remote) && enc.lines <= after.lines
    ensures Reading(after, remote)
  {
    assert after.lines[..|remote.read|] == enc.lines[..|remote.read|];
  }

  /** Until a call registers, InFlight does not know its UUID. */
  lemma DrawnIsUnknown(calls: map<CallId, Call>, inFlight: map<string, Chan>, c: CallId)
    requires Registry(calls, inFlight) && c in calls && calls[c].pc == Drawn
    ensures calls[c].request.uuid !in inFlight
  {
    forall u | u in inFlight
      ensures u != calls[c].request.uuid
    {
      var b :| Owns(calls, b, u);
      assert b != c;
    }
  }

  /** Only registering touches InFlight. */
  lemma RegisterEffect(st: State, c: CallId, step: CallStep, next: State)
    requires TryCall(st, c, step) == Some(next)
    ensures c in st.calls && c in next.calls && next.calls == Moved(st.calls, c, next.calls[c].pc)
    ensures if step.Register?
            then && st.calls[c].pc == Drawn && next.calls[c].pc == Queued
                 && next.inFlight == st.inFlight[st.calls[c].request.uuid := st.calls[c].ch]
            else HasRegistered(st.calls[c].pc) && HasRegistered(next.calls[c].pc) && next.inFlight == st.inFlight
  {
  }

  lemma CallRegistry(st: State, c: CallId, step: CallStep, next: State)
    requires Registry(st.calls, st.inFlight)
    requires TryCall(st, c, step) == Some(next)
    ensures Registry(next.calls, next.inFlight)
  {
    RegisterEffect(st, c, step, next);
    if step.Register? {
      RegisterRegistry(st.calls, st.inFlight, c);
    } else {
      MoveRegistry(st.calls, st.inFlight, c, next.calls[c].pc);
    }
  }

  /** InFlight only grows: entries are never removed, and never rebound. */
  predicate Grown(before: map<string, Chan>, after: map<string, Chan>) {
    forall u :: u in before ==> u in after && after[u] == before[u]
  }

  lemma CallGrows(st: State, c: CallId, step: CallStep, next: State)
    requires Registry(st.calls, st.inFlight)
    requires TryCall(st, c, step) == Some(next)
    ensures Grown(st.inFlight, next.inFlight)
  {
    RegisterEffect(st, c, step, next);
    if step.Register? {
      DrawnIsUnknown(st.calls, st.inFlight, c);
    }
  }

  lemma GrownAddressed(senders: map<SenderId, Sender>, before: map<string, Chan>, after: map<string, Chan>)
    requires Addressed(senders, before) && Grown(before, after)
    ensures Addressed(senders, after)
  {
  }

  lemma CallMessages(st: State, c: CallId, step: CallStep, next: State)
    requires Outcomes(st.calls, st.remote.produced) && Met(st.senders, st.calls)
    requires Shutting(st.discs, st.calls, st.inFlight)
    requires TryCall(st, c, step) == Some(next) && Grown(st.inFlight, next.inFlight)
    ensures Outcomes(next.calls, next.remote.produced) && Met(next.senders, next.calls)
    ensures Shutting(next.discs, next.calls, next.inFlight)
  {
    var pc := next.calls[c].pc;
    assert Onward(st.calls[c].pc, pc) && Ending(st.calls[c], pc, st.remote.produced);
    MoveOutcomes(st.calls, st.remote.produced, c, pc);
    MoveMet(st.senders, st.calls, c, pc);
    MoveShutting(st.discs, st.calls, st.inFlight, c, pc);
  }

  predicate TouchesEncoder(step: CallStep) {
    step.Lock? || step.Unlock? || step.Write? || step.WriteFails?
  }

  /** How a call moves on beside the encoder: into its write, out of it, or outside the lock. */
  predicate Beside(call: Call, pc: CallPc, enc: Encoder) {
    match call.pc
    case Drawn => pc == Queued
    case Locked => pc == Encoded(false) || (pc == Encoding(0) && enc.broken.None?)
    case Encoding(n) => pc == Encoded(true) && n >= |Text(call)|
    case Waiting => pc == Leaving(CtxEnded)
    case Leaving(outcome) => pc == Ended(outcome)
    case _ => false
  }

  lemma BesideEffect(st: State, c: CallId, step: CallStep, next: State)
    requires TryCall(st, c, step) == Some(next) && !TouchesEncoder(step)
    ensures c in st.calls && c in next.calls && next.enc == st.enc
    ensures next.calls == Moved(st.calls, c, next.calls[c].pc) && Beside(st.calls[c], next.calls[c].pc, st.enc)
  {
  }

  lemma MoveBeside(calls: map<CallId, Call>, enc: Encoder, c: CallId, pc: CallPc)
    requires Locking(calls, enc) && Progress(calls, enc) && Unfinished(calls, enc)
    requires c in calls && Beside(calls[c], pc, enc)
    ensures Locking(Moved(calls, c, pc), enc) && Progress(Moved(calls, c, pc), enc)
    ensures Unfinished(Moved(calls, c, pc), enc)
  {
    MoveEncoder(calls, enc, c, pc);
  }

  lemma CallEncoderStays(st: State, c: CallId, step: CallStep, next: State)
    requires Locking(st.calls, st.enc) && Progress(st.calls, st.enc) && Unfinished(st.calls, st.enc)
    requires TryCall(st, c, step) == Some(next) && !TouchesEncoder(step)
    ensures Locking(next.calls, next.enc) && Progress(next.calls, next.enc) && Unfinished(next.calls, next.enc)
  {
    BesideEffect(st, c, step, next);
    MoveBeside(st.calls, st.enc, c, next.calls[c].pc);
  }

  lemma CallEncoderMoves(st: State, c: CallId, step: CallStep, next: State)
    requires Locking(st.calls, st.enc) && Progress(st.calls, st.enc) && Unfinished(st.calls, st.enc)
    requires TryCall(st, c, step) == Some(next) && TouchesEncoder(step) && !step.Write?
    ensures Locking(next.calls, next.enc) && Progress(next.calls, next.enc) && Unfinished(next.calls, next.enc)
  {
    match step
    case Lock => LockKeeps(st.calls, st.enc, c);
    case Unlock => UnlockKeeps(st.calls, st.enc, c, st.calls[c].pc.ok);
    case WriteFails => FailKeeps(st.calls, st.enc, c, st.calls[c].pc.written);
    case _ =>
  }

  lemma WriteEffect(st: State, c: CallId, n: nat, next: State)
    requires TryCall(st, c, Write(n)) == Some(next)
    ensures c in st.calls && st.calls[c].pc.Encoding? && n > 0
    ensures var w := st.calls[c].pc.written;
            && w + n <= |Text(st.calls[c])|
            && next.calls == Moved(st.calls, c, Encoding(w + n))
            && next.enc == Written(st.enc, c, Text(st.calls[c]), w, n)
  {
  }

  /** Writing keeps the encoder in order, whether or not it finishes the frame. */
  lemma WriteKeeps(calls: map<CallId, Call>, enc: Encoder, c: CallId, w: nat, n: nat)
    requires Locking(calls, enc) && Progress(calls, enc) && Unfinished(calls, enc) && Framing(calls, enc)
    requires c in calls && calls[c].pc == Encoding(w) && n > 0 && w + n <= |Text(calls[c])|
    ensures var after, moved := Written(enc, c, Text(calls[c]), w, n), Moved(calls, c, Encoding(w + n));
            && Locking(moved, after) && Progress(moved, after) && Unfinished(moved, after) && Framing(moved, after)
            && enc.lines <= after.lines
  {
    if w + n < |Text(calls[c])| {
      WriteSomeKeeps(calls, enc, c, w, n);
    } else {
      WriteLastKeeps(calls, enc, c, w, n);
      WriteLastFraming(calls, enc, c, w, n);
    }
  }

  /** A state whose calls and encoder are those after a write. */
  lemma WritesKeep(st: State, next: State, c: CallId, w: nat, n: nat)
    requires Locking(st.calls, st.enc) && Progress(st.calls, st.enc)
    requires Unfinished(st.calls, st.enc) && Framing(st.calls, st.enc)
    requires c in st.calls && st.calls[c].pc == Encoding(w) && n > 0 && w + n <= |Text(st.calls[c])|
    requires next.calls == Moved(st.calls, c, Encoding(w + n)) && next.enc == Written(st.enc, c, Text(st.calls[c]), w, n)
    ensures Locking(next.calls, next.enc) && Progress(next.calls, next.enc)
    ensures Unfinished(next.calls, next.enc) && Framing(next.calls, next.enc)
    ensures st.enc.lines <= next.enc.lines
  {
    WriteKeeps(st.calls, st.enc, c, w, n);
  }

  lemma CallWrites(st: State, c: CallId, n: nat, next: State)
    requires Locking(st.calls, st.enc) && Progress(st.calls, st.enc)
    requires Unfinished(st.calls, st.enc) && Framing(st.calls, st.enc)
    requires TryCall(st, c, Write(n)) == Some(next)
    ensures Locking(next.calls, next.enc) && Progress(next.calls, next.enc)
    ensures Unfinished(next.calls, next.enc) && Framing(next.calls, next.enc)
    ensures st.enc.lines <= next.enc.lines
  {
    WriteEffect(st, c, n, next);
    WritesKeep(st, next, c, st.calls[c].pc.written, n);
  }

  lemma CallFraming(st: State, c: CallId, step: CallStep, next: State)
    requires Framing(st.calls, st.enc)
    requires TryCall(st, c, step) == Some(next) && !step.Write?
    ensures Framing(next.calls, next.enc) && st.enc.lines == next.enc.lines
  {
    MoveFraming(st.calls, st.enc, c, next.calls[c].pc);
  }

  lemma CallEncoder(st: State, c: CallId, step: CallStep, next: State)
    requires Locking(st.calls, st.enc) && Progress(st.calls, st.enc)
    requires Unfinished(st.calls, st.enc) && Framing(st.calls, st.enc)
    requires TryCall(st, c, step) == Some(next)
    ensures Locking(next.calls, next.enc) && Progress(next.calls, next.enc)
    ensures Unfinished(next.calls, next.enc) && Framing(next.calls, next.enc)
    ensures st.enc.lines <= next.enc.lines
  {
    if step.Write? {
      CallWrites(st, c, step.n, next);
    } else {
      CallFraming(st, c, step, next);
      if TouchesEncoder(step) {
        CallEncoderMoves(st, c, step, next);
      } else {
        CallEncoderStays(st, c, step, next);
      }
    }
  }

  lemma CallKeeps(st: State, c: CallId, step: CallStep, next: State)
    requires Inv(st) && TryCall(st, c, step) == Some(next)
    ensures Inv(next)
  {
    CallEffect(st, c, step, next);
    CallRegistry(st, c, step, next);
    CallGrows(st, c, step, next);
    GrownAddressed(st.senders, st.inFlight, next.inFlight);
    CallMessages(st, c, step, next);
    CallEncoder(st, c, step, next);
    WriteReading(st.enc, next.enc, st.remote);
    CallParts(st, next);
  }

  /** What a call's own step must keep of the invariant; the rest does not look at what it changes. */
  lemma CallParts(st: State, next: State)
    requires Inv(st) && next == st.(calls := next.calls, inFlight := next.inFlight, enc := next.enc)
    requires Registry(next.calls, next.inFlight) && Addressed(next.senders, next.inFlight)
    requires Outcomes(next.calls, next.remote.produced) && Met(next.senders, next.calls)
    requires Shutting(next.discs, next.calls, next.inFlight)
    requires Locking(next.calls, next.enc) && Progress(next.calls, next.enc)
    requires Unfinished(next.calls, next.enc) && Framing(next.calls, next.enc)
    requires Reading(next.enc, next.remote)
    ensures Inv(next)
  {
  }

  /** A call's own step touches that call, InFlight and the encoder. */
  lemma CallEffect(st: State, c: CallId, step: CallStep, next: State)
    requires TryCall(st, c, step) == Some(next)
    ensures c in st.calls && c in next.calls && next.calls == Moved(st.calls, c, next.calls[c].pc)
    ensures next == st.(calls := next.calls, inFlight := next.inFlight, enc := next.enc)
    ensures Onward(st.calls[c].pc, next.calls[c].pc)
    ensures GotMessage(next.calls[c].pc) == GotMessage(st.calls[c].pc)
  {
  }

  // ----- a new call -------------------------------------------------------------------------

  lemma DrawRegistry(calls: map<CallId, Call>, inFlight: map<string, Chan>, c: CallId, call: Call)
    requires Registry(calls, inFlight) && c !in calls && call.pc == Drawn && WellFormed(call.request)
    requires forall b :: b in calls ==> calls[b].request.uuid != call.request.uuid && calls[b].ch != call.ch
    ensures Registry(calls[c := call], inFlight)
    ensures call.request.uuid !in inFlight
  {
    var after := calls[c := call];
    forall u | u in inFlight
      ensures exists b :: Owns(after, b, u)
    {
      var b :| Owns(calls, b, u);
      assert Owns(after, b, u);
    }
  }

  lemma DrawEncoder(calls: map<CallId, Call>, enc: Encoder, c: CallId, call: Call)
    requires Locking(calls, enc) && Framing(calls, enc)
    requires c !in calls && call.pc == Drawn
    ensures Locking(calls[c := call], enc) && Framing(calls[c := call], enc)
    ensures c !in enc.owners
  {
  }

  lemma DrawProgress(calls: map<CallId, Call>, enc: Encoder, c: CallId, call: Call)
    requires Progress(calls, enc) && Unfinished(calls, enc)
    requires c !in calls && call.pc == Drawn && c !in enc.owners
    ensures Progress(calls[c := call], enc) && Unfinished(calls[c := call], enc)
  {
  }

  lemma DrawMessages(st: State, c: CallId, call: Call)
    requires Outcomes(st.calls, st.remote.produced) && Met(st.senders, st.calls)
    requires Shutting(st.discs, st.calls, st.inFlight) && Addressed(st.senders, st.inFlight)
    requires Carrying(st.senders, st.loop, st.remote.produced)
    requires forall m :: m in st.remote.produced ==> m.uuid in st.inFlight
    requires c !in st.calls && call.pc == Drawn
    requires call.request.uuid != "" && call.request.uuid !in st.inFlight
    ensures Outcomes(st.calls[c := call], st.remote.produced) && Met(st.senders, st.calls[c := call])
    ensures Shutting(st.discs, st.calls[c := call], st.inFlight)
  {
  }

  /** Whatever the remote was asked is registered here: its frame left after its channel was stored. */
  lemma AskedIsKnown(st: State, u: string)
    requires Registry(st.calls, st.inFlight) && Framing(st.calls, st.enc) && Progress(st.calls, st.enc)
    requires Reading(st.enc, st.remote) && Asked(st.remote.read, u)
    ensures u in st.inFlight
  {
    var i :| 0 <= i < |st.remote.read| && UuidIn(st.remote.read[i]) == u;
    assert st.remote.read[i] == st.enc.lines[i];
    EncodeIsLine(st.calls[st.enc.owners[i]].request);
  }

  lemma DrawKeeps(st: State, c: CallId, request: Request, ch: Chan, next: State)
    requires Inv(st) && TryDraw(st, c, request, ch) == Some(next)
    ensures Inv(next)
  {
    var call := Call(request, ch, Drawn);
    forall m | m in st.remote.produced
      ensures m.uuid in st.inFlight
    {
      AskedIsKnown(st, m.uuid);
    }
    DrawRegistry(st.calls, st.inFlight, c, call);
    DrawEncoder(st.calls, st.enc, c, call);
    DrawProgress(st.calls, st.enc, c, call);
    DrawMessages(st, c, call);
  }

  // ----- senders ----------------------------------------------------------------------------

  lemma SenderMet(senders: map<SenderId, Sender>, calls: map<CallId, Call>, s: SenderId, sender: Sender)
    requires Met(senders, calls)
    requires forall c :: c in calls && calls[c].request.uuid == sender.msg.uuid ==>
               && (sender.pc == Done(Delivered) ==> GotMessage(calls[c].pc) && calls[c].pc.outcome.msg == sender.msg)
               && (sender.pc == Done(OnClosed) ==> calls[c].pc.Ended?)
    ensures Met(senders[s := sender], calls)
  {
  }

  /** The call that has drawn a UUID is the only one. */
  lemma OnlyOwner(calls: map<CallId, Call>, inFlight: map<string, Chan>, c: CallId, u: string)
    requires Registry(calls, inFlight) && c in calls && u in inFlight && inFlight[u] == calls[c].ch
    ensures calls[c].request.uuid == u
    ensures forall b :: b in calls && calls[b].request.uuid == u ==> b == c
  {
    var b :| Owns(calls, b, u);
  }

  /** A sender meets the waiting call its message is for, and no other. */
  lemma MeetOutcomes(st: State, s: SenderId, c: CallId, cast: bool)
    requires Registry(st.calls, st.inFlight) && Addressed(st.senders, st.inFlight)
    requires Carrying(st.senders, st.loop, st.remote.produced)
    requires Outcomes(st.calls, st.remote.produced)
    requires TrySender(st, s, Meet(c, cast)).Some?
    ensures var pc := Leaving(Received(st.senders[s].msg, cast));
            Ending(st.calls[c], pc, st.remote.produced) && Onward(st.calls[c].pc, pc)
  {
    OnlyOwner(st.calls, st.inFlight, c, st.senders[s].msg.uuid);
  }

  lemma MeetMet(st: State, s: SenderId, c: CallId, cast: bool)
    requires Registry(st.calls, st.inFlight) && Addressed(st.senders, st.inFlight)
    requires Met(st.senders, st.calls)
    requires TrySender(st, s, Meet(c, cast)).Some?
    ensures Met(st.senders[s := st.senders[s].(pc := Done(Delivered))],
                Moved(st.calls, c, Leaving(Received(st.senders[s].msg, cast))))
  {
    var pc := Leaving(Received(st.senders[s].msg, cast));
    OnlyOwner(st.calls, st.inFlight, c, st.senders[s].msg.uuid);
    MoveMet(st.senders, st.calls, c, pc);
    SenderMet(st.senders, Moved(st.calls, c, pc), s, st.senders[s].(pc := Done(Delivered)));
  }

  lemma MeetCalls(st: State, s: SenderId, c: CallId, cast: bool, next: State)
    requires Registry(st.calls, st.inFlight)
    requires Outcomes(st.calls, st.remote.produced) && Shutting(st.discs, st.calls, st.inFlight)
    requires TrySender(st, s, Meet(c, cast)) == Some(next)
    requires var pc := Leaving(Received(st.senders[s].msg, cast));
             Ending(st.calls[c], pc, st.remote.produced) && Onward(st.calls[c].pc, pc)
    ensures Registry(next.calls, next.inFlight)
    ensures Outcomes(next.calls, next.remote.produced) && Shutting(next.discs, next.calls, next.inFlight)
  {
    var pc := Leaving(Received(st.senders[s].msg, cast));
    MoveRegistry(st.calls, st.inFlight, c, pc);
    MoveOutcomes(st.calls, st.remote.produced, c, pc);
    MoveShutting(st.discs, st.calls, st.inFlight, c, pc);
  }

  lemma MeetEncoder(st: State, s: SenderId, c: CallId, cast: bool, next: State)
    requires Locking(st.calls, st.enc) && Progress(st.calls, st.enc)
    requires Unfinished(st.calls, st.enc) && Framing(st.calls, st.enc)
    requires TrySender(st, s, Meet(c, cast)) == Some(next)
    ensures Locking(next.calls, next.enc) && Progress(next.calls, next.enc)
    ensures Unfinished(next.calls, next.enc) && Framing(next.calls, next.enc)
  {
    var pc := Leaving(Received(st.senders[s].msg, cast));
    MoveEncoder(st.calls, st.enc, c, pc);
    MoveFraming(st.calls, st.enc, c, pc);
  }

  lemma PanicKeeps(st: State, s: SenderId, c: CallId, next: State)
    requires Registry(st.calls, st.inFlight) && Met(st.senders, st.calls) && Addressed(st.senders, st.inFlight)
    requires TrySender(st, s, Panic(c)) == Some(next)
    ensures Met(next.senders, next.calls)
  {
    OnlyOwner(st.calls, st.inFlight, c, st.senders[s].msg.uuid);
    SenderMet(st.senders, st.calls, s, st.senders[s].(pc := Done(OnClosed)));
  }

  /** What one step does to the sender that takes it, and that it touches nobody else's. */
  lemma SenderEffect(st: State, s: SenderId, step: SendStep, next: State)
    requires TrySender(st, s, step) == Some(next)
    ensures s in st.senders && s in next.senders
    ensures next == st.(senders := st.senders[s := next.senders[s]], calls := next.calls)
    ensures !step.Meet? ==> next.calls == st.calls
    ensures var before, after := st.senders[s], next.senders[s];
            && after.msg == before.msg
            && (|| (after == before.(pc := after.pc) && (before.kind.Deliverer? ==> after.pc != Done(Expired)))
                || (before.kind.Deliverer? && after == Retried(before, SECOND))
                || (before.kind.Notifier? && after.kind.Notifier?)
                || (before.kind.Deliverer? && before.pc.Loading? && before.msg.uuid != "" && before.msg.uuid !in st.inFlight))
            && before.pc != Done(Expired)
            && (!step.Meet? ==> after.pc != Done(Delivered))
            && (!step.Panic? ==> after.pc != Done(OnClosed))
            && (AddressedOwn(before, st.inFlight) ==> AddressedOwn(after, st.inFlight))
            && (NoticeOwn(before, st.discs) ==> NoticeOwn(after, st.discs))
  {
  }

  lemma RetriedIsPatient(sender: Sender)
    requires sender.kind.Deliverer? && PatientOwn(sender) && sender.pc != Done(Expired)
    ensures PatientOwn(Retried(sender, SECOND))
  {
    var a := sender.kind.attempt;
    assert BackOff(a + 1) == BackOff(a) + a;
  }

  lemma SenderPatient(before: Sender, after: Sender)
    requires PatientOwn(before) && before.pc != Done(Expired)
    requires || (after == before.(pc := after.pc) && (before.kind.Deliverer? ==> after.pc != Done(Expired)))
             || (before.kind.Deliverer? && after == Retried(before, SECOND))
             || (before.kind.Notifier? && after.kind.Notifier?)
    ensures PatientOwn(after)
  {
    if before.kind.Deliverer? {
      RetriedIsPatient(before);
    }
  }

  /** A deliverer's UUID is one the remote was asked, so it is registered. */
  lemma CarriedIsKnown(st: State, s: SenderId)
    requires Registry(st.calls, st.inFlight) && Framing(st.calls, st.enc) && Progress(st.calls, st.enc)
    requires Reading(st.enc, st.remote) && Answering(st.remote)
    requires s in st.senders && st.senders[s].kind.Deliverer? && CarriesOwn(st.senders[s], st.remote.produced)
    ensures st.senders[s].msg.uuid == "" || st.senders[s].msg.uuid in st.inFlight
  {
    var m := st.senders[s].msg;
    if m.uuid != "" {
      assert m.(faulty := false) in st.remote.produced;
      AskedIsKnown(st, m.uuid);
    }
  }

  lemma SendersSet(senders: map<SenderId, Sender>, discs: map<DiscId, Disc>, loop: Loop, inFlight: map<string, Chan>,
                   produced: set<Msg>, s: SenderId, x: Sender)
    requires Carrying(senders, loop, produced) && Addressed(senders, inFlight)
    requires Patience(senders) && Notices(senders, discs)
    requires CarriesOwn(x, produced) && AddressedOwn(x, inFlight) && PatientOwn(x) && NoticeOwn(x, discs)
    requires s in senders && senders[s].kind.Inline? ==> x.kind == senders[s].kind
    ensures Carrying(senders[s := x], loop, produced) && Addressed(senders[s := x], inFlight)
    ensures Patience(senders[s := x]) && Notices(senders[s := x], discs)
  {
  }

  /** A step other than a meeting leaves the calls alone. */
  lemma SenderQuiet(st: State, s: SenderId, step: SendStep, next: State)
    requires Registry(st.calls, st.inFlight) && Addressed(st.senders, st.inFlight) && Met(st.senders, st.calls)
    requires TrySender(st, s, step) == Some(next) && !step.Meet?
    ensures Met(next.senders, next.calls)
  {
    if step.Panic? {
      PanicKeeps(st, s, step.c, next);
    } else {
      SenderEffect(st, s, step, next);
      SenderMet(st.senders, st.calls, s, next.senders[s]);
    }
  }

  lemma MeetMessages(st: State, s: SenderId, c: CallId, cast: bool, next: State)
    requires Registry(st.calls, st.inFlight) && Addressed(st.senders, st.inFlight) && Met(st.senders, st.calls)
    requires Carrying(st.senders, st.loop, st.remote.produced)
    requires Outcomes(st.calls, st.remote.produced) && Shutting(st.discs, st.calls, st.inFlight)
    requires TrySender(st, s, Meet(c, cast)) == Some(next)
    ensures Registry(next.calls, next.inFlight) && Met(next.senders, next.calls)
    ensures Outcomes(next.calls, next.remote.produced) && Shutting(next.discs, next.calls, next.inFlight)
  {
    MeetOutcomes(st, s, c, cast);
    MeetMet(st, s, c, cast);
    MeetCalls(st, s, c, cast, next);
  }

  lemma SenderKeeps(st: State, s: SenderId, step: SendStep, next: State)
    requires Inv(st) && TrySender(st, s, step) == Some(next)
    ensures Inv(next)
  {
    SenderEffect(st, s, step, next);
    if st.senders[s].kind.Deliverer? {
      CarriedIsKnown(st, s);
    }
    SenderPatient(st.senders[s], next.senders[s]);
    SendersSet(st.senders, st.discs, st.loop, st.inFlight, st.remote.produced, s, next.senders[s]);
    if step.Meet? {
      MeetMessages(st, s, step.c, step.cast, next);
      MeetEncoder(st, s, step.c, step.cast, next);
    } else {
      SenderQuiet(st, s, step, next);
    }
  }

  // ----- the other goroutines ---------------------------------------------------------------

  lemma NewSender(st: State, s: SenderId, x: Sender, loop: Loop)
    requires Carrying(st.senders, st.loop, st.remote.produced) && Addressed(st.senders, st.inFlight)
    requires Patience(st.senders) && Notices(st.senders, st.discs) && Met(st.senders, st.calls)
    requires s !in st.senders && CarriesOwn(x, st.remote.produced) && AddressedOwn(x, st.inFlight)
    requires PatientOwn(x) && NoticeOwn(x, st.discs) && !x.pc.Done?
    requires Held(loop).Some? ==> FromRemote(st.remote.produced, Held(loop).value)
    ensures Carrying(st.senders[s := x], loop, st.remote.produced) && Addressed(st.senders[s := x], st.inFlight)
    ensures Patience(st.senders[s := x]) && Notices(st.senders[s := x], st.discs)
    ensures Met(st.senders[s := x], st.calls)
  {
  }

  lemma NewDiscKeeps(st: State, d: DiscId, wait: bool)
    requires Notices(st.senders, st.discs) && Shutting(st.discs, st.calls, st.inFlight)
    requires d !in st.discs
    ensures Notices(st.senders, st.discs[d := NewDisc(wait)])
    ensures Shutting(st.discs[d := NewDisc(wait)], st.calls, st.inFlight)
  {
  }

  lemma PoppedAnswering(remote: Remote)
    requires Answering(remote) && remote.back != []
    ensures Answering(remote.(back := remote.back[1..]))
    ensures FromRemote(remote.produced, remote.back[0])
  {
  }

  /** The message a step of the decoder loop starts a deliverer for. */
  function Handled(st: State, step: LoopStep): Option<(SenderId, Msg)> {
    match (step, st.loop.pc)
    case (Spawn(s), Handling(m)) => Some((s, m))
    case _ => None
  }

  /** What a step of the decoder loop changes: it touches neither calls, InFlight nor the encoder. */
  lemma LoopEffect(st: State, step: LoopStep, next: State)
    requires TryLoop(st, step) == Some(next)
    ensures next == st.(loop := next.loop, senders := next.senders, discs := next.discs, remote := next.remote)
    ensures next.remote == st.remote
            || (st.remote.back != [] && next.remote == st.remote.(back := st.remote.back[1..]))
    ensures match Handled(st, step)
            case None => next.senders == st.senders && next.loop.spawned == st.loop.spawned
            case Some((s, m)) =>
              && s !in st.senders && next.senders == st.senders[s := Deliver(m)]
              && next.loop == Loop(AtTest, st.loop.spawned + 1) && next.discs == st.discs
    ensures next.discs == st.discs
            || (step.Check? && step.d !in st.discs && next.discs == st.discs[step.d := NewDisc(false)])
    ensures next.loop.pc.Disconnecting? ==>
              step.Check? && next.loop.pc.d == step.d && next.discs == st.discs[step.d := NewDisc(false)]
    ensures Held(next.loop).Some? && Held(next.loop) != Held(st.loop) ==>
              && st.remote.back != [] && var head := st.remote.back[0];
              Held(next.loop).value == head || (head.Answer? && Held(next.loop).value == head.(faulty := true))
  {
  }

  lemma LoopSenders(st: State, step: LoopStep, next: State)
    requires Carrying(st.senders, st.loop, st.remote.produced) && Addressed(st.senders, st.inFlight)
    requires Patience(st.senders) && Notices(st.senders, st.discs) && Met(st.senders, st.calls)
    requires TryLoop(st, step) == Some(next) && Handled(st, step).Some?
    ensures Carrying(next.senders, next.loop, next.remote.produced) && Addressed(next.senders, next.inFlight)
    ensures Patience(next.senders) && Notices(next.senders, next.discs) && Met(next.senders, next.calls)
  {
    LoopEffect(st, step, next);
    var (s, m) := Handled(st, step).value;
    NewSender(st, s, Deliver(m), next.loop);
  }

  lemma LoopOthers(st: State, step: LoopStep, next: State)
    requires Carrying(st.senders, st.loop, st.remote.produced)
    requires Notices(st.senders, st.discs) && Shutting(st.discs, st.calls, st.inFlight)
    requires Answering(st.remote)
    requires TryLoop(st, step) == Some(next) && Handled(st, step).None?
    ensures Carrying(next.senders, next.loop, next.remote.produced)
    ensures Notices(next.senders, next.discs) && Shutting(next.discs, next.calls, next.inFlight)
  {
    LoopEffect(st, step, next);
    if st.remote.back != [] {
      PoppedAnswering(st.remote);
    }
    if next.discs != st.discs {
      NewDiscKeeps(st, step.d, false);
    }
  }

  lemma LoopKeeps(st: State, step: LoopStep, next: State)
    requires Inv(st) && TryLoop(st, step) == Some(next)
    ensures Inv(next)
  {
    LoopEffect(st, step, next);
    if st.remote.back != [] {
      PoppedAnswering(st.remote);
    }
    if Handled(st, step).Some? {
      LoopSenders(st, step, next);
    } else {
      LoopOthers(st, step, next);
    }
  }

  lemma ReadsNext(enc: Encoder, remote: Remote, n: nat)
    requires enc.wire == Flatten(enc.lines) + enc.part && '\n' !in enc.part
    requires forall l :: l in enc.lines ==> IsLine(l)
    requires Reading(enc, remote)
    requires remote.pos + n <= |enc.wire| && IsLine(enc.wire[remote.pos..remote.pos + n])
    ensures Reading(enc, Further(remote, enc.wire[remote.pos..remote.pos + n]))
  {
    var k := |remote.read|;
    NextLine(enc.lines, enc.part, k, n);
    assert enc.lines[..k + 1] == enc.lines[..k] + [enc.lines[k]];
  }

  lemma ReadKeeps(st: State, n: nat, next: State)
    requires Framing(st.calls, st.enc) && '\n' !in st.enc.part
    requires forall l :: l in st.enc.lines ==> IsLine(l)
    requires Reading(st.enc, st.remote)
    requires TryRemote(st, Read(n)) == Some(next)
    ensures Reading(next.enc, next.remote)
  {
    ReadEffect(st, n, next);
    ReadsNext(st.enc, st.remote, n);
  }

  lemma ReadEffect(st: State, n: nat, next: State)
    requires TryRemote(st, Read(n)) == Some(next)
    ensures st.remote.pos + n <= |st.enc.wire| && IsLine(st.enc.wire[st.remote.pos..st.remote.pos + n])
    ensures next == st.(remote := Further(st.remote, st.enc.wire[st.remote.pos..st.remote.pos + n]))
  {
  }

  /** The remote once it has read one more line. */
  function Further(remote: Remote, line: string): Remote {
    remote.(pos := remote.pos + |line|, read := remote.read + [line])
  }

  /** Reading more never forgets what was asked. */
  lemma ReadAsks(remote: Remote, line: string)
    requires Answering(remote)
    ensures Answering(Further(remote, line))
  {
    var after := Further(remote, line);
    forall m | m in after.produced
      ensures Asked(after.read, m.uuid)
    {
      var i :| 0 <= i < |remote.read| && UuidIn(remote.read[i]) == m.uuid;
      assert after.read[i] == remote.read[i];
    }
  }

  lemma ReplyKeeps(st: State, step: RemoteStep, next: State)
    requires Answering(st.remote) && Carrying(st.senders, st.loop, st.remote.produced)
    requires Outcomes(st.calls, st.remote.produced)
    requires TryRemote(st, step) == Some(next) && !step.Read?
    requires Reading(st.enc, st.remote)
    ensures Answering(next.remote) && Carrying(next.senders, next.loop, next.remote.produced)
    ensures Outcomes(next.calls, next.remote.produced) && Reading(next.enc, next.remote)
  {
    assert st.remote.produced <= next.remote.produced;
  }

  lemma RemoteEffect(st: State, step: RemoteStep, next: State)
    requires TryRemote(st, step) == Some(next)
    ensures next == st.(remote := next.remote)
  {
  }

  /** Reading a line keeps what the remote has read in step with the wire. */
  lemma RemoteReads(st: State, n: nat, next: State)
    requires Registry(st.calls, st.inFlight) && Framing(st.calls, st.enc)
    requires Progress(st.calls, st.enc) && Unfinished(st.calls, st.enc)
    requires Reading(st.enc, st.remote) && Answering(st.remote)
    requires TryRemote(st, Read(n)) == Some(next)
    ensures Reading(next.enc, next.remote) && Answering(next.remote)
    ensures next.remote.produced == st.remote.produced
  {
    PartHasNoNewline(st);
    FramesAreLines(st);
    ReadKeeps(st, n, next);
    ReadEffect(st, n, next);
    ReadAsks(st.remote, st.enc.wire[st.remote.pos..st.remote.pos + n]);
  }

  lemma RemoteKeeps(st: State, step: RemoteStep, next: State)
    requires Inv(st) && TryRemote(st, step) == Some(next)
    ensures Inv(next)
  {
    RemoteEffect(st, step, next);
    if step.Read? {
      RemoteReads(st, step.n, next);
    } else {
      ReplyKeeps(st, step, next);
    }
    RemoteParts(st, next);
  }

  lemma RemoteParts(st: State, next: State)
    requires Inv(st) && next == st.(remote := next.remote)
    requires Reading(next.enc, next.remote) && Answering(next.remote)
    requires Carrying(next.senders, next.loop, next.remote.produced) && Outcomes(next.calls, next.remote.produced)
    ensures Inv(next)
  {
  }

  lemma HeartKeeps(st: State, step: HeartStep, next: State)
    requires Inv(st) && TryHeart(st, step) == Some(next)
    ensures Inv(next)
  {
    if step.StartPing? {
      DrawKeeps(st.(heart := Heart(Pinging(step.c), st.heart.pings + 1)), step.c, step.request, step.ch, next);
    } else {
      HeartEffect(st, step, next);
      if next.discs != st.discs {
        NewDiscKeeps(st, step.d, false);
      }
    }
  }

  lemma HeartEffect(st: State, step: HeartStep, next: State)
    requires TryHeart(st, step) == Some(next) && !step.StartPing?
    ensures next == st.(heart := next.heart, discs := next.discs) && next.heart.pings == st.heart.pings
    ensures next.discs != st.discs ==>
              step.Judge? && step.d !in st.discs && next.discs == st.discs[step.d := NewDisc(false)]
  {
  }

  // ----- disconnects ------------------------------------------------------------------------

  predicate NotifyingOwn(d: DiscId, disc: Disc, senders: map<SenderId, Sender>) {
    disc.pc.Notifying? ==> disc.pc.s in senders && senders[disc.pc.s].kind == Inline(d) && disc.wait
  }

  lemma DiscSet(st: State, d: DiscId, x: Disc)
    requires Notices(st.senders, st.discs) && Shutting(st.discs, st.calls, st.inFlight)
    requires d in st.discs && (st.discs[d].ctxDone ==> x.ctxDone)
    requires NotifyingOwn(d, x, st.senders) && ShutOwn(x, st.calls, st.inFlight)
    ensures Notices(st.senders, st.discs[d := x]) && Shutting(st.discs[d := x], st.calls, st.inFlight)
  {
    forall s | s in st.senders
      ensures NoticeOwn(st.senders[s], st.discs[d := x])
    {
      assert NoticeOwn(st.senders[s], st.discs);
    }
  }

  /** The range may move on from a UUID: its sender is done. */
  lemma NextServes(st: State, d: DiscId)
    requires Notices(st.senders, st.discs) && Shutting(st.discs, st.calls, st.inFlight)
    requires Met(st.senders, st.calls) && Addressed(st.senders, st.inFlight)
    requires Carrying(st.senders, st.loop, st.remote.produced)
    requires d in st.discs && st.discs[d].pc.Notifying?
    requires st.senders[st.discs[d].pc.s].pc.Done?
    ensures var disc := st.discs[d];
            ShutOwn(disc.(pc := Ranging, seen := disc.seen + {st.senders[disc.pc.s].msg.uuid}), st.calls, st.inFlight)
  {
    var disc := st.discs[d];
    var sender := st.senders[disc.pc.s];
    assert NoticeOwn(sender, st.discs) && AddressedOwn(sender, st.inFlight) && ShutOwn(disc, st.calls, st.inFlight);
    assert CarriesOwn(sender, st.remote.produced);
    if disc.wait && !disc.ctxDone {
      forall c | c in st.calls && st.calls[c].request.uuid in disc.seen + {sender.msg.uuid}
        ensures Served(st.calls[c].pc)
      {
        if st.calls[c].request.uuid == sender.msg.uuid {
          assert sender.kind == Inline(d) && sender.pc != Done(Expired) && sender.pc != Done(NoUuid);
          match sender.pc.how
          case Delivered =>
          case OnClosed =>
        }
      }
    }
  }

  lemma PickKeeps(st: State, d: DiscId, uuid: string, s: SenderId, next: State)
    requires Carrying(st.senders, st.loop, st.remote.produced) && Addressed(st.senders, st.inFlight)
    requires Patience(st.senders) && Notices(st.senders, st.discs) && Met(st.senders, st.calls)
    requires Shutting(st.discs, st.calls, st.inFlight)
    requires TryDisc(st, d, Pick(uuid, s)) == Some(next)
    ensures Carrying(next.senders, next.loop, next.remote.produced) && Addressed(next.senders, next.inFlight)
    ensures Patience(next.senders) && Notices(next.senders, next.discs) && Met(next.senders, next.calls)
    ensures Shutting(next.discs, next.calls, next.inFlight)
  {
    var x := next.senders[s];
    NewSender(st, s, x, st.loop);
    assert ShutOwn(st.discs[d], st.calls, st.inFlight);
    DiscSet(st.(senders := next.senders), d, next.discs[d]);
  }

  /** Steps of a Disconnect that only move the Disconnect itself. */
  lemma DiscMoves(st: State, d: DiscId, step: DiscStep, next: State)
    requires Carrying(st.senders, st.loop, st.remote.produced) && Addressed(st.senders, st.inFlight)
    requires Notices(st.senders, st.discs) && Met(st.senders, st.calls)
    requires Shutting(st.discs, st.calls, st.inFlight)
    requires TryDisc(st, d, step) == Some(next) && !step.Pick? && !step.CallClose?
    ensures next == st.(discs := next.discs, running := next.running)
    ensures Notices(next.senders, next.discs) && Shutting(next.discs, next.calls, next.inFlight)
  {
    assert ShutOwn(st.discs[d], st.calls, st.inFlight);
    if step.Next? {
      NextServes(st, d);
    }
    DiscSet(st, d, next.discs[d]);
  }

  lemma CloseKeeps(st: State, d: DiscId, c: CallId, request: Request, ch: Chan, next: State)
    requires Inv(st) && TryDisc(st, d, CallClose(c, request, ch)) == Some(next)
    ensures Inv(next)
  {
    assert ShutOwn(st.discs[d], st.calls, st.inFlight);
    DiscSet(st, d, st.discs[d].(pc := Closing(c)));
    DrawKeeps(DiscAt(st, d, Closing(c)), c, request, ch, next);
  }

  lemma DiscKeeps(st: State, d: DiscId, step: DiscStep, next: State)
    requires Inv(st) && TryDisc(st, d, step) == Some(next)
    ensures Inv(next)
  {
    match step
    case CallClose(c, request, ch) => CloseKeeps(st, d, c, request, ch, next);
    case Pick(uuid, s) =>
      PickEffect(st, d, uuid, s, next);
      PickKeeps(st, d, uuid, s, next);
    case _ => DiscMoves(st, d, step, next);
  }

  lemma PickEffect(st: State, d: DiscId, uuid: string, s: SenderId, next: State)
    requires TryDisc(st, d, Pick(uuid, s)) == Some(next)
    ensures next == st.(senders := next.senders, discs := next.discs)
  {
  }

  lemma NewDisconnectKeeps(st: State, d: DiscId, wait: bool, next: State)
    requires Inv(st) && d !in st.discs && next == st.(discs := st.discs[d := NewDisc(wait)])
    ensures Inv(next)
  {
    NewDiscKeeps(st, d, wait);
  }

  // ----- all steps, all runs ----------------------------------------------------------------

  lemma OwnStepKeeps(st: State, step: Step, next: State)
    requires Inv(st) && Try(st, step) == Some(next)
    requires step.NewCall? || step.OfCall? || step.OfSender?
    ensures Inv(next)
  {
    match step
    case NewCall(c, request, ch) => DrawKeeps(st, c, request, ch, next);
    case OfCall(c, call) => CallKeeps(st, c, call, next);
    case OfSender(s, send) => SenderKeeps(st, s, send, next);
  }

  lemma LoopStepKeeps(st: State, step: Step, next: State)
    requires Inv(st) && Try(st, step) == Some(next)
    requires step.OfLoop? || step.OfRemote?
    ensures Inv(next)
  {
    match step
    case OfLoop(loop) => LoopKeeps(st, loop, next);
    case OfRemote(remote) => RemoteKeeps(st, remote, next);
  }

  lemma StepKeeps(st: State, step: Step, next: State)
    requires Inv(st) && Try(st, step) == Some(next)
    ensures Inv(next)
  {
    match step
    case NewDisconnect(d, wait) => NewDisconnectKeeps(st, d, wait, next);
    case OfDisc(d, disc) => DiscKeeps(st, d, disc, next);
    case OfHeart(heart) => HeartKeeps(st, heart, next);
    case OfLoop(_) => LoopStepKeeps(st, step, next);
    case OfRemote(_) => LoopStepKeeps(st, step, next);
    case _ => OwnStepKeeps(st, step, next);
  }

  lemma {:induction false} RunKeeps(st: State, steps: seq<Step>, end: State)
    requires Inv(st) && Run(st, steps) == Some(end)
    ensures Inv(end)
    decreases |steps|
  {
    if steps != [] {
      var next := Try(st, steps[0]).value;
      StepKeeps(st, steps[0], next);
      RunKeeps(next, steps[1..], end);
    }
  }
}
