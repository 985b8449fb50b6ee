/**
 What every reachable state of the RPC system keeps. Each predicate names only the parts of the
 state it is about, so a step that leaves those parts alone keeps it at once.
 */
module RpcInvariants {
  import opened Wrappers
  import opened Frames
  import opened Rpc

  predicate HasRegistered(pc: CallPc) {
    pc != Drawn
  }

  predicate Holds(pc: CallPc) {
    pc.Locked? || pc.Encoding? || pc.Encoded?
  }

  /** Past the encode step without an error. */
  predicate Sent(pc: CallPc) {
    match pc
    case Encoded(ok) => ok
    case Waiting => true
    case Leaving(o) => o != EncodeFailed
    case Ended(o) => o != EncodeFailed
    case _ => false
  }

  predicate GotMessage(pc: CallPc) {
    (pc.Leaving? || pc.Ended?) && pc.outcome.Received?
  }

  /** Took a message or closed its channel: nobody needs to be told any more. */
  predicate Served(pc: CallPc) {
    GotMessage(pc) || pc.Ended?
  }

  ghost predicate Owns(calls: map<CallId, Call>, c: CallId, u: string) {
    c in calls && calls[c].request.uuid == u && HasRegistered(calls[c].pc)
  }

  /** InFlight binds the UUID of each registered call to that call's own channel, and nothing else. */
  ghost predicate Registry(calls: map<CallId, Call>, inFlight: map<string, Chan>) {
    && (forall c :: c in calls ==> WellFormed(calls[c].request))
    && (forall c :: c in calls && HasRegistered(calls[c].pc) ==>
          calls[c].request.uuid in inFlight && inFlight[calls[c].request.uuid] == calls[c].ch)
    && (forall b, c :: b in calls && c in calls && b != c ==>
          calls[b].request.uuid != calls[c].request.uuid && calls[b].ch != calls[c].ch)
    && (forall u :: u in inFlight ==> exists c :: Owns(calls, c, u))
  }

  /** The lock has at most one holder, and that call is the one between Lock and Unlock. */
  ghost predicate Locking(calls: map<CallId, Call>, enc: Encoder) {
    && (forall c :: c in calls ==> (Holds(calls[c].pc) <==> enc.lock == Some(c)))
    && (enc.lock.Some? ==> enc.lock.value in calls)
  }

  /** The wire is whole frames, each of a different call, and at most one unfinished frame. */
  ghost predicate Framing(calls: map<CallId, Call>, enc: Encoder) {
    && enc.wire == Flatten(enc.lines) + enc.part
    && |enc.owners| == |enc.lines|
    && (forall i :: 0 <= i < |enc.owners| ==>
          enc.owners[i] in calls && enc.lines[i] == Text(calls[enc.owners[i]]))
    && (forall i, j :: 0 <= i < j < |enc.owners| ==> enc.owners[i] != enc.owners[j])
  }

  ghost predicate Progress(calls: map<CallId, Call>, enc: Encoder) {
    && (forall c :: c in calls ==>
          match calls[c].pc
          case Drawn => c !in enc.owners
          case Queued => c !in enc.owners
          case Locked => c !in enc.owners
          case Encoding(n) =>
            && n <= |Text(calls[c])|
            && enc.broken.None?
            && (n < |Text(calls[c])| ==> c !in enc.owners && enc.part == Text(calls[c])[..n])
            && (n == |Text(calls[c])| ==> c in enc.owners && enc.part == "")
          case _ => Sent(calls[c].pc) ==> c in enc.owners)
  }

  /** An unfinished frame belongs to the call now writing, or to the one whose write failed. */
  ghost predicate Unfinished(calls: map<CallId, Call>, enc: Encoder) {
    match enc.broken
    case Some(b) =>
      && b in calls
      && (calls[b].pc == Encoded(false) || calls[b].pc == Leaving(EncodeFailed) || calls[b].pc == Ended(EncodeFailed))
      && |enc.part| < |Text(calls[b])|
      && enc.part == Text(calls[b])[..|enc.part|]
    case None =>
      enc.part != "" ==>
        enc.lock.Some? && enc.lock.value in calls && calls[enc.lock.value].pc == Encoding(|enc.part|)
  }

  predicate Asked(read: seq<string>, u: string) {
    exists i :: 0 <= i < |read| && UuidIn(read[i]) == u
  }

  /** The remote has read whole frames in order, and answers what it read. */
  ghost predicate Reading(enc: Encoder, remote: Remote) {
    && |remote.read| <= |enc.lines|
    && remote.read == enc.lines[..|remote.read|]
    && remote.pos == |Flatten(remote.read)|
  }

  predicate Genuine(produced: set<Msg>, m: Msg) {
    m.Answer? && m.(faulty := false) in produced
  }

  ghost predicate Answering(remote: Remote) {
    && (forall m :: m in remote.produced ==> m.Answer? && !m.faulty && Asked(remote.read, m.uuid))
    && (forall i :: 0 <= i < |remote.back| ==>
          remote.back[i].Answer? && (remote.back[i].uuid == "" || Genuine(remote.produced, remote.back[i])))
  }

  predicate FromRemote(produced: set<Msg>, m: Msg) {
    m.Answer? && (m.uuid == "" || Genuine(produced, m))
  }

  predicate CarriesOwn(sender: Sender, produced: set<Msg>) {
    if sender.kind.Deliverer? then FromRemote(produced, sender.msg) else sender.msg.ShutDown?
  }

  /** The message the decoder loop has in hand, if any. */
  function Held(loop: Loop): Option<Msg> {
    match loop.pc
    case Failed(_, res) => res
    case Handling(m) => Some(m)
    case _ => None
  }

  /** Deliverers carry what the remote produced; everyone else carries a shutdown notice. */
  ghost predicate Carrying(senders: map<SenderId, Sender>, loop: Loop, produced: set<Msg>) {
    && (forall s :: s in senders ==> CarriesOwn(senders[s], produced))
    && (Held(loop).Some? ==> FromRemote(produced, Held(loop).value))
  }

  predicate AddressedOwn(sender: Sender, inFlight: map<string, Chan>) {
    && (sender.pc.Sending? ==> sender.msg.uuid in inFlight && inFlight[sender.msg.uuid] == sender.pc.ch)
    && (sender.msg.ShutDown? || sender.pc == Done(Delivered) || sender.pc == Done(OnClosed) ==>
          sender.msg.uuid in inFlight)
  }

  /** A sender holds the channel that InFlight binds to the UUID of its message. */
  ghost predicate Addressed(senders: map<SenderId, Sender>, inFlight: map<string, Chan>) {
    forall s :: s in senders ==> AddressedOwn(senders[s], inFlight)
  }

  /** A call that took a message took one addressed to it, and an answer only to its own frame. */
  ghost predicate Outcomes(calls: map<CallId, Call>, produced: set<Msg>) {
    forall c :: c in calls ==>
      && (GotMessage(calls[c].pc) ==>
            && calls[c].pc.outcome.msg.uuid == calls[c].request.uuid
            && (calls[c].pc.outcome.msg.Answer? ==> Genuine(produced, calls[c].pc.outcome.msg)))
      && (calls[c].pc.Waiting? || GotMessage(calls[c].pc) ==> calls[c].request.fn != CLOSE)
      && ((calls[c].pc.Leaving? || calls[c].pc.Ended?) && calls[c].pc.outcome == CtxEnded ==> calls[c].request.fn != CLOSE)
      && ((calls[c].pc.Leaving? || calls[c].pc.Ended?) && calls[c].pc.outcome == Closed ==> calls[c].request.fn == CLOSE)
  }

  /** What a finished sender says about the call its message was for: a delivered message is the one it took. */
  ghost predicate Met(senders: map<SenderId, Sender>, calls: map<CallId, Call>) {
    forall s, c :: s in senders && c in calls && calls[c].request.uuid == senders[s].msg.uuid ==>
      && (senders[s].pc == Done(Delivered) ==> GotMessage(calls[c].pc) && calls[c].pc.outcome.msg == senders[s].msg)
      && (senders[s].pc == Done(OnClosed) ==> calls[c].pc.Ended?)
  }

  /** The back-off before attempt `n`, in nanoseconds: 1 + 2 + ... + (n - 1). */
  function BackOff(n: nat): nat {
    if n <= 1 then 0 else BackOff(n - 1) + (n - 1)
  }

  /** A deliverer's attempts, and that each failed one cost a second and its back-off. */
  predicate PatientOwn(sender: Sender) {
    sender.kind.Deliverer? ==>
      var a := sender.kind.attempt;
      && 1 <= a <= ATTEMPTS
      && sender.blocked == BackOff(a) + SECOND * (if sender.pc == Done(Expired) then a else a - 1)
      && (sender.pc == Done(Expired) ==> a == ATTEMPTS)
  }

  ghost predicate Patience(senders: map<SenderId, Sender>) {
    forall s :: s in senders ==> PatientOwn(senders[s])
  }

  predicate NoticeOwn(sender: Sender, discs: map<DiscId, Disc>) {
    && (!sender.kind.Deliverer? ==> sender.pc != Loading && sender.pc != Done(NoUuid))
    && (sender.kind.Inline? ==> sender.kind.d in discs)
    && (sender.kind.Inline? && sender.pc == Done(Expired) ==> discs[sender.kind.d].ctxDone)
  }

  /** A sender that is not a deliverer never loads, and one inside a Disconnect gives up on its context. */
  ghost predicate Notices(senders: map<SenderId, Sender>, discs: map<DiscId, Disc>) {
    && (forall s :: s in senders ==> NoticeOwn(senders[s], discs))
    && (forall d :: d in discs && discs[d].pc.Notifying? ==>
          discs[d].pc.s in senders && senders[discs[d].pc.s].kind == Inline(d) && discs[d].wait)
  }

  /** A waiting Disconnect has dealt with a UUID only when its call is served, or its own context ended. */
  ghost predicate ShutOwn(disc: Disc, calls: map<CallId, Call>, inFlight: map<string, Chan>) {
    && disc.snap <= inFlight.Keys
    && disc.seen <= inFlight.Keys
    && (disc.pc.Left? || disc.pc.Finished? ==> disc.snap <= disc.seen)
    && (disc.wait && !disc.ctxDone ==>
          forall c :: c in calls && calls[c].request.uuid in disc.seen ==> Served(calls[c].pc))
  }

  ghost predicate Shutting(discs: map<DiscId, Disc>, calls: map<CallId, Call>, inFlight: map<string, Chan>) {
    forall d :: d in discs ==> ShutOwn(discs[d], calls, inFlight)
  }

  ghost predicate Inv(st: State) {
    && Registry(st.calls, st.inFlight)
    && Locking(st.calls, st.enc)
    && Framing(st.calls, st.enc)
    && Progress(st.calls, st.enc)
    && Unfinished(st.calls, st.enc)
    && Reading(st.enc, st.remote)
    && Answering(st.remote)
    && Carrying(st.senders, st.loop, st.remote.produced)
    && Addressed(st.senders, st.inFlight)
    && Outcomes(st.calls, st.remote.produced)
    && Met(st.senders, st.calls)
    && Patience(st.senders)
    && Notices(st.senders, st.discs)
    && Shutting(st.discs, st.calls, st.inFlight)
  }

  lemma StartHolds()
    ensures Inv(START)
  {
  }

  // ----- facts about one state --------------------------------------------------------------

  /** Every whole frame on the wire is one line. */
  lemma FramesAreLines(st: State)
    requires Registry(st.calls, st.inFlight) && Framing(st.calls, st.enc)
    ensures forall l :: l in st.enc.lines ==> IsLine(l)
  {
    forall l | l in st.enc.lines
      ensures IsLine(l)
    {
      var i :| 0 <= i < |st.enc.lines| && st.enc.lines[i] == l;
      EncodeIsLine(st.calls[st.enc.owners[i]].request);
    }
  }

  lemma PrefixOfLine(line: string, part: string)
    requires IsLine(line) && |part| < |line| && part == line[..|part|]
    ensures '\n' !in part
  {
    assert forall k :: 0 <= k < |part| ==> part[k] == line[..|line| - 1][k];
  }

  lemma PartHasNoNewline(st: State)
    requires Registry(st.calls, st.inFlight) && Progress(st.calls, st.enc) && Unfinished(st.calls, st.enc)
    ensures '\n' !in st.enc.part
  {
    if st.enc.part != "" {
      var b := if st.enc.broken.Some? then st.enc.broken.value else st.enc.lock.value;
      EncodeIsLine(st.calls[b].request);
      PrefixOfLine(Text(st.calls[b]), st.enc.part);
    }
  }
}
