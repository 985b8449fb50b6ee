/**
 The local half of the agent RPC system over one connection epoch: any number of calls share
 one encoder and one decoder, answers are delivered by one retrying goroutine each, and
 disconnects and the heartbeat may stop everything at any time.

 Each goroutine is a program counter, and each `Step` is one atomic operation of one goroutine
 (a channel rendezvous is a step of both sides). `Try` gives the state after a step, or `None`
 when the step cannot be taken; everything a goroutine does not control (the scheduler, time,
 contexts, the remote, I/O errors) is a choice of step or an argument of a step.
 */
module Rpc {
  import opened Wrappers
  import opened Frames

  type CallId = nat
  type Chan = nat
  type SenderId = nat
  type DiscId = nat
  type Payload = nat

  const CLOSE := "Close"
  const PING := "AgentPing"
  const SECOND := 1_000_000_000
  const ATTEMPTS := 10

  /** What travels on a result channel. `faulty` marks an answer that decoded with an error. */
  datatype Msg =
    | Answer(uuid: string, payload: Payload, faulty: bool)
    | ShutDown(uuid: string)

  /** How a call ends; `cast` is whether the received result could be cast to the caller's type. */
  datatype Outcome =
    | EncodeFailed
    | CtxEnded
    | Closed
    | Received(msg: Msg, cast: bool)

  datatype CallPc =
    | Drawn                     // UUID drawn and channel made
    | Queued                    // channel registered in InFlight
    | Locked                    // holds the encoder lock
    | Encoding(written: nat)    // inside the encoder's write
    | Encoded(ok: bool)         // Encode returned, lock still held
    | Waiting                   // in the select on the channel and the context
    | Leaving(outcome: Outcome) // about to run the deferred close
    | Ended(outcome: Outcome)   // channel closed

  datatype Call = Call(request: Request, ch: Chan, pc: CallPc)

  /**
   The shared encoder. `wire` is all it ever wrote. `owners`, `lines` and `part` are history:
   the calls whose frames are whole on the wire, those frames, and the unfinished one.
   */
  datatype Encoder = Encoder(lock: Option<CallId>, wire: string, broken: Option<CallId>,
                             owners: seq<CallId>, lines: seq<string>, part: string)

  /** The remote: how far it read, the lines it read, all it answered, and what is on its way back. */
  datatype Remote = Remote(pos: nat, read: seq<string>, produced: set<Msg>, back: seq<Msg>)

  datatype LoopPc =
    | AtTest
    | InDecode
    | Failed(eof: bool, res: Option<Msg>)
    | Handling(msg: Msg)    // past the last look at Running, about to start a deliverer
    | Disconnecting(d: DiscId)
    | Returned

  /** The decoder loop; `spawned` counts the deliverers it ever started. */
  datatype Loop = Loop(pc: LoopPc, spawned: nat)

  datatype Kind =
    | Deliverer(attempt: nat)
    | Notifier             // started by a Disconnect that does not wait
    | Inline(d: DiscId)    // the select inside a Disconnect that waits

  datatype How = Delivered | OnClosed | Expired | NoUuid

  datatype SenderPc =
    | Loading
    | Sending(ch: Chan)
    | Done(how: How)

  /** `blocked` is the nominal time spent so far, in nanoseconds. */
  datatype Sender = Sender(kind: Kind, msg: Msg, pc: SenderPc, blocked: nat)

  datatype DiscPc =
    | Entered
    | Stopped
    | Closing(c: CallId)
    | Ranging
    | Notifying(s: SenderId)
    | Left
    | Finished

  /** `snap` is what InFlight held when the range began, `seen` what the range has dealt with. */
  datatype Disc = Disc(wait: bool, ctxDone: bool, pc: DiscPc, snap: set<string>, seen: set<string>)

  datatype HeartPc =
    | Idle
    | Top
    | Entry
    | Second
    | Ready
    | Pinging(c: CallId)
    | After(c: CallId)
    | Dropping(d: DiscId)
    | Sleeping
    | Stilled

  /** The heartbeat loop; `pings` counts the pings it ever started. */
  datatype Heart = Heart(pc: HeartPc, pings: nat)

  datatype State = State(calls: map<CallId, Call>, inFlight: map<string, Chan>, enc: Encoder,
                         remote: Remote, running: bool, loop: Loop,
                         senders: map<SenderId, Sender>, discs: map<DiscId, Disc>, heart: Heart)

  datatype CallStep =
    | Register
    | Lock
    | Refuse               // marshalling failed, or an earlier write error is remembered
    | StartWrite
    | Write(n: nat)
    | WriteFails
    | WriteReturns
    | Unlock
    | CtxDone
    | CloseChannel

  datatype SendStep =
    | Load
    | Meet(c: CallId, cast: bool)
    | Panic(c: CallId)
    | TimeOut
    | CtxGivesUp

  datatype DiscStep =
    | Stop
    | CallClose(c: CallId, request: Request, ch: Chan)
    | CloseReturned
    | Pick(uuid: string, s: SenderId)
    | Next
    | Leave
    | CtxExpires
    | Finish

  datatype LoopStep =
    | Test
    | Result
    | Fails(eof: bool, popped: bool, kept: bool)
    | Check(d: DiscId)
    | Spawn(s: SenderId)
    | DisconnectReturned

  datatype RemoteStep =
    | Read(n: nat)
    | Reply(i: nat, payload: Payload)
    | Stray(payload: Payload)

  datatype HeartStep =
    | Begin
    | CheckRunning
    | StartPing(c: CallId, request: Request, ch: Chan)
    | PingReturned
    | Judge(remoteError: bool, d: DiscId)
    | Dropped
    | Wake

  datatype Step =
    | NewCall(c: CallId, request: Request, ch: Chan)
    | NewDisconnect(d: DiscId, wait: bool)
    | OfCall(c: CallId, call: CallStep)
    | OfSender(s: SenderId, send: SendStep)
    | OfDisc(d: DiscId, disc: DiscStep)
    | OfLoop(loop: LoopStep)
    | OfRemote(remote: RemoteStep)
    | OfHeart(heart: HeartStep)

  function Text(call: Call): string {
    Encode(call.request)
  }

  const START := State(map[], map[], Encoder(None, "", None, [], [], ""), Remote(0, [], {}, []),
                       true, Loop(AtTest, 0), map[], map[], Heart(Idle, 0))

  // ----- calls ------------------------------------------------------------------------------

  /** Drawing a UUID nobody else drew and making a channel nobody else has. */
  function TryDraw(st: State, c: CallId, request: Request, ch: Chan): Option<State> {
    if && c !in st.calls
       && WellFormed(request)
       && forall b :: b in st.calls ==> st.calls[b].request.uuid != request.uuid && st.calls[b].ch != ch
    then Some(st.(calls := st.calls[c := Call(request, ch, Drawn)]))
    else None
  }

  function At(st: State, c: CallId, pc: CallPc): State
    requires c in st.calls
  {
    st.(calls := st.calls[c := st.calls[c].(pc := pc)])
  }

  function AfterEncode(call: Call, ok: bool): CallPc {
    if !ok then Leaving(EncodeFailed)
    else if call.request.fn == CLOSE then Leaving(Closed)
    else Waiting
  }

  /** What the encoder holds once `n` more bytes of a call's frame are on the wire. */
  function Written(enc: Encoder, c: CallId, text: string, from: nat, n: nat): Encoder
    requires from + n <= |text|
  {
    var wire := enc.wire + text[from..from + n];
    if from + n == |text| then
      enc.(wire := wire, owners := enc.owners + [c], lines := enc.lines + [text], part := "")
    else
      enc.(wire := wire, part := text[..from + n])
  }

  function TryCall(st: State, c: CallId, step: CallStep): Option<State> {
    if c !in st.calls then None else
    var call := st.calls[c];
    match (step, call.pc)
    case (Register, Drawn) =>
      Some(At(st, c, Queued).(inFlight := st.inFlight[call.request.uuid := call.ch]))
    case (Lock, Queued) =>
      if st.enc.lock.Some? then None
      else Some(At(st, c, Locked).(enc := st.enc.(lock := Some(c))))
    case (Refuse, Locked) => Some(At(st, c, Encoded(false)))
    case (StartWrite, Locked) =>
      if st.enc.broken.Some? then None else Some(At(st, c, Encoding(0)))
    case (Write(n), Encoding(written)) =>
      if n == 0 || written + n > |Text(call)| then None
      else Some(At(st, c, Encoding(written + n)).(enc := Written(st.enc, c, Text(call), written, n)))
    case (WriteFails, Encoding(_)) =>
      Some(At(st, c, Encoded(false)).(enc := st.enc.(broken := Some(c))))
    case (WriteReturns, Encoding(written)) =>
      if written < |Text(call)| then None else Some(At(st, c, Encoded(true)))
    case (Unlock, Encoded(ok)) =>
      Some(At(st, c, AfterEncode(call, ok)).(enc := st.enc.(lock := None)))
    case (CtxDone, Waiting) => Some(At(st, c, Leaving(CtxEnded)))
    case (CloseChannel, Leaving(outcome)) => Some(At(st, c, Ended(outcome)))
    case _ => None
  }

  // ----- senders ----------------------------------------------------------------------------

  function SenderAt(st: State, s: SenderId, pc: SenderPc): State
    requires s in st.senders
  {
    st.(senders := st.senders[s := st.senders[s].(pc := pc)])
  }

  /**
   A deliverer's failed attempt. The back-off is a bare `time.Duration(attempt)`: nanoseconds.
   */
  function Retried(sender: Sender, waited: nat): Sender
    requires sender.kind.Deliverer?
  {
    var attempt := sender.kind.attempt;
    if attempt == ATTEMPTS then
      sender.(pc := Done(Expired), blocked := sender.blocked + waited)
    else
      sender.(kind := Deliverer(attempt + 1), pc := Loading, blocked := sender.blocked + waited + attempt)
  }

  function TrySender(st: State, s: SenderId, step: SendStep): Option<State> {
    if s !in st.senders then None else
    var sender := st.senders[s];
    match (step, sender.pc)
    case (Load, Loading) =>
      if !sender.kind.Deliverer? then None
      else if sender.msg.uuid == "" then Some(SenderAt(st, s, Done(NoUuid)))
      else if sender.msg.uuid in st.inFlight then
        Some(SenderAt(st, s, Sending(st.inFlight[sender.msg.uuid])))
      else Some(st.(senders := st.senders[s := Retried(sender, 0)]))
    case (Meet(c, cast), Sending(ch)) =>
      if c in st.calls && st.calls[c].ch == ch && st.calls[c].pc == Waiting then
        Some(SenderAt(At(st, c, Leaving(Received(sender.msg, cast))), s, Done(Delivered)))
      else None
    case (Panic(c), Sending(ch)) =>
      if c in st.calls && st.calls[c].ch == ch && st.calls[c].pc.Ended? then
        Some(SenderAt(st, s, Done(OnClosed)))
      else None
    case (TimeOut, Sending(_)) =>
      (match sender.kind
       case Deliverer(_) => Some(st.(senders := st.senders[s := Retried(sender, SECOND)]))
       case Notifier =>
         Some(st.(senders := st.senders[s := sender.(pc := Done(Expired), blocked := sender.blocked + SECOND)]))
       case Inline(_) => None)
    case (CtxGivesUp, Sending(_)) =>
      if sender.kind.Inline? && sender.kind.d in st.discs && st.discs[sender.kind.d].ctxDone then
        Some(SenderAt(st, s, Done(Expired)))
      else None
    case _ => None
  }

  function Deliver(msg: Msg): Sender {
    Sender(Deliverer(1), msg, Loading, 0)
  }

  // ----- the decoder loop -------------------------------------------------------------------

  function LoopAt(st: State, pc: LoopPc): State {
    st.(loop := st.loop.(pc := pc))
  }

  function Spawned(st: State, s: SenderId, msg: Msg): State {
    st.(loop := Loop(AtTest, st.loop.spawned + 1), senders := st.senders[s := Deliver(msg)])
  }

  function NewDisc(wait: bool): Disc {
    Disc(wait, false, Entered, {}, {})
  }

  function TryLoop(st: State, step: LoopStep): Option<State> {
    match (step, st.loop.pc)
    case (Test, AtTest) =>
      Some(LoopAt(st, if st.running then InDecode else Returned))
    case (Result, InDecode) =>
      if st.remote.back == [] then None
      else Some(LoopAt(st, Handling(st.remote.back[0])).(remote := st.remote.(back := st.remote.back[1..])))
    case (Fails(eof, popped, kept), InDecode) =>
      if popped && (eof || st.remote.back == []) then None
      else if popped then
        var head := st.remote.back[0];
        var res := if kept && head.Answer? && head.uuid != "" then Some(head.(faulty := true)) else None;
        Some(LoopAt(st, Failed(false, res)).(remote := st.remote.(back := st.remote.back[1..])))
      else Some(LoopAt(st, Failed(eof, None)))
    case (Check(d), Failed(eof, res)) =>
      if !st.running then Some(LoopAt(st, Returned))
      else if eof then
        if d in st.discs then None
        else Some(LoopAt(st, Disconnecting(d)).(discs := st.discs[d := NewDisc(false)]))
      else Some(LoopAt(st, if res.None? then AtTest else Handling(res.value)))
    case (Spawn(s), Handling(m)) =>
      if s in st.senders then None else Some(Spawned(st, s, m))
    case (DisconnectReturned, Disconnecting(d)) =>
      if d in st.discs && st.discs[d].pc == Finished then Some(LoopAt(st, Returned)) else None
    case _ => None
  }

  // ----- disconnects ------------------------------------------------------------------------

  function DiscAt(st: State, d: DiscId, pc: DiscPc): State
    requires d in st.discs
  {
    st.(discs := st.discs[d := st.discs[d].(pc := pc)])
  }

  function TryDisc(st: State, d: DiscId, step: DiscStep): Option<State> {
    if d !in st.discs then None else
    var disc := st.discs[d];
    match (step, disc.pc)
    case (Stop, Entered) => Some(DiscAt(st, d, Stopped).(running := false))
    case (CallClose(c, request, ch), Stopped) =>
      if request.fn != CLOSE then None
      else TryDraw(DiscAt(st, d, Closing(c)), c, request, ch)
    case (CloseReturned, Closing(c)) =>
      if c in st.calls && st.calls[c].pc.Ended? then
        Some(st.(discs := st.discs[d := disc.(pc := Ranging, snap := st.inFlight.Keys)]))
      else None
    case (Pick(uuid, s), Ranging) =>
      if uuid !in st.inFlight || uuid in disc.seen || s in st.senders then None
      else if disc.wait then
        Some(DiscAt(st, d, Notifying(s)).(
             senders := st.senders[s := Sender(Inline(d), ShutDown(uuid), Sending(st.inFlight[uuid]), 0)]))
      else
        Some(st.(discs := st.discs[d := disc.(seen := disc.seen + {uuid})],
                 senders := st.senders[s := Sender(Notifier, ShutDown(uuid), Sending(st.inFlight[uuid]), 0)]))
    case (Next, Notifying(s)) =>
      if s in st.senders && st.senders[s].pc.Done? then
        Some(st.(discs := st.discs[d := disc.(pc := Ranging, seen := disc.seen + {st.senders[s].msg.uuid})]))
      else None
    case (Leave, Ranging) =>
      if disc.snap <= disc.seen then Some(DiscAt(st, d, Left)) else None
    case (CtxExpires, _) => Some(st.(discs := st.discs[d := disc.(ctxDone := true)]))
    case (Finish, Left) =>
      if !disc.wait || disc.ctxDone || st.loop.pc == Returned then Some(DiscAt(st, d, Finished)) else None
    case _ => None
  }

  // ----- the remote -------------------------------------------------------------------------

  /** The remote reads whole lines only, and answers only what it read. */
  function TryRemote(st: State, step: RemoteStep): Option<State> {
    var r := st.remote;
    match step
    case Read(n) =>
      if r.pos + n <= |st.enc.wire| && IsLine(st.enc.wire[r.pos..r.pos + n]) then
        Some(st.(remote := r.(pos := r.pos + n, read := r.read + [st.enc.wire[r.pos..r.pos + n]])))
      else None
    case Reply(i, payload) =>
      if i >= |r.read| then None else
      var m := Answer(UuidIn(r.read[i]), payload, false);
      Some(st.(remote := r.(produced := r.produced + {m}, back := r.back + [m])))
    case Stray(payload) =>
      Some(st.(remote := r.(back := r.back + [Answer("", payload, false)])))
  }

  // ----- the heartbeat ----------------------------------------------------------------------

  function HeartAt(st: State, pc: HeartPc): State {
    st.(heart := st.heart.(pc := pc))
  }

  /** Whether Ping returns an error: a failed call, a failed cast, or an error in the result. */
  predicate PingFailed(outcome: Outcome, remoteError: bool) {
    !(outcome.Received? && outcome.cast && outcome.msg.Answer? && !outcome.msg.faulty && !remoteError)
  }

  function TryHeart(st: State, step: HeartStep): Option<State> {
    match (step, st.heart.pc)
    case (Begin, Idle) => Some(HeartAt(st, Top))
    case (CheckRunning, Top) => Some(HeartAt(st, if st.running then Entry else Stilled))
    case (CheckRunning, Entry) => Some(HeartAt(st, if st.running then Second else Stilled))
    case (CheckRunning, Second) => Some(HeartAt(st, if st.running then Ready else Stilled))
    case (StartPing(c, request, ch), Ready) =>
      if request.fn != PING then None
      else TryDraw(st.(heart := Heart(Pinging(c), st.heart.pings + 1)), c, request, ch)
    case (PingReturned, Pinging(c)) =>
      if c in st.calls && st.calls[c].pc.Ended? then Some(HeartAt(st, After(c))) else None
    case (Judge(remoteError, d), After(c)) =>
      if !st.running then Some(HeartAt(st, Stilled))
      else if c !in st.calls || !st.calls[c].pc.Ended? || d in st.discs then None
      else if PingFailed(st.calls[c].pc.outcome, remoteError) then
        Some(HeartAt(st, Dropping(d)).(discs := st.discs[d := NewDisc(false)]))
      else Some(HeartAt(st, Sleeping))
    case (Dropped, Dropping(d)) =>
      if d in st.discs && st.discs[d].pc == Finished then Some(HeartAt(st, Stilled)) else None
    case (Wake, Sleeping) => Some(HeartAt(st, Top))
    case _ => None
  }

  // ----- all steps, and runs ----------------------------------------------------------------

  function Try(st: State, step: Step): Option<State> {
    match step
    case NewCall(c, request, ch) => TryDraw(st, c, request, ch)
    case NewDisconnect(d, wait) =>
      if d in st.discs then None else Some(st.(discs := st.discs[d := NewDisc(wait)]))
    case OfCall(c, call) => TryCall(st, c, call)
    case OfSender(s, send) => TrySender(st, s, send)
    case OfDisc(d, disc) => TryDisc(st, d, disc)
    case OfLoop(loop) => TryLoop(st, loop)
    case OfRemote(remote) => TryRemote(st, remote)
    case OfHeart(heart) => TryHeart(st, heart)
  }

  /** The state after a sequence of steps, or `None` if one of them could not be taken. */
  function Run(st: State, steps: seq<Step>): Option<State>
    decreases |steps|
  {
    if steps == [] then Some(st) else
    match Try(st, steps[0])
    case None => None
    case Some(next) => Run(next, steps[1..])
  }
}
