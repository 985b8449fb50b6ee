/**
 Connecting and disconnecting over many epochs: the connect mutex, the `Running` flag, the wait
 group and the decoder loops it counts. A `Connect` that gets past its check clears `Running`,
 sets it, replaces the wait group by an empty one, adds one to it and starts one decoder loop;
 each is a step of its own, so disconnects and old loops may come in between. A `Disconnect` clears
 `Running` without taking the mutex; one that waits returns once the group is empty, or when its
 context ends.
 */
module Epochs {
  import opened Wrappers

  type ConnectId = nat
  type LoopId = nat // loops are numbered in the order they are started
  type DiscId = nat

  datatype ConnectPc =
    | Asking      // waiting for the connect mutex
    | Checking    // holds the mutex, about to look at Running
    | Installing  // Running was false: lock wait, install, session
    | Clearing    // session started
    | Setting     // Running reset
    | Grouping    // Running set
    | Adding      // wait group replaced
    | Spawning    // wait group raised
    | Pinging     // decoder loop started
    | Leaving(ok: bool)

  datatype DiscPc = Waiting | Returned(drained: bool)

  /** `started` and `raised` count the loops ever started and the times `Running` was set. */
  datatype State = State(connects: map<ConnectId, ConnectPc>, holder: Option<ConnectId>, running: bool,
                         counter: int, live: set<LoopId>, started: nat, raised: nat, discs: map<DiscId, DiscPc>)

  datatype Step =
    | Arrive(c: ConnectId)
    | Lock(c: ConnectId)
    | Check(c: ConnectId)
    | Fail(c: ConnectId)                // any error before the session starts
    | Install(c: ConnectId)
    | Clear(c: ConnectId)
    | Set(c: ConnectId)
    | Group(c: ConnectId)
    | Add(c: ConnectId)
    | Spawn(c: ConnectId)
    | Ping(c: ConnectId, ok: bool)
    | Unlock(c: ConnectId)
    | LoopEnds(l: LoopId)
    | Stop(d: DiscId, wait: bool)       // a Disconnect clears Running, and may go on to wait
    | WaitReturns(d: DiscId)            // the group is empty
    | GivesUp(d: DiscId)                // the context of the Disconnect ends

  const START := State(map[], None, false, 0, {}, 0, 0, map[])

  function To(st: State, c: ConnectId, pc: ConnectPc): State {
    st.(connects := st.connects[c := pc])
  }

  function Try(st: State, step: Step): Option<State> {
    match step
    case Arrive(c) => if c in st.connects then None else Some(To(st, c, Asking))
    case Lock(c) =>
      if c in st.connects && st.connects[c] == Asking && st.holder.None? then
        Some(To(st, c, Checking).(holder := Some(c)))
      else None
    case Check(c) =>
      if c in st.connects && st.connects[c] == Checking then
        Some(To(st, c, if st.running then Leaving(true) else Installing))
      else None
    case Fail(c) =>
      if c in st.connects && st.connects[c] == Installing then Some(To(st, c, Leaving(false))) else None
    case Install(c) =>
      if c in st.connects && st.connects[c] == Installing then Some(To(st, c, Clearing)) else None
    case Clear(c) =>
      if c in st.connects && st.connects[c] == Clearing then
        Some(To(st, c, Setting).(running := false))
      else None
    case Set(c) =>
      if c in st.connects && st.connects[c] == Setting then
        Some(To(st, c, Grouping).(running := true, raised := st.raised + 1))
      else None
    case Group(c) =>
      if c in st.connects && st.connects[c] == Grouping then Some(To(st, c, Adding).(counter := 0)) else None
    case Add(c) =>
      if c in st.connects && st.connects[c] == Adding then
        Some(To(st, c, Spawning).(counter := st.counter + 1))
      else None
    case Spawn(c) =>
      if c in st.connects && st.connects[c] == Spawning then
        Some(To(st, c, Pinging).(live := st.live + {st.started}, started := st.started + 1))
      else None
    case Ping(c, ok) =>
      if c in st.connects && st.connects[c] == Pinging then Some(To(st, c, Leaving(ok))) else None
    case Unlock(c) =>
      if c in st.connects && st.connects[c].Leaving? && st.holder == Some(c) then
        Some(st.(connects := st.connects - {c}, holder := None))
      else None
    case LoopEnds(l) =>
      if l in st.live then Some(st.(live := st.live - {l}, counter := st.counter - 1)) else None
    case Stop(d, wait) =>
      if d in st.discs then None
      else Some(st.(running := false, discs := st.discs[d := if wait then Waiting else Returned(false)]))
    case WaitReturns(d) =>
      if d in st.discs && st.discs[d] == Waiting && st.counter == 0 then
        Some(st.(discs := st.discs[d := Returned(true)]))
      else None
    case GivesUp(d) =>
      if d in st.discs && st.discs[d] == Waiting then Some(st.(discs := st.discs[d := Returned(false)])) else None
  }

  function Run(st: State, steps: seq<Step>): Option<State>
    decreases |steps|
  {
    if steps == [] then Some(st) else
    match Try(st, steps[0])
    case None => None
    case Some(next) => Run(next, steps[1..])
  }

  predicate Inside(pc: ConnectPc) {
    !pc.Asking?
  }

  /** The mutex: the only connect past Asking is its holder. */
  ghost predicate Exclusive(st: State) {
    && (forall c :: c in st.connects && Inside(st.connects[c]) ==> st.holder == Some(c))
    && (st.holder.Some? ==> st.holder.value in st.connects && Inside(st.connects[st.holder.value]))
  }

  /** The holder's program counter, or `Asking` when nobody holds the mutex. */
  function Current(st: State): ConnectPc {
    if st.holder.Some? && st.holder.value in st.connects then st.connects[st.holder.value] else Asking
  }

  /** One decoder loop per stop-to-run transition, the last of which may still be on its way. */
  ghost predicate OneLoopEach(st: State) {
    var pc := Current(st);
    st.raised == st.started + (if pc.Grouping? || pc.Adding? || pc.Spawning? then 1 else 0)
  }

  lemma StartIsSound()
    ensures Exclusive(START) && OneLoopEach(START)
  {
  }

  lemma Transitions(st: State, step: Step, next: State)
    requires Exclusive(st) && OneLoopEach(st) && Try(st, step) == Some(next)
    ensures Exclusive(next) && OneLoopEach(next)
  {
  }

  /** Concurrent connects start exactly one decoder loop for each time `Running` is set. */
  lemma {:induction false} LoopsMatchTransitions(st: State, steps: seq<Step>, end: State)
    requires Exclusive(st) && OneLoopEach(st) && Run(st, steps) == Some(end)
    ensures Exclusive(end) && OneLoopEach(end)
    ensures end.raised - 1 <= end.started <= end.raised
    ensures end.holder.None? ==> end.started == end.raised
    decreases |steps|
  {
    if steps != [] {
      var next := Try(st, steps[0]).value;
      Transitions(st, steps[0], next);
      LoopsMatchTransitions(next, steps[1..], end);
    }
  }

  // ----- who starts an epoch, and who a wait ------------------------------------------------

  function Stops(steps: seq<Step>): nat {
    if steps == [] then 0 else (if steps[0].Stop? then 1 else 0) + Stops(steps[1..])
  }

  /** A connect that has found `Running` clear and not set it yet. */
  predicate Pending(pc: ConnectPc) {
    pc.Installing? || pc.Clearing? || pc.Setting?
  }

  /** One for each epoch so far, one for an epoch on its way, one for a stop nobody has answered yet. */
  function Spent(st: State): nat {
    st.raised + (if Pending(Current(st)) || !st.running then 1 else 0)
  }

  /** Only a holder that found `Running` clear is on its way to set it, and it stays clear until then. */
  ghost predicate PendingClear(st: State) {
    Exclusive(st) && (Pending(Current(st)) ==> !st.running)
  }

  lemma StepSpends(st: State, step: Step, next: State)
    requires PendingClear(st) && Try(st, step) == Some(next)
    ensures PendingClear(next) && Spent(next) <= Spent(st) + (if step.Stop? then 1 else 0)
  {
  }

  lemma {:induction false} RunSpends(st: State, steps: seq<Step>, end: State)
    requires PendingClear(st) && Run(st, steps) == Some(end)
    ensures PendingClear(end) && Spent(end) <= Spent(st) + Stops(steps)
    decreases |steps|
  {
    if steps != [] {
      var next := Try(st, steps[0]).value;
      StepSpends(st, steps[0], next);
      RunSpends(next, steps[1..], end);
    }
  }

  /**
   Connecting a running agent starts nothing: between two epochs there is a stop, so that without any
   `Running` is set once and one decoder loop is started, however many connect and however often.
   */
  lemma EpochsNeedStops(steps: seq<Step>, end: State)
    requires Run(START, steps) == Some(end)
    ensures end.raised <= 1 + Stops(steps) && end.started <= 1 + Stops(steps)
    ensures end.running && Stops(steps) == 0 ==> end.raised == 1
  {
    StartIsSound();
    RunSpends(START, steps, end);
    LoopsMatchTransitions(START, steps, end);
    RunRaised(START, steps, end);
  }

  lemma {:induction false} RunRaised(st: State, steps: seq<Step>, end: State)
    requires Run(st, steps) == Some(end) && (st.running ==> st.raised > 0)
    ensures end.running ==> end.raised > 0
    decreases |steps|
  {
    if steps != [] {
      RunRaised(Try(st, steps[0]).value, steps[1..], end);
    }
  }

  lemma StepDrains(st: State, step: Step, next: State, d: DiscId)
    requires Try(st, step) == Some(next)
    ensures d in next.discs && next.discs[d] == Returned(true) ==>
              step == WaitReturns(d) || (d in st.discs && st.discs[d] == Returned(true))
    ensures d in st.discs && st.discs[d].Returned? ==> d in next.discs && next.discs[d] == st.discs[d]
    ensures step == WaitReturns(d) ==> st.counter == 0 && d in next.discs && next.discs[d] == Returned(true)
  {
  }

  /** A Disconnect has returned drained exactly if its wait has seen the group empty. */
  lemma {:induction false} DrainedIff(st: State, steps: seq<Step>, end: State, d: DiscId)
    requires Run(st, steps) == Some(end) && (d in st.discs ==> st.discs[d] != Returned(true))
    ensures d in end.discs && end.discs[d] == Returned(true) <==> WaitReturns(d) in steps
    decreases |steps|
  {
    if steps != [] {
      var next := Try(st, steps[0]).value;
      StepDrains(st, steps[0], next, d);
      assert steps == [steps[0]] + steps[1..];
      if steps[0] == WaitReturns(d) {
        ReturnedStays(next, steps[1..], end, d);
      } else {
        DrainedIff(next, steps[1..], end, d);
      }
    }
  }

  lemma {:induction false} ReturnedStays(st: State, steps: seq<Step>, end: State, d: DiscId)
    requires Run(st, steps) == Some(end) && d in st.discs && st.discs[d].Returned?
    ensures d in end.discs && end.discs[d] == st.discs[d]
    decreases |steps|
  {
    if steps != [] {
      var next := Try(st, steps[0]).value;
      StepDrains(st, steps[0], next, d);
      ReturnedStays(next, steps[1..], end, d);
    }
  }

  lemma DiscStays(st: State, step: Step, next: State, d: DiscId)
    requires Try(st, step) == Some(next) && d in st.discs
    ensures d in next.discs
  {
  }

  lemma {:induction false} DiscsStay(st: State, steps: seq<Step>, end: State, d: DiscId)
    requires Run(st, steps) == Some(end) && d in st.discs
    ensures d in end.discs
    decreases |steps|
  {
    if steps != [] {
      DiscStays(st, steps[0], Try(st, steps[0]).value, d);
      DiscsStay(Try(st, steps[0]).value, steps[1..], end, d);
    }
  }

  /** A Disconnect that does not wait has returned, and one that waits can return when the group is empty, or give up. */
  lemma {:induction false} DisconnectsReturn(st: State, steps: seq<Step>, end: State, d: DiscId, wait: bool)
    requires Run(st, steps) == Some(end) && Stop(d, wait) in steps
    ensures d in end.discs && (!wait ==> end.discs[d] == Returned(false))
    ensures end.discs[d] == Waiting ==>
              && Try(end, GivesUp(d)) == Some(end.(discs := end.discs[d := Returned(false)]))
              && (Try(end, WaitReturns(d)).Some? <==> end.counter == 0)
    decreases |steps|
  {
    var next := Try(st, steps[0]).value;
    assert steps == [steps[0]] + steps[1..];
    if steps[0] == Stop(d, wait) {
      DiscsStay(next, steps[1..], end, d);
      if !wait {
        ReturnedStays(next, steps[1..], end, d);
      }
    } else {
      DisconnectsReturn(next, steps[1..], end, d, wait);
    }
  }

  /** A connect comes to report success exactly by finding the agent running, or by its ping. */
  lemma ConnectsReport(st: State, step: Step, next: State, c: ConnectId, ok: bool)
    requires Try(st, step) == Some(next) && c in next.connects && next.connects[c] == Leaving(ok)
    requires c in st.connects ==> !st.connects[c].Leaving?
    ensures ok <==> (step == Check(c) && st.running) || step == Ping(c, true)
  {
  }

  lemma RunOne(st: State, steps: seq<Step>, next: State)
    requires steps != [] && Try(st, steps[0]) == Some(next)
    ensures Run(st, steps) == Run(next, steps[1..])
  {
  }

  lemma {:induction false} RunAppend(st: State, a: seq<Step>, b: seq<Step>)
    ensures Run(st, a + b) == match Run(st, a) case None => None case Some(mid) => Run(mid, b)
    decreases |a|
  {
    if a == [] {
      assert a + b == b;
    } else {
      assert (a + b)[1..] == a[1..] + b;
      if Try(st, a[0]).Some? {
        RunAppend(Try(st, a[0]).value, a[1..], b);
      }
    }
  }

  // ----- runs that go wrong -----------------------------------------------------------------

  /** A connect of `c` up to the replacement of the wait group. */
  function Connecting(c: ConnectId): seq<Step> {
    [Arrive(c), Lock(c), Check(c), Install(c), Clear(c), Set(c), Group(c)]
  }

  /** What is left of a connect, from step `i` to the replacement of the wait group. */
  function Path(c: ConnectId, i: nat): seq<Step>
    requires i <= 7
  {
    Connecting(c)[i..]
  }

  lemma PathStep(st: State, c: ConnectId, i: nat, next: State)
    requires i < 7 && Try(st, Connecting(c)[i]) == Some(next)
    ensures Run(st, Path(c, i)) == Run(next, Path(c, i + 1))
  {
    assert Path(c, i)[1..] == Path(c, i + 1);
    RunOne(st, Path(c, i), next);
  }

  lemma PathLocks(st: State, c: ConnectId)
    requires c !in st.connects && st.holder.None?
    ensures Run(st, Path(c, 0)) == Run(To(st, c, Checking).(holder := Some(c)), Path(c, 2))
  {
    var s1 := To(st, c, Asking);
    var s2 := To(s1, c, Checking).(holder := Some(c));
    PathStep(st, c, 0, s1);
    PathStep(s1, c, 1, s2);
    assert s2.connects == st.connects[c := Checking];
  }

  lemma PathInstalls(st: State, c: ConnectId)
    requires c in st.connects && st.connects[c] == Checking && !st.running
    ensures Run(st, Path(c, 2)) == Run(To(st, c, Clearing), Path(c, 4))
  {
    var s3 := To(st, c, Installing);
    var s4 := To(s3, c, Clearing);
    PathStep(st, c, 2, s3);
    PathStep(s3, c, 3, s4);
    assert s4.connects == st.connects[c := Clearing];
  }

  lemma PathRaises(st: State, c: ConnectId)
    requires c in st.connects && st.connects[c] == Clearing
    ensures Run(st, Path(c, 4)) ==
            Some(To(st, c, Adding).(running := true, raised := st.raised + 1, counter := 0))
  {
    var s1 := To(st, c, Setting).(running := false);
    var s2 := To(s1, c, Grouping).(running := true, raised := st.raised + 1);
    var s3 := To(s2, c, Adding).(counter := 0);
    PathStep(st, c, 4, s1);
    PathStep(s1, c, 5, s2);
    PathStep(s2, c, 6, s3);
    assert Path(c, 7) == [];
    assert s3.connects == st.connects[c := Adding];
  }

  lemma PathFromCheck(st: State, c: ConnectId)
    requires c in st.connects && st.connects[c] == Checking && !st.running
    ensures Run(st, Path(c, 2)) ==
            Some(To(st, c, Adding).(running := true, raised := st.raised + 1, counter := 0))
  {
    PathInstalls(st, c);
    PathRaises(To(st, c, Clearing), c);
    assert st.connects[c := Clearing][c := Adding] == st.connects[c := Adding];
  }

  /** A connect that finds `Running` clear empties the wait group, whatever loops still live. */
  lemma HalfConnect(st: State, c: ConnectId)
    requires c !in st.connects && st.holder.None? && !st.running
    ensures Run(st, Path(c, 0)) ==
            Some(st.(connects := st.connects[c := Adding], holder := Some(c), running := true, raised := st.raised + 1,
                     counter := 0))
  {
    var locked := To(st, c, Checking).(holder := Some(c));
    PathLocks(st, c);
    PathFromCheck(locked, c);
    assert st.connects[c := Checking][c := Adding] == st.connects[c := Adding];
  }

  /**
   Without draining the group does go negative: reconnecting while loop `l` still lives, and letting
   `l` end before the new group is raised, takes the counter to -1 (a panic in the wait group).
   */
  lemma UndrainedReconnectGoesNegative(st: State, c: ConnectId, l: LoopId)
    requires c !in st.connects && st.holder.None? && !st.running && l in st.live
    ensures var end := Run(st, Path(c, 0) + [LoopEnds(l)]);
            end.Some? && end.value.counter == -1
  {
    HalfConnect(st, c);
    RunAppend(st, Path(c, 0), [LoopEnds(l)]);
    var mid := Run(st, Path(c, 0)).value;
    RunOne(mid, [LoopEnds(l)], Try(mid, LoopEnds(l)).value);
  }

  lemma RunTwo(st: State, a: Step, b: Step, mid: State, end: State)
    requires Try(st, a) == Some(mid) && Try(mid, b) == Some(end)
    ensures Run(st, [a, b]) == Some(end)
  {
    assert [a, b][1..] == [b] && [b][1..] == [];
    RunOne(st, [a, b], mid);
    RunOne(mid, [b], end);
  }

  /** A Disconnect whose wait falls into the window, and the rest of the connect it falls into. */
  function Overlapped(c: ConnectId, d: DiscId): seq<Step> {
    [Stop(d, true), WaitReturns(d)] + [Add(c), Spawn(c)] + [Ping(c, false), Unlock(c)]
  }

  lemma WaitOverlaps(st: State, d: DiscId)
    requires st.counter == 0 && d !in st.discs
    ensures Run(st, [Stop(d, true), WaitReturns(d)]) ==
            Some(st.(running := false, discs := st.discs[d := Returned(true)]))
  {
    var mid := st.(running := false, discs := st.discs[d := Waiting]);
    assert mid.discs[d := Returned(true)] == st.discs[d := Returned(true)];
    RunTwo(st, Stop(d, true), WaitReturns(d), mid, mid.(discs := st.discs[d := Returned(true)]));
  }

  lemma LoopStarts(st: State, c: ConnectId)
    requires c in st.connects && st.connects[c] == Adding
    ensures Run(st, [Add(c), Spawn(c)]) ==
            Some(To(st, c, Pinging).(counter := st.counter + 1, live := st.live + {st.started}, started := st.started + 1))
  {
    var mid := To(st, c, Spawning).(counter := st.counter + 1);
    assert To(mid, c, Pinging).connects == To(st, c, Pinging).connects;
    RunTwo(st, Add(c), Spawn(c), mid, To(mid, c, Pinging).(live := st.live + {st.started}, started := st.started + 1));
  }

  lemma PingFails(st: State, c: ConnectId)
    requires c in st.connects && st.connects[c] == Pinging && st.holder == Some(c)
    ensures Run(st, [Ping(c, false), Unlock(c)]) == Some(st.(connects := st.connects - {c}, holder := None))
  {
    var mid := To(st, c, Leaving(false));
    assert mid.connects - {c} == st.connects - {c};
    RunTwo(st, Ping(c, false), Unlock(c), mid, mid.(connects := st.connects - {c}, holder := None));
  }

  /** Afterwards the connect is over, and the wait too; but the loop lives. */
  lemma OverlappedRuns(st: State, c: ConnectId, d: DiscId) returns (end: State)
    requires c in st.connects && st.connects[c] == Adding && st.holder == Some(c) && st.counter == 0 && d !in st.discs
    ensures Run(st, Overlapped(c, d)) == Some(end)
    ensures end.connects == st.connects - {c} && end.holder.None? && !end.running && end.live == st.live + {st.started}
  {
    var wait, start, leave := [Stop(d, true), WaitReturns(d)], [Add(c), Spawn(c)], [Ping(c, false), Unlock(c)];
    WaitOverlaps(st, d);
    var s1 := Run(st, wait).value;
    LoopStarts(s1, c);
    var s2 := Run(s1, start).value;
    PingFails(s2, c);
    RunAppend(st, wait, start);
    RunAppend(st, wait + start, leave);
    end := Run(s2, leave).value;
    assert end.connects == st.connects - {c};
  }

  lemma OverlappedConnect(c: ConnectId, d: DiscId) returns (end: State)
    ensures Run(START, Path(c, 0) + Overlapped(c, d)) == Some(end)
    ensures end.connects == map[] && end.holder.None? && !end.running && end.live == {0}
  {
    HalfConnect(START, c);
    var mid := Run(START, Path(c, 0)).value;
    end := OverlappedRuns(mid, c, d);
    RunAppend(START, Path(c, 0), Overlapped(c, d));
    assert mid.connects == map[c := Adding] && mid.connects - {c} == map[];
  }

  /**
   A completed wait between two connects is not enough. From the start: connect `c` replaces the
   group; a waiting Disconnect finds it empty and returns; `c` raises it, starts its loop and returns;
   then connect `b` replaces the group under that loop, and the loop's end takes it below zero.
   */
  lemma OverlappingWaitIsNotEnough(c: ConnectId, b: ConnectId, d: DiscId)
    ensures var steps := Path(c, 0) + Overlapped(c, d) + Path(b, 0);
            && Run(START, steps).Some? && Run(START, steps).value.live == {0} && Run(START, steps).value.counter == 0
            && Run(START, steps + [LoopEnds(0)]).Some? && Run(START, steps + [LoopEnds(0)]).value.counter == -1
    ensures WaitReturns(d) in Overlapped(c, d)
  {
    var first, last := Path(c, 0) + Overlapped(c, d), Path(b, 0);
    var mid := OverlappedConnect(c, d);
    HalfConnect(mid, b);
    UndrainedReconnectGoesNegative(mid, b, 0);
    RunAppend(START, first, last);
    RunAppend(START, first, last + [LoopEnds(0)]);
    assert first + (last + [LoopEnds(0)]) == first + last + [LoopEnds(0)];
    assert Overlapped(c, d)[1] == WaitReturns(d);
  }

  /** A connect whose ping failed leaves `Running` set, so the next one returns without a new loop. */
  lemma FailedPingLeavesRunning(st: State, c: ConnectId, next: State, b: ConnectId)
    requires Exclusive(st) && Try(st, Ping(c, false)) == Some(next) && st.running
    ensures next.running && next.live == st.live && next.connects[c] == Leaving(false)
    ensures b in next.connects && next.connects[b] == Asking ==>
              var end := Run(next, [Unlock(c), Lock(b), Check(b)]);
              && end.Some? && b in end.value.connects && end.value.connects[b] == Leaving(true)
              && end.value.started == st.started && end.value.counter == st.counter
  {
    if b in next.connects && next.connects[b] == Asking {
      var steps := [Unlock(c), Lock(b), Check(b)];
      assert st.holder == Some(c);
      var s1 := Try(next, Unlock(c)).value;
      var s2 := Try(s1, Lock(b)).value;
      var s3 := Try(s2, Check(b)).value;
      RunOne(next, steps, s1);
      RunOne(s1, steps[1..], s2);
      RunOne(s2, steps[1..][1..], s3);
      assert steps[1..][1..][1..] == [];
    }
  }
}
