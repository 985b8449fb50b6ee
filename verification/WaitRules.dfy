/**
 What a completed wait is worth: the rule under which the wait group counts the decoder loops, that
 the rule is exact, and how a caller keeps it.
 */
module WaitRules {
  import opened Wrappers
  import opened Epochs

  /**
   The rule a caller keeps, in terms of what it and the connects do: when a connect replaces the
   wait group, a waiting Disconnect has seen the group empty since the last decoder loop was
   started. `unwaited` says whether, so far, one has been started since.
   */
  predicate Waited(unwaited: bool, steps: seq<Step>)
    decreases |steps|
  {
    if steps == [] then true else
    && (steps[0].Group? ==> !unwaited)
    && Waited(After(unwaited, steps[0]), steps[1..])
  }

  function After(unwaited: bool, step: Step): bool {
    match step
    case Spawn(_) => true
    case WaitReturns(_) => false
    case _ => unwaited
  }

  /** Between Add and Spawn the group is one ahead of the loops; otherwise it counts them. */
  ghost predicate Counts(st: State) {
    var pc := Current(st);
    && st.counter == |st.live| + (if pc.Spawning? then 1 else 0)
    && 0 <= st.counter <= 1
    && (pc.Adding? || pc.Spawning? ==> st.live == {})
  }

  ghost predicate AlwaysCounts(st: State, steps: seq<Step>)
    decreases |steps|
  {
    && Counts(st)
    && (steps != [] ==>
          match Try(st, steps[0])
          case None => true
          case Some(next) => AlwaysCounts(next, steps[1..]))
  }

  /** The group counts, and a loop that lives was started since the last wait returned. */
  ghost predicate Sound(st: State, unwaited: bool) {
    && Exclusive(st) && Counts(st)
    && (forall l :: l in st.live ==> l < st.started)
    && (st.live != {} ==> unwaited)
    && (unwaited ==> st.started > 0)
    && (Current(st).Adding? || Current(st).Spawning? ==> !unwaited)
  }

  lemma StartIsCounted()
    ensures Sound(START, false)
  {
  }

  lemma LoopEndSound(st: State, l: LoopId, next: State, unwaited: bool)
    requires Sound(st, unwaited) && Try(st, LoopEnds(l)) == Some(next)
    ensures Sound(next, unwaited)
  {
    assert |next.live| == |st.live| - 1;
  }

  lemma SpawnSound(st: State, c: ConnectId, next: State, unwaited: bool)
    requires Sound(st, unwaited) && Try(st, Spawn(c)) == Some(next)
    ensures Sound(next, true)
  {
    assert next.live == {st.started};
  }

  lemma GroupSound(st: State, c: ConnectId, next: State)
    requires Sound(st, false) && Try(st, Group(c)) == Some(next)
    ensures Sound(next, false)
  {
  }

  lemma AddSound(st: State, c: ConnectId, next: State, unwaited: bool)
    requires Sound(st, unwaited) && Try(st, Add(c)) == Some(next)
    ensures Sound(next, unwaited)
  {
  }

  predicate Counting(step: Step) {
    step.Group? || step.Add? || step.Spawn? || step.LoopEnds?
  }

  /** A step that leaves the group and the loops alone, and no connect between emptying and raising it. */
  lemma OtherEffect(st: State, step: Step, next: State)
    requires Exclusive(st) && Try(st, step) == Some(next) && !Counting(step)
    ensures Exclusive(next)
    ensures next.live == st.live && next.counter == st.counter && next.started == st.started
    ensures (Current(next).Adding? <==> Current(st).Adding?) && (Current(next).Spawning? <==> Current(st).Spawning?)
    ensures step.WaitReturns? ==> st.counter == 0
  {
  }

  lemma OtherSound(st: State, step: Step, next: State, unwaited: bool)
    requires Sound(st, unwaited) && Try(st, step) == Some(next) && !Counting(step)
    ensures Sound(next, After(unwaited, step))
  {
    OtherEffect(st, step, next);
  }

  lemma StepSound(st: State, step: Step, next: State, unwaited: bool)
    requires Sound(st, unwaited) && (step.Group? ==> !unwaited) && Try(st, step) == Some(next)
    ensures Sound(next, After(unwaited, step))
  {
    match step
    case LoopEnds(l) => LoopEndSound(st, l, next, unwaited);
    case Spawn(c) => SpawnSound(st, c, next, unwaited);
    case Group(c) => GroupSound(st, c, next);
    case Add(c) => AddSound(st, c, next, unwaited);
    case _ => OtherSound(st, step, next, unwaited);
  }

  lemma {:induction false} WaitedIsSound(st: State, steps: seq<Step>, unwaited: bool)
    requires Sound(st, unwaited) && Waited(unwaited, steps)
    ensures AlwaysCounts(st, steps)
    decreases |steps|
  {
    if steps != [] && Try(st, steps[0]).Some? {
      var next := Try(st, steps[0]).value;
      StepSound(st, steps[0], next, unwaited);
      WaitedIsSound(next, steps[1..], After(unwaited, steps[0]));
    }
  }

  lemma {:induction false} RunSound(st: State, steps: seq<Step>, unwaited: bool, end: State) returns (last: bool)
    requires Sound(st, unwaited) && Waited(unwaited, steps) && Run(st, steps) == Some(end)
    ensures Sound(end, last)
    decreases |steps|
  {
    last := unwaited;
    if steps != [] {
      var next := Try(st, steps[0]).value;
      StepSound(st, steps[0], next, unwaited);
      last := RunSound(next, steps[1..], After(unwaited, steps[0]), end);
    }
  }

  /**
   While the rule is kept, a wait returns only with no loop live and none raised but not started;
   and unless a connect stands between setting `Running` and raising the group, none is on its way.
   */
  lemma WaitDrains(steps: seq<Step>, st: State, d: DiscId)
    requires Run(START, steps) == Some(st) && Waited(false, steps) && Try(st, WaitReturns(d)).Some?
    ensures st.live == {} && !Current(st).Spawning?
    ensures !Current(st).Grouping? && !Current(st).Adding? ==> st.started == st.raised
  {
    StartIsSound();
    StartIsCounted();
    var _ := RunSound(START, steps, false, st);
    LoopsMatchTransitions(START, steps, st);
  }

  // ----- how a caller keeps the rule --------------------------------------------------------

  /** No connect takes the mutex unless a wait has returned since the last loop was started. */
  predicate WaitedAtLock(unwaited: bool, steps: seq<Step>)
    decreases |steps|
  {
    if steps == [] then true else
    && (steps[0].Lock? ==> !unwaited)
    && WaitedAtLock(After(unwaited, steps[0]), steps[1..])
  }

  /** From taking the mutex to starting its loop, the holder has nothing unwaited before it. */
  ghost predicate HolderWaited(st: State, unwaited: bool) {
    Exclusive(st) && (unwaited ==> Current(st).Asking? || Current(st).Pinging? || Current(st).Leaving?)
  }

  lemma HolderWaitedStep(st: State, step: Step, next: State, unwaited: bool)
    requires HolderWaited(st, unwaited) && (step.Lock? ==> !unwaited) && Try(st, step) == Some(next)
    ensures HolderWaited(next, After(unwaited, step)) && (step.Group? ==> !unwaited)
  {
  }

  /**
   It is enough that no connect begins before a wait that returned after the last one: the mutex
   keeps the start of that one's loop before its end, so the wait cannot have overlapped it.
   */
  lemma {:induction false} WaitBeforeConnecting(st: State, steps: seq<Step>, unwaited: bool)
    requires HolderWaited(st, unwaited) && Run(st, steps).Some? && WaitedAtLock(unwaited, steps)
    ensures Waited(unwaited, steps)
    decreases |steps|
  {
    if steps != [] {
      var next := Try(st, steps[0]).value;
      HolderWaitedStep(st, steps[0], next, unwaited);
      WaitBeforeConnecting(next, steps[1..], After(unwaited, steps[0]));
    }
  }

  // ----- the rule is exact ------------------------------------------------------------------

  /** What connects and disconnects do; when decoder loops end is left open. */
  function Visible(steps: seq<Step>): seq<Step> {
    if steps == [] then []
    else (if steps[0].LoopEnds? then [] else [steps[0]]) + Visible(steps[1..])
  }

  lemma {:induction false} VisibleAppend(a: seq<Step>, b: seq<Step>)
    ensures Visible(a + b) == Visible(a) + Visible(b)
  {
    if a == [] {
      assert a + b == b;
    } else {
      assert (a + b)[0] == a[0] && (a + b)[1..] == a[1..] + b;
      VisibleAppend(a[1..], b);
    }
  }

  lemma {:induction false} WaitedVisible(unwaited: bool, steps: seq<Step>)
    ensures Waited(unwaited, Visible(steps)) == Waited(unwaited, steps)
    decreases |steps|
  {
    if steps != [] {
      WaitedVisible(After(unwaited, steps[0]), steps[1..]);
      if !steps[0].LoopEnds? {
        assert Visible(steps)[0] == steps[0] && Visible(steps)[1..] == Visible(steps[1..]);
      } else {
        assert Visible(steps) == Visible(steps[1..]);
      }
    }
  }

  lemma {:induction false} WaitedPrefix(unwaited: bool, a: seq<Step>, b: seq<Step>)
    requires a <= b && Waited(unwaited, b)
    ensures Waited(unwaited, a)
    decreases |a|
  {
    if a != [] {
      WaitedPrefix(After(unwaited, a[0]), a[1..], b[1..]);
    }
  }

  /** The same state, had the last loop not ended before a wait saw it end. */
  function Lazy(st: State, unwaited: bool): State {
    var live := if unwaited && st.started > 0 then {st.started - 1} else {};
    st.(live := live, counter := |live| + (if Current(st).Spawning? then 1 else 0))
  }

  lemma LazyWait(st: State, d: DiscId, next: State, unwaited: bool) returns (sim: seq<Step>)
    requires Sound(st, unwaited) && Try(st, WaitReturns(d)) == Some(next)
    ensures Run(Lazy(st, unwaited), sim) == Some(Lazy(next, false)) && Visible(sim) == [WaitReturns(d)]
  {
    var lazy := Lazy(st, unwaited);
    var wait := [WaitReturns(d)];
    var idle := lazy.(live := {}, counter := 0);
    assert wait[1..] == [] && Visible(wait) == wait;
    RunOne(idle, wait, Lazy(next, false));
    sim := wait;
    if unwaited {
      sim := [LoopEnds(st.started - 1)] + wait;
      assert sim[1..] == wait;
      assert lazy.live - {st.started - 1} == {};
      RunOne(lazy, sim, idle);
    }
  }

  /** Each step has its like in the lazy run: loops end only where a wait needs it. */
  lemma LazyStep(st: State, step: Step, next: State, unwaited: bool) returns (sim: seq<Step>)
    requires Sound(st, unwaited) && (step.Group? ==> !unwaited) && Try(st, step) == Some(next)
    ensures Run(Lazy(st, unwaited), sim) == Some(Lazy(next, After(unwaited, step)))
    ensures Visible(sim) == if step.LoopEnds? then [] else [step]
  {
    if step.LoopEnds? {
      sim := [];
    } else if step.WaitReturns? {
      sim := LazyWait(st, step.d, next, unwaited);
    } else {
      sim := [step];
      assert sim[1..] == [];
      LazyOther(st, step, next, unwaited);
      RunOne(Lazy(st, unwaited), sim, Lazy(next, After(unwaited, step)));
    }
  }

  lemma LazyOther(st: State, step: Step, next: State, unwaited: bool)
    requires Sound(st, unwaited) && (step.Group? ==> !unwaited) && Try(st, step) == Some(next)
    requires !step.LoopEnds? && !step.WaitReturns?
    ensures Try(Lazy(st, unwaited), step) == Some(Lazy(next, After(unwaited, step)))
  {
  }

  lemma {:induction false} AlwaysCountsToTheEnd(st: State, steps: seq<Step>, end: State)
    requires Run(st, steps) == Some(end) && AlwaysCounts(st, steps)
    ensures Counts(end)
    decreases |steps|
  {
    if steps != [] {
      AlwaysCountsToTheEnd(Try(st, steps[0]).value, steps[1..], end);
    }
  }

  /** The group is broken: it does not count, and the end of loop `l`, which is left over, takes it below zero. */
  ghost predicate Broken(st: State, l: LoopId) {
    !Counts(st) && l in st.live && st.counter == 0
  }

  lemma BrokenGoesNegative(st: State, l: LoopId)
    requires Broken(st, l)
    ensures Run(st, [LoopEnds(l)]).Some? && Run(st, [LoopEnds(l)]).value.counter == -1
  {
    assert [LoopEnds(l)][1..] == [];
    RunOne(st, [LoopEnds(l)], Try(st, LoopEnds(l)).value);
  }

  /** A group replaced under a loop that still lives. */
  lemma GroupBreaks(st: State, c: ConnectId, next: State, l: LoopId)
    requires Exclusive(st) && l in st.live && Try(st, Group(c)) == Some(next)
    ensures Run(st, [Group(c)]) == Some(next) && Broken(next, l)
  {
    assert [Group(c)][1..] == [];
    RunOne(st, [Group(c)], next);
  }

  /** A run that does not keep the rule has a like that breaks the group. */
  lemma {:induction false} UnwaitedBreaks(st: State, steps: seq<Step>, unwaited: bool)
    returns (other: seq<Step>, end: State, l: LoopId)
    requires Sound(st, unwaited) && Run(st, steps).Some? && !Waited(unwaited, steps)
    ensures Visible(other) <= Visible(steps)
    ensures Run(Lazy(st, unwaited), other) == Some(end) && Broken(end, l)
    decreases |steps|
  {
    var step, next := steps[0], Try(st, steps[0]).value;
    var lazy := Lazy(st, unwaited);
    if step.Group? && unwaited {
      other, end, l := [step], Try(lazy, step).value, st.started - 1;
      assert Visible([step]) == [step] + Visible([step][1..]);
      GroupBreaks(lazy, step.c, end, l);
    } else {
      var sim := LazyStep(st, step, next, unwaited);
      StepSound(st, step, next, unwaited);
      var rest;
      rest, end, l := UnwaitedBreaks(next, steps[1..], After(unwaited, step));
      other := sim + rest;
      VisibleAppend(sim, rest);
      RunAppend(lazy, sim, rest);
    }
  }

  /** The group counts in every run in which connects and disconnects do no more than `visible`. */
  ghost predicate SoundWhenever(visible: seq<Step>) {
    forall other :: Run(START, other).Some? && Visible(other) <= visible ==> AlwaysCounts(START, other)
  }

  /**
   The rule is exact. Whatever connects and disconnects do in a run, the wait group counts the live
   decoder loops, and is zero or one, in every run in which they do the same so far and the loops end
   whenever they like, if and only if a wait has returned between the start of each decoder loop and
   the next replacement of the group.
   */
  lemma {:induction false} SoundIffWaited(steps: seq<Step>)
    requires Run(START, steps).Some?
    ensures Waited(false, steps) <==> SoundWhenever(Visible(steps))
  {
    StartIsCounted();
    if Waited(false, steps) {
      forall other | Run(START, other).Some? && Visible(other) <= Visible(steps)
        ensures AlwaysCounts(START, other)
      {
        WaitedVisible(false, steps);
        WaitedPrefix(false, Visible(other), Visible(steps));
        WaitedVisible(false, other);
        WaitedIsSound(START, other, false);
      }
    } else {
      var other, end, _ := UnwaitedBreaks(START, steps, false);
      assert Lazy(START, false) == START;
      if AlwaysCounts(START, other) {
        AlwaysCountsToTheEnd(START, other, end);
      }
    }
  }

  /** A run that does not keep the rule has a like in which the group goes negative, which panics. */
  lemma {:induction false} UnwaitedGoesNegative(steps: seq<Step>) returns (other: seq<Step>, l: LoopId)
    requires Run(START, steps).Some? && !Waited(false, steps)
    ensures Visible(other) <= Visible(steps)
    ensures Run(START, other + [LoopEnds(l)]).Some? && Run(START, other + [LoopEnds(l)]).value.counter == -1
  {
    StartIsCounted();
    var end;
    other, end, l := UnwaitedBreaks(START, steps, false);
    assert Lazy(START, false) == START;
    BrokenGoesNegative(end, l);
    RunAppend(START, other, [LoopEnds(l)]);
  }
}
