/**
 When the heartbeat pings, and how soon it notices a silent remote. Times are nanoseconds on an
 ideal clock; only the ping itself and the sleep take time.
 */
module Heartbeat {
  import opened Wrappers

  const INTERVAL := 60_000_000_000

  /**
   One round as the outside decides it: whether one of the checks before the ping finds `Running`
   clear, how long `Encode` blocks (the context does not govern it) and whether it fails, how long
   after that an answer arrives, if it does, whether that answer is without error, and whether someone
   else has cleared `Running` by the time the ping is over.
   */
  datatype Round = Round(stopped: bool, encode: nat, fails: bool, reply: Option<nat>, clean: bool, cleared: bool)

  /** An answer counts only if the call was sent and it arrives before the context's deadline. */
  predicate InTime(r: Round) {
    !r.fails && r.reply.Some? && r.encode + r.reply.value < INTERVAL
  }

  function Max(a: nat, b: nat): nat {
    if a >= b then a else b
  }

  /**
   A ping waits for its answer, or for the deadline, and never less than `Encode` takes; an error from
   `Encode` ends it at once.
   */
  function Duration(r: Round): nat {
    if r.fails then r.encode else if InTime(r) then r.encode + r.reply.value else Max(r.encode, INTERVAL)
  }

  predicate Alive(r: Round) {
    InTime(r) && r.clean && !r.cleared
  }

  /** Still going, `Running` cleared here, or found clear after a ping or before one. */
  datatype Verdict = Beating | Cleared(at: nat) | ClearedElsewhere | StoppedBetween

  /**
   No ping was started in a round found stopped; each ping but the last was answered, and the next
   started an interval later, or at once if it was late.
   */
  ghost predicate Spaced(starts: seq<nat>, rounds: seq<Round>) {
    && |starts| <= |rounds|
    && (forall k :: 0 <= k < |starts| ==> !rounds[k].stopped)
    && forall k :: 0 <= k < |starts| - 1 ==>
         Alive(rounds[k]) && starts[k + 1] == starts[k] + Max(INTERVAL, Duration(rounds[k]))
  }

  /**
   How the loop ended: it ran out of rounds, its last ping made it clear `Running` or found it clear,
   or the round after its last ping was found stopped.
   */
  ghost predicate Decided(starts: seq<nat>, rounds: seq<Round>, verdict: Verdict) {
    && |starts| <= |rounds|
    && match verdict
       case Beating => |starts| == |rounds| && LastAlive(starts, rounds)
       case StoppedBetween => |starts| < |rounds| && rounds[|starts|].stopped && LastAlive(starts, rounds)
       case Cleared(at) =>
         && starts != [] && var last := rounds[|starts| - 1];
         !last.cleared && !Alive(last) && at == starts[|starts| - 1] + Duration(last)
       case ClearedElsewhere => starts != [] && rounds[|starts| - 1].cleared
  }

  ghost predicate LastAlive(starts: seq<nat>, rounds: seq<Round>)
    requires |starts| <= |rounds|
  {
    starts != [] ==> Alive(rounds[|starts| - 1])
  }

  /**
   The heartbeat loop over the rounds the outside offers. `starts` are the times of its pings;
   the verdict says whether it cleared `Running` itself, and when.
   */
  method RunHeartbeat(begin: nat, rounds: seq<Round>) returns (starts: seq<nat>, verdict: Verdict)
    ensures starts != [] ==> starts[0] == begin
    ensures Spaced(starts, rounds) && Decided(starts, rounds, verdict)
  {
    starts := [];
    verdict := Beating;
    var now := begin;
    var i := 0;
    while i < |rounds|
      invariant 0 <= i <= |rounds| && |starts| == i && verdict == Beating
      invariant i > 0 ==> starts[0] == begin && now == starts[i - 1] + Max(INTERVAL, Duration(rounds[i - 1]))
      invariant i == 0 ==> now == begin
      invariant forall k :: 0 <= k < i - 1 ==> starts[k + 1] == starts[k] + Max(INTERVAL, Duration(rounds[k]))
      invariant forall k :: 0 <= k < i ==> Alive(rounds[k]) && !rounds[k].stopped
    {
      var r := rounds[i];
      if r.stopped {
        verdict := StoppedBetween;
        return;
      }
      starts := starts + [now];
      var duration := Duration(r);
      if r.cleared {
        verdict := ClearedElsewhere;
        return;
      }
      if !(InTime(r) && r.clean) {
        verdict := Cleared(now + duration);
        return;
      }
      var wait := INTERVAL - duration;
      now := now + duration + (if wait > 0 then wait else 0);
      i := i + 1;
    }
  }

  /** While the remote answers, pings start exactly one interval apart. */
  lemma {:induction false} PingsAreSpaced(starts: seq<nat>, rounds: seq<Round>, k: nat)
    requires Spaced(starts, rounds) && k < |starts|
    ensures starts[k] == starts[0] + k * INTERVAL
  {
    if k > 0 {
      PingsAreSpaced(starts, rounds, k - 1);
    }
  }

  /**
   Failure detection: if the ping that started at `starts[k]` is the last the remote answers, and
   nobody else stops the agent, `Running` is cleared two intervals after that start; sooner if the next
   `Encode` fails, and later only by as much as it outlasts its interval.
   */
  lemma SilenceIsNoticed(starts: seq<nat>, rounds: seq<Round>, verdict: Verdict, k: nat)
    requires Spaced(starts, rounds) && Decided(starts, rounds, verdict)
    requires k < |starts| && k + 1 < |rounds|
    requires Alive(rounds[k]) && rounds[k + 1].reply.None? && !rounds[k + 1].stopped && !rounds[k + 1].cleared
    ensures |starts| == k + 2 && starts[k] == starts[0] + k * INTERVAL
    ensures var last := rounds[k + 1];
            && verdict == Cleared(starts[k] + INTERVAL + if last.fails then last.encode else Max(last.encode, INTERVAL))
            && (last.encode <= INTERVAL ==> verdict.at <= starts[k] + 2 * INTERVAL)
            && (last.encode <= INTERVAL && !last.fails ==> verdict.at == starts[0] + (k + 2) * INTERVAL)
  {
    PingsAreSpaced(starts, rounds, k);
    assert !Alive(rounds[k + 1]);
  }

  /**
   A healthy agent is kept: the loop is still going after all the rounds if and only if no round was
   found stopped or cleared, and in each the ping was sent and answered without an error in less than
   sixty seconds. In particular it is not given up before.
   */
  lemma KeptIff(starts: seq<nat>, rounds: seq<Round>, verdict: Verdict)
    requires Spaced(starts, rounds) && Decided(starts, rounds, verdict)
    ensures verdict == Beating <==> forall k :: 0 <= k < |rounds| ==>
              var r := rounds[k];
              && !r.stopped && !r.cleared && !r.fails && r.clean
              && r.reply.Some? && r.encode + r.reply.value < 60 * 1_000_000_000
    ensures verdict == Beating ==> |starts| == |rounds|
    ensures verdict == Beating ==> forall k :: 0 <= k < |rounds| ==> starts[k] == starts[0] + k * (60 * 1_000_000_000)
  {
    if verdict == Beating {
      forall k | 0 <= k < |rounds|
        ensures Alive(rounds[k]) && !rounds[k].stopped && starts[k] == starts[0] + k * INTERVAL
      {
        PingsAreSpaced(starts, rounds, k);
        assert k < |starts| - 1 ==> starts[k + 1] == starts[k] + Max(INTERVAL, Duration(rounds[k]));
      }
    }
  }

  // ----- the remote's own watchdog ----------------------------------------------------------

  const WATCHDOG := 120_000_000_000

  /** The remote gives up when its last ping is more than two minutes old. */
  predicate Fires(last: nat, now: nat) {
    now > last + WATCHDOG
  }

  /** The last ping to arrive by time `now`. */
  function Latest(arrivals: seq<nat>, now: nat): nat
    requires arrivals != []
  {
    if |arrivals| > 1 && arrivals[1] <= now then Latest(arrivals[1..], now) else arrivals[0]
  }

  /** Ping `k` reaches the remote between its start and the end of its round. */
  predicate Arrives(starts: seq<nat>, rounds: seq<Round>, arrivals: seq<nat>) {
    && |starts| == |arrivals| <= |rounds|
    && forall k :: 0 <= k < |starts| ==> starts[k] <= arrivals[k] <= starts[k] + Duration(rounds[k])
  }

  /**
   The two sides agree: as long as the local side counts its pings as answered, the remote's
   watchdog does not fire, from the arrival of the first ping to two minutes after that of the
   last, wherever in its round each ping arrived.
   */
  lemma {:induction false} WatchdogIsFed(starts: seq<nat>, rounds: seq<Round>, arrivals: seq<nat>, now: nat)
    requires starts != [] && Spaced(starts, rounds) && Arrives(starts, rounds, arrivals)
    requires Alive(rounds[|starts| - 1])
    requires arrivals[0] <= now <= arrivals[|arrivals| - 1] + WATCHDOG
    ensures !Fires(Latest(arrivals, now), now)
    decreases |starts|
  {
    if |starts| > 1 && arrivals[1] <= now {
      var later := starts[1..];
      assert forall k :: 0 <= k < |later| ==> later[k] == starts[k + 1];
      WatchdogIsFed(later, rounds[1..], arrivals[1..], now);
    } else if |starts| > 1 {
      assert Alive(rounds[0]) && starts[0 + 1] == starts[0] + INTERVAL;
      assert Alive(rounds[1]) by {
        if |starts| > 2 {
          assert starts[1 + 1] == starts[1] + Max(INTERVAL, Duration(rounds[1]));
        }
      }
    }
  }

  /** Once no more pings arrive, the watchdog fires exactly two minutes after the last. */
  lemma {:induction false} WatchdogFiresIff(arrivals: seq<nat>, now: nat)
    requires arrivals != [] && forall k :: 0 <= k < |arrivals| ==> arrivals[k] <= now
    ensures Fires(Latest(arrivals, now), now) <==> now > arrivals[|arrivals| - 1] + 120 * 1_000_000_000
  {
    if |arrivals| > 1 {
      WatchdogFiresIff(arrivals[1..], now);
    }
  }
}
