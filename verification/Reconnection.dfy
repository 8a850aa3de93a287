/** The reconnection loop seen from outside: what an attempt meets, and what the connect callback is
    told. */
module Reconnection {
  datatype ConnectState = Dropped | Start | Sleeping | Connected | Failed | LookupFailed | Stopped

  /** What one attempt meets: whether the sentinel finds a master, whether `connect` throws, whether
      the socket is up afterwards, and whether the user has cancelled by the next check. */
  datatype Attempt = Attempt(found: bool, threw: bool, up: bool, cancelled: bool)

  predicate Connects(hasMaster: bool, a: Attempt) {
    (hasMaster ==> a.found) && a.up
  }

  function SleepEvents(interval: nat): seq<ConnectState> {
    if interval > 0 then [Sleeping] else []
  }

  function ReconnectEvents(hasMaster: bool, a: Attempt): seq<ConnectState> {
    if hasMaster && !a.found then [LookupFailed]
    else [Start] + (if a.threw then [] else [Connected]) + (if a.up then [Connected] else [Failed])
  }

  /** The calls of the connect callback during a sequence of attempts. */
  function LoopEvents(hasMaster: bool, interval: nat, attempts: seq<Attempt>): seq<ConnectState>
    decreases |attempts|
  {
    if attempts == [] then []
    else LoopEvents(hasMaster, interval, attempts[..|attempts| - 1]) +
         (SleepEvents(interval) + ReconnectEvents(hasMaster, attempts[|attempts| - 1]))
  }

  /** The calls of one attempt, spelled out. */
  lemma EventsSpelled(hasMaster: bool, interval: nat, a: Attempt)
    ensures SleepEvents(interval) == if interval == 0 then [] else [Sleeping]
    ensures hasMaster && !a.found ==> ReconnectEvents(hasMaster, a) == [LookupFailed]
    ensures !(hasMaster && !a.found) ==>
              ReconnectEvents(hasMaster, a) ==
              match (a.threw, a.up)
              case (true, true) => [Start, Connected]
              case (true, false) => [Start, Failed]
              case (false, true) => [Start, Connected, Connected]
              case (false, false) => [Start, Connected, Failed]
  {
  }

  lemma LoopOneMore(hasMaster: bool, interval: nat, env: seq<Attempt>, used: nat)
    requires used < |env|
    ensures LoopEvents(hasMaster, interval, env[..used + 1]) ==
            LoopEvents(hasMaster, interval, env[..used]) + (SleepEvents(interval) + ReconnectEvents(hasMaster, env[used]))
  {
    var more := env[..used + 1];
    assert more[..|more| - 1] == env[..used] && more[|more| - 1] == env[used];
  }

  /** What the loop knows after `used` attempts: only the last may have connected or been followed by
      a cancellation, and a bound that is not negative was respected. */
  predicate Attempted(hasMaster: bool, bound: int, env: seq<Attempt>, used: nat,
                      wasUp: bool, wasCancelled: bool, up: bool, cancelled: bool)
    requires used <= |env|
  {
    && (forall i | 0 <= i < used - 1 :: !Connects(hasMaster, env[i]) && !env[i].cancelled)
    && up == (if used == 0 then wasUp else Connects(hasMaster, env[used - 1]))
    && cancelled == (if used == 0 then wasCancelled else env[used - 1].cancelled)
    && (used > 0 ==> !wasUp && !wasCancelled)
    && (bound >= 0 ==> used <= bound)
  }

  lemma AttemptedOneMore(hasMaster: bool, bound: int, env: seq<Attempt>, used: nat, wasUp: bool, wasCancelled: bool)
    requires used < |env| && Attempted(hasMaster, bound, env, used, wasUp, wasCancelled, false, false)
    requires bound == -1 || used < bound
    ensures Attempted(hasMaster, bound, env, used + 1, wasUp, wasCancelled, Connects(hasMaster, env[used]), env[used].cancelled)
  {
  }

  // ----- The grammar of a handler run ------------------------------------------------------

  function Awake(t: seq<ConnectState>): seq<ConnectState> {
    if t != [] && t[0] == Sleeping then t[1..] else t
  }

  predicate FailingTrace(t: seq<ConnectState>) {
    Awake(t) == [LookupFailed] || Awake(t) == [Start, Failed] || Awake(t) == [Start, Connected, Failed]
  }

  /** The short form is a `connect` that threw although the socket came up. */
  predicate SucceedingTrace(t: seq<ConnectState>) {
    Awake(t) == [Start, Connected, Connected] || Awake(t) == [Start, Connected]
  }

  /** sleeping? (lookup_failed | start failed | start ok failed), any number of times */
  ghost predicate FailingTraces(t: seq<ConnectState>)
    decreases |t|
  {
    t == [] || exists k | 0 <= k < |t| :: FailingTraces(t[..k]) && FailingTrace(t[k..])
  }

  /** One run of the loop that ends connected or not: failing attempts, then at most one that works. */
  ghost predicate LoopTrace(t: seq<ConnectState>, connected: bool) {
    if connected then exists k | 0 <= k < |t| :: FailingTraces(t[..k]) && SucceedingTrace(t[k..])
    else FailingTraces(t)
  }

  /** A whole handler run: `stopped` comes at the end exactly when there is no connection. */
  ghost predicate HandlerTrace(t: seq<ConnectState>, connected: bool) {
    && t != [] && t[0] == Dropped
    && (!connected ==> |t| >= 2 && t[|t| - 1] == Stopped)
    && LoopTrace(if connected then t[1..] else t[1..|t| - 1], connected)
  }

  predicate AllFail(hasMaster: bool, attempts: seq<Attempt>) {
    forall i | 0 <= i < |attempts| :: !Connects(hasMaster, attempts[i])
  }

  lemma OneAttemptTrace(hasMaster: bool, interval: nat, a: Attempt)
    ensures var t := SleepEvents(interval) + ReconnectEvents(hasMaster, a);
            t != [] && if Connects(hasMaster, a) then SucceedingTrace(t) else FailingTrace(t)
  {
    var t := SleepEvents(interval) + ReconnectEvents(hasMaster, a);
    assert Awake(t) == ReconnectEvents(hasMaster, a);
  }

  lemma {:induction false} FailingLoopTrace(hasMaster: bool, interval: nat, attempts: seq<Attempt>)
    requires AllFail(hasMaster, attempts)
    ensures FailingTraces(LoopEvents(hasMaster, interval, attempts))
    decreases |attempts|
  {
    if attempts != [] {
      var front, last := attempts[..|attempts| - 1], attempts[|attempts| - 1];
      FailingLoopTrace(hasMaster, interval, front);
      OneAttemptTrace(hasMaster, interval, last);
      var t, a, b := LoopEvents(hasMaster, interval, attempts), LoopEvents(hasMaster, interval, front),
        SleepEvents(interval) + ReconnectEvents(hasMaster, last);
      assert t[..|a|] == a && t[|a|..] == b;
    }
  }

  /** Every run of the loop in which each attempt but possibly the last fails follows the grammar. */
  lemma LoopFollowsGrammar(hasMaster: bool, interval: nat, attempts: seq<Attempt>, connected: bool)
    requires attempts != [] ==> AllFail(hasMaster, attempts[..|attempts| - 1])
    requires connected <==> attempts != [] && Connects(hasMaster, attempts[|attempts| - 1])
    ensures LoopTrace(LoopEvents(hasMaster, interval, attempts), connected)
  {
    if connected {
      var front, last := attempts[..|attempts| - 1], attempts[|attempts| - 1];
      FailingLoopTrace(hasMaster, interval, front);
      OneAttemptTrace(hasMaster, interval, last);
      var t, a, b := LoopEvents(hasMaster, interval, attempts), LoopEvents(hasMaster, interval, front),
        SleepEvents(interval) + ReconnectEvents(hasMaster, last);
      assert t[..|a|] == a && t[|a|..] == b;
    } else {
      if attempts != [] {
        assert attempts == attempts[..|attempts| - 1] + [attempts[|attempts| - 1]];
      }
      FailingLoopTrace(hasMaster, interval, attempts);
    }
  }

  lemma HandlerFollowsGrammar(hasMaster: bool, interval: nat, attempts: seq<Attempt>, connected: bool)
    requires attempts != [] ==> AllFail(hasMaster, attempts[..|attempts| - 1])
    requires connected <==> attempts != [] && Connects(hasMaster, attempts[|attempts| - 1])
    ensures HandlerTrace([Dropped] + LoopEvents(hasMaster, interval, attempts) + (if connected then [] else [Stopped]), connected)
  {
    var l := LoopEvents(hasMaster, interval, attempts);
    var t := [Dropped] + l + (if connected then [] else [Stopped]);
    LoopFollowsGrammar(hasMaster, interval, attempts, connected);
    assert l == if connected then t[1..] else t[1..|t| - 1];
  }

  lemma AttemptsFollowGrammar(hasMaster: bool, interval: nat, bound: int, env: seq<Attempt>, used: nat,
                              wasCancelled: bool, up: bool, cancelled: bool)
    requires used <= |env| && Attempted(hasMaster, bound, env, used, false, wasCancelled, up, cancelled)
    ensures HandlerTrace([Dropped] + LoopEvents(hasMaster, interval, env[..used]) + (if up then [] else [Stopped]), up)
  {
    HandlerFollowsGrammar(hasMaster, interval, env[..used], up);
  }
}
