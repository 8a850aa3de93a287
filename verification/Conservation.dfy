/** Exactly-once callbacks and the running counter, over every run of the protocol: no assumption on
    passwords, databases, the order of teardown and drain loop, or the bytes the server sends. */
module Conservation {
  import opened Wrappers
  import opened Commands
  import opened Pipeline
  import opened Protocol

  function InHandlers(hs: seq<Option<Request>>): multiset<Request> {
    if hs == [] then multiset{}
    else multiset(Listed(hs[0])) + InHandlers(hs[1..])
  }

  function InThreads(ts: seq<seq<Request>>): multiset<Request> {
    if ts == [] then multiset{} else multiset(ts[0]) + InThreads(ts[1..])
  }

  lemma {:induction false} InHandlersConcat(a: seq<Option<Request>>, b: seq<Option<Request>>)
    ensures InHandlers(a + b) == InHandlers(a) + InHandlers(b)
  {
    if a == [] {
      assert a + b == b;
    } else {
      assert (a + b)[1..] == a[1..] + b;
      InHandlersConcat(a[1..], b);
    }
  }

  lemma {:induction false} InThreadsConcat(a: seq<seq<Request>>, b: seq<seq<Request>>)
    ensures InThreads(a + b) == InThreads(a) + InThreads(b)
  {
    if a == [] {
      assert a + b == b;
    } else {
      assert (a + b)[1..] == a[1..] + b;
      InThreadsConcat(a[1..], b);
    }
  }

  lemma HandlerBetween(before: seq<Option<Request>>, h: Option<Request>, after: seq<Option<Request>>)
    ensures InHandlers(before + ([h] + after)) == InHandlers(before + after) + multiset(Listed(h))
  {
    assert ([h] + after)[1..] == after;
    InHandlersConcat(before, [h] + after);
    InHandlersConcat(before, after);
  }

  lemma FinishedHandler(hs: seq<Option<Request>>, i: nat)
    requires i < |hs|
    ensures InHandlers(hs) == InHandlers(hs[..i] + hs[i + 1..]) + multiset(Listed(hs[i]))
  {
    assert hs == hs[..i] + ([hs[i]] + hs[i + 1..]);
    HandlerBetween(hs[..i], hs[i], hs[i + 1..]);
  }

  lemma Rearrange<T>(a: multiset<T>, b: multiset<T>, c: multiset<T>)
    ensures a + (b + c) == (a + c) + b == (a + b) + c
  {
  }

  lemma FailedFirst(ts: seq<seq<Request>>, t: nat)
    requires t < |ts| && ts[t] != []
    ensures InThreads(ts) == InThreads(ts[t := ts[t][1..]]) + multiset{ts[t][0]}
  {
    var us := ts[t := ts[t][1..]];
    assert ts == ts[..t] + ([ts[t]] + ts[t + 1..]);
    assert us == ts[..t] + ([ts[t][1..]] + ts[t + 1..]);
    assert ([ts[t]] + ts[t + 1..])[1..] == ts[t + 1..] && ([ts[t][1..]] + ts[t + 1..])[1..] == ts[t + 1..];
    InThreadsConcat(ts[..t], [ts[t]] + ts[t + 1..]);
    InThreadsConcat(ts[..t], [ts[t][1..]] + ts[t + 1..]);
    assert ts[t] == [ts[t][0]] + ts[t][1..];
  }

  // ----- The books of the core -------------------------------------------------------------

  /** Every submission is queued, in a failure thread, or among `elsewhere`; ids are positions. */
  predicate Booked(c: Core, elsewhere: multiset<Request>) {
    && multiset(c.commands) + InThreads(c.failing) + elsewhere == multiset(c.submitted)
    && forall i | 0 <= i < |c.submitted| :: c.submitted[i].id == i
  }

  /** The counter counts the running handlers and the callbacks left in failure threads; it is an
      unsigned int, so it does so modulo 2^32. */
  predicate Counted(c: Core, handlers: nat) {
    c.running == (handlers + |InThreads(c.failing)|) % UINT_RANGE
  }

  lemma SubmitBooks(c: Core, command: Command, notify: bool, elsewhere: multiset<Request>)
    requires Booked(c, elsewhere)
    ensures Booked(Submit(c, command, notify), elsewhere)
  {
    var r := Request(|c.submitted|, command, notify);
    var d := Submit(c, command, notify);
    assert multiset(d.commands) == multiset(c.commands) + multiset{r};
    assert multiset(d.submitted) == multiset(c.submitted) + multiset{r};
  }

  lemma ClearBooks(c: Core, elsewhere: multiset<Request>, handlers: nat)
    requires Booked(c, elsewhere) && Counted(c, handlers)
    ensures Booked(ClearCallbacks(c), elsewhere) && Counted(ClearCallbacks(c), handlers)
  {
    if c.commands != [] {
      InThreadsConcat(c.failing, [c.commands]);
      assert InThreads([c.commands]) == multiset(c.commands) + InThreads([]);
      assert |InThreads(c.failing + [c.commands])| == |InThreads(c.failing)| + |c.commands|;
      AddModulo(handlers + |InThreads(c.failing)|, |c.commands|);
    }
  }

  lemma AddModulo(a: nat, b: nat)
    ensures (a % UINT_RANGE + b) % UINT_RANGE == (a + b) % UINT_RANGE
  {
  }

  lemma SubtractModulo(a: nat)
    requires a > 0
    ensures (a % UINT_RANGE - 1) % UINT_RANGE == (a - 1) % UINT_RANGE
  {
  }

  lemma ReconnectBooks(c: Core, elsewhere: multiset<Request>)
    requires Booked(c, elsewhere)
    ensures var d := Reconnect(c); Booked(d, elsewhere) && d.running == c.running && d.failing == c.failing
  {
    var c1 := ReAuth(c);
    if c.password != "" {
      SubmitBooks(c.(password := c.password), AuthCommand(c.password), true, elsewhere);
    }
    if c.index > 0 {
      SubmitBooks(c1.(index := c.index), SelectCommand(c.index), true, elsewhere);
    }
  }

  // ----- The invariant ---------------------------------------------------------------------

  function Elsewhere(s: State): multiset<Request> {
    InHandlers(s.handlers) + multiset(s.retired)
  }

  /** Each callback that is not null has been invoked once if its request has been popped, in a
      handler or by a failure thread, and not otherwise. */
  ghost predicate InvokedOnce(s: State) {
    forall r: Request :: multiset(s.invoked)[r] == if r.notify then Elsewhere(s)[r] else 0
  }

  ghost predicate Conserved(s: State) {
    Booked(s.core, Elsewhere(s)) && Counted(s.core, |s.handlers|) && InvokedOnce(s)
  }

  lemma TakeElsewhere(s: State)
    requires s.available != []
    ensures Elsewhere(Taken(s)) == Elsewhere(s) + multiset(Listed(Front(s.core.commands)))
    ensures multiset(s.core.commands) == multiset(Taken(s).core.commands) + multiset(Listed(Front(s.core.commands)))
  {
    var popped := Front(s.core.commands);
    InHandlersConcat(s.handlers, [popped]);
    assert InHandlers([popped]) == multiset(Listed(popped));
    Rearrange(InHandlers(s.handlers), multiset(s.retired), multiset(Listed(popped)));
    assert s.core.commands == Listed(popped) + Tail(s.core.commands);
  }

  lemma FinishElsewhere(s: State, i: nat)
    requires i < |s.handlers|
    ensures Elsewhere(Finished(s, i)) == Elsewhere(s)
  {
    FinishedHandler(s.handlers, i);
    var rest, l := InHandlers(s.handlers[..i] + s.handlers[i + 1..]), multiset(Listed(s.handlers[i]));
    assert multiset(Finished(s, i).retired) == multiset(s.retired) + l;
    Rearrange(rest, multiset(s.retired), l);
  }

  lemma TakeBooks(s: State)
    requires Booked(s.core, Elsewhere(s)) && s.available != []
    ensures Booked(Taken(s).core, Elsewhere(Taken(s)))
  {
    TakeElsewhere(s);
  }

  lemma FailBooks(s: State, t: nat)
    requires Booked(s.core, Elsewhere(s)) && t < |s.core.failing| && s.core.failing[t] != []
    ensures var u := FailedOne(s, t);
            Booked(u.core, Elsewhere(u)) && Elsewhere(u) == Elsewhere(s) + multiset([s.core.failing[t][0]])
  {
    FailedFirst(s.core.failing, t);
  }

  lemma HandlersCount(s: State, t: State)
    requires Counted(s.core, |s.handlers|) && t.core.failing == s.core.failing
    ensures |t.handlers| == |s.handlers| + 1 && t.core.running == (s.core.running + 1) % UINT_RANGE ==>
              Counted(t.core, |t.handlers|)
    ensures |t.handlers| + 1 == |s.handlers| && t.core.running == (s.core.running - 1) % UINT_RANGE ==>
              Counted(t.core, |t.handlers|)
  {
    var n := |s.handlers| + |InThreads(s.core.failing)|;
    AddModulo(n, 1);
    if n > 0 {
      SubtractModulo(n);
    }
  }

  lemma FailCounts(s: State, t: nat)
    requires Counted(s.core, |s.handlers|) && t < |s.core.failing| && s.core.failing[t] != []
    ensures Counted(FailedOne(s, t).core, |s.handlers|)
  {
    FailedFirst(s.core.failing, t);
    SubtractModulo(|s.handlers| + |InThreads(s.core.failing)|);
  }

  /** Requests `rs` leave the queue or the threads, and their callbacks are called. */
  lemma InvokeMore(s: State, t: State, rs: seq<Request>)
    requires InvokedOnce(s) && |rs| <= 1
    requires t.invoked == s.invoked + Notified(rs) && Elsewhere(t) == Elsewhere(s) + multiset(rs)
    ensures InvokedOnce(t)
  {
    if rs != [] {
      assert rs == [rs[0]];
      assert Notified(rs) == if rs[0].notify then [rs[0]] else [];
    }
  }

  lemma TakeConserves(s: State)
    requires Conserved(s) && s.available != []
    ensures Conserved(Taken(s))
  {
    TakeBooks(s);
    HandlersCount(s, Taken(s));
    TakeInvokes(s);
  }

  lemma TakeInvokes(s: State)
    requires InvokedOnce(s) && s.available != []
    ensures InvokedOnce(Taken(s))
  {
    TakeElsewhere(s);
    InvokeMore(s, Taken(s), Listed(Front(s.core.commands)));
  }

  lemma FinishConserves(s: State, i: nat)
    requires Conserved(s) && i < |s.handlers|
    ensures Conserved(Finished(s, i))
  {
    FinishElsewhere(s, i);
    HandlersCount(s, Finished(s, i));
  }

  lemma FailConserves(s: State, t: nat)
    requires Conserved(s) && t < |s.core.failing| && s.core.failing[t] != []
    ensures Conserved(FailedOne(s, t))
  {
    FailBooks(s, t);
    FailCounts(s, t);
    InvokeMore(s, FailedOne(s, t), [s.core.failing[t][0]]);
  }

  /** Steps that leave handlers, completions and invocations alone. */
  lemma QuietConserves(s: State, t: State)
    requires Conserved(s) && t.handlers == s.handlers && t.retired == s.retired && t.invoked == s.invoked
    requires Booked(t.core, Elsewhere(s)) && Counted(t.core, |s.handlers|)
    ensures Conserved(t)
  {
    assert Elsewhere(t) == Elsewhere(s);
  }

  lemma ClearConserves(s: State, t: State)
    requires Conserved(s) && t.handlers == s.handlers && t.retired == s.retired && t.invoked == s.invoked
    requires t.core == ClearCallbacks(s.core) || t.core == CommitFails(s.core)
    ensures Conserved(t)
  {
    ClearBooks(s.core, Elsewhere(s), |s.handlers|);
    ClearBooks(s.core.(out := ""), Elsewhere(s), |s.handlers|);
    QuietConserves(s, t);
  }

  lemma RestoreConserves(s: State)
    requires Conserved(s)
    ensures Conserved(Restored(s))
  {
    ReconnectBooks(s.core, Elsewhere(s));
    SentConserves(s, Reconnect(s.core), Restored(s));
  }

  lemma SentConserves(s: State, c: Core, t: State)
    requires Conserved(s) && t.handlers == s.handlers && t.retired == s.retired && t.invoked == s.invoked
    requires t.core == c.(out := "")
    requires Booked(c, Elsewhere(s)) && c.running == s.core.running && c.failing == s.core.failing
    ensures Conserved(t)
  {
    QuietConserves(s, t);
  }

  lemma SubmitConserves(s: State, command: Command, notify: bool)
    requires Conserved(s)
    ensures Conserved(s.(core := Submit(s.core, command, notify)))
  {
    SubmitBooks(s.core, command, notify, Elsewhere(s));
    QuietConserves(s, s.(core := Submit(s.core, command, notify)));
  }

  lemma StepConserves(s: State, a: Step)
    requires Conserved(s) && Enabled(s, a)
    ensures Conserved(Apply(s, a))
  {
    match a
    case TakeReply => TakeConserves(s);
    case FinishReply(i) => FinishConserves(s, i);
    case FailOne(t) => FailConserves(s, t);
    case Reconnected => RestoreConserves(s);
    case _ =>
      if a.Send? || a.Authenticate? || a.SelectDatabase? {
        SendConserves(s, a);
      } else {
        PlainStepConserves(s, a);
      }
  }

  lemma SendConserves(s: State, a: Step)
    requires Conserved(s) && (a.Send? || a.Authenticate? || a.SelectDatabase?) && Enabled(s, a)
    ensures Conserved(Apply(s, a))
  {
    match a
    case Send(command, notify) => SubmitConserves(s, command, notify);
    case Authenticate(password, notify) =>
      SubmitConserves(s.(core := s.core.(password := password)), AuthCommand(password), notify);
    case SelectDatabase(index, notify) =>
      SubmitConserves(s.(core := s.core.(index := index)), SelectCommand(index), notify);
  }

  lemma PlainStepConserves(s: State, a: Step)
    requires Conserved(s) && Enabled(s, a)
    requires !a.Send? && !a.Authenticate? && !a.SelectDatabase?
    requires !a.TakeReply? && !a.FinishReply? && !a.FailOne? && !a.Reconnected?
    ensures Conserved(Apply(s, a))
  {
    if a.CommitFail? || a.GaveUp? || a.Disconnect? {
      ClearConserves(s, Apply(s, a));
    } else {
      QuietConserves(s, Apply(s, a));
    }
  }

  lemma {:induction false} RunConserves(s: State, run: seq<Step>)
    requires Conserved(s) && Possible(s, run)
    ensures Conserved(Final(s, run))
    decreases |run|
  {
    if run != [] {
      StepConserves(s, run[0]);
      RunConserves(Apply(s, run[0]), run[1..]);
    }
  }

  lemma {:induction false} PositionsAreUnique(rs: seq<Request>, r: Request)
    requires forall i | 0 <= i < |rs| :: rs[i].id == i
    ensures multiset(rs)[r] <= 1 && (multiset(rs)[r] == 1 <==> r in rs)
  {
    if rs != [] {
      var front, last := rs[..|rs| - 1], rs[|rs| - 1];
      PositionsAreUnique(front, r);
      assert rs == front + [last];
      assert r in front ==> r.id < |front|;
    }
  }

  lemma ReachableConserved(run: seq<Step>)
    requires Possible(Initial, run)
    ensures Conserved(Final(Initial, run))
  {
    assert Elsewhere(Initial) == multiset{};
    RunConserves(Initial, run);
  }

  /** Exactly once, in every reachable state: each submitted request is in exactly one of the queue,
      a running handler, a failure thread and the completed ones, however often it was re-sent; its
      callback has been invoked exactly once if it has left the queue and the threads, never more,
      and never at all if it is null. */
  lemma ExactlyOnce(run: seq<Step>, r: Request)
    requires Possible(Initial, run)
    ensures var s := Final(Initial, run);
            var queued, handling := multiset(s.core.commands)[r], InHandlers(s.handlers)[r];
            var failing, done := InThreads(s.core.failing)[r], multiset(s.retired)[r];
            && queued + handling + failing + done == (if r in s.core.submitted then 1 else 0)
            && multiset(s.invoked)[r] == if r.notify then handling + done else 0
  {
    ReachableConserved(run);
    var s := Final(Initial, run);
    PositionsAreUnique(s.core.submitted, r);
    assert multiset(s.core.submitted)[r] ==
      multiset(s.core.commands)[r] + InThreads(s.core.failing)[r] + InHandlers(s.handlers)[r] + multiset(s.retired)[r];
  }

  // ----- The order of failures -------------------------------------------------------------

  /** `n` turns of the failure thread `t`. */
  function Failing(t: nat, n: nat): seq<Step> {
    if n == 0 then [] else [FailOne(t)] + Failing(t, n - 1)
  }

  lemma NotifiedFirst(rs: seq<Request>)
    requires rs != []
    ensures Notified(rs) == Notified([rs[0]]) + Notified(rs[1..])
  {
    assert [rs[0]][1..] == [];
  }

  /** A failure thread calls the callbacks of its requests in the order of its queue, null ones left out,
      and then is empty. */
  lemma {:induction false} FailuresInOrder(s: State, t: nat)
    requires t < |s.core.failing|
    ensures var run := Failing(t, |s.core.failing[t]|);
            Possible(s, run) && Final(s, run).invoked == s.invoked + Notified(s.core.failing[t])
            && Final(s, run).core.failing == s.core.failing[t := []]
    decreases |s.core.failing[t]|
  {
    var queue := s.core.failing[t];
    if queue == [] {
      assert s.core.failing[t := []] == s.core.failing && s.invoked + [] == s.invoked;
    } else {
      var next := FailedOne(s, t);
      var run := Failing(t, |queue|);
      assert run[0] == FailOne(t) && run[1..] == Failing(t, |queue| - 1);
      FailuresInOrder(next, t);
      NotifiedFirst(queue);
      Associate(s.invoked, Notified([queue[0]]), Notified(queue[1..]));
      assert next.core.failing[t := []] == s.core.failing[t := []];
    }
  }

  /** Which callbacks are called: each that is not null, as often as it is there. */
  lemma {:induction false} NotifiedExactly(rs: seq<Request>, r: Request)
    ensures multiset(Notified(rs))[r] == if r.notify then multiset(rs)[r] else 0
  {
    if rs != [] {
      NotifiedExactly(rs[1..], r);
      assert rs == [rs[0]] + rs[1..];
      assert multiset(rs) == multiset{rs[0]} + multiset(rs[1..]);
    }
  }

  /** Without null callbacks, all are called, in the order of the queue. */
  lemma {:induction false} NotifiedInOrder(rs: seq<Request>)
    requires forall i | 0 <= i < |rs| :: rs[i].notify
    ensures Notified(rs) == rs
  {
    if rs != [] {
      NotifiedInOrder(rs[1..]);
      assert rs == [rs[0]] + rs[1..];
    }
  }

  /** What a teardown moves to a thread is the queue as it is: all of it will be failed, oldest first. */
  lemma TeardownFailsInOrder(s: State)
    requires s.core.commands != []
    ensures var t := Closed(s);
            && t.core.commands == [] && |t.core.failing| == |s.core.failing| + 1
            && var run := Failing(|s.core.failing|, |s.core.commands|);
               Possible(t, run) && Final(t, run).invoked == s.invoked + Notified(s.core.commands)
  {
    var t := Closed(s);
    assert t.core.failing[|s.core.failing|] == s.core.commands;
    FailuresInOrder(t, |s.core.failing|);
  }

  // ----- sync_commit -----------------------------------------------------------------------

  /** The predicate `sync_commit` waits for. */
  predicate SyncDone(s: State) {
    s.core.running == 0 && s.core.commands == []
  }

  /** Every request submitted so far has completed, and every callback has been invoked. */
  ghost predicate AllCompleted(s: State) {
    && multiset(s.retired) == multiset(s.core.submitted)
    && forall r: Request :: multiset(s.invoked)[r] == if r.notify then multiset(s.core.submitted)[r] else 0
  }

  /** Handlers in progress plus callbacks left in failure threads. */
  function Outstanding(s: State): nat {
    |s.handlers| + |InThreads(s.core.failing)|
  }

  lemma DrainedIsCompleted(s: State)
    requires Booked(s.core, Elsewhere(s)) && InvokedOnce(s)
    requires s.core.commands == [] && s.handlers == [] && InThreads(s.core.failing) == multiset{}
    ensures AllCompleted(s)
  {
    assert Elsewhere(s) == multiset(s.retired);
    assert multiset(s.core.commands) == multiset{};
  }

  /** `sync_commit` safety in every reachable state: the counter never underflows (it is exactly the
      number outstanding as long as that fits an unsigned int), so with fewer than 2^32 outstanding
      a satisfied wait predicate means that everything submitted has completed. */
  lemma SyncCommitIsSafe(run: seq<Step>)
    requires Possible(Initial, run)
    ensures var s := Final(Initial, run);
            && s.core.running == Outstanding(s) % UINT_RANGE
            && (Outstanding(s) < UINT_RANGE && SyncDone(s) ==> Outstanding(s) == 0 && AllCompleted(s))
  {
    ReachableConserved(run);
    SyncDoneMeansCompleted(Final(Initial, run));
  }

  lemma SyncDoneMeansCompleted(s: State)
    requires Conserved(s)
    ensures s.core.running == Outstanding(s) % UINT_RANGE
    ensures Outstanding(s) < UINT_RANGE && SyncDone(s) ==> Outstanding(s) == 0 && AllCompleted(s)
  {
    if Outstanding(s) < UINT_RANGE && SyncDone(s) {
      SmallModulo(Outstanding(s));
      assert InThreads(s.core.failing) == multiset{};
      DrainedIsCompleted(s);
    }
  }

  lemma SmallModulo(n: nat)
    requires n < UINT_RANGE
    ensures n % UINT_RANGE == n
  {
  }
}
