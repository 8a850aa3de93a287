/** `client`: the command queue, its callbacks, and the reconnection loop. */
module Clients {
  import opened Wrappers
  import opened Decimal
  import opened Resp
  import opened Streams
  import opened RoundTrip
  import opened Commands
  import opened Pipeline
  import opened Connections
  import opened Reconnection

  /** A callback invocation with a server reply. */
  datatype Delivery = Delivery(request: Request, reply: Reply)

  /** Replies in order go to queued requests in order; a null callback is not called, and a reply
      beyond the end of the queue is dropped. */
  function Deliveries(queue: seq<Request>, replies: seq<Reply>): seq<Delivery> {
    if queue == [] || replies == [] then []
    else Called(queue[0], replies[0]) + Deliveries(queue[1..], replies[1..])
  }

  function Called(r: Request, reply: Reply): seq<Delivery> {
    if r.notify then [Delivery(r, reply)] else []
  }

  function CalledFirst(queue: seq<Request>, reply: Reply): seq<Delivery> {
    if queue == [] then [] else Called(queue[0], reply)
  }

  /** The log and the queue after the handler has run once for each of `replies`. */
  function Drained(past: seq<Delivery>, queue: seq<Request>, replies: seq<Reply>): (seq<Delivery>, seq<Request>)
    decreases |replies|
  {
    if replies == [] then (past, queue)
    else Drained(past + CalledFirst(queue, replies[0]), Unserved(queue, 1), replies[1..])
  }

  function Unserved(queue: seq<Request>, n: nat): seq<Request> {
    if n <= |queue| then queue[n..] else []
  }

  lemma UnservedTwice(queue: seq<Request>, m: nat, n: nat)
    ensures Unserved(Unserved(queue, m), n) == Unserved(queue, m + n)
  {
  }

  lemma {:induction false} DeliveriesConcat(queue: seq<Request>, a: seq<Reply>, b: seq<Reply>)
    ensures Deliveries(queue, a + b) == Deliveries(queue, a) + Deliveries(Unserved(queue, |a|), b)
    decreases |a|
  {
    if a == [] {
      assert a + b == b && Unserved(queue, 0) == queue;
    } else if queue != [] {
      assert a + b == [a[0]] + (a[1..] + b);
      DeliveriesConcat(queue[1..], a[1..], b);
      UnservedTwice(queue, 1, |a| - 1);
      assert Deliveries(queue, a) == Called(queue[0], a[0]) + Deliveries(queue[1..], a[1..]);
      assert Deliveries(queue, a + b) == Called(queue[0], a[0]) + Deliveries(queue[1..], a[1..] + b);
      Associate(Called(queue[0], a[0]), Deliveries(queue[1..], a[1..]), Deliveries(Unserved(queue, |a|), b));
    }
  }

  /** When every callback is non-null, the i-th delivery is the i-th request with the i-th reply. */
  lemma {:induction false} DeliveriesPairInOrder(queue: seq<Request>, replies: seq<Reply>)
    requires forall i | 0 <= i < |queue| :: queue[i].notify
    ensures var ds := Deliveries(queue, replies);
            && |ds| == (if |queue| <= |replies| then |queue| else |replies|)
            && forall i | 0 <= i < |ds| :: ds[i] == Delivery(queue[i], replies[i])
    decreases |queue|
  {
    if queue != [] && replies != [] {
      DeliveriesPairInOrder(queue[1..], replies[1..]);
    }
  }

  /** Whatever callbacks are null: a delivery is made exactly for a queued request with a callback, with
      the reply of its own position. */
  lemma {:induction false} DeliveriesExactly(queue: seq<Request>, replies: seq<Reply>, d: Delivery)
    ensures d in Deliveries(queue, replies) <==>
            exists i | 0 <= i < |queue| && i < |replies| :: queue[i].notify && d == Delivery(queue[i], replies[i])
    decreases |queue|
  {
    if queue != [] && replies != [] {
      DeliveriesExactly(queue[1..], replies[1..], d);
      if i :| 0 <= i < |queue| && i < |replies| && queue[i].notify && d == Delivery(queue[i], replies[i]) {
        if i > 0 {
          assert queue[1..][i - 1] == queue[i] && replies[1..][i - 1] == replies[i];
        }
      }
      if i :| 0 <= i < |queue[1..]| && i < |replies[1..]| && queue[1..][i].notify && d == Delivery(queue[1..][i], replies[1..][i]) {
        assert queue[i + 1] == queue[1..][i] && replies[i + 1] == replies[1..][i];
      }
    }
  }

  class Client {
    const connection: RedisConnection
    var commands: seq<Request>
    var callbacksRunning: nat
    var failing: seq<seq<Request>>       // queues of the detached failure threads
    var password: string
    var databaseIndex: int
    var reconnecting: bool
    var cancel: bool
    var maxReconnects: int
    var currentReconnectAttempts: int
    var reconnectInterval: nat
    var hasMasterName: bool
    var hasConnectCallback: bool
    var trace: seq<ConnectState>         // calls of the connect callback
    var log: seq<Delivery>               // calls of reply callbacks with server replies
    var submitted: seq<Request>          // record of every request made

    constructor ()
      ensures Core() == FreshCore && connection.Valid() && fresh(connection) && fresh(connection.builder.Repr)
      ensures connection.builder.availableReplies == [] && connection.builder.input == ""
      ensures !reconnecting && !cancel && trace == [] && log == []
    {
      connection := new RedisConnection();
      commands, callbacksRunning, failing := [], 0, [];
      password, databaseIndex, reconnecting, cancel := "", 0, false, false;
      maxReconnects, currentReconnectAttempts, reconnectInterval := 0, 0, 0;
      hasMasterName, hasConnectCallback, trace, log := false, false, [], [];
      submitted := [];
    }

    /** The pipeline state of this object. */
    ghost function Core(): Core
      reads this, connection
    {
      Pipeline.Core(commands, connection.buffer, password, databaseIndex, callbacksRunning, failing, submitted)
    }

    /** The fields that the pipeline operations leave alone. */
    twostate predicate SettingsKept()
      reads this, connection
    {
      && reconnecting == old(reconnecting) && cancel == old(cancel) && maxReconnects == old(maxReconnects)
      && currentReconnectAttempts == old(currentReconnectAttempts) && reconnectInterval == old(reconnectInterval)
      && hasMasterName == old(hasMasterName) && hasConnectCallback == old(hasConnectCallback)
      && trace == old(trace) && log == old(log) && connection.connected == old(connection.connected)
    }

    method UnprotectedSend(r: Request)
      modifies this, connection
      ensures Core() == Push(old(Core()), r) && SettingsKept() && connection.written == old(connection.written)
      ensures commands == old(commands) + [r] && connection.buffer == old(connection.buffer) + EncodeCommand(r.command)
    {
      connection.Send(r.command);
      commands := commands + [r];
    }

    /** `send`, under the lock: a new request. */
    method Send(redisCmd: Command, notify: bool)
      modifies this, connection
      ensures Core() == Submit(old(Core()), redisCmd, notify) && SettingsKept()
      ensures connection.written == old(connection.written) && Sent(redisCmd, notify)
    {
      var r := Request(|submitted|, redisCmd, notify);
      UnprotectedSend(r);
      submitted := submitted + [r];
    }

    /** The command is printed behind the buffer, and queued with its callback as a new request. */
    twostate predicate Sent(command: Command, notify: bool)
      reads this, connection
    {
      && connection.buffer == old(connection.buffer) + EncodeCommand(command)
      && commands == old(commands) + [Request(|old(submitted)|, command, notify)]
      && submitted == old(submitted) + [Request(|old(submitted)|, command, notify)]
    }

    method UnprotectedAuth(newPassword: string, notify: bool)
      modifies this, connection
      ensures Core() == Auth(old(Core()), newPassword, notify) && SettingsKept()
      ensures connection.written == old(connection.written) && Sent(["AUTH", newPassword], notify)
      ensures password == newPassword && databaseIndex == old(databaseIndex)
    {
      password := newPassword;
      Send(["AUTH", newPassword], notify);
    }

    method UnprotectedSelect(index: int, notify: bool)
      modifies this, connection
      ensures Core() == Select(old(Core()), index, notify) && SettingsKept()
      ensures connection.written == old(connection.written) && Sent(["SELECT", ToString(index)], notify)
      ensures databaseIndex == index && password == old(password)
    {
      databaseIndex := index;
      Send(["SELECT", ToString(index)], notify);
    }

    /** The queue moves to a new detached thread, which `FailOne` steps through. */
    method ClearCallbacks()
      modifies this
      ensures Core() == Pipeline.ClearCallbacks(old(Core())) && SettingsKept()
      ensures commands == [] && failing == old(failing) + if old(commands) == [] then [] else [old(commands)]
    {
      if |commands| == 0 {
        return;
      }
      var moved := commands;
      commands := [];
      callbacksRunning := (callbacksRunning + |moved|) % UINT_RANGE;
      failing := failing + [moved];
    }

    /** One turn of a failure thread: call the callback with "network failure", count down, pop. */
    method FailOne(thread: nat)
      requires thread < |failing| && failing[thread] != []
      modifies this
      ensures Core() == old(Core()).(failing := old(failing)[thread := old(failing)[thread][1..]],
                                     running := (old(callbacksRunning) - 1) % UINT_RANGE)
      ensures log == old(log) + Called(old(failing)[thread][0], Error("network failure"))
    {
      var r := failing[thread][0];
      if r.notify {
        log := log + [Delivery(r, Error("network failure"))];
      }
      callbacksRunning := (callbacksRunning - 1) % UINT_RANGE;
      failing := failing[thread := failing[thread][1..]];
    }

    method TryCommit(writes: bool) returns (thrown: bool)
      modifies this, connection
      ensures thrown == !writes && SettingsKept()
      ensures writes ==> Core() == old(Core()).(out := "") && connection.written == old(connection.written) + old(connection.buffer)
      ensures !writes ==> Core() == CommitFails(old(Core())) && connection.written == old(connection.written)
    {
      thrown := connection.Commit(writes);
      if thrown {
        ClearCallbacks();
      }
    }

    /** During a reconnection the commit is left to the reconnection flow. */
    method Commit(writes: bool) returns (thrown: bool)
      modifies this, connection
      ensures SettingsKept()
      ensures old(reconnecting) ==> !thrown && Core() == old(Core()) && connection.written == old(connection.written)
      ensures !old(reconnecting) && writes ==>
                !thrown && Core() == old(Core()).(out := "") && connection.written == old(connection.written) + old(connection.buffer)
      ensures !old(reconnecting) && !writes ==> thrown && Core() == CommitFails(old(Core()))
    {
      thrown := false;
      if !reconnecting {
        thrown := TryCommit(writes);
      }
    }

    method ReAuth()
      modifies this, connection
      ensures Core() == Pipeline.ReAuth(old(Core())) && SettingsKept() && connection.written == old(connection.written)
      ensures password != "" ==> Sent(["AUTH", password], true)
    {
      if password == "" {
        return;
      }
      UnprotectedAuth(password, true);
    }

    method ReSelect()
      modifies this, connection
      ensures Core() == Pipeline.ReSelect(old(Core())) && SettingsKept() && connection.written == old(connection.written)
      ensures databaseIndex > 0 ==> Sent(["SELECT", ToString(databaseIndex)], true)
    {
      if databaseIndex <= 0 {
        return;
      }
      UnprotectedSelect(databaseIndex, true);
    }

    /** The queue is moved out and every request sent again: same requests, same order. */
    method ResendFailedCommands()
      modifies this, connection
      ensures Core() == Resend(old(Core())) && SettingsKept() && connection.written == old(connection.written)
    {
      if |commands| == 0 {
        assert connection.buffer + EncodeCommands([]) == connection.buffer;
        return;
      }
      var moved := commands;
      commands := [];
      SendAgain(moved);
      assert [] + moved == moved;
    }

    /** The loop of `resend_failed_commands` over the queue that was moved out. */
    method SendAgain(queue: seq<Request>)
      modifies this, connection
      ensures Core() == old(Core()).(commands := old(commands) + queue,
                                     out := old(connection.buffer) + EncodeCommands(CommandsOf(queue)))
      ensures SettingsKept() && connection.written == old(connection.written)
    {
      var moved := queue;
      ghost var done: seq<Request> := [];
      assert EncodeCommands(CommandsOf(done)) == "";
      while |moved| > 0
        invariant done + moved == queue
        invariant commands == old(commands) + done
        invariant connection.buffer == old(connection.buffer) + EncodeCommands(CommandsOf(done))
        invariant Core() == old(Core()).(commands := commands, out := connection.buffer)
        invariant SettingsKept() && connection.written == old(connection.written)
      {
        PushSent(old(connection.buffer), done, moved[0]);
        UnprotectedSend(moved[0]);
        done := done + [moved[0]];
        moved := moved[1..];
      }
      assert done == queue;
    }

    /** `connection_receive_handler`: count, pop the front request, call its callback, count down. */
    method ConnectionReceiveHandler(reply: Reply)
      requires callbacksRunning < UINT_RANGE
      modifies this
      ensures Core() == old(Core()).(commands := Unserved(old(commands), 1))
      ensures log == old(log) + CalledFirst(old(commands), reply)
      ensures callbacksRunning < UINT_RANGE && failing == old(failing) && reconnecting == old(reconnecting) && trace == old(trace)
    {
      var callback: Option<Request> := None;
      callbacksRunning := (callbacksRunning + 1) % UINT_RANGE;
      if |commands| > 0 {
        callback := Some(commands[0]);
        commands := commands[1..];
      }
      if callback.Some? && callback.value.notify {
        log := log + [Delivery(callback.value, reply)];
      }
      callbacksRunning := (callbacksRunning - 1) % UINT_RANGE;
    }

    // ----- Reconnection ----------------------------------------------------------------------

    function Heard(t: seq<ConnectState>): seq<ConnectState>
      reads this
    {
      if hasConnectCallback then t else []
    }

    predicate ShouldReconnect()
      reads this, connection
    {
      !connection.connected && !cancel && (maxReconnects == -1 || currentReconnectAttempts < maxReconnects)
    }

    method Notify(e: ConnectState)
      modifies this`trace
      ensures trace == old(trace) + Heard([e])
      ensures trace == old(trace) + if hasConnectCallback then [e] else []
    {
      if hasConnectCallback {
        trace := trace + [e];
      }
    }

    lemma HeardConcat(past: seq<ConnectState>, a: seq<ConnectState>, b: seq<ConnectState>)
      ensures past + Heard(a) + Heard(b) == past + Heard(a + b)
    {
    }

    method SleepBeforeNextReconnectAttempt()
      modifies this`trace
      ensures trace == old(trace) + Heard(SleepEvents(reconnectInterval))
    {
      if reconnectInterval > 0 {
        Notify(Sleeping);
      }
    }

    /** `connect`: the bound, the interval and the callback are saved for reconnections, then the socket
        may come up or not. */
    method Connect(bound: int, interval: nat, callback: bool, a: Attempt)
      modifies this`maxReconnects, this`reconnectInterval, this`hasConnectCallback, this`trace, connection
      ensures maxReconnects == bound && reconnectInterval == interval && hasConnectCallback == callback
      ensures trace == old(trace) + Heard([Start] + if a.threw then [] else [Connected])
      ensures connection.connected == a.up && connection.buffer == old(connection.buffer) && connection.written == ""
    {
      maxReconnects, reconnectInterval, hasConnectCallback := bound, interval, callback;
      Notify(Start);
      connection.Socket(a.up);
      if !a.threw {
        Notify(Connected);
        HeardConcat(old(trace), [Start], [Connected]);
      }
    }

    /** One attempt, which saves the same settings again. */
    method Reconnect(a: Attempt)
      requires !connection.connected
      modifies this, connection
      ensures trace == old(trace) + Heard(ReconnectEvents(hasMasterName, a))
      ensures currentReconnectAttempts == old(currentReconnectAttempts) + 1
      ensures connection.connected == Connects(hasMasterName, a)
      ensures connection.connected ==>
                var c := Pipeline.Reconnect(old(Core())); Core() == c.(out := "") && connection.written == c.out
      ensures connection.connected ==> WroteAgain(old(connection.buffer), old(commands), |old(submitted)|)
      ensures password == old(password) && databaseIndex == old(databaseIndex)
      ensures !connection.connected ==> Core() == old(Core())
      ensures LoopSettingsKept()
    {
      currentReconnectAttempts := currentReconnectAttempts + 1;
      if hasMasterName && !a.found {
        Notify(LookupFailed);
        return;
      }
      Connect(maxReconnects, reconnectInterval, hasConnectCallback, a);
      var ending := if connection.connected then Connected else ConnectState.Failed;
      Notify(ending);
      HeardConcat(old(trace), [Start] + if a.threw then [] else [Connected], [ending]);
      if connection.connected {
        ReissueAll();
      }
    }

    /** The end of a successful attempt: `re_auth`, `re_select`, `resend_failed_commands`, `try_commit`. */
    method ReissueAll()
      requires connection.written == ""
      modifies this, connection
      ensures var c := Pipeline.Reconnect(old(Core())); Core() == c.(out := "") && connection.written == c.out
      ensures WroteAgain(old(connection.buffer), old(commands), |old(submitted)|)
      ensures SettingsKept() && password == old(password) && databaseIndex == old(databaseIndex)
    {
      ReconnectSpelled(Core());
      ReissueSpelled(Core());
      ReAuth();
      ReSelect();
      ResendFailedCommands();
      var thrown := TryCommit(true);
      assert "" + Pipeline.Reconnect(old(Core())).out == Pipeline.Reconnect(old(Core())).out;
    }

    /** On this connection exactly these bytes were written: the buffer, the AUTH and the SELECT of what is
        saved, the pending commands, and AUTH and SELECT again; the queue holds them once. */
    ghost predicate WroteAgain(buffer: string, queue: seq<Request>, id: nat)
      reads this, connection
    {
      var again := Reprinted(password, databaseIndex);
      && connection.written == buffer + (again + (EncodeCommands(CommandsOf(queue)) + again))
      && commands == queue + Requeued(password, databaseIndex, id)
    }

    twostate predicate LoopSettingsKept()
      reads this
    {
      && reconnecting == old(reconnecting) && cancel == old(cancel) && maxReconnects == old(maxReconnects)
      && reconnectInterval == old(reconnectInterval) && hasMasterName == old(hasMasterName)
      && hasConnectCallback == old(hasConnectCallback) && log == old(log)
    }

    /** `connection_disconnection_handler` against the first attempts of `env`; it has not finished if
        `env` ends while the loop would still go on. */
    method ConnectionDisconnectionHandler(env: seq<Attempt>) returns (used: nat, finished: bool)
      modifies this, connection
      ensures old(reconnecting) ==>
                && used == 0 && finished && Core() == old(Core()) && trace == old(trace) && SettingsKept()
                && connection.written == old(connection.written)
      ensures !old(reconnecting) ==> HandlerRan(env, used, finished, old(connection.connected), old(cancel), old(Core()))
      ensures hasMasterName == old(hasMasterName) && reconnectInterval == old(reconnectInterval)
      ensures maxReconnects == old(maxReconnects) && log == old(log) && hasConnectCallback == old(hasConnectCallback)
      ensures old(connection.connected) ==> connection.written == old(connection.written)
      ensures !old(reconnecting) ==>
                trace == old(trace) + Heard(LoopRecord(env, used) + if finished && !connection.connected then [ConnectState.Stopped] else [])
    {
      if reconnecting {
        return 0, true;
      }
      used := RunAttempts(env);
      finished := !ShouldReconnect();
      if finished {
        Finish();
        HeardConcat(old(trace), LoopRecord(env, used), if connection.connected then [] else [ConnectState.Stopped]);
      }
    }

    method BeginReconnection()
      modifies this`reconnecting, this`currentReconnectAttempts, this`trace
      ensures reconnecting && currentReconnectAttempts == 0 && trace == old(trace) + Heard([Dropped])
      ensures Core() == old(Core())
    {
      reconnecting := true;
      currentReconnectAttempts := 0;
      Notify(Dropped);
    }

    /** The handler up to the end of its loop. */
    method RunAttempts(env: seq<Attempt>) returns (used: nat)
      modifies this, connection
      ensures used <= |env| && used == currentReconnectAttempts && (!ShouldReconnect() || used == |env|)
      ensures Tried(env, used, old(connection.connected), old(cancel), old(Core()))
      ensures old(connection.connected) ==> connection.written == old(connection.written)
      ensures trace == old(trace) + Heard(LoopRecord(env, used))
      ensures reconnecting && maxReconnects == old(maxReconnects) && log == old(log)
      ensures hasMasterName == old(hasMasterName) && reconnectInterval == old(reconnectInterval)
      ensures hasConnectCallback == old(hasConnectCallback)
    {
      BeginReconnection();
      used := ReconnectLoop(env);
      HeardConcat(old(trace), [Dropped], LoopEvents(hasMasterName, reconnectInterval, env[..used]));
    }

    /** The end of the handler: give up without a connection. */
    method Finish()
      modifies this
      ensures Core() == if connection.connected then old(Core()) else Pipeline.ClearCallbacks(old(Core()))
      ensures trace == old(trace) + Heard(if connection.connected then [] else [ConnectState.Stopped])
      ensures !reconnecting && cancel == old(cancel) && maxReconnects == old(maxReconnects) && log == old(log)
      ensures currentReconnectAttempts == old(currentReconnectAttempts) && hasMasterName == old(hasMasterName)
      ensures reconnectInterval == old(reconnectInterval) && hasConnectCallback == old(hasConnectCallback)
    {
      if !connection.connected {
        ClearCallbacks();
        Notify(ConnectState.Stopped);
      }
      reconnecting := false;
    }

    /** The loop `while (should_reconnect()) { sleep; reconnect(); }`. */
    method ReconnectLoop(env: seq<Attempt>) returns (used: nat)
      requires currentReconnectAttempts == 0
      modifies this, connection
      ensures used <= |env| && used == currentReconnectAttempts && (!ShouldReconnect() || used == |env|)
      ensures Tried(env, used, old(connection.connected), old(cancel), old(Core()))
      ensures old(connection.connected) ==> connection.written == old(connection.written)
      ensures trace == old(trace) + Heard(LoopEvents(hasMasterName, reconnectInterval, env[..used]))
      ensures reconnecting == old(reconnecting) && maxReconnects == old(maxReconnects) && log == old(log)
      ensures hasMasterName == old(hasMasterName) && reconnectInterval == old(reconnectInterval)
      ensures hasConnectCallback == old(hasConnectCallback)
    {
      used := 0;
      while ShouldReconnect() && used < |env|
        invariant used <= |env| && used == currentReconnectAttempts && reconnecting == old(reconnecting)
        invariant maxReconnects == old(maxReconnects) && hasMasterName == old(hasMasterName)
        invariant reconnectInterval == old(reconnectInterval) && log == old(log) && hasConnectCallback == old(hasConnectCallback)
        invariant Tried(env, used, old(connection.connected), old(cancel), old(Core()))
        invariant old(connection.connected) ==> used == 0 && connection.written == old(connection.written)
        invariant trace == old(trace) + Heard(LoopEvents(hasMasterName, reconnectInterval, env[..used]))
        decreases |env| - used
      {
        ghost var so := LoopEvents(hasMasterName, reconnectInterval, env[..used]);
        ghost var before := Core();
        LoopOneMore(hasMasterName, reconnectInterval, env, used);
        AttemptedOneMore(hasMasterName, maxReconnects, env, used, old(connection.connected), old(cancel));
        assert before == old(Core());
        Once(env[used]);
        HeardConcat(old(trace), so, SleepEvents(reconnectInterval) + ReconnectEvents(hasMasterName, env[used]));
        used := used + 1;
      }
    }

    /** One turn of the loop; the user may cancel before the next check. */
    method Once(a: Attempt)
      requires !connection.connected && !cancel
      modifies this, connection
      ensures trace == old(trace) + Heard(SleepEvents(reconnectInterval) + ReconnectEvents(hasMasterName, a))
      ensures currentReconnectAttempts == old(currentReconnectAttempts) + 1 && cancel == a.cancelled
      ensures connection.connected == Connects(hasMasterName, a)
      ensures if connection.connected then Resumed(old(Core())) else Core() == old(Core())
      ensures reconnecting == old(reconnecting) && maxReconnects == old(maxReconnects) && log == old(log)
      ensures hasMasterName == old(hasMasterName) && reconnectInterval == old(reconnectInterval)
      ensures hasConnectCallback == old(hasConnectCallback)
    {
      SleepBeforeNextReconnectAttempt();
      Reconnect(a);
      HeardConcat(old(trace), SleepEvents(reconnectInterval), ReconnectEvents(hasMasterName, a));
      cancel := a.cancelled;
    }

    /** What the handler has told the connect callback after `used` attempts. */
    function LoopRecord(env: seq<Attempt>, used: nat): seq<ConnectState>
      requires used <= |env|
      reads this
    {
      [Dropped] + LoopEvents(hasMasterName, reconnectInterval, env[..used])
    }

    /** Connected again: everything a reconnection re-issues from pipeline `before` has been written. */
    ghost predicate Resumed(before: Core)
      reads this, connection
    {
      var c := Pipeline.Reconnect(before);
      Core() == c.(out := "") && connection.written == c.out
    }

    /** The state of the loop after `used` attempts from pipeline `before`. */
    ghost predicate Tried(env: seq<Attempt>, used: nat, wasUp: bool, wasCancelled: bool, before: Core)
      requires used <= |env|
      reads this, connection
    {
      && Attempted(hasMasterName, maxReconnects, env, used, wasUp, wasCancelled, connection.connected, cancel)
      && (if used > 0 && connection.connected then Resumed(before) else Core() == before)
    }

    /** The outcome of a handler run that was not already in progress. */
    ghost predicate HandlerRan(env: seq<Attempt>, used: nat, finished: bool, wasUp: bool, wasCancelled: bool, before: Core)
      reads this, connection
    {
      && used <= |env| && used == currentReconnectAttempts && reconnecting == !finished
      && Attempted(hasMasterName, maxReconnects, env, used, wasUp, wasCancelled, connection.connected, cancel)
      && (maxReconnects >= 0 && |env| >= maxReconnects ==> finished)
      && finished == (connection.connected || cancel || (maxReconnects != -1 && used >= maxReconnects))
      && (if connection.connected && used > 0 then Resumed(before)
          else if connection.connected || !finished then Core() == before
          else Core() == Pipeline.ClearCallbacks(before))
    }

    // ----- The receive path ------------------------------------------------------------------

    ghost predicate Valid()
      reads this, connection, connection.builder, connection.builder.Repr
    {
      connection.Valid() && this !in connection.builder.Repr && callbacksRunning < UINT_RANGE
    }

    /** One turn of the drain loop. */
    method HandleFront()
      requires Valid() && connection.builder.availableReplies != []
      modifies this, connection.builder
      ensures Valid() && connection.builder.Repr == old(connection.builder.Repr)
      ensures connection.builder.availableReplies == old(connection.builder.availableReplies)[1..]
      ensures connection.builder.input == old(connection.builder.input) && connection.builder.built == old(connection.builder.built)
      ensures connection.builder.Current() == old(connection.builder.Current())
      ensures commands == Unserved(old(commands), 1)
      ensures log == old(log) + CalledFirst(old(commands), old(connection.builder.availableReplies)[0])
    {
      var front := connection.builder.GetFront();
      var popped := connection.builder.PopFront();
      ConnectionReceiveHandler(front.value);
    }

    /** The drain loop of `tcp_client_receive_handler`: every available reply goes to the handler. */
    method DrainReplies()
      requires Valid()
      modifies this, connection.builder
      ensures Valid() && connection.builder.Repr == old(connection.builder.Repr)
      ensures connection.builder.availableReplies == []
      ensures connection.builder.input == old(connection.builder.input) && connection.builder.built == old(connection.builder.built)
      ensures connection.builder.Current() == old(connection.builder.Current())
      ensures commands == Unserved(old(commands), |old(connection.builder.availableReplies)|)
      ensures log == old(log) + Deliveries(old(commands), old(connection.builder.availableReplies))
    {
      ghost var rest := connection.builder.availableReplies;
      ghost var goal := Drained(log, commands, rest);
      DrainedIsDeliveries(log, commands, rest);
      var available := connection.builder.ReplyAvailable();
      while available
        invariant Valid() && connection.builder.Repr == old(connection.builder.Repr)
        invariant connection.builder.availableReplies == rest && available == (rest != [])
        invariant connection.builder.input == old(connection.builder.input) && connection.builder.built == old(connection.builder.built)
        invariant connection.builder.Current() == old(connection.builder.Current())
        invariant goal == Drained(log, commands, rest)
        decreases |rest|
      {
        HandleFront();
        rest := rest[1..];
        available := connection.builder.ReplyAvailable();
      }
    }

    /** `tcp_client_receive_handler`: parse the chunk, then drain, replies left over from before first;
        on malformed bytes the drain is skipped and the disconnection handler runs, with the socket
        still up. */
    method TcpClientReceiveHandler(chunk: string) returns (thrown: Option<Fault>)
      requires Valid() && connection.connected
      modifies this, connection, connection.builder.Repr
      ensures match RunBuffer(old(connection.builder.Current()), old(connection.builder.buffer.bytes) + chunk)
              case Running(rs, current, bytes) =>
                && thrown == None && Valid() && fresh(connection.builder.Repr - old(connection.builder.Repr))
                && connection.builder.availableReplies == [] && connection.connected
                && connection.builder.Current() == current && connection.builder.buffer.bytes == bytes
                && connection.builder.built == old(connection.builder.built) + rs
                && commands == Unserved(old(commands), |old(connection.builder.availableReplies) + rs|)
                && log == old(log) + Deliveries(old(commands), old(connection.builder.availableReplies) + rs)
              case Stopped(rs, f) =>
                && thrown == Some(f) && commands == old(commands) && log == old(log)
                && connection.builder.availableReplies == old(connection.builder.availableReplies) + rs
                && connection.connected && reconnecting == old(reconnecting)
                && trace == old(trace) + if old(reconnecting) || !hasConnectCallback then [] else [Dropped]
    {
      thrown := connection.builder.Feed(chunk);
      if thrown.Some? {
        var used, finished := ConnectionDisconnectionHandler([]);
        return;
      }
      DrainReplies();
    }

    /** End-to-end pairing on one connection: encodings of any replies, then a proper prefix of one
        more, cut into chunks anywhere, call the i-th pending callback with the i-th reply, each once
        and in order; replies beyond the queue call nothing, and nothing is called early. */
    method ReceiveChunks(chunks: seq<string>, ghost rs: seq<Reply>, ghost partial: Reply, ghost prefix: string)
      requires Valid() && connection.connected && connection.builder.availableReplies == []
      requires connection.builder.input == ""
      requires AllEncodable(rs) && Encodable(partial) && prefix < Encode(partial)
      requires Concat(chunks) == EncodeAll(rs) + prefix
      modifies this, connection, connection.builder.Repr
      ensures Valid() && log == old(log) + Deliveries(old(commands), rs)
      ensures commands == Unserved(old(commands), |rs|)
    {
      NothingHeldBackNothingEarly(rs, partial, prefix, chunks);
      ghost var goal := Feed(Idle, chunks);
      assert Unserved(commands, 0) == commands && chunks[0..] == chunks;
      assert connection.builder.built == [];
      var i := 0;
      while i < |chunks|
        invariant 0 <= i <= |chunks| && Valid() && connection.connected && connection.builder.availableReplies == []
        invariant fresh(connection.builder.Repr - old(connection.builder.Repr))
        invariant Feed(Parsed(), chunks[i..]) == goal
        invariant Served(old(log), old(commands))
      {
        NextChunk(Parsed(), chunks, i);
        ReceiveGoodChunk(chunks[i], old(log), old(commands));
        i := i + 1;
      }
      assert chunks[i..] == [];
    }

    /** The state of the parser, with every reply it has built. */
    ghost function Parsed(): Run
      requires Valid()
      reads this, connection, connection.builder, connection.builder.Repr
    {
      Running(connection.builder.built, connection.builder.Current(), connection.builder.buffer.bytes)
    }

    /** Every reply built so far has gone to the next request of `queue`. */
    ghost predicate Served(past: seq<Delivery>, queue: seq<Request>)
      reads this, connection, connection.builder
    {
      && commands == Unserved(queue, |connection.builder.built|)
      && log == past + Deliveries(queue, connection.builder.built)
    }

    method ReceiveGoodChunk(chunk: string, ghost past: seq<Delivery>, ghost queue: seq<Request>)
      requires Valid() && connection.connected && connection.builder.availableReplies == []
      requires After(Parsed(), chunk).Running? && Served(past, queue)
      modifies this, connection, connection.builder.Repr
      ensures Valid() && connection.connected && connection.builder.availableReplies == []
      ensures fresh(connection.builder.Repr - old(connection.builder.Repr))
      ensures Parsed() == old(After(Parsed(), chunk)) && Served(past, queue)
    {
      ghost var b := connection.builder;
      ghost var r := RunBuffer(b.Current(), b.buffer.bytes + chunk);
      MoreDeliveries(past, queue, b.built, r.replies);
      assert [] + r.replies == r.replies;
      var thrown := TcpClientReceiveHandler(chunk);
    }

    // ----- Teardown --------------------------------------------------------------------------

    /** `disconnect`. */
    method Disconnect()
      requires Valid()
      modifies this, connection, connection.builder, connection.builder.buffer
      ensures Valid() && !connection.connected
      ensures Core() == CommitFails(old(Core()))
      ensures connection.builder.Current() == None && connection.builder.availableReplies == old(connection.builder.availableReplies)
    {
      connection.Disconnect();
      ClearCallbacks();
    }

    /** `tcp_client_disconnection_handler`: the buffers are cleared, then the handler runs. */
    method TcpClientDisconnectionHandler(env: seq<Attempt>) returns (used: nat, finished: bool)
      requires Valid()
      modifies this, connection, connection.builder, connection.builder.buffer
      ensures old(reconnecting) ==> used == 0 && Core() == old(Core()).(out := "") && trace == old(trace)
      ensures !old(reconnecting) ==> HandlerRan(env, used, finished, false, old(cancel), old(Core()).(out := ""))
      ensures !old(reconnecting) && finished ==>
                if connection.connected then Resumed(old(Core()).(out := "")) else Core() == CommitFails(old(Core()))
      ensures !old(reconnecting) && finished && hasConnectCallback ==>
                old(trace) <= trace && HandlerTrace(trace[|old(trace)|..], connection.connected)
    {
      connection.Disconnect();
      used, finished := ConnectionDisconnectionHandler(env);
      if !old(reconnecting) && finished && hasConnectCallback {
        AttemptsFollowGrammar(hasMasterName, reconnectInterval, maxReconnects, env, used, old(cancel), connection.connected, cancel);
        ghost var heard := LoopRecord(env, used) + if connection.connected then [] else [ConnectState.Stopped];
        assert trace == old(trace) + heard;
        assert trace[|old(trace)|..] == heard;
      }
    }
  }

  lemma {:induction false} DrainedIsDeliveries(past: seq<Delivery>, queue: seq<Request>, replies: seq<Reply>)
    ensures Drained(past, queue, replies) == (past + Deliveries(queue, replies), Unserved(queue, |replies|))
    decreases |replies|
  {
    if replies == [] {
      assert past + [] == past && Unserved(queue, 0) == queue;
    } else {
      var first := CalledFirst(queue, replies[0]);
      DrainedIsDeliveries(past + first, Unserved(queue, 1), replies[1..]);
      UnservedTwice(queue, 1, |replies| - 1);
      Associate(past, first, Deliveries(Unserved(queue, 1), replies[1..]));
      if queue == [] {
        assert Deliveries(Unserved(queue, 1), replies[1..]) == [];
      }
    }
  }

  lemma MoreDeliveries(past: seq<Delivery>, queue: seq<Request>, done: seq<Reply>, more: seq<Reply>)
    ensures past + Deliveries(queue, done) + Deliveries(Unserved(queue, |done|), more) ==
            past + Deliveries(queue, done + more)
    ensures Unserved(Unserved(queue, |done|), |more|) == Unserved(queue, |done + more|)
  {
    DeliveriesConcat(queue, done, more);
    UnservedTwice(queue, |done|, |more|);
    Associate(past, Deliveries(queue, done), Deliveries(Unserved(queue, |done|), more));
  }

  lemma PushSent(start: string, queue: seq<Request>, r: Request)
    ensures start + EncodeCommands(CommandsOf(queue)) + EncodeCommand(r.command) ==
            start + EncodeCommands(CommandsOf(queue + [r]))
  {
    CommandsOfConcat(queue, [r]);
    assert CommandsOf([r]) == [r.command];
    EncodeCommandsConcat(CommandsOf(queue), [r.command]);
    EncodeOneCommand(r.command);
    Associate(start, EncodeCommands(CommandsOf(queue)), EncodeCommand(r.command));
  }
}
