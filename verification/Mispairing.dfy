/** Reachable states in which a reply has reached the callback of another command: one for each way a
    run can fail to be clean. */
module Mispairing {
  import opened Wrappers
  import opened Resp
  import opened RoundTrip
  import opened Commands
  import opened Pipeline
  import opened Protocol
  import opened Ordering
  import opened Alignment

  const OK := Simple("OK")
  const GET := ["GET", "k"]
  const PING := ["PING"]
  const AUTH := AuthCommand("p")

  ghost predicate Reachable(s: State) {
    exists run :: Possible(Initial, run) && Solicited(run) && Final(Initial, run) == s
  }

  lemma {:induction false} OneMoreStep(s: State, run: seq<Step>, a: Step)
    requires Possible(s, run) && Enabled(Final(s, run), a)
    ensures Possible(s, run + [a]) && Final(s, run + [a]) == Apply(Final(s, run), a)
    decreases |run|
  {
    if run == [] {
      assert (run + [a])[1..] == [];
    } else {
      assert (run + [a])[1..] == run[1..] + [a];
      OneMoreStep(Apply(s, run[0]), run[1..], a);
    }
  }

  lemma Go(s: State, a: Step, t: State)
    requires Reachable(s) && Enabled(s, a) && !a.Unsolicited? && t == Apply(s, a)
    ensures Reachable(t)
  {
    var run :| Possible(Initial, run) && Solicited(run) && Final(Initial, run) == s;
    OneMoreStep(Initial, run, a);
    assert Solicited(run + [a]) && Final(Initial, run + [a]) == t;
  }

  lemma ReachableInOrder(s: State)
    requires Reachable(s)
    ensures InOrder(s)
  {
    var run :| Possible(Initial, run) && Solicited(run) && Final(Initial, run) == s;
    InitialInOrder();
    RunKeepsOrder(Initial, run);
  }

  // ----- The first reply of a connection ---------------------------------------------------

  /** Nothing has been answered or handed out, and everything issued has been written. */
  predicate Fresh(s: State) {
    && s.link.Up? && s.core.out == "" && s.back == "" && s.current == None && s.buffer == ""
    && s.due == [] && s.available == [] && s.handled == []
  }

  lemma FirstEncoding(cs: seq<Command>)
    requires cs != []
    ensures EncodeCommands(cs) == Encode(AsReply(cs[0])) + EncodeCommands(cs[1..])
  {
    assert [cs[0]] + cs[1..] == cs;
    EncodeCommandsConcat([cs[0]], cs[1..]);
    EncodeOneCommand(cs[0]);
  }

  lemma CanAnswer(s: State)
    requires Forward(s) && s.link.Up? && s.core.out == "" && Unanswered(s) != []
    ensures Enabled(s, Answer(OK))
  {
    var cs := Unanswered(s);
    assert s.wire + "" == s.wire;
    FirstEncoding(cs);
    ParseInvertsEncode(AsReply(cs[0]), EncodeCommands(cs[1..]));
    TextsOfBulks(cs[0]);
  }

  lemma Answers(s: State) returns (t: State)
    requires Reachable(s) && Fresh(s) && Unanswered(s) != []
    ensures Reachable(t) && t.link.Up? && t.due == [Exchange(Unanswered(s)[0], OK)] && t.back == Encode(OK)
    ensures t.current == None && t.buffer == "" && t.available == [] && t.handled == [] && t.core == s.core
  {
    ReachableInOrder(s);
    CanAnswer(s);
    t := Answered(s, OK);
    Go(s, Answer(OK), t);
    AnswerIsToNextCommand(s, OK, t);
    assert "" + Encode(OK) == Encode(OK);
  }

  lemma ReceivesOne(s: State)
    requires s.back == Encode(OK) && s.current == None && s.buffer == "" && s.available == []
    ensures Received(s, |s.back|).available == [OK] && Received(s, |s.back|).link == s.link
  {
    DriverRoundTrip([OK], "");
    assert EncodeAll([OK]) + "" == s.back == "" + s.back[..|s.back|];
    assert [OK] + [] == [OK];
  }

  lemma Receives(s: State) returns (t: State)
    requires Reachable(s) && s.link.Up? && s.back == Encode(OK) && s.current == None && s.buffer == "" && s.available == []
    ensures Reachable(t) && t.link.Up? && t.available == [OK] && t.due == s.due && t.handled == s.handled && t.core == s.core
  {
    ReceivesOne(s);
    t := Received(s, |s.back|);
    Go(s, Receive(|s.back|), t);
  }

  lemma Takes(s: State) returns (t: State)
    requires Reachable(s) && s.link.Up? && s.available == [OK] && |s.due| >= 1 && s.core.commands != [] && s.handled == []
    requires s.due[0].reply == OK
    ensures Reachable(t) && |t.handled| == 1 && Serves(t.handled[0], s.core.commands[0], s.due[0].command)
    ensures Reissued(t.core) == Reissued(s.core)
  {
    t := Taken(s);
    Go(s, TakeReply, t);
  }

  /** The first request in the queue is handed the reply to the first command on the wire. */
  lemma FirstReply(s: State) returns (t: State)
    requires Reachable(s) && Fresh(s) && Unanswered(s) != [] && s.core.commands != []
    ensures Reachable(t) && |t.handled| == 1 && Serves(t.handled[0], s.core.commands[0], Unanswered(s)[0])
    ensures Reissued(t.core) == Reissued(s.core)
  {
    t := Answers(s);
    t := Receives(t);
    t := Takes(t);
  }

  // ----- Reconnections ---------------------------------------------------------------------

  lemma Restores(s: State) returns (t: State)
    requires Reachable(s) && s.link.Dropped? && s.available == [] && s.handled == []
    ensures Reachable(t) && Fresh(t) && Unanswered(t) == Resent(s)
    ensures s.core.commands <= t.core.commands && Reissued(t.core) == Reissued(s.core)
  {
    ReachableInOrder(s);
    t := Restored(s);
    Go(s, Reconnected, t);
    SilentBackward(s);
    RestoredHolds(s, t);
    RestoredQueue(s, t);
    ReconnectOutcome(s.core);
  }

  /** A reconnection hands the reply to the first command that it sends to the first pending one. */
  lemma FirstReplyAfterReconnection(s: State) returns (t: State)
    requires Reachable(s) && s.link.Dropped? && s.available == [] && s.handled == [] && s.core.commands != []
    ensures Resent(s) != []
    ensures Reachable(t) && |t.handled| == 1 && Serves(t.handled[0], s.core.commands[0], Resent(s)[0])
    ensures Reissued(t.core) == Reissued(s.core)
  {
    var u := Restores(s);
    t := FirstReply(u);
  }

  lemma Sends(s: State, c: Command) returns (t: State)
    requires Reachable(s) && Sendable(c)
    ensures Reachable(t) && t.link == s.link && t.available == s.available && t.handled == s.handled && t.due == s.due
    ensures |t.core.commands| == |s.core.commands| + 1 && s.core.commands <= t.core.commands
    ensures t.core.commands[|s.core.commands|].command == c
    ensures t.core.password == s.core.password && t.core.index == s.core.index
    ensures t.core.out == s.core.out + EncodeCommand(c)
  {
    t := Apply(s, Send(c, true));
    Go(s, Send(c, true), t);
  }

  lemma Drops(s: State) returns (t: State)
    requires Reachable(s) && s.link.Down?
    ensures Reachable(t) && t.link.Dropped? && t.available == s.available && t.handled == s.handled
    ensures t.core == s.core.(out := "")
  {
    var u := Apply(s, Connect);
    Go(s, Connect, u);
    t := Apply(u, LinkDown);
    Go(u, LinkDown, t);
  }

  lemma Starts()
    ensures Reachable(Initial)
  {
    assert Final(Initial, []) == Initial && Solicited([]);
  }

  lemma Authenticates(s: State) returns (t: State)
    requires Reachable(s)
    ensures Reachable(t) && t.link == s.link && t.available == s.available && t.handled == s.handled
    ensures s.core.commands <= t.core.commands && t.core.password == "p" && t.core.index == s.core.index
  {
    t := Apply(s, Authenticate("p", true));
    Go(s, Authenticate("p", true), t);
  }

  lemma FirstReissued(s: State)
    requires Forward(s) && s.wire == "" && s.core.out == "" && s.core.password == "p" && s.core.index == 0
    ensures Resent(s) != [] && Resent(s)[0] == AUTH
  {
    NothingWritten(s);
    assert Reissued(s.core)[0] == AUTH;
  }

  /** With a password saved, the callback of a GET is given the reply to the AUTH of a reconnection. */
  lemma ReissuedReplyReachesWrongCommand() returns (t: State)
    ensures Reachable(t) && |t.handled| == 1
    ensures exists r: Request :: r.command == GET && Serves(t.handled[0], r, AUTH)
  {
    Starts();
    var s := Sends(Initial, GET);
    s := Authenticates(s);
    s := Drops(s);
    ReachableInOrder(s);
    FirstReissued(s);
    t := FirstReplyAfterReconnection(s);
    assert s.core.commands[0].command == GET;
  }

  lemma FirstBuffered(s: State, c: Command)
    requires Forward(s) && s.wire == "" && s.core.out == EncodeCommand(c) && Sendable(c)
    ensures Resent(s) != [] && Resent(s)[0] == c
  {
    EncodeOneCommand(c);
    assert "" + s.core.out == s.core.out;
    Reads(s, [c]);
  }

  /** A PING is pending at the drop, and a GET is sent between the drop and the reconnection. */
  lemma Buffered() returns (s: State)
    ensures Reachable(s) && s.link.Dropped? && s.available == [] && s.handled == []
    ensures s.core.commands != [] && s.core.commands[0].command == PING
    ensures s.core.out == EncodeCommand(GET) && Reissued(s.core) == []
  {
    Starts();
    s := Sends(Initial, PING);
    s := Drops(s);
    s := Sends(s, GET);
    assert "" + EncodeCommand(GET) == EncodeCommand(GET);
  }

  /** With nothing re-issued: the callback of the PING is given the reply to the GET. */
  lemma BufferedReplyReachesWrongCommand() returns (t: State)
    ensures Reachable(t) && |t.handled| == 1 && Reissued(t.core) == []
    ensures exists r: Request :: r.command == PING && Serves(t.handled[0], r, GET)
  {
    var s := Buffered();
    ReachableInOrder(s);
    FirstBuffered(s, GET);
    t := FirstReplyAfterReconnection(s);
    assert s.core.commands[0].command == PING;
  }

  // ----- Teardown --------------------------------------------------------------------------

  lemma Writes(s: State) returns (t: State)
    requires Reachable(s) && s.link.Down? && s.due == [] && s.available == [] && s.handled == []
    ensures Reachable(t) && Fresh(t) && Unanswered(t) == Unanswered(s) && Reissued(t.core) == Reissued(s.core)
  {
    ReachableInOrder(s);
    var u := Apply(s, Connect);
    Go(s, Connect, u);
    t := Apply(u, CommitOk);
    Go(u, CommitOk, t);
    assert (s.wire + s.core.out) + "" == s.wire + s.core.out;
  }

  lemma Closes(s: State, c: Command) returns (t: State)
    requires Reachable(s) && s.link.Up? && s.available != [] && Sendable(c)
    ensures Reachable(t) && t.link.Up? && t.available == s.available && t.handled == s.handled
    ensures |t.core.commands| == 1 && t.core.commands[0].command == c
    ensures s.due != [] && t.due != [] && t.due[0] == s.due[0] && Reissued(t.core) == Reissued(s.core)
  {
    ReachableInOrder(s);
    var u := Closed(s);
    Go(s, Disconnect, u);
    var v := Apply(u, Connect);
    Go(u, Connect, v);
    t := Apply(v, Send(c, true));
    Go(v, Send(c, true), t);
    StaleReplyWaits(s, c, true, t);
  }

  lemma OneBuffered(s: State, c: Command)
    requires s.wire == "" && s.core.out == EncodeCommand(c) && Sendable(c)
    ensures Unanswered(s) == [c]
  {
    EncodeOneCommand(c);
    assert "" + s.core.out == s.core.out;
    Reads(s, [c]);
  }

  lemma Parsed() returns (s: State)
    ensures Reachable(s) && s.link.Up? && s.available == [OK] && s.handled == [] && s.due == [Exchange(GET, OK)]
    ensures Reissued(s.core) == []
  {
    Starts();
    var s0 := Sends(Initial, GET);
    assert "" + EncodeCommand(GET) == EncodeCommand(GET);
    ReachableInOrder(s0);
    OneBuffered(s0, GET);
    var s1 := Writes(s0);
    var s2 := Answers(s1);
    s := Receives(s2);
  }

  /** With no password and no drop: the callback of a PING is given the reply to a GET, which was
      parsed before the user disconnected and connected again. */
  lemma StaleReplyReachesWrongCommand() returns (t: State)
    ensures Reachable(t) && |t.handled| == 1 && Reissued(t.core) == []
    ensures exists r: Request :: r.command == PING && Serves(t.handled[0], r, GET)
  {
    var s := Parsed();
    s := Closes(s, PING);
    t := Takes(s);
  }
}
