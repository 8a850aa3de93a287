/** The order of replies and commands, for every run in which the server answers what it is asked:
    whatever a reconnection re-issues, whatever was sent or left to hand out when a connection was
    torn down, and however chunks, sends, commits and failures interleave. */
module Ordering {
  import opened Wrappers
  import opened Resp
  import opened Suspended
  import opened Streams
  import opened RoundTrip
  import opened Commands
  import opened Pipeline
  import opened Protocol

  function RepliesOf(xs: seq<Exchange>): (rs: seq<Reply>)
    ensures |rs| == |xs| && forall i | 0 <= i < |xs| :: rs[i] == xs[i].reply
  {
    if xs == [] then [] else [xs[0].reply] + RepliesOf(xs[1..])
  }

  function AskedBy(xs: seq<Exchange>): (cs: seq<Command>)
    ensures |cs| == |xs| && forall i | 0 <= i < |xs| :: cs[i] == xs[i].command
  {
    if xs == [] then [] else [xs[0].command] + AskedBy(xs[1..])
  }

  /** The commands the server has not answered, decoded from the bytes: in its input, then in the
      send buffer. */
  function Unanswered(s: State): seq<Command> {
    match DecodeCommands(s.wire + s.core.out)
    case Some(cs) => cs
    case None => []
  }

  /** The commands whose replies no handler has been given yet, in the order in which those replies
      come: first those already answered, perhaps on an earlier connection. */
  function Outstanding(s: State): seq<Command> {
    AskedBy(s.due) + Unanswered(s)
  }

  /** How many more replies are to come than requests are queued. */
  function Lag(s: State): int {
    |Outstanding(s)| - |s.core.commands|
  }

  predicate Holds(bytes: string, cs: seq<Command>) {
    bytes == EncodeCommands(cs) && AllSendable(cs)
  }

  predicate IsEndOf(queue: seq<Command>, all: seq<Command>) {
    |queue| <= |all| && queue == all[|all| - |queue|..]
  }

  /** The bytes not answered yet are whole commands. Unless a reconnection is under way, the queue is
      the end of the outstanding commands: the request at its front waits for a reply that comes
      `Lag` places later. */
  predicate Forward(s: State) {
    && Holds(s.wire + s.core.out, Unanswered(s))
    && (!s.link.Dropped? ==> IsEndOf(CommandsOf(s.core.commands), Outstanding(s)))
  }

  /** From `current`, the bytes are exactly the replies `rs`. */
  predicate Carries(current: Option<Suspended>, bytes: string, rs: seq<Reply>) {
    Sound(current) && RunBuffer(current, bytes) == Running(rs, None, "")
  }

  /** The answers due are those already parsed, then those that the bytes still carry. */
  predicate Backward(s: State) {
    && |s.available| <= |s.due|
    && s.available == RepliesOf(s.due[..|s.available|])
    && Carries(s.current, s.buffer + s.back, RepliesOf(s.due[|s.available|..]))
  }

  /** The handler was given what the server had answered in that place. */
  predicate Faithful(h: Handling) {
    h.answer.Some? && h.reply == h.answer.value.reply
  }

  /** Nothing is on its way on a connection that is not there. */
  predicate Silent(s: State) {
    s.wire == "" && s.back == "" && s.current == None && s.buffer == ""
  }

  /** The handlers so far were faithful, only sendable commands are kept, and no byte was refused. */
  predicate Sane(s: State) {
    && (forall i | 0 <= i < |s.handled| :: Faithful(s.handled[i]))
    && AllSendable(CommandsOf(s.core.commands)) && AllSendable(Reissued(s.core))
    && !s.link.Jammed? && (!s.link.Up? ==> Silent(s))
  }

  predicate InOrder(s: State) {
    Sane(s) && Forward(s) && Backward(s)
  }

  // ----- Forward: commands -----------------------------------------------------------------

  lemma Reads(s: State, cs: seq<Command>)
    requires Holds(s.wire + s.core.out, cs)
    ensures Unanswered(s) == cs
  {
    CommandsRoundTrip(cs);
  }

  lemma EndGrows(queue: seq<Command>, all: seq<Command>, c: Command)
    requires IsEndOf(queue, all)
    ensures IsEndOf(queue + [c], all + [c])
  {
  }

  lemma EndShrinks(queue: seq<Request>, all: seq<Command>)
    requires IsEndOf(CommandsOf(queue), all) && all != []
    ensures IsEndOf(CommandsOf(Tail(queue)), all[1..])
  {
    if queue != [] {
      assert CommandsOf(queue) == [queue[0].command] + CommandsOf(queue[1..]);
    }
  }

  lemma EndOfConcat(a: seq<Command>, queue: seq<Command>)
    ensures IsEndOf(queue, a + queue)
  {
  }

  /** Only the bytes taken together matter, not where the written ones end. */
  lemma SameOutstanding(s: State, t: State)
    requires t.due == s.due && t.wire + t.core.out == s.wire + s.core.out
    ensures Unanswered(t) == Unanswered(s) && Outstanding(t) == Outstanding(s)
    ensures Forward(s) && t.core.commands == s.core.commands && t.link == s.link ==> Forward(t)
  {
  }

  lemma SubmitIsRead(s: State, command: Command, notify: bool)
    requires Forward(s) && Sendable(command)
    ensures var t, cs := s.(core := Submit(s.core, command, notify)), Unanswered(s) + [command];
            && Holds(t.wire + t.core.out, cs) && Unanswered(t) == cs
            && CommandsOf(t.core.commands) == CommandsOf(s.core.commands) + [command]
  {
    var t, cs := s.(core := Submit(s.core, command, notify)), Unanswered(s);
    SubmitAppends(s.core, command, notify);
    EncodeCommandsConcat(cs, [command]);
    Associate(s.wire, s.core.out, EncodeCommands([command]));
    Reads(t, cs + [command]);
  }

  lemma OneMoreOutstanding(s: State, t: State, c: Command)
    requires t.due == s.due && Unanswered(t) == Unanswered(s) + [c]
    ensures Outstanding(t) == Outstanding(s) + [c]
  {
    Associate(AskedBy(s.due), Unanswered(s), [c]);
  }

  lemma GrowForward(s: State, t: State, c: Command)
    requires Forward(s) && t.link == s.link && Outstanding(t) == Outstanding(s) + [c]
    requires Holds(t.wire + t.core.out, Unanswered(t))
    requires CommandsOf(t.core.commands) == CommandsOf(s.core.commands) + [c]
    ensures Forward(t) && Lag(t) == Lag(s)
  {
    if !s.link.Dropped? {
      EndGrows(CommandsOf(s.core.commands), Outstanding(s), c);
    }
  }

  lemma SubmitKeepsForward(s: State, command: Command, notify: bool)
    requires Forward(s) && Sendable(command)
    ensures var t := s.(core := Submit(s.core, command, notify));
            Forward(t) && Outstanding(t) == Outstanding(s) + [command] && Lag(t) == Lag(s)
  {
    var t := s.(core := Submit(s.core, command, notify));
    SubmitIsRead(s, command, notify);
    OneMoreOutstanding(s, t, command);
    GrowForward(s, t, command);
  }

  lemma AnswerIsToNextCommand(s: State, reply: Reply, t: State)
    requires Enabled(s, Answer(reply)) && t == Answered(s, reply) && Forward(s)
    ensures var cs := Unanswered(s);
            && cs != [] && t.due == s.due + [Exchange(cs[0], reply)]
            && Unanswered(t) == cs[1..] && Holds(t.wire + t.core.out, cs[1..])
  {
    var cs := Unanswered(s);
    FirstCommand(s.wire, s.core.out, cs);
    TextsOfBulks(cs[0]);
    Reads(t, cs[1..]);
  }

  lemma AnswerMovesOne(s: State, x: Exchange, t: State)
    requires Unanswered(s) != [] && x.command == Unanswered(s)[0]
    requires t.due == s.due + [x] && Unanswered(t) == Unanswered(s)[1..]
    ensures Outstanding(t) == Outstanding(s)
  {
    AskedByConcat(s.due, [x]);
    assert [x.command] + Unanswered(s)[1..] == Unanswered(s);
    Associate(AskedBy(s.due), [x.command], Unanswered(s)[1..]);
  }

  lemma AskedByConcat(a: seq<Exchange>, b: seq<Exchange>)
    ensures AskedBy(a + b) == AskedBy(a) + AskedBy(b)
  {
    var l, r := AskedBy(a + b), AskedBy(a) + AskedBy(b);
    assert |l| == |r| && forall i | 0 <= i < |l| :: l[i] == r[i];
  }

  lemma TakeAdvances(s: State, t: State)
    requires s.due != [] && t.due == s.due[1..] && t.wire == s.wire && t.core.out == s.core.out
    ensures Outstanding(s) != [] && Outstanding(s)[0] == s.due[0].command && Outstanding(t) == Outstanding(s)[1..]
    ensures Unanswered(t) == Unanswered(s)
  {
    AskedByConcat([s.due[0]], s.due[1..]);
    assert [s.due[0]] + s.due[1..] == s.due;
    assert Unanswered(t) == Unanswered(s);
    Associate([s.due[0].command], AskedBy(s.due[1..]), Unanswered(s));
  }

  /** The queue loses its front, or was empty, and the reply is then one that nothing waits for. */
  lemma TakeKeepsForward(s: State, t: State)
    requires Forward(s) && s.due != [] && t.due == s.due[1..] && t.link == s.link
    requires t.wire == s.wire && t.core.out == s.core.out && t.core.commands == Tail(s.core.commands)
    ensures Outstanding(s) != [] && Forward(t) && Outstanding(t) == Outstanding(s)[1..]
    ensures Lag(t) == if s.core.commands == [] then Lag(s) - 1 else Lag(s)
  {
    TakeAdvances(s, t);
    if !s.link.Dropped? {
      EndShrinks(s.core.commands, Outstanding(s));
    }
  }

  lemma NothingWritten(s: State)
    requires s.wire == "" && s.core.out == ""
    ensures Holds(s.wire + s.core.out, Unanswered(s)) && Unanswered(s) == [] && Outstanding(s) == AskedBy(s.due)
  {
    assert EncodeCommands([]) == "" && "" + "" == "";
    Reads(s, []);
  }

  lemma EmptyQueueForward(s: State)
    requires Holds(s.wire + s.core.out, Unanswered(s)) && (s.core.commands == [] || s.link.Dropped?)
    ensures Forward(s)
  {
  }

  // ----- Backward: replies -----------------------------------------------------------------

  lemma RepliesOfConcat(a: seq<Exchange>, b: seq<Exchange>)
    ensures RepliesOf(a + b) == RepliesOf(a) + RepliesOf(b)
  {
    var l, r := RepliesOf(a + b), RepliesOf(a) + RepliesOf(b);
    assert |l| == |r| && forall i | 0 <= i < |l| :: l[i] == r[i];
  }

  lemma CarriesMore(current: Option<Suspended>, bytes: string, rs: seq<Reply>, reply: Reply)
    requires Carries(current, bytes, rs) && Encodable(reply)
    ensures Carries(current, bytes + Encode(reply), rs + [reply])
  {
    RunSplit(current, bytes, Encode(reply));
    DriverRoundTrip([reply], "");
    assert EncodeAll([reply]) + "" == Encode(reply);
    assert "" + Encode(reply) == Encode(reply);
    assert [reply] + [] == [reply];
  }

  lemma CarriesSplit(current: Option<Suspended>, x: string, y: string, rs: seq<Reply>)
    requires Carries(current, x + y, rs)
    ensures var r := RunBuffer(current, x);
            r.Running? && r.replies <= rs && Carries(r.current, r.buffer + y, rs[|r.replies|..])
  {
    RunSplit(current, x, y);
    RunKeepsSound(current, x);
    var r := RunBuffer(current, x);
    if r.Running? {
      var more := RunBuffer(r.current, r.buffer + y);
      assert rs == r.replies + more.replies;
    }
  }

  lemma CarriesNothing()
    ensures Carries(None, "", [])
  {
  }

  lemma AnswerKeepsBackward(s: State, x: Exchange, t: State)
    requires Backward(s) && Encodable(x.reply)
    requires t.due == s.due + [x] && t.available == s.available
    requires t.current == s.current && t.buffer == s.buffer && t.back == s.back + Encode(x.reply)
    ensures Backward(t)
  {
    var k := |s.available|;
    assert t.due[..k] == s.due[..k] && t.due[k..] == s.due[k..] + [x];
    RepliesOfConcat(s.due[k..], [x]);
    CarriesMore(s.current, s.buffer + s.back, RepliesOf(s.due[k..]), x.reply);
    Associate(s.buffer, s.back, Encode(x.reply));
  }

  /** Some of the answers on their way have been parsed. */
  lemma ParsedMore(s: State, rs: seq<Reply>, t: State)
    requires |s.available| <= |s.due| && s.available == RepliesOf(s.due[..|s.available|])
    requires rs <= RepliesOf(s.due[|s.available|..])
    requires t.due == s.due && t.available == s.available + rs
    ensures |t.available| <= |t.due| && t.available == RepliesOf(t.due[..|t.available|])
    ensures RepliesOf(t.due[|t.available|..]) == RepliesOf(s.due[|s.available|..])[|rs|..]
  {
    SplitReplies(s.due, |s.available|, |rs|);
    assert rs == RepliesOf(s.due[|s.available|..])[..|rs|];
  }

  lemma SplitReplies(xs: seq<Exchange>, k: nat, n: nat)
    requires k + n <= |xs|
    ensures RepliesOf(xs[..k + n]) == RepliesOf(xs[..k]) + RepliesOf(xs[k..])[..n]
    ensures RepliesOf(xs[k + n..]) == RepliesOf(xs[k..])[n..]
  {
    var l, r := RepliesOf(xs[..k + n]), RepliesOf(xs[..k]) + RepliesOf(xs[k..])[..n];
    assert |l| == |r| && forall i | 0 <= i < |l| :: l[i] == r[i];
  }

  lemma ReceiveKeepsBackward(s: State, size: nat, t: State)
    requires Enabled(s, Receive(size)) && t == Received(s, size) && Backward(s)
    ensures Backward(t) && t.link == s.link && t.due == s.due && t.core == s.core && t.wire == s.wire && t.handled == s.handled
  {
    var chunk, later := s.back[..size], s.back[size..];
    assert s.back == chunk + later;
    Associate(s.buffer, chunk, later);
    CarriesSplit(s.current, s.buffer + chunk, later, RepliesOf(s.due[|s.available|..]));
    ParsedMore(s, RunBuffer(s.current, s.buffer + chunk).replies, t);
  }

  lemma TakeKeepsBackward(s: State, t: State)
    requires Backward(s) && s.available != [] && s.due != [] && t.due == s.due[1..] && t.available == s.available[1..]
    requires t.current == s.current && t.buffer == s.buffer && t.back == s.back
    ensures s.available[0] == s.due[0].reply && Backward(t)
  {
    var k := |s.available|;
    assert s.available[0] == RepliesOf(s.due[..k])[0];
    assert s.due[1..][k - 1..] == s.due[k..];
    assert s.due[..k] == [s.due[0]] + s.due[1..][..k - 1];
    RepliesOfConcat([s.due[0]], s.due[1..][..k - 1]);
  }

  lemma TornBackward(s: State, t: State)
    requires Backward(s) && t.due == s.due[..|s.available|] && t.available == s.available
    requires t.current == None && t.buffer == "" && t.back == ""
    ensures Backward(t)
  {
    assert t.due[..|t.available|] == t.due && t.due[|t.available|..] == [];
    CarriesNothing();
    assert t.buffer + t.back == "";
  }

  /** Without a connection, the answers due are those parsed before. */
  lemma SilentBackward(s: State)
    requires Backward(s) && Silent(s)
    ensures |s.due| == |s.available|
  {
    CarriesNothing();
    assert s.buffer + s.back == "";
  }

  // ----- One lemma per kind of step --------------------------------------------------------

  lemma SubmitKeepsSane(s: State, command: Command, notify: bool, t: State)
    requires Sane(s) && Sendable(command) && t == s.(core := Submit(s.core, command, notify))
    ensures Sane(t)
  {
    SubmitAppends(s.core, command, notify);
    assert Reissued(t.core) == Reissued(s.core);
  }

  lemma SubmitKeepsOrder(s: State, command: Command, notify: bool)
    requires InOrder(s) && Sendable(command)
    ensures InOrder(s.(core := Submit(s.core, command, notify)))
  {
    var t := s.(core := Submit(s.core, command, notify));
    SubmitKeepsSane(s, command, notify, t);
    SubmitKeepsForward(s, command, notify);
    SameBackward(s, t);
  }

  /** The queue may be lost, and the bytes of a connection with it. */
  lemma LossKeepsSane(s: State, t: State)
    requires Sane(s) && t.handled == s.handled && Reissued(t.core) == Reissued(s.core)
    requires t.core.commands == s.core.commands || t.core.commands == []
    requires Silent(t) && !t.link.Jammed?
    ensures Sane(t)
  {
  }

  lemma SameBackward(s: State, t: State)
    requires t.due == s.due && t.available == s.available
    requires t.current == s.current && t.buffer == s.buffer && t.back == s.back
    ensures Backward(s) ==> Backward(t)
  {
  }

  /** Steps that touch only what the ordering does not depend on. */
  lemma QuietKeepsOrder(s: State, t: State)
    requires InOrder(s)
    requires t == s.(handlers := t.handlers, retired := t.retired, invoked := t.invoked,
                     core := s.core.(failing := t.core.failing, running := t.core.running,
                                     password := t.core.password, index := t.core.index))
    requires AllSendable(Reissued(t.core))
    ensures InOrder(t)
  {
    SameOutstanding(s, t);
  }

  lemma ReissuedSendable(c: Core)
    requires c.password != "" ==> Sendable(AuthCommand(c.password))
    requires c.index > 0 ==> Sendable(SelectCommand(c.index))
    ensures AllSendable(Reissued(c))
  {
  }

  lemma ReissuedIsSendable(c: Core)
    requires AllSendable(Reissued(c))
    ensures c.password != "" ==> Sendable(AuthCommand(c.password))
    ensures c.index > 0 ==> Sendable(SelectCommand(c.index))
  {
    var auth := if c.password == "" then [] else [AuthCommand(c.password)];
    assert c.password != "" ==> Reissued(c)[0] == AuthCommand(c.password);
    assert c.index > 0 ==> Reissued(c)[|auth|] == SelectCommand(c.index);
  }

  lemma SettingKeepsOrder(s: State, password: string, index: int, command: Command, notify: bool)
    requires InOrder(s) && Sendable(command)
    requires password == s.core.password || command == AuthCommand(password)
    requires index == s.core.index || command == SelectCommand(index)
    ensures InOrder(s.(core := Submit(s.core.(password := password, index := index), command, notify)))
  {
    var c := s.core.(password := password, index := index);
    ReissuedIsSendable(s.core);
    ReissuedSendable(c);
    QuietKeepsOrder(s, s.(core := c));
    SubmitKeepsOrder(s.(core := c), command, notify);
  }

  lemma CommitKeepsOrder(s: State, t: State)
    requires s.link.Up? && t == Apply(s, CommitOk) && InOrder(s)
    ensures InOrder(t) && Outstanding(t) == Outstanding(s) && Unanswered(t) == Unanswered(s)
  {
    assert (s.wire + s.core.out) + "" == s.wire + s.core.out;
    SameOutstanding(s, t);
  }

  lemma AnswerKeepsOrder(s: State, reply: Reply, t: State)
    requires Enabled(s, Answer(reply)) && t == Answered(s, reply) && InOrder(s)
    ensures InOrder(t) && Outstanding(t) == Outstanding(s)
  {
    AnswerIsToNextCommand(s, reply, t);
    var x := Exchange(Unanswered(s)[0], reply);
    AnswerMovesOne(s, x, t);
    AnswerKeepsBackward(s, x, t);
  }

  lemma ReceiveKeepsOrder(s: State, size: nat, t: State)
    requires Enabled(s, Receive(size)) && t == Received(s, size) && InOrder(s)
    ensures InOrder(t) && t.link == s.link && Outstanding(t) == Outstanding(s)
  {
    ReceiveKeepsBackward(s, size, t);
    SameOutstanding(s, t);
  }

  /** The joint: the reply at the front of the parser's queue is the server's answer to the first
      outstanding command, and the request at the front of the client's queue is the one for the
      command `Lag` places behind that. */
  lemma TakeKeepsOrder(s: State, t: State)
    requires s.available != [] && t == Taken(s) && InOrder(s)
    ensures s.due != [] && Outstanding(s) != [] && InOrder(t) && Outstanding(t) == Outstanding(s)[1..]
    ensures Lag(t) == if s.core.commands == [] then Lag(s) - 1 else Lag(s)
    ensures s.due[0] == Exchange(Outstanding(s)[0], s.available[0]) && t.due == s.due[1..]
    ensures t.handled == s.handled + [Handling(Front(s.core.commands), s.available[0], Some(s.due[0]))]
    ensures !s.link.Dropped? && s.core.commands != [] ==> s.core.commands[0].command == Outstanding(s)[Lag(s)]
  {
    TakeKeepsBackward(s, t);
    TakeAdvances(s, t);
    TakeKeepsForward(s, t);
    TakeKeepsSane(s, t);
    if !s.link.Dropped? && s.core.commands != [] {
      assert CommandsOf(s.core.commands)[0] == Outstanding(s)[Lag(s)..][0];
    }
  }

  lemma TakeKeepsSane(s: State, t: State)
    requires s.available != [] && s.due != [] && s.available[0] == s.due[0].reply && t == Taken(s) && Sane(s)
    ensures Sane(t)
  {
    forall i | 0 <= i < |t.core.commands| ensures Sendable(CommandsOf(t.core.commands)[i]) {
      assert CommandsOf(t.core.commands)[i] == CommandsOf(s.core.commands)[i + 1];
    }
    assert Reissued(t.core) == Reissued(s.core);
  }

  /** The connection is lost: the buffers are cleared, the queue and the parsed replies stay. */
  lemma DropKeepsOrder(s: State, t: State)
    requires s.link.Up? && t == Apply(s, LinkDown) && InOrder(s)
    ensures InOrder(t)
  {
    TornBackward(s, t);
    NothingWritten(t);
    LossKeepsSane(s, t);
  }

  lemma CloseKeepsOrder(s: State, t: State)
    requires InOrder(s) && t == Closed(s)
    ensures InOrder(t)
  {
    TornBackward(s, t);
    NothingWritten(t);
    EmptyQueueForward(t);
    LossKeepsSane(s, t);
  }

  lemma FailKeepsOrder(s: State, t: State)
    requires (s.link.Dropped? || s.link.Down?) && t == Apply(s, CommitFail) && InOrder(s)
    ensures InOrder(t)
  {
    NothingWritten(t);
    EmptyQueueForward(t);
    SameBackward(s, t);
    LossKeepsSane(s, t);
  }

  lemma GiveUpKeepsOrder(s: State, t: State)
    requires s.link.Dropped? && t == Apply(s, GaveUp) && InOrder(s)
    ensures InOrder(t)
  {
    SameOutstanding(s, t);
    EmptyQueueForward(t);
    SameBackward(s, t);
    LossKeepsSane(s, t);
  }

  /** What a reconnection sends: what was buffered since the drop, then A P A. */
  function Resent(s: State): seq<Command> {
    var p, a := CommandsOf(s.core.commands), Reissued(s.core);
    Unanswered(s) + (a + (p + a))
  }

  lemma RestoredHolds(s: State, t: State)
    requires Forward(s) && Silent(s) && t == Restored(s)
    requires AllSendable(CommandsOf(s.core.commands)) && AllSendable(Reissued(s.core))
    ensures Holds(t.wire + t.core.out, Resent(s)) && Unanswered(t) == Resent(s)
  {
    assert "" + s.core.out == s.core.out && t.wire + "" == t.wire;
    ReconnectPrints(s.core, Unanswered(s));
    AllResentSendable(Unanswered(s), CommandsOf(s.core.commands), Reissued(s.core));
    Reads(t, Resent(s));
  }

  lemma RestoredQueue(s: State, t: State)
    requires AllSendable(CommandsOf(s.core.commands)) && AllSendable(Reissued(s.core)) && t == Restored(s)
    ensures CommandsOf(t.core.commands) == CommandsOf(s.core.commands) + Reissued(s.core)
    ensures AllSendable(CommandsOf(t.core.commands)) && Reissued(t.core) == Reissued(s.core)
  {
    ReconnectOutcome(s.core);
    SendableConcat(CommandsOf(s.core.commands), Reissued(s.core));
  }

  /** A reconnection: the queue P becomes P A, and the lag is the number of replies left over from
      before, of commands buffered since the drop, and of re-issued commands. */
  lemma RestoreKeepsOrder(s: State, t: State)
    requires InOrder(s) && s.link.Dropped? && t == Restored(s)
    ensures InOrder(t) && Outstanding(t) == AskedBy(s.due) + Resent(s)
    ensures CommandsOf(t.core.commands) == CommandsOf(s.core.commands) + Reissued(s.core)
    ensures Lag(t) == |s.available| + |Unanswered(s)| + |Reissued(s.core)|
  {
    var p, a, w := CommandsOf(s.core.commands), Reissued(s.core), Unanswered(s);
    RestoredHolds(s, t);
    RestoredQueue(s, t);
    SilentBackward(s);
    Associate(w, a, p + a);
    Associate(AskedBy(s.due), w + a, p + a);
    EndOfConcat(AskedBy(s.due) + (w + a), p + a);
  }

  lemma ConnectKeepsOrder(s: State, t: State)
    requires s.link.Down? && t == Apply(s, Connect) && InOrder(s)
    ensures InOrder(t) && Outstanding(t) == Outstanding(s) && Lag(t) == Lag(s)
  {
    SameOutstanding(s, t);
  }

  lemma StepKeepsOrder(s: State, a: Step)
    requires InOrder(s) && Enabled(s, a) && !a.Unsolicited?
    ensures InOrder(Apply(s, a))
  {
    var t := Apply(s, a);
    match a
    case Send(command, notify) => SubmitKeepsOrder(s, command, notify);
    case Authenticate(password, notify) => SettingKeepsOrder(s, password, s.core.index, AuthCommand(password), notify);
    case SelectDatabase(index, notify) => SettingKeepsOrder(s, s.core.password, index, SelectCommand(index), notify);
    case FinishReply(i) => QuietKeepsOrder(s, t);
    case FailOne(i) => QuietKeepsOrder(s, t);
    case _ =>
      if a.CommitOk? || a.Answer? || a.Receive? || a.TakeReply? {
        WireStepKeepsOrder(s, a, t);
      } else {
        LinkStepKeepsOrder(s, a, t);
      }
  }

  lemma WireStepKeepsOrder(s: State, a: Step, t: State)
    requires Enabled(s, a) && t == Apply(s, a) && InOrder(s)
    requires a.CommitOk? || a.Answer? || a.Receive? || a.TakeReply?
    ensures InOrder(t)
  {
    match a
    case CommitOk => CommitKeepsOrder(s, t);
    case Answer(reply) => AnswerKeepsOrder(s, reply, t);
    case Receive(size) => ReceiveKeepsOrder(s, size, t);
    case TakeReply => TakeKeepsOrder(s, t);
  }

  lemma LinkStepKeepsOrder(s: State, a: Step, t: State)
    requires Enabled(s, a) && t == Apply(s, a) && InOrder(s)
    requires a.CommitFail? || a.LinkDown? || a.Disconnect? || a.GaveUp? || a.Reconnected? || a.Connect?
    ensures InOrder(t)
  {
    match a
    case CommitFail => FailKeepsOrder(s, t);
    case LinkDown => DropKeepsOrder(s, t);
    case Disconnect => CloseKeepsOrder(s, t);
    case GaveUp => GiveUpKeepsOrder(s, t);
    case Reconnected => RestoreKeepsOrder(s, t);
    case Connect => ConnectKeepsOrder(s, t);
  }

  /** The server only ever answers what it is asked. */
  predicate Solicited(run: seq<Step>) {
    forall i | 0 <= i < |run| :: !run[i].Unsolicited?
  }

  lemma SolicitedTail(run: seq<Step>)
    requires Solicited(run) && run != []
    ensures !run[0].Unsolicited? && Solicited(run[1..])
  {
    assert forall i | 0 <= i < |run[1..]| :: run[1..][i] == run[i + 1];
  }

  lemma {:induction false} RunKeepsOrder(s: State, run: seq<Step>)
    requires InOrder(s) && Possible(s, run) && Solicited(run)
    ensures InOrder(Final(s, run))
    decreases |run|
  {
    if run != [] {
      SolicitedTail(run);
      StepKeepsOrder(s, run[0]);
      RunKeepsOrder(Apply(s, run[0]), run[1..]);
    }
  }

  lemma InitialInOrder()
    ensures InOrder(Initial) && Lag(Initial) == 0
  {
    NothingWritten(Initial);
    EmptyQueueForward(Initial);
    CarriesNothing();
  }

  // ----- One connection --------------------------------------------------------------------

  predicate Undisturbed(run: seq<Step>) {
    forall i | 0 <= i < |run| :: !run[i].LinkDown? && !run[i].Disconnect? && !run[i].Unsolicited?
  }

  lemma UndisturbedTail(run: seq<Step>)
    requires Undisturbed(run) && run != []
    ensures !run[0].LinkDown? && !run[0].Disconnect? && !run[0].Unsolicited? && Undisturbed(run[1..])
  {
    assert forall i | 0 <= i < |run[1..]| :: run[1..][i] == run[i + 1];
  }

  /** Between two teardowns, steps other than the drain loop only append: to the queue, and to the
      outstanding commands. */
  predicate Appended(s: State, t: State) {
    && t.handled == s.handled && t.link == s.link
    && s.core.commands <= t.core.commands && Outstanding(s) <= Outstanding(t) && Lag(t) == Lag(s)
  }

  lemma StepAppends(s: State, a: Step, t: State)
    requires Enabled(s, a) && !a.TakeReply? && t == Apply(s, a) && InOrder(s)
    requires s.link.Up? && !a.LinkDown? && !a.Disconnect? && !a.Unsolicited?
    ensures Appended(s, t)
  {
    match a
    case CommitOk => CommitKeepsOrder(s, t);
    case Answer(reply) => AnswerKeepsOrder(s, reply, t);
    case Receive(size) => ReceiveKeepsOrder(s, size, t);
    case _ => LocalStepAppends(s, a, t);
  }

  /** Steps that need no connection. */
  lemma LocalStepAppends(s: State, a: Step, t: State)
    requires Enabled(s, a) && t == Apply(s, a) && Forward(s)
    requires a.Send? || a.Authenticate? || a.SelectDatabase? || a.FinishReply? || a.FailOne?
    ensures Appended(s, t)
  {
    match a
    case Send(command, notify) => SubmitKeepsForward(s, command, notify);
    case Authenticate(password, notify) => SettingAppends(s, password, s.core.index, AuthCommand(password), notify, t);
    case SelectDatabase(index, notify) => SettingAppends(s, s.core.password, index, SelectCommand(index), notify, t);
    case _ => SameOutstanding(s, t);
  }

  lemma SettingAppends(s: State, password: string, index: int, command: Command, notify: bool, t: State)
    requires Forward(s) && Sendable(command)
    requires t == s.(core := Submit(s.core.(password := password, index := index), command, notify))
    ensures Appended(s, t)
  {
    var u := s.(core := s.core.(password := password, index := index));
    SameOutstanding(s, u);
    SubmitKeepsForward(u, command, notify);
  }

  /** A handler run that popped `r` and was given the server's reply to `c`. */
  predicate Serves(h: Handling, r: Request, c: Command) {
    h.request == Some(r) && Faithful(h) && h.answer.value.command == c
  }

  /** Between `s` and `t`, the i-th request queued in `s` was handed the reply to the i-th command
      outstanding in `s`, for every i that was reached. */
  predicate Served(s: State, t: State) {
    && s.handled <= t.handled
    && |s.core.commands| <= |Outstanding(s)|
    && forall i | 0 <= i < |t.handled| - |s.handled| && i < |s.core.commands| ::
         Serves(t.handled[|s.handled| + i], s.core.commands[i], Outstanding(s)[i])
  }

  /** What happens to the queue of any state in the rest of its connection, whatever is sent
      meanwhile and however the replies are cut: it is served in order, `Lag` places early. */
  lemma {:induction false} QueueIsServedInOrder(s: State, run: seq<Step>)
    requires InOrder(s) && s.link.Up? && Possible(s, run) && Undisturbed(run)
    ensures InOrder(Final(s, run)) && Final(s, run).link.Up? && Served(s, Final(s, run))
    decreases |run|
  {
    if run != [] {
      var next, more := Apply(s, run[0]), run[1..];
      UndisturbedTail(run);
      StepKeepsOrder(s, run[0]);
      if run[0].TakeReply? {
        TakeKeepsOrder(s, next);
        QueueIsServedInOrder(next, more);
        ServedByTake(s, next, Final(next, more), next.handled[|s.handled|]);
      } else {
        StepAppends(s, run[0], next);
        QueueIsServedInOrder(next, more);
        ServedMore(s, next, Final(next, more));
      }
    }
  }

  lemma ServedByTake(s: State, next: State, t: State, h: Handling)
    requires Served(next, t) && next.handled == s.handled + [h]
    requires Outstanding(s) != [] && Outstanding(next) == Outstanding(s)[1..] && |s.core.commands| <= |Outstanding(s)|
    requires next.core.commands == Tail(s.core.commands)
    requires s.core.commands != [] ==> Serves(h, s.core.commands[0], Outstanding(s)[0])
    ensures Served(s, t)
  {
    assert t.handled[|s.handled|] == next.handled[|s.handled|];
    forall i | 0 <= i < |t.handled| - |s.handled| && i < |s.core.commands|
      ensures Serves(t.handled[|s.handled| + i], s.core.commands[i], Outstanding(s)[i])
    {
      if i > 0 {
        assert Serves(t.handled[|next.handled| + (i - 1)], next.core.commands[i - 1], Outstanding(next)[i - 1]);
      }
    }
  }

  lemma ServedMore(s: State, next: State, t: State)
    requires Served(next, t) && next.handled == s.handled
    requires s.core.commands <= next.core.commands && Outstanding(s) <= Outstanding(next)
    requires |s.core.commands| <= |Outstanding(s)|
    ensures Served(s, t)
  {
    forall i | 0 <= i < |t.handled| - |s.handled| && i < |s.core.commands|
      ensures Serves(t.handled[|s.handled| + i], s.core.commands[i], Outstanding(s)[i])
    {
      assert Serves(t.handled[|next.handled| + i], next.core.commands[i], Outstanding(next)[i]);
    }
  }
}
