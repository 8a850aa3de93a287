/** The client, its connection, the network and the server as one state machine over atomic steps.

    Both directions of the wire carry bytes: the server reads commands out of what was written with
    the same grammar, and its replies come back through the incremental parser in chunks of any
    size, interleaved with sends, commits, failures and reconnections in any order. */
module Protocol {
  import opened Wrappers
  import opened Resp
  import opened Suspended
  import opened Streams
  import opened Commands
  import opened Pipeline

  /** `Dropped` lasts from the disconnection handler's start to its end, `Down` is disconnected for
      good, `Jammed` is a connection whose bytes the parser refused. */
  datatype Link = Up | Dropped | Down | Jammed

  /** A command as the server read it, and its reply. */
  datatype Exchange = Exchange(command: Command, reply: Reply)

  /** One run of the receive handler: the request it popped, the reply it was given and, for the
      record, what the server had said in that place. */
  datatype Handling = Handling(request: Option<Request>, reply: Reply, answer: Option<Exchange>)

  datatype State = State(
    core: Core,
    current: Option<Suspended>,       // the suspended builder tree
    buffer: string,                   // its buffer
    available: seq<Reply>,            // m_available_replies
    handlers: seq<Option<Request>>,   // receive handlers between their two critical sections
    link: Link,
    wire: string,                     // bytes written on this connection that the server has not read
    back: string,                     // bytes the server wrote that have not been received
    due: seq<Exchange>,               // record: answers not lost and not yet handed to a handler
    handled: seq<Handling>,           // record of all handler runs
    retired: seq<Request>,            // requests whose callback has completed (or was null)
    invoked: seq<Request>)            // callback invocations, in order

  datatype Step =
    | Send(command: Command, notify: bool)
    | Authenticate(password: string, notify: bool)
    | SelectDatabase(index: int, notify: bool)
    | CommitOk
    | CommitFail
    | Answer(reply: Reply)
    | Unsolicited(bytes: string)
    | Receive(size: nat)
    | TakeReply
    | FinishReply(handler: nat)
    | FailOne(thread: nat)
    | LinkDown
    | Reconnected
    | GaveUp
    | Disconnect
    | Connect

  const Initial := State(FreshCore, None, "", [], [], Down, "", "", [], [], [], [])

  /** When a step can happen. A write throws only without a connection. A server answers whole
      commands with replies that RESP2 can carry, or else writes any bytes at all. Replies parsed
      from a connection can be handed out at any later time, also after it was torn down. */
  predicate Enabled(s: State, a: Step) {
    match a
    case Send(command, _) => Sendable(command)
    case Authenticate(password, _) => Sendable(AuthCommand(password))
    case SelectDatabase(index, _) => Sendable(SelectCommand(index))
    case CommitOk => s.link.Up? || s.link.Jammed?
    case CommitFail => s.link.Dropped? || s.link.Down?
    case Answer(reply) => s.link.Up? && Encodable(reply) && Parse(s.wire).Done? && CommandOf(Parse(s.wire).reply).Some?
    case Unsolicited(_) => s.link.Up?
    case Receive(size) => s.link.Up? && 0 < size <= |s.back|
    case TakeReply => s.available != [] && !s.link.Jammed?
    case FinishReply(i) => i < |s.handlers|
    case FailOne(t) => t < |s.core.failing| && s.core.failing[t] != []
    case LinkDown => s.link.Up? || s.link.Jammed?
    case Reconnected => s.link.Dropped?
    case GaveUp => s.link.Dropped?
    case Disconnect => true
    case Connect => s.link.Down?
  }

  function Apply(s: State, a: Step): State
    requires Enabled(s, a)
  {
    match a
    case Send(command, notify) => s.(core := Submit(s.core, command, notify))
    case Authenticate(password, notify) => s.(core := Auth(s.core, password, notify))
    case SelectDatabase(index, notify) => s.(core := Select(s.core, index, notify))
    case CommitOk => s.(wire := s.wire + s.core.out, core := s.core.(out := ""))
    case CommitFail => s.(core := CommitFails(s.core))
    case Answer(reply) => Answered(s, reply)
    case Unsolicited(bytes) => s.(back := s.back + bytes)
    case Receive(size) => Received(s, size)
    case TakeReply => Taken(s)
    case FinishReply(i) => Finished(s, i)
    case FailOne(t) => FailedOne(s, t)
    case LinkDown => Torn(s).(core := s.core.(out := ""), link := Dropped)
    case Reconnected => Restored(s)
    case GaveUp => s.(core := ClearCallbacks(s.core), link := Down)
    case Disconnect => Closed(s)
    case Connect => s.(link := Up)
  }

  /** The server reads one whole command and writes its reply. */
  function Answered(s: State, reply: Reply): State
    requires Parse(s.wire).Done? && CommandOf(Parse(s.wire).reply).Some?
  {
    var v := Parse(s.wire);
    s.(wire := v.rest, back := s.back + Encode(reply),
       due := s.due + [Exchange(CommandOf(v.reply).value, reply)])
  }

  /** A chunk arrives. */
  function Received(s: State, size: nat): State
    requires size <= |s.back|
  {
    match RunBuffer(s.current, s.buffer + s.back[..size])
    case Running(rs, current, buffer) =>
      s.(available := s.available + rs, current := current, buffer := buffer, back := s.back[size..])
    case Stopped(rs, _) => s.(available := s.available + rs, link := Jammed)
  }

  /** What is left of a connection that is torn down: the bytes and the suspended tree are gone, the
      replies already parsed are not. */
  function Torn(s: State): State {
    s.(current := None, buffer := "", wire := "", back := "",
       due := if |s.available| <= |s.due| then s.due[..|s.available|] else s.due)
  }

  function Front(rs: seq<Request>): Option<Request> {
    if rs == [] then None else Some(rs[0])
  }

  function Tail(rs: seq<Request>): seq<Request> {
    if rs == [] then [] else rs[1..]
  }

  function Listed(r: Option<Request>): seq<Request> {
    if r.Some? then [r.value] else []
  }

  function Notified(rs: seq<Request>): seq<Request> {
    if rs == [] then [] else (if rs[0].notify then [rs[0]] else []) + Notified(rs[1..])
  }

  /** The first half of the receive handler: count, pop, call. */
  function Taken(s: State): State
    requires s.available != []
  {
    var request := Front(s.core.commands);
    var answer := if s.due == [] then None else Some(s.due[0]);
    s.(available := s.available[1..],
       core := s.core.(commands := Tail(s.core.commands), running := (s.core.running + 1) % UINT_RANGE),
       handlers := s.handlers + [request],
       due := if s.due == [] then [] else s.due[1..],
       handled := s.handled + [Handling(request, s.available[0], answer)],
       invoked := s.invoked + Notified(Listed(request)))
  }

  /** The second half: the callback has returned. */
  function Finished(s: State, i: nat): State
    requires i < |s.handlers|
  {
    s.(handlers := s.handlers[..i] + s.handlers[i + 1..],
       core := s.core.(running := (s.core.running - 1) % UINT_RANGE),
       retired := s.retired + Listed(s.handlers[i]))
  }

  /** A failure thread reports one network failure. */
  function FailedOne(s: State, t: nat): State
    requires t < |s.core.failing| && s.core.failing[t] != []
  {
    var r := s.core.failing[t][0];
    s.(core := s.core.(failing := s.core.failing[t := s.core.failing[t][1..]],
                       running := (s.core.running - 1) % UINT_RANGE),
       retired := s.retired + [r],
       invoked := s.invoked + Notified([r]))
  }

  /** A reconnection attempt succeeded: AUTH and SELECT are re-issued, the queue re-sent, all committed. */
  function Restored(s: State): State {
    var c := Reconnect(s.core);
    s.(core := c.(out := ""), wire := c.out, link := Up)
  }

  /** The user's `disconnect`. A reconnection that is under way goes on, with an empty queue. */
  function Closed(s: State): State {
    Torn(s).(core := CommitFails(s.core), link := if s.link.Dropped? then Dropped else Down)
  }

  predicate Possible(s: State, run: seq<Step>)
    decreases |run|
  {
    run == [] || (Enabled(s, run[0]) && Possible(Apply(s, run[0]), run[1..]))
  }

  function Final(s: State, run: seq<Step>): State
    requires Possible(s, run)
    decreases |run|
  {
    if run == [] then s else Final(Apply(s, run[0]), run[1..])
  }
}
