/** What the client keeps about its pipeline, as a value, and what each of its operations does to it. */
module Pipeline {
  import opened Wrappers
  import opened Decimal
  import opened Resp
  import opened Commands

  /** A command and its callback. The id is the position in the history of submissions, so two
      requests are the same only if they are the same submission; `notify` says whether the
      callback is non-null. */
  datatype Request = Request(id: nat, command: Command, notify: bool)

  const UINT_RANGE := 0x1_0000_0000

  datatype Core = Core(
    commands: seq<Request>,        // m_commands
    out: string,                   // m_client.m_buffer
    password: string,              // m_password
    index: int,                    // m_database_index
    running: nat,                  // m_callbacks_running, an unsigned int
    failing: seq<seq<Request>>,    // queues of the detached "network failure" threads
    submitted: seq<Request>)       // every request ever made, in order

  const FreshCore := Core([], "", "", 0, 0, [], [])

  function CommandsOf(rs: seq<Request>): (cs: seq<Command>)
    ensures |cs| == |rs| && forall i | 0 <= i < |rs| :: cs[i] == rs[i].command
  {
    if rs == [] then [] else [rs[0].command] + CommandsOf(rs[1..])
  }

  lemma CommandsOfConcat(a: seq<Request>, b: seq<Request>)
    ensures CommandsOf(a + b) == CommandsOf(a) + CommandsOf(b)
  {
    var l, r := CommandsOf(a + b), CommandsOf(a) + CommandsOf(b);
    assert |l| == |r| && forall i | 0 <= i < |l| :: l[i] == r[i];
  }

  /** `unprotected_send`: print the command into the send buffer and queue it with its callback. */
  function Push(c: Core, r: Request): Core {
    c.(out := c.out + EncodeCommand(r.command), commands := c.commands + [r])
  }

  function Submit(c: Core, command: Command, notify: bool): Core {
    var r := Request(|c.submitted|, command, notify);
    Push(c, r).(submitted := c.submitted + [r])
  }

  function AuthCommand(password: string): Command {
    ["AUTH", password]
  }

  function SelectCommand(index: int): Command {
    ["SELECT", ToString(index)]
  }

  function Auth(c: Core, password: string, notify: bool): Core {
    Submit(c.(password := password), AuthCommand(password), notify)
  }

  function Select(c: Core, index: int, notify: bool): Core {
    Submit(c.(index := index), SelectCommand(index), notify)
  }

  /** `clear_callbacks`: the whole queue moves to a thread that will fail it. */
  function ClearCallbacks(c: Core): Core {
    if c.commands == [] then c
    else c.(commands := [], failing := c.failing + [c.commands], running := (c.running + |c.commands|) % UINT_RANGE)
  }

  /** A commit whose write throws: the buffer was moved out, and the queue is failed. */
  function CommitFails(c: Core): Core {
    ClearCallbacks(c.(out := ""))
  }

  function ReAuth(c: Core): Core {
    if c.password == "" then c else Auth(c, c.password, true)
  }

  function ReSelect(c: Core): Core {
    if c.index <= 0 then c else Select(c, c.index, true)
  }

  /** `resend_failed_commands`: every queued command is printed again and stays queued, in order. */
  function Resend(c: Core): Core {
    c.(out := c.out + EncodeCommands(CommandsOf(c.commands)))
  }

  /** A successful reconnection, up to the commit that ends it. What was buffered since the drop is
      still in front. */
  function Reconnect(c: Core): Core {
    Resend(ReSelect(ReAuth(c)))
  }

  /** The commands a reconnection re-issues by itself. */
  function Reissued(c: Core): seq<Command> {
    (if c.password == "" then [] else [AuthCommand(c.password)]) +
    (if c.index <= 0 then [] else [SelectCommand(c.index)])
  }

  lemma SubmitAppends(c: Core, command: Command, notify: bool)
    ensures var d := Submit(c, command, notify);
            && CommandsOf(d.commands) == CommandsOf(c.commands) + [command]
            && d.out == c.out + EncodeCommands([command])
  {
    CommandsOfConcat(c.commands, [Request(|c.submitted|, command, notify)]);
    EncodeOneCommand(command);
  }

  /** `cs` were printed and queued by `d` on top of `c`, and nothing else happened. */
  ghost predicate Issued(c: Core, cs: seq<Command>, d: Core) {
    && d.out == c.out + EncodeCommands(cs) && CommandsOf(d.commands) == CommandsOf(c.commands) + cs
    && c.commands <= d.commands && d.running == c.running && d.failing == c.failing
  }

  lemma IssuedNothing(c: Core)
    ensures Issued(c, [], c)
  {
    assert EncodeCommands([]) == "" && c.out + "" == c.out;
    assert CommandsOf(c.commands) + [] == CommandsOf(c.commands);
  }

  lemma IssuedTwice(c: Core, a: seq<Command>, d: Core, b: seq<Command>, e: Core)
    requires Issued(c, a, d) && Issued(d, b, e)
    ensures Issued(c, a + b, e)
  {
    EncodeCommandsConcat(a, b);
    Associate(c.out, EncodeCommands(a), EncodeCommands(b));
    Associate(CommandsOf(c.commands), a, b);
  }

  lemma SubmitIssues(c: Core, command: Command, notify: bool)
    ensures Issued(c, [command], Submit(c, command, notify))
  {
    SubmitAppends(c, command, notify);
  }

  lemma ReissueOutcome(c: Core)
    ensures Issued(c, Reissued(c), ReSelect(ReAuth(c)))
  {
    var d := ReAuth(c);
    IssuedNothing(c);
    IssuedNothing(d);
    if c.password != "" {
      SubmitIssues(c, AuthCommand(c.password), true);
    }
    if c.index > 0 {
      SubmitIssues(d, SelectCommand(c.index), true);
    }
    IssuedTwice(c, if c.password == "" then [] else [AuthCommand(c.password)], d,
                if c.index <= 0 then [] else [SelectCommand(c.index)], ReSelect(d));
  }

  /** The requests that a reconnection adds, numbered from `id`, each with a callback of its own. */
  function Requeued(password: string, index: int, id: nat): seq<Request> {
    if password == "" then
      if index <= 0 then [] else [Request(id, ["SELECT", ToString(index)], true)]
    else
      [Request(id, ["AUTH", password], true)] +
      if index <= 0 then [] else [Request(id + 1, ["SELECT", ToString(index)], true)]
  }

  /** What is saved is what is asked again: the AUTH with the saved password first, then the SELECT of
      the saved index, each only if there is something to ask. */
  lemma ReissueSpelled(c: Core)
    ensures Reissued(c) == CommandsOf(Requeued(c.password, c.index, |c.submitted|))
    ensures var d, rs := ReSelect(ReAuth(c)), Requeued(c.password, c.index, |c.submitted|);
            && d.commands == c.commands + rs && d.submitted == c.submitted + rs
            && d.password == c.password && d.index == c.index
  {
  }

  /** The bytes of those commands. */
  function Reprinted(password: string, index: int): string {
    (if password == "" then "" else EncodeCommand(["AUTH", password])) +
    (if index <= 0 then "" else EncodeCommand(["SELECT", ToString(index)]))
  }

  lemma ReissuedPrinted(c: Core)
    ensures EncodeCommands(Reissued(c)) == Reprinted(c.password, c.index)
  {
    assert EncodeCommands([]) == "";
    EncodeOneCommand(AuthCommand(c.password));
    EncodeOneCommand(SelectCommand(c.index));
    EncodeCommandsConcat(if c.password == "" then [] else [AuthCommand(c.password)],
                         if c.index <= 0 then [] else [SelectCommand(c.index)]);
  }

  /** The bytes of a reconnection, to the letter. */
  lemma ReconnectSpelled(c: Core)
    ensures var again := Reprinted(c.password, c.index);
            Reconnect(c).out == c.out + (again + (EncodeCommands(CommandsOf(c.commands)) + again))
  {
    ReconnectOutcome(c);
    ReissuedPrinted(c);
    EncodeCommandsConcat(CommandsOf(c.commands), Reissued(c));
    EncodeCommandsConcat(Reissued(c), CommandsOf(c.commands) + Reissued(c));
  }

  /** What a reconnection leaves behind, for every saved password and database index: with pending
      queue P, re-issued commands A and W buffered since the drop, the buffer holds W A P A and the
      queue P A, and the pending requests keep their place at the front, with their own callbacks. */
  lemma ReconnectOutcome(c: Core)
    ensures var p, a, d := CommandsOf(c.commands), Reissued(c), Reconnect(c);
            && d.out == c.out + EncodeCommands(a + (p + a))
            && CommandsOf(d.commands) == p + a
            && c.commands <= d.commands
            && d.running == c.running && d.failing == c.failing
  {
    ReissueOutcome(c);
    var p, a := CommandsOf(c.commands), Reissued(c);
    EncodeCommandsConcat(a, p + a);
    Associate(c.out, EncodeCommands(a), EncodeCommands(p + a));
  }

  lemma ReconnectPrints(c: Core, w: seq<Command>)
    requires c.out == EncodeCommands(w)
    ensures var p, a := CommandsOf(c.commands), Reissued(c); Reconnect(c).out == EncodeCommands(w + (a + (p + a)))
  {
    ReconnectOutcome(c);
    EncodeCommandsConcat(w, Reissued(c) + (CommandsOf(c.commands) + Reissued(c)));
  }

  lemma SendableConcat(a: seq<Command>, b: seq<Command>)
    requires AllSendable(a) && AllSendable(b)
    ensures AllSendable(a + b)
  {
  }

  lemma AllResentSendable(w: seq<Command>, p: seq<Command>, a: seq<Command>)
    requires AllSendable(w) && AllSendable(p) && AllSendable(a)
    ensures AllSendable(p + a) && AllSendable(w + (a + (p + a)))
  {
    SendableConcat(p, a);
    SendableConcat(a, p + a);
    SendableConcat(w, a + (p + a));
  }

  /** The queue matches the bytes again after a reconnection exactly when nothing was buffered since
      the drop and nothing was re-issued: otherwise the server will answer a command twice that the
      client expects once. */
  lemma ReconnectAlignsIff(c: Core, w: seq<Command>)
    requires c.out == EncodeCommands(w) && AllSendable(w)
    requires AllSendable(CommandsOf(c.commands)) && AllSendable(Reissued(c))
    ensures DecodeCommands(Reconnect(c).out) == Some(CommandsOf(Reconnect(c).commands)) <==> c.out == "" && Reissued(c) == []
    ensures Reissued(c) == [] <==> c.password == "" && c.index <= 0
  {
    var p, a := CommandsOf(c.commands), Reissued(c);
    ReconnectPrints(c, w);
    AllResentSendable(w, p, a);
    CommandsRoundTrip(w + (a + (p + a)));
    ReconnectOutcome(c);
    NoBytesNoCommands(w);
    var all := w + (a + (p + a));
    if w == [] && a == [] {
      assert all == p + a;
    } else {
      assert |all| > |p + a|;
    }
  }

  lemma NoBytesNoCommands(cs: seq<Command>)
    ensures EncodeCommands(cs) == "" <==> cs == []
  {
    if cs != [] {
      assert EncodeCommands(cs) == Encode(AsReplies(cs)[0]) + EncodeAll(AsReplies(cs)[1..]);
    }
  }
}
