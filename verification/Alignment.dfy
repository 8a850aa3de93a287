/** When each reply reaches the callback of its own command: exactly on the clean runs, and, for a
    single request on any run, exactly when nothing else stands in its place. */
module Alignment {
  import opened Wrappers
  import opened Commands
  import opened Pipeline
  import opened Protocol
  import opened Ordering

  /** The steps that keep replies and commands aligned. What empties the queue must find no reply
      that is parsed and not handed out; giving up must also find an empty send buffer, and so must
      a reconnection, which must moreover re-issue nothing. */
  predicate Clean(s: State, a: Step) {
    match a
    case Disconnect => s.available == []
    case CommitFail => s.available == []
    case GaveUp => s.available == [] && s.core.out == ""
    case Reconnected => s.available == [] && s.core.out == "" && Reissued(s.core) == []
    case Unsolicited(_) => false
    case _ => true
  }

  predicate CleanRun(s: State, run: seq<Step>)
    requires Possible(s, run)
    decreases |run|
  {
    run == [] || (Clean(s, run[0]) && CleanRun(Apply(s, run[0]), run[1..]))
  }

  /** A handler run that popped the request whose command the server was answering. */
  predicate Paired(h: Handling) {
    Faithful(h) && h.request.Some? && h.request.value.command == h.answer.value.command
  }

  /** No reply to come has a place that is not its own: the queue is what is outstanding, or, while a
      reconnection is under way, starts with what has been answered. */
  predicate InPlace(s: State) {
    if s.link.Dropped? then AskedBy(s.due) <= CommandsOf(s.core.commands) else Lag(s) == 0
  }

  /** Every reply so far reached its own command, and so will those on their way. */
  predicate Aligned(s: State) {
    InOrder(s) && (forall i | 0 <= i < |s.handled| :: Paired(s.handled[i])) && InPlace(s)
  }

  lemma InPlaceIsOutstanding(s: State)
    requires Forward(s) && !s.link.Dropped? && Lag(s) == 0
    ensures CommandsOf(s.core.commands) == Outstanding(s)
  {
  }

  // ----- One lemma per kind of step --------------------------------------------------------

  lemma TakeKeepsAligned(s: State, t: State)
    requires s.available != [] && t == Taken(s) && Aligned(s)
    ensures Aligned(t)
  {
    TakeKeepsOrder(s, t);
    TakePairs(s);
    TakeKeepsPlace(s, t);
    forall i | 0 <= i < |t.handled| ensures Paired(t.handled[i]) {
      if i < |s.handled| {
        assert t.handled[i] == s.handled[i];
      }
    }
  }

  lemma TakePairs(s: State)
    requires Forward(s) && InPlace(s) && s.due != []
    ensures s.core.commands != [] && s.core.commands[0].command == s.due[0].command
  {
    if s.link.Dropped? {
      assert AskedBy(s.due)[0] == CommandsOf(s.core.commands)[0];
    } else {
      InPlaceIsOutstanding(s);
      assert Outstanding(s)[0] == AskedBy(s.due)[0];
    }
  }

  lemma TakeKeepsPlace(s: State, t: State)
    requires InPlace(s) && s.due != [] && t.due == s.due[1..] && t.core.commands == Tail(s.core.commands)
    requires s.core.commands != [] && t.link == s.link && (!s.link.Dropped? ==> Lag(t) == Lag(s))
    ensures InPlace(t)
  {
    if s.link.Dropped? {
      assert AskedBy(s.due) == [s.due[0].command] + AskedBy(t.due);
      assert CommandsOf(s.core.commands) == [s.core.commands[0].command] + CommandsOf(t.core.commands);
    }
  }

  lemma PrefixOfQueue(xs: seq<Exchange>, k: nat, later: seq<Command>, queue: seq<Command>)
    requires k <= |xs| && queue == AskedBy(xs) + later
    ensures AskedBy(xs[..k]) <= queue
  {
    assert xs == xs[..k] + xs[k..];
    AskedByConcat(xs[..k], xs[k..]);
    Associate(AskedBy(xs[..k]), AskedBy(xs[k..]), later);
  }

  lemma DropKeepsPlace(s: State, t: State)
    requires Forward(s) && InPlace(s) && !s.link.Dropped? && |s.available| <= |s.due|
    requires t.due == s.due[..|s.available|] && t.core.commands == s.core.commands && t.link.Dropped?
    ensures InPlace(t)
  {
    InPlaceIsOutstanding(s);
    PrefixOfQueue(s.due, |s.available|, Unanswered(s), CommandsOf(s.core.commands));
  }

  /** A state with an empty queue is in place exactly when nothing is outstanding. */
  lemma EmptyQueueInPlaceIff(s: State)
    requires s.core.commands == [] && (s.link.Dropped? ==> Unanswered(s) == [])
    ensures InPlace(s) <==> s.due == [] && Unanswered(s) == []
  {
  }

  lemma CloseInPlaceIff(s: State, t: State)
    requires Backward(s) && t == Closed(s)
    ensures InPlace(t) <==> s.available == []
  {
    NothingWritten(t);
    EmptyQueueInPlaceIff(t);
  }

  lemma FailInPlaceIff(s: State, t: State)
    requires (s.link.Dropped? || s.link.Down?) && t == Apply(s, CommitFail) && Backward(s) && Silent(s)
    ensures InPlace(t) <==> s.available == []
  {
    SilentBackward(s);
    NothingWritten(t);
    EmptyQueueInPlaceIff(t);
  }

  /** A silent state has an empty send buffer exactly when no command in it is unanswered. */
  lemma NothingBufferedIff(s: State)
    requires Forward(s) && s.wire == ""
    ensures Unanswered(s) == [] <==> s.core.out == ""
  {
    NoBytesNoCommands(Unanswered(s));
    assert "" + s.core.out == s.core.out;
  }

  lemma GiveUpInPlaceIff(s: State, t: State)
    requires s.link.Dropped? && t == Apply(s, GaveUp) && InOrder(s)
    ensures InPlace(t) <==> s.available == [] && s.core.out == ""
  {
    SameOutstanding(s, t);
    SilentBackward(s);
    NothingBufferedIff(s);
    EmptyQueueInPlaceIff(t);
  }

  lemma RestoreInPlaceIff(s: State, t: State)
    requires InOrder(s) && s.link.Dropped? && t == Restored(s)
    ensures InPlace(t) <==> s.available == [] && s.core.out == "" && Reissued(s.core) == []
  {
    RestoreKeepsOrder(s, t);
    NothingBufferedIff(s);
  }

  lemma AppendedInPlace(s: State, t: State)
    requires Appended(s, t) && InPlace(s) && !s.link.Dropped?
    ensures InPlace(t)
  {
  }

  lemma SendAppendsWhileDropped(s: State, r: Request, t: State)
    requires InPlace(s) && s.link.Dropped? && t.core.commands == s.core.commands + [r]
    requires t.link == s.link && t.due == s.due
    ensures InPlace(t)
  {
    CommandsOfConcat(s.core.commands, [r]);
  }

  /** While a reconnection is under way nothing but sends touches the queue, and those append. */
  lemma DroppedAppends(s: State, a: Step, t: State)
    requires InPlace(s) && s.link.Dropped? && Enabled(s, a) && t == Apply(s, a)
    requires a.Send? || a.Authenticate? || a.SelectDatabase? || a.FinishReply? || a.FailOne?
    ensures InPlace(t) && t.handled == s.handled
  {
    var id := |s.core.submitted|;
    match a
    case Send(command, notify) => SendAppendsWhileDropped(s, Request(id, command, notify), t);
    case Authenticate(password, notify) => SendAppendsWhileDropped(s, Request(id, AuthCommand(password), notify), t);
    case SelectDatabase(index, notify) => SendAppendsWhileDropped(s, Request(id, SelectCommand(index), notify), t);
    case _ =>
  }

  lemma LinkStepInPlaceIff(s: State, a: Step, t: State)
    requires Enabled(s, a) && t == Apply(s, a) && Aligned(s)
    requires a.CommitFail? || a.LinkDown? || a.Disconnect? || a.GaveUp? || a.Reconnected? || a.Connect?
    ensures (InPlace(t) <==> Clean(s, a)) && t.handled == s.handled
  {
    match a
    case CommitFail => FailInPlaceIff(s, t);
    case LinkDown => DropKeepsPlace(s, t);
    case Disconnect => CloseInPlaceIff(s, t);
    case GaveUp => GiveUpInPlaceIff(s, t);
    case Reconnected => RestoreInPlaceIff(s, t);
    case Connect => ConnectKeepsOrder(s, t);
  }

  lemma PlainStepInPlace(s: State, a: Step, t: State)
    requires Enabled(s, a) && t == Apply(s, a) && InPlace(s) && InOrder(s) && !a.Unsolicited? && !a.TakeReply?
    requires !a.CommitFail? && !a.LinkDown? && !a.Disconnect? && !a.GaveUp? && !a.Reconnected? && !a.Connect?
    ensures InPlace(t) && t.handled == s.handled
  {
    if s.link.Dropped? {
      DroppedAppends(s, a, t);
    } else if s.link.Up? {
      StepAppends(s, a, t);
      AppendedInPlace(s, t);
    } else {
      LocalStepAppends(s, a, t);
      AppendedInPlace(s, t);
    }
  }

  /** Every step from an aligned state keeps it aligned exactly when it is clean. */
  lemma StepKeepsAlignedIff(s: State, a: Step)
    requires Aligned(s) && Enabled(s, a) && !a.Unsolicited?
    ensures Aligned(Apply(s, a)) <==> Clean(s, a)
  {
    var t := Apply(s, a);
    StepKeepsOrder(s, a);
    if a.TakeReply? {
      TakeKeepsAligned(s, t);
    } else if a.CommitFail? || a.LinkDown? || a.Disconnect? || a.GaveUp? || a.Reconnected? || a.Connect? {
      LinkStepInPlaceIff(s, a, t);
    } else {
      PlainStepInPlace(s, a, t);
    }
  }

  // ----- Clean runs ------------------------------------------------------------------------

  predicate AlignedThroughout(s: State, run: seq<Step>)
    requires Possible(s, run)
    decreases |run|
  {
    Aligned(s) && (run != [] ==> AlignedThroughout(Apply(s, run[0]), run[1..]))
  }

  lemma {:induction false} AlignedThroughoutIff(s: State, run: seq<Step>)
    requires Aligned(s) && Possible(s, run) && Solicited(run)
    ensures AlignedThroughout(s, run) <==> CleanRun(s, run)
    decreases |run|
  {
    if run != [] {
      SolicitedTail(run);
      StepKeepsAlignedIff(s, run[0]);
      if Clean(s, run[0]) {
        AlignedThroughoutIff(Apply(s, run[0]), run[1..]);
      }
    }
  }

  /** As long as the server only answers what it is asked, a run from the start keeps replies and
      commands aligned throughout exactly when it is clean. */
  lemma AlignedExactlyOnCleanRuns(run: seq<Step>)
    requires Possible(Initial, run) && Solicited(run)
    ensures AlignedThroughout(Initial, run) <==> CleanRun(Initial, run)
  {
    InitialInOrder();
    AlignedThroughoutIff(Initial, run);
  }

  lemma {:induction false} CleanIsSolicited(s: State, run: seq<Step>)
    requires Possible(s, run) && CleanRun(s, run)
    ensures Solicited(run)
    decreases |run|
  {
    if run != [] {
      CleanIsSolicited(Apply(s, run[0]), run[1..]);
      assert run == [run[0]] + run[1..];
    }
  }

  lemma {:induction false} AlignedAtTheEnd(s: State, run: seq<Step>)
    requires Possible(s, run) && AlignedThroughout(s, run)
    ensures Aligned(Final(s, run))
    decreases |run|
  {
    if run != [] {
      AlignedAtTheEnd(Apply(s, run[0]), run[1..]);
    }
  }

  lemma CleanRunIsAligned(run: seq<Step>)
    requires Possible(Initial, run) && CleanRun(Initial, run)
    ensures Aligned(Final(Initial, run))
  {
    CleanIsSolicited(Initial, run);
    AlignedExactlyOnCleanRuns(run);
    AlignedAtTheEnd(Initial, run);
  }

  /** Wire alignment over every clean run: unless a reconnection is under way, the commands whose
      answers are on their way, then those decoded from the bytes not yet answered (on the wire, then
      in the send buffer), are exactly the commands in the queue. */
  lemma WireAlignment(run: seq<Step>)
    requires Possible(Initial, run) && CleanRun(Initial, run)
    ensures var s := Final(Initial, run);
            !s.link.Dropped? ==>
              exists later :: DecodeCommands(s.wire + s.core.out) == Some(later)
                              && AskedBy(s.due) + later == CommandsOf(s.core.commands)
  {
    CleanRunIsAligned(run);
    var s := Final(Initial, run);
    if !s.link.Dropped? {
      CommandsRoundTrip(Unanswered(s));
      InPlaceIsOutstanding(s);
    }
  }

  /** End-to-end pairing over every clean run: each handler run popped a request, was given the
      reply the server wrote in that place, and the command the server was answering was that of
      the request. The parser never refuses what the server writes. */
  lemma EveryReplyReachesItsOwnCommand(run: seq<Step>)
    requires Possible(Initial, run) && CleanRun(Initial, run)
    ensures var s := Final(Initial, run);
            !s.link.Jammed? && forall i | 0 <= i < |s.handled| :: Paired(s.handled[i])
  {
    CleanRunIsAligned(run);
  }

  // ----- All runs --------------------------------------------------------------------------

  /** On every run, clean or not, in which the server only answers what it is asked: every handler is
      given the server's replies in order, and unless a reconnection is under way the queue is the
      end of the outstanding commands. */
  lemma OrderAlways(run: seq<Step>)
    requires Possible(Initial, run) && Solicited(run)
    ensures var s := Final(Initial, run);
            && !s.link.Jammed? && (forall i | 0 <= i < |s.handled| :: Faithful(s.handled[i]))
            && (!s.link.Dropped? ==> IsEndOf(CommandsOf(s.core.commands), Outstanding(s)))
  {
    InitialInOrder();
    RunKeepsOrder(Initial, run);
  }

  /** From an aligned state, a reconnection leaves an aligned state exactly when no reply is left to
      hand out, nothing was buffered since the drop, and nothing is re-issued. */
  lemma ReconnectionKeepsAlignedIff(s: State)
    requires Aligned(s) && s.link.Dropped?
    ensures Aligned(Restored(s)) <==> s.available == [] && s.core.out == "" && Reissued(s.core) == []
  {
    StepKeepsAlignedIff(s, Reconnected);
  }

  /** From an aligned state, a teardown leaves an aligned state exactly when every reply that was
      parsed has been handed out. */
  lemma TeardownKeepsAlignedIff(s: State)
    requires Aligned(s)
    ensures Aligned(Closed(s)) <==> s.available == []
  {
    StepKeepsAlignedIff(s, Disconnect);
  }

  /** The n-th queued request is `r`, and the n-th outstanding command is `c`. */
  predicate Stands(s: State, n: nat, r: Request, c: Command) {
    n < |s.core.commands| && s.core.commands[n] == r && n < |Outstanding(s)| && Outstanding(s)[n] == c
  }

  /** On any run, a queued request is handed the reply to the command it stands at, when its turn
      comes on this connection; it is paired exactly when that is its own command. */
  lemma RequestIsPairedIff(s: State, n: nat, r: Request, c: Command, run: seq<Step>) returns (h: Handling)
    requires InOrder(s) && s.link.Up? && Stands(s, n, r, c)
    requires Possible(s, run) && Undisturbed(run) && |s.handled| + n < |Final(s, run).handled|
    ensures h == Final(s, run).handled[|s.handled| + n]
    ensures Serves(h, r, c) && (Paired(h) <==> r.command == c)
  {
    QueueIsServedInOrder(s, run);
    h := Final(s, run).handled[|s.handled| + n];
    assert Serves(h, s.core.commands[n], Outstanding(s)[n]);
  }

  /** The command that the server answers in the place of a request for `command` sent now. */
  function PlaceOfNext(s: State, command: Command): Command {
    if |s.core.commands| < |Outstanding(s)| then Outstanding(s)[|s.core.commands|] else command
  }

  /** Where a request stands that was queued behind the others, with its command behind the outstanding
      ones. */
  lemma LastStands(s: State, r: Request, t: State)
    requires Lag(s) >= 0 && t.core.commands == s.core.commands + [r] && Outstanding(t) == Outstanding(s) + [r.command]
    ensures Stands(t, |s.core.commands|, r, PlaceOfNext(s, r.command))
    ensures PlaceOfNext(s, r.command) == r.command <==> Lag(s) == 0 || Outstanding(s)[|s.core.commands|] == r.command
  {
  }

  lemma SubmittedStands(s: State, command: Command, notify: bool)
    requires Lag(s) >= 0 && Forward(s) && Sendable(command)
    ensures var t := s.(core := Submit(s.core, command, notify));
            Stands(t, |s.core.commands|, Request(|s.core.submitted|, command, notify), PlaceOfNext(s, command))
    ensures PlaceOfNext(s, command) == command <==> Lag(s) == 0 || Outstanding(s)[|s.core.commands|] == command
  {
    var t := s.(core := Submit(s.core, command, notify));
    SubmitKeepsForward(s, command, notify);
    LastStands(s, Request(|s.core.submitted|, command, notify), t);
  }

  /** A request sent now stands at its own command exactly when nothing lags, or when the same
      command happens to stand there. */
  lemma SentStandsIff(s: State, command: Command, notify: bool, t: State)
    requires InOrder(s) && s.link.Up? && Sendable(command) && t == Apply(s, Send(command, notify))
    ensures InOrder(t) && Stands(t, |s.core.commands|, Request(|s.core.submitted|, command, notify), PlaceOfNext(s, command))
    ensures PlaceOfNext(s, command) == command <==>
            Lag(s) == 0 || Outstanding(s)[|s.core.commands|] == command
  {
    assert t == s.(core := Submit(s.core, command, notify));
    SubmitKeepsOrder(s, command, notify);
    SubmittedStands(s, command, notify);
  }

  lemma BehindQueue(a: seq<Command>, p: seq<Command>)
    requires a != []
    ensures (a + (p + a))[|p| + |a|] == a[0]
  {
  }

  /** After a reconnection that re-issued A and nothing else lags, the place of the next command is
      that of the first re-issued one. */
  lemma PlaceAfterReissue(s: State, command: Command)
    requires InOrder(s) && s.link.Dropped? && s.available == [] && s.core.out == "" && Reissued(s.core) != []
    ensures PlaceOfNext(Restored(s), command) == Reissued(s.core)[0] && Lag(Restored(s)) == |Reissued(s.core)|
  {
    var t, p, a := Restored(s), CommandsOf(s.core.commands), Reissued(s.core);
    RestoreKeepsOrder(s, t);
    SilentBackward(s);
    NothingBufferedIff(s);
    assert AskedBy(s.due) == [] && [] + ([] + (a + (p + a))) == a + (p + a);
    BehindQueue(a, p);
  }

  /** A lag never grows while a connection lasts, and shrinks only when a reply finds the queue
      empty. */
  lemma LagOnOneConnection(s: State, a: Step, t: State)
    requires s.link.Up? && Enabled(s, a) && t == Apply(s, a) && InOrder(s)
    requires !a.LinkDown? && !a.Disconnect? && !a.Unsolicited?
    ensures Lag(t) == if a.TakeReply? && s.core.commands == [] then Lag(s) - 1 else Lag(s)
  {
    if a.TakeReply? {
      TakeKeepsOrder(s, t);
    } else {
      StepAppends(s, a, t);
    }
  }

  lemma ParsedFirst(s: State)
    requires Backward(s) && s.available != []
    ensures s.due != [] && s.due[..|s.available|][0] == s.due[0] && s.available[0] == s.due[0].reply
  {
    assert s.available[0] == RepliesOf(s.due[..|s.available|])[0];
  }

  /** A reply that is parsed and not handed out when the user disconnects is the next one to be
      handed out after `connect` and a send, and the new request is the next to be popped. */
  lemma StaleReplyWaits(s: State, command: Command, notify: bool, t: State)
    requires Backward(s) && !s.link.Dropped? && s.available != [] && Sendable(command)
    requires t == Apply(Apply(Closed(s), Connect), Send(command, notify))
    ensures t.link.Up? && t.available == s.available && t.handled == s.handled
    ensures t.core.commands == [Request(|s.core.submitted|, command, notify)]
    ensures s.due != [] && t.due != [] && t.due[0] == s.due[0] && s.available[0] == s.due[0].reply
  {
    ParsedFirst(s);
  }

  /** A handler run is paired exactly when the request it pops asked for the answer that is due. */
  lemma TakePairsIff(s: State, t: State)
    requires s.available != [] && s.due != [] && s.available[0] == s.due[0].reply && t == Taken(s)
    ensures |t.handled| == |s.handled| + 1 && t.handled[|s.handled|].reply == s.available[0]
    ensures Paired(t.handled[|s.handled|]) <==>
            s.core.commands != [] && s.core.commands[0].command == s.due[0].command
  {
  }

  lemma EmptiedInPlaceIff(s: State)
    requires s.core.commands == [] && s.core.out == "" && !s.link.Dropped?
    ensures Holds(s.wire + s.core.out, Unanswered(s)) && InPlace(s) <==> s.due == [] && s.wire == ""
  {
    EmptyQueueInPlaceIff(s);
    NoBytesNoCommands(Unanswered(s));
    assert s.wire + "" == s.wire;
    if s.wire == "" {
      NothingWritten(s);
    }
  }

  lemma EmptiedIsAligned(s: State, t: State)
    requires Aligned(s) && s.link.Up? && t == s.(core := CommitFails(s.core))
    requires Holds(t.wire + t.core.out, Unanswered(t)) && InPlace(t)
    ensures Aligned(t)
  {
    EmptyQueueForward(t);
    SameBackward(s, t);
    assert Reissued(t.core) == Reissued(s.core);
  }

  /** A commit that fails while the connection is up would keep the state aligned exactly when no
      answer is on its way and nothing is left unanswered on the wire: the queue is emptied, but the
      server will still answer what it has. */
  lemma FailedCommitKeepsAlignedIff(s: State, t: State)
    requires Aligned(s) && s.link.Up? && t == s.(core := CommitFails(s.core))
    ensures Aligned(t) <==> s.due == [] && s.wire == ""
  {
    EmptiedInPlaceIff(t);
    if s.due == [] && s.wire == "" {
      EmptiedIsAligned(s, t);
    }
  }
}
