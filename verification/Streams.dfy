/** The top-level driver `reply_builder::operator<<` as a function of its state and the bytes it
    receives, its independence of how the stream is cut, and its agreement with the one-shot parser. */
module Streams {
  import opened Wrappers
  import opened Resp
  import opened Suspended

  /** What the driver has built, and the state it is left in; or the fault it stopped at. */
  datatype Run =
    | Running(replies: seq<Reply>, current: Option<Suspended>, buffer: string)
    | Stopped(replies: seq<Reply>, fault: Fault)

  function Prepend(rs: seq<Reply>, r: Run): Run {
    r.(replies := rs + r.replies)
  }

  /** The loop `while (build_reply());` over a buffer. */
  function RunBuffer(current: Option<Suspended>, buf: string): (r: Run)
    decreases |buf|
  {
    if buf == "" then Running([], current, "")
    else
      match Advance(current, buf)
      case Thrown(f) => Stopped([], f)
      case Pending(b, rest) => Running([], Some(b), rest)
      case Ready(reply, rest) => Prepend([reply], RunBuffer(None, rest))
  }

  function After(r: Run, y: string): Run {
    match r
    case Running(rs, current, buf) => Prepend(rs, RunBuffer(current, buf + y))
    case Stopped(_, _) => r
  }

  lemma {:induction false} RunKeepsSound(current: Option<Suspended>, buf: string)
    requires Sound(current)
    ensures var r := RunBuffer(current, buf); r.Running? ==> Sound(r.current)
    decreases |buf|
  {
    if buf != "" {
      AdvanceKeepsWellFormed(current, buf);
      var o := Advance(current, buf);
      if o.Ready? {
        RunKeepsSound(None, o.rest);
      }
    }
  }

  /** Bytes may be handed over in two pieces, cut anywhere. */
  lemma {:induction false} RunSplit(current: Option<Suspended>, x: string, y: string)
    requires Sound(current)
    ensures RunBuffer(current, x + y) == After(RunBuffer(current, x), y)
    decreases |x|
  {
    if x == "" {
      assert x + y == y;
      PrependNothing(RunBuffer(current, y));
    } else {
      AdvanceSplit(current, x, y);
      AdvanceKeepsWellFormed(current, x);
      var o := Advance(current, x);
      if o.Pending? {
        RunAfterPending(o.state, o.rest + y);
      } else if o.Ready? {
        RunSplit(None, o.rest, y);
        PrependTwice([o.reply], RunBuffer(None, o.rest), y);
      }
    }
  }

  lemma RunAfterPending(b: Suspended, buf: string)
    requires WellFormed(b)
    ensures Prepend([], RunBuffer(Some(b), buf)) ==
            match Resume(b, buf)
            case Thrown(f) => Stopped([], f)
            case Pending(c, rest) => Running([], Some(c), rest)
            case Ready(reply, rest) => Prepend([reply], RunBuffer(None, rest))
  {
    PrependNothing(RunBuffer(Some(b), buf));
    if buf == "" {
      ResumeOnNothing(b);
    } else {
      assert Advance(Some(b), buf) == Resume(b, buf);
    }
  }

  lemma PrependStep(done: seq<Reply>, reply: Reply, r: Run)
    ensures Prepend(done, Prepend([reply], r)) == Prepend(done + [reply], r)
  {
    assert done + ([reply] + r.replies) == (done + [reply]) + r.replies;
  }

  lemma PrependNothing(r: Run)
    ensures Prepend([], r) == r
  {
    assert [] + r.replies == r.replies;
  }

  lemma PrependTwice(rs: seq<Reply>, r: Run, y: string)
    ensures Prepend(rs, After(r, y)) == After(Prepend(rs, r), y)
  {
    if r.Running? {
      var more := RunBuffer(r.current, r.buffer + y);
      assert rs + (r.replies + more.replies) == (rs + r.replies) + more.replies;
    }
  }

  // ----- Chunks ----------------------------------------------------------------------------

  function Concat(chunks: seq<string>): string {
    if chunks == [] then "" else chunks[0] + Concat(chunks[1..])
  }

  /** Successive `operator<<` calls: one chunk after the other, up to the first that throws. */
  function Feed(r: Run, chunks: seq<string>): Run
    decreases |chunks|
  {
    if chunks == [] || r.Stopped? then r else Feed(After(r, chunks[0]), chunks[1..])
  }

  const Idle := Running([], None, "")

  lemma {:induction false} FeedIsRun(seen: string, chunks: seq<string>)
    ensures Feed(RunBuffer(None, seen), chunks) == RunBuffer(None, seen + Concat(chunks))
    decreases |chunks|
  {
    var r := RunBuffer(None, seen);
    if chunks == [] {
      assert seen + "" == seen;
    } else {
      RunSplit(None, seen, Concat(chunks));
      RunSplit(None, seen, chunks[0]);
      assert (seen + chunks[0]) + Concat(chunks[1..]) == seen + Concat(chunks);
      FeedIsRun(seen + chunks[0], chunks[1..]);
    }
  }

  /** Feeding from the i-th chunk on starts with that chunk. */
  lemma NextChunk(r: Run, chunks: seq<string>, i: nat)
    requires i < |chunks| && r.Running?
    ensures Feed(r, chunks[i..]) == Feed(After(r, chunks[i]), chunks[i + 1..])
  {
    assert chunks[i..][0] == chunks[i] && chunks[i..][1..] == chunks[i + 1..];
  }

  /** Chunking independence: any two ways of cutting the same bytes give the same replies, the same
      suspended tree and the same leftover buffer, or fail with the same fault and replies. */
  lemma ChunkingIndependence(a: seq<string>, b: seq<string>)
    requires Concat(a) == Concat(b)
    ensures Feed(Idle, a) == Feed(Idle, b) == RunBuffer(None, Concat(a))
  {
    FeedIsRun("", a);
    FeedIsRun("", b);
    assert "" + Concat(a) == Concat(a);
  }

  // ----- Refinement of the one-shot parser -------------------------------------------------

  predicate Agrees(o: Outcome, v: Verdict) {
    match v
    case Done(r, rest) => o == Ready(r, rest)
    case Incomplete => o.Pending?
    case Failed(f) => o == Thrown(f)
  }

  lemma {:induction false} AdvanceRefinesParse(s: string)
    requires s != ""
    ensures Agrees(Advance(None, s), Parse(s))
    decreases |s|, 1
  {
    if s[0] == '*' {
      ArrayRefinesParse(s);
    }
  }

  lemma {:induction false} ArrayRefinesParse(s: string)
    requires s != "" && s[0] == '*'
    ensures Agrees(Advance(None, s), Parse(s))
    decreases |s|, 0
  {
    var h := ReadHeader(s[1..]);
    if h.GoodHeader? && h.n > 0 {
      RowsRefineParse(h.n, [], h.rest);
      var v := ParseRows(h.n, h.rest);
      if v.RowsDone? {
        assert [] + v.rows == v.rows;
      }
    }
  }

  /** `o`, reached by an array that held `rows`, is what the reference parser says of the rest. */
  predicate RowsAgree(o: Outcome, rows: seq<Reply>, v: RowsVerdict) {
    match v
    case RowsDone(more, rest) => o == Ready(Array(rows + more), rest)
    case RowsIncomplete => o.Pending?
    case RowsFailed(f) => o == Thrown(f)
  }

  /** A suspended array with no row in progress goes on exactly like the reference parser that
      still has to read the missing rows. */
  lemma {:induction false} RowsRefineParse(n: nat, rows: seq<Reply>, s: string)
    requires |rows| < n
    ensures RowsAgree(Resume(AwaitRows(n, rows, None), s), rows, ParseRows(n - |rows|, s))
    decreases |s|, 2
  {
    if s != "" {
      AdvanceRefinesParse(s);
      var v := Parse(s);
      if v.Done? && |rows| + 1 == n {
        assert ParseRows(0, v.rest) == RowsDone([], v.rest);
        assert ParseRows(1, s) == RowsDone([v.reply], v.rest);
      } else if v.Done? {
        RowsRefineParse(n, rows + [v.reply], v.rest);
        RowsAgreeCons(Resume(AwaitRows(n, rows + [v.reply], None), v.rest), rows, v.reply, n - |rows| - 1, v.rest);
      }
    }
  }

  lemma RowsAgreeCons(o: Outcome, rows: seq<Reply>, r: Reply, k: nat, s: string)
    requires RowsAgree(o, rows + [r], ParseRows(k, s))
    ensures RowsAgree(o, rows, ConsRow(r, ParseRows(k, s)))
  {
    var w := ParseRows(k, s);
    if w.RowsDone? {
      assert rows + ([r] + w.rows) == (rows + [r]) + w.rows;
    }
  }

  // ----- Refinement of whole streams, from any suspended state -----------------------------

  /** The state of the driver is the reference parser stuck in the middle of `tail`: the bytes the
      suspended tree has absorbed, then the buffer, are exactly `tail`, and the tree is what those
      absorbed bytes make of a fresh builder. */
  predicate Stuck(current: Option<Suspended>, buffer: string, tail: string) {
    match current
    case None => buffer == "" && tail == ""
    case Some(b) =>
      && |buffer| < |tail|
      && var absorbed := tail[..|tail| - |buffer|];
         tail == absorbed + buffer && Advance(None, absorbed) == Pending(b, "")
  }

  predicate StreamAgrees(r: Run, s: Stream) {
    match s
    case Malformed(rs, f) => r == Stopped(rs, f)
    case Partial(rs, tail) => r.Running? && r.replies == rs && Stuck(r.current, r.buffer, tail)
  }

  /** The incremental driver and the one-shot parser agree on every byte string: same replies, same
      faults, and an unfinished reply is accounted for to the byte. */
  lemma {:induction false} RunRefinesParse(s: string)
    ensures StreamAgrees(RunBuffer(None, s), ParseStream(s))
    decreases |s|
  {
    if s != "" {
      AdvanceRefinesParse(s);
      var v := Parse(s);
      if v.Done? {
        RunRefinesParse(v.rest);
      } else if v.Incomplete? {
        var absorbed := AdvanceErases(None, s);
        assert absorbed == s[..|absorbed|];
      }
    }
  }

  /** Refinement from a reachable suspended state: a tree that has absorbed `absorbed`, fed any
      further bytes, does what the one-shot parser does on both together. */
  lemma ResumedRefinesParse(b: Suspended, absorbed: string, more: string)
    requires absorbed != "" && Advance(None, absorbed) == Pending(b, "")
    ensures StreamAgrees(RunBuffer(Some(b), more), ParseStream(absorbed + more))
  {
    RunSplit(None, absorbed, more);
    assert RunBuffer(None, absorbed) == Running([], Some(b), "");
    assert "" + more == more;
    PrependNothing(RunBuffer(Some(b), more));
    RunRefinesParse(absorbed + more);
  }

  /** The rows `rows[|done|..]` are what the reference parser reads, in order, from the front of
      `s`, and the row in progress has absorbed the bytes of `s` after those, up to `rest`. */
  predicate Held(done: seq<Reply>, rows: seq<Reply>, row: Option<Suspended>, rest: string, s: string) {
    && done <= rows
    && var v := ParseRows(|rows| - |done|, s);
       && v.RowsDone? && v.rows == rows[|done|..]
       && match row
          case None => v.rest == "" && rest == ""
          case Some(b) => v.rest != "" && Advance(None, v.rest) == Pending(b, rest)
  }

  lemma {:induction false} SuspendedRowsAreParsedRows(n: nat, done: seq<Reply>, s: string)
    requires |done| < n
    requires Resume(AwaitRows(n, done, None), s).Pending?
    ensures var o := Resume(AwaitRows(n, done, None), s);
            && o.state.AwaitRows? && o.state.count == n && |o.state.rows| < n
            && Held(done, o.state.rows, o.state.row, o.rest, s)
    decreases |s|
  {
    if s == "" {
      assert ParseRows(0, s) == RowsDone([], s);
    } else {
      AdvanceRefinesParse(s);
      var v := Parse(s);
      if v.Done? {
        var next := done + [v.reply];
        SuspendedRowsAreParsedRows(n, next, v.rest);
        var o := Resume(AwaitRows(n, next, None), v.rest);
        HeldCons(done, v.reply, o.state.rows, o.state.row, o.rest, s, v.rest);
      } else {
        assert ParseRows(0, s) == RowsDone([], s);
      }
    }
  }

  lemma HeldCons(done: seq<Reply>, r: Reply, rows: seq<Reply>, row: Option<Suspended>, rest: string, s: string, t: string)
    requires Parse(s) == Done(r, t) && Held(done + [r], rows, row, rest, t)
    ensures Held(done, rows, row, rest, s)
  {
    assert rows[|done|] == (done + [r])[|done|];
    assert rows[|done|..] == [r] + rows[|done| + 1..];
    assert ParseRows(|rows| - |done|, s) == ConsRow(r, ParseRows(|rows| - |done| - 1, t));
  }

  /** What an array builder has stored once it has absorbed its header: fewer rows than announced,
      each the reply of its own bytes, and a row in progress that is those of the remaining bytes. */
  lemma SuspendedArrayMeaning(absorbed: string, n: nat, rows: seq<Reply>, row: Option<Suspended>)
    requires Resume(AwaitArraySize, absorbed) == Pending(AwaitRows(n, rows, row), "")
    ensures var h := ReadHeader(absorbed);
            h.GoodHeader? && h.n == n && |rows| < n && Held([], rows, row, "", h.rest)
  {
    var h := ReadHeader(absorbed);
    SuspendedRowsAreParsedRows(h.n, [], h.rest);
  }
}
