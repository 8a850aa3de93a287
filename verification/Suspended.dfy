/** The incremental parser as a state machine on values: what a builder tree that is waiting for
    more bytes has stored, and what one `operator<<` on a buffer does to it. */
module Suspended {
  import opened Wrappers
  import opened Resp

  /** A builder that is not ready. Arrays and bulk strings first wait for their header; an array
      then holds the rows built so far and, between calls, the builder of the row in progress. */
  datatype Suspended =
    | AwaitSimple
    | AwaitError
    | AwaitInteger
    | AwaitBulkSize
    | AwaitBulk(size: int)
    | AwaitArraySize
    | AwaitRows(count: nat, rows: seq<Reply>, row: Option<Suspended>)

  datatype Outcome =
    | Ready(reply: Reply, rest: string)
    | Pending(state: Suspended, rest: string)
    | Thrown(fault: Fault)

  /** `create_builder`. */
  function Create(c: char): Suspended
    requires IsType(c)
  {
    match c
    case '+' => AwaitSimple
    case '-' => AwaitError
    case ':' => AwaitInteger
    case '$' => AwaitBulkSize
    case _ => AwaitArraySize
  }

  /** One `operator<<` of a builder that is not ready. The recursion ends because each step either
      erases bytes or descends into the row of the suspended array: the measure is the buffer
      length, then the tree. */
  function Resume(b: Suspended, buf: string): (o: Outcome)
    ensures o.Ready? ==> |o.rest| < |buf|
    ensures o.Pending? ==> |o.rest| <= |buf|
    decreases |buf|, b
  {
    match b
    case AwaitArraySize =>
      (match ReadHeader(buf)
       case NoHeader => Pending(b, buf)
       case BadHeader(f) => Thrown(f)
       case GoodHeader(n, rest) =>
         if n < 0 then Ready(Null, rest)
         else if n == 0 then Ready(Array([]), rest)
         else Resume(AwaitRows(n, [], None), rest))
    case AwaitRows(count, rows, row) =>
      if buf == "" then Pending(b, buf)
      else
        (match Advance(row, buf)
         case Thrown(f) => Thrown(f)
         case Pending(r, rest) => Pending(AwaitRows(count, rows, Some(r)), rest)
         case Ready(r, rest) =>
           if |rows| + 1 == count then Ready(Array(rows + [r]), rest)
           else Resume(AwaitRows(count, rows + [r], None), rest))
    case _ => ResumeLeaf(b, buf)
  }

  /** The step `build_row` and `build_reply` share: go on with the retained builder, or create one
      from the type byte, and let it consume the buffer. */
  function Advance(row: Option<Suspended>, buf: string): (o: Outcome)
    requires buf != ""
    ensures o.Ready? ==> |o.rest| < |buf|
    ensures o.Pending? ==> |o.rest| <= |buf|
    decreases |buf|, row
  {
    if row.Some? then Resume(row.value, buf)
    else if IsType(buf[0]) then Resume(Create(buf[0]), buf[1..])
    else Thrown(InvalidType)
  }

  predicate Leaf(b: Suspended) {
    !b.AwaitArraySize? && !b.AwaitRows?
  }

  /** One `operator<<` of a builder that holds no other row. */
  function ResumeLeaf(b: Suspended, buf: string): (o: Outcome)
    ensures o.Ready? ==> |o.rest| < |buf|
    ensures o.Pending? ==> |o.rest| <= |buf| && (Leaf(b) ==> Leaf(o.state))
  {
    match b
    case AwaitInteger =>
      (match ReadHeader(buf)
       case NoHeader => Pending(b, buf)
       case BadHeader(f) => Thrown(f)
       case GoodHeader(n, rest) => Ready(Integer(n), rest))
    case AwaitBulkSize =>
      (match ReadHeader(buf)
       case NoHeader => Pending(b, buf)
       case BadHeader(f) => Thrown(f)
       case GoodHeader(n, rest) =>
         if Narrow(n) == -1 then Ready(Null, rest) else ResumeBulk(Narrow(n), rest))
    case AwaitBulk(size) => ResumeBulk(size, buf)
    case AwaitSimple =>
      var l := ReadLine(buf);
      if l.Fetched? then Ready(Simple(l.text), l.rest) else Pending(b, buf)
    case AwaitError =>
      var l := ReadLine(buf);
      if l.Fetched? then Ready(Error(l.text), l.rest) else Pending(b, buf)
    case _ => Pending(b, buf)
  }

  function ResumeBulk(size: int, buf: string): (o: Outcome)
    ensures o.Ready? ==> |o.rest| < |buf|
    ensures o.Pending? ==> o == Pending(AwaitBulk(size), buf)
  {
    match FetchBody(size, buf)
    case NotYet => Pending(AwaitBulk(size), buf)
    case Corrupt(f) => Thrown(f)
    case Fetched(text, rest) => Ready(Bulk(text), rest)
  }

  /** The states a builder can be left in: a header that was read was in range, a retained array
      still misses rows, and no retained builder is finished. */
  predicate WellFormed(b: Suspended) {
    match b
    case AwaitBulk(size) => -INT_MAX - 1 <= size <= INT_MAX && size != -1 && size != -2
    case AwaitRows(count, rows, row) => |rows| < count && (row.Some? ==> WellFormed(row.value))
    case _ => true
  }

  predicate Sound(row: Option<Suspended>) {
    row.Some? ==> WellFormed(row.value)
  }

  /** Suspended-array invariant, over any number of interrupted calls: a retained array has fewer
      rows than its header announced; an array that becomes ready has exactly that many. */
  lemma {:induction false} ResumeKeepsWellFormed(b: Suspended, buf: string)
    requires WellFormed(b)
    ensures var o := Resume(b, buf);
            && (o.Pending? ==> WellFormed(o.state))
            && (b.AwaitRows? && o.Pending? ==>
                  o.state.AwaitRows? && o.state.count == b.count && b.rows <= o.state.rows)
            && (b.AwaitRows? && o.Ready? ==>
                  o.reply.Array? && |o.reply.rows| == b.count && b.rows <= o.reply.rows)
    decreases |buf|, b
  {
    match b
    case AwaitArraySize =>
      var h := ReadHeader(buf);
      if h.GoodHeader? && h.n > 0 {
        ResumeKeepsWellFormed(AwaitRows(h.n, [], None), h.rest);
      }
    case AwaitRows(count, rows, row) =>
      if buf != "" {
        AdvanceKeepsWellFormed(row, buf);
        var o := Advance(row, buf);
        if o.Ready? && |rows| + 1 != count {
          ResumeKeepsWellFormed(AwaitRows(count, rows + [o.reply], None), o.rest);
        }
      }
    case _ =>
  }

  lemma {:induction false} AdvanceKeepsWellFormed(row: Option<Suspended>, buf: string)
    requires Sound(row) && buf != ""
    ensures var o := Advance(row, buf); o.Pending? ==> WellFormed(o.state)
    decreases |buf|, row
  {
    if row.Some? {
      ResumeKeepsWellFormed(row.value, buf);
    } else if IsType(buf[0]) {
      ResumeKeepsWellFormed(Create(buf[0]), buf[1..]);
    }
  }

  /** A retained builder is not finished, changed or faulted by an empty buffer. */
  lemma ResumeOnNothing(b: Suspended)
    requires WellFormed(b)
    ensures Resume(b, "") == Pending(b, "")
  {
  }

  /** What happens when `y` arrives after `o`. */
  function Continue(o: Outcome, y: string): Outcome {
    match o
    case Ready(r, rest) => Ready(r, rest + y)
    case Pending(b, rest) => Resume(b, rest + y)
    case Thrown(_) => o
  }

  /** The heart of chunk independence: interrupting a builder anywhere and resuming it later is the
      same as giving it all the bytes at once. */
  lemma {:induction false} ResumeSplit(b: Suspended, x: string, y: string)
    requires WellFormed(b)
    ensures Resume(b, x + y) == Continue(Resume(b, x), y)
    decreases |x|, b
  {
    match b
    case AwaitArraySize =>
      ReadHeaderExtend(x, y);
      var h := ReadHeader(x);
      if h.GoodHeader? && h.n > 0 {
        ResumeSplit(AwaitRows(h.n, [], None), h.rest, y);
      }
    case AwaitRows(count, rows, row) =>
      if x == "" {
        assert x + y == y;
      } else {
        RowsSplit(b, x, y);
      }
    case _ => LeafSplit(b, x, y);
  }

  lemma LeafSplit(b: Suspended, x: string, y: string)
    requires Leaf(b)
    ensures var o := ResumeLeaf(b, x);
            ResumeLeaf(b, x + y) == if o.Pending? then ResumeLeaf(o.state, o.rest + y) else Continue(o, y)
  {
    match b
    case AwaitInteger => ReadHeaderExtend(x, y);
    case AwaitBulkSize =>
      ReadHeaderExtend(x, y);
      var h := ReadHeader(x);
      if h.GoodHeader? {
        FetchBodyExtend(Narrow(h.n), h.rest, y);
      }
    case AwaitBulk(size) => FetchBodyExtend(size, x, y);
    case _ => ReadLineExtend(x, y);
  }

  lemma {:induction false} RowsSplit(b: Suspended, x: string, y: string)
    requires WellFormed(b) && b.AwaitRows? && x != ""
    ensures Resume(b, x + y) == Continue(Resume(b, x), y)
    decreases |x|, b, 0
  {
    AdvanceSplit(b.row, x, y);
    AdvanceKeepsWellFormed(b.row, x);
    match Advance(b.row, x)
    case Thrown(_) =>
    case Pending(c, rest) =>
      assert Resume(b, x) == Pending(b.(row := Some(c)), rest);
      if rest + y == "" {
        ResumeOnNothing(c);
      } else {
        assert Advance(Some(c), rest + y) == Resume(c, rest + y);
      }
    case Ready(r, rest) =>
      if |b.rows| + 1 != b.count {
        ResumeSplit(AwaitRows(b.count, b.rows + [r], None), rest, y);
      }
  }

  lemma {:induction false} AdvanceSplit(row: Option<Suspended>, x: string, y: string)
    requires Sound(row) && x != ""
    ensures Advance(row, x + y) == Continue(Advance(row, x), y)
    decreases |x|, row
  {
    if row.Some? {
      ResumeSplit(row.value, x, y);
    } else if IsType(x[0]) {
      assert (x + y)[1..] == x[1..] + y;
      ResumeSplit(Create(x[0]), x[1..], y);
    }
  }

  // ----- Erasing a prefix ------------------------------------------------------------------

  function Rest(o: Outcome): string {
    if o.Thrown? then "" else o.rest
  }

  /** The outcome when there was nothing after the erased bytes. */
  function Bare(o: Outcome): Outcome {
    match o
    case Ready(r, _) => Ready(r, "")
    case Pending(b, _) => Pending(b, "")
    case Thrown(_) => o
  }

  lemma LineAlone(buf: string) returns (line: string)
    requires ReadLine(buf).Fetched?
    ensures buf == line + ReadLine(buf).rest && ReadLine(line) == ReadLine(buf).(rest := "")
  {
    var k := FindCrlf(buf);
    line := buf[..k + 2];
    forall j | 0 <= j < k ensures !CrlfAt(line, j) {
      assert !CrlfAt(buf, j);
    }
    FindCrlfIn(line, k);
    assert line[..k] == buf[..k];
  }

  lemma HeaderAlone(buf: string) returns (line: string)
    requires ReadHeader(buf).GoodHeader?
    ensures buf == line + ReadHeader(buf).rest
    ensures ReadHeader(line) == GoodHeader(ReadHeader(buf).n, "")
  {
    line := LineAlone(buf);
  }

  lemma HeaderThen(line: string, n: int, more: string)
    requires ReadHeader(line) == GoodHeader(n, "")
    ensures ReadHeader(line + more) == GoodHeader(n, more)
  {
    ReadHeaderExtend(line, more);
    assert "" + more == more;
  }

  /** A builder only erases a prefix of the buffer, and what it becomes depends on that prefix and
      on nothing after it. */
  lemma {:induction false} ResumeErases(b: Suspended, buf: string) returns (w: string)
    requires WellFormed(b) && !Resume(b, buf).Thrown?
    ensures buf == w + Rest(Resume(b, buf)) && Resume(b, w) == Bare(Resume(b, buf))
    decreases |buf|, b
  {
    match b
    case AwaitArraySize => w := ArrayErases(buf);
    case AwaitRows(_, _, _) =>
      w := "";
      if buf != "" {
        w := RowsErase(b, buf);
      }
    case _ => w := LeafErases(b, buf);
  }

  lemma LeafErases(b: Suspended, buf: string) returns (w: string)
    requires WellFormed(b) && Leaf(b) && !ResumeLeaf(b, buf).Thrown?
    ensures buf == w + Rest(ResumeLeaf(b, buf)) && ResumeLeaf(b, w) == Bare(ResumeLeaf(b, buf))
  {
    if ResumeLeaf(b, buf) == Pending(b, buf) {
      w := "";
    } else {
      match b
      case AwaitInteger =>
        w := HeaderAlone(buf);
        assert w + "" == w;
      case AwaitBulkSize => w := BulkErases(buf);
      case AwaitBulk(size) => w := BodyAlone(size, buf);
      case _ => w := LineAlone(buf);
    }
  }

  lemma BodyAlone(size: int, buf: string) returns (w: string)
    requires FetchBody(size, buf).Fetched?
    ensures buf == w + Rest(ResumeBulk(size, buf)) && ResumeBulk(size, w) == Bare(ResumeBulk(size, buf))
  {
    w := buf[..size + 2];
    assert w[..size] == buf[..size];
  }

  lemma {:induction false} ArrayErases(buf: string) returns (w: string)
    requires !Resume(AwaitArraySize, buf).Thrown?
    ensures buf == w + Rest(Resume(AwaitArraySize, buf))
    ensures Resume(AwaitArraySize, w) == Bare(Resume(AwaitArraySize, buf))
    decreases |buf|, AwaitArraySize, 0
  {
    var h := ReadHeader(buf);
    if h.GoodHeader? {
      var line := HeaderAlone(buf);
      if h.n > 0 {
        var next := AwaitRows(h.n, [], None);
        w := ResumeErases(next, h.rest);
        HeaderThen(line, h.n, w);
        Associate(line, w, Rest(Resume(next, h.rest)));
        w := line + w;
      } else {
        w := line;
      }
    } else {
      w := "";
    }
  }

  lemma BulkErases(buf: string) returns (w: string)
    requires !ResumeLeaf(AwaitBulkSize, buf).Thrown? && ReadHeader(buf).GoodHeader?
    ensures buf == w + Rest(ResumeLeaf(AwaitBulkSize, buf))
    ensures ResumeLeaf(AwaitBulkSize, w) == Bare(ResumeLeaf(AwaitBulkSize, buf))
  {
    var line := HeaderAlone(buf);
    var h := ReadHeader(buf);
    var size := Narrow(h.n);
    if size == -1 {
      w := line;
    } else {
      w := BulkBodyErases(size, h.rest);
      HeaderThen(line, h.n, w);
      Associate(line, w, Rest(ResumeBulk(size, h.rest)));
      w := line + w;
    }
  }

  lemma BulkBodyErases(size: int, buf: string) returns (w: string)
    requires !ResumeBulk(size, buf).Thrown?
    ensures buf == w + Rest(ResumeBulk(size, buf)) && ResumeBulk(size, w) == Bare(ResumeBulk(size, buf))
  {
    if FetchBody(size, buf).Fetched? {
      w := BodyAlone(size, buf);
    } else {
      w := "";
    }
  }

  lemma {:induction false} AdvanceErases(row: Option<Suspended>, buf: string) returns (w: string)
    requires Sound(row) && buf != "" && !Advance(row, buf).Thrown?
    ensures w == "" ==> row.Some? && Advance(row, buf) == Pending(row.value, buf)
    ensures w != "" ==> buf == w + Rest(Advance(row, buf)) && Advance(row, w) == Bare(Advance(row, buf))
    decreases |buf|, row
  {
    if row.Some? {
      w := ResumeErases(row.value, buf);
      ResumeOnNothing(row.value);
    } else {
      var more := ResumeErases(Create(buf[0]), buf[1..]);
      FreshThen(buf[0], more);
      Associate([buf[0]], more, Rest(Advance(row, buf)));
      w := [buf[0]] + more;
      assert buf == [buf[0]] + buf[1..];
    }
  }

  lemma FreshThen(c: char, more: string)
    requires IsType(c)
    ensures Advance(None, [c] + more) == Resume(Create(c), more)
  {
    assert ([c] + more)[1..] == more;
  }

  lemma {:induction false} RowsErase(b: Suspended, buf: string) returns (w: string)
    requires WellFormed(b) && b.AwaitRows? && buf != "" && !Resume(b, buf).Thrown?
    ensures buf == w + Rest(Resume(b, buf)) && Resume(b, w) == Bare(Resume(b, buf))
    decreases |buf|, b, 0
  {
    w := AdvanceErases(b.row, buf);
    var first := Advance(b.row, buf);
    if w == "" {
      ResumeOnNothing(b);
    } else if first.Ready? && |b.rows| + 1 != b.count {
      var next := AwaitRows(b.count, b.rows + [first.reply], None);
      var more := ResumeErases(next, first.rest);
      RowsThen(b, w, more, first.reply);
      Associate(w, more, Rest(Resume(next, first.rest)));
      w := w + more;
    }
  }

  /** Bytes `w` that finish a row other than the last, followed by `more`. */
  lemma RowsThen(b: Suspended, w: string, more: string, r: Reply)
    requires WellFormed(b) && b.AwaitRows? && w != ""
    requires Advance(b.row, w) == Ready(r, "") && |b.rows| + 1 != b.count
    ensures Resume(b, w + more) == Resume(AwaitRows(b.count, b.rows + [r], None), more)
  {
    AdvanceSplit(b.row, w, more);
    assert "" + more == more;
  }
}
