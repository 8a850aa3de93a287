/** The wire format on bytes: what the parser makes of each kind of reply, well-formed or not, spelled
    out in literals. The incremental parser agrees with all of it (`Streams.RunRefinesParse`). */
module WireFormat {
  import opened Wrappers
  import opened Decimal
  import opened Resp
  import opened Streams
  import opened RoundTrip
  import opened Commands

  lemma FirstByte(c: char, more: string)
    ensures [c] + more != "" && ([c] + more)[0] == c && ([c] + more)[1..] == more
  {
  }

  /** Any other first byte is refused, whatever follows. */
  lemma UnknownTypeIsRefused(s: string)
    requires s != "" && s[0] !in "+-:$*"
    ensures Parse(s) == Failed(InvalidType)
    ensures RunBuffer(None, s) == Stopped([], InvalidType)
  {
    AdvanceRefinesParse(s);
  }

  /** The only texts that a line cannot hold are those with a CR right before an LF. */
  lemma CrlfFreeExactly(s: string)
    ensures CrlfFree(s) <==> forall a: string, b: string :: s != a + "\r\n" + b
  {
    forall a: string, b: string | s == a + "\r\n" + b ensures !CrlfFree(s) {
      assert CrlfAt(s, |a|);
    }
    if k :| 0 <= k < |s| && CrlfAt(s, k) {
      assert s == s[..k] + "\r\n" + s[k + 2..];
    }
  }

  lemma TextLines(text: string, t: string)
    requires CrlfFree(text)
    ensures Parse("+" + (text + "\r\n" + t)) == Done(Simple(text), t)
    ensures Parse("-" + (text + "\r\n" + t)) == Done(Error(text), t)
  {
    FirstByte('+', text + "\r\n" + t);
    FirstByte('-', text + "\r\n" + t);
    ReadsBackLine(text, t);
  }

  /** A text that is not ended is waited for. */
  lemma UnendedLines(text: string)
    requires CrlfFree(text)
    ensures Parse("+" + text) == Parse("-" + text) == Parse(":" + text) == Parse("$" + text) == Parse("*" + text) == Incomplete
  {
    FirstByte('+', text);
    FirstByte('-', text);
    FirstByte(':', text);
    FirstByte('$', text);
    FirstByte('*', text);
  }

  // ----- Headers ---------------------------------------------------------------------------

  /** The first character that is no digit comes before the digits overflow. */
  ghost predicate Misspelled(line: string) {
    var b := Body(line);
    exists i | 0 <= i < |b| :: AllDigits(b[..i]) && Value(b[..i]) <= INT64_MAX && !IsDigit(b[i])
  }

  /** The digits overflow before any other character. */
  ghost predicate TooLarge(line: string) {
    var b := Body(line);
    exists i | 0 <= i <= |b| :: AllDigits(b[..i]) && Value(b[..i]) > INT64_MAX
  }

  lemma HeaderOfLine(line: string, t: string)
    requires CrlfFree(line)
    ensures ReadHeader(line + "\r\n" + t) ==
            match ReadInteger(line)
            case Number(n) => GoodHeader(n, t)
            case NotANumber => BadHeader(InvalidCharacter)
            case Overflow => BadHeader(Undefined)
  {
    ReadsBackLine(line, t);
  }

  lemma MisspelledIsRefused(line: string)
    requires Misspelled(line)
    ensures ReadInteger(line) == NotANumber
  {
    var b := Body(line);
    var i :| 0 <= i < |b| && AllDigits(b[..i]) && Value(b[..i]) <= INT64_MAX && !IsDigit(b[i]);
    AccumulateIsValue(b[..i]);
    assert b == b[..i] + b[i..];
    AccumulateConcat(0, b[..i], b[i..]);
  }

  lemma TooLargeOverflows(line: string)
    requires TooLarge(line)
    ensures ReadInteger(line) == Overflow
  {
    var b := Body(line);
    var i :| 0 <= i <= |b| && AllDigits(b[..i]) && Value(b[..i]) > INT64_MAX;
    AccumulateIsValue(b[..i]);
    assert b == b[..i] + b[i..];
    AccumulateConcat(0, b[..i], b[i..]);
  }

  lemma {:induction false} AccumulateConcat(acc: nat, a: string, b: string)
    ensures var m := Accumulate(acc, a); Accumulate(acc, a + b) == if m.Number? then Accumulate(m.value, b) else m
    decreases |a|
  {
    if a == "" {
      assert a + b == b;
    } else {
      assert (a + b)[1..] == a[1..] + b;
      var p := PushDigit(acc, a[0]);
      if p.Number? {
        AccumulateConcat(p.value, a[1..], b);
      }
    }
  }

  /** Every header line is a number, misspelled or too large. */
  lemma {:induction false} NumberOrFault(b: string)
    ensures || (AllDigits(b) && Value(b) <= INT64_MAX)
            || (exists i | 0 <= i < |b| :: AllDigits(b[..i]) && Value(b[..i]) <= INT64_MAX && !IsDigit(b[i]))
            || (exists i | 0 <= i <= |b| :: AllDigits(b[..i]) && Value(b[..i]) > INT64_MAX)
    decreases |b|
  {
    if b != "" {
      var front, n := b[..|b| - 1], |b| - 1;
      NumberOrFault(front);
      if AllDigits(front) && Value(front) <= INT64_MAX {
        assert b[..n] == front && b[..|b|] == b;
      } else {
        assert forall i | 0 <= i <= n :: front[..i] == b[..i];
      }
    }
  }

  /** What each header is told to be, by its digits: the number, or which fault. */
  lemma HeaderExactly(line: string, t: string)
    requires CrlfFree(line)
    ensures var h := ReadHeader(line + "\r\n" + t);
            && (h == BadHeader(InvalidCharacter) <==> Misspelled(line))
            && (h == BadHeader(Undefined) <==> TooLarge(line))
            && (h.GoodHeader? <==> AllDigits(Body(line)) && Value(Body(line)) <= INT64_MAX)
            && (h.GoodHeader? ==> h == GoodHeader(Sign(line) * Value(Body(line)), t))
  {
    HeaderOfLine(line, t);
    NumberOrFault(Body(line));
    if Misspelled(line) {
      MisspelledIsRefused(line);
    }
    if TooLarge(line) {
      TooLargeOverflows(line);
    }
    if AllDigits(Body(line)) {
      AccumulateIsValue(Body(line));
    }
    if ReadInteger(line).Number? {
      AccumulateNeedsDigits(0, Body(line));
    }
  }

  lemma HeaderFaultIsFault(s: string, f: Fault)
    requires s != "" && s[0] in ":$*" && ReadHeader(s[1..]) == BadHeader(f)
    ensures Parse(s) == Failed(f) && RunBuffer(None, s) == Stopped([], f)
  {
    AdvanceRefinesParse(s);
  }

  /** A bad header is the same fault in an integer, a bulk string and an array, and stops the driver. */
  lemma BadHeaderIsRefused(c: char, line: string, t: string, s: string)
    requires CrlfFree(line) && c in ":$*" && s == [c] + (line + "\r\n" + t)
    ensures Misspelled(line) ==> Parse(s) == Failed(InvalidCharacter) && RunBuffer(None, s) == Stopped([], InvalidCharacter)
    ensures TooLarge(line) ==> Parse(s) == Failed(Undefined) && RunBuffer(None, s) == Stopped([], Undefined)
  {
    FirstByte(c, line + "\r\n" + t);
    HeaderExactly(line, t);
    if Misspelled(line) {
      HeaderFaultIsFault(s, InvalidCharacter);
    }
    if TooLarge(line) {
      HeaderFaultIsFault(s, Undefined);
    }
  }

  lemma DigitsAreTen(c: char)
    ensures IsDigit(c) <==> c in "0123456789"
  {
    if IsDigit(c) {
      DigitSpelled(c as int - '0' as int);
    }
  }

  lemma IntegerOfLine(line: string, t: string)
    requires CrlfFree(line)
    ensures Parse(":" + (line + "\r\n" + t)) ==
            match ReadInteger(line)
            case Number(n) => Done(Integer(n), t)
            case NotANumber => Failed(InvalidCharacter)
            case Overflow => Failed(Undefined)
  {
    FirstByte(':', line + "\r\n" + t);
    HeaderOfLine(line, t);
  }

  /** Digits are the integer they stand for, or overflow. */
  lemma IntegerLine(d: string, t: string)
    requires AllDigits(d)
    ensures Parse(":" + (d + "\r\n" + t)) ==
            if Value(d) <= 0x7fff_ffff_ffff_ffff then Done(Integer(Value(d)), t) else Failed(Undefined)
  {
    assert Body(d) == d;
    AccumulateIsValue(d);
    IntegerOfLine(d, t);
  }

  lemma NegativeLine(d: string, t: string)
    requires AllDigits(d)
    ensures Parse(":" + (("-" + d) + "\r\n" + t)) ==
            if Value(d) <= 0x7fff_ffff_ffff_ffff then Done(Integer(-1 * Value(d)), t) else Failed(Undefined)
  {
    assert Body("-" + d) == d;
    AccumulateIsValue(d);
    IntegerOfLine("-" + d, t);
  }

  /** Behind digits that fit, with or without a minus sign, any character that is no digit is refused; in
      front of all digits, any but the minus sign. */
  lemma WrongCharacterIsRefused(c: char, d: string, x: char, more: string, t: string)
    requires c in ":$*" && AllDigits(d) && Value(d) <= 0x7fff_ffff_ffff_ffff && x !in "0123456789"
    ensures var line := d + [x] + more;
            CrlfFree(line) && (d != "" || x != '-') ==> Parse([c] + (line + "\r\n" + t)) == Failed(InvalidCharacter)
    ensures var line := "-" + (d + [x] + more);
            CrlfFree(line) ==> Parse([c] + (line + "\r\n" + t)) == Failed(InvalidCharacter)
  {
    var line := d + [x] + more;
    DigitsAreTen(x);
    assert line[..|d|] == d && line[|d|] == x;
    if CrlfFree(line) && (d != "" || x != '-') {
      assert d != "" ==> line[0] == d[0];
      assert Body(line) == line;
      BadHeaderIsRefused(c, line, t, [c] + (line + "\r\n" + t));
    }
    if CrlfFree("-" + line) {
      assert Body("-" + line) == line;
      BadHeaderIsRefused(c, "-" + line, t, [c] + ("-" + line + "\r\n" + t));
    }
  }

  /** Every number goes through an integer reply except those an int64 magnitude cannot hold. */
  lemma PrintedInteger(n: int, t: string)
    ensures Parse(":" + (ToString(n) + "\r\n" + t)) ==
            if -0x7fff_ffff_ffff_ffff <= n <= 0x7fff_ffff_ffff_ffff then Done(Integer(n), t) else Failed(Undefined)
  {
    FirstByte(':', ToString(n) + "\r\n" + t);
    ReadPrinted(n, t);
  }

  /** Numerals are the decimal ones, most significant digit first. */
  lemma NumeralsAreDecimal(n: int)
    ensures 0 <= n < 10 ==> ToString(n) == ["0123456789"[n]]
    ensures n >= 10 ==> ToString(n) == ToString(n / 10) + ToString(n % 10)
    ensures n < 0 ==> ToString(n) == "-" + ToString(-n)
  {
    if 0 <= n < 10 {
      DigitSpelled(n);
    }
  }

  lemma DigitSpelled(d: nat)
    requires d < 10
    ensures CharOf(d) == "0123456789"[d]
  {
    assert "0123456789"[d] as int == '0' as int + d;
  }

  // ----- Bulk strings ----------------------------------------------------------------------

  /** A printed bulk header, for any number an int64 can be read as. */
  function BulkHeader(n: int): string {
    "$" + (ToString(n) + "\r\n")
  }

  lemma BulkIs(n: int, body: string)
    requires -INT64_MAX <= n <= INT64_MAX
    ensures Parse(BulkHeader(n) + body) == ParseBulk(GoodHeader(n, body))
  {
    ReadPrinted(n, body);
    Associate("$", ToString(n) + "\r\n", body);
    FirstByte('$', ToString(n) + "\r\n" + body);
  }

  /** After the announced bytes, two bytes that are CRLF end the string, and any other two are the
      wrong ending. */
  lemma BulkEnding(text: string, c: char, d: char, t: string)
    requires |text| <= 0x7fff_ffff - 2
    ensures Parse(BulkHeader(|text|) + (text + [c, d] + t)) ==
            if c == '\r' && d == '\n' then Done(Bulk(text), t) else Failed(WrongEnding)
  {
    var body := text + [c, d] + t;
    BulkIs(|text|, body);
    assert body[|text|] == c && body[|text| + 1] == d;
    assert body[..|text|] == text && body[|text| + 2..] == t;
  }

  /** The driver queues the string, or stops there: it never waits. */
  lemma WrongEndingStopsTheDriver(rs: seq<Reply>, text: string, c: char, d: char, t: string)
    requires AllEncodable(rs) && |text| <= 0x7fff_ffff - 2 && !(c == '\r' && d == '\n')
    ensures RunBuffer(None, EncodeAll(rs) + (BulkHeader(|text|) + (text + [c, d] + t))) == Stopped(rs, WrongEnding)
  {
    BulkEnding(text, c, d, t);
    FaultStopsTheDriver(rs, BulkHeader(|text|) + (text + [c, d] + t), WrongEnding);
  }

  /** Replies before a fault are queued, and the fault is reported. */
  lemma FaultStopsTheDriver(rs: seq<Reply>, s: string, f: Fault)
    requires AllEncodable(rs) && Parse(s) == Failed(f)
    ensures RunBuffer(None, EncodeAll(rs) + s) == Stopped(rs, f)
  {
    DriverRoundTrip(rs, s);
    AdvanceRefinesParse(s);
    assert rs + [] == rs;
  }

  /** Fewer bytes than announced, or none of the ending, are waited for. */
  lemma ShortBulkWaits(n: nat, body: string)
    requires n <= 0x7fff_ffff && |body| < n + 2
    ensures Parse(BulkHeader(n) + body) == Incomplete
  {
    BulkIs(n, body);
  }

  /** Negative sizes: -1 is null, -2 reaches before the buffer, and the others wait for ever. */
  lemma NegativeBulk(n: int, body: string)
    requires -0x8000_0000 <= n < 0
    ensures Parse(BulkHeader(n) + body) ==
            if n == -1 then Done(Null, body) else if n == -2 then Failed(Undefined) else Incomplete
  {
    BulkIs(n, body);
  }

  /** A size outside the range of `int` is read as the size with the same low 32 bits. */
  lemma WideBulkWraps(n: int, k: int, body: string)
    requires -INT64_MAX <= n <= INT64_MAX && -0x8000_0000 <= k <= 0x7fff_ffff && (n - k) % 0x1_0000_0000 == 0
    ensures Parse(BulkHeader(n) + body) == Parse(BulkHeader(k) + body)
  {
    BulkIs(n, body);
    BulkIs(k, body);
    WrapsTo(n, k);
  }

  lemma WrapsTo(n: int, k: int)
    requires -0x8000_0000 <= k <= 0x7fff_ffff && (n - k) % 0x1_0000_0000 == 0
    ensures Narrow(n) == k
  {
  }

  // ----- Arrays ----------------------------------------------------------------------------

  function ArrayHeader(n: int): string {
    "*" + (ToString(n) + "\r\n")
  }

  lemma ArrayIs(n: int, body: string)
    requires -INT64_MAX <= n <= INT64_MAX
    ensures Parse(ArrayHeader(n) + body) == if n < 0 then Done(Null, body) else AsArray(ParseRows(n, body))
  {
    ReadPrinted(n, body);
    Associate("*", ToString(n) + "\r\n", body);
    FirstByte('*', ToString(n) + "\r\n" + body);
  }

  lemma EmptyArrays(n: int, body: string)
    requires -INT64_MAX <= n <= 0
    ensures Parse(ArrayHeader(n) + body) == Done(if n < 0 then Null else Array([]), body)
  {
    ArrayIs(n, body);
  }

  /** `rs` read, then what is read of the other rows. */
  function RowsBefore(rs: seq<Reply>, v: RowsVerdict): RowsVerdict {
    if v.RowsDone? then RowsDone(rs + v.rows, v.rest) else v
  }

  /** What was read, and `k` rows more. */
  function MoreRows(v: RowsVerdict, k: nat): RowsVerdict {
    if v.RowsDone? then RowsBefore(v.rows, ParseRows(k, v.rest)) else v
  }

  lemma MoreRowsCons(r: Reply, v: RowsVerdict, k: nat)
    ensures MoreRows(ConsRow(r, v), k) == ConsRow(r, MoreRows(v, k))
  {
    if v.RowsDone? {
      var w := ParseRows(k, v.rest);
      assert w.RowsDone? ==> ([r] + v.rows) + w.rows == [r] + (v.rows + w.rows);
    }
  }

  /** Reading `a + b` rows is reading `a` rows, then `b`. */
  predicate ReadsInTwo(a: nat, b: nat, s: string) {
    ParseRows(a + b, s) == MoreRows(ParseRows(a, s), b)
  }

  lemma MoreThanNoRows(b: nat, s: string)
    ensures ReadsInTwo(0, b, s)
  {
    var w := ParseRows(b, s);
    assert w.RowsDone? ==> [] + w.rows == w.rows;
  }

  lemma OneRowMore(a: nat, b: nat, s: string)
    requires var p := Parse(s); p.Done? ==> ReadsInTwo(a, b, p.rest)
    ensures ReadsInTwo(a + 1, b, s)
  {
    var p := Parse(s);
    if p.Done? {
      MoreRowsCons(p.reply, ParseRows(a, p.rest), b);
    }
  }

  lemma {:induction false} RowsInTwo(a: nat, b: nat, s: string)
    ensures ReadsInTwo(a, b, s)
    decreases a
  {
    if a == 0 {
      MoreThanNoRows(b, s);
    } else {
      var p := Parse(s);
      if p.Done? {
        RowsInTwo(a - 1, b, p.rest);
      }
      OneRowMore(a - 1, b, s);
    }
  }

  lemma FirstRow(k: nat, s: string)
    requires k > 0
    ensures match Parse(s)
            case Failed(f) => ParseRows(k, s) == RowsFailed(f)
            case Incomplete => ParseRows(k, s) == RowsIncomplete
            case Done(r, rest) => k == 1 ==> ParseRows(k, s) == RowsDone([r], rest)
  {
    var v := Parse(s);
    assert v.Done? ==> ParseRows(0, v.rest) == RowsDone([], v.rest);
  }

  /** What an array becomes that has read `rs` when its next row gives `next` and `k` rows are missing. */
  predicate SharesFate(rs: seq<Reply>, k: nat, next: Verdict, v: Verdict) {
    match next
    case Failed(f) => v == Failed(f)
    case Incomplete => v == Incomplete
    case Done(r, rest) => k == 1 ==> v == Done(Array(rs + [r]), rest)
  }

  lemma FateOfRows(rs: seq<Reply>, k: nat, s: string)
    requires k > 0
    ensures SharesFate(rs, k, Parse(s), AsArray(RowsBefore(rs, ParseRows(k, s))))
  {
    FirstRow(k, s);
  }

  /** An array whose first `a` rows read as `rs` shares the fate of its next row: a fault in it is the
      fault of the array, at any depth, and its last row makes it ready. */
  lemma NextRowDecides(a: nat, k: nat, body: string, rs: seq<Reply>, s: string)
    requires ParseRows(a, body) == RowsDone(rs, s) && k > 0 && a + k <= INT64_MAX
    ensures SharesFate(rs, k, Parse(s), Parse(ArrayHeader(a + k) + body))
  {
    ArrayIs(a + k, body);
    RowsInTwo(a, k, body);
    FateOfRows(rs, k, s);
  }

  // ----- Commands --------------------------------------------------------------------------

  /** The arguments, each behind its length. */
  function Spelled(c: Command): string {
    if c == [] then "" else "$" + ToString(|c[0]|) + "\r\n" + c[0] + "\r\n" + Spelled(c[1..])
  }

  lemma {:induction false} BulksSpelled(c: Command)
    ensures EncodeAll(Bulks(c)) == Spelled(c)
  {
    if c != [] {
      BulksSpelled(c[1..]);
      EncodeBulk(c[0]);
      assert Bulks(c) == [Bulk(c[0])] + Bulks(c[1..]);
      assert Bulks(c)[1..] == Bulks(c[1..]);
    }
  }

  /** A command on the wire: the number of its arguments, then each behind its length. */
  lemma CommandSpelled(c: Command)
    ensures EncodeCommand(c) == "*" + ToString(|c|) + "\r\n" + Spelled(c)
  {
    BulksSpelled(c);
    var head := ToString(|c|) + "\r\n";
    Associate("*", head, Spelled(c));
    Associate("*", ToString(|c|), "\r\n");
    assert Encode(AsReply(c)) == ['*'] + Payload(AsReply(c));
  }
}
