/** The reply value, the RESP2 encoding, and the one-shot recursive-descent parser that serves as
    the independent reference for the incremental one. */
module Resp {
  import opened Decimal

  const INT_MAX := 0x7fff_ffff

  datatype Reply =
    | Null
    | Simple(text: string)
    | Error(text: string)
    | Bulk(text: string)
    | Integer(value: int)
    | Array(rows: seq<Reply>)

  /** What makes the parser throw a `redis_error`; `Undefined` is where the C++ code runs into
      signed overflow or an index outside the buffer, which no exception reports. */
  datatype Fault = InvalidType | InvalidCharacter | WrongEnding | Undefined

  const CRLF := "\r\n"

  // ----- Lines and headers -----------------------------------------------------------------

  predicate CrlfAt(s: string, k: int) {
    0 <= k && k + 1 < |s| && s[k] == '\r' && s[k + 1] == '\n'
  }

  function FindFrom(s: string, i: nat): (k: nat)
    requires i <= |s|
    ensures i <= k <= |s|
    ensures k < |s| ==> CrlfAt(s, k)
    ensures forall j | i <= j < k :: !CrlfAt(s, j)
    decreases |s| - i
  {
    if i == |s| || CrlfAt(s, i) then i else FindFrom(s, i + 1)
  }

  /** `buffer.find("\r\n")`, with |s| for npos. */
  function FindCrlf(s: string): (k: nat)
    ensures k <= |s|
    ensures k < |s| ==> CrlfAt(s, k)
    ensures forall j | 0 <= j < k :: !CrlfAt(s, j)
  {
    FindFrom(s, 0)
  }

  lemma FindCrlfIn(s: string, k: nat)
    requires CrlfAt(s, k) && forall j | 0 <= j < k :: !CrlfAt(s, j)
    ensures FindCrlf(s) == k
  {
  }

  /** Bytes that arrive later never move the first CRLF of a buffer. */
  lemma FindCrlfExtend(x: string, y: string)
    requires FindCrlf(x) < |x|
    ensures FindCrlf(x + y) == FindCrlf(x)
  {
    var k := FindCrlf(x);
    forall j | 0 <= j < k ensures !CrlfAt(x + y, j) {
      assert !CrlfAt(x, j);
    }
    FindCrlfIn(x + y, k);
  }

  datatype Fetched = NotYet | Corrupt(fault: Fault) | Fetched(text: string, rest: string)

  /** The bytes before the first CRLF, and the bytes after it. */
  function ReadLine(buf: string): (l: Fetched)
    ensures !l.Corrupt?
    ensures l.Fetched? ==> |l.rest| + 2 <= |buf|
  {
    var k := FindCrlf(buf);
    if k == |buf| then NotYet else Fetched(buf[..k], buf[k + 2..])
  }

  lemma ReadLineExtend(x: string, y: string)
    ensures var l := ReadLine(x); l.Fetched? ==> ReadLine(x + y) == Fetched(l.text, l.rest + y)
  {
    var k := FindCrlf(x);
    if k < |x| {
      FindCrlfExtend(x, y);
      assert (x + y)[..k] == x[..k];
      assert (x + y)[k + 2..] == x[k + 2..] + y;
    }
  }

  datatype Header = NoHeader | BadHeader(fault: Fault) | GoodHeader(n: int, rest: string)

  /** One run of `integer_builder` over a buffer. */
  function ReadHeader(buf: string): (h: Header)
    ensures h.GoodHeader? ==> |h.rest| + 2 <= |buf|
  {
    match ReadLine(buf)
    case Fetched(line, rest) =>
      (match ReadInteger(line)
       case Number(n) => GoodHeader(n, rest)
       case NotANumber => BadHeader(InvalidCharacter)
       case Overflow => BadHeader(Undefined))
    case _ => NoHeader
  }

  lemma ReadHeaderExtend(x: string, y: string)
    ensures var h := ReadHeader(x);
            match h
            case NoHeader => true
            case BadHeader(_) => ReadHeader(x + y) == h
            case GoodHeader(n, rest) => ReadHeader(x + y) == GoodHeader(n, rest + y)
  {
    ReadLineExtend(x, y);
  }

  /** A printed count in front of a CRLF reads back as that count. */
  lemma ReadPrinted(n: int, t: string)
    ensures ReadHeader(ToString(n) + CRLF + t) ==
             if -INT64_MAX <= n <= INT64_MAX then GoodHeader(n, t) else BadHeader(Undefined)
  {
    var line := ToString(n);
    var s := line + CRLF + t;
    PrintedHasNoCr(n);
    PrintThenRead(n);
    forall j | 0 <= j < |line| ensures !CrlfAt(s, j) {
      assert s[j] == line[j];
    }
    assert CrlfAt(s, |line|);
    FindCrlfIn(s, |line|);
    assert s[..|line|] == line;
    assert s[|line| + 2..] == t;
  }

  /** `(int) m_int_builder.get_integer()`: the low 32 bits, as a signed number. */
  function Narrow(n: int): (r: int)
    ensures -INT_MAX - 1 <= r <= INT_MAX
    ensures -INT_MAX - 1 <= n <= INT_MAX ==> r == n
  {
    (n + 0x8000_0000) % 0x1_0000_0000 - 0x8000_0000
  }

  /** `bulk_string_builder::fetch_str` for an `int` size. The comparison is made in `size_t`, so a
      size of -2 asks for 0 bytes and indexes before the buffer, and any other negative size asks
      for more bytes than there are; the index and the erased length are computed in `int`. */
  function FetchBody(size: int, buf: string): (r: Fetched)
    ensures r.Fetched? ==> |r.rest| + 2 <= |buf|
  {
    if size < 0 then (if size == -2 then Corrupt(Undefined) else NotYet)
    else if |buf| < size + 2 then NotYet
    else if buf[size] != '\r' then Corrupt(WrongEnding)
    else if size + 1 > INT_MAX then Corrupt(Undefined)
    else if buf[size + 1] != '\n' then Corrupt(WrongEnding)
    else if size + 2 > INT_MAX then Corrupt(Undefined)
    else Fetched(buf[..size], buf[size + 2..])
  }

  lemma FetchBodyExtend(size: int, x: string, y: string)
    ensures var f := FetchBody(size, x);
            match f
            case NotYet => true
            case Corrupt(_) => FetchBody(size, x + y) == f
            case Fetched(text, rest) => FetchBody(size, x + y) == Fetched(text, rest + y)
  {
    if FetchBody(size, x).Fetched? {
      assert (x + y)[..size] == x[..size];
      assert (x + y)[size + 2..] == x[size + 2..] + y;
    }
  }

  predicate IsType(c: char) {
    c == '+' || c == '-' || c == ':' || c == '$' || c == '*'
  }

  // ----- One-shot recursive descent --------------------------------------------------------

  datatype Verdict = Done(reply: Reply, rest: string) | Incomplete | Failed(fault: Fault)
  datatype RowsVerdict = RowsDone(rows: seq<Reply>, rest: string) | RowsIncomplete | RowsFailed(fault: Fault)

  /** The first reply in `s`, if `s` holds a whole one. */
  function Parse(s: string): (v: Verdict)
    ensures v.Done? ==> |v.rest| < |s|
    decreases |s|, 0
  {
    if s == "" then Incomplete
    else
      match s[0]
      case '+' => ParseText(ReadLine(s[1..]), false)
      case '-' => ParseText(ReadLine(s[1..]), true)
      case ':' => ParseInteger(ReadHeader(s[1..]))
      case '$' => ParseBulk(ReadHeader(s[1..]))
      case '*' =>
        (match ReadHeader(s[1..])
         case NoHeader => Incomplete
         case BadHeader(f) => Failed(f)
         case GoodHeader(n, rest) => if n < 0 then Done(Null, rest) else AsArray(ParseRows(n, rest)))
      case _ => Failed(InvalidType)
  }

  function AsArray(v: RowsVerdict): Verdict {
    match v
    case RowsDone(rows, left) => Done(Array(rows), left)
    case RowsIncomplete => Incomplete
    case RowsFailed(f) => Failed(f)
  }

  function ParseRows(n: nat, s: string): (v: RowsVerdict)
    ensures v.RowsDone? ==> |v.rest| <= |s| && |v.rows| == n
    decreases |s|, 1
  {
    if n == 0 then RowsDone([], s)
    else
      match Parse(s)
      case Incomplete => RowsIncomplete
      case Failed(f) => RowsFailed(f)
      case Done(r, rest) => ConsRow(r, ParseRows(n - 1, rest))
  }

  function ConsRow(r: Reply, v: RowsVerdict): RowsVerdict {
    if v.RowsDone? then RowsDone([r] + v.rows, v.rest) else v
  }

  function ParseText(line: Fetched, isError: bool): Verdict {
    match line
    case NotYet => Incomplete
    case Corrupt(f) => Failed(f)
    case Fetched(text, rest) => Done(if isError then Error(text) else Simple(text), rest)
  }

  function ParseInteger(h: Header): Verdict {
    match h
    case NoHeader => Incomplete
    case BadHeader(f) => Failed(f)
    case GoodHeader(n, rest) => Done(Integer(n), rest)
  }

  function ParseBulk(h: Header): Verdict {
    match h
    case NoHeader => Incomplete
    case BadHeader(f) => Failed(f)
    case GoodHeader(n, rest) =>
      if Narrow(n) == -1 then Done(Null, rest)
      else
        match FetchBody(Narrow(n), rest)
        case NotYet => Incomplete
        case Corrupt(f) => Failed(f)
        case Fetched(text, left) => Done(Bulk(text), left)
  }

  /** A whole stream: every complete reply in order, then either the bytes of an unfinished one or
      the fault that stops the parser. */
  datatype Stream = Partial(replies: seq<Reply>, tail: string) | Malformed(replies: seq<Reply>, fault: Fault)

  function Cons(r: Reply, s: Stream): Stream {
    match s
    case Partial(rs, tail) => Partial([r] + rs, tail)
    case Malformed(rs, f) => Malformed([r] + rs, f)
  }

  function ParseStream(s: string): Stream
    decreases |s|
  {
    match Parse(s)
    case Incomplete => Partial([], s)
    case Failed(f) => Malformed([], f)
    case Done(r, rest) => Cons(r, ParseStream(rest))
  }

  // ----- Encoding --------------------------------------------------------------------------

  function TypeByte(r: Reply): (c: char)
    ensures IsType(c)
  {
    match r
    case Simple(_) => '+'
    case Error(_) => '-'
    case Integer(_) => ':'
    case Array(_) => '*'
    case _ => '$'
  }

  function Encode(r: Reply): (s: string)
    ensures s != ""
    decreases r, 1
  {
    [TypeByte(r)] + Payload(r)
  }

  /** An encoding without its type byte; a null is written as the null bulk string. */
  function Payload(r: Reply): string
    decreases r, 0
  {
    match r
    case Null => ToString(-1) + CRLF
    case Simple(text) => text + CRLF
    case Error(text) => text + CRLF
    case Integer(n) => ToString(n) + CRLF
    case Bulk(text) => ToString(|text|) + CRLF + (text + CRLF)
    case Array(rows) => ToString(|rows|) + CRLF + EncodeAll(rows)
  }

  function EncodeAll(rs: seq<Reply>): string
    decreases rs
  {
    if rs == [] then "" else Encode(rs[0]) + EncodeAll(rs[1..])
  }

  predicate CrlfFree(s: string) {
    forall k | 0 <= k < |s| :: !CrlfAt(s, k)
  }

  /** The replies whose encoding this library can read back. */
  predicate Encodable(r: Reply) {
    match r
    case Null => true
    case Simple(text) => CrlfFree(text)
    case Error(text) => CrlfFree(text)
    case Integer(n) => -INT64_MAX <= n <= INT64_MAX
    case Bulk(text) => |text| <= INT_MAX - 2
    case Array(rows) => |rows| <= INT64_MAX && forall i | 0 <= i < |rows| :: Encodable(rows[i])
  }

  lemma {:induction false} EncodeAllConcat(a: seq<Reply>, b: seq<Reply>)
    ensures EncodeAll(a + b) == EncodeAll(a) + EncodeAll(b)
  {
    if a == [] {
      assert a + b == b;
    } else {
      assert (a + b)[1..] == a[1..] + b;
      EncodeAllConcat(a[1..], b);
    }
  }
}
