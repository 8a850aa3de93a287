/** Commands, how they are printed on the wire, and how a pipelined buffer is read back. */
module Commands {
  import opened Wrappers
  import opened Decimal
  import opened Resp
  import opened Suspended
  import opened Streams
  import opened RoundTrip

  /** A command name and its arguments; any bytes are allowed in either. */
  type Command = seq<string>

  function Bulks(c: Command): (rs: seq<Reply>)
    ensures |rs| == |c| && forall i | 0 <= i < |c| :: rs[i] == Bulk(c[i])
  {
    if c == [] then [] else [Bulk(c[0])] + Bulks(c[1..])
  }

  /** A command is printed as an array of bulk strings. */
  function AsReply(c: Command): Reply {
    Array(Bulks(c))
  }

  function AsReplies(cs: seq<Command>): (rs: seq<Reply>)
    ensures |rs| == |cs| && forall i | 0 <= i < |cs| :: rs[i] == AsReply(cs[i])
  {
    if cs == [] then [] else [AsReply(cs[0])] + AsReplies(cs[1..])
  }

  function EncodeCommand(c: Command): string {
    Encode(AsReply(c))
  }

  function EncodeCommands(cs: seq<Command>): string {
    EncodeAll(AsReplies(cs))
  }

  /** The commands a RESP2 reader can take in: each argument below 2^31 - 2 bytes. */
  predicate Sendable(c: Command) {
    Encodable(AsReply(c))
  }

  predicate AllSendable(cs: seq<Command>) {
    forall i | 0 <= i < |cs| :: Sendable(cs[i])
  }

  /** `build_command`, for any arguments: also those that contain CRLF or look like a header. */
  method BuildCommand(redisCmd: Command) returns (cmd: string)
    ensures cmd == EncodeCommand(redisCmd)
  {
    cmd := "*" + ToString(|redisCmd|) + "\r\n";
    ghost var head := cmd;
    ghost var parts := Bulks(redisCmd);
    assert head + EncodeAll([]) == head;
    for i := 0 to |redisCmd|
      invariant cmd == head + EncodeAll(parts[..i])
    {
      var part := redisCmd[i];
      ghost var before := parts[..i];
      cmd := cmd + ("$" + ToString(|part|) + "\r\n" + part + "\r\n");
      EncodeBulk(part);
      EncodeOneMore(before, parts[i]);
      assert parts[..i + 1] == before + [parts[i]];
      Associate(head, EncodeAll(before), Encode(parts[i]));
    }
    assert parts[..|redisCmd|] == parts;
    assert cmd == ['*'] + (ToString(|redisCmd|) + CRLF + EncodeAll(parts));
    assert Encode(Array(parts)) == ['*'] + Payload(Array(parts));
  }

  lemma EncodeBulk(part: string)
    ensures Encode(Bulk(part)) == "$" + ToString(|part|) + "\r\n" + part + "\r\n"
  {
    assert "$" + ToString(|part|) + "\r\n" + part + "\r\n" == ['$'] + (ToString(|part|) + CRLF + (part + CRLF));
  }

  lemma EncodeOneMore(rs: seq<Reply>, r: Reply)
    ensures EncodeAll(rs + [r]) == EncodeAll(rs) + Encode(r)
  {
    EncodeAllConcat(rs, [r]);
    assert EncodeAll([r]) == Encode(r) + "";
  }

  lemma {:induction false} AsRepliesConcat(a: seq<Command>, b: seq<Command>)
    ensures AsReplies(a + b) == AsReplies(a) + AsReplies(b)
  {
    if a == [] {
      assert a + b == b;
    } else {
      assert (a + b)[1..] == a[1..] + b;
      AsRepliesConcat(a[1..], b);
    }
  }

  lemma EncodeCommandsConcat(a: seq<Command>, b: seq<Command>)
    ensures EncodeCommands(a + b) == EncodeCommands(a) + EncodeCommands(b)
  {
    AsRepliesConcat(a, b);
    EncodeAllConcat(AsReplies(a), AsReplies(b));
  }

  lemma EncodeOneCommand(c: Command)
    ensures EncodeCommands([c]) == EncodeCommand(c)
  {
    assert AsReplies([c]) == [AsReply(c)];
    EncodeOneMore([], AsReply(c));
    assert "" + Encode(AsReply(c)) == Encode(AsReply(c));
  }

  // ----- Reading back ----------------------------------------------------------------------

  function TextsOf(rs: seq<Reply>): Option<Command> {
    if rs == [] then Some([])
    else
      match TextsOf(rs[1..])
      case Some(rest) => if rs[0].Bulk? then Some([rs[0].text] + rest) else None
      case None => None
  }

  /** The command that an array of bulk strings spells. */
  function CommandOf(r: Reply): Option<Command> {
    if r.Array? then TextsOf(r.rows) else None
  }

  function CommandsIn(rs: seq<Reply>): Option<seq<Command>> {
    if rs == [] then Some([])
    else
      match (CommandOf(rs[0]), CommandsIn(rs[1..]))
      case (Some(c), Some(rest)) => Some([c] + rest)
      case _ => None
  }

  /** The commands in a buffer, read with the library's own parser: none if bytes are left over. */
  function DecodeCommands(s: string): Option<seq<Command>> {
    match RunBuffer(None, s)
    case Running(rs, current, buffer) => if current == None && buffer == "" then CommandsIn(rs) else None
    case Stopped(_, _) => None
  }

  lemma {:induction false} TextsOfBulks(c: Command)
    ensures TextsOf(Bulks(c)) == Some(c)
  {
    if c != [] {
      TextsOfBulks(c[1..]);
      var rest := Bulks(c[1..]);
      assert Bulks(c) == [Bulk(c[0])] + rest;
      assert ([Bulk(c[0])] + rest)[1..] == rest;
      assert [c[0]] + c[1..] == c;
    }
  }

  lemma {:induction false} CommandsInAsReplies(cs: seq<Command>)
    ensures CommandsIn(AsReplies(cs)) == Some(cs)
  {
    if cs != [] {
      TextsOfBulks(cs[0]);
      CommandsInAsReplies(cs[1..]);
      assert AsReplies(cs)[1..] == AsReplies(cs[1..]);
      assert [cs[0]] + cs[1..] == cs;
    }
  }

  /** Command round trip: a pipelined buffer reads back as exactly the commands written to it. */
  lemma CommandsRoundTrip(cs: seq<Command>)
    requires AllSendable(cs)
    ensures RunBuffer(None, EncodeCommands(cs)) == Running(AsReplies(cs), None, "")
    ensures DecodeCommands(EncodeCommands(cs)) == Some(cs)
  {
    var rs := AsReplies(cs);
    DriverRoundTrip(rs, "");
    assert EncodeAll(rs) + "" == EncodeAll(rs);
    assert rs + [] == rs;
    CommandsInAsReplies(cs);
  }

  /** Unique decodability: two lists of commands with the same bytes are the same list. */
  lemma FramingIsUnique(a: seq<Command>, b: seq<Command>)
    requires AllSendable(a) && AllSendable(b) && EncodeCommands(a) == EncodeCommands(b)
    ensures a == b
  {
    CommandsRoundTrip(a);
    CommandsRoundTrip(b);
  }

  /** The same for any chunking of the pipelined bytes on the reader's side. */
  lemma CommandsSurviveChunking(cs: seq<Command>, chunks: seq<string>)
    requires AllSendable(cs) && Concat(chunks) == EncodeCommands(cs)
    ensures Feed(Idle, chunks) == Running(AsReplies(cs), None, "")
  {
    ChunkingIndependence(chunks, chunks);
    CommandsRoundTrip(cs);
  }

  /** A reader that finds one whole command at the front of a prefix of a pipelined buffer finds the
      first command, and leaves the others. */
  lemma FirstCommand(x: string, y: string, cs: seq<Command>)
    requires AllSendable(cs) && x + y == EncodeCommands(cs)
    requires Parse(x).Done?
    ensures cs != [] && Parse(x).reply == AsReply(cs[0]) && Parse(x).rest + y == EncodeCommands(cs[1..])
  {
    ParseExtend(x, y);
    assert EncodeCommands([]) == "";
    assert |x + y| > 0;
    var more := EncodeCommands(cs[1..]);
    assert AsReplies(cs)[1..] == AsReplies(cs[1..]);
    ParseInvertsEncode(AsReply(cs[0]), more);
  }

  lemma ParseExtend(x: string, y: string)
    requires Parse(x).Done?
    ensures Parse(x + y) == Done(Parse(x).reply, Parse(x).rest + y)
  {
    AdvanceRefinesParse(x);
    AdvanceRefinesParse(x + y);
    AdvanceSplit(None, x, y);
  }
}
