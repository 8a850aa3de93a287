/** The builders as the objects they are: fields filled in stages, and a buffer erased in place.
    Each `Feed` (the source's `operator<<`) is proved to do what `Suspended.Resume` says. */
module Builders {
  import opened Wrappers
  import opened Decimal
  import opened Resp
  import opened Suspended

  /** A `std::string&` that callers share. */
  class Buffer {
    var bytes: string

    constructor (bytes: string)
      ensures this.bytes == bytes
    {
      this.bytes := bytes;
    }
  }

  /** The abstract value of a builder object. */
  datatype Phase = Waiting(state: Suspended) | Built(reply: Reply)

  /** What feeding a builder in phase `p` has to lead to. */
  function Due(p: Phase, bytes: string): Outcome {
    match p
    case Waiting(b) => Resume(b, bytes)
    case Built(r) => Ready(r, bytes)
  }

  /** What it did lead to. After a throw nothing is said about the builder. */
  function Seen(thrown: Option<Fault>, p: Phase, bytes: string): Outcome {
    match thrown
    case Some(f) => Thrown(f)
    case None => if p.Built? then Ready(p.reply, bytes) else Pending(p.state, bytes)
  }

  class IntegerBuilder {
    var nbr: int
    var negativeMultiplicator: int
    var ready: bool
    var reply: Reply

    ghost predicate Valid()
      reads this
    {
      && 0 <= nbr <= INT64_MAX
      && (negativeMultiplicator == 1 || negativeMultiplicator == -1)
      && (!ready ==> nbr == 0 && negativeMultiplicator == 1)
      && (ready ==> reply == Integer(GetInteger()))
    }

    function Phase(): Phase
      reads this
    {
      if ready then Built(reply) else Waiting(AwaitInteger)
    }

    constructor ()
      ensures Valid() && Phase() == Waiting(AwaitInteger)
    {
      nbr, negativeMultiplicator, ready, reply := 0, 1, false, Null;
    }

    function GetInteger(): int
      reads this
    {
      negativeMultiplicator * nbr
    }

    method Feed(buffer: Buffer) returns (thrown: Option<Fault>)
      requires Valid()
      modifies this, buffer
      ensures thrown == None ==> Valid()
      ensures Seen(thrown, Phase(), buffer.bytes) == Due(old(Phase()), old(buffer.bytes))
      ensures thrown.Some? ==> buffer.bytes == old(buffer.bytes)
    {
      if ready {
        return None;
      }
      var end := FindCrlf(buffer.bytes);
      if end == |buffer.bytes| {
        return None;
      }
      ghost var line := buffer.bytes[..end];
      var i := 0;
      while i < end
        invariant 0 <= i <= end && buffer.bytes == old(buffer.bytes) && !ready
        invariant 0 <= nbr <= INT64_MAX
        invariant if i == 0 then nbr == 0 && negativeMultiplicator == 1
                  else negativeMultiplicator == Sign(line) && Accumulate(0, Body(line)) == Accumulate(nbr, line[i..])
      {
        var c := buffer.bytes[i];
        assert line[i] == c && line[i..][0] == c && line[i..][1..] == line[i + 1..];
        assert i == 0 ==> line[i..] == line;
        if i == 0 && negativeMultiplicator == 1 && c == '-' {
          negativeMultiplicator := -1;
        } else if !IsDigit(c) {
          return Some(InvalidCharacter);
        } else if 10 * nbr + DigitOf(c) > INT64_MAX {
          return Some(Undefined);
        } else {
          nbr := 10 * nbr;
          nbr := nbr + DigitOf(c);
        }
        i := i + 1;
      }
      assert line[end..] == "";
      buffer.bytes := buffer.bytes[end + 2..];
      reply := Integer(negativeMultiplicator * nbr);
      ready := true;
      return None;
    }
  }

  class SimpleStringBuilder {
    var str: string
    var ready: bool
    var reply: Reply

    ghost predicate Valid()
      reads this
    {
      ready ==> reply == Simple(str)
    }

    function Phase(): Phase
      reads this
    {
      if ready then Built(reply) else Waiting(AwaitSimple)
    }

    constructor ()
      ensures Valid() && Phase() == Waiting(AwaitSimple)
    {
      str, ready, reply := "", false, Null;
    }

    method Feed(buffer: Buffer)
      requires Valid()
      modifies this, buffer
      ensures Valid()
      ensures Seen(None, Phase(), buffer.bytes) == Due(old(Phase()), old(buffer.bytes))
    {
      if ready {
        return;
      }
      var end := FindCrlf(buffer.bytes);
      if end == |buffer.bytes| {
        return;
      }
      str := buffer.bytes[..end];
      reply := Simple(str);
      buffer.bytes := buffer.bytes[end + 2..];
      ready := true;
    }
  }

  class ErrorBuilder {
    const stringBuilder: SimpleStringBuilder
    var reply: Reply

    ghost predicate Valid()
      reads this, stringBuilder
    {
      stringBuilder.Valid() && (stringBuilder.ready ==> reply == Error(stringBuilder.str))
    }

    function Phase(): Phase
      reads this, stringBuilder
    {
      if stringBuilder.ready then Built(reply) else Waiting(AwaitError)
    }

    constructor ()
      ensures Valid() && Phase() == Waiting(AwaitError) && fresh(stringBuilder)
    {
      stringBuilder := new SimpleStringBuilder();
      reply := Null;
    }

    method Feed(buffer: Buffer)
      requires Valid()
      modifies this, stringBuilder, buffer
      ensures Valid()
      ensures Seen(None, Phase(), buffer.bytes) == Due(old(Phase()), old(buffer.bytes))
    {
      stringBuilder.Feed(buffer);
      if stringBuilder.ready {
        reply := Error(stringBuilder.str);
      }
    }
  }

  class BulkStringBuilder {
    const intBuilder: IntegerBuilder
    var strSize: int
    var str: string
    var isNull: bool
    var ready: bool
    var reply: Reply

    ghost predicate Valid()
      reads this, intBuilder
    {
      && intBuilder.Valid()
      && (!intBuilder.ready ==> !ready)
      && (intBuilder.ready ==> strSize == Narrow(intBuilder.GetInteger()))
      && (ready ==> reply == if isNull then Null else Bulk(str))
      && (!ready ==> !isNull)
    }

    function Phase(): Phase
      reads this, intBuilder
    {
      if ready then Built(reply)
      else if intBuilder.ready then Waiting(AwaitBulk(strSize))
      else Waiting(AwaitBulkSize)
    }

    constructor ()
      ensures Valid() && Phase() == Waiting(AwaitBulkSize) && fresh(intBuilder)
    {
      intBuilder := new IntegerBuilder();
      strSize, str, isNull, ready, reply := 0, "", false, false, Null;
    }

    method BuildReply()
      modifies this
      ensures ready && reply == (if isNull then Null else Bulk(str))
      ensures isNull == old(isNull) && str == old(str) && strSize == old(strSize)
    {
      if isNull {
        reply := Null;
      } else {
        reply := Bulk(str);
      }
      ready := true;
    }

    method FetchSize(buffer: Buffer) returns (thrown: Option<Fault>, fetched: bool)
      requires Valid() && !ready
      modifies this, intBuilder, buffer
      ensures thrown == None ==> Valid() && fetched == intBuilder.ready
      ensures old(intBuilder.ready) ==> thrown == None && Phase() == old(Phase()) && buffer.bytes == old(buffer.bytes)
      ensures !old(intBuilder.ready) ==>
                match ReadHeader(old(buffer.bytes))
                case NoHeader => thrown == None && Phase() == Waiting(AwaitBulkSize) && buffer.bytes == old(buffer.bytes)
                case BadHeader(f) => thrown == Some(f)
                case GoodHeader(n, rest) =>
                  && thrown == None && buffer.bytes == rest
                  && Phase() == if Narrow(n) == -1 then Built(Null) else Waiting(AwaitBulk(Narrow(n)))
    {
      if intBuilder.ready {
        return None, true;
      }
      thrown := intBuilder.Feed(buffer);
      if thrown.Some? || !intBuilder.ready {
        return thrown, false;
      }
      strSize := Narrow(intBuilder.GetInteger());
      if strSize == -1 {
        isNull := true;
        BuildReply();
      }
      return None, true;
    }

    method FetchStr(buffer: Buffer) returns (thrown: Option<Fault>)
      requires Valid() && !ready && intBuilder.ready
      modifies this, buffer
      ensures thrown == None ==> Valid()
      ensures Seen(thrown, Phase(), buffer.bytes) == ResumeBulk(old(strSize), old(buffer.bytes))
    {
      // The comparison is made in size_t: -2 wraps to "0 bytes needed", the other negative sizes
      // to more bytes than a string can hold.
      if strSize < 0 {
        return if strSize == -2 then Some(Undefined) else None;
      }
      if |buffer.bytes| < strSize + 2 {
        return None;
      }
      if buffer.bytes[strSize] != '\r' {
        return Some(WrongEnding);
      }
      if strSize + 1 > INT_MAX {
        return Some(Undefined);
      }
      if buffer.bytes[strSize + 1] != '\n' {
        return Some(WrongEnding);
      }
      if strSize + 2 > INT_MAX {
        return Some(Undefined);
      }
      str := buffer.bytes[..strSize];
      buffer.bytes := buffer.bytes[strSize + 2..];
      BuildReply();
      return None;
    }

    method Feed(buffer: Buffer) returns (thrown: Option<Fault>)
      requires Valid()
      modifies this, intBuilder, buffer
      ensures thrown == None ==> Valid()
      ensures Seen(thrown, Phase(), buffer.bytes) == Due(old(Phase()), old(buffer.bytes))
    {
      if ready {
        return None;
      }
      var fetched;
      thrown, fetched := FetchSize(buffer);
      if thrown.Some? || !fetched || ready {
        return thrown;
      }
      thrown := FetchStr(buffer);
    }
  }
}
