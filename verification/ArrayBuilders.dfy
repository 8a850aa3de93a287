/** `array_builder` and the tree of builders it owns. `Ref` stands for the source's
    `std::unique_ptr<builder_iface>`: null, or one of the five concrete builders. */
module ArrayBuilders {
  import opened Wrappers
  import opened Resp
  import opened Suspended
  import opened Builders

  datatype Ref =
    | Nothing
    | OfSimple(s: SimpleStringBuilder)
    | OfError(e: ErrorBuilder)
    | OfInteger(i: IntegerBuilder)
    | OfBulk(b: BulkStringBuilder)
    | OfArray(a: ArrayBuilder)

  ghost function Anchor(r: Ref): set<object> {
    if r.OfArray? then {r.a} else {}
  }

  /** The objects of a builder tree. */
  ghost function Footprint(r: Ref): set<object>
    reads Anchor(r)
  {
    match r
    case Nothing => {}
    case OfSimple(s) => {s}
    case OfError(e) => {e, e.stringBuilder}
    case OfInteger(i) => {i}
    case OfBulk(b) => {b, b.intBuilder}
    case OfArray(a) => a.Repr
  }

  ghost predicate ValidRef(r: Ref)
    reads Anchor(r), Footprint(r)
    decreases Footprint(r), 1
  {
    match r
    case Nothing => true
    case OfSimple(s) => s.Valid()
    case OfError(e) => e.Valid()
    case OfInteger(i) => i.Valid()
    case OfBulk(b) => b.Valid()
    case OfArray(a) => a in a.Repr && a.Valid()
  }

  ghost function PhaseOf(r: Ref): Phase
    requires r != Nothing
    reads Anchor(r), Footprint(r)
  {
    match r
    case OfSimple(s) => s.Phase()
    case OfError(e) => e.Phase()
    case OfInteger(i) => i.Phase()
    case OfBulk(b) => b.Phase()
    case OfArray(a) => a.phase
  }

  /** The state of a retained builder; an empty reference is no state. */
  ghost function Retained(r: Ref): Option<Suspended>
    reads Anchor(r), Footprint(r)
  {
    if r == Nothing then None else
      match PhaseOf(r)
      case Waiting(b) => Some(b)
      case Built(_) => None
  }

  /** A retained builder is never ready. */
  ghost predicate Retainable(r: Ref)
    reads Anchor(r), Footprint(r)
    decreases Footprint(r), 2
  {
    ValidRef(r) && (r != Nothing ==> PhaseOf(r).Waiting? && WellFormed(PhaseOf(r).state))
  }

  /** `create_builder`, which throws on an unknown type byte. */
  method CreateBuilder(id: char) returns (thrown: Option<Fault>, r: Ref)
    ensures thrown == if IsType(id) then None else Some(InvalidType)
    ensures IsType(id) ==>
              && r != Nothing && ValidRef(r) && PhaseOf(r) == Waiting(Create(id))
              && fresh(Footprint(r))
  {
    thrown := None;
    match id
    case '+' => var s := new SimpleStringBuilder(); r := OfSimple(s);
    case '-' => var e := new ErrorBuilder(); r := OfError(e);
    case ':' => var i := new IntegerBuilder(); r := OfInteger(i);
    case '$' => var b := new BulkStringBuilder(); r := OfBulk(b);
    case '*' => var a := new ArrayBuilder(); r := OfArray(a);
    case _ => thrown, r := Some(InvalidType), Nothing;
  }

  /** The virtual call `*builder << buffer`. */
  method FeedRef(r: Ref, buffer: Buffer) returns (thrown: Option<Fault>)
    requires r != Nothing && ValidRef(r) && buffer !in Footprint(r)
    requires PhaseOf(r).Waiting? ==> WellFormed(PhaseOf(r).state)
    modifies Footprint(r), buffer
    ensures thrown == None ==> ValidRef(r) && buffer !in Footprint(r) && fresh(Footprint(r) - old(Footprint(r)))
    ensures thrown == None ==> Seen(None, PhaseOf(r), buffer.bytes) == Due(old(PhaseOf(r)), old(buffer.bytes))
    ensures thrown.Some? ==> Due(old(PhaseOf(r)), old(buffer.bytes)) == Thrown(thrown.value)
    decreases |buffer.bytes|, Footprint(r), 2
  {
    thrown := None;
    match r
    case OfSimple(s) => s.Feed(buffer);
    case OfError(e) => e.Feed(buffer);
    case OfInteger(i) => thrown := i.Feed(buffer);
    case OfBulk(b) => thrown := b.Feed(buffer);
    case OfArray(a) => thrown := a.Feed(buffer);
  }

  method GetReply(r: Ref) returns (reply: Reply)
    requires r != Nothing && ValidRef(r) && PhaseOf(r).Built?
    ensures reply == PhaseOf(r).reply
  {
    match r
    case OfSimple(s) => reply := s.reply;
    case OfError(e) => reply := e.reply;
    case OfInteger(i) => reply := i.reply;
    case OfBulk(b) => reply := b.reply;
    case OfArray(a) => reply := a.reply;
  }

  method ReplyReady(r: Ref) returns (ready: bool)
    requires r != Nothing && ValidRef(r)
    ensures ready == PhaseOf(r).Built?
  {
    match r
    case OfSimple(s) => ready := s.ready;
    case OfError(e) => ready := e.stringBuilder.ready;
    case OfInteger(i) => ready := i.ready;
    case OfBulk(b) => ready := b.ready;
    case OfArray(a) => ready := a.ready;
  }

  /** Whether a row is complete, and the phase of an array that holds `rows` and has just fed its
      row builder to `o`. */
  function AfterRow(o: Outcome, count: int, rows: seq<Reply>): (r: (bool, Phase))
    requires |rows| < count
  {
    match o
    case Ready(r, _) =>
      (true, if |rows| + 1 == count then Built(Array(rows + [r])) else Waiting(AwaitRows(count, rows + [r], None)))
    case Pending(c, _) => (false, Waiting(AwaitRows(count, rows, Some(c))))
    case Thrown(_) => (false, Waiting(AwaitRows(count, rows, None)))
  }

  class ArrayBuilder {
    const intBuilder: IntegerBuilder
    var arraySize: int
    var current: Ref
    var ready: bool
    var reply: Reply
    ghost var phase: Phase
    ghost var Repr: set<object>

    ghost predicate Valid()
      reads this, Repr
      decreases Repr, 0
    {
      && this in Repr && intBuilder in Repr && intBuilder.Valid()
      && Anchor(current) <= Repr && Footprint(current) <= Repr - {this, intBuilder}
      && Retainable(current)
      && (ready ==> phase == Built(reply) && current == Nothing && intBuilder.ready)
      && (!ready ==> reply.Array?)
      && (!ready && !intBuilder.ready ==> phase == Waiting(AwaitArraySize) && current == Nothing && reply.rows == [])
      && (!ready && intBuilder.ready ==>
            && |reply.rows| < arraySize
            && phase == Waiting(AwaitRows(arraySize, reply.rows, Retained(current))))
    }

    constructor ()
      ensures Valid() && phase == Waiting(AwaitArraySize) && fresh(Repr)
    {
      var i := new IntegerBuilder();
      intBuilder, arraySize, current, ready, reply := i, 0, Nothing, false, Array([]);
      phase := Waiting(AwaitArraySize);
      Repr := {this, i};
    }

    method FetchArraySize(buffer: Buffer) returns (thrown: Option<Fault>, fetched: bool)
      requires Valid() && !ready && buffer !in Repr
      modifies this, intBuilder, buffer
      ensures Repr == old(Repr) && current == old(current)
      ensures thrown == None ==> Valid() && fetched == intBuilder.ready
      ensures old(intBuilder.ready) ==> thrown == None && phase == old(phase) && buffer.bytes == old(buffer.bytes)
      ensures !old(intBuilder.ready) ==>
                match ReadHeader(old(buffer.bytes))
                case NoHeader => thrown == None && phase == old(phase) && buffer.bytes == old(buffer.bytes)
                case BadHeader(f) => thrown == Some(f)
                case GoodHeader(n, rest) =>
                  && thrown == None && buffer.bytes == rest
                  && phase == if n < 0 then Built(Null) else if n == 0 then Built(Array([])) else Waiting(AwaitRows(n, [], None))
    {
      if intBuilder.ready {
        return None, true;
      }
      thrown := intBuilder.Feed(buffer);
      if thrown.Some? || !intBuilder.ready {
        return thrown, false;
      }
      var size := intBuilder.GetInteger();
      if size < 0 {
        reply := Null;
        ready := true;
      } else if size == 0 {
        ready := true;
      }
      arraySize := size;
      phase := if ready then Built(reply) else Waiting(AwaitRows(size, [], None));
      return None, true;
    }

    /** One row: what is due is one `Advance` of the row in progress, then the next state. */
    method BuildRow(buffer: Buffer) returns (thrown: Option<Fault>, more: bool)
      requires Valid() && !ready && intBuilder.ready && buffer !in Repr && buffer.bytes != ""
      modifies Repr, buffer
      ensures thrown == None ==> Valid() && buffer !in Repr && fresh(Repr - old(Repr)) && intBuilder.ready
      ensures var o := Advance(old(Retained(current)), old(buffer.bytes));
              if o.Thrown? then thrown == Some(o.fault)
              else thrown == None && buffer.bytes == o.rest && (more, phase) == AfterRow(o, old(arraySize), old(reply.rows))
      decreases |buffer.bytes|, Repr, 0
    {
      ghost var row, bytes := Retained(current), buffer.bytes;
      AdvanceKeepsWellFormed(row, bytes);
      thrown := EnsureRow(buffer);
      if thrown.Some? {
        return thrown, false;
      }
      thrown := FeedRef(current, buffer);
      if thrown.Some? {
        return thrown, false;
      }
      more := SettleRow(Advance(row, bytes));
    }

    /** The part of `build_row` after the row builder has consumed its bytes, with outcome `o`. */
    method SettleRow(ghost o: Outcome) returns (more: bool)
      requires Open() && current != Nothing && ValidRef(current)
      requires this !in Footprint(current) && intBuilder !in Footprint(current)
      requires !o.Thrown? && PhaseOf(current) == if o.Pending? then Waiting(o.state) else Built(o.reply)
      requires o.Pending? ==> WellFormed(o.state)
      modifies this
      ensures Valid() && intBuilder.ready && Repr <= old(Repr) + old(Footprint(current))
      ensures (more, phase) == AfterRow(o, old(arraySize), old(reply.rows))
    {
      more := ReplyReady(current);
      if more {
        var built := GetReply(current);
        StoreRow(built);
      } else {
        KeepRow();
      }
    }

    /** The part of `build_row` that creates the row builder from its type byte. */
    method EnsureRow(buffer: Buffer) returns (thrown: Option<Fault>)
      requires Valid() && !ready && intBuilder.ready && buffer !in Repr && buffer.bytes != ""
      modifies this, buffer
      ensures thrown == None ==> Valid() && !ready && buffer !in Repr && fresh(Repr - old(Repr)) && current != Nothing
      ensures thrown == None ==> arraySize == old(arraySize) && reply == old(reply)
      ensures thrown == None ==> |buffer.bytes| < |old(buffer.bytes)| || (Repr == old(Repr) && buffer.bytes == old(buffer.bytes))
      ensures thrown == None ==> Due(PhaseOf(current), buffer.bytes) == Advance(old(Retained(current)), old(buffer.bytes))
      ensures thrown.Some? ==> Advance(old(Retained(current)), old(buffer.bytes)) == Thrown(thrown.value)
    {
      if current != Nothing {
        return None;
      }
      var created;
      thrown, created := CreateBuilder(buffer.bytes[0]);
      if thrown == None {
        current := created;
        Repr := Repr + Footprint(created);
        buffer.bytes := buffer.bytes[1..];
        phase := Waiting(AwaitRows(arraySize, reply.rows, Retained(current)));
      }
    }

    /** The fields of an array whose header is known and which still misses rows. */
    ghost predicate Open()
      reads this, Repr
    {
      && this in Repr && intBuilder in Repr && intBuilder.Valid() && intBuilder.ready
      && !ready && reply.Array? && |reply.rows| < arraySize
    }

    /** A finished row is appended, and the array is ready when it was the last one. */
    method StoreRow(row: Reply)
      requires Open()
      modifies this
      ensures Valid() && intBuilder.ready && Repr == old(Repr)
      ensures (true, phase) == AfterRow(Ready(row, ""), old(arraySize), old(reply.rows))
    {
      reply := Array(reply.rows + [row]);
      current := Nothing;
      if |reply.rows| == arraySize {
        ready := true;
      }
      phase := if ready then Built(reply) else Waiting(AwaitRows(arraySize, reply.rows, None));
    }

    /** An unfinished row stays where it is; only the ghost state follows it. */
    ghost method KeepRow()
      requires Open()
      requires current != Nothing && ValidRef(current) && Retainable(current)
      requires this !in Footprint(current) && intBuilder !in Footprint(current)
      modifies this
      ensures Valid() && intBuilder.ready && Repr == old(Repr) + old(Footprint(current))
      ensures phase == Waiting(AwaitRows(old(arraySize), old(reply.rows), Some(old(PhaseOf(current)).state)))
    {
      Repr := Repr + Footprint(current);
      phase := Waiting(AwaitRows(arraySize, reply.rows, Retained(current)));
    }

    method Feed(buffer: Buffer) returns (thrown: Option<Fault>)
      requires Valid() && buffer !in Repr
      modifies Repr, buffer
      ensures thrown == None ==> Valid() && buffer !in Repr && fresh(Repr - old(Repr))
      ensures thrown == None ==> Seen(None, phase, buffer.bytes) == Due(old(phase), old(buffer.bytes))
      ensures thrown.Some? ==> Due(old(phase), old(buffer.bytes)) == Thrown(thrown.value)
      decreases |buffer.bytes|, Repr, 1
    {
      if ready {
        return None;
      }
      var fetched;
      thrown, fetched := FetchArraySize(buffer);
      if thrown.Some? || !fetched {
        return thrown;
      }
      while |buffer.bytes| > 0 && !ready
        invariant Valid() && buffer !in Repr && fresh(Repr - old(Repr)) && intBuilder.ready
        invariant |buffer.bytes| < |old(buffer.bytes)| || (|buffer.bytes| == |old(buffer.bytes)| && Repr == old(Repr))
        invariant Due(phase, buffer.bytes) == Due(old(phase), old(buffer.bytes))
        decreases |buffer.bytes|
      {
        var more;
        thrown, more := BuildRow(buffer);
        if thrown.Some? || !more {
          return thrown;
        }
      }
      return None;
    }
  }
}
