/** `reply_builder`: the byte buffer, the builder tree in progress and the queue of built replies. */
module ReplyBuilders {
  import opened Wrappers
  import opened Resp
  import opened Suspended
  import opened Streams
  import opened Builders
  import opened ArrayBuilders

  lemma MoreInput(input: string, data: string, built: seq<Reply>, current: Option<Suspended>, buf: string)
    requires RunBuffer(None, input) == Running(built, current, buf)
    ensures RunBuffer(None, input + data) == Prepend(built, RunBuffer(current, buf + data))
  {
    RunSplit(None, input, data);
  }

  class ReplyBuilder {
    const buffer: Buffer
    var builder: Ref
    var availableReplies: seq<Reply>
    ghost var input: string        // every byte received since construction or the last reset
    ghost var built: seq<Reply>    // every reply built from them
    ghost var Repr: set<object>

    /** Whatever chunks the bytes came in, the tree, the buffer and the replies are those of one run
        over all of them. */
    ghost predicate Valid()
      reads this, Repr
    {
      && Shape()
      && RunBuffer(None, input) == Running(built, Retained(builder), buffer.bytes)
    }

    ghost predicate Shape()
      reads this, Repr
    {
      && this in Repr && buffer in Repr
      && Anchor(builder) <= Repr && Footprint(builder) <= Repr - {this, buffer}
      && Retainable(builder)
    }

    ghost function Current(): Option<Suspended>
      requires Shape()
      reads this, Repr
    {
      Retained(builder)
    }

    constructor ()
      ensures Valid() && fresh(Repr)
      ensures availableReplies == [] && input == "" && built == []
      ensures Current() == None && buffer.bytes == ""
    {
      var b := new Buffer("");
      buffer, builder, availableReplies := b, Nothing, [];
      input, built := "", [];
      Repr := {this, b};
    }

    /** One turn of the driver: whether a reply was built, and what is left to do. */
    method BuildReply() returns (thrown: Option<Fault>, more: bool)
      requires Shape()
      modifies Repr
      ensures input == old(input) && built == old(built)
      ensures thrown == None ==> Shape() && fresh(Repr - old(Repr))
      ensures old(buffer.bytes) == "" ==>
                thrown == None && !more && Current() == old(Current()) && buffer.bytes == "" && availableReplies == old(availableReplies)
      ensures old(buffer.bytes) != "" ==>
                match Advance(old(Current()), old(buffer.bytes))
                case Thrown(f) => thrown == Some(f) && availableReplies == old(availableReplies)
                case Pending(c, rest) =>
                  thrown == None && !more && Current() == Some(c) && buffer.bytes == rest && availableReplies == old(availableReplies)
                case Ready(r, rest) =>
                  thrown == None && more && Current() == None && buffer.bytes == rest && availableReplies == old(availableReplies) + [r]
    {
      if |buffer.bytes| == 0 {
        return None, false;
      }
      ghost var row, bytes := Retained(builder), buffer.bytes;
      AdvanceKeepsWellFormed(row, bytes);
      thrown := EnsureBuilder();
      if thrown.Some? {
        return thrown, false;
      }
      thrown := FeedRef(builder, buffer);
      if thrown.Some? {
        return thrown, false;
      }
      more := Settle(Advance(row, bytes));
    }

    method EnsureBuilder() returns (thrown: Option<Fault>)
      requires Shape() && buffer.bytes != ""
      modifies this, buffer
      ensures input == old(input) && built == old(built) && availableReplies == old(availableReplies)
      ensures thrown == None ==> Shape() && builder != Nothing && fresh(Repr - old(Repr))
      ensures thrown == None ==> Due(PhaseOf(builder), buffer.bytes) == Advance(old(Retained(builder)), old(buffer.bytes))
      ensures thrown.Some? ==> Advance(old(Retained(builder)), old(buffer.bytes)) == Thrown(thrown.value)
    {
      if builder != Nothing {
        return None;
      }
      var created;
      thrown, created := CreateBuilder(buffer.bytes[0]);
      if thrown == None {
        builder := created;
        Repr := Repr + Footprint(created);
        buffer.bytes := buffer.bytes[1..];
      }
    }

    method Settle(ghost o: Outcome) returns (more: bool)
      requires this in Repr && buffer in Repr && this !in Footprint(builder) && buffer !in Footprint(builder)
      requires builder != Nothing && ValidRef(builder)
      requires !o.Thrown? && PhaseOf(builder) == if o.Pending? then Waiting(o.state) else Built(o.reply)
      requires o.Pending? ==> WellFormed(o.state)
      modifies this
      ensures Shape() && Repr <= old(Repr) + old(Footprint(builder)) && input == old(input) && built == old(built)
      ensures more == o.Ready? && Current() == if o.Pending? then Some(o.state) else None
      ensures availableReplies == old(availableReplies) + if o.Ready? then [o.reply] else []
    {
      Repr := Repr + Footprint(builder);
      more := ReplyReady(builder);
      if more {
        var reply := GetReply(builder);
        availableReplies := availableReplies + [reply];
        builder := Nothing;
      }
    }

    /** The loop `while (build_reply());`. */
    method BuildReplies() returns (thrown: Option<Fault>)
      requires Shape()
      modifies Repr
      ensures input == old(input) && built == old(built)
      ensures match RunBuffer(old(Current()), old(buffer.bytes))
              case Running(rs, current, bytes) =>
                && thrown == None && Shape() && fresh(Repr - old(Repr))
                && availableReplies == old(availableReplies) + rs
                && Current() == current && buffer.bytes == bytes
              case Stopped(rs, f) => thrown == Some(f) && availableReplies == old(availableReplies) + rs
    {
      ghost var all, done: seq<Reply> := RunBuffer(Current(), buffer.bytes), [];
      PrependNothing(all);
      while true
        invariant Shape() && fresh(Repr - old(Repr)) && input == old(input) && built == old(built)
        invariant availableReplies == old(availableReplies) + done
        invariant all == Prepend(done, RunBuffer(Current(), buffer.bytes))
        decreases |buffer.bytes|
      {
        ghost var current, bytes := Current(), buffer.bytes;
        var more;
        thrown, more := BuildReply();
        if thrown.Some? || !more {
          assert RunBuffer(current, bytes).replies == [];
          return;
        }
        ghost var r := Advance(current, bytes).reply;
        PrependStep(done, r, RunBuffer(None, buffer.bytes));
        done := done + [r];
      }
    }

    /** `operator<<`: the replies completed by `data` are queued, in order, before any throw. */
    method Feed(data: string) returns (thrown: Option<Fault>)
      requires Valid()
      modifies Repr
      ensures input == old(input) + data
      ensures match RunBuffer(old(Current()), old(buffer.bytes) + data)
              case Running(rs, current, bytes) =>
                && thrown == None && Valid() && fresh(Repr - old(Repr))
                && availableReplies == old(availableReplies) + rs && built == old(built) + rs
                && Current() == current && buffer.bytes == bytes
              case Stopped(rs, f) => thrown == Some(f) && availableReplies == old(availableReplies) + rs
    {
      ghost var all := RunBuffer(Current(), buffer.bytes + data);
      MoreInput(input, data, built, Current(), buffer.bytes);
      buffer.bytes := buffer.bytes + data;
      thrown := BuildReplies();
      input := input + data;
      built := built + all.replies;
    }

    /** Clears the buffer and the tree, but not the queue of built replies. */
    method Reset()
      requires this in Repr && buffer in Repr
      modifies this, buffer
      ensures Valid() && Repr == old(Repr) && availableReplies == old(availableReplies)
      ensures Current() == None && buffer.bytes == "" && input == "" && built == []
    {
      builder := Nothing;
      buffer.bytes := "";
      input, built := "", [];
    }

    method ReplyAvailable() returns (b: bool)
      ensures b == (availableReplies != [])
    {
      b := |availableReplies| > 0;
    }

    /** The first built reply, or the exception "No available reply". */
    method GetFront() returns (r: Option<Reply>)
      ensures r == if availableReplies == [] then None else Some(availableReplies[0])
    {
      if availableReplies == [] {
        return None;
      }
      return Some(availableReplies[0]);
    }

    method PopFront() returns (popped: bool)
      requires Valid()
      modifies this
      ensures Valid() && Repr == old(Repr) && input == old(input) && built == old(built)
      ensures Current() == old(Current()) && buffer.bytes == old(buffer.bytes)
      ensures popped == (old(availableReplies) != [])
      ensures availableReplies == if popped then old(availableReplies)[1..] else []
    {
      if availableReplies == [] {
        return false;
      }
      availableReplies := availableReplies[1..];
      return true;
    }
  }

  /** Any two ways of cutting the same bytes drive two objects to the same replies, the same
      suspended tree and the same buffer, or to the same fault with the same replies queued. */
  method FeedChunks(builder: ReplyBuilder, chunks: seq<string>) returns (thrown: Option<Fault>)
    requires builder.Valid() && builder.input == "" && builder.availableReplies == []
    modifies builder.Repr
    ensures match RunBuffer(None, Concat(chunks))
            case Running(rs, current, bytes) =>
              && thrown == None && builder.Valid() && builder.availableReplies == rs
              && builder.Current() == current && builder.buffer.bytes == bytes
            case Stopped(rs, f) => thrown == Some(f) && builder.availableReplies == rs
  {
    thrown := None;
    var i := 0;
    FeedIsRun("", chunks);
    assert "" + Concat(chunks) == Concat(chunks);
    while i < |chunks| && thrown == None
      invariant 0 <= i <= |chunks|
      invariant thrown == None ==> fresh(builder.Repr - old(builder.Repr))
      invariant match thrown
                case Some(f) => RunBuffer(None, Concat(chunks)) == Stopped(builder.availableReplies, f)
                case None =>
                  && builder.Valid() && builder.availableReplies == builder.built
                  && RunBuffer(None, Concat(chunks)) == Feed(RunBuffer(None, builder.input), chunks[i..])
    {
      RunSplit(None, builder.input, chunks[i]);
      NextChunk(RunBuffer(None, builder.input), chunks, i);
      thrown := builder.Feed(chunks[i]);
      i := i + 1;
    }
    assert thrown == None ==> chunks[i..] == [];
  }
}
