/** `redis_connection`: the send buffer, the reply parser, and the socket as an outcome chosen by
    the environment. */
module Connections {
  import opened Wrappers
  import opened Commands
  import opened ReplyBuilders

  class RedisConnection {
    const builder: ReplyBuilder
    var buffer: string
    var connected: bool
    var written: string                    // bytes handed to the socket on this connection
    ghost var carried: seq<Command>        // the commands in `written`
    ghost var pending: seq<Command>        // the commands in `buffer`

    /** The bytes sent and the bytes buffered on the current connection are whole commands, and a
        socket that is not connected has carried none. */
    ghost predicate Framed()
      reads this
    {
      && written == EncodeCommands(carried) && buffer == EncodeCommands(pending)
      && (!connected ==> carried == [])
    }

    /** The commands sent or buffered on the current connection, in order. */
    ghost function Issued(): seq<Command>
      reads this
    {
      carried + pending
    }

    ghost predicate Valid()
      reads this, builder, builder.Repr
    {
      builder in builder.Repr && this !in builder.Repr && builder.Valid()
    }

    constructor ()
      ensures Valid() && Framed() && fresh(builder.Repr)
      ensures !connected && buffer == "" && written == "" && Issued() == [] && builder.availableReplies == []
      ensures builder.input == ""
    {
      builder := new ReplyBuilder();
      buffer, connected, written := "", false, "";
      carried, pending := [], [];
      new;
      assert EncodeCommands([]) == "";
    }

    method Send(redisCmd: Command)
      modifies this
      ensures buffer == old(buffer) + EncodeCommand(redisCmd) && pending == old(pending) + [redisCmd]
      ensures connected == old(connected) && written == old(written) && carried == old(carried)
      ensures Issued() == old(Issued()) + [redisCmd]
      ensures old(Framed()) ==> Framed()
    {
      EncodeCommandsConcat(pending, [redisCmd]);
      EncodeOneCommand(redisCmd);
      var cmd := BuildCommand(redisCmd);
      buffer := buffer + cmd;
      pending := pending + [redisCmd];
    }

    /** The buffer is moved out before the write, so a write that throws loses it. */
    method Commit(writes: bool) returns (thrown: bool)
      modifies this
      ensures thrown == !writes && buffer == "" && pending == [] && connected == old(connected)
      ensures written == old(written) + (if writes then old(buffer) else "")
      ensures carried == old(carried) + (if writes then old(pending) else [])
      ensures writes ==> Issued() == old(Issued())
      ensures old(Framed()) && (connected || !writes) ==> Framed()
    {
      var moved := buffer;
      buffer := "";
      if writes {
        written := written + moved;
        EncodeCommandsConcat(carried, pending);
        carried := carried + pending;
      }
      pending := [];
      assert EncodeCommands([]) == "";
      assert carried + [] == carried;
      return !writes;
    }

    /** The part of `connect` that concerns the socket: a new connection has carried nothing yet. The
        loss of the socket is the same with `up` false. */
    method Socket(up: bool)
      modifies this
      ensures connected == up && written == "" && carried == [] && buffer == old(buffer) && pending == old(pending)
      ensures Issued() == pending
      ensures old(Framed()) ==> Framed()
    {
      connected := up;
      written, carried := "", [];
      assert [] + pending == pending;
      assert EncodeCommands([]) == "";
    }

    /** What `disconnect` and `tcp_client_disconnection_handler` both do: no socket, and the send
        buffer and the parser cleared. Replies already parsed stay queued. */
    method Disconnect()
      requires builder in builder.Repr && builder.buffer in builder.Repr && this !in builder.Repr
      modifies this, builder, builder.buffer
      ensures Valid() && Framed() && builder.Repr == old(builder.Repr)
      ensures !connected && buffer == "" && written == "" && Issued() == []
      ensures builder.availableReplies == old(builder.availableReplies) && builder.input == "" && builder.Current() == None
    {
      connected := false;
      buffer, written, carried, pending := "", "", [], [];
      builder.Reset();
      assert EncodeCommands([]) == "";
    }
  }
}
