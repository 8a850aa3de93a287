/** Which replies the receive path hands out. A chunk that completes replies and then turns out to be
    malformed hands out none of them: the handler leaves before its drain loop. */
module Receiving {
  import opened Wrappers
  import opened Resp
  import opened Suspended
  import opened Streams

  /** The replies handed out while `chunks` arrive, up to the first that the parser refuses. */
  function HandedOut(current: Option<Suspended>, buffer: string, chunks: seq<string>): seq<Reply>
    decreases |chunks|
  {
    if chunks == [] then []
    else
      match RunBuffer(current, buffer + chunks[0])
      case Running(rs, c, b) => rs + HandedOut(c, b, chunks[1..])
      case Stopped(_, _) => []
  }

  /** On a well-formed stream every reply is handed out, for every chunking. */
  lemma {:induction false} WellFormedStreamIsHandedOut(current: Option<Suspended>, buffer: string, chunks: seq<string>)
    requires Sound(current) && RunBuffer(current, buffer) == Running([], current, buffer)
    requires RunBuffer(current, buffer + Concat(chunks)).Running?
    ensures HandedOut(current, buffer, chunks) == RunBuffer(current, buffer + Concat(chunks)).replies
    decreases |chunks|
  {
    if chunks == [] {
      assert buffer + "" == buffer;
    } else {
      var x, y := buffer + chunks[0], Concat(chunks[1..]);
      Associate(buffer, chunks[0], y);
      RunSplit(current, x, y);
      RunKeepsSound(current, x);
      var r := RunBuffer(current, x);
      RunIsSettled(current, x);
      WellFormedStreamIsHandedOut(r.current, r.buffer, chunks[1..]);
    }
  }

  /** Running again without new bytes changes nothing. */
  lemma RunIsSettled(current: Option<Suspended>, buf: string)
    requires Sound(current)
    ensures var r := RunBuffer(current, buf);
            r.Running? ==> RunBuffer(r.current, r.buffer) == Running([], r.current, r.buffer)
  {
    RunSplit(current, buf, "");
    assert buf + "" == buf;
    var r := RunBuffer(current, buf);
    if r.Running? {
      assert r.buffer + "" == r.buffer;
      var again := RunBuffer(r.current, r.buffer);
      assert r == Prepend(r.replies, again);
      assert |r.replies + again.replies| == |r.replies|;
    }
  }

  ghost predicate ChunkingDoesNotMatter(s: string) {
    forall a: seq<string>, b: seq<string> | Concat(a) == s && Concat(b) == s ::
      HandedOut(None, "", a) == HandedOut(None, "", b)
  }

  /** The replies handed out do not depend on the chunking exactly when the stream is well-formed or
      malformed before its first complete reply. What is queued never does. */
  lemma HandedOutIndependentIff(s: string)
    ensures var r := RunBuffer(None, s); ChunkingDoesNotMatter(s) <==> r.Running? || r.replies == []
  {
    var r := RunBuffer(None, s);
    if r.Running? {
      forall a: seq<string>, b: seq<string> | Concat(a) == s && Concat(b) == s
        ensures HandedOut(None, "", a) == HandedOut(None, "", b)
      {
        assert "" + Concat(a) == s && "" + Concat(b) == s;
        WellFormedStreamIsHandedOut(None, "", a);
        WellFormedStreamIsHandedOut(None, "", b);
      }
    } else if r.replies == [] {
      forall a: seq<string>, b: seq<string> | Concat(a) == s && Concat(b) == s
        ensures HandedOut(None, "", a) == HandedOut(None, "", b)
      {
        assert "" + Concat(a) == s && "" + Concat(b) == s;
        FaultFirst(None, "", a);
        FaultFirst(None, "", b);
      }
    } else {
      FaultAfterReply(s);
    }
  }

  lemma {:induction false} FaultFirst(current: Option<Suspended>, buffer: string, chunks: seq<string>)
    requires Sound(current)
    requires var r := RunBuffer(current, buffer + Concat(chunks)); r.Stopped? && r.replies == []
    ensures HandedOut(current, buffer, chunks) == []
    decreases |chunks|
  {
    if chunks != [] {
      var x, y := buffer + chunks[0], Concat(chunks[1..]);
      Associate(buffer, chunks[0], y);
      RunSplit(current, x, y);
      RunKeepsSound(current, x);
      var r := RunBuffer(current, x);
      if r.Running? {
        assert |r.replies + RunBuffer(r.current, r.buffer + y).replies| == 0;
        FaultFirst(r.current, r.buffer, chunks[1..]);
      }
    }
  }

  lemma OneChunk(s: string)
    requires RunBuffer(None, s).Stopped?
    ensures Concat([s]) == s && HandedOut(None, "", [s]) == []
  {
    assert Concat([s]) == s + Concat([]);
    assert s + "" == s && "" + s == s;
  }

  lemma TwoChunks(x: string, y: string, r: Reply)
    requires RunBuffer(None, x) == Running([r], None, "")
    ensures Concat([x, y]) == x + y && HandedOut(None, "", [x, y]) != []
  {
    assert [x, y][1..] == [y];
    assert Concat([y]) == y + Concat([]) == y;
    assert "" + x == x;
    assert ([r] + HandedOut(None, "", [y]))[0] == r;
  }

  /** A malformed stream with a complete reply: in one chunk nothing is handed out; cut behind the
      first reply, that reply is. */
  lemma FaultAfterReply(s: string)
    requires var r := RunBuffer(None, s); r.Stopped? && r.replies != []
    ensures !ChunkingDoesNotMatter(s)
  {
    var o := Advance(None, s);
    var w := AdvanceErases(None, s);
    assert RunBuffer(None, w) == Running([o.reply], None, "");
    OneChunk(s);
    TwoChunks(w, o.rest, o.reply);
  }
}
