/** Encoding and parsing are inverse, exactly on the encodable replies; consequences for streams. */
module RoundTrip {
  import opened Wrappers
  import opened Decimal
  import opened Resp
  import opened Suspended
  import opened Streams

  lemma EncodingThen(r: Reply, t: string)
    ensures Encode(r) + t != "" && (Encode(r) + t)[0] == TypeByte(r) && (Encode(r) + t)[1..] == Payload(r) + t
  {
    var c, p := [TypeByte(r)], Payload(r);
    assert (c + p + t)[1..] == p + t;
  }

  lemma ReadsBackLine(text: string, t: string)
    requires CrlfFree(text)
    ensures ReadLine(text + CRLF + t) == Fetched(text, t)
  {
    var s := text + CRLF + t;
    forall j | 0 <= j < |text| ensures !CrlfAt(s, j) {
      assert !CrlfAt(text, j);
    }
    FindCrlfIn(s, |text|);
    assert s[..|text|] == text && s[|text| + 2..] == t;
  }

  lemma FetchesBackBody(text: string, t: string)
    requires |text| <= INT_MAX - 2
    ensures FetchBody(|text|, text + CRLF + t) == Fetched(text, t)
  {
    var body := text + CRLF + t;
    assert body[..|text|] == text && body[|text| + 2..] == t;
  }

  /** The header of a counted encoding, with the bytes that follow it. */
  lemma ReadsBackCount(n: nat, body: string, t: string)
    ensures ReadHeader((ToString(n) + CRLF + body) + t) ==
            if n <= INT64_MAX then GoodHeader(n, body + t) else BadHeader(Undefined)
  {
    var a := ToString(n) + CRLF;
    Associate(a, body, t);
    ReadPrinted(n, body + t);
  }

  lemma ParseBulkEncoding(text: string, t: string)
    ensures Parse(Encode(Bulk(text)) + t) ==
            if |text| <= INT64_MAX then ParseBulk(GoodHeader(|text|, text + CRLF + t)) else Failed(Undefined)
  {
    EncodingThen(Bulk(text), t);
    ReadsBackCount(|text|, text + CRLF, t);
  }

  lemma ParseArrayEncoding(rows: seq<Reply>, t: string)
    ensures Parse(Encode(Array(rows)) + t) ==
            if |rows| <= INT64_MAX then AsArray(ParseRows(|rows|, EncodeAll(rows) + t)) else Failed(Undefined)
  {
    EncodingThen(Array(rows), t);
    ReadsBackCount(|rows|, EncodeAll(rows), t);
  }

  /** Decoding inverts encoding and leaves what follows untouched. */
  lemma {:induction false} ParseInvertsEncode(r: Reply, t: string)
    requires Encodable(r)
    ensures Parse(Encode(r) + t) == Done(r, t)
    decreases r
  {
    match r
    case Bulk(text) =>
      ParseBulkEncoding(text, t);
      FetchesBackBody(text, t);
    case Array(rows) =>
      ParseArrayEncoding(rows, t);
      ParseRowsInvertsEncode(rows, t);
    case _ => ParseInvertsLine(r, t);
  }

  lemma ParseInvertsLine(r: Reply, t: string)
    requires Encodable(r) && !r.Bulk? && !r.Array?
    ensures Parse(Encode(r) + t) == Done(r, t)
  {
    EncodingThen(r, t);
    match r
    case Null => ReadPrinted(-1, t);
    case Simple(text) => ReadsBackLine(text, t);
    case Error(text) => ReadsBackLine(text, t);
    case Integer(n) => ReadPrinted(n, t);
  }

  lemma {:induction false} ParseRowsInvertsEncode(rs: seq<Reply>, t: string)
    requires forall i | 0 <= i < |rs| :: Encodable(rs[i])
    ensures ParseRows(|rs|, EncodeAll(rs) + t) == RowsDone(rs, t)
    decreases rs
  {
    if rs == [] {
      assert EncodeAll(rs) + t == t;
    } else {
      Associate(Encode(rs[0]), EncodeAll(rs[1..]), t);
      ParseInvertsEncode(rs[0], EncodeAll(rs[1..]) + t);
      ParseRowsInvertsEncode(rs[1..], t);
    }
  }

  /** A reply that survives the round trip was encodable: nothing outside the domain is read back
      by accident, at any nesting depth. */
  lemma {:induction false} OnlyEncodableSurvives(r: Reply, t: string, rest: string)
    requires Parse(Encode(r) + t) == Done(r, rest)
    ensures Encodable(r)
    decreases r
  {
    match r
    case Null =>
    case Simple(text) =>
      EncodingThen(r, t);
      FirstLineIsCrlfFree(Payload(r) + t);
    case Error(text) =>
      EncodingThen(r, t);
      FirstLineIsCrlfFree(Payload(r) + t);
    case Integer(n) =>
      EncodingThen(r, t);
      ReadPrinted(n, t);
    case Bulk(text) =>
      ParseBulkEncoding(text, t);
      FetchedBodyIsShort(Narrow(|text|), text + CRLF + t);
    case Array(rows) =>
      ParseArrayEncoding(rows, t);
      OnlyEncodableRowsSurvive(rows, t, rest);
  }

  lemma FirstLineIsCrlfFree(s: string)
    ensures ReadLine(s).Fetched? ==> CrlfFree(ReadLine(s).text)
  {
    var k := FindCrlf(s);
    forall j | 0 <= j < k ensures !CrlfAt(s[..k], j) {
      assert !CrlfAt(s, j);
    }
  }

  lemma FetchedBodyIsShort(size: int, buf: string)
    ensures var f := FetchBody(size, buf); f.Fetched? ==> |f.text| <= INT_MAX - 2
  {
  }

  lemma {:induction false} OnlyEncodableRowsSurvive(rs: seq<Reply>, t: string, rest: string)
    requires ParseRows(|rs|, EncodeAll(rs) + t) == RowsDone(rs, rest)
    ensures forall i | 0 <= i < |rs| :: Encodable(rs[i])
    decreases rs
  {
    if rs != [] {
      var more := EncodeAll(rs[1..]) + t;
      Associate(Encode(rs[0]), EncodeAll(rs[1..]), t);
      var v := Parse(Encode(rs[0]) + more);
      RowsDoneParts(rs, Encode(rs[0]) + more, rest);
      OnlyEncodableSurvives(rs[0], more, v.rest);
      ParseInvertsEncode(rs[0], more);
      OnlyEncodableRowsSurvive(rs[1..], t, rest);
    }
  }

  lemma RowsDoneParts(rs: seq<Reply>, s: string, rest: string)
    requires rs != [] && ParseRows(|rs|, s) == RowsDone(rs, rest)
    ensures var v := Parse(s);
            v.Done? && v.reply == rs[0] && ParseRows(|rs| - 1, v.rest) == RowsDone(rs[1..], rest)
  {
    var v := Parse(s);
    var w := ParseRows(|rs| - 1, v.rest);
    assert ([v.reply] + w.rows)[1..] == w.rows;
  }

  /** The exact domain of the round trip. */
  lemma RoundTripExactly(r: Reply)
    ensures Encodable(r) <==> forall t :: Parse(Encode(r) + t) == Done(r, t)
  {
    if Encodable(r) {
      forall t ensures Parse(Encode(r) + t) == Done(r, t) {
        ParseInvertsEncode(r, t);
      }
    } else if Parse(Encode(r) + "") == Done(r, "") {
      OnlyEncodableSurvives(r, "", "");
    }
  }

  /** Both null spellings of RESP2, the bulk and the array one, become the null reply. */
  lemma BothNullsAreNull(t: string)
    ensures Parse(['$'] + (ToString(-1) + CRLF + t)) == Done(Null, t)
    ensures Parse(['*'] + (ToString(-1) + CRLF + t)) == Done(Null, t)
  {
    var line := ToString(-1) + CRLF + t;
    ReadPrinted(-1, t);
    assert (['$'] + line)[1..] == line;
    assert (['*'] + line)[1..] == line;
  }

  predicate AllEncodable(rs: seq<Reply>) {
    forall i | 0 <= i < |rs| :: Encodable(rs[i])
  }

  lemma PrependMore(rs: seq<Reply>, r: Run)
    requires rs != []
    ensures Prepend([rs[0]], Prepend(rs[1..], r)) == Prepend(rs, r)
  {
    assert [rs[0]] + (rs[1..] + r.replies) == rs + r.replies;
  }

  /** A fresh driver fed encodings followed by any bytes queues exactly those replies, in order, and
      then behaves as a fresh driver fed the rest. */
  lemma {:induction false} DriverRoundTrip(rs: seq<Reply>, t: string)
    requires AllEncodable(rs)
    ensures RunBuffer(None, EncodeAll(rs) + t) == Prepend(rs, RunBuffer(None, t))
  {
    if rs == [] {
      assert EncodeAll(rs) + t == t;
      PrependNothing(RunBuffer(None, t));
    } else {
      var more := EncodeAll(rs[1..]) + t;
      Associate(Encode(rs[0]), EncodeAll(rs[1..]), t);
      ParseInvertsEncode(rs[0], more);
      AdvanceRefinesParse(Encode(rs[0]) + more);
      DriverRoundTrip(rs[1..], t);
      PrependMore(rs, RunBuffer(None, t));
    }
  }

  /** A proper prefix of an encoding is never a reply and never a fault. */
  lemma ProperPrefixIsIncomplete(r: Reply, p: string)
    requires Encodable(r) && p < Encode(r)
    ensures Parse(p) == Incomplete
  {
    if p != "" {
      var q := Encode(r)[|p|..];
      assert p + q == Encode(r) && Encode(r) + "" == Encode(r);
      ParseInvertsEncode(r, "");
      AdvanceRefinesParse(p);
      AdvanceRefinesParse(p + q);
      AdvanceSplit(None, p, q);
    }
  }

  /** Nothing held back, nothing early: after k whole encodings and a proper prefix of another one,
      cut into chunks in any way, exactly the k replies have been queued, and the bytes of the
      prefix are all in the suspended tree or in the buffer. */
  lemma NothingHeldBackNothingEarly(rs: seq<Reply>, r: Reply, p: string, chunks: seq<string>)
    requires AllEncodable(rs) && Encodable(r) && p < Encode(r)
    requires Concat(chunks) == EncodeAll(rs) + p
    ensures var state := Feed(Idle, chunks);
            state.Running? && state.replies == rs && Stuck(state.current, state.buffer, p)
  {
    ChunkingIndependence(chunks, [Concat(chunks)]) by {
      assert Concat([Concat(chunks)]) == Concat(chunks) + "" == Concat(chunks);
    }
    DriverRoundTrip(rs, p);
    ProperPrefixIsIncomplete(r, p);
    RunRefinesParse(p);
    assert rs + [] == rs;
  }
}
