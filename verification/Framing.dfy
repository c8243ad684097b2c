/**
 * What the reader of `network/channel.go` makes of the bytes the writer printed: the parser
 * undoes the printer over whole streams, and replies are separated from the other messages.
 */
module Framing {
  import opened Prelude
  import opened HeaderCodec
  import opened Messages
  import opened AckTables
  import opened ByteStreams
  import opened Channels

  function HeaderBytes<B>(marshal: B -> Option<Bytes>, m: Msg<B>): Bytes
    requires FrameOf(marshal, m).Some?
  {
    MarshalHeader(HeaderOf(m, |BodyBytes(marshal, m)|)).value
  }

  function BodyBytes<B>(marshal: B -> Option<Bytes>, m: Msg<B>): Bytes
    requires MarshalBody(marshal, m.body).Some?
  {
    MarshalBody(marshal, m.body).value
  }

  /** The writer prints the message, and its header length is not cut. */
  predicate Printable<B>(marshal: B -> Option<Bytes>, m: Msg<B>) {
    FrameOf(marshal, m).Some? && |HeaderBytes(marshal, m)| < TWO_32
  }

  /** Moreover the body length is not cut, and the codec of the type gives the body back. */
  predicate Readable<B(==)>(us: seq<Unmarshaler<B>>, marshal: B -> Option<Bytes>, m: Msg<B>) {
    && Printable(marshal, m)
    && |BodyBytes(marshal, m)| < TWO_32
    && UnmarshalBody(us, m.mtype, BodyBytes(marshal, m)) == Ok(m.body)
  }

  // ----- bodies -----------------------------------------------------------------------------

  /**
   * Which unmarshaler decides: the first one that knows the type, whatever it makes of the bytes.
   * The type is unknown exactly if there are unmarshalers and none of them knows it; without any
   * the body is absent.
   */
  lemma UnmarshalersDecide<B>(us: seq<Unmarshaler<B>>, mtype: Bytes, data: Bytes)
    ensures us == [] ==> UnmarshalBody(us, mtype, data) == Ok(None)
    ensures UnmarshalBody(us, mtype, data) == Err(UnknownType) <==>
      us != [] && forall i | 0 <= i < |us| :: us[i](mtype).None?
    ensures forall i | 0 <= i < |us| && us[i](mtype).Some? && (forall j | 0 <= j < i :: us[j](mtype).None?) ::
      UnmarshalBody(us, mtype, data) ==
        match us[i](mtype).value(data) case None => Err(BadBody) case Some(body) => Ok(Some(body))
  {
    FirstDecides(us, mtype, data);
  }

  lemma {:induction false} FirstDecides<B>(us: seq<Unmarshaler<B>>, mtype: Bytes, data: Bytes)
    ensures DecodeWithFirst(us, mtype, data) == Err(UnknownType) <==>
      forall i | 0 <= i < |us| :: us[i](mtype).None?
    ensures forall i | 0 <= i < |us| && us[i](mtype).Some? && (forall j | 0 <= j < i :: us[j](mtype).None?) ::
      DecodeWithFirst(us, mtype, data) ==
        match us[i](mtype).value(data) case None => Err(BadBody) case Some(body) => Ok(Some(body))
    decreases |us|
  {
    if us != [] {
      var rest := us[1..];
      FirstDecides(rest, mtype, data);
      if us[0](mtype).None? {
        assert (forall i | 0 <= i < |us| :: us[i](mtype).None?) <==>
          forall i | 0 <= i < |rest| :: rest[i](mtype).None? by {
          forall i | 0 < i < |us| ensures us[i] == rest[i - 1] {}
          forall i | 0 <= i < |rest| ensures rest[i] == us[i + 1] {}
        }
      }
      forall i | 0 <= i < |us| && us[i](mtype).Some? && (forall j | 0 <= j < i :: us[j](mtype).None?)
        ensures DecodeWithFirst(us, mtype, data) ==
          match us[i](mtype).value(data) case None => Err(BadBody) case Some(body) => Ok(Some(body)) {
        if i > 0 {
          assert us[0](mtype).None? && rest[i - 1] == us[i];
          forall j | 0 <= j < i - 1 ensures rest[j](mtype).None? { assert rest[j] == us[j + 1]; }
        }
      }
    }
  }

  // ----- one frame --------------------------------------------------------------------------

  /** A message is printed exactly if its body can be marshalled and its id and type are UTF-8; an
      absent body has no bytes. */
  lemma PrintedIff<B>(marshal: B -> Option<Bytes>, m: Msg<B>)
    ensures FrameOf(marshal, m).Some? <==>
      (m.body.Some? ==> marshal(m.body.value).Some?) && ValidUtf8(m.id) && ValidUtf8(m.mtype)
    ensures FrameOf(marshal, m).Some? ==>
      var body := if m.body.Some? then marshal(m.body.value).value else [];
      BodyBytes(marshal, m) == body
      && FrameOf(marshal, m).value == PutUint32(|HeaderBytes(marshal, m)|) + HeaderBytes(marshal, m) + body
  {
    hide ValidUtf8, PutUint32, EncodeVarint;
  }

  /** Requests go out as 1, replies as 2, in the first field; other messages without that field. */
  lemma KindsOnTheWire<B>(marshal: B -> Option<Bytes>, m: Msg<B>)
    requires FrameOf(marshal, m).Some?
    ensures m.ack ==> [0x08, 0x01] <= HeaderBytes(marshal, m)
    ensures !m.ack && m.ackr ==> [0x08, 0x02] <= HeaderBytes(marshal, m)
    ensures !m.ack && !m.ackr && m.id != [] ==> [0x12] <= HeaderBytes(marshal, m)
  {
    var body := BodyBytes(marshal, m);
    HeaderOnTheWire(HeaderOf(m, |body|));
    assert EncodeVarint(1) == [1] && EncodeVarint(2) == [2];
    hide MarshalHeader, FrameOf, EncodeVarint;
  }

  /** A header that does not parse is an error that leaves what follows the header unread. */
  lemma BadHeaderFrame<B>(us: seq<Unmarshaler<B>>, header: Bytes, tail: Bytes)
    requires |header| < TWO_32 && UnmarshalHeader(header).None?
    ensures ParseFrame(us, PutUint32(|header|) + header + tail) == Bad(BadHeader, tail)
  {
    hide UnmarshalHeader, PutUint32, Uint32, UnmarshalBody;
    var b := PutUint32(|header|) + (header + tail);
    assert PutUint32(|header|) + header + tail == b;
    ReadFullAtFront(b, PutUint32(|header|), header + tail);
    ReadFullAtFront(header + tail, header, tail);
    Uint32RoundTrip(|header|);
  }

  lemma HeaderReadsBack(h: HeaderData)
    requires MarshalHeader(h).Some? && |MarshalHeader(h).value| < TWO_32
    requires h.kind < TWO_32 && h.contentLength < TWO_32
    ensures UnmarshalHeader(MarshalHeader(h).value) == Some(h)
  {
    HeaderRoundTrip(h);
  }

  lemma ReadFullAtFront(b: Bytes, front: Bytes, back: Bytes)
    requires b == front + back
    ensures ReadFullSpec(b, |front|) == Ok(front) && b[|front|..] == back
  {
  }

  /**
   * The reader's answer to a printed frame, whatever follows it: kind, id, type and request flag
   * survive; of the body it sees the first `|body| % 2^32` bytes and leaves the others unread.
   */
  lemma ParsePrintedFrame<B>(us: seq<Unmarshaler<B>>, marshal: B -> Option<Bytes>, m: Msg<B>, tail: Bytes)
    requires Printable(marshal, m)
    ensures var body := BodyBytes(marshal, m);
            var cut := |body| % TWO_32;
            ParseFrame(us, FrameOf(marshal, m).value + tail) ==
            match UnmarshalBody(us, m.mtype, body[..cut])
            case Err(e) => Bad(e, body[cut..] + tail)
            case Ok(data) => Got(KindOf(m), Received(m).(body := data), body[cut..] + tail)
  {
    hide UnmarshalHeader, MarshalHeader, PutUint32, Uint32, UnmarshalBody, ParseFrame;
    var body, header := BodyBytes(marshal, m), HeaderBytes(marshal, m);
    assert FrameOf(marshal, m).value == PutUint32(|header|) + header + body;
    Uint32RoundTrip(|header|);
    HeaderReadsBack(HeaderOf(m, |body|));
    hide FrameOf;
    ParseParts(us, PutUint32(|header|), header, HeaderOf(m, |body|), body, tail);
  }

  lemma ParseParts<B>(us: seq<Unmarshaler<B>>, size: Bytes, header: Bytes, h: HeaderData, body: Bytes, tail: Bytes)
    requires |size| == 4 && Uint32(size) == |header| && UnmarshalHeader(header) == Some(h) && h.contentLength <= |body|
    ensures ParseFrame(us, size + header + body + tail) ==
      match UnmarshalBody(us, h.contentType, body[..h.contentLength])
      case Err(e) => Bad(e, body[h.contentLength..] + tail)
      case Ok(data) =>
        Got(h.kind, Msg(h.id, h.kind == KIND_ACK, false, h.contentType, 0, data), body[h.contentLength..] + tail)
  {
    hide UnmarshalHeader, Uint32, UnmarshalBody, ReadFullSpec;
    WholeFrame(size, header, body, h.contentLength, tail);
  }

  /** What `io.ReadFull` makes of the parts of a frame, if it takes only some bytes of the body. */
  lemma WholeFrame(size: Bytes, header: Bytes, body: Bytes, cut: nat, tail: Bytes)
    requires |size| == 4 && cut <= |body|
    ensures var b := size + header + body + tail;
      && ReadFullSpec(b, 4) == Ok(size)
      && ReadFullSpec(b[4..], |header|) == Ok(header)
      && ReadFullSpec(b[4..][|header|..], cut) == Ok(body[..cut])
      && b[4..][|header|..][cut..] == body[cut..] + tail
  {
    var b := size + header + body + tail;
    assert b[..4] == size;
    assert b[4..] == header + (body + tail) && b[4..][..|header|] == header;
    assert b[4..][|header|..] == body + tail;
    assert (body + tail)[..cut] == body[..cut] && (body + tail)[cut..] == body[cut..] + tail;
  }

  /** A readable message is read back, up to its reply flag and options, and nothing more is consumed. */
  lemma FrameRoundTrip<B>(us: seq<Unmarshaler<B>>, marshal: B -> Option<Bytes>, m: Msg<B>, tail: Bytes)
    requires Readable(us, marshal, m)
    ensures ParseFrame(us, FrameOf(marshal, m).value + tail) == Got(KindOf(m), Received(m), tail)
    ensures Received(m) == Msg(m.id, m.ack, false, m.mtype, 0, m.body)
  {
    hide ParseFrame, MarshalHeader, UnmarshalBody;
    ParsePrintedFrame(us, marshal, m, tail);
    var body := BodyBytes(marshal, m);
    assert body[..|body|] == body && body[|body|..] + tail == tail;
  }

  /** The next read starts on a frame boundary exactly when the body length was not cut, be the
      body decodable or not. */
  lemma FrameBoundary<B>(us: seq<Unmarshaler<B>>, marshal: B -> Option<Bytes>, m: Msg<B>, tail: Bytes)
    requires Printable(marshal, m)
    ensures ParseFrame(us, FrameOf(marshal, m).value + tail).rest == tail <==> |BodyBytes(marshal, m)| < TWO_32
  {
    hide ParseFrame, MarshalHeader, UnmarshalBody;
    ParsePrintedFrame(us, marshal, m, tail);
    var body := BodyBytes(marshal, m);
    var left := body[|body| % TWO_32..];
    if |body| < TWO_32 {
      assert left + tail == tail;
    } else {
      assert |left + tail| > |tail|;
    }
  }

  /** No strict prefix of a frame is taken for a message: the reader reports the end of the stream. */
  lemma StrictPrefixIsNoMessage<B>(us: seq<Unmarshaler<B>>, marshal: B -> Option<Bytes>, m: Msg<B>, n: nat)
    requires Printable(marshal, m) && |BodyBytes(marshal, m)| < TWO_32
    requires n < |FrameOf(marshal, m).value|
    ensures ParseFrame(us, FrameOf(marshal, m).value[..n])
            == Bad(Stream(if n == 0 || n == 4 || n == 4 + |HeaderBytes(marshal, m)| then EOF else UnexpectedEOF), [])
  {
    hide UnmarshalHeader, MarshalHeader, PutUint32, Uint32, UnmarshalBody;
    var body, header := BodyBytes(marshal, m), HeaderBytes(marshal, m);
    Uint32RoundTrip(|header|);
    HeaderReadsBack(HeaderOf(m, |body|));
    CutFrame(PutUint32(|header|), header, body, n);
    assert FrameOf(marshal, m).value == PutUint32(|header|) + header + body;
    hide FrameOf, ReadFullSpec;
  }

  /** What `io.ReadFull` makes of the parts of a cut frame. */
  lemma CutFrame(size: Bytes, header: Bytes, body: Bytes, n: nat)
    requires |size| == 4 && n < |size + header + body|
    ensures var b := (size + header + body)[..n];
      if n < 4 then ReadFullSpec(b, 4) == Err(if n == 0 then EOF else UnexpectedEOF)
      else
        && ReadFullSpec(b, 4) == Ok(size)
        && if n < 4 + |header| then ReadFullSpec(b[4..], |header|) == Err(if n == 4 then EOF else UnexpectedEOF)
        else
          && ReadFullSpec(b[4..], |header|) == Ok(header)
          && ReadFullSpec(b[4..][|header|..], |body|) == Err(if n == 4 + |header| then EOF else UnexpectedEOF)
  {
    var b := (size + header + body)[..n];
    if n >= 4 {
      assert b[..4] == size;
      if n >= 4 + |header| { assert b[4..][..|header|] == header; }
    }
  }

  // ----- whole streams ----------------------------------------------------------------------

  /** What writing the messages one after the other puts on the stream; a message that cannot be
      printed leaves nothing. */
  function FramesOf<B>(marshal: B -> Option<Bytes>, ms: seq<Msg<B>>): Bytes {
    if ms == [] then []
    else (match FrameOf(marshal, ms[0]) case None => [] case Some(frame) => frame) + FramesOf(marshal, ms[1..])
  }

  /** The frames read one by one until something is not a message. */
  function ReadFrames<B>(us: seq<Unmarshaler<B>>, b: Bytes): seq<(nat, Msg<B>)>
    decreases |b|
  {
    match ParseFrame(us, b)
    case Bad(_, _) => []
    case Got(kind, m, rest) => [(kind, m)] + ReadFrames(us, rest)
  }

  function Tagged<B>(ms: seq<Msg<B>>): seq<(nat, Msg<B>)> {
    seq(|ms|, i requires 0 <= i < |ms| => (KindOf(ms[i]), Received(ms[i])))
  }

  lemma NothingIsNoFrame<B>(us: seq<Unmarshaler<B>>)
    ensures ParseFrame(us, []).Bad?
  {
  }

  /** The parser undoes the printer on every sequence of readable messages. */
  lemma {:induction false} StreamRoundTrip<B>(us: seq<Unmarshaler<B>>, marshal: B -> Option<Bytes>, ms: seq<Msg<B>>)
    requires forall i {:trigger ms[i]} | 0 <= i < |ms| :: Readable(us, marshal, ms[i])
    ensures ReadFrames(us, FramesOf(marshal, ms)) == Tagged(ms)
  {
    hide ParseFrame, FrameOf, UnmarshalBody, Received, KindOf;
    if ms == [] {
      NothingIsNoFrame(us);
    } else {
      assert Readable(us, marshal, ms[0]);
      hide Readable;
      FrameRoundTrip(us, marshal, ms[0], FramesOf(marshal, ms[1..]));
      StreamRoundTrip(us, marshal, ms[1..]);
      assert Tagged(ms) == [Tagged(ms)[0]] + Tagged(ms[1..]);
    }
  }

  // ----- the reading loop -------------------------------------------------------------------

  datatype Drained<+B> = Drained(msgs: seq<Msg<B>>, error: ChannelError, unread: Bytes, table: AckTable<Msg<B>>)

  /** `Read(true)` over and over, until it fails. */
  function DrainSpec<B>(us: seq<Unmarshaler<B>>, b: Bytes, t: AckTable<Msg<B>>): Drained<B>
    decreases |b|
  {
    var r := ReadSpec(us, b, t, true);
    match r.result
    case Err(e) => Drained([], e, r.unread, r.table)
    case Ok(m) =>
      var d := DrainSpec(us, r.unread, r.table);
      d.(msgs := [m] + d.msgs)
  }

  /** One turn of it. */
  lemma DrainStep<B>(us: seq<Unmarshaler<B>>, b: Bytes, t: AckTable<Msg<B>>)
    ensures var r := ReadSpec(us, b, t, true);
      DrainSpec(us, b, t) == match r.result
        case Err(e) => Drained([], e, r.unread, r.table)
        case Ok(m) =>
          var d := DrainSpec(us, r.unread, r.table);
          d.(msgs := [m] + d.msgs)
  {
  }

  /** The loop of every reader goroutine; it ends because each turn consumes unread bytes. */
  method Drain<B>(ch: Channel<B>) returns (msgs: seq<Msg<B>>, error: ChannelError)
    requires ch.Valid()
    modifies ch`chans, ch.stream`inbound
    ensures ch.Valid()
    ensures Drained(msgs, error, ch.stream.Unread(), ch.Table())
            == DrainSpec(ch.unmarshalers, old(ch.stream.Unread()), old(ch.Table()))
  {
    hide ParseFrame, ReadSpec, DrainSpec;
    msgs := [];
    ghost var whole := DrainSpec(ch.unmarshalers, ch.stream.Unread(), ch.Table());
    while true
      invariant ch.Valid()
      invariant var d := DrainSpec(ch.unmarshalers, ch.stream.Unread(), ch.Table());
                d.(msgs := msgs + d.msgs) == whole
      decreases |ch.stream.Unread()|
    {
      DrainStep(ch.unmarshalers, ch.stream.Unread(), ch.Table());
      var m := ch.Read(true);
      if m.Err? {
        assert msgs + [] == msgs;
        return msgs, m.error;
      }
      msgs := msgs + [m.value];
    }
  }

  /** Everything but the replies, as received, in order. */
  function NonReplies<B>(ms: seq<Msg<B>>): seq<Msg<B>> {
    if ms == [] then []
    else (if KindOf(ms[0]) == KIND_ACKR then [] else [Received(ms[0])]) + NonReplies(ms[1..])
  }

  /** The replies, as received, in order. */
  function Replies<B>(ms: seq<Msg<B>>): seq<Msg<B>> {
    if ms == [] then []
    else (if KindOf(ms[0]) == KIND_ACKR then [Received(ms[0])] else []) + Replies(ms[1..])
  }

  function OfferAll<B>(t: AckTable<Msg<B>>, rs: seq<Msg<B>>): AckTable<Msg<B>>
    decreases |rs|
  {
    if rs == [] then t else OfferAll(Offer(t, rs[0].id, rs[0]), rs[1..])
  }

  /**
   * Over a stream of readable messages and whatever unreadable bytes end it, the reader returns
   * exactly the messages that are not replies, in order, and offers each reply once, in order.
   */
  lemma {:induction false} ReaderPartition<B>(
      us: seq<Unmarshaler<B>>, marshal: B -> Option<Bytes>, ms: seq<Msg<B>>, tail: Bytes, t: AckTable<Msg<B>>)
    requires forall i {:trigger ms[i]} | 0 <= i < |ms| :: Readable(us, marshal, ms[i])
    requires ParseFrame(us, tail).Bad?
    ensures DrainSpec(us, FramesOf(marshal, ms) + tail, t)
            == Drained(NonReplies(ms), ParseFrame(us, tail).error, ParseFrame(us, tail).rest, OfferAll(t, Replies(ms)))
  {
    hide ParseFrame, FrameOf, UnmarshalBody;
    if ms == [] {
      assert FramesOf(marshal, ms) + tail == tail;
      assert OfferAll(t, Replies(ms)) == t;
    } else {
      hide ReadSpec, DrainSpec;
      assert Readable(us, marshal, ms[0]);
      var rest := FramesOf(marshal, ms[1..]) + tail;
      assert FramesOf(marshal, ms) + tail == FrameOf(marshal, ms[0]).value + rest;
      FrameRoundTrip(us, marshal, ms[0], rest);
      var r := Received(ms[0]);
      if KindOf(ms[0]) == KIND_ACKR {
        DrainReply(us, FramesOf(marshal, ms) + tail, r, rest, t);
        ReaderPartition(us, marshal, ms[1..], tail, Offer(t, r.id, r));
        assert Replies(ms) == [r] + Replies(ms[1..]) && NonReplies(ms) == NonReplies(ms[1..]);
      } else {
        DrainMessage(us, FramesOf(marshal, ms) + tail, KindOf(ms[0]), r, rest, t);
        ReaderPartition(us, marshal, ms[1..], tail, t);
        assert Replies(ms) == Replies(ms[1..]);
      }
    }
  }

  /** Whatever comes of it, a `SendAndRead` whose request was written leaves nothing under its id in
      the table and no reply in its channel that it returned. */
  lemma SendAndReadCleansUp<B>(us: seq<Unmarshaler<B>>, b: Bytes, t: AckTable<Msg<B>>, id: Bytes, timerFires: bool)
    requires Safe(t)
    ensures var o := SendAndReadSpec(us, b, t, id, timerFires);
      && Safe(o.table) && o.table.acks == t.acks - {id} && |o.table.chans| == |t.chans| + 1
      && (o.result.Ok? ==> o.table.chans[|t.chans|] == Chan(None, false))
  {
    OperationsStaySafe(t, id, Msg([], false, false, [], 0, None), 0);
    var t1 := Register(t, id);
    ReadOneKeepsTable(us, b, t1);
    hide ReadSpec, Wake, Safe;
    WakeCleansUp(t, ReadSpec(us, b, t1, false).table, id, |t.chans|, timerFires);
  }

  lemma WakeCleansUp<B>(t: AckTable<Msg<B>>, t': AckTable<Msg<B>>, id: Bytes, c: nat, timerFires: bool)
    requires Safe(t') && t'.acks == t.acks[id := c] && c < |t'.chans| && !t'.chans[c].closed
    ensures var w := Wake(t', c, timerFires);
      var done := Unregister(if w.Ok? then Take(t', c) else t', id);
      && Safe(done) && done.acks == t.acks - {id} && |done.chans| == |t'.chans|
      && (w.Ok? ==> done.chans[c] == Chan(None, false))
  {
  }

  lemma ReadOneKeepsTable<B>(us: seq<Unmarshaler<B>>, b: Bytes, t: AckTable<Msg<B>>)
    requires Safe(t)
    ensures var t' := ReadSpec(us, b, t, false).table;
      && Safe(t') && t'.acks == t.acks && |t'.chans| == |t.chans|
      && forall c | 0 <= c < |t.chans| :: t'.chans[c].closed == t.chans[c].closed
  {
    hide ParseFrame;
    match ParseFrame(us, b)
    case Bad(_, _) =>
    case Got(_, m, _) => OperationsStaySafe(t, m.id, m, 0);
  }

  /** A reply at the front only changes the table. */
  lemma DrainReply<B>(us: seq<Unmarshaler<B>>, b: Bytes, m: Msg<B>, rest: Bytes, t: AckTable<Msg<B>>)
    requires ParseFrame(us, b) == Got(KIND_ACKR, m, rest)
    ensures DrainSpec(us, b, t) == DrainSpec(us, rest, Offer(t, m.id, m))
  {
    hide ParseFrame;
    assert ReadSpec(us, b, t, true) == ReadSpec(us, rest, Offer(t, m.id, m), true);
  }

  /** Any other message is returned and leaves the table alone. */
  lemma DrainMessage<B>(us: seq<Unmarshaler<B>>, b: Bytes, kind: nat, m: Msg<B>, rest: Bytes, t: AckTable<Msg<B>>)
    requires ParseFrame(us, b) == Got(kind, m, rest) && kind != KIND_ACKR
    ensures DrainSpec(us, b, t) == DrainSpec(us, rest, t).(msgs := [m] + DrainSpec(us, rest, t).msgs)
  {
    hide ParseFrame;
    assert ReadSpec(us, b, t, true) == ReadOutcome(Ok(m), rest, t);
  }

  function FirstWithId<B>(rs: seq<Msg<B>>, id: Bytes): Option<Msg<B>> {
    if rs == [] then None else if rs[0].id == id then Some(rs[0]) else FirstWithId(rs[1..], id)
  }

  /** A waiter with nothing in its channel gets the first reply with its id, and only that one. */
  lemma {:induction false} WaiterGetsFirstReply<B>(t: AckTable<Msg<B>>, rs: seq<Msg<B>>, id: Bytes)
    requires Safe(t) && id in t.acks
    ensures OfferAll(t, rs).acks == t.acks && t.acks[id] < |OfferAll(t, rs).chans|
    ensures OfferAll(t, rs).chans[t.acks[id]].buf
            == if t.chans[t.acks[id]].buf.Some? then t.chans[t.acks[id]].buf else FirstWithId(rs, id)
    decreases |rs|
  {
    if rs != [] {
      OperationsStaySafe(t, rs[0].id, rs[0], 0);
      WaiterGetsFirstReply(Offer(t, rs[0].id, rs[0]), rs[1..], id);
    }
  }
}
