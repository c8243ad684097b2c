/**
 * The message channel (`network/channel.go`): one frame is a four byte big endian header
 * length, the header, and a body of the length announced by the header.
 */
module Channels {
  import opened Prelude
  import opened HeaderCodec
  import opened Messages
  import opened AckTables
  import opened ByteStreams

  const HEADER_LENGTH_SIZE: nat := 4

  datatype ChannelError =
    | Stream(cause: StreamError)
    | BadHeader
    | UnknownType
    | BadBody
    | MarshalFailed
    | WriteFailed
    | Timeout
    | ChannelClosed

  /** A `ChannelUnmarshaler`: the body decoder of a message type, if it knows the type. */
  type Unmarshaler<!B> = Bytes -> Option<Bytes -> Option<B>>

  /** `unmarshalData`: the first unmarshaler that knows the type decides; with no unmarshalers
      at all the body is nil. */
  function UnmarshalBody<B>(us: seq<Unmarshaler<B>>, mtype: Bytes, data: Bytes): Result<Option<B>, ChannelError> {
    if us == [] then Ok(None) else DecodeWithFirst(us, mtype, data)
  }

  function DecodeWithFirst<B>(us: seq<Unmarshaler<B>>, mtype: Bytes, data: Bytes): Result<Option<B>, ChannelError> {
    if us == [] then Err(UnknownType)
    else match us[0](mtype)
      case None => DecodeWithFirst(us[1..], mtype, data)
      case Some(decode) => (
        match decode(data)
        case None => Err(BadBody)
        case Some(body) => Ok(Some(body)))
  }

  function MarshalBody<B>(marshal: B -> Option<Bytes>, body: Option<B>): Option<Bytes> {
    match body case None => Some([]) case Some(b) => marshal(b)
  }

  function HeaderOf<B>(m: Msg<B>, bodyLength: nat): HeaderData {
    HeaderData(KindOf(m), m.id, m.mtype, bodyLength % TWO_32)
  }

  /** The bytes of one message; both lengths are cut to 32 bits. */
  function FrameOf<B>(marshal: B -> Option<Bytes>, m: Msg<B>): Option<Bytes> {
    match MarshalBody(marshal, m.body)
    case None => None
    case Some(body) =>
      match MarshalHeader(HeaderOf(m, |body|))
      case None => None
      case Some(header) => Some(PutUint32(|header|) + header + body)
  }

  /** One turn of the reading loop: a message with its kind, or the error; and what is left unread. */
  datatype FrameResult<+B> =
    | Got(kind: nat, msg: Msg<B>, rest: Bytes)
    | Bad(error: ChannelError, rest: Bytes)

  function ParseFrame<B>(us: seq<Unmarshaler<B>>, b: Bytes): (r: FrameResult<B>)
    ensures |r.rest| <= |b| && (r.Got? ==> |r.rest| < |b|)
  {
    match ReadFullSpec(b, HEADER_LENGTH_SIZE)
    case Err(e) => Bad(Stream(e), [])
    case Ok(length) =>
      var b1 := b[HEADER_LENGTH_SIZE..];
      match ReadFullSpec(b1, Uint32(length))
      case Err(e) => Bad(Stream(e), [])
      case Ok(header) =>
        var b2 := b1[|header|..];
        match UnmarshalHeader(header)
        case None => Bad(BadHeader, b2)
        case Some(h) =>
          match ReadFullSpec(b2, h.contentLength)
          case Err(e) => Bad(Stream(e), [])
          case Ok(body) =>
            var b3 := b2[|body|..];
            match UnmarshalBody(us, h.contentType, body)
            case Err(e) => Bad(e, b3)
            case Ok(data) => Got(h.kind, Msg(h.id, h.kind == KIND_ACK, false, h.contentType, 0, data), b3)
  }

  datatype ReadOutcome<+B> = ReadOutcome(result: Result<Msg<B>, ChannelError>, unread: Bytes, table: AckTable<Msg<B>>)

  /** `Read`: replies go to their waiters; with `multiple` set the loop goes on past them. */
  function ReadSpec<B>(us: seq<Unmarshaler<B>>, b: Bytes, t: AckTable<Msg<B>>, multiple: bool): (r: ReadOutcome<B>)
    ensures |r.unread| <= |b| && (r.result.Ok? ==> |r.unread| < |b|)
    ensures |r.table.chans| == |t.chans|
    decreases |b|
  {
    match ParseFrame(us, b)
    case Bad(e, rest) => ReadOutcome(Err(e), rest, t)
    case Got(kind, msg, rest) =>
      if kind != KIND_ACKR then ReadOutcome(Ok(msg), rest, t)
      else if multiple then ReadSpec(us, rest, Offer(t, msg.id, msg), multiple)
      else ReadOutcome(Ok(msg), rest, Offer(t, msg.id, msg))
  }

  /** The `select` of a waiting sender, once one of its branches is ready. */
  function Wake<B>(t: AckTable<Msg<B>>, c: nat, timerFires: bool): Result<Msg<B>, ChannelError>
    requires c < |t.chans|
  {
    if timerFires then Err(Timeout)
    else match t.chans[c].buf
      case Some(m) => Ok(m)
      case None => Err(if t.chans[c].closed then ChannelClosed else Timeout)
  }

  datatype SendOutcome<+B> = SendOutcome(result: Result<Option<Msg<B>>, ChannelError>, unread: Bytes,
    table: AckTable<Msg<B>>)

  /**
   * `SendAndRead` of a request whose frame was written, when the background `Read(false)` is done
   * before the `select`: one frame is consumed, whatever it is, and only a reply with the id of
   * the request can wake the sender.
   */
  function SendAndReadSpec<B>(us: seq<Unmarshaler<B>>, b: Bytes, t: AckTable<Msg<B>>, id: Bytes,
    timerFires: bool): SendOutcome<B> {
    var read := ReadSpec(us, b, Register(t, id), false);
    match Wake(read.table, |t.chans|, timerFires)
    case Err(e) => SendOutcome(Err(e), read.unread, Unregister(read.table, id))
    case Ok(m) => SendOutcome(Ok(Some(m)), read.unread, Unregister(Take(read.table, |t.chans|), id))
  }

  class Channel<B(==)> {
    const unmarshalers: seq<Unmarshaler<B>>
    const marshal: B -> Option<Bytes>
    const stream: ByteStream
    var acks: map<Bytes, nat>
    var chans: seq<Chan<Msg<B>>>

    ghost function Table(): AckTable<Msg<B>>
      reads this
    {
      AckTable(acks, chans, false)
    }

    ghost predicate Valid()
      reads this
    {
      Safe(Table())
    }

    constructor (stream: ByteStream, unmarshalers: seq<Unmarshaler<B>>, marshal: B -> Option<Bytes>)
      ensures Valid() && Table() == AckTable(map[], [], false)
      ensures this.stream == stream && this.unmarshalers == unmarshalers && this.marshal == marshal
    {
      this.stream, this.unmarshalers, this.marshal := stream, unmarshalers, marshal;
      acks, chans := map[], [];
    }

    method UnmarshalData(mtype: Bytes, data: Bytes) returns (r: Result<Option<B>, ChannelError>)
      ensures r == UnmarshalBody(unmarshalers, mtype, data)
    {
      r := Ok(None);
      var i := 0;
      while i < |unmarshalers|
        invariant i <= |unmarshalers|
        invariant i == 0 ==> r == Ok(None)
        invariant i > 0 ==> r == Err(UnknownType)
        invariant i > 0 ==> DecodeWithFirst(unmarshalers[i..], mtype, data) == UnmarshalBody(unmarshalers, mtype, data)
      {
        assert unmarshalers[i..][1..] == unmarshalers[i + 1..];
        assert i == 0 ==> unmarshalers[i..] == unmarshalers;
        var decoder := unmarshalers[i](mtype);
        if decoder.Some? {
          var body := decoder.value(data);
          return if body.Some? then Ok(Some(body.value)) else Err(BadBody);
        }
        r := Err(UnknownType);
        i := i + 1;
      }
    }

    /** One turn of the loop of `Read`, up to the built message. */
    method ReadFrame() returns (kind: nat, r: Result<Msg<B>, ChannelError>)
      modifies stream`inbound
      ensures stream.Unread() == ParseFrame(unmarshalers, old(stream.Unread())).rest
      ensures match ParseFrame(unmarshalers, old(stream.Unread()))
              case Bad(e, _) => r == Err(e)
              case Got(k, m, _) => kind == k && r == Ok(m)
    {
      kind := KIND_NORMAL;
      var length := stream.ReadFull(HEADER_LENGTH_SIZE);
      if length.Err? {
        return kind, Err(Stream(length.error));
      }
      var header := stream.ReadFull(Uint32(length.value));
      if header.Err? {
        return kind, Err(Stream(header.error));
      }
      var h := UnmarshalHeader(header.value);
      if h.None? {
        return kind, Err(BadHeader);
      }
      var body := stream.ReadFull(h.value.contentLength);
      if body.Err? {
        return kind, Err(Stream(body.error));
      }
      var data := UnmarshalData(h.value.contentType, body.value);
      if data.Err? {
        return kind, Err(data.error);
      }
      kind := h.value.kind;
      r := Ok(Msg(h.value.id, kind == KIND_ACK, false, h.value.contentType, 0, data.value));
    }

    /** The send on the reply channel, which does nothing when nobody waits or a reply is already there. */
    method OfferReply(msg: Msg<B>)
      requires Valid()
      modifies this`chans
      ensures Valid() && Table() == Offer(old(Table()), msg.id, msg)
    {
      OperationsStaySafe(Table(), msg.id, msg, 0);
      if msg.id in acks {
        var c := acks[msg.id];
        assert !chans[c].closed;
        if chans[c].buf.None? {
          chans := chans[c := chans[c].(buf := Some(msg))];
        }
      }
    }

    method Read(multiple: bool) returns (r: Result<Msg<B>, ChannelError>)
      requires Valid()
      modifies this`chans, stream`inbound
      ensures Valid()
      ensures ReadOutcome(r, stream.Unread(), Table())
              == ReadSpec(unmarshalers, old(stream.Unread()), old(Table()), multiple)
    {
      while true
        invariant Valid()
        invariant ReadSpec(unmarshalers, stream.Unread(), Table(), multiple)
               == ReadSpec(unmarshalers, old(stream.Unread()), old(Table()), multiple)
        decreases |stream.Unread()|
      {
        var kind, msg := ReadFrame();
        if msg.Err? {
          return msg;
        }
        if kind == KIND_ACKR {
          OfferReply(msg.value);
          if multiple {
            continue;
          }
        }
        return msg;
      }
    }

    /** `write`: fills in what the message lacks, prints it and hands all bytes over at once. */
    method Write(msg: Message<B>, uuid: Bytes) returns (r: Result<(), ChannelError>)
      modifies msg, stream`outbound
      ensures msg.Value() == Initialized(old(msg.Value()), uuid)
      ensures match FrameOf(marshal, msg.Value())
              case None => r == Err(MarshalFailed) && stream.outbound == old(stream.outbound)
              case Some(frame) =>
                && r == (if stream.writable then Ok(()) else Err(WriteFailed))
                && stream.outbound == old(stream.outbound) + if stream.writable then frame else []
    {
      msg.Init(uuid);
      ghost var m := msg.Value();
      var body := MarshalBody(marshal, msg.Body);
      if body.None? {
        return Err(MarshalFailed);
      }
      var kind := KIND_NORMAL;
      if msg.Ack {
        kind := KIND_ACK;
      } else if msg.Ackr {
        kind := KIND_ACKR;
      }
      var header := MarshalHeader(HeaderData(kind, msg.Id, msg.Type, |body.value| % TWO_32));
      if header.None? {
        return Err(MarshalFailed);
      }
      var send := PutUint32(|header.value|);
      send := send + header.value;
      send := send + body.value;
      var ok := stream.Write(send);
      return if ok then Ok(()) else Err(WriteFailed);
    }

    /** The first locked section of `Send`. */
    method BeginSend(id: Bytes) returns (c: nat)
      requires Valid()
      modifies this
      ensures Valid() && Table() == Register(old(Table()), id)
      ensures c == |old(chans)| && acks[id] == c && chans[c] == Chan(None, false)
    {
      OperationsStaySafe(Table(), id, Msg([], false, false, [], 0, None), 0);
      c := |chans|;
      chans := chans + [Chan(None, false)];
      acks := acks[id := c];
    }

    /** The `select` of `Send`: a buffered reply is taken even when the channel was closed since. */
    method Await(c: nat, timerFires: bool) returns (r: Result<Msg<B>, ChannelError>)
      requires Valid() && c < |chans|
      modifies this`chans
      ensures Valid() && r == Wake(old(Table()), c, timerFires)
      ensures Table() == if r.Ok? then Take(old(Table()), c) else old(Table())
    {
      OperationsStaySafe(Table(), [], Msg([], false, false, [], 0, None), c);
      if timerFires {
        return Err(Timeout);
      }
      if chans[c].buf.Some? {
        r := Ok(chans[c].buf.value);
        chans := chans[c := chans[c].(buf := None)];
        return;
      }
      return Err(if chans[c].closed then ChannelClosed else Timeout);
    }

    /** The last locked section of `Send`. */
    method EndSend(id: Bytes)
      requires Valid()
      modifies this`acks
      ensures Valid() && Table() == Unregister(old(Table()), id)
    {
      acks := acks - {id};
    }

    /** `SendAndRead`: the request is registered before it is written, so its reply finds it. */
    method SendAndRead(msg: Message<B>, uuid: Bytes, timerFires: bool)
      returns (r: Result<Option<Msg<B>>, ChannelError>)
      requires Valid() && msg.Ack && msg.Id != []
      modifies this, msg, stream
      ensures Valid()
      ensures msg.Value() == Initialized(old(msg.Value()), uuid) && stream.writable == old(stream.writable)
      ensures match FrameOf(marshal, msg.Value())
              case None =>
                && r == Err(MarshalFailed) && Table() == Register(old(Table()), old(msg.Id))
                && stream.Unread() == old(stream.Unread()) && stream.outbound == old(stream.outbound)
              case Some(frame) =>
                if !stream.writable then
                  && r == Err(WriteFailed) && Table() == Register(old(Table()), old(msg.Id))
                  && stream.Unread() == old(stream.Unread()) && stream.outbound == old(stream.outbound)
                else
                  && stream.outbound == old(stream.outbound) + frame
                  && SendOutcome(r, stream.Unread(), Table())
                     == SendAndReadSpec(unmarshalers, old(stream.Unread()), old(Table()), old(msg.Id), timerFires)
    {
      var id := msg.Id;
      var c := BeginSend(id);
      var written := Write(msg, uuid);
      if written.Err? {
        return Err(written.error);
      }
      var _ := Read(false);
      var woken := Await(c, timerFires);
      EndSend(id);
      return match woken case Err(e) => Err(e) case Ok(m) => Ok(Some(m));
    }

    /** `Close`: the loop visits the registered ids in any order. */
    method Close()
      requires Valid()
      modifies this, stream`writable
      ensures Valid() && Table() == CloseAll(old(Table())) && !stream.writable
    {
      ghost var before := Table();
      while acks != map[]
        invariant ClosedSoFar(before, acks, chans)
        decreases acks.Keys
      {
        var id :| id in acks;
        var c := acks[id];
        assert !chans[c].closed by { assert c in acks.Values; }
        CloseOneMore(before, acks, chans, id);
        chans := chans[c := chans[c].(closed := true)];
        acks := acks - {id};
      }
      ClosedAll(before, acks, chans);
      stream.Close();
    }
  }

  /** In the middle of `Close`: `acks` is what is still registered, `chans` the channels by now. */
  ghost predicate ClosedSoFar<M>(t: AckTable<M>, acks: map<Bytes, nat>, chans: seq<Chan<M>>) {
    && Safe(t)
    && acks.Keys <= t.acks.Keys
    && (forall id | id in acks :: acks[id] == t.acks[id])
    && |chans| == |t.chans|
    && forall i | 0 <= i < |chans| ::
      chans[i] == if i in t.acks.Values && i !in acks.Values then t.chans[i].(closed := true) else t.chans[i]
  }

  /** With distinct channels, forgetting one id takes exactly its channel out of the values. */
  lemma CloseOneMore<M>(t: AckTable<M>, acks: map<Bytes, nat>, chans: seq<Chan<M>>, id: Bytes)
    requires ClosedSoFar(t, acks, chans) && id in acks
    ensures acks[id] < |chans|
    ensures ClosedSoFar(t, acks - {id}, chans[acks[id] := chans[acks[id]].(closed := true)])
  {
    var less, c := acks - {id}, acks[id];
    assert c == t.acks[id] && c in t.acks.Values && c in acks.Values;
    forall v ensures v in less.Values <==> v in acks.Values && v != c {
      if v in acks.Values && v != c {
        var k :| k in acks && acks[k] == v;
        assert k in less && less[k] == v;
      }
      if v in less.Values {
        var k :| k in less && less[k] == v;
        assert k in acks && t.acks[k] == v;
      }
    }
  }

  lemma ClosedAll<M>(t: AckTable<M>, acks: map<Bytes, nat>, chans: seq<Chan<M>>)
    requires ClosedSoFar(t, acks, chans) && acks == map[]
    ensures AckTable(acks, chans, false) == CloseAll(t)
    ensures Safe(AckTable(acks, chans, false))
  {
    assert chans == CloseAll(t).chans;
  }
}
