/**
 * The handshake that turns a raw stream into a named one (`udp/stream.go`): the opener sends its
 * connection data as a request, the acceptor confirms it, and from then on both sides use the
 * stream for bytes of their own.
 */
module Handshake {
  import opened Prelude
  import opened HeaderCodec
  import opened Messages
  import opened AckTables
  import opened ByteStreams
  import opened Channels
  import opened Framing

  /** The bodies that matter here; every other message type is opaque. */
  datatype Body =
    | ConnectionData(id: Bytes, metadata: map<Bytes, Bytes>, data: map<Bytes, Bytes>)
    | ConnectionStatus(id: Bytes, status: bool, message: Bytes)
    | Opaque(bytes: Bytes)

  /** The message types, as bytes: `network-stream-conn-data` and `network-stream-conn-status`. */
  datatype Types = Types(connectionData: Bytes, connectionStatus: Bytes, accepted: Bytes)

  datatype StreamError =
    | Failed(cause: ChannelError)
    | InvalidConnectionMessage
    | NoReplyRequested
    | WrongReplyType
    | Refused(message: Bytes)

  datatype StreamInfo = StreamInfo(id: Bytes, metadata: map<Bytes, Bytes>, data: map<Bytes, Bytes>)

  type Marshal = Body -> Option<Bytes>

  function Request(ty: Types, info: StreamInfo, uuid: Bytes): Msg<Body> {
    NewMessage(ty.connectionData, Some(ConnectionData(info.id, info.metadata, info.data)), true, REQUEST_TIMEOUT, uuid)
  }

  /** The acceptor's decision on what it read: the stream's data and the confirmation to write. */
  function Decide(ty: Types, m: Msg<Body>, uuid: Bytes): Result<(StreamInfo, Msg<Body>), StreamError> {
    if m.body.None? || !m.body.value.ConnectionData? then Err(InvalidConnectionMessage)
    else
      var d := m.body.value;
      match Reply(m, ty.connectionStatus, Some(ConnectionStatus(d.id, true, ty.accepted)), uuid)
      case Err(_) => Err(NoReplyRequested)
      case Ok(reply) => Ok((StreamInfo(d.id, d.metadata, d.data), reply))
  }

  /** The acceptor as a whole: its result, what it leaves unread, what it writes, and whether it
      keeps its direction open. */
  datatype Accepted = Accepted(result: Result<StreamInfo, StreamError>, unread: Bytes, written: Bytes, open: bool)

  function AcceptSpec(us: seq<Unmarshaler<Body>>, marshal: Marshal, ty: Types, b: Bytes, uuid: Bytes,
    writable: bool): Accepted {
    match ParseFrame(us, b)
    case Bad(e, rest) => Accepted(Err(Failed(e)), rest, [], false)
    case Got(_, m, rest) => AnswerSpec(marshal, ty, m, rest, uuid, writable)
  }

  /** The acceptor once it has read a message. */
  function AnswerSpec(marshal: Marshal, ty: Types, m: Msg<Body>, rest: Bytes, uuid: Bytes, writable: bool): Accepted {
    match Decide(ty, m, uuid)
    case Err(InvalidConnectionMessage) => Accepted(Err(InvalidConnectionMessage), rest, [], false)
    case Err(e) => Accepted(Err(e), rest, [], writable)
    case Ok((info, reply)) =>
      match FrameOf(marshal, reply)
      case None => Accepted(Err(Failed(MarshalFailed)), rest, [], writable)
      case Some(frame) =>
        if writable then Accepted(Ok(info), rest, frame, true)
        else Accepted(Err(Failed(WriteFailed)), rest, [], false)
  }

  /** The opener's verdict on what its send returned. */
  function Verdict(r: Result<Option<Msg<Body>>, ChannelError>): Result<(), StreamError> {
    match r
    case Err(e) => Err(Failed(e))
    case Ok(None) => Err(WrongReplyType)
    case Ok(Some(m)) =>
      if m.body.None? || !m.body.value.ConnectionStatus? then Err(WrongReplyType)
      else if !m.body.value.status then Err(Refused(m.body.value.message))
      else Ok(())
  }

  class Stream {
    const channel: Channel<Body>
    const Id: Bytes
    const Metadata: map<Bytes, Bytes>
    const Data: map<Bytes, Bytes>
    var initialized: bool
    var exitTokens: nat
    var Closed: bool

    function Info(): StreamInfo {
      StreamInfo(Id, Metadata, Data)
    }

    ghost predicate Valid()
      reads this, channel
    {
      channel.Valid() && exitTokens <= 1
    }

    /** `newStream` before the handshake; the exit channel has room for one token. */
    constructor (info: StreamInfo, channel: Channel<Body>, shouldInitialize: bool)
      requires channel.Valid()
      ensures Valid() && Info() == info && this.channel == channel
      ensures initialized == !shouldInitialize && !Closed && exitTokens == 0
    {
      this.channel, Id, Metadata, Data := channel, info.id, info.metadata, info.data;
      initialized, exitTokens, Closed := !shouldInitialize, 0, false;
    }

    /** The opener's half of the handshake. A reply of another type makes the original panic. */
    method Initialize(ty: Types, uuid: Bytes, timerFires: bool) returns (r: Result<(), StreamError>)
      requires Valid() && !initialized && uuid != []
      modifies this, channel, channel.stream
      ensures Valid() && initialized == r.Ok? && channel.stream.writable == old(channel.stream.writable)
      ensures var m := Request(ty, Info(), uuid);
        match FrameOf(channel.marshal, m)
        case None => r == Err(Failed(MarshalFailed))
        case Some(frame) =>
          if !channel.stream.writable then r == Err(Failed(WriteFailed))
          else
            var s := SendAndReadSpec(channel.unmarshalers, old(channel.stream.Unread()), old(channel.Table()), m.id,
              timerFires);
            && r == Verdict(s.result)
            && channel.stream.Unread() == s.unread
            && channel.stream.outbound == old(channel.stream.outbound) + frame
    {
      var body := ConnectionData(Id, Metadata, Data);
      var msg := new Message.WithOptions(ty.connectionData, Some(body), true, REQUEST_TIMEOUT, uuid);
      var rmsg := channel.SendAndRead(msg, uuid, timerFires);
      r := Verdict(rmsg);
      if r.Ok? {
        initialized := true;
      }
    }

    /** `Close`: a second close does nothing, so the exit token is issued once. */
    method Close()
      requires Valid()
      modifies this, channel, channel.stream`writable
      ensures Valid() && Closed && initialized == old(initialized)
      ensures old(Closed) ==> exitTokens == old(exitTokens) && channel.Table() == old(channel.Table())
                              && channel.stream.writable == old(channel.stream.writable)
      ensures !old(Closed) ==> exitTokens == 1 && channel.Table() == CloseAll(old(channel.Table()))
                               && !channel.stream.writable
    {
      if Closed {
        return;
      }
      channel.Close();
      if exitTokens == 0 {
        exitTokens := exitTokens + 1;
      }
      Closed := true;
    }
  }

  /** `HandleStream`: the acceptor's half. */
  method HandleStream(stream: ByteStream, us: seq<Unmarshaler<Body>>, marshal: Marshal, ty: Types, uuid: Bytes)
    returns (r: Result<Stream, StreamError>)
    modifies stream
    ensures var a := AcceptSpec(us, marshal, ty, old(stream.Unread()), uuid, old(stream.writable));
      && (match a.result
          case Err(e) => r == Err(e)
          case Ok(info) =>
            && r.Ok? && fresh(r.value) && r.value.Valid() && r.value.initialized && !r.value.Closed
            && r.value.Info() == info && r.value.channel.stream == stream)
      && stream.Unread() == a.unread
      && stream.outbound == old(stream.outbound) + a.written
      && stream.writable == a.open
  {
    var channel := new Channel(stream, us, marshal);
    var read := channel.Read(false);
    if read.Err? {
      stream.Close();
      return Err(Failed(read.error));
    }
    hide ParseFrame, FrameOf, Decide, AnswerSpec;
    var answered := Answer(channel, read.value, ty, uuid);
    if answered.Err? {
      return Err(answered.error);
    }
    var cstream := new Stream(answered.value, channel, false);
    return Ok(cstream);
  }

  /** The rest of `HandleStream`, once a message was read: it is confirmed if it asks for a stream
      and for a reply. */
  method Answer(channel: Channel<Body>, m: Msg<Body>, ty: Types, uuid: Bytes)
    returns (r: Result<StreamInfo, StreamError>)
    modifies channel.stream`outbound, channel.stream`writable
    ensures var a := AnswerSpec(channel.marshal, ty, m, channel.stream.Unread(), uuid, old(channel.stream.writable));
      && r == a.result
      && channel.stream.outbound == old(channel.stream.outbound) + a.written
      && channel.stream.writable == a.open
  {
    hide FrameOf;
    var body := m.body;
    if body.None? || !body.value.ConnectionData? {
      channel.stream.Close();
      return Err(InvalidConnectionMessage);
    }
    var data := body.value;
    var msg := new Message.FromValue(m);
    var rmsg := msg.GenReply(ty.connectionStatus, Some(ConnectionStatus(data.id, true, ty.accepted)), uuid);
    if rmsg.Err? {
      return Err(NoReplyRequested);
    }
    var sent := channel.Write(rmsg.value, uuid);
    if sent.Err? {
      return Err(Failed(sent.error));
    }
    return Ok(StreamInfo(data.id, data.metadata, data.data));
  }

  /** The confirmation the acceptor writes for the opener's request. */
  function Confirmation(ty: Types, info: StreamInfo, uuid: Bytes, uuid': Bytes): Msg<Body>
    requires uuid != []
  {
    Decide(ty, Received(Request(ty, info, uuid)), uuid').value.1
  }

  /**
   * The acceptor reads the opener's request followed by any raw bytes, the opener reads what the
   * acceptor wrote followed by any raw bytes. The opener succeeds exactly when its timer does not
   * fire and the acceptor succeeded; then both name the same id, metadata and data, and each
   * direction has consumed one frame: all raw bytes, from the first, are still to be read.
   */
  lemma HandshakeHandsOver(us: seq<Unmarshaler<Body>>, marshal: Marshal, ty: Types, info: StreamInfo,
                           uuid: Bytes, uuid': Bytes, raw: Bytes, raw': Bytes,
                           t: AckTable<Msg<Body>>, writable: bool, timerFires: bool)
    requires uuid != [] && Safe(t)
    requires Readable(us, marshal, Request(ty, info, uuid))
    requires Readable(us, marshal, Confirmation(ty, info, uuid, uuid'))
    ensures var a := AcceptSpec(us, marshal, ty, FrameOf(marshal, Request(ty, info, uuid)).value + raw, uuid',
      writable);
      var s := SendAndReadSpec(us, a.written + (if a.result.Ok? then raw' else []), t, uuid, timerFires);
      && a.unread == raw
      && (a.result.Ok? <==> writable)
      && (Verdict(s.result).Ok? <==> a.result.Ok? && !timerFires)
      && (a.result.Ok? ==> a.result == Ok(info) && s.unread == raw')
  {
    var m := Request(ty, info, uuid);
    var reply := Confirmation(ty, info, uuid, uuid');
    FrameRoundTrip(us, marshal, m, raw);
    if writable {
      FrameRoundTrip(us, marshal, reply, raw');
      ReplyWakesOpener(us, FrameOf(marshal, reply).value + raw', raw', t, uuid, Received(reply), timerFires);
    } else {
      assert ParseFrame(us, []).Bad?;
      NothingWakesOpener(us, [], t, uuid, timerFires);
    }
  }

  lemma ReplyWakesOpener<B>(us: seq<Unmarshaler<B>>, b: Bytes, rest: Bytes, t: AckTable<Msg<B>>, id: Bytes, m: Msg<B>,
    timerFires: bool)
    requires Safe(t) && ParseFrame(us, b) == Got(KIND_ACKR, m, rest) && m.id == id
    ensures var s := SendAndReadSpec(us, b, t, id, timerFires);
      s.unread == rest && s.result == if timerFires then Err(Timeout) else Ok(Some(m))
  {
  }

  lemma NothingWakesOpener<B>(us: seq<Unmarshaler<B>>, b: Bytes, t: AckTable<Msg<B>>, id: Bytes, timerFires: bool)
    requires ParseFrame(us, b).Bad?
    ensures SendAndReadSpec(us, b, t, id, timerFires).result == Err(Timeout)
  {
  }

  /** The two messages of a handshake, field by field. */
  lemma HandshakeMessages(ty: Types, info: StreamInfo, uuid: Bytes, uuid': Bytes)
    requires uuid != []
    ensures Request(ty, info, uuid) == Msg(uuid, true, false, ty.connectionData, 10_000_000_000,
      Some(ConnectionData(info.id, info.metadata, info.data)))
    ensures Confirmation(ty, info, uuid, uuid') == Msg(uuid, false, true, ty.connectionStatus, 10_000_000_000,
      Some(ConnectionStatus(info.id, true, ty.accepted)))
  {
  }

  /**
   * What the opener makes of any reply to its request that can be read: it is initialized by a
   * positive status and by nothing else, told of a refusal with its message, and the bytes behind
   * the reply are unread.
   */
  lemma OpenerTakesReply(us: seq<Unmarshaler<Body>>, marshal: Marshal, reply: Msg<Body>, raw: Bytes,
                         t: AckTable<Msg<Body>>, timerFires: bool)
    requires Safe(t) && Readable(us, marshal, reply) && !reply.ack && reply.ackr
    ensures var s := SendAndReadSpec(us, FrameOf(marshal, reply).value + raw, t, reply.id, timerFires);
      var v := Verdict(s.result);
      && s.unread == raw
      && (timerFires ==> v == Err(Failed(Timeout)))
      && (v.Ok? <==> !timerFires && exists id, message :: reply.body == Some(ConnectionStatus(id, true, message)))
      && (forall message :: v == Err(Refused(message)) <==>
            !timerFires && exists id :: reply.body == Some(ConnectionStatus(id, false, message)))
      && (v == Err(WrongReplyType) <==> !timerFires && !(reply.body.Some? && reply.body.value.ConnectionStatus?))
  {
    FrameRoundTrip(us, marshal, reply, raw);
    ReplyWakesOpener(us, FrameOf(marshal, reply).value + raw, raw, t, reply.id, Received(reply), timerFires);
    hide SendAndReadSpec, FrameOf, Readable;
    if reply.body.Some? && reply.body.value.ConnectionStatus? {
      assert reply.body == Some(ConnectionStatus(reply.body.value.id, reply.body.value.status,
        reply.body.value.message));
    }
  }

  /**
   * How the acceptor fails: it closes its direction of the raw stream if what it reads is no message
   * or asks for no stream; it leaves it as it was if no reply is asked for or the confirmation cannot
   * be printed. Only a success writes anything, and then exactly the confirmation.
   */
  lemma AcceptorFailures(us: seq<Unmarshaler<Body>>, marshal: Marshal, ty: Types, b: Bytes, uuid: Bytes, writable: bool)
    ensures var a := AcceptSpec(us, marshal, ty, b, uuid, writable);
      var read := ParseFrame(us, b);
      var asks := read.Got? && read.msg.body.Some? && read.msg.body.value.ConnectionData?;
      && (read.Bad? ==> a.result == Err(Failed(read.error)) && !a.open)
      && (a.result == Err(InvalidConnectionMessage) <==> read.Got? && !asks)
      && (a.result == Err(NoReplyRequested) <==> asks && !read.msg.ack)
      && (!asks ==> !a.open)
      && (asks ==> a.open == writable)
      && (a.result.Err? ==> a.written == [])
      && (a.result.Ok? ==>
          && asks && read.msg.ack && writable
          && a.result.value == StreamInfo(read.msg.body.value.id, read.msg.body.value.metadata,
            read.msg.body.value.data))
      && a.unread == read.rest
  {
    hide ParseFrame, FrameOf;
  }
}
