/** Messages of the channel protocol (`network/message.go`), generic in the body they carry. */
module Messages {
  import opened Prelude
  import opened HeaderCodec

  /** `network.RequestTimeout`, in nanoseconds. */
  const REQUEST_TIMEOUT: nat := 10_000_000_000

  datatype MessageError = NoReplyExpected

  /** The value of a message: `MessageContext`, `MessageOptions` and the body (absent when nil). */
  datatype Msg<+B> = Msg(id: Bytes, ack: bool, ackr: bool, mtype: Bytes, timeout: nat, body: Option<B>)

  /** `Message.init`: a missing id and a missing timeout are filled in, nothing else changes. */
  function Initialized<B>(m: Msg<B>, uuid: Bytes): Msg<B> {
    m.(id := if m.id == [] then uuid else m.id,
       timeout := if m.timeout == 0 then REQUEST_TIMEOUT else m.timeout)
  }

  function NewMessage<B>(mtype: Bytes, body: Option<B>, ack: bool, timeout: nat, uuid: Bytes): Msg<B> {
    Initialized(Msg([], ack, false, mtype, timeout, body), uuid)
  }

  /** The reply to `m`; `uuid` is only drawn on when the request itself carries no id. */
  function Reply<B>(m: Msg<B>, mtype: Bytes, body: Option<B>, uuid: Bytes): Result<Msg<B>, MessageError> {
    if !m.ack then Err(NoReplyExpected)
    else Ok(Initialized(NewMessage(mtype, body, false, 0, uuid).(id := m.id, ackr := true), uuid))
  }

  /** The kind written in the header: a request wins over a reply when both flags are set. */
  function KindOf<B>(m: Msg<B>): nat {
    if m.ack then KIND_ACK else if m.ackr then KIND_ACKR else KIND_NORMAL
  }

  /** What the reader at the other end builds from a message: no reply flag and no options. */
  function Received<B>(m: Msg<B>): Msg<B> {
    m.(ackr := false, timeout := 0)
  }

  /**
   * A generated reply exists exactly when the request asks for one; it carries the id of the
   * request, is written as a reply, and can itself never ask for a reply.
   */
  lemma ReplyAnswersItsRequest<B>(m: Msg<B>, mtype: Bytes, body: Option<B>, uuid: Bytes)
    ensures Reply(m, mtype, body, uuid).Ok? <==> KindOf(m) == KIND_ACK
    ensures Reply(m, mtype, body, uuid).Ok? ==>
      var r := Reply(m, mtype, body, uuid).value;
      && KindOf(r) == KIND_ACKR
      && Reply(r, mtype, body, uuid).Err?
      && (m.id != [] ==> r.id == m.id)
      && r.mtype == mtype && r.body == body && !r.ack && r.ackr && r.timeout == 10_000_000_000
  {
  }

  /** A message object; `init` and the writer change it in place. */
  class Message<B(==)> {
    var Id: Bytes
    var Ack: bool
    var Ackr: bool
    var Type: Bytes
    var Timeout: nat
    var Body: Option<B>

    function Value(): Msg<B>
      reads this
    {
      Msg(Id, Ack, Ackr, Type, Timeout, Body)
    }

    /** `NewMessageWithOptions`. */
    constructor WithOptions(mtype: Bytes, body: Option<B>, ack: bool, timeout: nat, uuid: Bytes)
      ensures Value() == NewMessage(mtype, body, ack, timeout, uuid)
      ensures Id == uuid && Ack == ack && !Ackr && Type == mtype && Body == body
      ensures Timeout == if timeout == 0 then 10_000_000_000 else timeout
    {
      Id, Ack, Ackr, Type, Timeout, Body := [], ack, false, mtype, timeout, body;
      new;
      Init(uuid);
    }

    /** The object `Read` builds around a received message. */
    constructor FromValue(m: Msg<B>)
      ensures Value() == m
    {
      Id, Ack, Ackr, Type, Timeout, Body := m.id, m.ack, m.ackr, m.mtype, m.timeout, m.body;
    }

    method Init(uuid: Bytes)
      modifies this
      ensures Value() == Initialized(old(Value()), uuid)
      ensures Id == (if old(Id) == [] then uuid else old(Id)) && Ack == old(Ack) && Ackr == old(Ackr)
      ensures Timeout == (if old(Timeout) == 0 then 10_000_000_000 else old(Timeout)) && Type == old(Type)
      ensures Body == old(Body)
    {
      if |Id| == 0 {
        Id := uuid;
      }
      if Timeout == 0 {
        Timeout := REQUEST_TIMEOUT;
      }
    }

    method GenReply(mtype: Bytes, body: Option<B>, uuid: Bytes) returns (r: Result<Message<B>, MessageError>)
      ensures r.Ok? ==> fresh(r.value)
      ensures match Reply(Value(), mtype, body, uuid)
              case Ok(m) => r.Ok? && r.value.Value() == m
              case Err(e) => r == Err(e)
    {
      if !Ack {
        return Err(NoReplyExpected);
      }
      var msg := new Message.WithOptions(mtype, body, false, 0, uuid);
      msg.Id := Id;
      msg.Ackr := true;
      msg.Init(uuid);
      return Ok(msg);
    }
  }
}
