/**
 * The request/acknowledge protocol of `network/channel.go` as a state machine: two endpoints
 * joined by two reliable streams, any number of concurrent senders on each side, one reader and
 * a closer. A step is one locked section, one write, one read frame or one branch of a `select`;
 * timers may fire and channels may be closed at any time. `Links.LinkIsItsBytes` says which bytes
 * a stream of frames stands for; messages of 2^32 bytes or more, whose frames lose the boundary
 * (`Framing.FrameBoundary`), are not among them.
 */
module AckProtocol {
  import opened Prelude
  import opened HeaderCodec
  import opened Messages
  import opened AckTables
  import opened Calls

  /** At this level a body is the bytes it is printed as. */
  type Packet = Msg<Bytes>

  /** `Registered`: entered in the table; `Waiting`: also written; `Woken`: the select is over;
      `Done`: the entry was removed, or the write had failed and the entry was left behind. */
  datatype Pc = Registered | Waiting | Woken(outcome: Outcome<Packet>) | Done(outcome: Outcome<Packet>)

  /** The i-th sender of an endpoint made its i-th reply channel. */
  datatype Sender = Sender(req: Packet, pc: Pc)

  /** One call of `GenReply` whose result was written. */
  datatype Answer = Answer(request: Packet, mtype: Bytes, body: Option<Bytes>, uuid: Bytes)

  /** `inbox`: what `Read` has returned so far; `answers`: the replies written with `GenReply`. */
  datatype Endpoint = Endpoint(
    table: AckTable<Packet>, senders: seq<Sender>, inbox: set<Packet>, answers: set<Answer>)

  datatype Frame = Frame(kind: nat, msg: Packet)

  datatype Side = Left | Right

  datatype Sys = Sys(left: Endpoint, right: Endpoint, toLeft: seq<Frame>, toRight: seq<Frame>)

  datatype Step =
    | BeginSend(side: Side, req: Packet)
    | WriteRequest(side: Side, i: nat)
    | FailWrite(side: Side, i: nat)
    | SendPlain(side: Side, msg: Packet)
    | TakeReply(side: Side, i: nat)
    | NoticeClosed(side: Side, i: nat)
    | FireTimer(side: Side, i: nat)
    | EndSend(side: Side, i: nat)
    | ReadFrame(side: Side)
    | WriteReply(side: Side, answer: Answer)
    | CloseChannel(side: Side)

  ghost function Other(side: Side): Side {
    if side == Left then Right else Left
  }

  ghost function At(s: Sys, side: Side): Endpoint {
    if side == Left then s.left else s.right
  }

  ghost function Put(s: Sys, side: Side, e: Endpoint): Sys {
    if side == Left then s.(left := e) else s.(right := e)
  }

  ghost function Link(s: Sys, side: Side): seq<Frame> {
    if side == Left then s.toLeft else s.toRight
  }

  ghost function PutLink(s: Sys, side: Side, l: seq<Frame>): Sys {
    if side == Left then s.(toLeft := l) else s.(toRight := l)
  }

  ghost function Written(m: Packet): Frame {
    Frame(KindOf(m), Received(m))
  }

  ghost function ReplyOf(a: Answer): Result<Packet, MessageError> {
    Reply(a.request, a.mtype, a.body, a.uuid)
  }

  ghost function SetPc(e: Endpoint, i: nat, pc: Pc): Endpoint
    requires i < |e.senders|
  {
    e.(senders := e.senders[i := e.senders[i].(pc := pc)])
  }

  ghost predicate IsAt(e: Endpoint, i: nat, pc: Pc) {
    i < |e.senders| && i < |e.table.chans| && e.senders[i].pc == pc
  }

  ghost function Init(): Sys {
    var e := Endpoint(AckTable(map[], [], false), [], {}, {});
    Sys(e, e, [], [])
  }

  ghost predicate Enabled(e: Endpoint, inbound: seq<Frame>, step: Step) {
    match step
    case BeginSend(_, req) => req.ack && req.id != []
    case WriteRequest(_, i) => IsAt(e, i, Registered)
    case FailWrite(_, i) => IsAt(e, i, Registered)
    case SendPlain(_, msg) => KindOf(msg) == KIND_NORMAL
    case TakeReply(_, i) => IsAt(e, i, Waiting) && e.table.chans[i].buf.Some?
    case NoticeClosed(_, i) => IsAt(e, i, Waiting) && e.table.chans[i].buf.None? && e.table.chans[i].closed
    case FireTimer(_, i) => IsAt(e, i, Waiting)
    case EndSend(_, i) => i < |e.senders| && e.senders[i].pc.Woken? && e.senders[i].pc.outcome != NotSent
    case ReadFrame(_) => inbound != []
    case WriteReply(_, a) => a.request in e.inbox && ReplyOf(a).Ok?
    case CloseChannel(_) => true
  }

  /** One step of one endpoint: its new state, and the frames it appends to the stream to its peer. */
  ghost function Local(e: Endpoint, inbound: seq<Frame>, step: Step): (Endpoint, seq<Frame>)
    requires Enabled(e, inbound, step)
  {
    match step
    case BeginSend(_, req) =>
      (e.(table := Register(e.table, req.id), senders := e.senders + [Sender(req, Registered)]), [])
    case WriteRequest(_, i) => (SetPc(e, i, Waiting), [Written(e.senders[i].req)])
    case FailWrite(_, i) => (SetPc(e, i, Done(NotSent)), [])
    case SendPlain(_, msg) => (e, [Written(msg)])
    case TakeReply(_, i) =>
      (SetPc(e, i, Woken(Answered(e.table.chans[i].buf.value))).(table := Take(e.table, i)), [])
    case NoticeClosed(_, i) => (SetPc(e, i, Woken(Closed)), [])
    case FireTimer(_, i) => (SetPc(e, i, Woken(TimedOut)), [])
    case EndSend(_, i) =>
      (SetPc(e, i, Done(e.senders[i].pc.outcome)).(table := Unregister(e.table, e.senders[i].req.id)), [])
    case ReadFrame(_) =>
      var f := inbound[0];
      (if f.kind == KIND_ACKR then e.(table := Offer(e.table, f.msg.id, f.msg)) else e.(inbox := e.inbox + {f.msg}), [])
    case WriteReply(_, a) => (e.(answers := e.answers + {a}), [Written(ReplyOf(a).value)])
    case CloseChannel(_) => (e.(table := CloseAll(e.table)), [])
  }

  /** A step that is not enabled does nothing, so any sequence of steps is a schedule. */
  ghost function Apply(s: Sys, step: Step): Sys {
    var side := step.side;
    var inbound := Link(s, side);
    if !Enabled(At(s, side), inbound, step) then s
    else
      var (e, out) := Local(At(s, side), inbound, step);
      var s1 := Put(s, side, e);
      var s2 := if step.ReadFrame? then PutLink(s1, side, inbound[1..]) else s1;
      PutLink(s2, Other(side), Link(s2, Other(side)) + out)
  }

  ghost function Exec(s: Sys, steps: seq<Step>): Sys
    decreases |steps|
  {
    if steps == [] then s else Exec(Apply(s, steps[0]), steps[1..])
  }

  // ----- ack-map safety ---------------------------------------------------------------------

  /** The id in the table is the id of the sender whose channel it leads to. */
  ghost predicate TableInv(e: Endpoint) {
    && Safe(e.table)
    && |e.senders| == |e.table.chans|
    && (forall id | id in e.table.acks :: e.senders[e.table.acks[id]].req.id == id
                                          && Entered(e, e.table.acks[id]))
    && (forall i | 0 <= i < |e.senders| :: e.senders[i].req.ack && e.senders[i].req.id != []
                                           && ChannelInv(e.senders[i], e.table.chans[i]))
  }

  /** What arrived for a sender carries its id, and it reports a closed channel only if it is closed. */
  ghost predicate ChannelInv(w: Sender, c: Chan<Packet>) {
    && (c.buf.Some? ==> c.buf.value.id == w.req.id)
    && (w.pc.Woken? || w.pc.Done? ==>
        match w.pc.outcome
        case Answered(reply) => reply.id == w.req.id
        case Closed => c.closed
        case _ => true)
  }

  /** Registered and not yet cleaned up, or left behind by a failed write; and not closed. */
  ghost predicate Entered(e: Endpoint, i: nat)
    requires i < |e.senders| == |e.table.chans|
  {
    (e.senders[i].pc.Done? ==> e.senders[i].pc.outcome.NotSent?) && !e.table.chans[i].closed
  }

  lemma OffersKeepTable(e: Endpoint, f: Frame)
    requires TableInv(e)
    ensures TableInv(e.(table := Offer(e.table, f.msg.id, f.msg)))
  {
    OperationsStaySafe(e.table, f.msg.id, f.msg, 0);
  }

  lemma BeginKeepsTable(e: Endpoint, req: Packet)
    requires TableInv(e) && req.ack && req.id != []
    ensures TableInv(e.(table := Register(e.table, req.id), senders := e.senders + [Sender(req, Registered)]))
  {
    OperationsStaySafe(e.table, req.id, req, 0);
  }

  lemma EndKeepsTable(e: Endpoint, i: nat)
    requires TableInv(e) && i < |e.senders| && e.senders[i].pc.Woken?
    ensures TableInv(SetPc(e, i, Done(e.senders[i].pc.outcome)).(table := Unregister(e.table, e.senders[i].req.id)))
  {
    OperationsStaySafe(e.table, e.senders[i].req.id, e.senders[i].req, 0);
  }

  lemma TakeKeepsTable(e: Endpoint, i: nat)
    requires TableInv(e) && IsAt(e, i, Waiting) && e.table.chans[i].buf.Some?
    ensures TableInv(SetPc(e, i, Woken(Answered(e.table.chans[i].buf.value))).(table := Take(e.table, i)))
  {
    OperationsStaySafe(e.table, e.senders[i].req.id, e.senders[i].req, i);
  }

  lemma CloseKeepsTable(e: Endpoint)
    requires TableInv(e)
    ensures TableInv(e.(table := CloseAll(e.table)))
  {
    OperationsStaySafe(e.table, [], Msg([], false, false, [], 0, None), 0);
  }

  /** A step keeps the table safe, whatever ids are used. */
  lemma LocalKeepsTable(e: Endpoint, inbound: seq<Frame>, step: Step)
    requires TableInv(e) && Enabled(e, inbound, step)
    ensures TableInv(Local(e, inbound, step).0)
  {
    match step
    case BeginSend(_, req) => BeginKeepsTable(e, req);
    case TakeReply(_, i) => TakeKeepsTable(e, i);
    case EndSend(_, i) => EndKeepsTable(e, i);
    case ReadFrame(_) => OffersKeepTable(e, inbound[0]);
    case CloseChannel(_) => CloseKeepsTable(e);
    case _ =>
  }

  // ----- ack-map exactness ------------------------------------------------------------------

  /** Each request of the endpoint has an id of its own. */
  ghost predicate Distinct(e: Endpoint) {
    forall i, j | 0 <= i < j < |e.senders| :: e.senders[i].req.id != e.senders[j].req.id
  }

  ghost predicate ExactInv(e: Endpoint)
    requires |e.senders| == |e.table.chans|
  {
    Distinct(e) ==>
      forall i | 0 <= i < |e.senders| && Entered(e, i) ::
        e.senders[i].req.id in e.table.acks && e.table.acks[e.senders[i].req.id] == i
  }

  lemma BeginKeepsExact(e: Endpoint, req: Packet)
    requires TableInv(e) && ExactInv(e)
    ensures ExactInv(e.(table := Register(e.table, req.id), senders := e.senders + [Sender(req, Registered)]))
  {
    var e' := e.(table := Register(e.table, req.id), senders := e.senders + [Sender(req, Registered)]);
    if Distinct(e') {
      assert forall i | 0 <= i < |e.senders| ::
        e'.senders[i] == e.senders[i] && e'.senders[i].req.id != e'.senders[|e.senders|].req.id;
      forall i | 0 <= i < |e.senders| && Entered(e', i)
        ensures e'.senders[i].req.id in e'.table.acks && e'.table.acks[e'.senders[i].req.id] == i
      {
        assert Entered(e, i);
      }
    }
  }

  lemma EndKeepsExact(e: Endpoint, i: nat)
    requires TableInv(e) && ExactInv(e) && i < |e.senders| && e.senders[i].pc.Woken?
    requires e.senders[i].pc.outcome != NotSent
    ensures ExactInv(SetPc(e, i, Done(e.senders[i].pc.outcome)).(table := Unregister(e.table, e.senders[i].req.id)))
  {
    var e' := SetPc(e, i, Done(e.senders[i].pc.outcome)).(table := Unregister(e.table, e.senders[i].req.id));
    if Distinct(e') {
      SameRequestsSameDistinct(e, e');
      forall j | 0 <= j < |e.senders| && Entered(e', j)
        ensures e'.senders[j].req.id in e'.table.acks && e'.table.acks[e'.senders[j].req.id] == j
      {
        assert j != i && Entered(e, j);
        assert e'.senders[j].req.id != e'.senders[i].req.id;
      }
    }
  }

  lemma CloseKeepsExact(e: Endpoint)
    requires TableInv(e) && ExactInv(e)
    ensures ExactInv(e.(table := CloseAll(e.table)))
  {
    var e' := e.(table := CloseAll(e.table));
    if Distinct(e') {
      SameRequestsSameDistinct(e, e');
      forall i | 0 <= i < |e.senders| ensures !Entered(e', i) {
        if Entered(e, i) {
          assert e.table.acks[e.senders[i].req.id] in e.table.acks.Values;
        }
      }
    }
  }

  lemma SameRequestsSameDistinct(e: Endpoint, e': Endpoint)
    requires |e.senders| == |e'.senders|
    requires forall i | 0 <= i < |e.senders| :: e.senders[i].req == e'.senders[i].req
    ensures Distinct(e) <==> Distinct(e')
  {
  }

  /** Nothing registered or forgotten, nothing closed, and no sender started anew. */
  lemma OtherwiseKeepsExact(e: Endpoint, e': Endpoint)
    requires TableInv(e) && ExactInv(e) && e'.table.acks == e.table.acks
    requires |e'.senders| == |e.senders| == |e'.table.chans|
    requires forall i | 0 <= i < |e.senders| :: e'.senders[i].req == e.senders[i].req
    requires forall i | 0 <= i < |e.senders| :: Entered(e', i) ==> Entered(e, i)
    ensures ExactInv(e')
  {
    SameRequestsSameDistinct(e, e');
  }

  lemma LocalKeepsExact(e: Endpoint, inbound: seq<Frame>, step: Step)
    requires TableInv(e) && ExactInv(e) && Enabled(e, inbound, step)
    ensures |Local(e, inbound, step).0.senders| == |Local(e, inbound, step).0.table.chans|
    ensures ExactInv(Local(e, inbound, step).0)
  {
    hide ExactInv, Safe, ReplyOf, Written, Distinct;
    match step
    case BeginSend(_, req) => BeginKeepsExact(e, req);
    case EndSend(_, i) => EndKeepsExact(e, i);
    case CloseChannel(_) => CloseKeepsExact(e);
    case WriteRequest(_, i) => OtherwiseKeepsExact(e, SetPc(e, i, Waiting));
    case FailWrite(_, i) => OtherwiseKeepsExact(e, SetPc(e, i, Done(NotSent)));
    case NoticeClosed(_, i) => OtherwiseKeepsExact(e, SetPc(e, i, Woken(Closed)));
    case FireTimer(_, i) => OtherwiseKeepsExact(e, SetPc(e, i, Woken(TimedOut)));
    case TakeReply(_, i) => OtherwiseKeepsExact(e, Local(e, inbound, step).0);
    case ReadFrame(_) => OtherwiseKeepsExact(e, Local(e, inbound, step).0);
    case SendPlain(_, _) =>
    case WriteReply(_, a) => OtherwiseKeepsExact(e, e.(answers := e.answers + {a}));
  }

  // ----- correlation ------------------------------------------------------------------------

  /** The request was written: it is neither still unwritten nor was its write refused. */
  ghost predicate Past(pc: Pc) {
    pc != Registered && pc != Done(NotSent)
  }

  /** Some sender of the endpoint wrote the request that arrives as `m`. */
  ghost predicate Asked(asker: Endpoint, m: Packet) {
    exists i | 0 <= i < |asker.senders| :: Past(asker.senders[i].pc) && Received(asker.senders[i].req) == m
  }

  /** The endpoint wrote, with `GenReply`, the reply that arrives as `m`. */
  ghost predicate Wrote(peer: Endpoint, m: Packet) {
    exists a | a in peer.answers :: ReplyOf(a).Ok? && Received(ReplyOf(a).value) == m
  }

  /** What the messages between an asking endpoint and its peer go back to. */
  ghost predicate CorrInv(asker: Endpoint, peer: Endpoint, toAsker: seq<Frame>, toPeer: seq<Frame>) {
    && (forall f | f in toPeer :: f.kind == KIND_ACK <==> f.msg.ack)
    && (forall f | f in toPeer && f.msg.ack :: Asked(asker, f.msg))
    && (forall m | m in peer.inbox && m.ack :: Asked(asker, m))
    && (forall a | a in peer.answers :: a.request in peer.inbox && ReplyOf(a).Ok?)
    && (forall f | f in toAsker && f.kind == KIND_ACKR :: Wrote(peer, f.msg))
    && (forall c | c in asker.table.chans && c.buf.Some? :: Wrote(peer, c.buf.value))
    && (forall w | w in asker.senders && (w.pc.Woken? || w.pc.Done?) && w.pc.outcome.Answered? ::
      Wrote(peer, w.pc.outcome.reply))
  }

  lemma AskedStays(e: Endpoint, inbound: seq<Frame>, step: Step, m: Packet)
    requires Enabled(e, inbound, step) && Asked(e, m)
    ensures Asked(Local(e, inbound, step).0, m)
  {
    var e' := Local(e, inbound, step).0;
    var i :| 0 <= i < |e.senders| && Past(e.senders[i].pc) && Received(e.senders[i].req) == m;
    assert Past(e'.senders[i].pc) && e'.senders[i].req == e.senders[i].req;
  }

  lemma WroteStays(e: Endpoint, inbound: seq<Frame>, step: Step, m: Packet)
    requires Enabled(e, inbound, step) && Wrote(e, m)
    ensures Wrote(Local(e, inbound, step).0, m)
  {
    var a :| a in e.answers && ReplyOf(a).Ok? && Received(ReplyOf(a).value) == m;
    assert a in Local(e, inbound, step).0.answers;
  }

  /** What an endpoint emits: a request it asked, a plain message, or a reply it generated. */
  lemma EmittedFrames(e: Endpoint, inbound: seq<Frame>, step: Step)
    requires TableInv(e) && Enabled(e, inbound, step)
    ensures forall f | f in Local(e, inbound, step).1 ::
      && (f.kind == KIND_ACK <==> f.msg.ack)
      && (f.msg.ack ==> Asked(Local(e, inbound, step).0, f.msg))
      && (f.kind == KIND_ACKR ==> Wrote(Local(e, inbound, step).0, f.msg))
  {
    var (e', out) := Local(e, inbound, step);
    match step
    case WriteRequest(_, i) =>
      assert e.senders[i].req.ack;
      assert e'.senders[i].pc == Waiting && e'.senders[i].req == e.senders[i].req;
    case WriteReply(_, a) =>
      assert a in e'.answers;
    case _ =>
  }

  /** What an endpoint holds after a step it held before, or it was at the front of its stream. */
  lemma HeldReplies(e: Endpoint, inbound: seq<Frame>, step: Step, known: iset<Packet>)
    requires Enabled(e, inbound, step)
    requires forall c | c in e.table.chans && c.buf.Some? :: c.buf.value in known
    requires forall w | w in e.senders && (w.pc.Woken? || w.pc.Done?) && w.pc.outcome.Answered? ::
      w.pc.outcome.reply in known
    requires forall f | f in inbound && f.kind == KIND_ACKR :: f.msg in known
    ensures forall c | c in Local(e, inbound, step).0.table.chans && c.buf.Some? :: c.buf.value in known
    ensures forall w | w in Local(e, inbound, step).0.senders && (w.pc.Woken? || w.pc.Done?)
      && w.pc.outcome.Answered? ::
      w.pc.outcome.reply in known
  {
    var e' := Local(e, inbound, step).0;
    forall i | 0 <= i < |e'.table.chans| && e'.table.chans[i].buf.Some? ensures e'.table.chans[i].buf.value in known {
      if i < |e.table.chans| && e.table.chans[i].buf.Some? {
        assert e.table.chans[i] in e.table.chans;
      }
    }
    forall i | 0 <= i < |e'.senders| && (e'.senders[i].pc.Woken? || e'.senders[i].pc.Done?)
      && e'.senders[i].pc.outcome.Answered?
      ensures e'.senders[i].pc.outcome.reply in known
    {
      if i < |e.senders| {
        assert e.senders[i] in e.senders;
      }
    }
  }

  lemma AskerKeepsCorr(asker: Endpoint, peer: Endpoint, toAsker: seq<Frame>, toPeer: seq<Frame>, step: Step)
    requires TableInv(asker) && CorrInv(asker, peer, toAsker, toPeer) && Enabled(asker, toAsker, step)
    ensures var (asker', out) := Local(asker, toAsker, step);
            CorrInv(asker', peer, if step.ReadFrame? then toAsker[1..] else toAsker, toPeer + out)
  {
    hide Local, TableInv;
    var (asker', out) := Local(asker, toAsker, step);
    forall m | Asked(asker, m) ensures Asked(asker', m) {
      AskedStays(asker, toAsker, step, m);
    }
    EmittedFrames(asker, toAsker, step);
    HeldReplies(asker, toAsker, step, iset m | Wrote(peer, m));
  }

  lemma PeerKeepsCorr(asker: Endpoint, peer: Endpoint, toAsker: seq<Frame>, toPeer: seq<Frame>, step: Step)
    requires TableInv(peer) && CorrInv(asker, peer, toAsker, toPeer) && Enabled(peer, toPeer, step)
    ensures var (peer', out) := Local(peer, toPeer, step);
            CorrInv(asker, peer', toAsker + out, if step.ReadFrame? then toPeer[1..] else toPeer)
  {
    var (peer', out) := Local(peer, toPeer, step);
    forall m | Wrote(peer, m) ensures Wrote(peer', m) {
      WroteStays(peer, toPeer, step, m);
    }
    EmittedFrames(peer, toPeer, step);
  }

  // ----- all runs ---------------------------------------------------------------------------

  ghost predicate Inv(s: Sys) {
    && TableInv(s.left) && TableInv(s.right)
    && ExactInv(s.left) && ExactInv(s.right)
    && CorrInv(s.left, s.right, s.toLeft, s.toRight)
    && CorrInv(s.right, s.left, s.toRight, s.toLeft)
  }

  lemma ApplyKeepsInv(s: Sys, step: Step)
    requires Inv(s)
    ensures Inv(Apply(s, step))
  {
    hide TableInv, ExactInv, CorrInv, Enabled, Local;
    var side := step.side;
    var e, inbound := At(s, side), Link(s, side);
    if Enabled(e, inbound, step) {
      LocalKeepsTable(e, inbound, step);
      LocalKeepsExact(e, inbound, step);
      AskerKeepsCorr(e, At(s, Other(side)), inbound, Link(s, Other(side)), step);
      PeerKeepsCorr(At(s, Other(side)), e, Link(s, Other(side)), inbound, step);
    }
  }

  lemma {:induction false} ExecKeepsInv(s: Sys, steps: seq<Step>)
    requires Inv(s)
    ensures Inv(Exec(s, steps))
    decreases |steps|
  {
    if steps != [] {
      ApplyKeepsInv(s, steps[0]);
      ExecKeepsInv(Apply(s, steps[0]), steps[1..]);
    }
  }

  /**
   * Under every schedule, with any ids: every registered channel is open, belongs to exactly one
   * sender and was made by it under that id; no reply was sent on a closed channel and no
   * channel was closed twice.
   */
  lemma AckMapSafety(steps: seq<Step>, side: Side)
    ensures var e := At(Exec(Init(), steps), side);
      && !e.table.panicked
      && |e.senders| == |e.table.chans|
      && (forall id | id in e.table.acks ::
          var i := e.table.acks[id];
          i < |e.senders| && !e.table.chans[i].closed && e.senders[i].req.id == id)
      && (forall id, id' | id in e.table.acks && id' in e.table.acks && id != id' ::
        e.table.acks[id] != e.table.acks[id'])
  {
    ExecKeepsInv(Init(), steps);
  }

  /**
   * Under every schedule in which the requests of a side have distinct ids: the table holds
   * exactly the senders that registered and have not cleaned up, and those whose write failed,
   * less the ones a close has taken out; each under its own id.
   */
  lemma AckMapExactness(steps: seq<Step>, side: Side)
    requires Distinct(At(Exec(Init(), steps), side))
    ensures var e := At(Exec(Init(), steps), side);
      && |e.senders| == |e.table.chans|
      && e.table.acks.Keys == (set i | 0 <= i < |e.senders| && Entered(e, i) :: e.senders[i].req.id)
      && (forall i | 0 <= i < |e.senders| && Entered(e, i) :: e.table.acks[e.senders[i].req.id] == i)
  {
    ExecKeepsInv(Init(), steps);
  }

  /**
   * Under every schedule: a reply that a send returned was generated by the other side for a
   * request with the same id; with distinct ids, for this very request.
   */
  lemma ReplyCorrelation(steps: seq<Step>, side: Side, i: nat)
    requires var e := At(Exec(Init(), steps), side);
      i < |e.senders| && (e.senders[i].pc.Woken? || e.senders[i].pc.Done?) && e.senders[i].pc.outcome.Answered?
    ensures var s := Exec(Init(), steps);
      var w := At(s, side).senders[i];
      exists a | a in At(s, Other(side)).answers ::
        && ReplyOf(a).Ok? && Received(ReplyOf(a).value) == w.pc.outcome.reply
        && a.request.id == w.req.id
        && (Distinct(At(s, side)) ==> a.request == Received(w.req))
  {
    var s := Exec(Init(), steps);
    ExecKeepsInv(Init(), steps);
    CorrelatedIn(s, side, i);
  }

  lemma CorrelatedIn(s: Sys, side: Side, i: nat)
    requires Inv(s) && i < |At(s, side).senders|
    requires var w := At(s, side).senders[i]; (w.pc.Woken? || w.pc.Done?) && w.pc.outcome.Answered?
    ensures var w := At(s, side).senders[i];
      exists a | a in At(s, Other(side)).answers ::
        && ReplyOf(a).Ok? && Received(ReplyOf(a).value) == w.pc.outcome.reply
        && a.request.id == w.req.id
        && (Distinct(At(s, side)) ==> a.request == Received(w.req))
  {
    var e, o := At(s, side), At(s, Other(side));
    var w := e.senders[i];
    assert w in e.senders;
    var a :| a in o.answers && ReplyOf(a).Ok? && Received(ReplyOf(a).value) == w.pc.outcome.reply;
    AskedByOneSender(s, side, a);
  }

  /** An answered request was asked by a sender with its id; with distinct ids by no other. */
  lemma AskedByOneSender(s: Sys, side: Side, a: Answer)
    requires Inv(s) && a in At(s, Other(side)).answers
    ensures a.request.id != [] && ReplyOf(a).Ok? && ReplyOf(a).value.id == a.request.id
    ensures exists j | 0 <= j < |At(s, side).senders| ::
      && Past(At(s, side).senders[j].pc) && Received(At(s, side).senders[j].req) == a.request
    ensures Distinct(At(s, side)) ==>
      forall i | 0 <= i < |At(s, side).senders| && At(s, side).senders[i].req.id == a.request.id ::
        a.request == Received(At(s, side).senders[i].req)
  {
    var e, o := At(s, side), At(s, Other(side));
    assert a.request in o.inbox && a.request.ack;
    var j :| 0 <= j < |e.senders| && Past(e.senders[j].pc) && Received(e.senders[j].req) == a.request;
    if Distinct(e) {
      forall i | 0 <= i < |e.senders| && e.senders[i].req.id == a.request.id ensures i == j {}
    }
  }

  /**
   * Under every schedule: for a reply still on its way the request was written, and with distinct
   * ids its sender is, as long as it waits on an open channel, the one registered for that reply.
   * So a reply finds its waiter unless the waiter timed out, was closed or has a reply already.
   */
  lemma WaiterStillRegistered(steps: seq<Step>, side: Side, f: Frame)
    requires f in Link(Exec(Init(), steps), side) && f.kind == KIND_ACKR
    ensures var e := At(Exec(Init(), steps), side);
      && |e.senders| == |e.table.chans|
      && exists i | 0 <= i < |e.senders| ::
        && e.senders[i].req.id == f.msg.id && Past(e.senders[i].pc)
        && (Distinct(e) && e.senders[i].pc == Waiting && !e.table.chans[i].closed ==>
            f.msg.id in e.table.acks && e.table.acks[f.msg.id] == i)
  {
    ExecKeepsInv(Init(), steps);
    hide Inv;
    WaiterFor(Exec(Init(), steps), side, f);
  }

  lemma WaiterFor(s: Sys, side: Side, f: Frame)
    requires Inv(s) && f in Link(s, side) && f.kind == KIND_ACKR
    ensures var e := At(s, side);
      && |e.senders| == |e.table.chans|
      && exists i | 0 <= i < |e.senders| ::
        && e.senders[i].req.id == f.msg.id && Past(e.senders[i].pc)
        && (Distinct(e) && e.senders[i].pc == Waiting && !e.table.chans[i].closed ==>
            f.msg.id in e.table.acks && e.table.acks[f.msg.id] == i)
  {
    var e, o := At(s, side), At(s, Other(side));
    var a :| a in o.answers && ReplyOf(a).Ok? && Received(ReplyOf(a).value) == f.msg;
    AskedByOneSender(s, side, a);
    var j :| 0 <= j < |e.senders| && Past(e.senders[j].pc) && Received(e.senders[j].req) == a.request;
    assert e.senders[j].pc == Waiting && !e.table.chans[j].closed ==> Entered(e, j);
    assert ExactInv(e);
    hide CorrInv, TableInv, Wrote, Asked;
  }

  ghost predicate Decided(pc: Pc) {
    pc.Woken? || pc.Done?
  }

  /** A send ends in one way only: whatever happens afterwards, its outcome stays. */
  lemma {:induction false} OutcomeIsFinal(s: Sys, steps: seq<Step>, side: Side, i: nat)
    requires i < |At(s, side).senders| && Decided(At(s, side).senders[i].pc)
    ensures i < |At(Exec(s, steps), side).senders|
    ensures Decided(At(Exec(s, steps), side).senders[i].pc)
    ensures At(Exec(s, steps), side).senders[i].pc.outcome == At(s, side).senders[i].pc.outcome
    decreases |steps|
  {
    if steps != [] {
      SendersAdvance(s, steps[0], side, i);
      OutcomeIsFinal(Apply(s, steps[0]), steps[1..], side, i);
    }
  }

  /** A step never removes a sender, changes its request or takes back its outcome. */
  lemma SendersAdvance(s: Sys, step: Step, side: Side, i: nat)
    requires i < |At(s, side).senders|
    ensures i < |At(Apply(s, step), side).senders|
    ensures At(Apply(s, step), side).senders[i].req == At(s, side).senders[i].req
    ensures Decided(At(s, side).senders[i].pc) ==>
      && Decided(At(Apply(s, step), side).senders[i].pc)
      && At(Apply(s, step), side).senders[i].pc.outcome == At(s, side).senders[i].pc.outcome
  {
  }

  // ----- what goes through the streams ------------------------------------------------------

  /** What a step of a side sends: the request of a sender that has registered, a message that
      expects nothing, or a generated reply. */
  ghost function Sends(s: Sys, step: Step, side: Side): seq<Packet> {
    if step.side != side || !Enabled(At(s, side), Link(s, side), step) then []
    else match step
      case WriteRequest(_, i) => [At(s, side).senders[i].req]
      case SendPlain(_, msg) => [msg]
      case WriteReply(_, a) => [ReplyOf(a).value]
      case _ => []
  }

  ghost function SentBy(s: Sys, steps: seq<Step>, side: Side): seq<Packet>
    decreases |steps|
  {
    if steps == [] then [] else Sends(s, steps[0], side) + SentBy(Apply(s, steps[0]), steps[1..], side)
  }

  /** What a step takes off the stream of a side. */
  ghost function Reads(s: Sys, step: Step, side: Side): seq<Frame> {
    if step.ReadFrame? && step.side == side && Link(s, side) != [] then [Link(s, side)[0]] else []
  }

  ghost function ReadBy(s: Sys, steps: seq<Step>, side: Side): seq<Frame>
    decreases |steps|
  {
    if steps == [] then [] else Reads(s, steps[0], side) + ReadBy(Apply(s, steps[0]), steps[1..], side)
  }

  ghost function FramesFor(ms: seq<Packet>): seq<Frame> {
    seq(|ms|, i requires 0 <= i < |ms| => Frame(KindOf(ms[i]), Received(ms[i])))
  }

  lemma StepMovesFrames(s: Sys, step: Step, side: Side)
    ensures Reads(s, step, side) + Link(Apply(s, step), side) == Link(s, side) + FramesFor(Sends(s, step, Other(side)))
  {
    hide Local, Enabled, ReplyOf, Sends;
    if Enabled(At(s, step.side), Link(s, step.side), step) {
      LocalSends(s, step);
      if step.ReadFrame? { ReadEnabled(s, step.side); }
    } else {
      NothingSent(s, step, side);
    }
    SentBySide(s, step, Other(side));
    hide FramesFor;
  }

  lemma LocalSends(s: Sys, step: Step)
    requires Enabled(At(s, step.side), Link(s, step.side), step)
    ensures Local(At(s, step.side), Link(s, step.side), step).1 == FramesFor(Sends(s, step, step.side))
  {
    hide ReplyOf, Received, KindOf, Register, Unregister, Offer, CloseAll, Take;
  }

  lemma ReadEnabled(s: Sys, side: Side)
    ensures Enabled(At(s, side), Link(s, side), ReadFrame(side)) <==> Link(s, side) != []
    ensures Sends(s, ReadFrame(side), side) == []
  {
  }

  lemma NothingSent(s: Sys, step: Step, side: Side)
    requires !Enabled(At(s, step.side), Link(s, step.side), step)
    ensures Sends(s, step, Other(side)) == [] && Reads(s, step, side) == []
  {
  }

  lemma SentBySide(s: Sys, step: Step, side: Side)
    ensures step.side != side ==> Sends(s, step, side) == []
    ensures FramesFor([]) == []
  {
  }

  /**
   * Whatever the schedule: the streams lose, repeat and reorder nothing. What a side has read and
   * what is still on its stream is what was there before and what its peer has sent since, in order.
   */
  lemma {:induction false} StreamsConserve(s: Sys, steps: seq<Step>, side: Side)
    ensures ReadBy(s, steps, side) + Link(Exec(s, steps), side) ==
      Link(s, side) + FramesFor(SentBy(s, steps, Other(side)))
    decreases |steps|
  {
    hide Apply, Enabled, Sends, Reads, Link, Other;
    if steps == [] {
      assert FramesFor([]) == [];
    } else {
      var s1, rest := Apply(s, steps[0]), steps[1..];
      StepMovesFrames(s, steps[0], side);
      StreamsConserve(s1, rest, side);
      FramesForBoth(Sends(s, steps[0], Other(side)), SentBy(s1, rest, Other(side)));
      hide FramesFor;
      Conserved(Reads(s, steps[0], side), ReadBy(s1, rest, side), Link(s, side), Link(s1, side),
        Link(Exec(s1, rest), side), FramesFor(Sends(s, steps[0], Other(side))),
        FramesFor(SentBy(s1, rest, Other(side))));
    }
  }

  lemma Conserved<T>(read: seq<T>, later: seq<T>, before: seq<T>, mid: seq<T>, after: seq<T>, sent: seq<T>,
    more: seq<T>)
    requires read + mid == before + sent && later + after == mid + more
    ensures (read + later) + after == before + (sent + more)
  {
    assert (read + later) + after == read + (later + after);
    assert read + (mid + more) == (read + mid) + more;
    assert (before + sent) + more == before + (sent + more);
  }

  lemma FramesForBoth(ms: seq<Packet>, ms': seq<Packet>)
    ensures FramesFor(ms + ms') == FramesFor(ms) + FramesFor(ms')
  {
  }

  /** What a side has read is in its inbox, replies excepted, and nothing else is. */
  lemma {:induction false} InboxIsWhatWasRead(s: Sys, steps: seq<Step>, side: Side)
    ensures At(Exec(s, steps), side).inbox == At(s, side).inbox
      + (set f | f in ReadBy(s, steps, side) && f.kind != KIND_ACKR :: f.msg)
    decreases |steps|
  {
    if steps != [] {
      StepFillsInbox(s, steps[0], side);
      hide Apply, Enabled;
      InboxIsWhatWasRead(Apply(s, steps[0]), steps[1..], side);
    }
  }

  lemma StepFillsInbox(s: Sys, step: Step, side: Side)
    ensures At(Apply(s, step), side).inbox == At(s, side).inbox +
      if step.ReadFrame? && step.side == side && Link(s, side) != [] && Link(s, side)[0].kind != KIND_ACKR
        then {Link(s, side)[0].msg} else {}
  {
  }

  /** A request and its reply, without anything in between: the sender gets the reply it asked for
      and nothing is left of it in the table. */
  lemma ReplyComesBack(req: Packet, mtype: Bytes, body: Option<Bytes>, uuid: Bytes)
    requires req.ack && req.id != []
    ensures var a := Answer(Received(req), mtype, body, uuid);
      var s := Exec(Init(), [BeginSend(Left, req)] + ([WriteRequest(Left, 0)] + ([ReadFrame(Right)] +
        ([WriteReply(Right, a)] + ([ReadFrame(Left)] + ([TakeReply(Left, 0)] + [EndSend(Left, 0)]))))));
      && ReplyOf(a).Ok? && s.left.senders == [Sender(req, Done(Answered(Received(ReplyOf(a).value))))]
      && s.left.table.acks == map[] && s.toLeft == [] && s.toRight == []
  {
    var a := Answer(Received(req), mtype, body, uuid);
    var s0 := Init();
    var s1 := Apply(s0, BeginSend(Left, req));
    RequestArrives(req);
    var s3 := Apply(Apply(s1, WriteRequest(Left, 0)), ReadFrame(Right));
    ReplyArrives(s3, req, a);
    hide Apply, Init;
    ExecOfSeven(s0, BeginSend(Left, req), WriteRequest(Left, 0), ReadFrame(Right), WriteReply(Right, a),
      ReadFrame(Left),
      TakeReply(Left, 0), EndSend(Left, 0));
  }

  lemma ExecOfSeven(s: Sys, a: Step, b: Step, c: Step, d: Step, e: Step, f: Step, g: Step)
    ensures Exec(s, [a] + ([b] + ([c] + ([d] + ([e] + ([f] + [g]))))))
      == Apply(Apply(Apply(Apply(Apply(Apply(Apply(s, a), b), c), d), e), f), g)
  {
    hide Apply;
    ExecCons(s, a, [b] + ([c] + ([d] + ([e] + ([f] + [g])))));
    var s1 := Apply(s, a);
    ExecCons(s1, b, [c] + ([d] + ([e] + ([f] + [g]))));
    var s2 := Apply(s1, b);
    ExecCons(s2, c, [d] + ([e] + ([f] + [g])));
    var s3 := Apply(s2, c);
    ExecCons(s3, d, [e] + ([f] + [g]));
    var s4 := Apply(s3, d);
    ExecCons(s4, e, [f] + [g]);
    var s5 := Apply(s4, e);
    ExecCons(s5, f, [g]);
    ExecCons(Apply(s5, f), g, []);
    assert [g] + [] == [g];
  }

  lemma ExecCons(s: Sys, step: Step, rest: seq<Step>)
    ensures Exec(s, [step] + rest) == Exec(Apply(s, step), rest)
  {
    hide Apply;
    assert ([step] + rest)[1..] == rest;
  }

  /** The request was written, and read by the other side. */
  ghost predicate AskedAndRead(s: Sys, req: Packet) {
    && s.left == Endpoint(AckTable(map[req.id := 0], [Chan(None, false)], false), [Sender(req, Waiting)], {}, {})
    && Received(req) in s.right.inbox && s.toLeft == [] && s.toRight == []
  }

  lemma RequestArrives(req: Packet)
    requires req.ack && req.id != []
    ensures AskedAndRead(Apply(Apply(Apply(Init(), BeginSend(Left, req)), WriteRequest(Left, 0)), ReadFrame(Right)),
      req)
  {
  }

  lemma ReplyArrives(s: Sys, req: Packet, a: Answer)
    requires AskedAndRead(s, req) && req.ack && req.id != [] && a.request == Received(req)
    ensures var s' := Apply(Apply(Apply(Apply(s, WriteReply(Right, a)), ReadFrame(Left)), TakeReply(Left, 0)),
        EndSend(Left, 0));
      && ReplyOf(a).Ok? && s'.left.senders == [Sender(req, Done(Answered(Received(ReplyOf(a).value))))]
      && s'.left.table.acks == map[] && s'.toLeft == [] && s'.toRight == []
  {
    var m := Received(ReplyOf(a).value);
    var s1 := Apply(s, WriteReply(Right, a));
    assert s1.left == s.left && s1.toRight == [] && s1.toLeft == [Frame(KIND_ACKR, m)] && m.id == req.id;
    hide Received, ReplyOf, KindOf;
    ReplyIsTaken(s1, req, m);
  }

  lemma ReplyIsTaken(s: Sys, req: Packet, m: Packet)
    requires s.left == Endpoint(AckTable(map[req.id := 0], [Chan(None, false)], false), [Sender(req, Waiting)], {}, {})
    requires s.toRight == [] && s.toLeft == [Frame(KIND_ACKR, m)] && m.id == req.id
    ensures var s' := Apply(Apply(Apply(s, ReadFrame(Left)), TakeReply(Left, 0)), EndSend(Left, 0));
      && s'.left.senders == [Sender(req, Done(Answered(m)))]
      && s'.left.table.acks == map[] && s'.toLeft == [] && s'.toRight == []
  {
    var s1 := Apply(s, ReadFrame(Left));
    assert s1.left == s.left.(table := AckTable(map[req.id := 0], [Chan(Some(m), false)], false));
    var s2 := Apply(s1, TakeReply(Left, 0));
    assert s2.left.senders == [Sender(req, Woken(Answered(m)))] && s2.left.table.acks == map[req.id := 0];
  }

  /** A close empties the table and closes exactly the channels that were in it, so that whoever waits
      on one of them is woken, by its reply if that was there already. */
  lemma CloseWakesAll(s: Sys, side: Side, i: nat)
    requires Inv(s) && i < |At(s, side).senders|
    ensures var e, s' := At(s, side), Apply(s, CloseChannel(side));
      var e' := At(s', side);
      && e'.senders == e.senders && e'.table.acks == map[] && |e'.table.chans| == |e.senders|
      && e'.table.chans[i].buf == e.table.chans[i].buf
      && (e'.table.chans[i].closed <==>
        e.table.chans[i].closed || exists id :: id in e.table.acks && e.table.acks[id] == i)
      && (e.senders[i].pc == Waiting && e'.table.chans[i].closed ==>
          if e.table.chans[i].buf.Some? then Enabled(e', Link(s', side), TakeReply(side, i))
          else Enabled(e', Link(s', side), NoticeClosed(side, i)))
  {
    hide CorrInv, ExactInv, TableInv;
    ClosedTableIs(At(s, side), i);
    hide CloseAll;
  }

  lemma ClosedTableIs(e: Endpoint, i: nat)
    requires TableInv(e) && i < |e.senders|
    ensures var t := CloseAll(e.table);
      && t.acks == map[] && |t.chans| == |e.table.chans| == |e.senders| && t.chans[i].buf == e.table.chans[i].buf
      && (t.chans[i].closed <==> e.table.chans[i].closed || exists id :: id in e.table.acks && e.table.acks[id] == i)
  {
    assert i in e.table.acks.Values <==> exists id :: id in e.table.acks && e.table.acks[id] == i;
    hide ChannelInv, Entered, Safe;
  }

  // ----- what the layers above see ----------------------------------------------------------

  /** A sender as a call: the replies written for its request, and what it got. */
  ghost function AsCall(s: Sys, side: Side, i: nat): Call<Packet, Packet>
    requires i < |At(s, side).senders|
  {
    var w := At(s, side).senders[i];
    Call(Received(w.req),
         set a | a in At(s, Other(side)).answers && a.request == Received(w.req) && ReplyOf(a).Ok? ::
           Received(ReplyOf(a).value),
         if Decided(w.pc) then Some(w.pc.outcome) else None)
  }

  lemma SoundCall(s: Sys, side: Side, i: nat)
    requires Inv(s) && i < |At(s, side).senders| && Distinct(At(s, side))
    ensures Sound(AsCall(s, side, i))
  {
    hide Inv, Distinct;
    if Decided(At(s, side).senders[i].pc) && At(s, side).senders[i].pc.outcome.Answered? {
      CorrelatedIn(s, side, i);
    }
  }

  lemma AnswersGrow(s: Sys, step: Step, side: Side)
    ensures At(s, side).answers <= At(Apply(s, step), side).answers
  {
  }

  /** The answers written for a request, as the asker would receive them. */
  lemma CallAnswersGrow(s: Sys, step: Step, side: Side, i: nat)
    requires i < |At(s, side).senders|
    ensures i < |At(Apply(s, step), side).senders|
    ensures AsCall(s, side, i).answers <= AsCall(Apply(s, step), side, i).answers
  {
    hide Apply, ReplyOf;
    SendersAdvance(s, step, side, i);
    AnswersGrow(s, step, Other(side));
    var before, after := AsCall(s, side, i).answers, AsCall(Apply(s, step), side, i).answers;
    forall m | m in before ensures m in after {
      var a :| a in At(s, Other(side)).answers && a.request == Received(At(s, side).senders[i].req) && ReplyOf(a).Ok?
               && Received(ReplyOf(a).value) == m;
      assert a in At(Apply(s, step), Other(side)).answers;
    }
  }

  /** As long as the ids of a side are distinct, each of its senders behaves, step by step, as a
      sound call: this is the guarantee the broker and relay protocols are built on. */
  lemma SenderBehavesAsCall(steps: seq<Step>, step: Step, side: Side, i: nat)
    requires i < |At(Exec(Init(), steps), side).senders|
    requires Distinct(At(Apply(Exec(Init(), steps), step), side))
    ensures i < |At(Apply(Exec(Init(), steps), step), side).senders|
    ensures Next(AsCall(Exec(Init(), steps), side, i), AsCall(Apply(Exec(Init(), steps), step), side, i))
    ensures Sound(AsCall(Apply(Exec(Init(), steps), step), side, i))
  {
    var s := Exec(Init(), steps);
    ExecKeepsInv(Init(), steps);
    ApplyKeepsInv(s, step);
    hide Apply, Exec, Inv, Distinct;
    SendersAdvance(s, step, side, i);
    CallAnswersGrow(s, step, side, i);
    SoundCall(Apply(s, step), side, i);
  }
}
