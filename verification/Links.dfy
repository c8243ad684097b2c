/**
 * What the streams of frames in `AckProtocol` stand for: the bytes that the writers of
 * `Channels` put on the wire and that their readers take off it.
 */
module Links {
  import opened Prelude
  import opened HeaderCodec
  import opened Messages
  import opened AckTables
  import opened Calls
  import opened Channels
  import opened Framing
  import A = AckProtocol

  /** Writing one more message appends its frame, or nothing if it cannot be printed: so
      successive calls of `Channel.Write` leave `FramesOf` of their messages on the stream. */
  lemma {:induction false} WritesAppend<B>(marshal: B -> Option<Bytes>, ms: seq<Msg<B>>, m: Msg<B>)
    ensures FramesOf(marshal, ms + [m])
      == FramesOf(marshal, ms) + match FrameOf(marshal, m) { case None => [] case Some(frame) => frame }
    decreases |ms|
  {
    hide FrameOf;
    if ms == [] {
      assert (ms + [m])[1..] == [];
    } else {
      assert (ms + [m])[1..] == ms[1..] + [m];
      WritesAppend(marshal, ms[1..], m);
    }
  }

  /**
   * The `select` of a waiting `Send` is one of three steps of the protocol: the timer, whatever else
   * is there; otherwise a buffered reply, be the channel closed by now or not; otherwise the closure.
   */
  lemma AwaitIsAStep(e: A.Endpoint, inbound: seq<A.Frame>, side: A.Side, i: nat, timerFires: bool)
    requires i < |e.senders| == |e.table.chans| && e.senders[i].pc == A.Waiting
    ensures var r := Wake(e.table, i, timerFires);
      var take, closed, timer := A.TakeReply(side, i), A.NoticeClosed(side, i), A.FireTimer(side, i);
      && (r.Ok? <==> !timerFires && A.Enabled(e, inbound, take))
      && (r == Err(ChannelClosed) <==> !timerFires && A.Enabled(e, inbound, closed))
      && (timerFires ==> r == Err(Timeout))
      && (e.table.chans[i].buf.Some? && !timerFires ==> r == Ok(e.table.chans[i].buf.value))
      && (r.Ok? ==>
          var e' := A.Local(e, inbound, take).0;
          e'.table == Take(e.table, i) && e'.table.chans[i].buf.None?
          && e'.senders[i].pc == A.Woken(Answered(r.value)))
      && A.Enabled(e, inbound, timer) && A.Local(e, inbound, timer).0.senders[i].pc == A.Woken(TimedOut)
      && (r == Err(ChannelClosed) ==> A.Local(e, inbound, closed).0.senders[i].pc == A.Woken(Closed))
  {
  }

  /** A message that is written as this frame. */
  function Sent(f: A.Frame): A.Packet {
    f.msg.(ackr := f.kind == KIND_ACKR)
  }

  ghost predicate FromMessages(link: seq<A.Frame>) {
    forall f | f in link :: A.Written(Sent(f)) == f
  }

  lemma StepWritesMessages(s: A.Sys, step: A.Step)
    requires FromMessages(s.toLeft) && FromMessages(s.toRight)
    ensures FromMessages(A.Apply(s, step).toLeft) && FromMessages(A.Apply(s, step).toRight)
  {
    var inbound := A.Link(s, step.side);
    if A.Enabled(A.At(s, step.side), inbound, step) {
      var out := A.Local(A.At(s, step.side), inbound, step).1;
      assert |out| <= 1 && FromMessages(out);
      hide A.Local, A.Enabled;
    }
  }

  lemma {:induction false} RunsWriteMessages(s: A.Sys, steps: seq<A.Step>)
    requires FromMessages(s.toLeft) && FromMessages(s.toRight)
    ensures FromMessages(A.Exec(s, steps).toLeft) && FromMessages(A.Exec(s, steps).toRight)
    decreases |steps|
  {
    if steps != [] {
      StepWritesMessages(s, steps[0]);
      hide A.Apply, FromMessages;
      RunsWriteMessages(A.Apply(s, steps[0]), steps[1..]);
    }
  }

  ghost function SentOn(link: seq<A.Frame>): seq<A.Packet> {
    seq(|link|, i requires 0 <= i < |link| => Sent(link[i]))
  }

  /**
   * At every point of every run, as long as what is on a link can be printed and read back (header
   * and body below 2^32 bytes, a codec that knows the type): the link is what reading the bytes of
   * its frames, one after the other, gives.
   */
  lemma LinkIsItsBytes(us: seq<Unmarshaler<Bytes>>, marshal: Bytes -> Option<Bytes>, steps: seq<A.Step>, side: A.Side)
    requires var link := A.Link(A.Exec(A.Init(), steps), side);
      forall f | f in link :: Readable(us, marshal, Sent(f))
    ensures var link := A.Link(A.Exec(A.Init(), steps), side);
      ReadFrames(us, FramesOf(marshal, SentOn(link)))
      == seq(|link|, i requires 0 <= i < |link| => (link[i].kind, link[i].msg))
  {
    var link := A.Link(A.Exec(A.Init(), steps), side);
    RunsWriteMessages(A.Init(), steps);
    hide A.Exec, Readable;
    forall i {:trigger SentOn(link)[i]} | 0 <= i < |link| ensures Readable(us, marshal, SentOn(link)[i]) {
      assert link[i] in link;
    }
    StreamRoundTrip(us, marshal, SentOn(link));
    forall i | 0 <= i < |link| ensures Tagged(SentOn(link))[i] == (link[i].kind, link[i].msg) {
      assert A.Written(Sent(link[i])) == link[i];
    }
  }
}
