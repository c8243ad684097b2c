/**
 * The relay on values: its session registry and its connection table (`p2p/relay`), next to the
 * connection table of the broker that decides who may use it (`p2p/server`). Sessions and relay
 * connections are named by references of types `C` and `D`.
 */
module RelaySpec {
  import opened Prelude
  import R = Registry

  // ----- client ids -------------------------------------------------------------------------

  /** `getClientId`. */
  function GetClientId(peerId: string, connId: string): string {
    peerId + ":" + connId
  }

  predicate ColonFree(s: string) {
    ':' !in s
  }

  /** One connection id is the other one behind some prefix and a colon. */
  ghost predicate EndsIn(k: string, k': string) {
    |k'| > |k| && k'[|k'| - |k|..] == k && k'[|k'| - |k| - 1] == ':'
  }

  /** Client ids of two connections can coincide exactly when the connection ids are equal or one
      ends in a colon followed by the other. */
  lemma ClientIdsCollide(k: string, k': string)
    ensures (exists p: string, p': string :: GetClientId(p, k) == GetClientId(p', k'))
            <==> k == k' || EndsIn(k, k') || EndsIn(k', k)
  {
    if p: string, p': string :| GetClientId(p, k) == GetClientId(p', k') {
      CollisionIsSuffix(p, k, p', k');
    }
    if k == k' {
      assert GetClientId("", k) == GetClientId("", k');
    }
    if EndsIn(k, k') {
      var p := k'[..|k'| - |k| - 1];
      assert k' == p + ":" + k;
      assert GetClientId("" + ":" + p, k) == GetClientId("", k');
    }
    if EndsIn(k', k) {
      var p := k[..|k| - |k'| - 1];
      assert k == p + ":" + k';
      assert GetClientId("", k) == GetClientId("" + ":" + p, k');
    }
  }

  lemma CollisionIsSuffix(p: string, k: string, p': string, k': string)
    requires GetClientId(p, k) == GetClientId(p', k')
    ensures k == k' || EndsIn(k, k') || EndsIn(k', k)
    ensures k == k' ==> p == p'
  {
    var s := GetClientId(p, k);
    assert s[|s| - |k|..] == k && s[|s| - |k| - 1] == ':';
    assert s[|s| - |k'|..] == k' && s[|s| - |k'| - 1] == ':';
    if |k| == |k'| {
      assert p == s[..|p|] && p' == s[..|p'|];
    } else if |k| < |k'| {
      assert forall i | 0 <= i < |k'| :: k'[i] == s[|s| - |k'| + i];
      assert k'[|k'| - |k|..] == k;
    } else {
      assert forall i | 0 <= i < |k| :: k[i] == s[|s| - |k| + i];
      assert k[|k| - |k'|..] == k';
    }
  }

  /** Connection ids without a colon, as UUIDs are, make the client id injective. */
  lemma ClientIdInjective(p: string, k: string, p': string, k': string)
    requires ColonFree(k) && ColonFree(k') && GetClientId(p, k) == GetClientId(p', k')
    ensures p == p' && k == k'
  {
    CollisionIsSuffix(p, k, p', k');
  }

  // ----- the relay's state ------------------------------------------------------------------

  /** A relay connection. */
  datatype Conn = Conn(id: string, source: string, target: string, closed: bool)

  /** The broker's answer to a relay that asks about a client (`P2PRelayConnectionData`). */
  datatype Approval = Approval(id: string, peer: string, source: string, target: string)

  datatype Relay<C(==), D(==)> = Relay(reg: R.State<C>, table: map<string, D>, conns: map<D, Conn>)

  /** `getPeerClientId`: the other side's client id, or the error branch. */
  function PeerClientId(conn: Conn, clientId: string): Option<string> {
    if clientId == GetClientId(conn.source, conn.id) then Some(GetClientId(conn.target, conn.id))
    else if clientId == GetClientId(conn.target, conn.id) then Some(GetClientId(conn.source, conn.id))
    else None
  }

  /** `NewConnection`. */
  function NewConnection<C(==), D(==)>(s: Relay<C, D>, d: D, a: Approval): Relay<C, D> {
    s.(conns := s.conns[d := Conn(a.id, a.source, a.target, false)], table := s.table[a.id := d])
  }

  /** The data `clientValidateHandler` returns for an approved client. */
  function ClientDataFor(a: Approval): R.ClientData {
    R.ClientData(GetClientId(a.peer, a.id), map[a.id := "true", a.peer := "true"],
      R.RelayContext(a.id, a.source, a.target))
  }

  /** The connection an approved client belongs to; `d` is only used if there is none yet. */
  function FindOrCreate<C(==), D(==)>(s: Relay<C, D>, d: D, a: Approval): Relay<C, D> {
    if a.id in s.table then s else NewConnection(s, d, a)
  }

  /** A validation message of a session, with what the broker answered to the relay. */
  function Admit<C(==), D(==)>(s: Relay<C, D>, c: C, d: D, a: Option<Approval>): Relay<C, D>
    requires R.Base(s.reg) && c in s.reg.sessions
  {
    if s.reg.sessions[c].initialized then s
    else match a
      case None => s.(reg := R.Deliver(s.reg, c, R.Validate(None)))
      case Some(approval) =>
        FindOrCreate(s, d, approval).(reg := R.Deliver(s.reg, c, R.Validate(Some(ClientDataFor(approval)))))
  }

  /** Closes the session registered under the id, if any. */
  function CloseClient<C(==)>(reg: R.State<C>, id: string): R.State<C>
    requires R.Base(reg)
  {
    if id in reg.clients then R.Close(reg, reg.clients[id]) else reg
  }

  lemma CloseClientKeeps<C>(reg: R.State<C>, id: string)
    requires R.Base(reg)
    ensures R.Base(CloseClient(reg, id))
    ensures R.Inv(reg) ==> R.Inv(CloseClient(reg, id))
  {
    if id in reg.clients {
      R.CloseRemovesOnlyItself(reg, reg.clients[id]);
    }
  }

  function CloseClients<C(==)>(reg: R.State<C>, id: string, id': string): (reg': R.State<C>)
    requires R.Base(reg)
    ensures R.Base(reg') && (R.Inv(reg) ==> R.Inv(reg'))
  {
    CloseClientKeeps(reg, id);
    CloseClientKeeps(CloseClient(reg, id), id');
    CloseClient(CloseClient(reg, id), id')
  }

  /** `Connection.Close`: out of the table, and both peers' clients with it. */
  function CloseConn<C(==), D(==)>(s: Relay<C, D>, d: D): Relay<C, D>
    requires R.Base(s.reg) && d in s.conns
  {
    var conn := s.conns[d];
    if conn.closed then s
    else
      Relay(CloseClients(s.reg, GetClientId(conn.source, conn.id), GetClientId(conn.target, conn.id)),
            s.table - {conn.id}, s.conns[d := conn.(closed := true)])
  }

  /** `getPeerClient`. */
  function GetPeerClient<C(==), D(==)>(s: Relay<C, D>, conn: Conn, clientId: string): Option<C> {
    match PeerClientId(conn, clientId)
    case None => None
    case Some(id) => R.GetClient(s.reg, id)
  }

  /** Whom a stream of `c` is bridged to: the other side of the connection it was validated for. */
  function BridgedPeer<C(==), D(==)>(s: Relay<C, D>, c: C): Option<C>
    requires c in s.reg.sessions && s.reg.sessions[c].ctx.RelayContext?
    requires forall k | k in s.table :: s.table[k] in s.conns
  {
    var r := s.reg.sessions[c];
    if r.ctx.connectionId !in s.table then None
    else GetPeerClient(s, s.conns[s.table[r.ctx.connectionId]], r.id)
  }

  // ----- waiting for the other side ---------------------------------------------------------

  const AWAIT_PEER_TIMEOUT: nat := 15

  /** What a waiting client can see: a message on the bus (nil once the bus is closed) with the
      time it is handled at, in seconds, or its timer. */
  datatype BusEvent = Message(id: Option<string>, now: int) | TimerFires

  datatype Verdict = Found | GaveUp | StillWaiting

  /** The waiting loop of `awaitPeer`. The branch of the timer leaves the clock reading as it was
      and goes on, but sets the error (`failed`) that every later return reports. */
  function AwaitLoop(events: seq<BusEvent>, peerId: string, now: int, end: int, failed: bool): Verdict {
    if end - now <= 0 then GaveUp
    else if events == [] then StillWaiting
    else match events[0]
      case Message(id, t) =>
        if id == Some(peerId) then (if failed then GaveUp else Found)
        else AwaitLoop(events[1..], peerId, t, end, failed)
      case TimerFires => AwaitLoop(events[1..], peerId, now, end, true)
  }

  predicate FromPeer(e: BusEvent, peerId: string) {
    e.Message? && e.id == Some(peerId)
  }

  predicate Late(e: BusEvent, peerId: string, end: int) {
    e.Message? && e.id != Some(peerId) && e.now >= end
  }

  /** The first event that decides the wait, at most. */
  ghost predicate DecidedAt(events: seq<BusEvent>, peerId: string, end: int, i: nat) {
    && i < |events| && (FromPeer(events[i], peerId) || Late(events[i], peerId, end))
    && forall j | 0 <= j < i :: !FromPeer(events[j], peerId) && !Late(events[j], peerId, end)
  }

  ghost predicate TimerBefore(events: seq<BusEvent>, i: nat) {
    exists j | 0 <= j < i :: j < |events| && events[j].TimerFires?
  }

  /**
   * A wait that has begun is over with the first message that is the peer's id or is past the
   * deadline, and with nothing else, however often its timer fires. It succeeds exactly when that
   * message is the peer's id and the timer has not fired before; otherwise it gives up.
   */
  lemma {:induction false} AwaitDecidedByMessage(events: seq<BusEvent>, peerId: string, now: int, end: int,
    failed: bool)
    requires now < end
    ensures AwaitLoop(events, peerId, now, end, failed) == Found <==>
      exists i: nat ::
        DecidedAt(events, peerId, end, i) && FromPeer(events[i], peerId) && !failed && !TimerBefore(events, i)
    ensures AwaitLoop(events, peerId, now, end, failed) == StillWaiting <==>
      !exists i: nat :: DecidedAt(events, peerId, end, i)
    decreases |events|
  {
    if events != [] {
      if FromPeer(events[0], peerId) || Late(events[0], peerId, end) {
        assert DecidedAt(events, peerId, end, 0) && !TimerBefore(events, 0);
        assert forall i: nat | DecidedAt(events, peerId, end, i) :: i == 0;
        if Late(events[0], peerId, end) {
          assert AwaitLoop(events[1..], peerId, events[0].now, end, failed) == GaveUp;
        }
      } else {
        var rest := events[1..];
        var now' := if events[0].Message? then events[0].now else now;
        var failed' := failed || events[0].TimerFires?;
        AwaitDecidedByMessage(rest, peerId, now', end, failed');
        forall i: nat | DecidedAt(rest, peerId, end, i)
          ensures DecidedAt(events, peerId, end, i + 1)
            && (TimerBefore(events, i + 1) <==> events[0].TimerFires? || TimerBefore(rest, i)) {
          Shift(events, peerId, end, i);
          TimerShift(events, i);
        }
        forall i: nat | DecidedAt(events, peerId, end, i)
          ensures i > 0 && DecidedAt(rest, peerId, end, i - 1)
            && (TimerBefore(events, i) <==> events[0].TimerFires? || TimerBefore(rest, i - 1)) {
          Shift(events, peerId, end, i - 1);
          TimerShift(events, i - 1);
        }
      }
    }
  }

  lemma TimerShift(events: seq<BusEvent>, i: nat)
    requires events != []
    ensures TimerBefore(events, i + 1) <==> events[0].TimerFires? || TimerBefore(events[1..], i)
  {
    if j :| 0 <= j < i + 1 && j < |events| && events[j].TimerFires? {
      if j > 0 { assert events[1..][j - 1] == events[j]; }
    }
    if j :| 0 <= j < i && j < |events[1..]| && events[1..][j].TimerFires? {
      assert events[j + 1] == events[1..][j];
    }
  }

  lemma Shift(events: seq<BusEvent>, peerId: string, end: int, i: nat)
    requires events != [] && !FromPeer(events[0], peerId) && !Late(events[0], peerId, end)
    ensures DecidedAt(events, peerId, end, i + 1) <==> DecidedAt(events[1..], peerId, end, i)
  {
    if DecidedAt(events[1..], peerId, end, i) {
      forall j | 0 <= j < i + 1 ensures !FromPeer(events[j], peerId) && !Late(events[j], peerId, end) {
        if j > 0 { assert events[1..][j - 1] == events[j]; }
      }
    }
    if DecidedAt(events, peerId, end, i + 1) {
      forall j | 0 <= j < i ensures !FromPeer(events[1..][j], peerId) && !Late(events[1..][j], peerId, end) {
        assert events[1..][j] == events[j + 1];
      }
    }
  }
}
