/**
 * The broker's connection table on values (`p2p/server`), and what the three parties of a
 * connection keep of it. Connections of the broker are named by references of type `D`.
 */
module BrokerSpec {
  import opened Prelude
  import R = Registry

  const MODE_RELAY := "relay"
  const MODE_P2P := "p2p"

  /** The broker's record of a connection. */
  datatype Conn = Conn(id: string, mode: string, source: string, target: string, closed: bool)

  /** What a client keeps of a connection; `owner` is the client's own id. */
  datatype PeerConn = PeerConn(owner: string, initiator: bool, id: string, mode: string, peer: string, relay: string)

  /** The source's request to the broker, and the broker's to the target. */
  datatype Request = Request(target: string, mode: string, relay: string)

  datatype Offer = Offer(id: string, mode: string, relay: string, peer: string)

  /** The target's reply to the broker, and the broker's to the source: an error, or the data. */
  datatype OfferReply = Refused | Accepted

  datatype Reply = Failed | Created(id: string, mode: string, relay: string, peer: string)

  /** `getPeer`: the id of the session registered under an id. */
  ghost function PeerId<C>(reg: R.State<C>, id: string): Option<string>
    requires R.LeadsHome(reg)
  {
    if id in reg.clients then Some(reg.sessions[reg.clients[id]].id) else None
  }

  /** `createConnection` up to the request to the target: what is wrong with the source's request,
      if anything; the peers are those found in the registry. */
  function Check(req: Request, hasBrokerContext: bool, source: Option<string>, target: Option<string>,
    id: Option<string>): Option<Conn> {
    if !hasBrokerContext then None
    else if req.mode == MODE_RELAY && req.relay == "" then None
    else if source.None? || target.None? || id.None? then None
    else Some(Conn(id.value, req.mode, source.value, target.value, false))
  }

  function OfferFor(conn: Conn, req: Request): Offer {
    Offer(conn.id, conn.mode, req.relay, conn.source)
  }

  function ReplyFor(conn: Conn, req: Request): Reply {
    Created(conn.id, conn.mode, req.relay, conn.target)
  }

  /** `acceptConnection` on the target and `createConnection` on the source. */
  function AcceptedConn(owner: string, offer: Offer): PeerConn {
    PeerConn(owner, false, offer.id, offer.mode, offer.peer, offer.relay)
  }

  function CreatedConn(owner: string, req: Request, reply: Reply): PeerConn
    requires reply.Created?
  {
    PeerConn(owner, true, reply.id, req.mode, reply.peer, req.relay)
  }

  /** The two ends belong together: same connection, peers crossed, one initiator. */
  predicate Match(a: PeerConn, b: PeerConn) {
    && a.id == b.id && a.mode == b.mode && a.relay == b.relay
    && a.peer == b.owner && b.peer == a.owner
    && a.initiator != b.initiator
  }

  // ----- the table --------------------------------------------------------------------------

  datatype Table<D(==)> = Table(conns: map<string, D>, records: map<D, Conn>)

  function Create<D(==)>(t: Table<D>, d: D, conn: Conn): Table<D> {
    t.(records := t.records[d := conn])
  }

  function Store<D(==)>(t: Table<D>, d: D): Table<D>
    requires d in t.records
  {
    t.(conns := t.conns[t.records[d].id := d])
  }

  /** `CloseConnection`: loads and deletes the entry, then closes what it led to. */
  function CloseConnection<D(==)>(t: Table<D>, id: string): Table<D>
    requires id in t.conns ==> t.conns[id] in t.records
  {
    if id !in t.conns then t
    else
      var d := t.conns[id];
      Table(t.conns - {id}, t.records[d := t.records[d].(closed := true)])
  }

  /** The relay's question: may the validated client `peer` use connection `id`? The answer also
      carries whether the connection is still open. */
  function RelayAnswer<D(==)>(t: Table<D>, peer: Option<string>, id: string): Option<Conn>
    requires id in t.conns ==> t.conns[id] in t.records
  {
    if peer.None? || id !in t.conns then None
    else
      var conn := t.records[t.conns[id]];
      if conn.source != peer.value && conn.target != peer.value then None else Some(conn)
  }

  /** Entries lead to records under their own id. */
  ghost predicate Inv<D>(t: Table<D>) {
    forall id | id in t.conns :: t.conns[id] in t.records && t.records[t.conns[id]].id == id
  }

  /** Whom the broker approves: exactly the two peers of a connection that is listed, closed or not,
      and with the data of its record. */
  lemma ApprovedExactly<D>(t: Table<D>, peer: Option<string>, id: string)
    requires Inv(t)
    ensures RelayAnswer(t, peer, id).Some? <==>
      peer.Some? && id in t.conns && peer.value in {t.records[t.conns[id]].source, t.records[t.conns[id]].target}
    ensures RelayAnswer(t, peer, id).Some? ==>
      RelayAnswer(t, peer, id).value == t.records[t.conns[id]] && RelayAnswer(t, peer, id).value.id == id
  {
  }
}
