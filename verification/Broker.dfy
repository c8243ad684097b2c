/**
 * The broker's connections and their manager as objects (`p2p/server`), on top of the UDP server:
 * each operation is proved to be the corresponding function of `BrokerSpec`.
 */
module Broker {
  import opened Prelude
  import opened BrokerSpec
  import opened Calls
  import R = Registry
  import Udps

  class Connection {
    const id: string
    const mode: string
    const sourceId: string
    const targetId: string
    const source: Udps.Client
    const target: Udps.Client
    var exit: bool
    var Closed: bool

    function Record(): Conn
      reads this`Closed
    {
      Conn(id, mode, sourceId, targetId, Closed)
    }

    /** `newConnection`; a peer's id is the one its client has at that moment. */
    constructor (id: string, mode: string, source: Udps.Client, target: Udps.Client)
      ensures Record() == Conn(id, mode, source.Id, target.Id, false) && !exit
      ensures this.source == source && this.target == target
    {
      this.id, this.mode, this.source, this.target := id, mode, source, target;
      sourceId, targetId := source.Id, target.Id;
      exit, Closed := false, false;
    }

    /** `Close`. */
    method Close()
      modifies this
      ensures Closed && exit == (old(exit) || !old(Closed))
    {
      if Closed {
        return;
      }
      exit := true;
      Closed := true;
    }

    /** `handleTick`; the replies are what the two peers answer to a status request, if they do.
        The connection is closed when a peer has gone or does not call it connected. */
    method HandleTick(mgr: Manager, sourceReply: Option<bool>, targetReply: Option<bool>)
      requires mgr.Valid() && this in mgr.all
      modifies mgr, mgr.all
      ensures mgr.Valid()
      ensures var healthy := !old(source.Closed) && !old(target.Closed) && sourceReply == Some(true)
        && targetReply == Some(true);
        mgr.Abs() == if old(Closed) || healthy then old(mgr.Abs()) else CloseConnection(old(mgr.Abs()), id)
    {
      if !Closed {
        if source.Closed {
          mgr.CloseConnectionById(id);
          return;
        } else if target.Closed {
          mgr.CloseConnectionById(id);
          return;
        }
        if sourceReply != Some(true) {
          mgr.CloseConnectionById(id);
          return;
        } else if targetReply != Some(true) {
          mgr.CloseConnectionById(id);
          return;
        }
      }
    }
  }

  class Manager {
    const server: Udps.Server
    var conns: map<string, Connection>
    ghost var all: set<Connection>

    ghost function Records(): map<Connection, Conn>
      reads this`all, all`Closed
    {
      map d | d in all :: d.Record()
    }

    ghost function Abs(): Table<Connection>
      reads this, all`Closed
    {
      Table(conns, Records())
    }

    ghost predicate Valid()
      reads this, all`Closed
    {
      forall id | id in conns :: conns[id] in all && conns[id].id == id
    }

    constructor (server: Udps.Server)
      ensures this.server == server && Valid() && Abs() == Table(map[], map[])
    {
      this.server, conns, all := server, map[], {};
    }

    /** `getPeer`. */
    method GetPeer(id: string) returns (r: Option<Udps.Client>)
      requires server.Valid()
      ensures r == R.GetClient(server.Abs(), id)
      ensures PeerId(server.Abs(), id) == if r.None? then None else Some(r.value.Id)
    {
      r := server.GetClient(id);
      assert R.LeadsHome(server.Abs());
    }

    method NewConnection(id: string, mode: string, source: Udps.Client, target: Udps.Client) returns (conn: Connection)
      requires Valid()
      modifies this`all
      ensures Valid() && fresh(conn) && all == old(all) + {conn} && conn.source == source && conn.target == target
      ensures Abs() == Create(old(Abs()), conn, Conn(id, mode, source.Id, target.Id, false))
      ensures conn.Record() == Conn(id, mode, source.Id, target.Id, false)
    {
      conn := new Connection(id, mode, source, target);
      all := all + {conn};
      assert Records() == old(Records())[conn := conn.Record()];
    }

    /** `createConnection` up to its request to the target, the client of `conn`'s other peer. */
    method CreateConnection(sourceId: string, req: Request, newId: Option<string>)
      returns (conn: Connection?, offer: Option<Offer>)
      requires Valid() && server.Valid()
      modifies this`all
      ensures Valid()
      ensures var checked := Check(req, true, PeerId(old(server.Abs()), sourceId),
        PeerId(old(server.Abs()), req.target), newId);
        && (checked.None? ==> conn == null && offer == None && Abs() == old(Abs()))
        && (checked.Some? ==>
            && conn != null && fresh(conn) && all == old(all) + {conn}
            && Some(conn.source) == R.GetClient(old(server.Abs()), sourceId)
            && Some(conn.target) == R.GetClient(old(server.Abs()), req.target)
            && offer == Some(OfferFor(checked.value, req)) && Abs() == Create(old(Abs()), conn, checked.value))
    {
      hide R.Base, R.EventInv, PeerId;
      if req.mode == MODE_RELAY && |req.relay| == 0 {
        return null, None;
      }
      var sp := GetPeer(sourceId);
      if sp.None? {
        return null, None;
      }
      var tp := GetPeer(req.target);
      if tp.None? {
        return null, None;
      }
      if newId.None? {
        return null, None;
      }
      ghost var reg := server.Abs();
      conn := NewConnection(newId.value, req.mode, sp.value, tp.value);
      assert server.Abs() == reg;
      offer := Some(Offer(conn.id, conn.mode, req.relay, conn.sourceId));
    }

    /** The end of `createConnection` and of `connectionRequestHandler`, once the target answered
        or the call to it ended without an answer. */
    method FinishRequest(conn: Connection, req: Request, outcome: Outcome<OfferReply>) returns (reply: Reply)
      requires Valid() && conn in all
      modifies this`conns, all
      ensures Valid()
      ensures if outcome == Answered(Accepted)
        then reply == ReplyFor(old(conn.Record()), req) && Abs() == Store(old(Abs()), conn)
        else reply == Failed && Abs() == CloseConnection(old(Abs()), conn.id)
    {
      if outcome != Answered(Accepted) {
        CloseConnectionById(conn.id);
        return Failed;
      }
      conns := conns[conn.id := conn];
      return Created(conn.id, conn.mode, req.relay, conn.targetId);
    }

    /** `connectionRequestHandler`: a request that passes the checks becomes an offer, and is
        listed and reported if the target accepts; `outcome` is what comes of the offer. The two sides
        are the clients registered under the two ids, and the offer goes to the second. */
    method ConnectionRequestHandler(c: Udps.Client, req: Request, newId: Option<string>, outcome: Outcome<OfferReply>)
      returns (reply: Reply, conn: Connection?, offer: Option<Offer>)
      requires Valid() && server.Valid()
      modifies this`all, this`conns, all
      ensures Valid()
      ensures var checked := Check(req, c.Meta.BrokerContext?, PeerId(old(server.Abs()), c.Id),
        PeerId(old(server.Abs()), req.target), newId);
        && (checked.None? ==> reply == Failed && offer == None && Abs() == old(Abs()))
        && (checked.Some? ==>
            && conn != null && fresh(conn) && offer == Some(OfferFor(checked.value, req))
            && Some(conn.source) == R.GetClient(old(server.Abs()), c.Id)
            && Some(conn.target) == R.GetClient(old(server.Abs()), req.target)
            && reply == (if outcome == Answered(Accepted) then ReplyFor(checked.value, req) else Failed)
            && Abs() == (var made := Create(old(Abs()), conn, checked.value);
                         if outcome == Answered(Accepted) then Store(made, conn)
                           else CloseConnection(made, checked.value.id)))
    {
      hide R.Base, R.EventInv, PeerId;
      if !c.Meta.BrokerContext? {
        return Failed, null, None;
      }
      conn, offer := CreateConnection(c.Id, req, newId);
      if conn == null {
        return Failed, null, None;
      }
      assert Abs().records[conn] == conn.Record();
      reply := FinishRequest(conn, req, outcome);
    }

    /** `CloseConnection`. */
    method CloseConnectionById(id: string)
      requires Valid()
      modifies this`conns, all
      ensures Valid() && Abs() == CloseConnection(old(Abs()), id)
    {
      if id in conns {
        var conn := conns[id];
        conns := conns - {id};
        conn.Close();
        assert Records() == old(Records())[conn := old(conn.Record()).(closed := true)];
      }
    }

    /** `CloseAllConnections`: every listed connection is closed, and all stay listed. */
    method CloseAllConnections()
      requires Valid()
      modifies all
      ensures Valid() && conns == old(conns) && all == old(all)
      ensures forall d | d in all :: d.Closed == (old(d.Closed) || d in conns.Values)
    {
      var rest := conns;
      ghost var done: set<Connection> := {};
      while rest != map[]
        invariant rest.Values <= all
        invariant done + rest.Values == conns.Values
        invariant forall d | d in all :: d.Closed == (old(d.Closed) || d in done)
        decreases |rest|
      {
        var id :| id in rest;
        var conn := rest[id];
        conn.Close();
        TakeOut(conns, rest, done, id);
        rest, done := rest - {id}, done + {conn};
      }
    }

    /** `connectionStatusHandler`. */
    method ConnectionStatusHandler(id: string) returns (ok: bool)
      ensures ok <==> id in conns && !conns[id].Closed
    {
      if id !in conns {
        return false;
      }
      return !conns[id].Closed;
    }

    /** `relayValidationHandler`, given what the server's own validation handler makes of the
        client that came to the relay. */
    method RelayValidationHandler(clientData: Option<R.ClientData>, connId: string) returns (answer: Option<Conn>)
      requires Valid()
      ensures answer == RelayAnswer(Abs(), match clientData { case Some(cd) => Some(cd.id) case None => None }, connId)
      ensures answer.Some? <==>
        clientData.Some? && connId in conns && clientData.value.id in {conns[connId].sourceId, conns[connId].targetId}
    {
      if clientData.None? {
        return None;
      }
      if connId !in conns {
        return None;
      }
      var conn := conns[connId];
      if conn.sourceId != clientData.value.id && conn.targetId != clientData.value.id {
        return None;
      }
      return Some(conn.Record());
    }
  }

  lemma TakeOut(m: map<string, Connection>, rest: map<string, Connection>, done: set<Connection>, id: string)
    requires id in rest && done + rest.Values == m.Values
    ensures rest[id] in rest.Values && (rest - {id}).Values <= rest.Values
    ensures done + {rest[id]} + (rest - {id}).Values == m.Values
  {
    var less := rest - {id};
    forall v | v in rest.Values && v != rest[id] ensures v in less.Values {
      var k :| k in rest && rest[k] == v;
      assert k in less && less[k] == v;
    }
  }
}
