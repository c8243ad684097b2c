/**
 * The relay server and its connections as objects (`p2p/relay`), on top of the UDP server: each
 * operation is proved to be the corresponding step of `RelaySpec`.
 */
module RelayServer {
  import opened Prelude
  import opened RelaySpec
  import R = Registry
  import Udps

  const KEY_CONNECTION_ID := "CONNECTION_ID"
  const KEY_STREAM_IGNORE := "STREAM_IGNORE"

  /** A stream opened to a client, with the metadata the client is shown. */
  datatype OpenedStream = OpenedStream(client: Udps.Client, metadata: map<string, string>)

  class Connection {
    const server: Server
    const id: string
    const source: string
    const target: string
    var Closed: bool
    var busOpen: bool

    function Record(): Conn
      reads this`Closed
    {
      Conn(id, source, target, Closed)
    }

    constructor (server: Server, a: Approval)
      ensures this.server == server && Record() == Conn(a.id, a.source, a.target, false) && busOpen
    {
      this.server, id, source, target := server, a.id, a.source, a.target;
      Closed, busOpen := false, true;
    }

    /** `getPeerClient`; a failed lookup and an invalid client id are both errors. */
    method GetPeerClient(client: Udps.Client) returns (r: Option<Udps.Client>)
      requires server.udpServer.Valid()
      ensures r == RelaySpec.GetPeerClient(server.Abs(), Record(), client.Id)
      ensures r.Some? ==> {client.Id, r.value.Id} == {source + ":" + id, target + ":" + id}
      ensures r.None? ==> forall k | {client.Id, k} == {source + ":" + id, target + ":" + id} ::
        k !in server.udpServer.clients
    {
      assert R.LeadsHome(server.udpServer.Abs());
      var peerId := PeerClientId(Record(), client.Id);
      if peerId.None? {
        return None;
      }
      r := server.udpServer.GetClient(peerId.value);
    }

    /** `awaitPeer`: publish, look, listen. `published` is what goes onto the bus. */
    method AwaitPeer(client: Udps.Client, events: seq<BusEvent>, now: int) returns (v: Verdict, published: string)
      requires server.udpServer.Valid()
      ensures published == client.Id
      ensures v == match PeerClientId(Record(), client.Id)
                   case None => GaveUp
                   case Some(peerId) =>
                     if R.GetClient(server.udpServer.Abs(), peerId).Some? then Found
                     else if !busOpen then GaveUp
                     else AwaitLoop(events, peerId, now, now + AWAIT_PEER_TIMEOUT, false)
    {
      published := client.Id;
      var peerClient := GetPeerClient(client);
      if peerClient.Some? {
        return Found, published;
      }
      if !busOpen {
        return GaveUp, published;
      }
      var peerId := PeerClientId(Record(), client.Id);
      if peerId.None? {
        return GaveUp, published;
      }
      var timeNow := now;
      var endTime := timeNow + AWAIT_PEER_TIMEOUT;
      var failed := false;
      var i := 0;
      while endTime - timeNow > 0
        invariant i <= |events|
        invariant AwaitLoop(events[i..], peerId.value, timeNow, endTime, failed) ==
          AwaitLoop(events, peerId.value, now, endTime, false)
        decreases |events| - i
      {
        if i == |events| {
          return StillWaiting, published;
        }
        assert events[i..][1..] == events[i + 1..];
        match events[i] {
          case Message(id, t) =>
            if id == Some(peerId.value) {
              return if failed then GaveUp else Found, published;
            }
            timeNow := t;
          case TimerFires =>
            failed := true;
        }
        i := i + 1;
      }
      return GaveUp, published;
    }

    /**
     * `openStream`: the peer's stream first, then the client's own, marked to be ignored by its
     * handler. `peerOpens` and `ownOpens` say whether opening a stream to the client succeeds.
     * Either both are bridged or whatever was made is undone again.
     */
    method OpenStream(client: Udps.Client, metadata: map<string, string>, peerOpens: bool, ownOpens: bool)
      returns (r: Result<(OpenedStream, OpenedStream), string>, made: seq<OpenedStream>, undone: seq<OpenedStream>)
      requires server.udpServer.Valid()
      ensures var peer := RelaySpec.GetPeerClient(server.Abs(), Record(), client.Id);
        var shown := metadata[KEY_CONNECTION_ID := id];
        && (r.Ok? <==> peer.Some? && peerOpens && ownOpens)
        && (r.Ok? ==>
          r.value == (OpenedStream(client, shown[KEY_STREAM_IGNORE := "true"]), OpenedStream(peer.value, shown))
                      && made == [r.value.1, r.value.0] && undone == [])
        && (r.Err? ==> made == undone)
    {
      made, undone := [], [];
      var shown := metadata[KEY_CONNECTION_ID := id];
      var peer := GetPeerClient(client);
      if peer.None? {
        return Err("client not found"), made, undone;
      }
      if !peerOpens {
        return Err("peer stream"), made, undone;
      }
      var peerStream := OpenedStream(peer.value, shown);
      made := made + [peerStream];
      shown := shown[KEY_STREAM_IGNORE := "true"];
      if !ownOpens {
        undone := undone + [peerStream];
        return Err("stream"), made, undone;
      }
      var stream := OpenedStream(client, shown);
      made := made + [stream];
      r := Ok((stream, peerStream));
    }

    /** `Close`. */
    method Close()
      requires server.Valid() && this in server.all
      modifies this, server`conns, server.udpServer`clients, server.udpServer`calls, server.udpServer.sessions
      ensures server.Wired() && Closed
      ensures server.Abs() == CloseConn(old(server.Abs()), this)
      ensures !old(Closed) ==> !busOpen
    {
      if Closed {
        return;
      }
      ghost var start := server.Abs();
      TakeOut();
      assert server.udpServer.Abs() == start.reg;
      server.CloseClients(GetClientId(source, id), GetClientId(target, id));
      assert server.Records() == start.conns;
      MarkClosed();
      assert start.conns[this] == Conn(id, source, target, false);
      assert server.udpServer.Abs() == RelaySpec.CloseClients(start.reg, GetClientId(source, id),
        GetClientId(target, id));
      assert server.conns == start.table - {id};
      CloseConnIs(start, this, server.Abs());
    }

    /** The bus is closed and the entry deleted. */
    method TakeOut()
      requires server.Wired() && this in server.all
      modifies this`busOpen, server`conns
      ensures server.Wired() && !busOpen && server.Abs() == old(server.Abs()).(table := old(server.conns) - {id})
    {
      busOpen := false;
      server.conns := server.conns - {id};
      assert server.Records() == old(server.Records());
    }

    method MarkClosed()
      requires this in server.all
      modifies this`Closed
      ensures Closed
      ensures server.Records() == old(server.Records())[this := old(Record()).(closed := true)]
    {
      Closed := true;
      assert forall k | k in server.all && k != this :: k.Record() == old(k.Record());
      SameConnsElsewhere(old(server.Records()), server.Records(), this);
    }
  }

  class Server {
    const udpServer: Udps.Server
    var conns: map<string, Connection>
    ghost var all: set<Connection>

    ghost function Records(): map<Connection, Conn>
      reads this`all, all`Closed
    {
      map d | d in all :: d.Record()
    }

    ghost function Abs(): Relay<Udps.Client, Connection>
      reads this, all, udpServer, udpServer.sessions
    {
      Relay(udpServer.Abs(), conns, Records())
    }

    ghost predicate Wired()
      reads this, all, udpServer, udpServer.sessions
    {
      && udpServer.Valid()
      && (forall d | d in all :: d.server == this)
      && (forall k | k in conns :: conns[k] in all)
    }

    ghost predicate Valid()
      reads this, all, udpServer, udpServer.sessions
    {
      Wired()
    }

    constructor (udpServer: Udps.Server)
      requires udpServer.Valid()
      ensures Valid() && Abs() == Relay(udpServer.Abs(), map[], map[])
    {
      this.udpServer, conns, all := udpServer, map[], {};
    }

    method NewConnection(a: Approval) returns (conn: Connection)
      requires Valid()
      modifies this
      ensures Wired() && fresh(conn) && conn in all && conn.id == a.id
      ensures Abs() == RelaySpec.NewConnection(old(Abs()), conn, a)
    {
      conn := new Connection(this, a);
      all := all + {conn};
      conns := conns[conn.id := conn];
      assert Records() == old(Records())[conn := conn.Record()];
    }

    /** `clientValidateHandler`, given what the broker answered: the client's connection is looked
        up, or created if it is the first to come. */
    method ClientValidateHandler(a: Option<Approval>) returns (cd: Option<R.ClientData>, conn: Connection?)
      requires Valid()
      modifies this
      ensures Wired()
      ensures a.None? ==> cd == None && conn == null && Abs() == old(Abs())
      ensures a.Some? ==>
        && cd == Some(ClientDataFor(a.value)) && conn != null
        && Abs() == FindOrCreate(old(Abs()), conn, a.value)
        && (a.value.id in old(conns) ==> conn == old(conns[a.value.id]))
        && (a.value.id !in old(conns) ==> fresh(conn))
    {
      if a.None? {
        return None, null;
      }
      var data := a.value;
      if data.id in conns {
        conn := conns[data.id];
      } else {
        conn := NewConnection(data);
      }
      cd := Some(R.ClientData(GetClientId(data.peer, data.id), map[data.id := "true", data.peer := "true"],
                              R.RelayContext(data.id, data.source, data.target)));
    }

    /** `getConnection`. */
    method GetConnection(connId: string) returns (r: Option<Connection>)
      ensures r == if connId in conns then Some(conns[connId]) else None
    {
      return if connId in conns then Some(conns[connId]) else None;
    }

    /** `openPeerStreamHandler` of a validated client. */
    method OpenPeerStreamHandler(c: Udps.Client, metadata: map<string, string>, peerOpens: bool, ownOpens: bool)
      returns (r: Result<(OpenedStream, OpenedStream), string>, made: seq<OpenedStream>, undone: seq<OpenedStream>)
      requires Valid() && c.server == udpServer && c in udpServer.sessions && c.Meta.RelayContext?
      ensures r.Ok? <==> BridgedPeer(Abs(), c).Some? && peerOpens && ownOpens
      ensures r.Ok? ==> r.value.0.client == c && Some(r.value.1.client) == BridgedPeer(Abs(), c)
      ensures r.Ok? ==>
        && c.Meta.connectionId in conns && made == [r.value.1, r.value.0] && undone == []
        && var shown := metadata[KEY_CONNECTION_ID := conns[c.Meta.connectionId].id];
        r.value.0.metadata == shown[KEY_STREAM_IGNORE := "true"] && r.value.1.metadata == shown
      ensures r.Err? ==> made == undone
    {
      var conn := GetConnection(c.Meta.connectionId);
      if conn.None? {
        return Err("connection not found"), [], [];
      }
      r, made, undone := conn.value.OpenStream(c, metadata, peerOpens, ownOpens);
    }

    /** `awaitPeerConnection` of a validated client. */
    method AwaitPeerConnection(c: Udps.Client, events: seq<BusEvent>, now: int) returns (v: Verdict)
      requires Valid() && c.server == udpServer && c in udpServer.sessions && c.Meta.RelayContext?
      ensures BridgedPeer(Abs(), c).Some? ==> v == Found
      ensures c.Meta.connectionId !in conns ==> v == GaveUp
      ensures c.Meta.connectionId in conns && BridgedPeer(Abs(), c).None? ==>
        var conn := conns[c.Meta.connectionId];
        v == match PeerClientId(conn.Record(), c.Id)
             case None => GaveUp
             case Some(peerId) =>
               if conn.busOpen then AwaitLoop(events, peerId, now, now + AWAIT_PEER_TIMEOUT, false) else GaveUp
    {
      var conn := GetConnection(c.Meta.connectionId);
      if conn.None? {
        return GaveUp;
      }
      var published: string;
      v, published := conn.value.AwaitPeer(c, events, now);
    }

    /** The lookup and close of one client in `Connection.Close`. */
    method CloseClient(id: string)
      requires udpServer.Valid()
      modifies udpServer`clients, udpServer`calls, udpServer.sessions
      ensures udpServer.Valid()
      ensures udpServer.Abs() == RelaySpec.CloseClient(old(udpServer.Abs()), id)
    {
      CloseClientKeeps(udpServer.Abs(), id);
      hide R.Base, R.Close;
      var client := udpServer.GetClient(id);
      if client.Some? {
        client.value.Close();
      }
    }

    method CloseClients(id: string, id': string)
      requires udpServer.Valid()
      modifies udpServer`clients, udpServer`calls, udpServer.sessions
      ensures udpServer.Valid()
      ensures udpServer.Abs() == RelaySpec.CloseClients(old(udpServer.Abs()), id, id')
    {
      CloseClient(id);
      CloseClient(id');
    }

    /** The server's turn, with the data the validation handler came up with. */
    method Deliver(c: Udps.Client, cd: Option<R.ClientData>)
      requires Valid() && c.server == udpServer && c in udpServer.sessions
      modifies udpServer`clients, udpServer`calls, udpServer.sessions
      ensures Abs() == old(Abs()).(reg := R.Deliver(old(udpServer.Abs()), c, R.Validate(cd)))
    {
      hide R.Deliver, R.Base;
      c.HandleMessage(R.Validate(cd));
      assert Records() == old(Records());
    }

    /** A validation message of a session, handled by the relay's own validation handler. */
    method Admit(c: Udps.Client, a: Option<Approval>) returns (conn: Connection?)
      requires Valid() && c.server == udpServer && c in udpServer.sessions
      modifies this, udpServer`clients, udpServer`calls, udpServer.sessions
      ensures conn != null <==> a.Some? && !old(c.initialized)
      ensures conn != null ==> Abs() == RelaySpec.Admit(old(Abs()), c, conn, a)
      ensures conn == null ==> Abs() == if old(c.initialized) then old(Abs())
                                        else old(Abs()).(reg := R.Deliver(old(udpServer.Abs()), c, R.Validate(None)))
    {
      hide R.Deliver, R.Base;
      if c.initialized {
        return null;
      }
      ghost var start := Abs();
      var cd: Option<R.ClientData>;
      cd, conn := ClientValidateHandler(a);
      assert udpServer.Abs() == start.reg;
      Deliver(c, cd);
    }
  }

  /** `CloseConn` of an open connection, part by part. */
  lemma CloseConnIs<C, D>(s: Relay<C, D>, d: D, s': Relay<C, D>)
    requires R.Base(s.reg) && d in s.conns && !s.conns[d].closed
    requires s'.reg == RelaySpec.CloseClients(s.reg, GetClientId(s.conns[d].source, s.conns[d].id),
      GetClientId(s.conns[d].target, s.conns[d].id))
    requires s'.table == s.table - {s.conns[d].id}
    requires s'.conns == s.conns[d := s.conns[d].(closed := true)]
    ensures s' == CloseConn(s, d)
  {
  }

  lemma SameConnsElsewhere(before: map<Connection, Conn>, after: map<Connection, Conn>, d: Connection)
    requires before.Keys == after.Keys && d in before
    requires forall k | k in before && k != d :: after[k] == before[k]
    ensures after == before[d := after[d]]
  {
  }
}
