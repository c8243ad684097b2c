/**
 * A peer's end of a connection as objects (`p2p/client`): the direct connection that adopts one of
 * several candidates or a client of the other side, the connection through a relay, and the
 * connection that owns one of them.
 */
module Peer {
  import opened Prelude
  import opened BrokerSpec
  import L = ClientLifecycle
  import P = PeerProtocol
  import R = Registry
  import Race = CandidateRace
  import Udpc
  import Udps

  // ----- adopting a candidate ---------------------------------------------------------------

  /** How a candidate's goroutine ends. */
  datatype Ending = NotConnected | StillDialing | Taken | NotTaken

  /** `connectToPeer` once the client is made: dial under the race's own gate, then offer it.
      `mainSelects` says whether the connecting goroutine is in its select at that moment. */
  method ConnectToPeer(client: Udpc.Client, script: seq<L.Attempt>, mainSelects: bool) returns (ending: Ending)
    requires client.cfg.customConnect
    modifies client
    ensures var (s, v) := L.Connect(client.cfg, old(client.Abs()), script);
      && client.Abs() == (if v == L.Up && !mainSelects then L.Close(s) else s)
      && ending == match v
                   case Down => NotConnected
                   case StillTrying => StillDialing
                   case Up => if mainSelects then Taken else NotTaken
    ensures ending == NotTaken ==> client.Closed
  {
    var v := client.Connect(script);
    if v.Down? {
      return NotConnected;
    }
    if v.StillTrying? {
      return StillDialing;
    }
    if mainSelects {
      return Taken;
    }
    client.Close();
    return NotTaken;
  }

  // ----- the direct connection --------------------------------------------------------------

  class P2PConn {
    const initiator: bool
    var localClient: Udpc.Client?
    var remoteClientChan: Option<Udps.Client>
    var remoteClient: Udps.Client?
    var connected: bool
    var exit: bool
    var closed: bool

    constructor (initiator: bool)
      ensures this.initiator == initiator && localClient == null && remoteClient == null
      ensures remoteClientChan == None && !connected && !exit && !closed && Valid()
    {
      this.initiator := initiator;
      localClient, remoteClient, remoteClientChan := null, null, None;
      connected, exit, closed := false, false, false;
    }

    /** The connection as the target uses it. */
    function Abs(): P.Direct<Udps.Client>
      reads this
    {
      var remote: Option<Udps.Client> := if remoteClient == null then None else Some(remoteClient);
      P.Direct(remoteClientChan, remote, connected, closed)
    }

    /** Connected means that the one client this side uses is there. */
    predicate Valid()
      reads this
    {
      && (connected ==> if initiator then localClient != null else remoteClient != null)
      && (closed ==> !connected && localClient == null && remoteClient == null && exit)
    }

    /** `initClient`. */
    method InitClient(client: Udpc.Client, confirmed: bool) returns (ok: bool)
      requires Valid() && initiator && !closed
      modifies this`localClient, this`connected
      ensures Valid() && ok == confirmed
      ensures localClient == (if confirmed then client else old(localClient))
        && connected == (confirmed || old(connected))
    {
      if !confirmed {
        return false;
      }
      localClient := client;
      connected := true;
      return true;
    }

    /** The initiator's branch of `connect`. */
    method ConnectToCandidates(arrivals: seq<Race.Arrival<Udpc.Client>>) returns (choice: Race.Choice<Udpc.Client>)
      requires Valid() && initiator && !closed && !connected
      modifies this`localClient, this`connected
      ensures Valid() && choice == Race.Choose(arrivals)
      ensures connected <==> choice.Adopts?
      ensures localClient == if choice.Adopts? then choice.client else old(localClient)
    {
      var i := 0;
      while i < |arrivals|
        invariant i <= |arrivals| && Race.Choose(arrivals[i..]) == Race.Choose(arrivals)
        invariant Valid() && !connected && localClient == old(localClient)
      {
        assert arrivals[i..][1..] == arrivals[i + 1..];
        match arrivals[i] {
          case Offers(client, confirmed) =>
            var ok := InitClient(client, confirmed);
            if ok {
              return Race.Adopts(client);
            }
          case TimerFires =>
            return Race.GivesUp;
        }
        i := i + 1;
      }
      return Race.StillWaiting;
    }

    /** `awaitRemoteConnection`: a client that checked in before the timer is the one. */
    method AwaitRemoteConnection() returns (ok: bool)
      requires Valid() && !initiator && !closed && !connected
      modifies this`remoteClient, this`remoteClientChan, this`connected
      ensures Valid() && ok == old(remoteClientChan).Some?
      ensures Abs() == if ok then P.Take(old(Abs())) else old(Abs())
    {
      if remoteClientChan.None? {
        return false;
      }
      remoteClient := remoteClientChan.value;
      remoteClientChan := None;
      connected := true;
      return true;
    }

    /** `checkinRemoteClient`: a second client is turned away once the first was taken; before
        that it is told it succeeded but is not kept. */
    method CheckinRemoteClient(client: Udps.Client) returns (ok: bool)
      modifies this`remoteClientChan
      ensures (Abs(), ok) == P.CheckIn(old(Abs()), client)
      ensures ok <==> !connected && remoteClient == null
      ensures remoteClientChan == if ok && old(remoteClientChan).None? then Some(client) else old(remoteClientChan)
    {
      if connected || remoteClient != null {
        return false;
      }
      if remoteClientChan.None? {
        remoteClientChan := Some(client);
      }
      return true;
    }

    ghost predicate RemoteValid()
      reads this
      reads if remoteClient == null then {} else {remoteClient, remoteClient.server} + remoteClient.server.sessions
    {
      remoteClient != null ==> remoteClient.Valid()
    }

    method CloseLocal()
      modifies this`localClient, if localClient == null then {} else {localClient}
      ensures localClient == null
      ensures old(localClient) != null ==> old(localClient).Abs() == L.Close(old(localClient.Abs()))
    {
      if localClient != null {
        localClient.Close();
        localClient := null;
      }
    }

    method CloseRemote()
      requires RemoteValid()
      modifies this`remoteClient, if remoteClient == null then {} else {remoteClient, remoteClient.server}
      ensures remoteClient == null
      ensures old(remoteClient) != null ==>
        old(remoteClient).server.Abs() == R.Close(old(remoteClient.server.Abs()), old(remoteClient))
          && old(remoteClient).Closed
    {
      var client := remoteClient;
      remoteClient := null;
      if client != null {
        client.Close();
      }
    }

    method CloseClients()
      requires RemoteValid()
      modifies this`localClient, if localClient == null then {} else {localClient}
      modifies this`remoteClient, if remoteClient == null then {} else {remoteClient, remoteClient.server}
      ensures localClient == null && remoteClient == null
      ensures old(localClient) != null ==> old(localClient).Abs() == L.Close(old(localClient.Abs()))
      ensures old(remoteClient) != null ==>
        old(remoteClient).server.Abs() == R.Close(old(remoteClient.server.Abs()), old(remoteClient))
          && old(remoteClient).Closed
    {
      hide R.Close, L.Close, R.Base, R.EventInv;
      CloseLocal();
      assert remoteClient != null ==> remoteClient.server.Abs() == old(remoteClient.server.Abs());
      CloseRemote();
    }

    /** `close`: both clients are closed and dropped. */
    method Close()
      requires Valid() && RemoteValid()
      modifies this, if localClient == null then {} else {localClient}
      modifies if remoteClient == null then {} else {remoteClient, remoteClient.server}
      ensures Valid() && closed && exit && !connected && localClient == null && remoteClient == null
      ensures old(localClient) != null ==> old(localClient).Abs() == L.Close(old(localClient.Abs()))
      ensures old(remoteClient) != null ==>
        old(remoteClient).server.Abs() == R.Close(old(remoteClient.server.Abs()), old(remoteClient))
          && old(remoteClient).Closed
    {
      hide R.Close, L.Close, R.Base, R.EventInv;
      if closed {
        return;
      }
      CloseClients();
      exit := true;
      connected := false;
      closed := true;
    }
  }

  // ----- the connection through a relay -----------------------------------------------------

  class RelayConn {
    var client: Udpc.Client?
    var connected: bool
    var exit: bool
    var closed: bool

    constructor ()
      ensures client == null && !connected && !exit && !closed && Valid()
    {
      client, connected, exit, closed := null, false, false, false;
    }

    predicate Valid()
      reads this
    {
      && (connected ==> client != null)
      && (closed ==> !connected && client == null && exit)
    }

    /** `connect`: the relay's client that could be connected, kept if its peer came, too. */
    method Connect(c: Udpc.Client, script: seq<L.Attempt>, peerCame: bool) returns (v: L.Verdict)
      requires Valid() && !closed && !connected
      modifies this`client, this`connected, c
      ensures Valid() && connected == (v == L.Up)
      ensures var (s, verdict) := L.Connect(c.cfg, old(c.Abs()), script);
        && v == (if verdict == L.Up && !peerCame then L.Down else verdict)
        && c.Abs() == (if verdict == L.Up && !peerCame then L.Close(s) else s)
        && client == (if verdict != L.Up then old(client) else if peerCame then c else null)
    {
      v := c.Connect(script);
      if v != L.Up {
        return;
      }
      client := c;
      if !peerCame {
        c.Close();
        client := null;
        return L.Down;
      }
      connected := true;
    }

    method Close()
      requires Valid()
      modifies this, if client == null then {} else {client}
      ensures Valid() && closed && exit && !connected && client == null
      ensures old(client) != null ==> old(client).Abs() == L.Close(old(client.Abs()))
    {
      if closed {
        return;
      }
      if client != null {
        client.Close();
        client := null;
      }
      exit := true;
      connected := false;
      closed := true;
    }
  }

  // ----- the connection ---------------------------------------------------------------------

  function VerdictOf(choice: Race.Choice<Udpc.Client>): L.Verdict {
    match choice
    case Adopts(_) => L.Up
    case GivesUp => L.Down
    case StillWaiting => L.StillTrying
  }

  class Connection {
    const ClientId: string
    const initiator: bool
    const id: string
    const mode: string
    const peer: string
    const relayAddr: string
    const addrs: seq<string>
    var p2pConn: P2PConn?
    var relayConn: RelayConn?
    var exit: bool
    var Closed: bool

    function Record(): PeerConn {
      PeerConn(ClientId, initiator, id, mode, peer, relayAddr)
    }

    /** The record that `createConnection` and `acceptConnection` start from; `addrs` are the
        peer's addresses. */
    constructor (conn: PeerConn, addrs: seq<string>)
      ensures Record() == conn && this.addrs == addrs && p2pConn == null && relayConn == null && !exit && !Closed
    {
      ClientId, initiator, id, mode, peer, relayAddr := conn.owner, conn.initiator, conn.id, conn.mode, conn.peer,
        conn.relay;
      this.addrs := addrs;
      p2pConn, relayConn, exit, Closed := null, null, false, false;
    }

    /** What a connection owns is there only in its own mode. */
    predicate Valid()
      reads this, if p2pConn == null then {} else {p2pConn}, if relayConn == null then {} else {relayConn}
    {
      && (p2pConn != null ==> p2pConn.Valid() && p2pConn.initiator == initiator)
      && (relayConn != null ==> relayConn.Valid())
    }

    /** `IsConnected`. */
    predicate IsConnected()
      reads this, if p2pConn == null then {} else {p2pConn}, if relayConn == null then {} else {relayConn}
    {
      if mode == MODE_P2P then p2pConn != null && p2pConn.connected
      else if mode == MODE_RELAY then relayConn != null && relayConn.connected
      else false
    }

    /** `connect` in the direct mode; `checkedIn` is a client of the other side that checked in, and
        `part` the direct part, closed and dropped if it fails. */
    method ConnectDirect(arrivals: seq<Race.Arrival<Udpc.Client>>, checkedIn: Option<Udps.Client>)
      returns (v: L.Verdict, ghost part: P2PConn)
      requires mode == MODE_P2P
      modifies this`p2pConn
      ensures p2pConn == null || (fresh(p2pConn) && p2pConn.Valid() && p2pConn.initiator == initiator
        && !p2pConn.closed)
      ensures v == if initiator then VerdictOf(Race.Choose(arrivals))
                   else if checkedIn.Some? then L.Up else L.Down
      ensures v == L.Up <==> IsConnected()
      ensures v == L.Up ==>
        if initiator then p2pConn.localClient == Race.Choose(arrivals).client
        else p2pConn.remoteClient == checkedIn.value
      ensures v == L.Down <==> p2pConn == null
      ensures fresh(part) && (if v == L.Down then part.Valid() && part.closed else p2pConn == part)
    {
      var p := new P2PConn(initiator);
      part := p;
      p2pConn := p;
      if initiator {
        var choice := p.ConnectToCandidates(arrivals);
        v := VerdictOf(choice);
      } else {
        if checkedIn.Some? {
          var taken := p.CheckinRemoteClient(checkedIn.value);
        }
        var ok := p.AwaitRemoteConnection();
        v := if ok then L.Up else L.Down;
      }
      if v == L.Down {
        p.Close();
        p2pConn := null;
      }
    }

    /** `connect` in the relay mode; `part` is the relay part, if the address parses. A failed part is
        closed and dropped, and its client with it if that was connected. */
    method ConnectRelay(addressParses: bool, client: Udpc.Client, script: seq<L.Attempt>, peerCame: bool)
      returns (v: L.Verdict, ghost part: RelayConn?)
      requires mode == MODE_RELAY && relayConn == null
      modifies this`relayConn, client
      ensures relayConn == null || (fresh(relayConn) && relayConn.Valid() && !relayConn.closed)
      ensures v == L.Up <==> IsConnected()
      ensures v == L.Up <==> addressParses && L.Connect(client.cfg, old(client.Abs()), script).1 == L.Up && peerCame
      ensures v == L.Up ==> relayConn.client == client
      ensures v == L.Down <==> relayConn == null
      ensures if !addressParses then part == null && client.Abs() == old(client.Abs())
        else
          && part != null && fresh(part)
          && (if v == L.Down then part.Valid() && part.closed else relayConn == part)
          && var (s, verdict) := L.Connect(client.cfg, old(client.Abs()), script);
          client.Abs() == if verdict == L.Up && !peerCame then L.Close(s) else s
    {
      part := null;
      if !addressParses {
        return L.Down, null;
      }
      var r := new RelayConn();
      part := r;
      relayConn := r;
      v := r.Connect(client, script, peerCame);
      if v == L.Down {
        r.Close();
        relayConn := null;
      }
    }

    /** `Close`: what the connection owns is closed and dropped, and it is connected no more. */
    method Close()
      requires Valid() && (p2pConn != null ==> p2pConn.RemoteValid())
      modifies this`p2pConn, this`relayConn, this`exit, this`Closed
      modifies if p2pConn == null then {} else {p2pConn}
      modifies if p2pConn == null || p2pConn.localClient == null then {} else {p2pConn.localClient}
      modifies if p2pConn == null || p2pConn.remoteClient == null then {}
        else {p2pConn.remoteClient, p2pConn.remoteClient.server}
      modifies if relayConn == null then {} else {relayConn}
      modifies if relayConn == null || relayConn.client == null then {} else {relayConn.client}
      ensures Closed && Valid()
      ensures old(Closed) ==> p2pConn == old(p2pConn) && relayConn == old(relayConn)
      ensures !old(Closed) ==> exit && p2pConn == null && relayConn == null && !IsConnected()
      ensures !old(Closed) && old(p2pConn) != null ==> old(p2pConn).closed
      ensures !old(Closed) && old(relayConn) != null ==> old(relayConn).closed
    {
      hide R.Close, L.Close, R.Base, R.EventInv;
      if Closed {
        return;
      }
      if p2pConn != null {
        p2pConn.Close();
        p2pConn := null;
      }
      if relayConn != null {
        relayConn.Close();
        relayConn := null;
      }
      exit := true;
      Closed := true;
    }
  }

  /** `createConnection`: a connection is made exactly when the broker reported one; `addrs` are
      the peer's addresses, if they all parse. */
  method CreateConnection(owner: string, req: Request, reply: Option<Reply>, addrs: Option<seq<string>>)
    returns (c: Connection?)
    ensures c != null <==> reply.Some? && reply.value.Created? && addrs.Some?
    ensures c != null ==>
      fresh(c) && c.Record() == CreatedConn(owner, req, reply.value) && c.addrs == addrs.value && !c.Closed
  {
    if reply.None? || reply.value.Failed? || addrs.None? {
      return null;
    }
    c := new Connection(PeerConn(owner, true, reply.value.id, req.mode, reply.value.peer, req.relay), addrs.value);
  }

  /** How a request to check in ends; `Panics` is the use of a connection's missing direct part. */
  datatype Handled = NotFound | CheckedIn | TurnedAway | Panics

  /** The client's table of connections, as far as requests of the broker and of the other side's
      clients concern it. */
  class Manager {
    const ClientId: string
    var conns: map<string, Connection>

    predicate Valid()
      reads this
    {
      forall id | id in conns :: conns[id].id == id
    }

    constructor (clientId: string)
      ensures ClientId == clientId && conns == map[] && Valid()
    {
      ClientId, conns := clientId, map[];
    }

    /** `connectionRequestHandler` with `acceptConnection`. */
    method ConnectionRequestHandler(offer: Offer, addrs: Option<seq<string>>) returns (reply: OfferReply)
      requires Valid()
      modifies this`conns
      ensures Valid()
      ensures reply == if addrs.Some? then Accepted else Refused
      ensures reply == Refused ==> conns == old(conns)
      ensures reply == Accepted ==>
        && offer.id in conns && fresh(conns[offer.id]) && conns == old(conns)[offer.id := conns[offer.id]]
        && conns[offer.id].Record() == AcceptedConn(ClientId, offer) && conns[offer.id].addrs == addrs.value
        && !conns[offer.id].Closed
    {
      if addrs.None? {
        return Refused;
      }
      var conn := new Connection(PeerConn(ClientId, false, offer.id, offer.mode, offer.peer, offer.relay), addrs.value);
      conns := conns[conn.id := conn];
      return Accepted;
    }

    /** `connectionStatusHandler`. */
    method ConnectionStatusHandler(id: string) returns (ok: bool)
      ensures ok <==> id in conns && conns[id].IsConnected()
    {
      return id in conns && conns[id].IsConnected();
    }

    /** `clientValidateHandler`: a client of the other side comes under the id of a direct
        connection of ours, from an address we were told. */
    method ClientValidateHandler(token: string, address: P.Address) returns (cd: Option<R.ClientData>)
      requires Valid()
      ensures cd.Some? <==>
        && token in conns
        && P.Admits(conns[token].Record(), conns[token].p2pConn != null, conns[token].addrs, address)
      ensures cd.Some? ==> cd.value == P.DataFor(conns[token].Record(), address)
    {
      if token !in conns {
        return None;
      }
      var conn := conns[token];
      if conn.mode != MODE_P2P {
        return None;
      } else if conn.p2pConn == null {
        return None;
      }
      var validIP := false;
      for i := 0 to |conn.addrs|
        invariant validIP <==> address.ip in conn.addrs[..i]
      {
        assert conn.addrs[..i + 1] == conn.addrs[..i] + [conn.addrs[i]];
        if conn.addrs[i] == address.ip {
          validIP := true;
          break;
        }
      }
      assert conn.addrs[..|conn.addrs|] == conn.addrs;
      if !validIP {
        return None;
      }
      return Some(R.ClientData(conn.id + ":" + address.text, map[], R.P2PContext(conn.id, conn.peer)));
    }

    /** `clientInitHandler`: the client of the other side is offered to the connection it was
        validated for; only then does its end close the connection (`active`). The handler fails
        when that connection is listed but not being set up any more. */
    method ClientInitHandler(client: Udps.Client, connId: string) returns (handled: Handled, active: bool)
      modifies if connId in conns && conns[connId].p2pConn != null then {conns[connId].p2pConn} else {}
      ensures active <==> handled == CheckedIn
      ensures handled == NotFound <==> connId !in conns
      ensures handled == Panics <==> connId in conns && conns[connId].p2pConn == null
      ensures connId in conns && conns[connId].p2pConn != null ==>
        (conns[connId].p2pConn.Abs(), active) == P.CheckIn(old(conns[connId].p2pConn.Abs()), client)
    {
      if connId !in conns {
        return NotFound, false;
      }
      if conns[connId].p2pConn == null {
        return Panics, false;
      }
      active := conns[connId].p2pConn.CheckinRemoteClient(client);
      handled := if active then CheckedIn else TurnedAway;
    }
  }
}
