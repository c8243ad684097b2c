/**
 * The UDP server and its sessions as objects (`udp/server`): every operation changes the fields
 * in place as the original does, and is proved to be the corresponding step of `Registry`.
 */
module Udps {
  import opened Prelude
  import R = Registry

  class Client {
    const server: Server
    const sessionId: string
    var Id: string
    var Tags: map<string, string>
    var Meta: R.Context
    var initialized: bool
    var Closed: bool
    var channelOpen: bool
    var reading: bool
    var accepting: bool
    var messageHandler: set<string>

    function Record(): R.Session
      reads this
    {
      R.Session(sessionId, Id, Tags, Meta, initialized, Closed, reading, accepting, messageHandler)
    }

    constructor (server: Server, sessionId: string)
      ensures this.server == server && Record() == R.Fresh(sessionId) && channelOpen
    {
      this.server, this.sessionId := server, sessionId;
      Id, Tags, Meta := "", map[], R.NoContext;
      initialized, Closed, channelOpen, reading, accepting, messageHandler := false, false, true, true, false, {};
    }

    ghost predicate Valid()
      reads this, server, server.sessions
    {
      server.Valid() && this in server.sessions
    }

    /** `initialize`. */
    method Initialize(d: R.ClientData)
      requires server.Wired() && this in server.sessions
      modifies this`Id, this`Tags, this`Meta, this`initialized
      ensures server.Records() == old(server.Records())[this := R.ValidatedSession(old(Record()), d)]
      ensures Id == d.id
    {
      Id := d.id;
      Tags := d.tags;
      Meta := d.ctx;
      initialized := true;
      assert forall k | k in server.sessions && k != this :: k.Record() == old(k.Record());
      R.SameElsewhere(old(server.Records()), server.Records(), this);
    }

    /** The part of `Close` that concerns the session alone: its channel and its handlers go. */
    method Shut()
      requires server.Wired() && this in server.sessions
      modifies this`channelOpen, this`messageHandler, this`Closed
      ensures server.Records() == old(server.Records())[this := R.ClosedSession(old(Record()))]
      ensures Closed && !channelOpen
    {
      channelOpen := false;
      messageHandler := {};
      Closed := true;
      assert forall k | k in server.sessions && k != this :: k.Record() == old(k.Record());
      R.SameElsewhere(old(server.Records()), server.Records(), this);
    }

    /** The part of `Close` that concerns the server: the registry entry goes if it is this
        session's own, and the disconnected callback is called. */
    method Unregister()
      requires server.Wired() && this in server.sessions
      modifies server`clients, server`calls
      ensures server.clients == if OwnsEntry(old(server.clients)) then old(server.clients) - {Id}
        else old(server.clients)
      ensures server.calls == if server.cfg.onDisconnected then old(server.calls) + [R.DisconnectedCalled(this)]
        else old(server.calls)
    {
      if Id in server.clients && server.clients[Id].sessionId == sessionId {
        server.clients := server.clients - {Id};
      }
      if server.cfg.onDisconnected {
        server.calls := server.calls + [R.DisconnectedCalled(this)];
      }
    }

    predicate OwnsEntry(clients: map<string, Client>)
      reads this
    {
      Id in clients && clients[Id].sessionId == sessionId
    }

    /** `Close`. */
    method Close()
      requires server.Wired() && this in server.sessions
      modifies this`channelOpen, this`messageHandler, this`Closed, server`clients, server`calls
      ensures server.Wired() && Closed && (old(Closed) || !channelOpen)
      ensures server.Abs() == R.Close(old(server.Abs()), this)
    {
      if Closed {
        return;
      }
      ghost var start, own := server.Abs(), OwnsEntry(server.clients);
      assert Id in server.clients ==> start.sessions[server.clients[Id]].sessionId == server.clients[Id].sessionId;
      Shut();
      Unregister();
      R.CloseIs(start, this, own, server.Abs());
    }

    /** The body of the loop of `handleMessages`, once `Read` has returned. */
    method HandleMessage(msg: R.Incoming)
      requires Valid()
      modifies server`clients, server`calls, server.sessions
      ensures server.Wired()
      ensures server.Abs() == R.Deliver(old(server.Abs()), this, msg)
    {
      match msg
      case ReadFailed => CloseAndStop();
      case Validate(answer) => HandleValidate(answer);
      case Ping =>
      case Search =>
      case Other(mtype) => Dispatch(mtype);
    }

    /** A validation message: an already validated session ignores it. */
    method HandleValidate(answer: Option<R.ClientData>)
      requires Valid()
      modifies server`clients, server`calls, server.sessions
      ensures server.Wired()
      ensures server.Abs() == R.Deliver(old(server.Abs()), this, R.Validate(answer))
    {
      hide R.Base, R.Close, R.StopReading, R.Welcome;
      if initialized {
        return;
      }
      if answer.None? {
        CloseAndStop();
        return;
      }
      server.ValidateClient(this, answer);
      Welcome();
    }

    /** Any other message: only a validated session gets as far as the handlers. */
    method Dispatch(mtype: string)
      requires Valid()
      modifies server`clients, server`calls, this
      ensures server.Wired()
      ensures server.Abs() == R.Deliver(old(server.Abs()), this, R.Other(mtype))
    {
      hide R.Base, R.Close, R.StopReading;
      if !initialized {
        CloseAndStop();
        return;
      }
      if mtype in messageHandler || mtype in server.cfg.handlers {
        server.calls := server.calls + [R.HandlerCalled(this, mtype)];
      }
    }

    /** The session is closed, and its reading goroutine returns. */
    method CloseAndStop()
      requires Valid()
      modifies server`clients, server`calls, this
      ensures server.Wired()
      ensures this in server.sessions
      ensures server.Abs() == R.StopReading(R.Close(old(server.Abs()), this), this)
    {
      hide R.Base, R.Close;
      Close();
      StopReading();
    }

    /** The connected callback, and the goroutine that accepts streams. */
    method Welcome()
      requires server.Wired() && this in server.sessions
      modifies this`accepting, server`calls
      ensures server.Wired() && server.Abs() == R.Welcome(old(server.Abs()), this)
    {
      if server.cfg.onConnected {
        server.calls := server.calls + [R.ConnectedCalled(this)];
      }
      accepting := true;
      assert forall k | k in server.sessions && k != this :: k.Record() == old(k.Record());
      R.SameElsewhere(old(server.Records()), server.Records(), this);
    }

    /** The reading goroutine returns. */
    method StopReading()
      requires server.Wired() && this in server.sessions
      modifies this`reading
      ensures server.Abs() == R.StopReading(old(server.Abs()), this)
    {
      reading := false;
      assert forall k | k in server.sessions && k != this :: k.Record() == old(k.Record());
      R.SameElsewhere(old(server.Records()), server.Records(), this);
    }

    method HandleTick()
      requires Valid()
      modifies this, server`clients, server`calls
      ensures server.Wired()
      ensures server.Abs() == R.Tick(old(server.Abs()), this)
    {
      if !initialized {
        Close();
      }
    }
  }

  class Server {
    const cfg: R.Config
    var clients: map<string, Client>
    var Closed: bool
    /** Every session ever accepted, and the calls made into the application. */
    ghost var sessions: set<Client>
    ghost var calls: seq<R.Event<Client>>

    ghost function Abs(): R.State<Client>
      reads this, sessions
    {
      R.State(cfg, clients, Records(), calls)
    }

    ghost function Records(): map<Client, R.Session>
      reads this`sessions, sessions
    {
      map c | c in sessions :: c.Record()
    }

    /** The objects belong together. */
    ghost predicate Wired()
      reads this, sessions
    {
      && (forall c | c in sessions :: c.server == this)
      && (forall id | id in clients :: clients[id] in sessions)
    }

    ghost predicate Valid()
      reads this, sessions
    {
      Wired() && R.Base(Abs())
    }

    constructor (cfg: R.Config)
      ensures Valid() && Abs() == R.Init(cfg) && !Closed
    {
      this.cfg, clients, Closed, sessions, calls := cfg, map[], false, {}, [];
    }

    /** A session accepted from the listener, with a fresh session id. */
    method NewClient(sessionId: string) returns (c: Client)
      requires Valid() && forall k | k in sessions :: k.sessionId != sessionId
      modifies this`sessions
      ensures fresh(c) && sessions == old(sessions) + {c} && Wired() && c.server == this
      ensures Abs() == R.Accept(old(Abs()), c, sessionId)
    {
      c := new Client(this, sessionId);
      sessions := sessions + {c};
      assert Records() == R.Accept(old(Abs()), c, sessionId).sessions;
    }

    /** `validateClient`; `answer` is what the validation handler returned, `None` for an error. */
    method ValidateClient(c: Client, answer: Option<R.ClientData>)
      requires Valid() && c in sessions && !c.initialized
      modifies this`clients, this`calls, sessions
      ensures Wired()
      ensures Abs() == R.ValidateClient(old(Abs()), c, answer)
    {
      if answer.None? {
        return;
      }
      ghost var start := Abs();
      assert answer.value.id in clients ==> clients[answer.value.id] != c;
      c.Initialize(answer.value);
      calls := calls + [R.Validated(c)];
      assert Abs() == R.Initialize(start, c, answer.value);
      TakePlace(c);
    }

    /** The second half of `validateClient`: an older session under the id is closed first. */
    method TakePlace(c: Client)
      requires Wired() && c in sessions
      requires c.Id in clients ==> clients[c.Id] != c && clients[c.Id].Id == c.Id
      modifies this`clients, this`calls, sessions
      ensures Wired()
      ensures Abs() == R.TakePlace(old(Abs()), c, old(c.Id))
    {
      if c.Id in clients {
        clients[c.Id].Close();
      }
      clients := clients[c.Id := c];
    }

    method GetClient(id: string) returns (r: Option<Client>)
      requires Valid()
      ensures r == R.GetClient(Abs(), id)
    {
      return if id in clients then Some(clients[id]) else None;
    }

    /** `GetClientsWithTag`: the registry is visited in any order. */
    method GetClientsWithTag(tag: string) returns (found: seq<Client>)
      requires Valid()
      ensures (set c | c in found) == R.WithTag(Abs(), tag)
      ensures forall i, j | 0 <= i < j < |found| :: found[i] != found[j]
    {
      assert R.LeadsHome(Abs());
      hide R.Base;
      found := [];
      var rest := clients.Keys;
      while rest != {}
        invariant rest <= clients.Keys
        invariant forall c :: c in found <==>
          exists id | id in clients && id !in rest :: clients[id] == c && tag in c.Tags
        invariant forall i, j | 0 <= i < j < |found| :: found[i] != found[j]
        decreases rest
      {
        var id :| id in rest;
        var client := clients[id];
        if tag in client.Tags {
          assert client !in found;
          found := found + [client];
        }
        rest := rest - {id};
      }
    }

    /** `handleClientSearch`, for any session, validated or not: by id if one is given, else by tag. */
    method SearchClients(id: string, tag: string) returns (r: Result<seq<string>, string>)
      requires Valid()
      ensures id != "" ==> r == if id in clients then Ok([id]) else Err("client not found: " + id)
      ensures id == "" && tag != "" ==>
        && (r.Ok? <==> R.WithTag(Abs(), tag) != {})
        && (r.Ok? ==> forall k | k in r.value :: k in clients && tag in clients[k].Tags)
        && (r.Ok? ==> forall c | c in R.WithTag(Abs(), tag) :: c.Id in r.value)
      ensures id == "" && tag == "" ==> r.Err?
    {
      if |id| > 0 {
        var client := GetClient(id);
        if client.None? {
          return Err("client not found: " + id);
        }
        assert R.LeadsHome(Abs());
        return Ok([client.value.Id]);
      }
      if |tag| == 0 {
        return Err("invalid search params");
      }
      var found := GetClientsWithTag(tag);
      if |found| == 0 {
        return Err("search yielded no results");
      }
      assert found[0] in R.WithTag(Abs(), tag);
      var ids: seq<string> := [];
      for i := 0 to |found|
        invariant |ids| == i && forall j | 0 <= j < i :: ids[j] == found[j].Id
      {
        ids := ids + [found[i].Id];
      }
      forall k | k in ids ensures k in clients && tag in clients[k].Tags {
        var j :| 0 <= j < |ids| && ids[j] == k;
        assert found[j] in R.WithTag(Abs(), tag);
        assert R.LeadsHome(Abs());
      }
      forall c | c in R.WithTag(Abs(), tag) ensures c.Id in ids {
        var j :| 0 <= j < |found| && found[j] == c;
        assert ids[j] == c.Id;
      }
      return Ok(ids);
    }

    /** One turn of the loop of `Close`. */
    method CloseEntry(id: string)
      requires Valid() && id in clients
      modifies this`clients, this`calls, sessions
      ensures Wired() && Abs() == R.CloseEntry(old(Abs()), id)
    {
      hide R.Base, R.Close;
      clients[id].Close();
      clients := clients - {id};
    }

    /** The loop of `Close`: every registered session is closed and taken out, in any order. */
    method CloseRegistered() returns (ghost order: seq<string>)
      requires Valid()
      modifies this`clients, this`calls, sessions
      ensures Valid() && clients == map[] && (set id | id in order) == old(clients.Keys)
      ensures forall c | c in old(clients.Values) :: c in sessions && c.Closed
      ensures Abs() == R.CloseEach(old(Abs()), order)
    {
      hide R.Base, R.CloseEntry, R.CloseEach, R.Closing;
      order := [];
      ghost var start := Abs();
      R.ClosingBegins(start);
      while clients != map[]
        invariant Wired() && R.Closing(start, order, Abs())
        decreases clients.Keys
      {
        var id :| id in clients;
        R.ClosingStep(start, order, Abs(), id);
        CloseEntry(id);
        order := order + [id];
      }
      R.ClosingDone(start, order, Abs());
      assert forall c | c in start.clients.Values :: Abs().sessions[c].closed;
    }

    /** `Close`. */
    method Close() returns (ok: bool, ghost order: seq<string>)
      requires Valid()
      modifies this`clients, this`calls, this`Closed, sessions
      ensures ok == !old(Closed) && Closed && Valid()
      ensures !ok ==> Abs() == old(Abs())
      ensures ok ==> clients == map[] && (set id | id in order) == old(clients.Keys)
      ensures ok ==> forall c | c in old(clients.Values) :: c in sessions && c.Closed
      ensures ok ==> Abs() == R.CloseEach(old(Abs()), order)
    {
      if Closed {
        return false, [];
      }
      order := CloseRegistered();
      Closed := true;
      ok := true;
    }
  }
}
