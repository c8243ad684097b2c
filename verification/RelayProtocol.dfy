/**
 * The relay and the broker as one state machine: the broker creates, approves and drops
 * connections, the relay admits approved clients into its table and registry, clients wait for
 * each other, and sessions and connections are closed at any time.
 */
module RelayProtocol {
  import opened Prelude
  import opened RelaySpec
  import R = Registry

  /** The broker's record of a connection; `listed` while it is in the broker's table. */
  datatype BrokerConn = BrokerConn(source: string, target: string, listed: bool, closed: bool)

  /** Where an `awaitPeer` call is: it published its client's id; it listens until `end` (`late`
      once its timer has fired, after which it can only fail); or it is over. */
  datatype WaiterPc<+C> = Published | Listening(late: bool, end: int) | Succeeded(peer: C) | Failed

  datatype Waiter<+C, +D> = Waiter(client: C, conn: D, pc: WaiterPc<C>)

  /** `pending`: the session whose validation handler has returned, with the approval, but which is
      not registered yet; the server's mutex lets one validation run at a time. `published`: every
      id ever published on the bus of a relay connection, with its client. */
  datatype Joint<C(==), D(==)> = Joint(
    relay: Relay<C, D>, broker: map<string, BrokerConn>, approvals: set<Approval>, pending: Option<(C, Approval)>,
    published: set<(D, C, string)>, waiters: map<nat, Waiter<C, D>>)

  datatype Step<+C, +D> =
    | BrokerCreates(id: string, source: string, target: string)
    | BrokerDrops(id: string)
    | BrokerCloses(id: string)
    | BrokerApproves(id: string, peer: string)
    | RelayFinds(c: C, d: D, approval: Approval)
    | RelayRegisters
    | RelayRefuses(c: C)
    | SessionStep(step: R.Step<C>)
    | ConnCloses(d: D)
    | AwaitBegins(w: nat, c: C)
    | AwaitChecks(w: nat, now: int)
    | AwaitHears(w: nat, message: (D, C, string), now: int)
    | AwaitHearsNil(w: nat, now: int)
    | AwaitTimerFires(w: nat)

  function Init<C(==), D(==)>(cfg: R.Config): Joint<C, D> {
    Joint(Relay(R.Init(cfg), map[], map[]), map[], {}, None, {}, map[])
  }

  /** A session that is being read and whose validation may come. */
  ghost predicate Validating<C, D>(s: Joint<C, D>, c: C) {
    c in s.relay.reg.sessions && s.relay.reg.sessions[c].reading && !s.relay.reg.sessions[c].initialized
      && s.pending.None?
  }

  /** A waiter whose client and connection are there. */
  ghost predicate Waits<C, D>(s: Joint<C, D>, w: nat) {
    w in s.waiters && s.waiters[w].client in s.relay.reg.sessions && s.waiters[w].conn in s.relay.conns
  }

  ghost predicate Enabled<C, D>(s: Joint<C, D>, step: Step<C, D>) {
    match step
    case BrokerCreates(id, _, _) => id !in s.broker
    case BrokerDrops(id) => id in s.broker
    case BrokerCloses(id) => id in s.broker
    case BrokerApproves(id, peer) =>
      && id in s.broker && s.broker[id].listed && !s.broker[id].closed
      && (peer == s.broker[id].source || peer == s.broker[id].target)
    case RelayFinds(c, d, approval) => Validating(s, c) && d !in s.relay.conns && approval in s.approvals
    case RelayRegisters => s.pending.Some? && s.pending.value.0 in s.relay.reg.sessions
    case RelayRefuses(c) => Validating(s, c)
    case SessionStep(step) =>
      && !(step.Receive? && step.msg.Validate?)
      && !(step.Receive? && s.pending.Some? && s.pending.value.0 == step.c)
    case ConnCloses(d) => d in s.relay.conns
    case AwaitBegins(w, c) =>
      && w !in s.waiters
      && c in s.relay.reg.sessions && s.relay.reg.sessions[c].initialized
      && s.relay.reg.sessions[c].ctx.RelayContext? && s.relay.reg.sessions[c].ctx.connectionId in s.relay.table
    case AwaitChecks(w, _) => Waits(s, w) && s.waiters[w].pc.Published?
    case AwaitHears(w, message, _) =>
      Waits(s, w) && s.waiters[w].pc.Listening? && message in s.published && message.0 == s.waiters[w].conn
    case AwaitHearsNil(w, _) => Waits(s, w) && s.waiters[w].pc.Listening? && s.relay.conns[s.waiters[w].conn].closed
    case AwaitTimerFires(w) => Waits(s, w) && s.waiters[w].pc.Listening?
  }

  /** The client id the waiter looks for. */
  ghost function AwaitedId<C, D>(s: Joint<C, D>, w: nat): Option<string>
    requires Waits(s, w)
  {
    PeerClientId(s.relay.conns[s.waiters[w].conn], s.relay.reg.sessions[s.waiters[w].client].id)
  }

  ghost function SetWaiter<C, D>(s: Joint<C, D>, w: nat, pc: WaiterPc<C>): Joint<C, D>
    requires w in s.waiters
  {
    s.(waiters := s.waiters[w := s.waiters[w].(pc := pc)])
  }

  /** Looking for the other side in the registry, and subscribing to the bus if it is not there. */
  ghost function AfterCheck<C, D>(s: Joint<C, D>, w: nat, now: int): WaiterPc<C>
    requires Waits(s, w)
  {
    var conn := s.relay.conns[s.waiters[w].conn];
    match GetPeerClient(s.relay, conn, s.relay.reg.sessions[s.waiters[w].client].id)
    case Some(peer) => Succeeded(peer)
    case None =>
      if conn.closed || AwaitedId(s, w).None? then Failed else Listening(false, now + AWAIT_PEER_TIMEOUT)
  }

  /** A message on the bus, or nil once it is closed, handled at the time `now`. */
  ghost function AfterMessage<C, D>(s: Joint<C, D>, w: nat, message: Option<(D, C, string)>, now: int): WaiterPc<C>
    requires Waits(s, w) && s.waiters[w].pc.Listening?
  {
    var pc := s.waiters[w].pc;
    if message.Some? && AwaitedId(s, w) == Some(message.value.2) then
      if pc.late then Failed else Succeeded(message.value.1)
    else if pc.end <= now then Failed
    else pc
  }

  /** The first half of an admission: the handler finds or makes the connection. */
  ghost function Found<C, D>(s: Joint<C, D>, c: C, d: D, a: Approval): Joint<C, D> {
    s.(relay := FindOrCreate(s.relay, d, a), pending := Some((c, a)))
  }

  /** The second half: the server registers the client. A close of the relay connection takes no lock
      that would keep it out from between the two. */
  ghost function Registered<C, D>(s: Joint<C, D>): Joint<C, D>
    requires R.Base(s.relay.reg) && s.pending.Some? && s.pending.value.0 in s.relay.reg.sessions
  {
    var (c, a) := s.pending.value;
    s.(relay := s.relay.(reg := R.Deliver(s.relay.reg, c, R.Validate(Some(ClientDataFor(a))))), pending := None)
  }

  ghost function Apply<C, D>(s: Joint<C, D>, step: Step<C, D>): Joint<C, D>
    requires R.Base(s.relay.reg)
  {
    if !Enabled(s, step) then s
    else match step
      case BrokerCreates(id, source, target) => s.(broker := s.broker[id := BrokerConn(source, target, true, false)])
      case BrokerDrops(id) => s.(broker := s.broker[id := s.broker[id].(listed := false)])
      case BrokerCloses(id) => s.(broker := s.broker[id := s.broker[id].(closed := true)])
      case BrokerApproves(id, peer) =>
        s.(approvals := s.approvals + {Approval(id, peer, s.broker[id].source, s.broker[id].target)})
      case RelayFinds(c, d, approval) => Found(s, c, d, approval)
      case RelayRegisters => Registered(s)
      case RelayRefuses(c) => s.(relay := s.relay.(reg := R.Deliver(s.relay.reg, c, R.Validate(None))))
      case SessionStep(step) => s.(relay := s.relay.(reg := R.Apply(s.relay.reg, step)))
      case ConnCloses(d) => s.(relay := CloseConn(s.relay, d))
      case AwaitBegins(w, c) =>
        var r := s.relay.reg.sessions[c];
        var d := s.relay.table[r.ctx.connectionId];
        s.(published := s.published + {(d, c, r.id)}, waiters := s.waiters[w := Waiter(c, d, Published)])
      case AwaitChecks(w, now) => SetWaiter(s, w, AfterCheck(s, w, now))
      case AwaitHears(w, message, now) => SetWaiter(s, w, AfterMessage(s, w, Some(message), now))
      case AwaitHearsNil(w, now) => SetWaiter(s, w, AfterMessage(s, w, None, now))
      case AwaitTimerFires(w) => SetWaiter(s, w, Listening(true, s.waiters[w].pc.end))
  }

  // ----- the invariants ---------------------------------------------------------------------

  /** The broker agrees that `id` connects the two peers. */
  ghost predicate Brokered(broker: map<string, BrokerConn>, id: string, source: string, target: string) {
    id in broker && broker[id].source == source && broker[id].target == target
  }

  /** A validated session is one of the two peers of a connection of the broker. */
  ghost predicate SessionOk(broker: map<string, BrokerConn>, r: R.Session) {
    r.initialized ==>
      && r.ctx.RelayContext?
      && Brokered(broker, r.ctx.connectionId, r.ctx.sourcePeerId, r.ctx.targetPeerId)
      && (r.id == GetClientId(r.ctx.sourcePeerId, r.ctx.connectionId)
          || r.id == GetClientId(r.ctx.targetPeerId, r.ctx.connectionId))
  }

  ghost predicate SessionsOk<C>(broker: map<string, BrokerConn>, reg: R.State<C>) {
    forall c | c in reg.sessions :: SessionOk(broker, reg.sessions[c])
  }

  /** The relay's table holds exactly its unclosed connections, each under its own id, with the
      peers the broker knows. */
  ghost predicate TableOk<C, D>(broker: map<string, BrokerConn>, s: Relay<C, D>) {
    && (forall k | k in s.table :: s.table[k] in s.conns && s.conns[s.table[k]].id == k && !s.conns[s.table[k]].closed)
    && (forall d | d in s.conns && !s.conns[d].closed :: s.conns[d].id in s.table && s.table[s.conns[d].id] == d)
    && (forall d | d in s.conns :: Brokered(broker, s.conns[d].id, s.conns[d].source, s.conns[d].target))
  }

  /** Every live session's connection is in the table. */
  ghost predicate LiveInTable<C, D>(s: Relay<C, D>) {
    forall c | c in s.reg.sessions && R.Live(s.reg.sessions[c]) ::
      s.reg.sessions[c].ctx.RelayContext? && s.reg.sessions[c].ctx.connectionId in s.table
  }

  ghost predicate ApprovalsOk(broker: map<string, BrokerConn>, approvals: set<Approval>) {
    forall a | a in approvals ::
      Brokered(broker, a.id, a.source, a.target) && (a.peer == a.source || a.peer == a.target)
  }

  /** The session between the two halves of its admission. */
  ghost predicate PendingOk<C, D>(s: Joint<C, D>) {
    s.pending.Some? ==>
      && s.pending.value.0 in s.relay.reg.sessions && !s.relay.reg.sessions[s.pending.value.0].initialized
      && s.pending.value.1 in s.approvals
  }

  /** What holds whatever happens. */
  ghost predicate WeakInv<C, D>(s: Joint<C, D>): (r: bool)
    ensures r ==> R.Base(s.relay.reg)
  {
    && R.Base(s.relay.reg) && R.EventInv(s.relay.reg)
    && ApprovalsOk(s.broker, s.approvals)
    && SessionsOk(s.broker, s.relay.reg)
    && TableOk(s.broker, s.relay)
    && PendingOk(s)
  }

  /** Registry and table agree: every registered client is open and its connection listed. */
  ghost predicate ClientsListed<C, D>(s: Relay<C, D>) {
    forall id | id in s.reg.clients ::
      && s.reg.clients[id] in s.reg.sessions && !s.reg.sessions[s.reg.clients[id]].closed
      && s.reg.sessions[s.reg.clients[id]].ctx.RelayContext?
      && s.reg.sessions[s.reg.clients[id]].ctx.connectionId in s.table
  }

  /** What is published names a validated client of that connection; who waits is one, too; and a
      waiter that succeeded found its other side. */
  ghost predicate AwaitInv<C, D>(s: Joint<C, D>) {
    && (forall m | m in s.published :: ClientOf(s.relay, m.1, m.0) && s.relay.reg.sessions[m.1].id == m.2)
    && (forall w | w in s.waiters ::
      && ClientOf(s.relay, s.waiters[w].client, s.waiters[w].conn)
      && (s.waiters[w].pc.Succeeded? ==>
          && s.waiters[w].pc.peer in s.relay.reg.sessions
          && s.relay.reg.sessions[s.waiters[w].pc.peer].initialized
          && Waits(s, w) && AwaitedId(s, w) == Some(s.relay.reg.sessions[s.waiters[w].pc.peer].id))
      && (s.waiters[w].pc.Listening? ==> Waits(s, w) && AwaitedId(s, w).Some?))
  }

  /** A session validated for the connection. */
  ghost predicate ClientOf<C, D>(s: Relay<C, D>, c: C, d: D) {
    && c in s.reg.sessions && s.reg.sessions[c].initialized && d in s.conns
    && s.reg.sessions[c].ctx.RelayContext? && s.reg.sessions[c].ctx.connectionId == s.conns[d].id
  }

  lemma ListedIs<C, D>(s: Relay<C, D>)
    requires R.Base(s.reg)
    ensures ClientsListed(s) <==> R.Inv(s.reg) && LiveInTable(s)
  {
    R.InvIsBaseAndOpen(s.reg);
    assert R.RegisteredValidated(s.reg) && R.LeadsHome(s.reg);
    hide R.Inv, R.Base;
    if R.Inv(s.reg) && LiveInTable(s) {
      forall id | id in s.reg.clients ensures R.Live(s.reg.sessions[s.reg.clients[id]]) {}
    }
  }

  // ----- what steps leave alone -------------------------------------------------------------

  lemma AgesKeepsSessions<C>(broker: map<string, BrokerConn>, reg: R.State<C>, reg': R.State<C>)
    requires SessionsOk(broker, reg) && R.Ages(reg, reg')
    ensures SessionsOk(broker, reg')
  {
    hide Brokered;
    forall c | c in reg'.sessions ensures SessionOk(broker, reg'.sessions[c]) {
      if c in reg.sessions { assert SessionOk(broker, reg.sessions[c]); }
    }
  }

  lemma AgesKeepsLive<C, D>(s: Relay<C, D>, reg': R.State<C>)
    requires LiveInTable(s) && R.Ages(s.reg, reg')
    ensures LiveInTable(s.(reg := reg'))
  {
  }

  lemma SameTable<C, D>(broker: map<string, BrokerConn>, s: Relay<C, D>, reg': R.State<C>)
    requires TableOk(broker, s)
    ensures TableOk(broker, s.(reg := reg'))
  {
  }

  lemma AgesKeepsPending<C, D>(s: Joint<C, D>, relay: Relay<C, D>)
    requires PendingOk(s) && R.Ages(s.relay.reg, relay.reg)
    ensures PendingOk(s.(relay := relay))
  {
  }

  /** Only the registry moves, and its sessions age. */
  lemma AgingKeeps<C, D>(s: Joint<C, D>, reg: R.State<C>)
    requires WeakInv(s) && R.Base(reg) && R.EventInv(reg) && R.Ages(s.relay.reg, reg)
    ensures WeakInv(s.(relay := s.relay.(reg := reg)))
    ensures ClientsListed(s.relay) && R.Inv(reg) ==> ClientsListed(s.relay.(reg := reg))
  {
    hide R.Base, R.Inv, R.EventInv, R.Ages, SessionsOk, TableOk, LiveInTable, ClientsListed, PendingOk;
    AgesKeepsSessions(s.broker, s.relay.reg, reg);
    AgesKeepsPending(s, s.relay.(reg := reg));
    SameTable(s.broker, s.relay, reg);
    ListedIs(s.relay);
    ListedIs(s.relay.(reg := reg));
    if LiveInTable(s.relay) { AgesKeepsLive(s.relay, reg); }
  }

  lemma SessionStepKeeps<C, D>(s: Joint<C, D>, step: R.Step<C>)
    requires WeakInv(s) && Enabled(s, SessionStep(step))
    ensures WeakInv(Apply(s, SessionStep(step)))
    ensures ClientsListed(s.relay) ==> ClientsListed(Apply(s, SessionStep(step)).relay)
  {
    assert R.EventInv(s.relay.reg);
    hide R.Inv, R.Base, R.Apply, R.EventInv, R.Ages, WeakInv, ClientsListed, LiveInTable;
    R.AgingStepKeeps(s.relay.reg, step);
    ListedIs(s.relay);
    AgingKeeps(s, R.Apply(s.relay.reg, step));
  }

  lemma RefusesKeeps<C, D>(s: Joint<C, D>, c: C)
    requires WeakInv(s) && Enabled(s, RelayRefuses(c))
    ensures WeakInv(Apply(s, RelayRefuses(c)))
    ensures ClientsListed(s.relay) ==> ClientsListed(Apply(s, RelayRefuses(c)).relay)
  {
    R.DeliverKeeps(s.relay.reg, c, R.Validate(None));
    R.CloseAges(s.relay.reg, c);
    ListedIs(s.relay);
    hide R.Inv, R.Base, R.Close, R.StopReading, R.EventInv, R.Ages, WeakInv, ClientsListed, LiveInTable;
    AgingKeeps(s, R.Deliver(s.relay.reg, c, R.Validate(None)));
  }

  // ----- closing a connection ---------------------------------------------------------------

  /** A client id under which a closed session is registered, which a close leaves there. */
  predicate Stuck<C(==)>(reg: R.State<C>, id: string) {
    id in reg.clients && reg.clients[id] in reg.sessions && reg.sessions[reg.clients[id]].closed
  }

  /** What the close of the session under an id does to the registry. */
  ghost predicate OneClosed<C>(reg: R.State<C>, id: string, reg': R.State<C>) {
    && R.Ages(reg, reg') && (R.Inv(reg) ==> R.Inv(reg'))
    && (forall k | k in reg'.clients :: k in reg.clients && reg'.clients[k] == reg.clients[k])
    && (forall k | k in reg.clients && k != id :: k in reg'.clients)
    && (id in reg'.clients <==> Stuck(reg, id))
    && (id in reg.clients ==> reg.clients[id] in reg'.sessions && reg'.sessions[reg.clients[id]].closed)
    && (forall c | c in reg.sessions && !(id in reg.clients && c == reg.clients[id]) ::
          c in reg'.sessions && reg'.sessions[c] == reg.sessions[c])
  }

  lemma CloseShape<C>(reg: R.State<C>, id: string)
    requires R.LeadsHome(reg) && id in reg.clients
    ensures var c, reg' := reg.clients[id], R.Close(reg, reg.clients[id]);
      && reg'.clients == (if reg.sessions[c].closed then reg.clients else reg.clients - {id})
      && reg'.sessions.Keys == reg.sessions.Keys && reg'.sessions[c].closed
      && (forall k | k in reg.sessions && k != c :: reg'.sessions[k] == reg.sessions[k])
  {
  }

  lemma ClosedOne<C>(reg: R.State<C>, id: string)
    requires R.Base(reg) && R.EventInv(reg)
    ensures var reg' := CloseClient(reg, id);
      R.Base(reg') && R.EventInv(reg') && OneClosed(reg, id, reg')
  {
    if id in reg.clients {
      R.CloseKeeps(reg, reg.clients[id]);
      R.CloseAges(reg, reg.clients[id]);
      CloseShape(reg, id);
      hide R.Base, R.EventInv, R.Inv, R.Ages, R.Close;
    } else {
      R.SameSessionsAge(reg, reg);
    }
  }

  /** The registry after the two clients of a connection were closed. */
  ghost predicate BothClosed<C>(reg: R.State<C>, id: string, id': string, reg': R.State<C>) {
    && R.Ages(reg, reg') && (R.Inv(reg) ==> R.Inv(reg'))
    && (forall k | k in reg'.clients :: k in reg.clients && reg'.clients[k] == reg.clients[k])
    && (id in reg'.clients <==> Stuck(reg, id)) && (id' in reg'.clients <==> Stuck(reg, id'))
    && (forall k | k in reg.clients && (k == id || k == id') ::
          reg.clients[k] in reg'.sessions && reg'.sessions[reg.clients[k]].closed)
  }

  lemma ClosedBoth<C>(reg: R.State<C>, id: string, id': string)
    requires R.Base(reg) && R.EventInv(reg)
    ensures var reg' := CloseClients(reg, id, id');
      R.Base(reg') && R.EventInv(reg') && BothClosed(reg, id, id', reg')
  {
    ClosedOne(reg, id);
    assert R.LeadsHome(reg);
    hide R.Base, R.EventInv, OneClosed, BothClosed, CloseClient;
    ClosedOne(CloseClient(reg, id), id');
    ClosedTwice(reg, id, CloseClient(reg, id), id', CloseClients(reg, id, id'));
  }

  lemma ClosedTwice<C>(reg: R.State<C>, id: string, mid: R.State<C>, id': string, reg': R.State<C>)
    requires R.LeadsHome(reg) && OneClosed(reg, id, mid) && OneClosed(mid, id', reg')
    ensures BothClosed(reg, id, id', reg')
  {
    R.AgesTwice(reg, mid, reg');
    assert id in reg.clients && id' in reg.clients && id != id' ==> reg.clients[id] != reg.clients[id'];
    assert Stuck(mid, id') <==> Stuck(reg, id');
    hide R.Inv;
  }

  lemma CloseConnKeepsTable<C, D>(broker: map<string, BrokerConn>, s: Relay<C, D>, d: D, reg': R.State<C>)
    requires TableOk(broker, s) && d in s.conns && !s.conns[d].closed
    ensures TableOk(broker, Relay(reg', s.table - {s.conns[d].id}, s.conns[d := s.conns[d].(closed := true)]))
  {
    hide Brokered;
  }

  lemma ConnClosesKeeps<C, D>(s: Joint<C, D>, d: D)
    requires WeakInv(s) && d in s.relay.conns
    ensures WeakInv(Apply(s, ConnCloses(d)))
    ensures ClientsListed(s.relay) ==> ClientsListed(Apply(s, ConnCloses(d)).relay)
  {
    var conn := s.relay.conns[d];
    if !conn.closed {
      var reg' := CloseClients(s.relay.reg, GetClientId(conn.source, conn.id), GetClientId(conn.target, conn.id));
      ClosedBoth(s.relay.reg, GetClientId(conn.source, conn.id), GetClientId(conn.target, conn.id));
      ClosedConnKeeps(s, d, reg');
      hide WeakInv, ClientsListed, R.Base, CloseClients, BothClosed;
    }
  }

  lemma ClosedConnKeeps<C, D>(s: Joint<C, D>, d: D, reg': R.State<C>)
    requires WeakInv(s) && d in s.relay.conns && !s.relay.conns[d].closed && R.Base(reg') && R.EventInv(reg')
    requires BothClosed(s.relay.reg, GetClientId(s.relay.conns[d].source, s.relay.conns[d].id),
      GetClientId(s.relay.conns[d].target, s.relay.conns[d].id), reg')
    ensures var relay' := Relay(reg', s.relay.table - {s.relay.conns[d].id},
        s.relay.conns[d := s.relay.conns[d].(closed := true)]);
      WeakInv(s.(relay := relay')) && (ClientsListed(s.relay) ==> ClientsListed(relay'))
  {
    var relay' := Relay(reg', s.relay.table - {s.relay.conns[d].id},
      s.relay.conns[d := s.relay.conns[d].(closed := true)]);
    CloseConnKeepsTable(s.broker, s.relay, d, reg');
    CloseConnKeepsListed(s.broker, s.relay, d, reg');
    hide R.Inv, R.Base, R.EventInv, R.Ages, TableOk, SessionsOk, ClientsListed, PendingOk;
    AgesKeepsSessions(s.broker, s.relay.reg, reg');
    AgesKeepsPending(s, relay');
  }

  /** Who stays registered belongs to another connection, which stays listed. */
  lemma CloseConnKeepsListed<C, D>(broker: map<string, BrokerConn>, s: Relay<C, D>, d: D, reg': R.State<C>)
    requires R.Base(s.reg) && SessionsOk(broker, s.reg) && TableOk(broker, s) && d in s.conns && R.Base(reg')
    requires BothClosed(s.reg, GetClientId(s.conns[d].source, s.conns[d].id),
      GetClientId(s.conns[d].target, s.conns[d].id), reg')
    ensures ClientsListed(s) ==>
      ClientsListed(Relay(reg', s.table - {s.conns[d].id}, s.conns[d := s.conns[d].(closed := true)]))
  {
    assert R.RegisteredValidated(s.reg) && R.LeadsHome(s.reg);
    ListedIs(s);
    R.InvIsBaseAndOpen(reg');
    hide R.Inv, R.Base, LiveInTable;
    if ClientsListed(s) {
      forall id | id in reg'.clients
        ensures reg'.clients[id] in reg'.sessions && reg'.sessions[reg'.clients[id]].ctx.RelayContext?
          && reg'.sessions[reg'.clients[id]].ctx.connectionId in s.table - {s.conns[d].id} {
        assert SessionOk(broker, s.reg.sessions[s.reg.clients[id]]);
      }
    }
  }

  // ----- admitting a client -----------------------------------------------------------------

  lemma FindOrCreateKeepsTable<C, D>(broker: map<string, BrokerConn>, s: Relay<C, D>, d: D, a: Approval)
    requires TableOk(broker, s) && d !in s.conns && Brokered(broker, a.id, a.source, a.target)
    ensures TableOk(broker, FindOrCreate(s, d, a))
    ensures a.id in FindOrCreate(s, d, a).table && forall k | k in s.table :: k in FindOrCreate(s, d, a).table
  {
    hide Brokered;
  }

  lemma FindsKeeps<C, D>(s: Joint<C, D>, c: C, d: D, a: Approval)
    requires WeakInv(s) && Enabled(s, RelayFinds(c, d, a))
    ensures WeakInv(Found(s, c, d, a)) && a.id in Found(s, c, d, a).relay.table
    ensures ClientsListed(s.relay) ==> ClientsListed(Found(s, c, d, a).relay)
  {
    FindOrCreateKeepsTable(s.broker, s.relay, d, a);
    hide R.Base, R.EventInv, TableOk, SessionsOk;
  }

  lemma RegisteredSessionsOk<C>(broker: map<string, BrokerConn>, reg: R.State<C>, c: C, a: Approval, reg': R.State<C>)
    requires SessionsOk(broker, reg) && c in reg.sessions
    requires Brokered(broker, a.id, a.source, a.target) && (a.peer == a.source || a.peer == a.target)
    requires R.ValidatedOnly(reg, c, ClientDataFor(a), reg')
    ensures SessionsOk(broker, reg')
  {
    hide Brokered;
    forall k | k in reg'.sessions ensures SessionOk(broker, reg'.sessions[k]) {
      if k != c { assert SessionOk(broker, reg.sessions[k]); }
    }
  }

  lemma RegisteredLive<C, D>(s: Relay<C, D>, c: C, a: Approval, reg': R.State<C>)
    requires LiveInTable(s) && R.ValidatedOnly(s.reg, c, ClientDataFor(a), reg')
    ensures a.id in s.table || reg'.sessions[c].closed ==> LiveInTable(s.(reg := reg'))
    ensures LiveInTable(s.(reg := reg')) ==> a.id in s.table || reg'.sessions[c].closed
  {
    if LiveInTable(s.(reg := reg')) && !reg'.sessions[c].closed {
      assert R.Live(reg'.sessions[c]);
    }
  }

  /** The registration keeps what always holds; and it keeps registry and table in agreement exactly
      if the connection found before is still listed and the session still open. */
  lemma RegistersKeeps<C, D>(s: Joint<C, D>)
    requires WeakInv(s) && s.pending.Some?
    ensures s.pending.value.0 in s.relay.reg.sessions && WeakInv(Registered(s))
    ensures ClientsListed(s.relay) ==>
      (ClientsListed(Registered(s).relay)
       <==> s.pending.value.1.id in s.relay.table && !s.relay.reg.sessions[s.pending.value.0].closed)
  {
    var (c, a) := s.pending.value;
    var reg := s.relay.reg;
    R.ValidatedAges(reg, c, ClientDataFor(a));
    var reg' := R.Deliver(reg, c, R.Validate(Some(ClientDataFor(a))));
    assert Brokered(s.broker, a.id, a.source, a.target) && (a.peer == a.source || a.peer == a.target);
    assert reg'.sessions[c].closed == reg.sessions[c].closed;
    ListedIs(s.relay);
    ListedIs(s.relay.(reg := reg'));
    hide R.Base, R.Inv, R.EventInv, R.Deliver, R.ValidatedOnly, TableOk, SessionsOk, ApprovalsOk, LiveInTable,
      ClientsListed,
      Brokered;
    SameTable(s.broker, s.relay, reg');
    RegisteredSessionsOk(s.broker, reg, c, a, reg');
    if LiveInTable(s.relay) { RegisteredLive(s.relay, c, a, reg'); }
  }

  // ----- the broker -------------------------------------------------------------------------

  lemma BrokerStepKeeps<C, D>(s: Joint<C, D>, step: Step<C, D>)
    requires WeakInv(s)
    requires step.BrokerCreates? || step.BrokerDrops? || step.BrokerCloses? || step.BrokerApproves?
    ensures WeakInv(Apply(s, step)) && Apply(s, step).relay == s.relay
  {
    hide R.Base, R.EventInv;
    var s' := Apply(s, step);
    assert forall id, source, target :: Brokered(s.broker, id, source, target) ==>
      Brokered(s'.broker, id, source, target);
    hide Brokered;
    forall c | c in s.relay.reg.sessions ensures SessionOk(s'.broker, s.relay.reg.sessions[c]) {
      assert SessionOk(s.broker, s.relay.reg.sessions[c]);
    }
    if step.BrokerApproves? && Enabled(s, step) {
      assert Brokered(s'.broker, step.id, s.broker[step.id].source, s.broker[step.id].target) by {
        BrokeredSelf(s'.broker, step.id);
      }
    }
  }

  lemma BrokeredSelf(broker: map<string, BrokerConn>, id: string)
    requires id in broker
    ensures Brokered(broker, id, broker[id].source, broker[id].target)
  {
  }

  // ----- waiting for the other side ---------------------------------------------------------

  /** Validated sessions and relay connections stay what they are. */
  ghost predicate RelayAges<C, D>(s: Relay<C, D>, s': Relay<C, D>) {
    && (forall c | c in s.reg.sessions && s.reg.sessions[c].initialized ::
          c in s'.reg.sessions && s'.reg.sessions[c].initialized
          && s'.reg.sessions[c].id == s.reg.sessions[c].id && s'.reg.sessions[c].ctx == s.reg.sessions[c].ctx
          && s'.reg.sessions[c].tags == s.reg.sessions[c].tags)
    && (forall d | d in s.conns :: d in s'.conns && s'.conns[d].(closed := false) == s.conns[d].(closed := false))
  }

  lemma AgesKeepsClientOf<C, D>(s: Relay<C, D>, s': Relay<C, D>, c: C, d: D)
    requires RelayAges(s, s') && ClientOf(s, c, d)
    ensures ClientOf(s', c, d) && s'.reg.sessions[c].id == s.reg.sessions[c].id
    ensures s'.conns[d].(closed := false) == s.conns[d].(closed := false)
  {
  }

  lemma AgesKeepsAwait<C, D>(s: Joint<C, D>, s': Joint<C, D>)
    requires AwaitInv(s) && RelayAges(s.relay, s'.relay)
    requires s'.published == s.published && s'.waiters == s.waiters
    ensures AwaitInv(s')
  {
    forall m | m in s.published ensures ClientOf(s'.relay, m.1, m.0) && s'.relay.reg.sessions[m.1].id == m.2 {
      AgesKeepsClientOf(s.relay, s'.relay, m.1, m.0);
    }
    forall w | w in s.waiters
      ensures ClientOf(s'.relay, s'.waiters[w].client, s'.waiters[w].conn)
      ensures Waits(s, w) && Waits(s', w) && AwaitedId(s', w) == AwaitedId(s, w) {
      AgesKeepsClientOf(s.relay, s'.relay, s.waiters[w].client, s.waiters[w].conn);
    }
    hide ClientOf, AwaitedId;
  }

  lemma AgesIsRelayAges<C, D>(s: Relay<C, D>, s': Relay<C, D>)
    requires R.Ages(s.reg, s'.reg)
    requires forall d | d in s.conns :: d in s'.conns && s'.conns[d].(closed := false) == s.conns[d].(closed := false)
    ensures RelayAges(s, s')
  {
  }

  lemma ValidatedIsRelayAges<C, D>(s: Relay<C, D>, c: C, d: R.ClientData, reg': R.State<C>)
    requires c in s.reg.sessions && !s.reg.sessions[c].initialized && R.ValidatedOnly(s.reg, c, d, reg')
    ensures RelayAges(s, s.(reg := reg'))
  {
  }

  lemma RegistersAges<C, D>(s: Joint<C, D>)
    requires WeakInv(s) && s.pending.Some?
    ensures s.pending.value.0 in s.relay.reg.sessions && RelayAges(s.relay, Registered(s).relay)
  {
    var (c, a) := s.pending.value;
    R.ValidatedAges(s.relay.reg, c, ClientDataFor(a));
    hide R.Base, R.EventInv, R.Inv, R.Deliver, R.ValidatedOnly, TableOk, SessionsOk, ApprovalsOk, RelayAges;
    ValidatedIsRelayAges(s.relay, c, ClientDataFor(a), Registered(s).relay.reg);
  }

  lemma RefusesAges<C, D>(s: Joint<C, D>, c: C)
    requires WeakInv(s) && Enabled(s, RelayRefuses(c))
    ensures RelayAges(s.relay, Apply(s, RelayRefuses(c)).relay)
  {
    R.CloseAges(s.relay.reg, c);
    hide R.Base, R.Close, R.StopReading, R.Ages, WeakInv, RelayAges;
    AgesIsRelayAges(s.relay, Apply(s, RelayRefuses(c)).relay);
  }

  lemma ConnClosesAges<C, D>(s: Joint<C, D>, d: D)
    requires WeakInv(s) && d in s.relay.conns
    ensures RelayAges(s.relay, Apply(s, ConnCloses(d)).relay)
  {
    var conn := s.relay.conns[d];
    if !conn.closed {
      ClosedBoth(s.relay.reg, GetClientId(conn.source, conn.id), GetClientId(conn.target, conn.id));
    } else {
      R.SameSessionsAge(s.relay.reg, s.relay.reg);
    }
    hide R.Base, R.EventInv, R.Inv, R.Ages, WeakInv, RelayAges, CloseClients;
    AgesIsRelayAges(s.relay, Apply(s, ConnCloses(d)).relay);
  }

  lemma SessionStepAges<C, D>(s: Joint<C, D>, step: R.Step<C>)
    requires WeakInv(s) && Enabled(s, SessionStep(step))
    ensures RelayAges(s.relay, Apply(s, SessionStep(step)).relay)
  {
    R.StepAges(s.relay.reg, step);
    hide R.Base, R.Apply, R.Ages, WeakInv, RelayAges;
    AgesIsRelayAges(s.relay, Apply(s, SessionStep(step)).relay);
  }

  lemma AwaitBeginsKeeps<C, D>(s: Joint<C, D>, w: nat, c: C)
    requires AwaitInv(s) && TableOk(s.broker, s.relay) && Enabled(s, AwaitBegins(w, c)) && R.Base(s.relay.reg)
    ensures AwaitInv(Apply(s, AwaitBegins(w, c)))
  {
    var s' := Apply(s, AwaitBegins(w, c));
    assert ClientOf(s.relay, c, s.relay.table[s.relay.reg.sessions[c].ctx.connectionId]);
    hide R.Base, TableOk;
    forall v | v in s.waiters
      ensures s'.waiters[v] == s.waiters[v] && Waits(s, v) && Waits(s', v) && AwaitedId(s', v) == AwaitedId(s, v) {
      assert ClientOf(s.relay, s.waiters[v].client, s.waiters[v].conn);
    }
  }

  /** A waiter may be given any verdict that names a client with the awaited id, and may go on
      listening if it awaits one. */
  lemma SetWaiterKeeps<C, D>(s: Joint<C, D>, w: nat, pc: WaiterPc<C>)
    requires AwaitInv(s) && Waits(s, w)
    requires pc.Succeeded? ==>
      pc.peer in s.relay.reg.sessions && s.relay.reg.sessions[pc.peer].initialized
      && AwaitedId(s, w) == Some(s.relay.reg.sessions[pc.peer].id)
    requires pc.Listening? ==> AwaitedId(s, w).Some?
    ensures AwaitInv(SetWaiter(s, w, pc))
  {
    hide PeerClientId;
    var s' := SetWaiter(s, w, pc);
    forall v | v in s.waiters
      ensures s'.waiters[v].client == s.waiters[v].client && s'.waiters[v].conn == s.waiters[v].conn
      ensures Waits(s, v) && Waits(s', v) && AwaitedId(s', v) == AwaitedId(s, v) {
      assert ClientOf(s.relay, s.waiters[v].client, s.waiters[v].conn);
    }
  }

  lemma AwaitChecksKeeps<C, D>(s: Joint<C, D>, w: nat, now: int)
    requires AwaitInv(s) && R.Base(s.relay.reg) && Enabled(s, AwaitChecks(w, now))
    ensures AwaitInv(Apply(s, AwaitChecks(w, now)))
  {
    assert R.LeadsHome(s.relay.reg) && R.RegisteredValidated(s.relay.reg);
    hide R.Base, AwaitInv;
    SetWaiterKeeps(s, w, AfterCheck(s, w, now));
  }

  lemma AwaitMessageKeeps<C, D>(s: Joint<C, D>, w: nat, message: Option<(D, C, string)>, now: int)
    requires AwaitInv(s) && Waits(s, w) && s.waiters[w].pc.Listening?
    requires message.Some? ==> message.value in s.published
    ensures AwaitInv(SetWaiter(s, w, AfterMessage(s, w, message, now)))
  {
    if message.Some? {
      assert ClientOf(s.relay, message.value.1, message.value.0);
      assert s.relay.reg.sessions[message.value.1].id == message.value.2;
    }
    assert AwaitedId(s, w).Some?;
    hide PeerClientId, AwaitInv;
    SetWaiterKeeps(s, w, AfterMessage(s, w, message, now));
  }

  predicate IsAwait<C, D>(step: Step<C, D>) {
    step.AwaitBegins? || step.AwaitChecks? || step.AwaitHears? || step.AwaitHearsNil? || step.AwaitTimerFires?
  }

  lemma AwaitStepKeeps<C, D>(s: Joint<C, D>, step: Step<C, D>)
    requires WeakInv(s) && AwaitInv(s) && IsAwait(step)
    ensures WeakInv(Apply(s, step)) && AwaitInv(Apply(s, step)) && Apply(s, step).relay == s.relay
  {
    assert TableOk(s.broker, s.relay);
    KeepsWeakInv(s, step);
    hide WeakInv, R.Base, TableOk, PeerClientId, AfterCheck, AfterMessage;
    if Enabled(s, step) {
      match step
      case AwaitBegins(w, c) => AwaitBeginsKeeps(s, w, c);
      case AwaitChecks(w, now) => AwaitChecksKeeps(s, w, now);
      case AwaitHears(w, message, now) => AwaitMessageKeeps(s, w, Some(message), now);
      case AwaitHearsNil(w, now) => AwaitMessageKeeps(s, w, None, now);
      case AwaitTimerFires(w) => SetWaiterKeeps(s, w, Listening(true, s.waiters[w].pc.end));
    }
  }

  lemma KeepsWeakInv<C, D>(s: Joint<C, D>, step: Step<C, D>)
    requires WeakInv(s) && IsAwait(step)
    ensures WeakInv(Apply(s, step)) && Apply(s, step).relay == s.relay
  {
    hide R.Base, R.EventInv, TableOk, SessionsOk, ApprovalsOk;
  }

  // ----- all runs ---------------------------------------------------------------------------

  /** The step registers a client whose connection is gone, or whose session was closed. */
  ghost predicate Breaks<C, D>(s: Joint<C, D>, step: Step<C, D>) {
    && step.RelayRegisters? && Enabled(s, step)
    && !(s.pending.value.1.id in s.relay.table && !s.relay.reg.sessions[s.pending.value.0].closed)
  }

  /** Every step keeps what always holds, and keeps registry and table in agreement exactly if it
      is no such registration. */
  lemma ApplyKeeps<C, D>(s: Joint<C, D>, step: Step<C, D>)
    requires WeakInv(s) && AwaitInv(s)
    ensures WeakInv(Apply(s, step)) && AwaitInv(Apply(s, step))
    ensures ClientsListed(s.relay) ==> (ClientsListed(Apply(s, step).relay) <==> !Breaks(s, step))
  {
    if Enabled(s, step) && (step.BrokerCreates? || step.BrokerDrops? || step.BrokerCloses? || step.BrokerApproves?) {
      BrokerStepKeeps(s, step);
      hide WeakInv, ClientsListed, RelayAges, AwaitInv;
      BrokerKeepsAwait(s, step);
    } else if Enabled(s, step) && IsAwait(step) {
      hide WeakInv, ClientsListed, AwaitInv, Apply;
      AwaitStepKeeps(s, step);
    } else if Enabled(s, step) {
      hide WeakInv, ClientsListed, AwaitInv;
      RelayStepKeeps(s, step);
    }
  }

  lemma BrokerKeepsAwait<C, D>(s: Joint<C, D>, step: Step<C, D>)
    requires AwaitInv(s) && R.Base(s.relay.reg)
    requires step.BrokerCreates? || step.BrokerDrops? || step.BrokerCloses? || step.BrokerApproves?
    ensures AwaitInv(Apply(s, step))
  {
    hide R.Base, AwaitInv;
    AgesKeepsAwait(s, Apply(s, step));
  }

  lemma RelayStepKeeps<C, D>(s: Joint<C, D>, step: Step<C, D>)
    requires WeakInv(s) && AwaitInv(s) && Enabled(s, step)
    requires step.RelayFinds? || step.RelayRegisters? || step.RelayRefuses? || step.SessionStep? || step.ConnCloses?
    ensures WeakInv(Apply(s, step)) && AwaitInv(Apply(s, step))
    ensures ClientsListed(s.relay) ==> (ClientsListed(Apply(s, step).relay) <==> !Breaks(s, step))
  {
    hide WeakInv, ClientsListed, AwaitInv, RelayAges, R.Base, R.Apply;
    match step
    case RelayFinds(c, d, a) =>
      FindsKeeps(s, c, d, a);
      assert RelayAges(s.relay, Found(s, c, d, a).relay) by { FindsAges(s, c, d, a); }
      AgesKeepsAwait(s, Found(s, c, d, a));
    case RelayRegisters =>
      RegistersKeeps(s);
      RegistersAges(s);
      AgesKeepsAwait(s, Registered(s));
    case RelayRefuses(c) =>
      RefusesKeeps(s, c);
      RefusesAges(s, c);
      AgesKeepsAwait(s, Apply(s, step));
    case SessionStep(st) =>
      SessionStepKeeps(s, st);
      SessionStepAges(s, st);
      AgesKeepsAwait(s, Apply(s, step));
    case ConnCloses(d) =>
      ConnClosesKeeps(s, d);
      ConnClosesAges(s, d);
      AgesKeepsAwait(s, Apply(s, step));
  }

  lemma FindsAges<C, D>(s: Joint<C, D>, c: C, d: D, a: Approval)
    requires d !in s.relay.conns
    ensures RelayAges(s.relay, Found(s, c, d, a).relay)
  {
  }

  ghost function Exec<C, D>(s: Joint<C, D>, steps: seq<Step<C, D>>): (r: Joint<C, D>)
    requires WeakInv(s) && AwaitInv(s)
    ensures WeakInv(r) && AwaitInv(r)
    decreases |steps|
  {
    if steps == [] then s
    else
      ApplyKeeps(s, steps[0]);
      Exec(Apply(s, steps[0]), steps[1..])
  }

  lemma EmptyHolds<C, D>(cfg: R.Config)
    ensures WeakInv(Init<C, D>(cfg)) && AwaitInv(Init<C, D>(cfg)) && ClientsListed(Init<C, D>(cfg).relay)
  {
    R.EmptyHolds<C>(cfg);
  }

  /** The state after any schedule of steps, from a relay and a broker that know nobody. */
  ghost function Run<C, D>(cfg: R.Config, steps: seq<Step<C, D>>): (r: Joint<C, D>)
    ensures WeakInv(r) && AwaitInv(r)
  {
    EmptyHolds<C, D>(cfg);
    Exec(Init(cfg), steps)
  }

  /** Every registration of the schedule finds its connection still listed and its session open. */
  ghost predicate Orderly<C, D>(s: Joint<C, D>, steps: seq<Step<C, D>>)
    requires WeakInv(s) && AwaitInv(s)
    decreases |steps|
  {
    steps != [] ==> !Breaks(s, steps[0]) && (ApplyKeeps(s, steps[0]); Orderly(Apply(s, steps[0]), steps[1..]))
  }

  lemma {:induction false} ListedIffOrderly<C, D>(s: Joint<C, D>, steps: seq<Step<C, D>>)
    requires WeakInv(s) && AwaitInv(s) && ClientsListed(s.relay)
    ensures Orderly(s, steps) <==> forall k: nat | k <= |steps| :: ClientsListed(Exec(s, steps[..k]).relay)
    decreases |steps|
  {
    hide WeakInv, AwaitInv, ClientsListed, Apply, Breaks;
    if steps == [] {
      assert steps[..0] == [];
    } else {
      ApplyKeeps(s, steps[0]);
      var s1, rest := Apply(s, steps[0]), steps[1..];
      forall k: nat | 0 < k <= |steps| ensures Exec(s, steps[..k]) == Exec(s1, rest[..k - 1]) {
        assert steps[..k][1..] == rest[..k - 1];
      }
      assert Exec(s, steps[..0]) == s;
      assert rest[..0] == [];
      if Breaks(s, steps[0]) {
        assert Exec(s, steps[..1]) == Exec(s1, rest[..0]) == s1;
      } else {
        ListedIffOrderly(s1, rest);
        forall k: nat | k <= |rest| ensures Exec(s1, rest[..k]) == Exec(s, steps[..k + 1]) {
          assert steps[..k + 1][1..] == rest[..k];
        }
      }
    }
  }

  /** One more step at the end of a run. */
  lemma {:induction false} ExecAppend<C, D>(s: Joint<C, D>, steps: seq<Step<C, D>>, step: Step<C, D>)
    requires WeakInv(s) && AwaitInv(s)
    ensures Exec(s, steps + [step]) == Apply(Exec(s, steps), step)
    decreases |steps|
  {
    hide WeakInv, AwaitInv, ClientsListed, Breaks, Apply;
    ApplyKeeps(s, if steps == [] then step else steps[0]);
    if steps == [] {
      assert (steps + [step])[1..] == [];
      assert Exec(Apply(s, step), []) == Apply(s, step);
    } else {
      assert (steps + [step])[1..] == steps[1..] + [step];
      ExecAppend(Apply(s, steps[0]), steps[1..], step);
    }
  }

  lemma RunAppend<C, D>(cfg: R.Config, steps: seq<Step<C, D>>, step: Step<C, D>)
    ensures Run(cfg, steps + [step]) == Apply(Run(cfg, steps), step)
  {
    EmptyHolds<C, D>(cfg);
    ExecAppend(Init<C, D>(cfg), steps, step);
  }

  /** With nothing in between, the two halves are the admission as the relay's objects do it. */
  lemma BothHalvesAdmit<C, D>(s: Joint<C, D>, c: C, d: D, a: Approval)
    requires WeakInv(s)
    requires Enabled(s, RelayFinds(c, d, a))
    ensures R.Base(Apply(s, RelayFinds(c, d, a)).relay.reg)
    ensures Apply(Apply(s, RelayFinds(c, d, a)), RelayRegisters)
      == s.(relay := Admit(s.relay, c, d, Some(a)))
    ensures Apply(s, RelayRefuses(c)) == s.(relay := Admit(s.relay, c, d, None))
  {
    hide WeakInv, R.Base, R.ValidateClient, R.Close, R.Welcome, R.StopReading;
  }

  // ----- what follows for the relay ---------------------------------------------------------

  /**
   * Over all runs: registry and table agree at every point, that is, every registered client is
   * open and its connection listed, exactly if every registration finds its connection still
   * listed and its session still open.
   */
  lemma AgreementIffOrderly<C, D>(cfg: R.Config, steps: seq<Step<C, D>>)
    ensures (EmptyHolds<C, D>(cfg); Orderly(Init<C, D>(cfg), steps)) <==>
      forall k: nat | k <= |steps| :: ClientsListed(Run<C, D>(cfg, steps[..k]).relay)
  {
    EmptyHolds<C, D>(cfg);
    ListedIffOrderly(Init<C, D>(cfg), steps);
    assert forall k: nat | k <= |steps| :: Run<C, D>(cfg, steps[..k]) == Exec(Init<C, D>(cfg), steps[..k]);
  }

  /** The two client ids of a connection. */
  function BothIds(source: string, target: string, k: string): set<string> {
    {GetClientId(source, k), GetClientId(target, k)}
  }

  lemma OneOfBothIds(source: string, target: string, k: string, id: string, id': string)
    requires {id, id'} == BothIds(source, target, k)
    ensures source != target ==> id != id'
  {
    if id == id' {
      assert GetClientId(source, k) in {id, id'} && GetClientId(target, k) in {id, id'};
      CollisionIsSuffix(source, k, target, k);
    }
  }

  /** The lookup of the other side from a validated client never takes its error branch, and the id
      it finds is the other one of the two. */
  lemma PeerLookupDefined<C, D>(s: Joint<C, D>, c: C)
    requires WeakInv(s) && c in s.relay.reg.sessions && s.relay.reg.sessions[c].initialized
    requires s.relay.reg.sessions[c].ctx.connectionId in s.relay.table
    ensures s.relay.table[s.relay.reg.sessions[c].ctx.connectionId] in s.relay.conns
    ensures var r := s.relay.reg.sessions[c];
      var conn := s.relay.conns[s.relay.table[r.ctx.connectionId]];
      && !conn.closed && conn.id == r.ctx.connectionId
      && conn.source == r.ctx.sourcePeerId && conn.target == r.ctx.targetPeerId
      && Brokered(s.broker, conn.id, conn.source, conn.target)
      && PeerClientId(conn, r.id).Some?
      && {r.id, PeerClientId(conn, r.id).value} == BothIds(conn.source, conn.target, conn.id)
      && (conn.source != conn.target ==> PeerClientId(conn, r.id).value != r.id)
  {
    var r := s.relay.reg.sessions[c];
    assert SessionOk(s.broker, r);
    hide R.Base, R.EventInv, ApprovalsOk, PendingOk;
    var conn := s.relay.conns[s.relay.table[r.ctx.connectionId]];
    OneOfBothIds(conn.source, conn.target, conn.id, r.id, PeerClientId(conn, r.id).value);
  }

  /**
   * In every reachable state: a stream of a validated client, closed or not, whose connection is
   * listed is bridged to whoever is registered under the other one of the connection's two client
   * ids, and to nobody if nobody is; that is never the client itself unless source and target are
   * the same peer.
   */
  lemma BridgesTheOtherSide<C, D>(cfg: R.Config, steps: seq<Step<C, D>>, c: C)
    requires var s := Run<C, D>(cfg, steps).relay;
      c in s.reg.sessions && s.reg.sessions[c].initialized && s.reg.sessions[c].ctx.connectionId in s.table
    ensures var s := Run<C, D>(cfg, steps).relay;
      && s.reg.sessions[c].ctx.RelayContext? && (forall k | k in s.table :: s.table[k] in s.conns)
      && var r := s.reg.sessions[c];
      var k, source, target := r.ctx.connectionId, r.ctx.sourcePeerId, r.ctx.targetPeerId;
      var peer := BridgedPeer(s, c);
      && (forall id | id in s.reg.clients && {r.id, id} == BothIds(source, target, k) ::
        peer == Some(s.reg.clients[id]))
      && (peer.Some? ==>
          && peer.value in s.reg.sessions && {r.id, s.reg.sessions[peer.value].id} == BothIds(source, target, k)
          && (source != target ==> peer.value != c))
  {
    var s := Run<C, D>(cfg, steps);
    hide Run;
    BridgedIsOther(s, c);
  }

  lemma BridgedIsOther<C, D>(s: Joint<C, D>, c: C)
    requires WeakInv(s) && c in s.relay.reg.sessions && s.relay.reg.sessions[c].initialized
    requires s.relay.reg.sessions[c].ctx.connectionId in s.relay.table
    ensures s.relay.reg.sessions[c].ctx.RelayContext?
      && (forall k | k in s.relay.table :: s.relay.table[k] in s.relay.conns)
    ensures var r := s.relay.reg.sessions[c];
      var both := BothIds(r.ctx.sourcePeerId, r.ctx.targetPeerId, r.ctx.connectionId);
      var peer := BridgedPeer(s.relay, c);
      && (forall id | id in s.relay.reg.clients && {r.id, id} == both :: peer == Some(s.relay.reg.clients[id]))
      && (peer.Some? ==>
          && peer.value in s.relay.reg.sessions && {r.id, s.relay.reg.sessions[peer.value].id} == both
          && (r.ctx.sourcePeerId != r.ctx.targetPeerId ==> peer.value != c))
  {
    PeerLookupDefined(s, c);
    var r := s.relay.reg.sessions[c];
    assert SessionOk(s.broker, r) && TableOk(s.broker, s.relay) && R.LeadsHome(s.relay.reg);
    hide WeakInv, R.Base, PeerClientId;
    var other := PeerClientId(s.relay.conns[s.relay.table[r.ctx.connectionId]], r.id).value;
    var both := BothIds(r.ctx.sourcePeerId, r.ctx.targetPeerId, r.ctx.connectionId);
    forall id | id in s.relay.reg.clients && {r.id, id} == both ensures id == other {
      SameOther(r.id, id, other);
    }
  }

  lemma SameOther(id: string, x: string, y: string)
    requires {id, x} == {id, y}
    ensures x == y
  {
    assert x in {id, y} && y in {id, x};
  }

  /**
   * In every reachable state: a registered relay client was validated for a connection of the
   * broker and is its source or its target. As long as that connection is listed, the record the
   * relay holds is the broker's, the lookup of the other side never fails with an invalid client
   * id, and doing it twice leads back whenever source and target differ.
   */
  lemma RelayJointInvariant<C, D>(cfg: R.Config, steps: seq<Step<C, D>>, id: string)
    requires id in Run<C, D>(cfg, steps).relay.reg.clients
    ensures var s := Run<C, D>(cfg, steps);
      var c := s.relay.reg.clients[id];
      && c in s.relay.reg.sessions && s.relay.reg.sessions[c].ctx.RelayContext?
      && var ctx := s.relay.reg.sessions[c].ctx;
      var k, source, target := ctx.connectionId, ctx.sourcePeerId, ctx.targetPeerId;
      && Brokered(s.broker, k, source, target)
      && (id == GetClientId(source, k) || id == GetClientId(target, k))
      && (k in s.relay.table ==>
          && s.relay.table[k] in s.relay.conns
          && var conn := s.relay.conns[s.relay.table[k]];
          && conn == Conn(k, source, target, false)
          && PeerClientId(conn, id).Some?
          && (source != target ==> PeerClientId(conn, PeerClientId(conn, id).value) == Some(id)))
  {
    var s := Run<C, D>(cfg, steps);
    hide Run;
    var c := s.relay.reg.clients[id];
    assert R.LeadsHome(s.relay.reg) && R.RegisteredValidated(s.relay.reg);
    assert SessionOk(s.broker, s.relay.reg.sessions[c]);
    var r := s.relay.reg.sessions[c];
    if r.ctx.connectionId in s.relay.table {
      PeerLookupDefined(s, c);
      if GetClientId(r.ctx.sourcePeerId, r.ctx.connectionId) == GetClientId(r.ctx.targetPeerId, r.ctx.connectionId) {
        CollisionIsSuffix(r.ctx.sourcePeerId, r.ctx.connectionId, r.ctx.targetPeerId, r.ctx.connectionId);
      }
    }
    hide WeakInv, R.Base, R.EventInv;
  }

  /**
   * In every reachable state in which the broker's connection ids hold no colon: the client a
   * stream is bridged to was validated for the same connection of the broker. It is live unless
   * the registry holds closed sessions.
   */
  lemma RelayIsolation<C, D>(cfg: R.Config, steps: seq<Step<C, D>>, c: C)
    requires var s := Run<C, D>(cfg, steps);
      && (forall k | k in s.broker :: ColonFree(k))
      && c in s.relay.reg.sessions && s.relay.reg.sessions[c].initialized
    ensures var s := Run<C, D>(cfg, steps).relay;
      && s.reg.sessions[c].ctx.RelayContext? && (forall k | k in s.table :: s.table[k] in s.conns)
      && var peer := BridgedPeer(s, c);
      peer.Some? ==>
        && peer.value in s.reg.sessions && R.Validated(peer.value) in s.reg.events
        && s.reg.sessions[peer.value].ctx == s.reg.sessions[c].ctx
        && (R.Inv(s.reg) ==> R.Live(s.reg.sessions[peer.value]))
  {
    var s := Run<C, D>(cfg, steps);
    hide Run;
    assert SessionOk(s.broker, s.relay.reg.sessions[c]) && TableOk(s.broker, s.relay);
    var peer := BridgedPeer(s.relay, c);
    if peer.Some? {
      PeerLookupDefined(s, c);
      assert R.RegisteredValidated(s.relay.reg) && R.LeadsHome(s.relay.reg);
      R.InvIsBaseAndOpen(s.relay.reg);
      var conn := s.relay.conns[s.relay.table[s.relay.reg.sessions[c].ctx.connectionId]];
      hide R.Inv, R.Base;
      SameClientSameConnection(s, peer.value, conn);
    }
  }

  /** A validated session whose id is one of a connection's two client ids belongs to it. */
  lemma SameClientSameConnection<C, D>(s: Joint<C, D>, c: C, conn: Conn)
    requires SessionsOk(s.broker, s.relay.reg) && c in s.relay.reg.sessions && s.relay.reg.sessions[c].initialized
    requires forall k | k in s.broker :: ColonFree(k)
    requires Brokered(s.broker, conn.id, conn.source, conn.target)
    requires s.relay.reg.sessions[c].id == GetClientId(conn.source, conn.id) ||
      s.relay.reg.sessions[c].id == GetClientId(conn.target, conn.id)
    ensures s.relay.reg.sessions[c].ctx == R.RelayContext(conn.id, conn.source, conn.target)
  {
    var r := s.relay.reg.sessions[c];
    assert SessionOk(s.broker, r);
    var p := if r.id == GetClientId(conn.source, conn.id) then conn.source else conn.target;
    var p' := if r.id == GetClientId(r.ctx.sourcePeerId, r.ctx.connectionId) then r.ctx.sourcePeerId
      else r.ctx.targetPeerId;
    ClientIdInjective(p, conn.id, p', r.ctx.connectionId);
  }

  /**
   * In every reachable state: an open relay connection is the one in the table under its id, so
   * there is one per id and every client admitted meanwhile shares it; closing any other record
   * does nothing, so it cannot evict one created later under the same id.
   */
  lemma OneOpenConnectionPerId<C, D>(cfg: R.Config, steps: seq<Step<C, D>>, d: D)
    requires d in Run<C, D>(cfg, steps).relay.conns
    ensures var s := Run<C, D>(cfg, steps).relay;
      var k := s.conns[d].id;
      && (!s.conns[d].closed <==> k in s.table && s.table[k] == d)
      && (!(k in s.table && s.table[k] == d) ==> CloseConn(s, d) == s)
      && (forall a: Approval, d' | a.id == k && !s.conns[d].closed :: FindOrCreate(s, d', a) == s)
  {
  }

  /** The connection is out of the table, no live client belongs to it, and nothing else went. */
  ghost predicate Unlisted<C, D>(s: Relay<C, D>, s': Relay<C, D>, conn: Conn) {
    && conn.id !in s'.table
    && (forall c | c in s'.reg.sessions && R.Live(s'.reg.sessions[c]) && s'.reg.sessions[c].ctx.RelayContext? ::
          s'.reg.sessions[c].ctx.connectionId != conn.id)
    && (forall k | k in s.table && k != conn.id :: k in s'.table && s'.table[k] == s.table[k])
  }

  /**
   * In every reachable state: after the close of a relay connection it is out of the table and no
   * live client belongs to it, on either side. The ids of its two clients are gone from the
   * registry exactly if no closed session was registered under them, as closing that again does
   * nothing.
   */
  lemma CloseEvictsBothPeers<C, D>(cfg: R.Config, steps: seq<Step<C, D>>, d: D)
    requires var s := Run<C, D>(cfg, steps).relay; d in s.conns && !s.conns[d].closed
    ensures var s := Run<C, D>(cfg, steps).relay;
      var s' := CloseConn(s, d);
      var id, id' := GetClientId(s.conns[d].source, s.conns[d].id), GetClientId(s.conns[d].target, s.conns[d].id);
      && d in s'.conns && s'.conns[d].closed && Unlisted(s, s', s.conns[d])
      && (id !in s'.reg.clients && id' !in s'.reg.clients <==> !Stuck(s.reg, id) && !Stuck(s.reg, id'))
  {
    var s := Run<C, D>(cfg, steps);
    hide Run;
    CloseUnlists(s, d);
  }

  lemma CloseUnlists<C, D>(s: Joint<C, D>, d: D)
    requires WeakInv(s) && d in s.relay.conns && !s.relay.conns[d].closed
    ensures var conn := s.relay.conns[d];
      var s' := CloseConn(s.relay, d);
      && d in s'.conns && s'.conns[d].closed && Unlisted(s.relay, s', conn)
      && BothClosed(s.relay.reg, GetClientId(conn.source, conn.id), GetClientId(conn.target, conn.id), s'.reg)
  {
    var conn := s.relay.conns[d];
    var id, id' := GetClientId(conn.source, conn.id), GetClientId(conn.target, conn.id);
    var s' := CloseConn(s.relay, d);
    ClosedBoth(s.relay.reg, id, id');
    assert R.RegisteredValidated(s.relay.reg);
    hide R.Base, R.Inv, R.EventInv, CloseClients;
    forall c | c in s'.reg.sessions && R.Live(s'.reg.sessions[c]) && s'.reg.sessions[c].ctx.RelayContext?
      ensures s'.reg.sessions[c].ctx.connectionId != conn.id {
      assert c in s.relay.reg.sessions && R.Live(s.relay.reg.sessions[c]);
      assert SessionOk(s.broker, s.relay.reg.sessions[c]);
    }
  }

  /**
   * In every reachable state: a wait that succeeded found a client that had been validated under
   * the other side's id, that is, the other one of the connection's two client ids; with ids free
   * of colons, for the same connection.
   */
  lemma AwaitSoundness<C, D>(cfg: R.Config, steps: seq<Step<C, D>>, w: nat)
    requires w in Run<C, D>(cfg, steps).waiters && Run<C, D>(cfg, steps).waiters[w].pc.Succeeded?
    ensures var s := Run<C, D>(cfg, steps);
      var v := s.waiters[w];
      && v.client in s.relay.reg.sessions && v.conn in s.relay.conns
      && v.pc.peer in s.relay.reg.sessions && s.relay.reg.sessions[v.pc.peer].initialized
      && R.Validated(v.pc.peer) in s.relay.reg.events
      && PeerClientId(s.relay.conns[v.conn], s.relay.reg.sessions[v.client].id) ==
        Some(s.relay.reg.sessions[v.pc.peer].id)
      && (var conn := s.relay.conns[v.conn];
          && {s.relay.reg.sessions[v.client].id, s.relay.reg.sessions[v.pc.peer].id}
            == BothIds(conn.source, conn.target, conn.id)
          && (conn.source != conn.target ==> v.pc.peer != v.client))
      && ((forall k | k in s.broker :: ColonFree(k)) ==>
          s.relay.reg.sessions[v.pc.peer].ctx == s.relay.reg.sessions[v.client].ctx)
  {
    var s := Run<C, D>(cfg, steps);
    hide Run;
    SucceededSound(s, w);
  }

  lemma SucceededSound<C, D>(s: Joint<C, D>, w: nat)
    requires WeakInv(s) && AwaitInv(s) && w in s.waiters && s.waiters[w].pc.Succeeded?
    ensures var v := s.waiters[w];
      && v.client in s.relay.reg.sessions && v.conn in s.relay.conns
      && v.pc.peer in s.relay.reg.sessions && s.relay.reg.sessions[v.pc.peer].initialized
      && R.Validated(v.pc.peer) in s.relay.reg.events
      && PeerClientId(s.relay.conns[v.conn], s.relay.reg.sessions[v.client].id) ==
        Some(s.relay.reg.sessions[v.pc.peer].id)
      && (var conn := s.relay.conns[v.conn];
          && {s.relay.reg.sessions[v.client].id, s.relay.reg.sessions[v.pc.peer].id}
            == BothIds(conn.source, conn.target, conn.id)
          && (conn.source != conn.target ==> v.pc.peer != v.client))
      && ((forall k | k in s.broker :: ColonFree(k)) ==>
          s.relay.reg.sessions[v.pc.peer].ctx == s.relay.reg.sessions[v.client].ctx)
  {
    var v := s.waiters[w];
    assert ClientOf(s.relay, v.client, v.conn);
    assert AwaitedId(s, w) == Some(s.relay.reg.sessions[v.pc.peer].id);
    assert SessionsOk(s.broker, s.relay.reg) && TableOk(s.broker, s.relay);
    assert R.EventInv(s.relay.reg);
    var conn := s.relay.conns[v.conn];
    OneOfBothIds(conn.source, conn.target, conn.id, s.relay.reg.sessions[v.client].id,
      s.relay.reg.sessions[v.pc.peer].id);
    hide WeakInv, AwaitInv, R.Base, SessionsOk;
    if forall k | k in s.broker :: ColonFree(k) {
      SameClientSameConnection(s, v.pc.peer, s.relay.conns[v.conn]);
      SameClientSameConnection(s, v.client, s.relay.conns[v.conn]);
    }
  }

  // ----- who is admitted, and who is heard --------------------------------------------------

  /** The session carries the id, tags and context of an approval. */
  predicate AdmittedWith(r: R.Session, a: Approval) {
    && r.id == a.peer + ":" + a.id && r.tags == map[a.id := "true", a.peer := "true"]
    && r.ctx == R.RelayContext(a.id, a.source, a.target)
  }

  /** Each validated session is the very peer that the broker approved for its connection. */
  ghost predicate AdmittedOk<C, D>(s: Joint<C, D>) {
    forall c | c in s.relay.reg.sessions && s.relay.reg.sessions[c].initialized ::
      exists a | a in s.approvals :: AdmittedWith(s.relay.reg.sessions[c], a)
  }

  /** A step that is no registration validates nobody. */
  lemma OnlyRegistrationsValidate<C, D>(s: Joint<C, D>, step: Step<C, D>)
    requires WeakInv(s) && !(step.RelayRegisters? && Enabled(s, step))
    ensures R.Ages(s.relay.reg, Apply(s, step).relay.reg) && s.approvals <= Apply(s, step).approvals
  {
    if Enabled(s, step) && (step.RelayRefuses? || step.SessionStep? || step.ConnCloses?) {
      assert R.EventInv(s.relay.reg);
      match step
      case RelayRefuses(c) => R.CloseAges(s.relay.reg, c); hide R.Base, R.Close, R.StopReading, R.Ages, WeakInv;
      case SessionStep(st) => R.StepAges(s.relay.reg, st); hide R.Base, R.Apply, R.Ages, WeakInv;
      case ConnCloses(d) =>
        var conn := s.relay.conns[d];
        ClosedBoth(s.relay.reg, GetClientId(conn.source, conn.id), GetClientId(conn.target, conn.id));
        R.SameSessionsAge(s.relay.reg, s.relay.reg);
        hide R.Base, R.EventInv, R.Inv, R.Ages, WeakInv, CloseClients;
    } else {
      SameRegistry(s, step);
      hide WeakInv, R.Base, Apply, R.Ages;
      R.SameSessionsAge(s.relay.reg, Apply(s, step).relay.reg);
    }
  }

  lemma SameRegistry<C, D>(s: Joint<C, D>, step: Step<C, D>)
    requires R.Base(s.relay.reg)
    requires Enabled(s, step) ==>
      !step.RelayRegisters? && !step.RelayRefuses? && !step.SessionStep? && !step.ConnCloses?
    ensures Apply(s, step).relay.reg == s.relay.reg && s.approvals <= Apply(s, step).approvals
  {
    hide R.Base, AfterCheck, AfterMessage;
  }

  lemma AgesKeepsAdmitted<C, D>(s: Joint<C, D>, s': Joint<C, D>)
    requires AdmittedOk(s) && R.Ages(s.relay.reg, s'.relay.reg) && s.approvals <= s'.approvals
    ensures AdmittedOk(s')
  {
    forall c | c in s'.relay.reg.sessions && s'.relay.reg.sessions[c].initialized
      ensures exists a | a in s'.approvals :: AdmittedWith(s'.relay.reg.sessions[c], a) {
      var a :| a in s.approvals && AdmittedWith(s.relay.reg.sessions[c], a);
      assert AdmittedWith(s'.relay.reg.sessions[c], a);
    }
  }

  /** The registration gives the session the data of its approval, registers it under the id of the
      approved peer, and leaves the data of all others alone. */
  lemma RegistersAsApproved<C, D>(s: Joint<C, D>)
    requires WeakInv(s) && s.pending.Some?
    ensures s.pending.value.0 in s.relay.reg.sessions
    ensures var (c, a) := s.pending.value;
      var reg' := Registered(s).relay.reg;
      && c in reg'.sessions && reg'.sessions[c].initialized && AdmittedWith(reg'.sessions[c], a)
      && (a.peer + ":" + a.id in reg'.clients && reg'.clients[a.peer + ":" + a.id] == c)
      && (forall id | id in s.relay.reg.clients && id != a.peer + ":" + a.id ::
            id in reg'.clients && reg'.clients[id] == s.relay.reg.clients[id])
      && R.ValidatedOnly(s.relay.reg, c, ClientDataFor(a), reg')
  {
    var (c, a) := s.pending.value;
    R.ValidatedAges(s.relay.reg, c, ClientDataFor(a));
    R.ValidateReplaces(s.relay.reg, c, ClientDataFor(a));
    hide WeakInv, R.Base, R.EventInv, R.Inv, R.ValidateClient;
  }

  lemma StepKeepsAdmitted<C, D>(s: Joint<C, D>, step: Step<C, D>)
    requires WeakInv(s) && AdmittedOk(s)
    ensures AdmittedOk(Apply(s, step))
  {
    if step.RelayRegisters? && Enabled(s, step) {
      RegistersAsApproved(s);
      var (c, a) := s.pending.value;
      assert a in s.approvals by { assert PendingOk(s); }
      hide WeakInv, R.Base, Registered;
      forall k | k in Registered(s).relay.reg.sessions && Registered(s).relay.reg.sessions[k].initialized
        ensures exists a | a in s.approvals :: AdmittedWith(Registered(s).relay.reg.sessions[k], a) {
        if k != c {
          var a' :| a' in s.approvals && AdmittedWith(s.relay.reg.sessions[k], a');
          assert AdmittedWith(Registered(s).relay.reg.sessions[k], a');
        }
      }
      assert Apply(s, step) == Registered(s) && Registered(s).approvals == s.approvals by { RegisteredKeeps(s); }
    } else {
      OnlyRegistrationsValidate(s, step);
      hide WeakInv, Apply, AdmittedOk, R.Ages;
      AgesKeepsAdmitted(s, Apply(s, step));
    }
  }

  lemma RegisteredKeeps<C, D>(s: Joint<C, D>)
    requires R.Base(s.relay.reg) && Enabled(s, RelayRegisters)
    ensures Apply(s, RelayRegisters) == Registered(s) && Registered(s).approvals == s.approvals
  {
  }

  /**
   * In every run: each validated client of the relay is the peer that the broker approved, registered
   * under that peer's client id, with the tags and the two peers of that connection, and the broker
   * had the connection in its books with these peers when it approved it.
   */
  lemma AdmittedAsApproved<C, D>(cfg: R.Config, steps: seq<Step<C, D>>)
    ensures AdmittedOk(Run<C, D>(cfg, steps))
    ensures var s := Run<C, D>(cfg, steps);
      forall a | a in s.approvals ::
        Brokered(s.broker, a.id, a.source, a.target) && (a.peer == a.source || a.peer == a.target)
  {
    EmptyHolds<C, D>(cfg);
    AdmittedFrom(Init<C, D>(cfg), steps);
  }

  lemma {:induction false} AdmittedFrom<C, D>(s: Joint<C, D>, steps: seq<Step<C, D>>)
    requires WeakInv(s) && AwaitInv(s) && AdmittedOk(s)
    ensures AdmittedOk(Exec(s, steps))
    decreases |steps|
  {
    hide WeakInv, AwaitInv, ClientsListed, Apply, AdmittedOk, Breaks;
    if steps != [] {
      ApplyKeeps(s, steps[0]);
      StepKeepsAdmitted(s, steps[0]);
      AdmittedFrom(Apply(s, steps[0]), steps[1..]);
    }
  }

  /**
   * Two clients of a connection meet: whoever asks while the other one listens publishes its id, and
   * the other one, whose timer has not fired, succeeds with it when it hears of it.
   */
  lemma PeerIsHeard<C, D>(s: Joint<C, D>, w: nat, w': nat, c: C, now: int)
    requires WeakInv(s) && AwaitInv(s) && Enabled(s, AwaitBegins(w', c)) && Waits(s, w)
    requires s.waiters[w].pc.Listening? && !s.waiters[w].pc.late
    requires s.relay.table[s.relay.reg.sessions[c].ctx.connectionId] == s.waiters[w].conn
    requires var conn := s.relay.conns[s.waiters[w].conn];
      conn.source != conn.target && s.relay.reg.sessions[c].id != s.relay.reg.sessions[s.waiters[w].client].id
    ensures var s1 := Apply(s, AwaitBegins(w', c));
      && R.Base(s1.relay.reg)
      && var heard := AwaitHears(w, (s.waiters[w].conn, c, s.relay.reg.sessions[c].id), now);
      && Enabled(s1, heard) && w in Apply(s1, heard).waiters && Apply(s1, heard).waiters[w].pc == Succeeded(c)
  {
    var s1 := Apply(s, AwaitBegins(w', c));
    var message := (s.waiters[w].conn, c, s.relay.reg.sessions[c].id);
    TheOtherOne(s, w, c);
    BeginPublishes(s, w, w', c);
    hide WeakInv, AwaitInv, R.Base, Apply, Waits, AwaitedId;
    HearsTheOther(s1, w, message, now);
  }

  lemma BeginPublishes<C, D>(s: Joint<C, D>, w: nat, w': nat, c: C)
    requires R.Base(s.relay.reg) && Enabled(s, AwaitBegins(w', c)) && Waits(s, w)
    ensures var s1 := Apply(s, AwaitBegins(w', c));
      && s1.relay == s.relay && w in s1.waiters && s1.waiters[w] == s.waiters[w]
      && (s.relay.table[s.relay.reg.sessions[c].ctx.connectionId], c, s.relay.reg.sessions[c].id) in s1.published
      && Waits(s1, w) && AwaitedId(s1, w) == AwaitedId(s, w)
  {
    hide R.Base, PeerClientId;
  }

  lemma HearsTheOther<C, D>(s: Joint<C, D>, w: nat, message: (D, C, string), now: int)
    requires R.Base(s.relay.reg) && Waits(s, w) && s.waiters[w].pc.Listening? && !s.waiters[w].pc.late
    requires message in s.published && message.0 == s.waiters[w].conn && AwaitedId(s, w) == Some(message.2)
    ensures var heard := AwaitHears(w, message, now);
      Enabled(s, heard) && w in Apply(s, heard).waiters && Apply(s, heard).waiters[w].pc == Succeeded(message.1)
  {
    hide R.Base, PeerClientId;
  }

  lemma TheOtherOne<C, D>(s: Joint<C, D>, w: nat, c: C)
    requires WeakInv(s) && AwaitInv(s) && Waits(s, w) && s.waiters[w].pc.Listening?
    requires c in s.relay.reg.sessions && s.relay.reg.sessions[c].initialized
    requires s.relay.reg.sessions[c].ctx.RelayContext? && s.relay.reg.sessions[c].ctx.connectionId in s.relay.table
    requires s.relay.table[s.relay.reg.sessions[c].ctx.connectionId] == s.waiters[w].conn
    requires s.relay.reg.sessions[c].id != s.relay.reg.sessions[s.waiters[w].client].id
    ensures AwaitedId(s, w) == Some(s.relay.reg.sessions[c].id)
  {
    PeerLookupDefined(s, c);
    assert ClientOf(s.relay, s.waiters[w].client, s.waiters[w].conn) && AwaitedId(s, w).Some?;
    assert SessionOk(s.broker, s.relay.reg.sessions[c]);
    hide WeakInv, AwaitInv, R.Base;
  }

  // ----- an admission in two halves ---------------------------------------------------------

  /**
   * A close of the connection between the two halves of an admission breaks the agreement, be it a
   * connection just made or one that a second peer joins: the client ends up registered without it.
   */
  lemma CloseInBetweenBreaks<C, D>(s: Joint<C, D>)
    requires WeakInv(s) && AwaitInv(s) && ClientsListed(s.relay) && s.pending.Some?
    requires s.pending.value.0 in s.relay.reg.sessions && !s.relay.reg.sessions[s.pending.value.0].closed
    requires s.pending.value.1.id in s.relay.table
    ensures ClientsListed(Apply(s, RelayRegisters).relay)
    ensures var between := Apply(s, ConnCloses(s.relay.table[s.pending.value.1.id]));
      && WeakInv(between) && ClientsListed(between.relay) && Enabled(between, RelayRegisters)
      && !ClientsListed(Apply(between, RelayRegisters).relay)
  {
    var d := s.relay.table[s.pending.value.1.id];
    ClosedInBetween(s, d);
    assert !Breaks(s, RelayRegisters);
    hide WeakInv, AwaitInv, ClientsListed, Apply;
    ApplyKeeps(s, RelayRegisters);
    ApplyKeeps(s, ConnCloses(d));
    var between := Apply(s, ConnCloses(d));
    assert Breaks(between, RelayRegisters) && !Breaks(s, ConnCloses(d));
    ApplyKeeps(between, RelayRegisters);
  }

  lemma ClosedInBetween<C, D>(s: Joint<C, D>, d: D)
    requires WeakInv(s) && s.pending.Some? && s.pending.value.1.id in s.relay.table
    requires d == s.relay.table[s.pending.value.1.id]
    ensures var between := Apply(s, ConnCloses(d));
      && between.pending == s.pending && s.pending.value.1.id !in between.relay.table
      && s.pending.value.0 in between.relay.reg.sessions
  {
    assert d in s.relay.conns && !s.relay.conns[d].closed && s.relay.conns[d].id == s.pending.value.1.id;
    CloseUnlists(s, d);
    assert PendingOk(s);
    hide WeakInv, CloseConn, R.Base;
  }

  /** The approvals of a connection `k` between two peers. */
  function KApproval(peer: string): Approval {
    Approval("k", peer, "p", "q")
  }

  lemma NotARegistrationKeeps<C, D>(cfg: R.Config, steps: seq<Step<C, D>>, step: Step<C, D>)
    requires !Breaks(Run(cfg, steps), step)
    ensures Run(cfg, steps + [step]) == Apply(Run(cfg, steps), step)
    ensures ClientsListed(Run(cfg, steps).relay) ==> ClientsListed(Run(cfg, steps + [step]).relay)
  {
    RunAppend(cfg, steps, step);
    hide Run, WeakInv, AwaitInv, ClientsListed, Apply, Breaks;
    ApplyKeeps(Run(cfg, steps), step);
  }

  /** The broker knows the connection `k`, and nobody is being validated. */
  ghost predicate Ready<C, D>(s: Joint<C, D>) {
    && s.pending.None? && "k" in s.broker && s.broker["k"] == BrokerConn("p", "q", true, false)
    && ClientsListed(s.relay)
  }

  /** A session `c` was approved as one of its peers, and the connection found to be `d`. */
  ghost predicate FoundFor<C, D>(s: Joint<C, D>, c: C, peer: string, d: D) {
    && s.pending == Some((c, KApproval(peer))) && "k" in s.broker && s.broker["k"] == BrokerConn("p", "q", true, false)
    && c in s.relay.reg.sessions && !s.relay.reg.sessions[c].closed
    && "k" in s.relay.table && s.relay.table["k"] == d && ClientsListed(s.relay)
  }

  lemma ArrivesAndFinds<C, D>(s: Joint<C, D>, c: C, sid: string, peer: string, spare: D)
    requires R.Base(s.relay.reg) && Ready(s) && R.Enabled(s.relay.reg, R.NewSession(c, sid)) && spare !in s.relay.conns
    requires peer == "p" || peer == "q"
    ensures var s1 := Apply(s, SessionStep(R.NewSession(c, sid)));
      && R.Base(s1.relay.reg)
      && var s2 := Apply(s1, BrokerApproves("k", peer));
      && s2.relay == s1.relay
      && var s3 := Apply(s2, RelayFinds(c, spare, KApproval(peer)));
      && s3.broker == s.broker && s3.pending == Some((c, KApproval(peer)))
      && s3.relay == FindOrCreate(s.relay, spare, KApproval(peer)).(reg := R.Accept(s.relay.reg, c, sid))
  {
    assert R.Apply(s.relay.reg, R.NewSession(c, sid)) == R.Accept(s.relay.reg, c, sid);
    hide R.Apply;
    assert R.Base(R.Accept(s.relay.reg, c, sid)) by {
      AcceptKeepsBase(s.relay.reg, c, sid);
    }
    hide R.Base, ClientsListed, R.Enabled;
  }

  lemma AcceptKeepsBase<C>(reg: R.State<C>, c: C, sid: string)
    requires R.Base(reg) && R.Enabled(reg, R.NewSession(c, sid))
    ensures R.Base(R.Accept(reg, c, sid))
  {
  }

  lemma ApprovedAndFound<C, D>(cfg: R.Config, steps: seq<Step<C, D>>, c: C, sid: string, peer: string, spare: D)
    returns (steps': seq<Step<C, D>>)
    requires Ready(Run(cfg, steps)) && R.Enabled(Run(cfg, steps).relay.reg, R.NewSession(c, sid))
    requires spare !in Run(cfg, steps).relay.conns && (peer == "p" || peer == "q")
    ensures var s, s' := Run(cfg, steps), Run(cfg, steps');
      && FoundFor(s', c, peer, if "k" in s.relay.table then s.relay.table["k"] else spare)
      && s'.relay == FindOrCreate(s.relay, spare, KApproval(peer)).(reg := R.Accept(s.relay.reg, c, sid))
  {
    var arrive, approve := SessionStep(R.NewSession(c, sid)), BrokerApproves("k", peer);
    var find := RelayFinds(c, spare, KApproval(peer));
    steps' := steps + [arrive] + [approve] + [find];
    ArrivesAndFinds(Run(cfg, steps), c, sid, peer, spare);
    hide Run, WeakInv, AwaitInv, R.Base, ClientsListed, Apply, R.Enabled;
    NotARegistrationKeeps(cfg, steps, arrive);
    NotARegistrationKeeps(cfg, steps + [arrive], approve);
    NotARegistrationKeeps(cfg, steps + [arrive] + [approve], find);
  }

  lemma RegistersPending<C, D>(s: Joint<C, D>, c: C, a: Approval)
    requires R.Base(s.relay.reg) && s.pending == Some((c, a)) && c in s.relay.reg.sessions
    requires !s.relay.reg.sessions[c].initialized
    ensures var s' := Apply(s, RelayRegisters);
      && s'.broker == s.broker && s'.pending.None?
      && s'.relay.table == s.relay.table && s'.relay.conns == s.relay.conns
      && GetClientId(a.peer, a.id) in s'.relay.reg.clients
      && s'.relay.reg.sessions.Keys == s.relay.reg.sessions.Keys
      && (forall k | k in s.relay.reg.sessions ::
            s'.relay.reg.sessions[k].sessionId == s.relay.reg.sessions[k].sessionId)
  {
    hide R.Base, R.ValidateClient;
    R.ValidateShape(s.relay.reg, c, ClientDataFor(a));
  }

  lemma RegisteredInTime<C, D>(cfg: R.Config, steps: seq<Step<C, D>>, c: C, peer: string, d: D)
    requires FoundFor(Run(cfg, steps), c, peer, d)
    ensures var s, s' := Run(cfg, steps), Run(cfg, steps + [RelayRegisters]);
      && Ready(s') && s'.relay.table == s.relay.table && s'.relay.conns == s.relay.conns
      && GetClientId(peer, "k") in s'.relay.reg.clients
      && s'.relay.reg.sessions.Keys == s.relay.reg.sessions.Keys
      && (forall k | k in s.relay.reg.sessions ::
            s'.relay.reg.sessions[k].sessionId == s.relay.reg.sessions[k].sessionId)
  {
    var s := Run(cfg, steps);
    assert PendingOk(s);
    hide Run, AwaitInv, WeakInv, R.Base;
    assert !Breaks(s, RelayRegisters);
    hide ClientsListed, Apply, Breaks;
    NotARegistrationKeeps(cfg, steps, RelayRegisters);
    RegistersPending(s, c, KApproval(peer));
  }

  lemma BrokerKnowsK<C, D>(cfg: R.Config)
    ensures Ready(Run<C, D>(cfg, [BrokerCreates("k", "p", "q")]))
    ensures Run<C, D>(cfg, [BrokerCreates("k", "p", "q")]).relay == Relay(R.Init(cfg), map[], map[])
  {
    EmptyHolds<C, D>(cfg);
    var create: Step<C, D> := BrokerCreates("k", "p", "q");
    NotARegistrationKeeps<C, D>(cfg, [], create);
    assert [] + [create] == [create];
    assert Run<C, D>(cfg, []) == Init(cfg);
    hide Run, WeakInv, AwaitInv;
  }

  /**
   * Runs in which this happens: the first peer of a connection, and the second one joining it
   * while its first client is registered; each time the connection closes in between.
   */
  lemma CloseInBetweenRuns<C, D>(cfg: R.Config, c: C, c': C, d: D, d': D)
    returns (first: seq<Step<C, D>>, second: seq<Step<C, D>>)
    requires c != c' && d != d'
    ensures !ClientsListed(Run(cfg, first + [ConnCloses(d)] + [RelayRegisters]).relay)
    ensures var s := Run(cfg, second).relay;
      && ClientsListed(s) && "k" in s.table && s.table["k"] == d && GetClientId("p", "k") in s.reg.clients
      && !ClientsListed(Run(cfg, second + [ConnCloses(d)] + [RelayRegisters]).relay)
  {
    BrokerKnowsK<C, D>(cfg);
    hide Run, WeakInv, AwaitInv, R.Base, ClientsListed, Apply;
    first := ApprovedAndFound(cfg, [BrokerCreates("k", "p", "q")], c, "x", "p", d);
    ClosedThenRegistered(cfg, first, d);
    RegisteredInTime(cfg, first, c, "p", d);
    second := ApprovedAndFound(cfg, first + [RelayRegisters], c', "y", "q", d');
    ClosedThenRegistered(cfg, second, d);
  }

  lemma ClosedThenRegistered<C, D>(cfg: R.Config, steps: seq<Step<C, D>>, d: D)
    requires var s := Run(cfg, steps);
      && ClientsListed(s.relay) && s.pending.Some?
      && s.pending.value.0 in s.relay.reg.sessions && !s.relay.reg.sessions[s.pending.value.0].closed
      && s.pending.value.1.id in s.relay.table && s.relay.table[s.pending.value.1.id] == d
    ensures !ClientsListed(Run(cfg, steps + [ConnCloses(d)] + [RelayRegisters]).relay)
  {
    CloseInBetweenBreaks(Run(cfg, steps));
    hide Run, WeakInv, AwaitInv, ClientsListed, Apply;
    RunAppend(cfg, steps, ConnCloses(d));
    RunAppend(cfg, steps + [ConnCloses(d)], RelayRegisters);
  }

  // ----- a wait is the loop -----------------------------------------------------------------

  /** What a step brings to the select of a waiter. */
  ghost function Hearing<C, D>(s: Joint<C, D>, step: Step<C, D>, w: nat): seq<BusEvent> {
    if !Enabled(s, step) then []
    else match step
      case AwaitHears(v, message, now) => if v == w then [Message(Some(message.2), now)] else []
      case AwaitHearsNil(v, now) => if v == w then [Message(None, now)] else []
      case AwaitTimerFires(v) => if v == w then [TimerFires] else []
      case _ => []
  }

  ghost function Heard<C, D>(s: Joint<C, D>, steps: seq<Step<C, D>>, w: nat): seq<BusEvent>
    requires WeakInv(s) && AwaitInv(s)
    decreases |steps|
  {
    if steps == [] then []
    else
      ApplyKeeps(s, steps[0]);
      Hearing(s, steps[0], w) + Heard(Apply(s, steps[0]), steps[1..], w)
  }

  predicate WaitOver<C>(pc: WaiterPc<C>) {
    pc.Succeeded? || pc.Failed?
  }

  predicate Agrees<C>(v: Verdict, pc: WaiterPc<C>) {
    match v
    case Found => pc.Succeeded?
    case GaveUp => pc.Failed?
    case StillWaiting => pc.Listening?
  }

  /** What the loop makes of at most one event. */
  ghost predicate Moved<C>(pc: WaiterPc<C>, heard: seq<BusEvent>, peerId: string, pc': WaiterPc<C>)
    requires pc.Listening?
  {
    if heard == [] then pc' == pc
    else
      && |heard| == 1
      && (if FromPeer(heard[0], peerId) then (if pc.late then pc'.Failed? else pc'.Succeeded?)
          else if Late(heard[0], peerId, pc.end) then pc'.Failed?
          else pc' == Listening(pc.late || heard[0].TimerFires?, pc.end))
  }

  /** Only its own events move a waiter that has looked. */
  lemma WaiterRests<C, D>(s: Joint<C, D>, step: Step<C, D>, w: nat)
    requires R.Base(s.relay.reg) && w in s.waiters && !s.waiters[w].pc.Published? && Hearing(s, step, w) == []
    ensures w in Apply(s, step).waiters && Apply(s, step).waiters[w] == s.waiters[w]
  {
    hide R.Base, R.Apply, R.Deliver, CloseConn, FindOrCreate, AfterCheck, AfterMessage;
  }

  /** They move it as the loop says. */
  lemma WaiterHears<C, D>(s: Joint<C, D>, step: Step<C, D>, w: nat)
    requires R.Base(s.relay.reg) && Waits(s, w) && Hearing(s, step, w) != []
    requires s.waiters[w].pc.Listening? ==> AwaitedId(s, w).Some?
    ensures s.waiters[w].pc.Listening? && w in Apply(s, step).waiters
    ensures Apply(s, step).waiters[w].(pc := s.waiters[w].pc) == s.waiters[w]
    ensures Moved(s.waiters[w].pc, Hearing(s, step, w), AwaitedId(s, w).value, Apply(s, step).waiters[w].pc)
  {
    hide R.Base;
  }

  /** The id a waiter looks for never changes. */
  lemma AwaitedIdStays<C, D>(s: Joint<C, D>, step: Step<C, D>, w: nat)
    requires WeakInv(s) && AwaitInv(s) && w in s.waiters && w in Apply(s, step).waiters
    requires Apply(s, step).waiters[w].(pc := s.waiters[w].pc) == s.waiters[w]
    ensures Waits(s, w) && Waits(Apply(s, step), w) && AwaitedId(Apply(s, step), w) == AwaitedId(s, w)
  {
    StepAges(s, step);
    assert ClientOf(s.relay, s.waiters[w].client, s.waiters[w].conn);
    hide WeakInv, AwaitInv, R.Base, Apply, PeerClientId, RelayAges;
    AgesKeepsClientOf(s.relay, Apply(s, step).relay, s.waiters[w].client, s.waiters[w].conn);
  }

  lemma StepAges<C, D>(s: Joint<C, D>, step: Step<C, D>)
    requires WeakInv(s) && AwaitInv(s)
    ensures RelayAges(s.relay, Apply(s, step).relay)
  {
    if Enabled(s, step) && !IsAwait(step) {
      hide WeakInv, AwaitInv, RelayAges;
      match step
      case RelayFinds(c, d, a) => FindsAges(s, c, d, a);
      case RelayRegisters => RegistersAges(s);
      case RelayRefuses(c) => RefusesAges(s, c);
      case SessionStep(st) => SessionStepAges(s, st);
      case ConnCloses(d) => ConnClosesAges(s, d);
      case _ => SameRelayAges(s.relay);
    } else {
      SameRelayAges(s.relay);
      hide WeakInv, AwaitInv, RelayAges, R.Base;
    }
  }

  lemma SameRelayAges<C, D>(s: Relay<C, D>)
    ensures RelayAges(s, s)
  {
  }

  lemma OverRests<C, D>(s: Joint<C, D>, step: Step<C, D>, w: nat)
    requires WeakInv(s) && AwaitInv(s) && w in s.waiters && WaitOver(s.waiters[w].pc)
    ensures Hearing(s, step, w) == [] && w in Apply(s, step).waiters && Apply(s, step).waiters[w] == s.waiters[w]
  {
    hide WeakInv, AwaitInv, R.Base;
    assert Hearing(s, step, w) == [];
    WaiterRests(s, step, w);
  }

  lemma {:induction false} OverStaysOver<C, D>(s: Joint<C, D>, steps: seq<Step<C, D>>, w: nat)
    requires WeakInv(s) && AwaitInv(s) && w in s.waiters && WaitOver(s.waiters[w].pc)
    ensures Heard(s, steps, w) == [] && w in Exec(s, steps).waiters && Exec(s, steps).waiters[w] == s.waiters[w]
    decreases |steps|
  {
    hide WeakInv, AwaitInv, ClientsListed, Apply, Hearing;
    if steps != [] {
      ApplyKeeps(s, steps[0]);
      OverRests(s, steps[0], w);
      OverStaysOver(Apply(s, steps[0]), steps[1..], w);
    }
  }

  lemma WaiterMoves<C, D>(s: Joint<C, D>, step: Step<C, D>, w: nat)
    requires WeakInv(s) && AwaitInv(s) && w in s.waiters && s.waiters[w].pc.Listening?
    ensures Waits(s, w) && AwaitedId(s, w).Some? && w in Apply(s, step).waiters
    ensures Waits(Apply(s, step), w) && AwaitedId(Apply(s, step), w) == AwaitedId(s, w)
    ensures Moved(s.waiters[w].pc, Hearing(s, step, w), AwaitedId(s, w).value, Apply(s, step).waiters[w].pc)
  {
    assert ClientOf(s.relay, s.waiters[w].client, s.waiters[w].conn) && AwaitedId(s, w).Some?;
    hide WeakInv, AwaitInv, R.Base, Apply, Hearing, AwaitedId;
    if Hearing(s, step, w) == [] { WaiterRests(s, step, w); } else { WaiterHears(s, step, w); }
    AwaitedIdStays(s, step, w);
  }

  /** One turn of the loop. */
  lemma LoopMoves<C>(pc: WaiterPc<C>, heard: seq<BusEvent>, peerId: string, mid: WaiterPc<C>, rest: seq<BusEvent>,
    now: int, last: WaiterPc<C>)
    requires pc.Listening? && now < pc.end && Moved(pc, heard, peerId, mid)
    requires var now' := if heard != [] && heard[0].Message? then heard[0].now else now;
      if mid.Listening? then now' < mid.end ==> Agrees(AwaitLoop(rest, peerId, now', mid.end, mid.late), last)
      else last == mid
    ensures Agrees(AwaitLoop(heard + rest, peerId, now, pc.end, pc.late), last)
  {
    if heard == [] {
      assert heard + rest == rest;
    } else {
      assert (heard + rest)[1..] == rest;
      if Late(heard[0], peerId, pc.end) {
        assert AwaitLoop(rest, peerId, heard[0].now, pc.end, pc.late) == GaveUp;
      }
    }
  }

  /**
   * However the steps of a run interleave: what becomes of a listening waiter is what the loop of
   * `awaitPeer` makes of the messages and timers that the run brings to it.
   */
  lemma {:induction false} WaiterRunsLoop<C, D>(s: Joint<C, D>, steps: seq<Step<C, D>>, w: nat, now: int)
    requires WeakInv(s) && AwaitInv(s) && w in s.waiters && s.waiters[w].pc.Listening? && now < s.waiters[w].pc.end
    ensures Waits(s, w) && AwaitedId(s, w).Some? && w in Exec(s, steps).waiters
    ensures var pc := s.waiters[w].pc;
      Agrees(AwaitLoop(Heard(s, steps, w), AwaitedId(s, w).value, now, pc.end, pc.late), Exec(s, steps).waiters[w].pc)
    decreases |steps|
  {
    hide WeakInv, AwaitInv, ClientsListed, Apply, Hearing, AwaitedId;
    WaiterMoves(s, if steps == [] then AwaitTimerFires(w) else steps[0], w);
    if steps != [] {
      ApplyKeeps(s, steps[0]);
      var s1, rest, heard := Apply(s, steps[0]), steps[1..], Hearing(s, steps[0], w);
      var now' := if heard != [] && heard[0].Message? then heard[0].now else now;
      if !s1.waiters[w].pc.Listening? {
        OverStaysOver(s1, rest, w);
      } else if now' < s1.waiters[w].pc.end {
        WaiterRunsLoop(s1, rest, w, now');
      }
      LoopMoves(s.waiters[w].pc, heard, AwaitedId(s, w).value, s1.waiters[w].pc, Heard(s1, rest, w), now,
        Exec(s1, rest).waiters[w].pc);
    }
  }

  /** `awaitPeer` from its look at the registry on: it succeeds at once if the other side is there,
      fails at once if it cannot subscribe, and is the loop otherwise. */
  ghost function WaitLoop<C, D>(s: Joint<C, D>, w: nat, now: int, heard: seq<BusEvent>): Verdict
    requires Waits(s, w)
  {
    var conn, id := s.relay.conns[s.waiters[w].conn], s.relay.reg.sessions[s.waiters[w].client].id;
    if GetPeerClient(s.relay, conn, id).Some? then Verdict.Found
    else match PeerClientId(conn, id)
      case None => GaveUp
      case Some(peerId) =>
        if conn.closed then GaveUp else AwaitLoop(heard, peerId, now, now + 15, false)
  }

  lemma CheckIs<C, D>(s: Joint<C, D>, w: nat, now: int)
    requires R.Base(s.relay.reg) && Enabled(s, AwaitChecks(w, now))
    ensures var s1 := Apply(s, AwaitChecks(w, now));
      && s1 == SetWaiter(s, w, AfterCheck(s, w, now)) && Waits(s, w) && w in s1.waiters
      && s1.waiters[w].pc == AfterCheck(s, w, now) && Waits(s1, w) && AwaitedId(s1, w) == AwaitedId(s, w)
  {
    hide R.Base, AfterCheck, PeerClientId;
  }

  lemma AfterCheckEnds<C, D>(s: Joint<C, D>, w: nat, now: int)
    requires Waits(s, w)
    ensures var pc := AfterCheck(s, w, now); !pc.Published? && (pc.Listening? ==> now < pc.end)
  {
  }

  /** What the look decides, and how the loop starts. */
  lemma CheckThenLoop<C, D>(s: Joint<C, D>, w: nat, now: int, heard: seq<BusEvent>, last: WaiterPc<C>)
    requires Waits(s, w)
    requires var pc := AfterCheck(s, w, now);
      if pc.Listening? then
        AwaitedId(s, w).Some? && Agrees(AwaitLoop(heard, AwaitedId(s, w).value, now, pc.end, pc.late), last)
      else last == pc
    ensures Agrees(WaitLoop(s, w, now, heard), last)
  {
  }

  lemma HeadOfRun<C, D>(s: Joint<C, D>, steps: seq<Step<C, D>>, w: nat)
    requires WeakInv(s) && AwaitInv(s) && steps != []
    ensures var s1 := Apply(s, steps[0]);
      && WeakInv(s1) && AwaitInv(s1) && Exec(s, steps) == Exec(s1, steps[1..])
      && Heard(s, steps, w) == Hearing(s, steps[0], w) + Heard(s1, steps[1..], w)
  {
    hide WeakInv, AwaitInv, Apply, ClientsListed, Hearing;
    ApplyKeeps(s, steps[0]);
  }

  /** What becomes of a waiter that has looked. */
  lemma RestOfWait<C, D>(s: Joint<C, D>, steps: seq<Step<C, D>>, w: nat, now: int)
    requires WeakInv(s) && AwaitInv(s) && w in s.waiters && !s.waiters[w].pc.Published?
    requires s.waiters[w].pc.Listening? ==> now < s.waiters[w].pc.end
    ensures w in Exec(s, steps).waiters
    ensures var pc, last := s.waiters[w].pc, Exec(s, steps).waiters[w].pc;
      if pc.Listening? then
        && Waits(s, w) && AwaitedId(s, w).Some?
        && Agrees(AwaitLoop(Heard(s, steps, w), AwaitedId(s, w).value, now, pc.end, pc.late), last)
      else last == pc
  {
    hide WeakInv, AwaitInv, AwaitLoop;
    if s.waiters[w].pc.Listening? {
      WaiterRunsLoop(s, steps, w, now);
    } else {
      OverStaysOver(s, steps, w);
    }
  }

  /** So a wait of a run, once it has published its client, is that loop. */
  lemma WaitIsTheLoop<C, D>(s: Joint<C, D>, steps: seq<Step<C, D>>, w: nat, now: int)
    requires WeakInv(s) && AwaitInv(s) && Waits(s, w) && s.waiters[w].pc.Published?
    requires steps != [] && steps[0] == AwaitChecks(w, now)
    ensures w in Exec(s, steps).waiters
    ensures Agrees(WaitLoop(s, w, now, Heard(s, steps, w)), Exec(s, steps).waiters[w].pc)
  {
    CheckIs(s, w, now);
    assert Hearing(s, steps[0], w) == [];
    hide WeakInv, AwaitInv, Apply, AfterCheck, AwaitedId, AwaitLoop, WaitLoop, Hearing, Agrees, Enabled, Waits,
      SetWaiter;
    HeadOfRun(s, steps, w);
    hide Exec, Heard;
    AfterCheckEnds(s, w, now);
    var s1, rest := Apply(s, steps[0]), steps[1..];
    assert [] + Heard(s1, rest, w) == Heard(s1, rest, w);
    RestOfWait(s1, rest, w, now);
    CheckThenLoop(s, w, now, Heard(s1, rest, w), Exec(s1, rest).waiters[w].pc);
  }
}
