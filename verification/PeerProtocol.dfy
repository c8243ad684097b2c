/**
 * The target's side of direct connections as a state machine (`p2p/client`): offers are accepted,
 * the other side's clients come to the peer server, are validated and check in, connections wait
 * for them, time out and are closed, all in any order.
 */
module PeerProtocol {
  import opened Prelude
  import opened BrokerSpec
  import R = Registry

  /** A direct connection (`p2pConn`) as the target uses it: the one-place channel of check-ins, and
      the client that was taken from it. */
  datatype Direct<C> = Direct(chan: Option<C>, remote: Option<C>, connected: bool, closed: bool)

  /** `checkinRemoteClient`. */
  function CheckIn<C>(d: Direct<C>, c: C): (Direct<C>, bool) {
    if d.connected || d.remote.Some? then (d, false)
    else (d.(chan := if d.chan.None? then Some(c) else d.chan), true)
  }

  /** `awaitRemoteConnection` when a check-in is there. */
  function Take<C>(d: Direct<C>): Direct<C>
    requires d.chan.Some?
  {
    d.(chan := None, remote := d.chan, connected := true)
  }

  /** How far `connect` has got; it holds the connection's mutex while it waits. */
  datatype Phase = Idle | Awaiting | Over

  /** A connection of the target. `closing`: some goroutine is about to call `Close`. `early`: it was
      closed before `connect` began, while it was listed. */
  datatype End<C> = End(conn: PeerConn, addrs: seq<string>, direct: Option<Direct<C>>, phase: Phase, closing: bool,
    closed: bool, early: bool)

  /** The remote address of a session: its IP, and as a whole. */
  datatype Address = Address(ip: string, text: string)

  /** `vouched`: the connection a session was validated for; `taken`: the check-ins that were taken. */
  datatype Sys<C(==), E(==)> = Sys(
    reg: R.State<C>, addresses: map<C, Address>, conns: map<string, E>, ends: map<E, End<C>>,
    active: set<C>, vouched: map<C, E>, taken: seq<(E, C)>)

  datatype Step<+C, +E> =
    | ClientArrives(c: C, sessionId: string, address: Address)
    | ClientValidates(c: C, token: string)
    | SessionStep(step: R.Step<C>)
    | Offered(e: E, owner: string, offer: Offer, addrs: seq<string>)
    | ConnectBegins(e: E)
    | ChecksIn(c: C)
    | Takes(e: E)
    | TimesOut(e: E)
    | Drops(id: string)
    | CloseRequested(e: E)
    | Closes(e: E)
    | Disconnects(c: C)

  ghost function Init<C, E>(cfg: R.Config): Sys<C, E> {
    Sys(R.Init(cfg), map[], map[], map[], {}, map[], [])
  }

  ghost predicate Enabled<C, E>(s: Sys<C, E>, step: Step<C, E>) {
    match step
    case ClientArrives(c, sessionId, _) => R.Enabled(s.reg, R.NewSession(c, sessionId))
    case ClientValidates(c, _) => c in s.reg.sessions && s.reg.sessions[c].reading && c in s.addresses
    case SessionStep(st) => !st.NewSession? && !(st.Receive? && st.msg.Validate?)
    case Offered(e, _, _, _) => e !in s.ends
    case ConnectBegins(e) => e in s.ends && s.ends[e].phase == Idle && s.ends[e].conn.mode == MODE_P2P
    case ChecksIn(c) =>
      && c in s.reg.sessions && s.reg.sessions[c].initialized && s.reg.sessions[c].ctx.P2PContext?
      && (Listed(s, c).Some? ==> Listed(s, c).value in s.ends && s.ends[Listed(s, c).value].direct.Some?)
    case Takes(e) => e in s.ends && s.ends[e].phase == Awaiting && s.ends[e].direct.Some?
      && s.ends[e].direct.value.chan.Some?
    case TimesOut(e) => e in s.ends && s.ends[e].phase == Awaiting
    case Drops(id) => id in s.conns ==> s.conns[id] in s.ends
    case CloseRequested(e) => e in s.ends
    case Closes(e) =>
      && e in s.ends && s.ends[e].closing && !s.ends[e].closed && s.ends[e].phase != Awaiting
      && (s.ends[e].direct.Some? && s.ends[e].direct.value.remote.Some? ==>
        s.ends[e].direct.value.remote.value in s.reg.sessions)
    case Disconnects(c) =>
      && c in s.reg.sessions && R.DisconnectedCalled(c) in s.reg.events && s.reg.sessions[c].ctx.P2PContext?
      && (Listed(s, c).Some? ==> Listed(s, c).value in s.ends)
  }

  /** The table leads to this connection. */
  ghost predicate IsListed<C, E>(s: Sys<C, E>, e: E)
    requires e in s.ends
  {
    s.ends[e].conn.id in s.conns && s.conns[s.ends[e].conn.id] == e
  }

  /** The connection listed under the id a client was validated for. */
  ghost function Listed<C, E>(s: Sys<C, E>, c: C): Option<E>
    requires c in s.reg.sessions && s.reg.sessions[c].ctx.P2PContext?
  {
    var id := s.reg.sessions[c].ctx.connId;
    if id in s.conns then Some(s.conns[id]) else None
  }

  /** `clientValidateHandler`: the connection named by the token must be a direct one that is being
      set up, and the client must come from one of the peer's addresses. */
  predicate Admits(conn: PeerConn, settingUp: bool, addrs: seq<string>, address: Address) {
    conn.mode == MODE_P2P && settingUp && address.ip in addrs
  }

  ghost predicate AdmittedBy<C, E>(s: Sys<C, E>, token: string, address: Address) {
    token in s.conns && s.conns[token] in s.ends
    && var end := s.ends[s.conns[token]]; Admits(end.conn, end.direct.Some?, end.addrs, address)
  }

  function DataFor(conn: PeerConn, address: Address): R.ClientData {
    R.ClientData(conn.id + ":" + address.text, map[], R.P2PContext(conn.id, conn.peer))
  }

  ghost function Validated<C, E>(s: Sys<C, E>, c: C, token: string): Sys<C, E>
    requires R.Base(s.reg) && c in s.reg.sessions && c in s.addresses
  {
    if AdmittedBy(s, token, s.addresses[c]) && !s.reg.sessions[c].initialized then
      var e := s.conns[token];
      s.(reg := R.Deliver(s.reg, c, R.Validate(Some(DataFor(s.ends[e].conn, s.addresses[c])))),
        vouched := s.vouched[c := e])
    else s.(reg := R.Deliver(s.reg, c, R.Validate(None)))
  }

  function ClosedEnd<C>(end: End<C>, listed: bool): End<C> {
    end.(direct := None, closed := true, early := end.phase == Idle && listed)
  }

  ghost function SetEnd<C, E>(s: Sys<C, E>, e: E, end: End<C>): Sys<C, E> {
    s.(ends := s.ends[e := end])
  }

  /** `clientInitHandler`. */
  ghost function CheckedIn<C, E>(s: Sys<C, E>, c: C): Sys<C, E>
    requires Enabled(s, ChecksIn(c))
  {
    match Listed(s, c)
    case None => s
    case Some(e) =>
      var (d, ok) := CheckIn(s.ends[e].direct.value, c);
      SetEnd(s, e, s.ends[e].(direct := Some(d))).(active := if ok then s.active + {c} else s.active)
  }

  /** `CloseConnection` of the manager: the entry goes at once, the close once the mutex is free. */
  ghost function Dropped<C, E>(s: Sys<C, E>, id: string): Sys<C, E>
    requires Enabled(s, Drops(id))
  {
    if id !in s.conns then s
    else SetEnd(s, s.conns[id], s.ends[s.conns[id]].(closing := true)).(conns := s.conns - {id})
  }

  /** `Close` of the connection, with the client it uses. Nothing keeps it from coming before
      `connect` begins: an application may have the connection of a message stream that names it. */
  ghost function Closed<C, E>(s: Sys<C, E>, e: E): Sys<C, E>
    requires R.Base(s.reg) && Enabled(s, Closes(e))
  {
    var end := s.ends[e];
    SetEnd(s, e, ClosedEnd(end, IsListed(s, e))).(
      reg := if end.direct.Some? && end.direct.value.remote.Some? then R.Close(s.reg, end.direct.value.remote.value)
        else s.reg)
  }

  ghost function Apply<C, E>(s: Sys<C, E>, step: Step<C, E>): Sys<C, E>
    requires R.Base(s.reg)
  {
    if !Enabled(s, step) then s
    else match step
      case ClientArrives(c, sessionId, address) =>
        s.(reg := R.Accept(s.reg, c, sessionId), addresses := s.addresses[c := address])
      case ClientValidates(c, token) => Validated(s, c, token)
      case SessionStep(st) => s.(reg := R.Apply(s.reg, st))
      case Offered(e, owner, offer, addrs) =>
        SetEnd(s, e, End(AcceptedConn(owner, offer), addrs, None, Idle, false, false, false)).(
          conns := s.conns[offer.id := e])
      case ConnectBegins(e) =>
        SetEnd(s, e, s.ends[e].(phase := Awaiting, direct := Some(Direct(None, None, false, false))))
      case ChecksIn(c) => CheckedIn(s, c)
      case Takes(e) =>
        SetEnd(s, e, s.ends[e].(phase := Over, direct := Some(Take(s.ends[e].direct.value)))).(
          taken := s.taken + [(e, s.ends[e].direct.value.chan.value)])
      case TimesOut(e) => SetEnd(s, e, s.ends[e].(phase := Over, direct := None, closing := true))
      case Drops(id) => Dropped(s, id)
      case CloseRequested(e) => SetEnd(s, e, s.ends[e].(closing := true))
      case Closes(e) => Closed(s, e)
      case Disconnects(c) => if c in s.active then Dropped(s, s.reg.sessions[c].ctx.connId) else s
  }

  // ----- the invariant ----------------------------------------------------------------------

  /** Every validated session came for a connection we had, under its id and for its peer, and from
      one of that peer's addresses. */
  ghost predicate VouchedOk<C, E>(s: Sys<C, E>) {
    && (forall c | c in s.addresses :: c in s.reg.sessions)
    && (forall c | c in s.reg.sessions && s.reg.sessions[c].initialized ::
      && c in s.vouched && s.vouched[c] in s.ends && c in s.addresses
      && s.reg.sessions[c].ctx == R.P2PContext(s.ends[s.vouched[c]].conn.id, s.ends[s.vouched[c]].conn.peer)
      && s.addresses[c].ip in s.ends[s.vouched[c]].addrs)
  }

  ghost predicate ListOk<C, E>(s: Sys<C, E>) {
    forall id | id in s.conns :: s.conns[id] in s.ends && s.ends[s.conns[id]].conn.id == id
  }

  /** A session validated for a connection with this id. */
  ghost predicate ForId<C>(reg: R.State<C>, c: C, id: string) {
    c in reg.sessions && reg.sessions[c].initialized && reg.sessions[c].ctx.P2PContext?
      && reg.sessions[c].ctx.connId == id
  }

  ghost predicate DirectOk<C>(reg: R.State<C>, end: End<C>) {
    end.direct.Some? ==>
      && (end.direct.value.chan.Some? ==> ForId(reg, end.direct.value.chan.value, end.conn.id))
      && (end.direct.value.remote.Some? ==> ForId(reg, end.direct.value.remote.value, end.conn.id))
      && (end.direct.value.connected <==> end.direct.value.remote.Some?)
  }

  predicate PhaseOk<C>(end: End<C>) {
    && (end.phase == Idle ==> end.direct.None?)
    && (end.phase == Awaiting ==> end.direct.Some? && !end.direct.value.connected)
    && (end.phase == Over && end.direct.Some? ==> end.direct.value.connected)
    && (end.closed ==> end.closing)
  }

  /** It is closed, and nobody can check in any more. */
  ghost predicate Settled<C, E>(s: Sys<C, E>, e: E)
    requires e in s.ends
  {
    && s.ends[e].closed && (s.ends[e].phase != Over ==> !IsListed(s, e))
    && (s.ends[e].direct.Some? ==> s.ends[e].phase == Awaiting && s.ends[e].direct.value.chan.None?)
  }

  /** A close is the end of the connection unless it came early. */
  ghost predicate ClosingOk<C, E>(s: Sys<C, E>, e: E)
    requires e in s.ends
  {
    (s.ends[e].closed && !s.ends[e].early ==> Settled(s, e)) && (s.ends[e].early ==> s.ends[e].closed)
  }

  /** What was taken, was taken by a wait that is over; each wait took one; the client is closed
      with the connection. */
  ghost predicate TakenOk<C, E>(s: Sys<C, E>) {
    && (forall i | 0 <= i < |s.taken| :: s.taken[i].0 in s.ends && s.ends[s.taken[i].0].phase == Over)
    && (forall i, j | 0 <= i < j < |s.taken| :: s.taken[i].0 != s.taken[j].0)
    && (forall e | e in s.ends && s.ends[e].direct.Some? && s.ends[e].direct.value.remote.Some? ::
          (e, s.ends[e].direct.value.remote.value) in s.taken)
  }

  function RemoteOf<C>(end: End<C>): Option<C> {
    if end.direct.Some? then end.direct.value.remote else None
  }

  /** A client that was taken is in use until it is closed. */
  ghost predicate ClientsClosed<C, E>(s: Sys<C, E>) {
    forall i | 0 <= i < |s.taken| && s.taken[i].0 in s.ends ::
      || (s.taken[i].1 in s.reg.sessions && s.reg.sessions[s.taken[i].1].closed)
      || RemoteOf(s.ends[s.taken[i].0]) == Some(s.taken[i].1)
  }

  ghost predicate EndsOk<C, E>(s: Sys<C, E>) {
    forall e | e in s.ends :: DirectOk(s.reg, s.ends[e]) && PhaseOk(s.ends[e]) && ClosingOk(s, e)
  }

  ghost predicate SysInv<C, E>(s: Sys<C, E>): (r: bool)
    ensures r ==> R.Base(s.reg)
  {
    && R.Base(s.reg) && R.EventInv(s.reg)
    && VouchedOk(s) && ListOk(s) && EndsOk(s) && TakenOk(s) && ClientsClosed(s)
  }

  // ----- steps of sessions ------------------------------------------------------------------

  /** What sessions may do without the connections noticing. */
  lemma SessionsMayAge<C, E>(s: Sys<C, E>, reg: R.State<C>)
    requires VouchedOk(s) && EndsOk(s) && ListOk(s) && TakenOk(s) && ClientsClosed(s) && R.Ages(s.reg, reg)
    ensures var s' := s.(reg := reg); VouchedOk(s') && EndsOk(s') && ListOk(s') && TakenOk(s') && ClientsClosed(s')
  {
    hide PhaseOk;
  }

  lemma SessionStepKeeps<C, E>(s: Sys<C, E>, step: R.Step<C>)
    requires SysInv(s)
    ensures SysInv(Apply(s, SessionStep(step)))
  {
    hide R.Base, R.EventInv, R.Apply, R.Ages, VouchedOk, EndsOk, ListOk, TakenOk, ClientsClosed;
    if Enabled(s, SessionStep(step)) {
      R.ApplyKeeps(s.reg, step);
      R.StepAges(s.reg, step);
      SessionsMayAge(s, R.Apply(s.reg, step));
    }
  }

  lemma AcceptAges<C>(reg: R.State<C>, c: C, sessionId: string)
    requires R.Base(reg) && R.EventInv(reg) && R.Enabled(reg, R.NewSession(c, sessionId))
    ensures var reg' := R.Accept(reg, c, sessionId);
      R.Base(reg') && R.EventInv(reg') && R.Ages(reg, reg') && c !in reg.sessions && c in reg'.sessions
  {
    R.AcceptKeeps(reg, c, sessionId);
    R.StepAges(reg, R.NewSession(c, sessionId));
    hide R.Base, R.EventInv;
  }

  lemma ArrivesKeeps<C, E>(s: Sys<C, E>, c: C, sessionId: string, address: Address)
    requires SysInv(s)
    ensures SysInv(Apply(s, ClientArrives(c, sessionId, address)))
  {
    hide R.Base, R.EventInv, R.Ages, R.Enabled, VouchedOk, EndsOk, ListOk, TakenOk, ClientsClosed;
    if Enabled(s, ClientArrives(c, sessionId, address)) {
      AcceptAges(s.reg, c, sessionId);
      assert c !in s.addresses by { Unknown(s, c); }
      hide R.Accept;
      SessionsMayAge(s, R.Accept(s.reg, c, sessionId));
      AddressesDoNotMatter(s.(reg := R.Accept(s.reg, c, sessionId)), c, s.addresses[c := address]);
    }
  }

  lemma Unknown<C, E>(s: Sys<C, E>, c: C)
    requires VouchedOk(s) && c !in s.reg.sessions
    ensures c !in s.addresses
  {
  }

  lemma AddressesDoNotMatter<C, E>(s: Sys<C, E>, c: C, addresses: map<C, Address>)
    requires VouchedOk(s) && EndsOk(s) && ListOk(s) && TakenOk(s) && ClientsClosed(s)
    requires c in s.reg.sessions && c !in s.addresses && c in addresses && addresses == s.addresses[c := addresses[c]]
    ensures var s' := s.(addresses := addresses);
      VouchedOk(s') && EndsOk(s') && ListOk(s') && TakenOk(s') && ClientsClosed(s')
  {
    hide DirectOk, PhaseOk;
  }

  lemma ValidatesKeeps<C, E>(s: Sys<C, E>, c: C, token: string)
    requires SysInv(s)
    ensures SysInv(Apply(s, ClientValidates(c, token)))
  {
    hide R.Base, R.EventInv, VouchedOk, EndsOk, ListOk, TakenOk, ClientsClosed;
    if Enabled(s, ClientValidates(c, token)) {
      hide Apply;
      assert Apply(s, ClientValidates(c, token)) == Validated(s, c, token) by { ApplyIsValidated(s, c, token); }
      if AdmittedBy(s, token, s.addresses[c]) && !s.reg.sessions[c].initialized {
        var d := DataFor(s.ends[s.conns[token]].conn, s.addresses[c]);
        R.ValidatedAges(s.reg, c, d);
        hide R.Deliver, R.ValidatedOnly;
        AdmittedKeeps(s, c, d, s.conns[token], R.Deliver(s.reg, c, R.Validate(Some(d))));
      } else {
        NotAdmittedAges(s.reg, c);
        hide R.Deliver, R.Ages;
        SessionsMayAge(s, R.Deliver(s.reg, c, R.Validate(None)));
      }
    }
  }

  lemma ApplyIsValidated<C, E>(s: Sys<C, E>, c: C, token: string)
    requires R.Base(s.reg) && Enabled(s, ClientValidates(c, token))
    ensures Apply(s, ClientValidates(c, token)) == Validated(s, c, token)
  {
  }

  lemma NotAdmittedAges<C>(reg: R.State<C>, c: C)
    requires R.Base(reg) && R.EventInv(reg) && c in reg.sessions && reg.sessions[c].reading
    ensures var reg' := R.Deliver(reg, c, R.Validate(None)); R.Base(reg') && R.EventInv(reg') && R.Ages(reg, reg')
  {
    R.DeliverKeeps(reg, c, R.Validate(None));
    R.CloseAges(reg, c);
    hide R.Base, R.EventInv, R.Close, R.StopReading;
  }

  /** A session was validated for the connection `e`. */
  lemma AdmittedKeeps<C, E>(s: Sys<C, E>, c: C, d: R.ClientData, e: E, reg: R.State<C>)
    requires VouchedOk(s) && EndsOk(s) && ListOk(s) && TakenOk(s) && ClientsClosed(s)
    requires c in s.reg.sessions && !s.reg.sessions[c].initialized && R.ValidatedOnly(s.reg, c, d, reg)
    requires c in s.addresses && e in s.ends && s.addresses[c].ip in s.ends[e].addrs
    requires d == DataFor(s.ends[e].conn, s.addresses[c])
    ensures var s' := s.(reg := reg, vouched := s.vouched[c := e]);
      VouchedOk(s') && EndsOk(s') && ListOk(s') && TakenOk(s') && ClientsClosed(s')
  {
    hide EndsOk, ClientsClosed;
    AdmittedKeepsEnds(s, c, d, e, reg);
  }

  lemma AdmittedKeepsEnds<C, E>(s: Sys<C, E>, c: C, d: R.ClientData, e: E, reg: R.State<C>)
    requires EndsOk(s) && ClientsClosed(s)
    requires c in s.reg.sessions && !s.reg.sessions[c].initialized && R.ValidatedOnly(s.reg, c, d, reg)
    ensures var s' := s.(reg := reg, vouched := s.vouched[c := e]); EndsOk(s') && ClientsClosed(s')
  {
    hide PhaseOk;
    forall k, id | ForId(s.reg, k, id) ensures ForId(reg, k, id) {}
    forall k | k in s.ends ensures DirectOk(reg, s.ends[k]) {
      assert DirectOk(s.reg, s.ends[k]);
      hide ForId;
    }
    hide DirectOk;
  }

  // ----- steps of connections ---------------------------------------------------------------

  /** A connection moves without taking or giving up a client. */
  lemma EndMoves<C, E>(s: Sys<C, E>, e: E, end: End<C>)
    requires VouchedOk(s) && EndsOk(s) && ListOk(s) && TakenOk(s) && ClientsClosed(s) && e in s.ends
    requires end.conn == s.ends[e].conn && end.addrs == s.ends[e].addrs && RemoteOf(end) == RemoteOf(s.ends[e])
    requires (s.ends[e].phase == Over ==> end.phase == Over) && end.closed == s.ends[e].closed
    requires DirectOk(s.reg, end) && PhaseOk(end) && ClosingOk(SetEnd(s, e, end), e)
    ensures var s' := SetEnd(s, e, end); VouchedOk(s') && EndsOk(s') && ListOk(s') && TakenOk(s') && ClientsClosed(s')
  {
    var s' := SetEnd(s, e, end);
    hide DirectOk, PhaseOk;
    assert VouchedOk(s') && ListOk(s');
    hide VouchedOk, ListOk;
    assert EndsOk(s');
    hide EndsOk;
  }

  /** An entry goes from the table. */
  lemma UnlistingKeeps<C, E>(s: Sys<C, E>, id: string)
    requires VouchedOk(s) && EndsOk(s) && ListOk(s) && TakenOk(s) && ClientsClosed(s)
    ensures var s' := s.(conns := s.conns - {id});
      VouchedOk(s') && EndsOk(s') && ListOk(s') && TakenOk(s') && ClientsClosed(s')
  {
    hide DirectOk, PhaseOk;
  }

  lemma ActiveIsFree<C, E>(s: Sys<C, E>, active: set<C>)
    requires SysInv(s)
    ensures SysInv(s.(active := active))
  {
    hide DirectOk, PhaseOk, R.Base, R.EventInv;
  }

  lemma OfferedKeeps<C, E>(s: Sys<C, E>, e: E, owner: string, offer: Offer, addrs: seq<string>)
    requires SysInv(s)
    ensures SysInv(Apply(s, Offered(e, owner, offer, addrs)))
  {
    hide R.Base, R.EventInv, EndsOk, TakenOk, ClientsClosed;
    if e !in s.ends {
      OfferedKeepsEnds(s, e, owner, offer, addrs);
      OfferedKeepsTaken(s, e, owner, offer, addrs);
    }
  }

  lemma OfferedKeepsEnds<C, E>(s: Sys<C, E>, e: E, owner: string, offer: Offer, addrs: seq<string>)
    requires EndsOk(s) && ListOk(s) && e !in s.ends && R.Base(s.reg)
    ensures EndsOk(Apply(s, Offered(e, owner, offer, addrs)))
  {
    hide R.Base, DirectOk, PhaseOk;
    var s' := Apply(s, Offered(e, owner, offer, addrs));
    assert DirectOk(s'.reg, s'.ends[e]) && PhaseOk(s'.ends[e]) && ClosingOk(s', e) by { FreshEndOk(s.reg, s'.ends[e]); }
  }

  lemma FreshEndOk<C>(reg: R.State<C>, end: End<C>)
    requires end.direct.None? && end.phase == Idle && !end.closed && !end.early
    ensures DirectOk(reg, end) && PhaseOk(end)
  {
  }

  lemma OfferedKeepsTaken<C, E>(s: Sys<C, E>, e: E, owner: string, offer: Offer, addrs: seq<string>)
    requires TakenOk(s) && ClientsClosed(s) && e !in s.ends && R.Base(s.reg)
    ensures TakenOk(Apply(s, Offered(e, owner, offer, addrs)))
      && ClientsClosed(Apply(s, Offered(e, owner, offer, addrs)))
  {
    hide R.Base;
  }

  lemma MovesKeeps<C, E>(s: Sys<C, E>, step: Step<C, E>)
    requires SysInv(s) && (step.ConnectBegins? || step.TimesOut? || step.CloseRequested?)
    ensures SysInv(Apply(s, step))
  {
    hide R.Base, R.EventInv, VouchedOk, ListOk, TakenOk, ClientsClosed;
    if Enabled(s, step) {
      EndMoves(s, step.e, Apply(s, step).ends[step.e]);
    }
  }

  lemma ChecksInKeeps<C, E>(s: Sys<C, E>, c: C)
    requires SysInv(s)
    ensures SysInv(Apply(s, ChecksIn(c)))
  {
    hide R.Base, R.EventInv, VouchedOk, TakenOk, ClientsClosed;
    if Enabled(s, ChecksIn(c)) && Listed(s, c).Some? {
      var e := Listed(s, c).value;
      var (d, ok) := CheckIn(s.ends[e].direct.value, c);
      var end := s.ends[e].(direct := Some(d));
      EndMoves(s, e, end);
      hide EndsOk, ListOk;
      ActiveIsFree(SetEnd(s, e, end), if ok then s.active + {c} else s.active);
    }
  }

  lemma DropsKeeps<C, E>(s: Sys<C, E>, id: string)
    requires SysInv(s) && Enabled(s, Drops(id))
    ensures SysInv(Dropped(s, id))
  {
    hide R.Base, R.EventInv, VouchedOk, TakenOk, ClientsClosed;
    if id in s.conns {
      var e := s.conns[id];
      UnlistingKeeps(s, id);
      EndMoves(s.(conns := s.conns - {id}), e, s.ends[e].(closing := true));
      assert Dropped(s, id) == SetEnd(s.(conns := s.conns - {id}), e, s.ends[e].(closing := true));
    }
  }

  lemma TakesKeeps<C, E>(s: Sys<C, E>, e: E)
    requires SysInv(s)
    ensures SysInv(Apply(s, Takes(e)))
  {
    hide R.Base, R.EventInv, EndsOk, TakenOk, ClientsClosed;
    if Enabled(s, Takes(e)) {
      TakesKeepsEnds(s, e);
      TakesKeepsTaken(s, e);
    }
  }

  lemma TakesKeepsEnds<C, E>(s: Sys<C, E>, e: E)
    requires EndsOk(s) && Enabled(s, Takes(e)) && R.Base(s.reg)
    ensures EndsOk(Apply(s, Takes(e)))
  {
    hide R.Base;
    var s' := Apply(s, Takes(e));
    assert ClosingOk(s, e) && DirectOk(s.reg, s.ends[e]) && PhaseOk(s.ends[e]);
    assert DirectOk(s'.reg, s'.ends[e]) && PhaseOk(s'.ends[e]) && ClosingOk(s', e);
    hide DirectOk, PhaseOk;
  }

  lemma TakesKeepsTaken<C, E>(s: Sys<C, E>, e: E)
    requires EndsOk(s) && TakenOk(s) && ClientsClosed(s) && Enabled(s, Takes(e)) && R.Base(s.reg)
    ensures TakenOk(Apply(s, Takes(e))) && ClientsClosed(Apply(s, Takes(e)))
  {
    hide R.Base;
    var s' := Apply(s, Takes(e));
    hide EndsOk;
    assert forall i | 0 <= i < |s.taken| :: s'.taken[i] == s.taken[i] && s.taken[i].0 != e;
  }

  lemma ClosesKeeps<C, E>(s: Sys<C, E>, e: E)
    requires SysInv(s)
    ensures SysInv(Apply(s, Closes(e)))
  {
    if Enabled(s, Closes(e)) {
      var reg := Closed(s, e).reg;
      assert R.Base(reg) && R.EventInv(reg) && R.Ages(s.reg, reg) by {
        if RemoteOf(s.ends[e]).Some? {
          R.CloseKeeps(s.reg, RemoteOf(s.ends[e]).value);
          R.CloseAges(s.reg, RemoteOf(s.ends[e]).value);
        }
      }
      assert RemoteOf(s.ends[e]).Some? ==>
        RemoteOf(s.ends[e]).value in reg.sessions && reg.sessions[RemoteOf(s.ends[e]).value].closed;
      hide R.Base, R.EventInv, R.Ages, R.Close, VouchedOk, EndsOk, ListOk, TakenOk, ClientsClosed;
      SessionsMayAge(s, reg);
      EndCloses(s.(reg := reg), e);
    }
  }

  lemma EndCloses<C, E>(s: Sys<C, E>, e: E)
    requires VouchedOk(s) && EndsOk(s) && ListOk(s) && TakenOk(s) && ClientsClosed(s) && e in s.ends
    requires s.ends[e].closing && s.ends[e].phase != Awaiting
    requires RemoteOf(s.ends[e]).Some? ==>
      RemoteOf(s.ends[e]).value in s.reg.sessions && s.reg.sessions[RemoteOf(s.ends[e]).value].closed
    ensures var s' := SetEnd(s, e, ClosedEnd(s.ends[e], IsListed(s, e)));
      VouchedOk(s') && EndsOk(s') && ListOk(s') && TakenOk(s') && ClientsClosed(s')
  {
    hide EndsOk, TakenOk, ClientsClosed;
    EndClosesEnds(s, e);
    EndClosesTaken(s, e);
  }

  lemma EndClosesEnds<C, E>(s: Sys<C, E>, e: E)
    requires EndsOk(s) && e in s.ends && s.ends[e].closing && s.ends[e].phase != Awaiting
    ensures EndsOk(SetEnd(s, e, ClosedEnd(s.ends[e], IsListed(s, e))))
  {
    var end := ClosedEnd(s.ends[e], IsListed(s, e));
    assert ClosingOk(s, e) && PhaseOk(s.ends[e]);
    assert DirectOk(s.reg, end) && PhaseOk(end) && ClosingOk(SetEnd(s, e, end), e);
    hide DirectOk, PhaseOk;
  }

  lemma EndClosesTaken<C, E>(s: Sys<C, E>, e: E)
    requires TakenOk(s) && ClientsClosed(s) && e in s.ends
    requires RemoteOf(s.ends[e]).Some? ==>
      RemoteOf(s.ends[e]).value in s.reg.sessions && s.reg.sessions[RemoteOf(s.ends[e]).value].closed
    ensures var s' := SetEnd(s, e, ClosedEnd(s.ends[e], IsListed(s, e))); TakenOk(s') && ClientsClosed(s')
  {
  }

  // ----- all runs ---------------------------------------------------------------------------

  lemma ApplyKeeps<C, E>(s: Sys<C, E>, step: Step<C, E>)
    requires SysInv(s)
    ensures SysInv(Apply(s, step))
  {
    hide SysInv;
    match step
    case ClientArrives(c, sessionId, address) => ArrivesKeeps(s, c, sessionId, address);
    case ClientValidates(c, token) => ValidatesKeeps(s, c, token);
    case SessionStep(st) => SessionStepKeeps(s, st);
    case Offered(e, owner, offer, addrs) => OfferedKeeps(s, e, owner, offer, addrs);
    case ChecksIn(c) => ChecksInKeeps(s, c);
    case Takes(e) => TakesKeeps(s, e);
    case Drops(id) => if Enabled(s, step) { DropsKeeps(s, id); }
    case Closes(e) => ClosesKeeps(s, e);
    case Disconnects(c) => if Enabled(s, step) && c in s.active { DropsKeeps(s, s.reg.sessions[c].ctx.connId); }
    case _ => MovesKeeps(s, step);
  }

  ghost function Exec<C, E>(s: Sys<C, E>, steps: seq<Step<C, E>>): (r: Sys<C, E>)
    requires SysInv(s)
    ensures SysInv(r)
    decreases |steps|
  {
    if steps == [] then s
    else
      ApplyKeeps(s, steps[0]);
      Exec(Apply(s, steps[0]), steps[1..])
  }

  lemma EmptyHolds<C, E>(cfg: R.Config)
    ensures SysInv(Init<C, E>(cfg))
  {
    R.EmptyHolds<C>(cfg);
  }

  ghost function Run<C, E>(cfg: R.Config, steps: seq<Step<C, E>>): (r: Sys<C, E>)
    ensures SysInv(r)
  {
    EmptyHolds<C, E>(cfg);
    Exec(Init(cfg), steps)
  }

  ghost predicate Connected<C, E>(s: Sys<C, E>, e: E) {
    e in s.ends && s.ends[e].direct.Some? && s.ends[e].direct.value.connected
  }

  /** `c` was validated under the id of `conn`, for a connection with that id whose peer it names
      and whose peer's addresses hold its own. */
  ghost predicate BelongsTo<C, E>(s: Sys<C, E>, c: C, e: E) {
    && c in s.reg.sessions && R.Validated(c) in s.reg.events && c in s.addresses && e in s.ends
    && s.reg.sessions[c].ctx == R.P2PContext(s.ends[e].conn.id, s.ends[e].conn.peer)
    && s.addresses[c].ip in s.ends[e].addrs
  }

  /**
   * In every run: a connected end of the target holds one client of the other side. That client
   * was validated for a connection of ours under the same id, for that connection's peer and from
   * one of its addresses; if ids do not repeat, for this very connection. The end is not closed,
   * unless that was before it began to connect, while it was listed.
   */
  lemma ConnectedEndHoldsItsPeer<C, E>(cfg: R.Config, steps: seq<Step<C, E>>, e: E)
    requires Connected(Run<C, E>(cfg, steps), e)
    ensures var s := Run<C, E>(cfg, steps);
      && s.ends[e].direct.value.remote.Some? && (s.ends[e].closed ==> s.ends[e].early)
      && var c := s.ends[e].direct.value.remote.value;
      && (e, c) in s.taken
      && (exists e' :: e' in s.ends && s.ends[e'].conn.id == s.ends[e].conn.id && BelongsTo(s, c, e'))
      && ((forall e' | e' in s.ends && s.ends[e'].conn.id == s.ends[e].conn.id :: e' == e) ==> BelongsTo(s, c, e))
  {
    var s := Run<C, E>(cfg, steps);
    hide Run, ListOk, ClientsClosed;
    assert DirectOk(s.reg, s.ends[e]) && PhaseOk(s.ends[e]) && ClosingOk(s, e);
    var c := s.ends[e].direct.value.remote.value;
    assert ForId(s.reg, c, s.ends[e].conn.id);
    assert BelongsTo(s, c, s.vouched[c]);
  }

  /** In every run: of all check-ins for an end at most one is taken. That client is closed at the
      latest with the end, or the end uses it still: it was closed too early. */
  lemma OneCheckInTaken<C, E>(cfg: R.Config, steps: seq<Step<C, E>>, e: E, c: C, c': C)
    requires (e, c) in Run<C, E>(cfg, steps).taken && (e, c') in Run<C, E>(cfg, steps).taken
    ensures c == c'
    ensures var s := Run<C, E>(cfg, steps);
      && e in s.ends
      && (s.ends[e].closed ==>
          || (c in s.reg.sessions && s.reg.sessions[c].closed)
          || (s.ends[e].early && Connected(s, e) && s.ends[e].direct.value.remote == Some(c)))
  {
    var s := Run<C, E>(cfg, steps);
    hide Run;
    assert e in s.ends ==> DirectOk(s.reg, s.ends[e]) && PhaseOk(s.ends[e]) && ClosingOk(s, e);
    hide VouchedOk, ListOk, EndsOk, R.Base, R.EventInv;
    var i :| 0 <= i < |s.taken| && s.taken[i] == (e, c);
    var j :| 0 <= j < |s.taken| && s.taken[j] == (e, c');
  }

  lemma SettledStays<C, E>(s: Sys<C, E>, step: Step<C, E>, e: E)
    requires SysInv(s) && e in s.ends && Settled(s, e)
    ensures e in Apply(s, step).ends && Settled(Apply(s, step), e)
  {
    if step.ClientArrives? || step.ClientValidates? || step.SessionStep? {
      hide SysInv, R.Base, R.Apply, R.Deliver;
      assert Apply(s, step).ends == s.ends && Apply(s, step).conns == s.conns;
    } else {
      assert ListOk(s);
      hide SysInv, R.Base, R.EventInv, R.Close;
      SettledMoves(s, step, e);
    }
  }

  lemma SettledMoves<C, E>(s: Sys<C, E>, step: Step<C, E>, e: E)
    requires R.Base(s.reg) && ListOk(s) && e in s.ends && Settled(s, e)
    requires !step.ClientArrives? && !step.ClientValidates? && !step.SessionStep?
    ensures e in Apply(s, step).ends && Settled(Apply(s, step), e)
  {
    hide R.Base, R.Close;
  }

  /** Once closed and settled, an end stays closed and is never connected, whatever follows: not even
      if it was closed before it began to connect. Every close settles it that is not early. */
  lemma {:induction false} ClosedEndIsFinal<C, E>(s: Sys<C, E>, steps: seq<Step<C, E>>, e: E)
    requires SysInv(s) && e in s.ends && Settled(s, e)
    ensures e in Exec(s, steps).ends && Settled(Exec(s, steps), e) && !Connected(Exec(s, steps), e)
    decreases |steps|
  {
    if steps == [] {
      SettledIsNotConnected(s, e);
      hide SysInv, Apply, Connected, Settled;
    } else {
      hide SysInv, Apply, Connected, Settled;
      ApplyKeeps(s, steps[0]);
      SettledStays(s, steps[0], e);
      ClosedEndIsFinal(Apply(s, steps[0]), steps[1..], e);
    }
  }

  lemma SettledIsNotConnected<C, E>(s: Sys<C, E>, e: E)
    requires SysInv(s) && e in s.ends && Settled(s, e)
    ensures !Connected(s, e)
  {
    assert PhaseOk(s.ends[e]);
    hide R.Base, R.EventInv, VouchedOk, ListOk, TakenOk, ClientsClosed;
  }

  lemma LateCloseSettles<C, E>(cfg: R.Config, steps: seq<Step<C, E>>, e: E)
    requires var s := Run<C, E>(cfg, steps); e in s.ends && s.ends[e].closed && !s.ends[e].early
    ensures Settled(Run<C, E>(cfg, steps), e)
  {
    var s := Run<C, E>(cfg, steps);
    hide Run;
    assert ClosingOk(s, e);
  }

  // ----- what a step does, and what it does not ---------------------------------------------

  /** The step takes the end out of the table, to be closed. */
  ghost predicate DropsEnd<C, E>(s: Sys<C, E>, step: Step<C, E>, e: E)
    requires e in s.ends
  {
    && IsListed(s, e) && Enabled(s, step)
    && (step == Drops(s.ends[e].conn.id)
        || (step.Disconnects? && step.c in s.active && s.reg.sessions[step.c].ctx.connId == s.ends[e].conn.id))
  }

  /** Some client's check-in was taken by this end. */
  ghost predicate HasTaken<C, E>(s: Sys<C, E>, e: E) {
    exists i | 0 <= i < |s.taken| :: s.taken[i].0 == e
  }

  /** The client checks in with a connection that has taken nobody. */
  ghost predicate JoinsIn<C, E>(s: Sys<C, E>, step: Step<C, E>, c: C) {
    step == ChecksIn(c) && Enabled(s, step) && Listed(s, c).Some? && !HasTaken(s, Listed(s, c).value)
  }

  /** What a step leaves of an end: who waits, who was taken, whether it is listed and closed. */
  ghost predicate EndFollows<C, E>(s: Sys<C, E>, step: Step<C, E>, e: E, s': Sys<C, E>)
    requires e in s.ends && e in s'.ends
  {
    var end, end' := s.ends[e], s'.ends[e];
    && end'.conn == end.conn && end'.addrs == end.addrs
    && end'.phase == (if step == ConnectBegins(e) && Enabled(s, step) then Awaiting
                      else if (step == Takes(e) || step == TimesOut(e)) && Enabled(s, step) then Over
                      else end.phase)
    && (end'.closed <==> end.closed || (step == Closes(e) && Enabled(s, step)))
    && (end'.closing <==>
          || end.closing || step == CloseRequested(e) || DropsEnd(s, step, e)
          || (step == TimesOut(e) && Enabled(s, step)))
    && (IsListed(s', e) <==>
          && IsListed(s, e) && !DropsEnd(s, step, e)
          && !(step.Offered? && Enabled(s, step) && step.offer.id == end.conn.id))
    && (end'.direct.Some? <==>
          (step == ConnectBegins(e) && Enabled(s, step))
          || (end.direct.Some? && !((step == TimesOut(e) || step == Closes(e)) && Enabled(s, step))))
    && (end'.direct.Some? && end.direct.Some? && step != ConnectBegins(e) ==>
        && end'.direct.value.remote ==
          (if step == Takes(e) && Enabled(s, step) then end.direct.value.chan else end.direct.value.remote)
        && end'.direct.value.chan ==
          (if step == Takes(e) && Enabled(s, step) then None
           else if step.ChecksIn? && JoinsIn(s, step, step.c) && Listed(s, step.c) == Some(e)
             && end.direct.value.chan.None? then Some(step.c)
           else end.direct.value.chan))
  }

  /** An end with a direct part has taken a client exactly if it uses one. */
  lemma TakenIsRemote<C, E>(s: Sys<C, E>, e: E)
    requires SysInv(s) && e in s.ends && s.ends[e].direct.Some?
    ensures HasTaken(s, e) <==> s.ends[e].direct.value.remote.Some?
    ensures s.ends[e].direct.value.connected <==> s.ends[e].direct.value.remote.Some?
  {
    assert DirectOk(s.reg, s.ends[e]) && PhaseOk(s.ends[e]);
    hide R.Base, R.EventInv, VouchedOk, ListOk, EndsOk, ClientsClosed;
  }

  /** Every step, end by end. */
  lemma EveryEndFollows<C, E>(s: Sys<C, E>, step: Step<C, E>, e: E)
    requires SysInv(s) && e in s.ends
    ensures e in Apply(s, step).ends && EndFollows(s, step, e, Apply(s, step))
  {
    if s.ends[e].direct.Some? { TakenIsRemote(s, e); }
    assert ListOk(s);
    hide SysInv, R.Base, EndFollows, Apply;
    if !Enabled(s, step) || step.ClientArrives? || step.ClientValidates? || step.SessionStep? {
      SessionsLeaveEnds(s, step, e);
    } else if step.ChecksIn? {
      CheckInFollows(s, step.c, e);
    } else if step.Drops? || step.Disconnects? {
      DropFollows(s, step, e);
    } else {
      EndStepFollows(s, step, e);
    }
  }

  lemma SessionsLeaveEnds<C, E>(s: Sys<C, E>, step: Step<C, E>, e: E)
    requires R.Base(s.reg) && e in s.ends
    requires !Enabled(s, step) || step.ClientArrives? || step.ClientValidates? || step.SessionStep?
    ensures e in Apply(s, step).ends && EndFollows(s, step, e, Apply(s, step))
  {
    assert Apply(s, step).ends == s.ends && Apply(s, step).conns == s.conns by {
      hide R.Base, R.Apply, R.Deliver;
    }
    hide R.Base, Apply, Enabled;
    assert step.ConnectBegins? || step.Takes? || step.TimesOut? || step.Closes? || step.CloseRequested? ==>
      !Enabled(s, step);
    assert step == CloseRequested(e) ==> Enabled(s, step) by { if step == CloseRequested(e) { RequestEnabled(s, e); } }
  }

  lemma RequestEnabled<C, E>(s: Sys<C, E>, e: E)
    requires e in s.ends
    ensures Enabled(s, CloseRequested(e))
  {
  }

  lemma CheckInFollows<C, E>(s: Sys<C, E>, c: C, e: E)
    requires R.Base(s.reg) && ListOk(s) && e in s.ends && Enabled(s, ChecksIn(c))
    requires s.ends[e].direct.Some? ==>
      && (HasTaken(s, e) <==> s.ends[e].direct.value.remote.Some?)
      && (s.ends[e].direct.value.connected <==> s.ends[e].direct.value.remote.Some?)
    ensures e in Apply(s, ChecksIn(c)).ends && EndFollows(s, ChecksIn(c), e, Apply(s, ChecksIn(c)))
  {
    hide R.Base, HasTaken;
    if Listed(s, c) == Some(e) {
      JoinFollows(s, c, e);
    } else {
      var s' := Apply(s, ChecksIn(c));
      assert e in s'.ends && s'.ends[e] == s.ends[e] && s'.conns == s.conns;
      hide Apply, ListOk;
    }
  }

  lemma JoinFollows<C, E>(s: Sys<C, E>, c: C, e: E)
    requires R.Base(s.reg) && e in s.ends && Enabled(s, ChecksIn(c)) && Listed(s, c) == Some(e)
    requires s.ends[e].direct.Some? ==>
      && (HasTaken(s, e) <==> s.ends[e].direct.value.remote.Some?)
      && (s.ends[e].direct.value.connected <==> s.ends[e].direct.value.remote.Some?)
    ensures e in Apply(s, ChecksIn(c)).ends && EndFollows(s, ChecksIn(c), e, Apply(s, ChecksIn(c)))
  {
    hide R.Base, HasTaken;
  }

  lemma DropFollows<C, E>(s: Sys<C, E>, step: Step<C, E>, e: E)
    requires R.Base(s.reg) && ListOk(s) && e in s.ends && (step.Drops? || step.Disconnects?) && Enabled(s, step)
    ensures e in Apply(s, step).ends && EndFollows(s, step, e, Apply(s, step))
  {
    hide R.Base, EndFollows;
    if step.Disconnects? && step.c !in s.active {
      assert Apply(s, step) == s && !DropsEnd(s, step, e);
      hide Apply, DropsEnd, Enabled;
      UnmovedFollows(s, step, e);
    } else {
      var id := if step.Drops? then step.id else s.reg.sessions[step.c].ctx.connId;
      assert Enabled(s, Drops(id)) && Apply(s, step) == Dropped(s, id);
      assert DropsEnd(s, step, e) <==> IsListed(s, e) && s.ends[e].conn.id == id;
      hide Apply, DropsEnd;
      DroppedFollows(s, step, id, e);
    }
  }

  lemma UnmovedFollows<C, E>(s: Sys<C, E>, step: Step<C, E>, e: E)
    requires e in s.ends && (step.Drops? || step.Disconnects?) && !DropsEnd(s, step, e)
    ensures EndFollows(s, step, e, s)
  {
    hide DropsEnd, Enabled;
  }

  lemma DroppedFollows<C, E>(s: Sys<C, E>, step: Step<C, E>, id: string, e: E)
    requires ListOk(s) && e in s.ends && (step.Drops? || step.Disconnects?) && Enabled(s, Drops(id))
    requires DropsEnd(s, step, e) <==> IsListed(s, e) && s.ends[e].conn.id == id
    ensures e in Dropped(s, id).ends && EndFollows(s, step, e, Dropped(s, id))
  {
    hide DropsEnd, Enabled;
  }

  lemma EndStepFollows<C, E>(s: Sys<C, E>, step: Step<C, E>, e: E)
    requires R.Base(s.reg) && e in s.ends && Enabled(s, step)
    requires step.Offered? || step.ConnectBegins? || step.Takes? || step.TimesOut? || step.CloseRequested? ||
      step.Closes?
    ensures e in Apply(s, step).ends && EndFollows(s, step, e, Apply(s, step))
  {
    hide R.Base, R.Close;
  }

  /**
   * A check-in with an end that has taken a client changes nothing at all. One with an end that has
   * taken nobody makes the client active, and it is the one kept exactly if none was there before.
   */
  lemma CheckInCounts<C, E>(cfg: R.Config, steps: seq<Step<C, E>>, c: C)
    requires Enabled(Run<C, E>(cfg, steps), ChecksIn(c))
    ensures var s := Run<C, E>(cfg, steps);
      var s' := Apply(s, ChecksIn(c));
      match Listed(s, c)
      case None => s' == s
      case Some(e) =>
        && e in s.ends && s.ends[e].direct.Some?
        && if HasTaken(s, e) then s' == s
        else
          && s'.active == s.active + {c} && e in s'.ends && s'.ends[e].direct.Some?
          && (s'.ends[e].direct.value.chan == Some(c) <==> s.ends[e].direct.value.chan in {None, Some(c)})
          && (s.ends[e].direct.value.chan.Some? ==> s'.ends == s.ends)
  {
    var s := Run<C, E>(cfg, steps);
    hide Run;
    match Listed(s, c)
    case None =>
    case Some(e) =>
      TakenIsRemote(s, e);
      hide SysInv, R.Base;
      if HasTaken(s, e) {
        assert s.ends[e].direct == Some(CheckIn(s.ends[e].direct.value, c).0);
        assert s.ends == s.ends[e := s.ends[e].(direct := s.ends[e].direct)];
      } else if s.ends[e].direct.value.chan.Some? {
        assert s.ends == s.ends[e := s.ends[e].(direct := s.ends[e].direct)];
      }
  }

  /** At the point `k` of the schedule the client checked in with an end that had taken nobody. */
  ghost predicate JoinedAt<C, E>(s: Sys<C, E>, steps: seq<Step<C, E>>, c: C, k: nat)
    requires SysInv(s)
  {
    k < |steps| && JoinsIn(Exec(s, steps[..k]), steps[k], c)
  }

  lemma StepActivates<C, E>(s: Sys<C, E>, step: Step<C, E>, c: C)
    requires SysInv(s)
    ensures c in Apply(s, step).active <==> c in s.active || JoinsIn(s, step, c)
  {
    if step.ChecksIn? && Enabled(s, step) && Listed(s, step.c).Some? {
      var e := Listed(s, step.c).value;
      TakenIsRemote(s, e);
      hide SysInv, R.Base;
    } else {
      hide SysInv, R.Base, R.Apply, R.Deliver, R.Close;
    }
  }

  /** In every run, the active clients are those that checked in before a client was taken there. */
  lemma ActiveExactly<C, E>(cfg: R.Config, steps: seq<Step<C, E>>, c: C)
    ensures c in Run<C, E>(cfg, steps).active <==>
      exists k: nat :: (EmptyHolds<C, E>(cfg); JoinedAt(Init<C, E>(cfg), steps, c, k))
  {
    EmptyHolds<C, E>(cfg);
    ActiveFrom(Init<C, E>(cfg), steps, c);
  }

  lemma {:induction false} ActiveFrom<C, E>(s: Sys<C, E>, steps: seq<Step<C, E>>, c: C)
    requires SysInv(s)
    ensures c in Exec(s, steps).active <==> c in s.active || exists k: nat :: JoinedAt(s, steps, c, k)
    decreases |steps|
  {
    hide SysInv, Apply, JoinsIn;
    if steps != [] {
      ApplyKeeps(s, steps[0]);
      StepActivates(s, steps[0], c);
      var s1, rest := Apply(s, steps[0]), steps[1..];
      ActiveFrom(s1, rest, c);
      assert steps[..0] == [] && Exec(s, steps[..0]) == s;
      assert JoinedAt(s, steps, c, 0) <==> JoinsIn(s, steps[0], c);
      assert forall k: nat | k >= |rest| :: !JoinedAt(s1, rest, c, k) && !JoinedAt(s, steps, c, k + 1);
      forall k: nat | k < |rest| ensures JoinedAt(s1, rest, c, k) <==> JoinedAt(s, steps, c, k + 1) {
        assert steps[..k + 1][1..] == rest[..k] && steps[k + 1] == rest[k];
        assert Exec(s, steps[..k + 1]) == Exec(s1, rest[..k]);
      }
      hide JoinedAt, Exec;
      forall k: nat | JoinedAt(s, steps, c, k) ensures k == 0 || JoinedAt(s1, rest, c, k - 1) {
        if k > 0 { assert JoinedAt(s1, rest, c, k - 1) <==> JoinedAt(s, steps, c, k - 1 + 1); }
      }
    }
  }

  /** The disconnect of a client that never became active, or was only turned away, changes nothing;
      that of an active one takes its connection out of the table, to be closed. */
  lemma DisconnectDropsOnlyActive<C, E>(s: Sys<C, E>, c: C)
    requires SysInv(s) && Enabled(s, Disconnects(c))
    ensures var s' := Apply(s, Disconnects(c));
      && (c !in s.active ==> s' == s)
      && (c in s.active && Listed(s, c).Some? ==>
          var e := Listed(s, c).value;
          e in s'.ends && !IsListed(s', e) && s'.ends[e].closing && s'.ends == s.ends[e := s.ends[e].(closing := true)])
  {
    assert ListOk(s);
    hide SysInv, R.Base;
  }

  /** Whom the target admits: who names a listed direct connection that is being set up and comes from
      one of its peer's addresses; with the data of that connection. Everybody else is closed. */
  lemma AdmitsExactly<C, E>(s: Sys<C, E>, c: C, token: string)
    requires SysInv(s) && Enabled(s, ClientValidates(c, token)) && !s.reg.sessions[c].initialized
    ensures var s' := Apply(s, ClientValidates(c, token));
      && c in s'.reg.sessions && s'.ends == s.ends && s'.conns == s.conns && s'.active == s.active
      && (s'.reg.sessions[c].initialized <==>
          && token in s.conns && s.conns[token] in s.ends && s.ends[s.conns[token]].conn.mode == "p2p"
          && s.ends[s.conns[token]].direct.Some? && s.addresses[c].ip in s.ends[s.conns[token]].addrs)
      && (if s'.reg.sessions[c].initialized then
            var conn := s.ends[s.conns[token]].conn;
            && s'.reg.sessions[c].id == token + ":" + s.addresses[c].text && s'.reg.sessions[c].tags == map[]
            && s'.reg.sessions[c].ctx == R.P2PContext(token, conn.peer)
          else s'.reg.sessions[c].closed && !s'.reg.sessions[c].reading)
  {
    assert ListOk(s);
    ApplyIsValidated(s, c, token);
    var answer := if AdmittedBy(s, token, s.addresses[c])
      then Some(DataFor(s.ends[s.conns[token]].conn, s.addresses[c]))
      else None;
    var step := R.Receive(c, R.Validate(answer));
    R.StepChangesSessions(s.reg, step);
    assert Validated(s, c, token).reg == R.Apply(s.reg, step);
    hide SysInv, R.Base, R.EventInv, Apply, R.Apply, R.Deliver;
    assert R.SessionFollows(s.reg, step, c, R.Apply(s.reg, step).sessions[c]);
  }

  // ----- an early close ---------------------------------------------------------------------

  /** The connection begins, the other side's client `c` comes from `address`, checks in and is taken. */
  function Arrival<C, E>(e: E, id: string, c: C, sessionId: string, address: Address): seq<Step<C, E>> {
    [ConnectBegins(e)] + ([ClientArrives(c, sessionId, address)] +
      ([ClientValidates(c, id)] + ([ChecksIn(c)] + [Takes(e)])))
  }

  /** There is a client `c` at `address` that the end `e` would take. */
  ghost predicate Awaits<C, E>(s: Sys<C, E>, e: E, c: C, sessionId: string, address: Address) {
    && e in s.ends && s.ends[e].conn.mode == MODE_P2P && address.ip in s.ends[e].addrs
    && R.Enabled(s.reg, R.NewSession(c, sessionId))
  }

  lemma BeginsAndArrives<C, E>(s: Sys<C, E>, e: E, c: C, sessionId: string, address: Address)
    requires R.Base(s.reg) && Awaits(s, e, c, sessionId, address) && s.ends[e].phase == Idle
    ensures var s1 := Apply(s, ConnectBegins(e));
      && R.Base(s1.reg)
      && var s2 := Apply(s1, ClientArrives(c, sessionId, address));
      && s2.addresses == s.addresses[c := address] && (IsListed(s, e) ==> e in s2.ends && IsListed(s2, e))
      && s2.ends == s.ends[e := s.ends[e].(phase := Awaiting, direct := Some(Direct(None, None, false, false)))]
      && c in s2.reg.sessions && s2.reg.sessions[c].reading && !s2.reg.sessions[c].initialized
  {
    hide R.Base;
  }

  lemma ValidatedForE<C, E>(s: Sys<C, E>, e: E, c: C)
    requires SysInv(s) && e in s.ends && IsListed(s, e) && c in s.addresses
    requires Admits(s.ends[e].conn, s.ends[e].direct.Some?, s.ends[e].addrs, s.addresses[c])
    requires c in s.reg.sessions && s.reg.sessions[c].reading && !s.reg.sessions[c].initialized
    ensures var s1 := Apply(s, ClientValidates(c, s.ends[e].conn.id));
      s1.ends == s.ends && IsListed(s1, e) && ForId(s1.reg, c, s.ends[e].conn.id)
  {
    ApplyIsValidated(s, c, s.ends[e].conn.id);
    hide Apply;
    R.ValidatedAges(s.reg, c, DataFor(s.ends[e].conn, s.addresses[c]));
    hide R.Base, R.EventInv, R.Deliver, VouchedOk, EndsOk, ListOk, TakenOk, ClientsClosed;
  }

  lemma ChecksInAndIsTaken<C, E>(s: Sys<C, E>, e: E, c: C)
    requires R.Base(s.reg) && e in s.ends && IsListed(s, e) && s.ends[e].phase == Awaiting
    requires s.ends[e].direct == Some(Direct(None, None, false, false))
    requires ForId(s.reg, c, s.ends[e].conn.id)
    ensures R.Base(Apply(s, ChecksIn(c)).reg)
    ensures var s' := Apply(Apply(s, ChecksIn(c)), Takes(e));
      Connected(s', e) && s'.ends[e].direct.value.remote == Some(c) && s'.ends[e].closed == s.ends[e].closed
  {
    hide R.Base;
  }

  lemma ExecCons<C, E>(s: Sys<C, E>, step: Step<C, E>, rest: seq<Step<C, E>>)
    requires SysInv(s)
    ensures SysInv(Apply(s, step)) && Exec(s, [step] + rest) == Exec(Apply(s, step), rest)
  {
    hide SysInv, Apply;
    ApplyKeeps(s, step);
    assert ([step] + rest)[1..] == rest;
  }

  lemma ExecOne<C, E>(s: Sys<C, E>, step: Step<C, E>)
    requires SysInv(s)
    ensures Exec(s, [step]) == Apply(s, step)
  {
    ExecCons(s, step, []);
    hide SysInv, Apply;
    assert [step] + [] == [step];
  }

  /** A listed end that has not begun to connect is connected by an arrival, closed or not. */
  lemma ArrivalConnects<C, E>(s: Sys<C, E>, e: E, c: C, sessionId: string, address: Address)
    requires SysInv(s) && Awaits(s, e, c, sessionId, address) && s.ends[e].phase == Idle && IsListed(s, e)
    ensures var s' := Exec(s, Arrival(e, s.ends[e].conn.id, c, sessionId, address));
      Connected(s', e) && s'.ends[e].direct.value.remote == Some(c) && s'.ends[e].closed == s.ends[e].closed
  {
    var id := s.ends[e].conn.id;
    var begin: Step<C, E>, arrive: Step<C, E> := ConnectBegins(e), ClientArrives(c, sessionId, address);
    var validate: Step<C, E>, checkIn: Step<C, E>, take: Step<C, E> := ClientValidates(c, id), ChecksIn(c), Takes(e);
    BeginsAndArrives(s, e, c, sessionId, address);
    hide SysInv, R.Base, Apply, Connected, Awaits, IsListed, ForId, Enabled;
    var s1 := Apply(s, begin);
    ExecCons(s, begin, [arrive] + ([validate] + ([checkIn] + [take])));
    var s2 := Apply(s1, arrive);
    ExecCons(s1, arrive, [validate] + ([checkIn] + [take]));
    ValidatedForE(s2, e, c);
    var s3 := Apply(s2, validate);
    ExecCons(s2, validate, [checkIn] + [take]);
    ChecksInAndIsTaken(s3, e, c);
    ExecCons(s3, checkIn, [take]);
    ExecOne(Apply(s3, checkIn), take);
  }

  /**
   * A close before `connect` begins is final, for a direct connection that some client could still
   * come for, exactly if the connection is not listed any more.
   */
  lemma EarlyCloseIsFinalIffUnlisted<C, E>(s: Sys<C, E>, e: E, c: C, sessionId: string, address: Address)
    requires SysInv(s) && Awaits(s, e, c, sessionId, address) && s.ends[e].phase == Idle && s.ends[e].closed
    ensures (forall steps :: !Connected(Exec(s, steps), e)) <==> !IsListed(s, e)
  {
    if IsListed(s, e) {
      hide SysInv, Connected, Awaits;
      ArrivalConnects(s, e, c, sessionId, address);
    } else {
      assert PhaseOk(s.ends[e]) && Settled(s, e);
      hide SysInv, Connected, Settled, Awaits;
      forall steps ensures !Connected(Exec(s, steps), e) {
        ClosedEndIsFinal(s, steps, e);
      }
    }
  }

  /** Such a run: the offer is accepted, the connection closed at once, and then the client comes. */
  lemma EarlyCloseRuns<C, E>(cfg: R.Config, e: E, c: C, sessionId: string, address: Address)
    ensures var offer := Offer("k", MODE_P2P, "", "p");
      var s := Run<C, E>(cfg, [Offered(e, "q", offer, [address.ip])] + ([CloseRequested(e)] + [Closes(e)]));
      && e in s.ends && s.ends[e].early && IsListed(s, e) && s.ends[e].phase == Idle
      && Awaits(s, e, c, sessionId, address) && s.ends[e].conn.id == "k"
      && var s' := Exec(s, Arrival(e, "k", c, sessionId, address));
      Connected(s', e) && s'.ends[e].closed
  {
    var offer := Offer("k", MODE_P2P, "", "p");
    var steps: seq<Step<C, E>> := [Offered(e, "q", offer, [address.ip])] + ([CloseRequested(e)] + [Closes(e)]);
    var s := Init<C, E>(cfg);
    EmptyHolds<C, E>(cfg);
    OfferedAndClosed(s, e, "q", offer, [address.ip]);
    hide SysInv, Apply, Connected, Awaits;
    var s1 := Apply(s, Offered(e, "q", offer, [address.ip]));
    ExecCons(s, Offered(e, "q", offer, [address.ip]), [CloseRequested(e)] + [Closes(e)]);
    ExecCons(s1, CloseRequested(e), [Closes(e)]);
    ExecOne(Apply(s1, CloseRequested(e)), Closes(e));
    assert Run<C, E>(cfg, steps) == Exec(s, steps);
    hide Run;
    assert Awaits(Run<C, E>(cfg, steps), e, c, sessionId,
      address) by { AwaitsIs(Run<C, E>(cfg, steps), e, c, sessionId, address); }
    ArrivalConnects(Run<C, E>(cfg, steps), e, c, sessionId, address);
  }

  lemma AwaitsIs<C, E>(s: Sys<C, E>, e: E, c: C, sessionId: string, address: Address)
    requires e in s.ends && s.ends[e].conn.mode == MODE_P2P && address.ip in s.ends[e].addrs
    requires R.Enabled(s.reg, R.NewSession(c, sessionId))
    ensures Awaits(s, e, c, sessionId, address)
  {
  }

  lemma OfferedAndClosed<C, E>(s: Sys<C, E>, e: E, owner: string, offer: Offer, addrs: seq<string>)
    requires R.Base(s.reg) && e !in s.ends
    ensures var s1 := Apply(s, Offered(e, owner, offer, addrs));
      && R.Base(s1.reg)
      && var s2 := Apply(s1, CloseRequested(e));
      && R.Base(s2.reg)
      && var s3 := Apply(s2, Closes(e));
      && s3.reg == s.reg && s3.conns == s.conns[offer.id := e]
      && s3.ends == s.ends[e := End(AcceptedConn(owner, offer), addrs, None, Idle, true, true, true)]
  {
    hide R.Base;
  }
}
