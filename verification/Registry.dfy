/**
 * The session registry of the UDP server (`udp/server`) on values. A session is named by an
 * opaque reference of type `C`; `clients` is the registry proper, `sessions` holds the state of
 * every session ever accepted, and `events` the calls made into the application, in order.
 */
module Registry {
  import opened Prelude

  /** The `ctx` of `ClientData` (`model/client.proto`). */
  datatype Context =
    | NoContext
    | BrokerContext
    | RelayContext(connectionId: string, sourcePeerId: string, targetPeerId: string)
    | P2PContext(connId: string, peerId: string)

  /** `model.ClientData`, as far as a server keeps it. */
  datatype ClientData = ClientData(id: string, tags: map<string, string>, ctx: Context)

  datatype Session = Session(
    sessionId: string, id: string, tags: map<string, string>, ctx: Context,
    initialized: bool, closed: bool, reading: bool, accepting: bool, handlers: set<string>)

  datatype Event<+C> =
    | Validated(c: C)
    | ConnectedCalled(c: C)
    | HandlerCalled(c: C, mtype: string)
    | StreamCalled(c: C)
    | DisconnectedCalled(c: C)

  /** Which callbacks the application has set, and the server level message handlers. */
  datatype Config = Config(onConnected: bool, onDisconnected: bool, onStream: bool, handlers: set<string>)

  datatype State<C(==)> = State(
    cfg: Config, clients: map<string, C>, sessions: map<C, Session>, events: seq<Event<C>>)

  /** What the reading loop of a session gets from its channel. */
  datatype Incoming =
    | ReadFailed
    | Validate(answer: Option<ClientData>)
    | Ping
    | Search
    | Other(mtype: string)

  function Init<C(==)>(cfg: Config): State<C> {
    State(cfg, map[], map[], [])
  }

  function Fresh(sessionId: string): Session {
    Session(sessionId, "", map[], NoContext, false, false, true, false, {})
  }

  function Accept<C(==)>(s: State<C>, c: C, sessionId: string): State<C> {
    s.(sessions := s.sessions[c := Fresh(sessionId)])
  }

  function ClosedSession(r: Session): Session {
    r.(closed := true, handlers := {})
  }

  function ValidatedSession(r: Session, d: ClientData): Session {
    r.(id := d.id, tags := d.tags, ctx := d.ctx, initialized := true)
  }

  /** `Client.Close`: the registry entry goes only if it still leads to this very session. */
  function Close<C(==)>(s: State<C>, c: C): State<C>
    requires c in s.sessions
    requires s.sessions[c].id in s.clients ==> s.clients[s.sessions[c].id] in s.sessions
  {
    var r := s.sessions[c];
    if r.closed then s
    else
      var own := r.id in s.clients && s.sessions[s.clients[r.id]].sessionId == r.sessionId;
      s.(sessions := s.sessions[c := ClosedSession(r)],
         clients := if own then s.clients - {r.id} else s.clients,
         events := if s.cfg.onDisconnected then s.events + [DisconnectedCalled(c)] else s.events)
  }

  /** `Client.initialize`. */
  function Initialize<C(==)>(s: State<C>, c: C, d: ClientData): State<C>
    requires c in s.sessions
  {
    s.(sessions := s.sessions[c := ValidatedSession(s.sessions[c], d)],
       events := s.events + [Validated(c)])
  }

  /** `Server.validateClient` with the answer of the validation handler: an older session under
      the same id is closed before the new one takes its place. */
  function ValidateClient<C(==)>(s: State<C>, c: C, answer: Option<ClientData>): State<C>
    requires Base(s) && c in s.sessions && !s.sessions[c].initialized
  {
    match answer
    case None => s
    case Some(d) =>
      TakePlace(Initialize(s, c, d), c, d.id)
  }

  /** Whoever is registered under the id is closed, and `c` registered instead. */
  function TakePlace<C(==)>(s: State<C>, c: C, id: string): State<C>
    requires id in s.clients ==> s.clients[id] in s.sessions && s.sessions[s.clients[id]].id == id
  {
    var s' := if id in s.clients then Close(s, s.clients[id]) else s;
    s'.(clients := s'.clients[id := c])
  }

  /** The reading loop of the session returns. */
  function StopReading<C(==)>(s: State<C>, c: C): State<C>
    requires c in s.sessions
  {
    s.(sessions := s.sessions[c := s.sessions[c].(reading := false)])
  }

  /** One turn of `handleMessages`. */
  function Deliver<C(==)>(s: State<C>, c: C, msg: Incoming): State<C>
    requires Base(s) && c in s.sessions
  {
    var r := s.sessions[c];
    match msg
    case ReadFailed => StopReading(Close(s, c), c)
    case Validate(answer) =>
      if r.initialized then s
      else if answer.None? then StopReading(Close(s, c), c)
      else Welcome(ValidateClient(s, c, answer), c)
    case Ping => s
    case Search => s
    case Other(mtype) =>
      if !r.initialized then StopReading(Close(s, c), c)
      else if mtype in r.handlers || mtype in s.cfg.handlers then s.(events := s.events + [HandlerCalled(c, mtype)])
      else s
  }

  /** After a successful validation: the connected callback, and the loop that accepts streams. */
  function Welcome<C(==)>(s: State<C>, c: C): State<C>
    requires c in s.sessions
  {
    s.(sessions := s.sessions[c := s.sessions[c].(accepting := true)],
       events := if s.cfg.onConnected then s.events + [ConnectedCalled(c)] else s.events)
  }

  /** `handleTick`: a session that is not validated in time is closed. */
  function Tick<C(==)>(s: State<C>, c: C): State<C>
    requires Base(s) && c in s.sessions
  {
    if s.sessions[c].initialized then s else Close(s, c)
  }

  function AcceptStream<C(==)>(s: State<C>, c: C): State<C>
    requires c in s.sessions
  {
    if s.sessions[c].accepting && s.cfg.onStream then s.(events := s.events + [StreamCalled(c)]) else s
  }

  /** `Client.RegisterHandler`. */
  function AddHandler<C(==)>(s: State<C>, c: C, mtype: string): State<C>
    requires c in s.sessions
  {
    s.(sessions := s.sessions[c := s.sessions[c].(handlers := s.sessions[c].handlers + {mtype})])
  }

  // ----- the registry invariant -------------------------------------------------------------

  predicate Live(r: Session) {
    r.initialized && !r.closed
  }

  /** What the registry keeps whatever happens: it leads home and to validated sessions only, and
      no live session is missing from it. */
  ghost predicate Base<C>(s: State<C>): (r: bool)
    ensures r ==> LeadsHome(s)
  {
    LeadsHome(s) && RegisteredValidated(s) && DistinctSessionIds(s.sessions)
  }

  ghost predicate RegisteredValidated<C>(s: State<C>) {
    && (forall id | id in s.clients :: s.clients[id] in s.sessions && s.sessions[s.clients[id]].initialized)
    && (forall c | c in s.sessions && Live(s.sessions[c]) ::
          s.sessions[c].id in s.clients && s.clients[s.sessions[c].id] == c)
  }

  /** A session is live exactly when the registry leads from its id to it. */
  ghost predicate Inv<C>(s: State<C>): (r: bool)
    ensures r ==> Base(s)
  {
    LeadsHome(s) && LiveRegistered(s) && DistinctSessionIds(s.sessions)
  }

  ghost predicate LiveRegistered<C>(s: State<C>) {
    forall c | c in s.sessions :: Live(s.sessions[c]) <==>
      s.sessions[c].id in s.clients && s.clients[s.sessions[c].id] == c
  }

  ghost predicate LeadsHome<C>(s: State<C>) {
    forall id | id in s.clients :: s.clients[id] in s.sessions && s.sessions[s.clients[id]].id == id
  }

  ghost predicate DistinctSessionIds<C>(sessions: map<C, Session>) {
    forall c, c' | c in sessions && c' in sessions && sessions[c].sessionId == sessions[c'].sessionId :: c == c'
  }

  lemma SessionIdsStay<C>(before: map<C, Session>, after: map<C, Session>)
    requires DistinctSessionIds(before) && after.Keys == before.Keys
    requires forall c | c in before :: after[c].sessionId == before[c].sessionId
    ensures DistinctSessionIds(after)
  {
  }

  /** Closing a session takes out that session and no other: not the one that replaced it under
      its id, nor any with another id. */
  lemma CloseRemovesOnlyItself<C>(s: State<C>, c: C)
    requires Base(s) && c in s.sessions
    ensures Base(Close(s, c)) && Close(s, c).sessions[c].closed
    ensures forall id | id in s.clients && s.clients[id] != c ::
      id in Close(s, c).clients && Close(s, c).clients[id] == s.clients[id]
    ensures forall id | id in Close(s, c).clients :: id in s.clients && Close(s, c).clients[id] == s.clients[id]
    ensures Inv(s) ==> Inv(Close(s, c)) && forall id | id in Close(s, c).clients :: s.clients[id] != c
  {
  }

  /** The session as a validation leaves it: `c` is the validated one; the one it replaces is closed. */
  function AfterValidate<C(==)>(s: State<C>, c: C, d: ClientData, k: C): Session
    requires k in s.sessions
  {
    var r := s.sessions[k];
    if k == c then ValidatedSession(r, d)
    else if d.id in s.clients && k == s.clients[d.id] && !r.closed then ClosedSession(r)
    else r
  }

  /** What a validation leaves behind, session by session. */
  ghost predicate ValidatedTo<C>(s: State<C>, c: C, d: ClientData, s': State<C>) {
    && s'.clients == s.clients[d.id := c]
    && s'.sessions.Keys == s.sessions.Keys
    && (forall k | k in s.sessions :: s'.sessions[k] == AfterValidate(s, c, d, k))
  }

  lemma ValidateShape<C>(s: State<C>, c: C, d: ClientData)
    requires Base(s) && c in s.sessions && !s.sessions[c].initialized
    ensures ValidatedTo(s, c, d, ValidateClient(s, c, Some(d)))
  {
    assert d.id in s.clients ==> s.clients[d.id] != c && LeadsHome(s);
    hide Base;
    TakePlaceShape(Initialize(s, c, d), c, d.id);
  }

  lemma TakePlaceShape<C>(s: State<C>, c: C, id: string)
    requires id in s.clients ==> s.clients[id] in s.sessions && s.sessions[s.clients[id]].id == id && s.clients[id] != c
    ensures var s' := TakePlace(s, c, id);
      && s'.clients == s.clients[id := c] && s'.sessions.Keys == s.sessions.Keys
      && (forall k | k in s.sessions ::
            s'.sessions[k] == if id in s.clients && k == s.clients[id] && !s.sessions[k].closed
              then ClosedSession(s.sessions[k]) else s.sessions[k])
  {
  }

  lemma ValidatedLeadsHome<C>(s: State<C>, c: C, d: ClientData, s': State<C>)
    requires LeadsHome(s) && RegisteredValidated(s) && c in s.sessions && !s.sessions[c].initialized
    requires ValidatedTo(s, c, d, s')
    ensures LeadsHome(s')
  {
  }

  lemma ValidatedKeepsRegistered<C>(s: State<C>, c: C, d: ClientData, s': State<C>)
    requires LeadsHome(s) && RegisteredValidated(s) && c in s.sessions && !s.sessions[c].initialized
    requires ValidatedTo(s, c, d, s')
    ensures RegisteredValidated(s')
  {
  }

  lemma ValidatedKeepsBase<C>(s: State<C>, c: C, d: ClientData, s': State<C>)
    requires Base(s) && c in s.sessions && !s.sessions[c].initialized
    requires ValidatedTo(s, c, d, s')
    ensures Base(s')
  {
    hide LeadsHome, RegisteredValidated, DistinctSessionIds;
    ValidatedLeadsHome(s, c, d, s');
    ValidatedKeepsRegistered(s, c, d, s');
    SessionIdsStay(s.sessions, s'.sessions);
  }

  /** After a validation the session is registered under its id, every older session under that id
      is closed, and all other ids lead where they led before. */
  lemma ValidateReplaces<C>(s: State<C>, c: C, d: ClientData)
    requires Base(s) && c in s.sessions && !s.sessions[c].initialized
    ensures var s' := ValidateClient(s, c, Some(d));
      && Base(s') && s'.sessions[c] == ValidatedSession(s.sessions[c], d)
      && s'.clients == s.clients[d.id := c]
      && (forall k | k in s.sessions && k != c && s.sessions[k].id == d.id && s.sessions[k].initialized ::
        s'.sessions[k].closed)
  {
    ValidateShape(s, c, d);
    ValidatedKeepsBase(s, c, d, ValidateClient(s, c, Some(d)));
    assert RegisteredValidated(s);
    hide ValidateClient, DistinctSessionIds, LeadsHome;
  }

  /** A validation keeps the registry free of closed sessions exactly when the session was not
      closed in the meantime. */
  lemma ValidateNeedsOpenSession<C>(s: State<C>, c: C, d: ClientData)
    requires Inv(s) && c in s.sessions && !s.sessions[c].initialized
    ensures Inv(ValidateClient(s, c, Some(d))) <==> !s.sessions[c].closed
  {
    ValidateReplaces(s, c, d);
    ValidateShape(s, c, d);
    var s' := ValidateClient(s, c, Some(d));
    assert s'.clients[d.id] == c;
    assert LiveRegistered(s) && LeadsHome(s) && Base(s');
    hide ValidateClient, DistinctSessionIds;
    if s.sessions[c].closed {
      assert !Live(s'.sessions[c]) && s'.sessions[c].id == d.id;
    }
  }

  // ----- the dispatch gate ------------------------------------------------------------------

  /** Calls that only a validated session may cause. */
  predicate Gated<C>(e: Event<C>) {
    e.ConnectedCalled? || e.HandlerCalled? || e.StreamCalled?
  }

  predicate AtMostOnce<C>(e: Event<C>) {
    e.Validated? || e.ConnectedCalled? || e.DisconnectedCalled?
  }

  /** Every gated call comes after the validation of its session. */
  ghost predicate GateHeld<C>(events: seq<Event<C>>) {
    forall k | 0 <= k < |events| && Gated(events[k]) :: Validated(events[k].c) in events[..k]
  }

  ghost predicate OnceHeld<C>(events: seq<Event<C>>) {
    forall j, k | 0 <= j < k < |events| && AtMostOnce(events[k]) :: events[j] != events[k]
  }

  /** The events agree with the states of the sessions. */
  ghost predicate EventInv<C>(s: State<C>) {
    && GateHeld(s.events) && OnceHeld(s.events)
    && (forall e | e in s.events :: e.c in s.sessions)
    && (forall c | c in s.sessions ::
      var r := s.sessions[c];
      && (Validated(c) in s.events <==> r.initialized)
      && (r.accepting ==> r.initialized)
      && (ConnectedCalled(c) in s.events <==> r.accepting && s.cfg.onConnected)
      && (DisconnectedCalled(c) in s.events <==> r.closed && s.cfg.onDisconnected))
  }

  lemma AppendKeepsOrder<C>(events: seq<Event<C>>, e: Event<C>)
    requires GateHeld(events) && OnceHeld(events)
    requires Gated(e) ==> Validated(e.c) in events
    requires AtMostOnce(e) ==> e !in events
    ensures GateHeld(events + [e]) && OnceHeld(events + [e])
  {
    var es := events + [e];
    forall k | 0 <= k < |es| && Gated(es[k]) ensures Validated(es[k].c) in es[..k] {
      assert es[..k] == if k < |events| then events[..k] else events;
    }
  }

  lemma CloseKeepsEvents<C>(s: State<C>, c: C)
    requires EventInv(s) && c in s.sessions
    requires s.sessions[c].id in s.clients ==> s.clients[s.sessions[c].id] in s.sessions
    ensures EventInv(Close(s, c))
  {
    if !s.sessions[c].closed {
      var s' := Close(s, c);
      hide EventInv;
      ClosedKeepsEvents(s, c, s');
    }
  }

  lemma ClosedKeepsEvents<C>(s: State<C>, c: C, s': State<C>)
    requires EventInv(s) && c in s.sessions && !s.sessions[c].closed
    requires s'.cfg == s.cfg && s'.sessions == s.sessions[c := ClosedSession(s.sessions[c])]
    requires s'.events == if s.cfg.onDisconnected then s.events + [DisconnectedCalled(c)] else s.events
    ensures EventInv(s')
  {
    if s.cfg.onDisconnected { AppendKeepsOrder(s.events, DisconnectedCalled(c)); }
    hide GateHeld, OnceHeld;
    assert forall k :: Validated(k) in s'.events <==> Validated(k) in s.events;
    assert forall k :: ConnectedCalled(k) in s'.events <==> ConnectedCalled(k) in s.events;
    assert forall k :: DisconnectedCalled(k) in s'.events <==>
      DisconnectedCalled(k) in s.events || (k == c && s.cfg.onDisconnected);
  }

  lemma InitializeKeepsEvents<C>(s: State<C>, c: C, d: ClientData)
    requires EventInv(s) && c in s.sessions && !s.sessions[c].initialized
    ensures EventInv(Initialize(s, c, d))
  {
    AppendKeepsOrder(s.events, Validated(c));
  }

  lemma WelcomeKeepsEvents<C>(s: State<C>, c: C)
    requires EventInv(s) && c in s.sessions && s.sessions[c].initialized && !s.sessions[c].accepting
    ensures EventInv(Welcome(s, c))
  {
    if s.cfg.onConnected {
      AppendKeepsOrder(s.events, ConnectedCalled(c));
    }
  }

  lemma ValidateKeepsEvents<C>(s: State<C>, c: C, d: ClientData)
    requires Base(s) && EventInv(s) && c in s.sessions && !s.sessions[c].initialized
    ensures EventInv(ValidateClient(s, c, Some(d)))
    ensures ValidateClient(s, c, Some(d)).sessions[c].initialized
      && !ValidateClient(s, c, Some(d)).sessions[c].accepting
  {
    assert LeadsHome(s) && RegisteredValidated(s);
    hide Base, EventInv;
    InitializeKeepsEvents(s, c, d);
    TakePlaceKeepsEvents(Initialize(s, c, d), c, d.id);
  }

  lemma TakePlaceKeepsEvents<C>(s: State<C>, c: C, id: string)
    requires EventInv(s) && c in s.sessions && !s.sessions[c].accepting && s.sessions[c].initialized
    requires id in s.clients ==> s.clients[id] in s.sessions && s.sessions[s.clients[id]].id == id
    ensures var s' := TakePlace(s, c, id);
      EventInv(s') && c in s'.sessions && s'.sessions[c].initialized && !s'.sessions[c].accepting
  {
    if id in s.clients { CloseKeepsEvents(s, s.clients[id]); }
    hide GateHeld, OnceHeld;
  }

  // ----- all runs ---------------------------------------------------------------------------

  /** What may happen next, in any order and interleaved between any sessions. */
  datatype Step<+C> =
    | NewSession(c: C, sessionId: string)
    | Receive(c: C, msg: Incoming)
    | IncomingStream(c: C)
    | RegisterHandler(c: C, mtype: string)
    | TickerFires(c: C)
    | CloseCalled(c: C)

  /** Session ids are fresh (they are UUIDs), and a session is read as long as its loop runs. */
  predicate Enabled<C(==)>(s: State<C>, step: Step<C>) {
    match step
    case NewSession(c, sessionId) => c !in s.sessions && forall k | k in s.sessions ::
      s.sessions[k].sessionId != sessionId
    case Receive(c, msg) => c in s.sessions && s.sessions[c].reading
    case _ => step.c in s.sessions
  }

  function Apply<C(==)>(s: State<C>, step: Step<C>): State<C>
    requires Base(s)
  {
    if !Enabled(s, step) then s
    else match step
      case NewSession(c, sessionId) => Accept(s, c, sessionId)
      case Receive(c, msg) => Deliver(s, c, msg)
      case IncomingStream(c) => AcceptStream(s, c)
      case RegisterHandler(c, mtype) => AddHandler(s, c, mtype)
      case TickerFires(c) => Tick(s, c)
      case CloseCalled(c) => Close(s, c)
  }

  /** The step validates a session that was closed while its message was read: `handleMessages`
      looks at `Closed` before the read, and `Close` takes no lock. */
  predicate Late<C(==)>(s: State<C>, step: Step<C>) {
    && Enabled(s, step) && step.Receive? && step.msg.Validate? && step.msg.answer.Some?
    && !s.sessions[step.c].initialized && s.sessions[step.c].closed
  }

  lemma AcceptKeeps<C>(s: State<C>, c: C, sessionId: string)
    requires Base(s) && EventInv(s) && Enabled(s, NewSession(c, sessionId))
    ensures Base(Accept(s, c, sessionId)) && EventInv(Accept(s, c, sessionId))
    ensures Inv(s) ==> Inv(Accept(s, c, sessionId))
  {
    assert forall e | e in s.events :: e.c != c;
  }

  /** Changing what neither the registry nor the events look at. */
  lemma TouchKeeps<C>(s: State<C>, c: C, r: Session)
    requires Base(s) && EventInv(s) && c in s.sessions
    requires r == s.sessions[c].(reading := r.reading, handlers := r.handlers)
    ensures Base(s.(sessions := s.sessions[c := r])) && EventInv(s.(sessions := s.sessions[c := r]))
    ensures Inv(s) ==> Inv(s.(sessions := s.sessions[c := r]))
  {
    TouchKeepsRegistry(s, c, r);
    hide Inv, Base;
  }

  lemma TouchKeepsRegistry<C>(s: State<C>, c: C, r: Session)
    requires Base(s) && c in s.sessions
    requires r == s.sessions[c].(reading := r.reading, handlers := r.handlers, accepting := r.accepting)
    ensures Base(s.(sessions := s.sessions[c := r]))
    ensures Inv(s) <==> Inv(s.(sessions := s.sessions[c := r]))
  {
    var s' := s.(sessions := s.sessions[c := r]);
    TouchKeepsBase(s, c, r);
    hide LiveRegistered, RegisteredValidated, DistinctSessionIds;
    InvIsBaseAndOpen(s);
    InvIsBaseAndOpen(s');
    hide Inv, Base;
  }

  lemma TouchKeepsBase<C>(s: State<C>, c: C, r: Session)
    requires Base(s) && c in s.sessions
    requires r == s.sessions[c].(reading := r.reading, handlers := r.handlers, accepting := r.accepting)
    ensures Base(s.(sessions := s.sessions[c := r]))
  {
    SessionIdsStay(s.sessions, s.sessions[c := r]);
    hide DistinctSessionIds;
  }

  /** Only closed sessions in the registry can make the difference. */
  lemma InvIsBaseAndOpen<C>(s: State<C>)
    requires Base(s)
    ensures Inv(s) <==> forall id | id in s.clients :: !s.sessions[s.clients[id]].closed
  {
    if Inv(s) {
      assert LiveRegistered(s);
    } else if forall id | id in s.clients :: !s.sessions[s.clients[id]].closed {
      assert LiveRegistered(s);
    }
  }

  lemma CallKeeps<C>(s: State<C>, e: Event<C>)
    requires Base(s) && EventInv(s) && e.c in s.sessions && s.sessions[e.c].initialized
    requires e.HandlerCalled? || e.StreamCalled?
    ensures Base(s.(events := s.events + [e])) && EventInv(s.(events := s.events + [e]))
    ensures Inv(s) ==> Inv(s.(events := s.events + [e]))
  {
    RegistryIgnoresEvents(s, s.events + [e]);
    hide Inv, Base;
    CallKeepsEvents(s, e);
  }

  lemma CallKeepsEvents<C>(s: State<C>, e: Event<C>)
    requires EventInv(s) && e.c in s.sessions && s.sessions[e.c].initialized
    requires e.HandlerCalled? || e.StreamCalled?
    ensures EventInv(s.(events := s.events + [e]))
  {
    AppendKeepsOrder(s.events, e);
    hide GateHeld, OnceHeld;
    var es := s.events + [e];
    assert forall c :: Validated(c) in es <==> Validated(c) in s.events;
    assert forall c :: ConnectedCalled(c) in es <==> ConnectedCalled(c) in s.events;
    assert forall c :: DisconnectedCalled(c) in es <==> DisconnectedCalled(c) in s.events;
  }

  lemma CloseKeeps<C>(s: State<C>, c: C)
    requires Base(s) && EventInv(s) && c in s.sessions
    ensures Base(Close(s, c)) && EventInv(Close(s, c)) && c in Close(s, c).sessions
    ensures Inv(s) ==> Inv(Close(s, c))
  {
    CloseRemovesOnlyItself(s, c);
    CloseKeepsEvents(s, c);
  }

  /** A validation with what follows it keeps what always holds, and the rest unless it is late. */
  lemma WelcomeKeeps<C>(s: State<C>, c: C, d: ClientData)
    requires Base(s) && EventInv(s) && c in s.sessions && !s.sessions[c].initialized
    ensures Base(Welcome(ValidateClient(s, c, Some(d)), c)) && EventInv(Welcome(ValidateClient(s, c, Some(d)), c))
    ensures Inv(s) ==> (Inv(Welcome(ValidateClient(s, c, Some(d)), c)) <==> !s.sessions[c].closed)
  {
    ValidateShape(s, c, d);
    assert c in ValidateClient(s, c, Some(d)).sessions;
    hide Inv, Base, EventInv, ValidateClient, Welcome, ValidatedTo;
    ValidateReplaces(s, c, d);
    ValidateKeepsEvents(s, c, d);
    WelcomeKeepsEvents(ValidateClient(s, c, Some(d)), c);
    AcceptingIsFree(ValidateClient(s, c, Some(d)), c);
    if Inv(s) { ValidateNeedsOpenSession(s, c, d); }
  }

  lemma AcceptingIsFree<C>(s: State<C>, c: C)
    requires Base(s) && c in s.sessions
    ensures Base(Welcome(s, c)) && (Inv(Welcome(s, c)) <==> Inv(s))
  {
    var s' := s.(sessions := s.sessions[c := s.sessions[c].(accepting := true)]);
    TouchKeepsRegistry(s, c, s'.sessions[c]);
    RegistryIgnoresEvents(s', Welcome(s, c).events);
    hide Inv, Base;
  }

  lemma RegistryIgnoresEvents<C>(s: State<C>, events: seq<Event<C>>)
    requires Base(s)
    ensures Base(s.(events := events)) && (Inv(s.(events := events)) <==> Inv(s))
  {
  }

  lemma StopKeeps<C>(s: State<C>, c: C)
    requires Base(s) && EventInv(s) && c in s.sessions
    ensures Base(StopReading(Close(s, c), c)) && EventInv(StopReading(Close(s, c), c))
    ensures Inv(s) ==> Inv(StopReading(Close(s, c), c))
  {
    CloseKeeps(s, c);
    hide Inv, Base, EventInv;
    TouchKeeps(Close(s, c), c, Close(s, c).sessions[c].(reading := false));
  }

  lemma DeliverKeeps<C>(s: State<C>, c: C, msg: Incoming)
    requires Base(s) && EventInv(s) && Enabled(s, Receive(c, msg))
    ensures Base(Deliver(s, c, msg)) && EventInv(Deliver(s, c, msg))
    ensures Inv(s) ==> (Inv(Deliver(s, c, msg)) <==> !Late(s, Receive(c, msg)))
  {
    assert s.sessions[c].id in s.clients ==> s.clients[s.sessions[c].id] in s.sessions;
    hide Inv, Base, EventInv, Close, ValidateClient, Welcome, StopReading;
    match msg
    case ReadFailed => StopKeeps(s, c);
    case Validate(answer) =>
      if !s.sessions[c].initialized {
        if answer.None? { StopKeeps(s, c); } else { WelcomeKeeps(s, c, answer.value); }
      }
    case Other(mtype) =>
      if s.sessions[c].initialized { CallKeeps(s, HandlerCalled(c, mtype)); } else { StopKeeps(s, c); }
    case _ =>
  }

  /** Every step keeps what always holds, and keeps the registry free of closed sessions exactly
      if it is not late. */
  lemma ApplyKeeps<C>(s: State<C>, step: Step<C>)
    requires Base(s) && EventInv(s)
    ensures Base(Apply(s, step)) && EventInv(Apply(s, step))
    ensures Inv(s) ==> (Inv(Apply(s, step)) <==> !Late(s, step))
  {
    hide Inv, Base, EventInv, Close, Deliver, Accept, AcceptStream, AddHandler, Tick;
    if Enabled(s, step) {
      match step
      case NewSession(c, sessionId) => AcceptKeeps(s, c, sessionId);
      case Receive(c, msg) => DeliverKeeps(s, c, msg);
      case IncomingStream(c) => AcceptStreamKeeps(s, c);
      case RegisterHandler(c, mtype) => AddHandlerKeeps(s, c, mtype);
      case TickerFires(c) => TickKeeps(s, c);
      case CloseCalled(c) => CloseKeeps(s, c);
    }
  }

  lemma AddHandlerKeeps<C>(s: State<C>, c: C, mtype: string)
    requires Base(s) && EventInv(s) && c in s.sessions
    ensures Base(AddHandler(s, c, mtype)) && EventInv(AddHandler(s, c, mtype))
    ensures Inv(s) ==> Inv(AddHandler(s, c, mtype))
  {
    hide Inv, Base, EventInv;
    TouchKeeps(s, c, AddHandler(s, c, mtype).sessions[c]);
  }

  lemma TickKeeps<C>(s: State<C>, c: C)
    requires Base(s) && EventInv(s) && c in s.sessions
    ensures Base(Tick(s, c)) && EventInv(Tick(s, c)) && (Inv(s) ==> Inv(Tick(s, c)))
  {
    CloseKeeps(s, c);
    hide Inv, Base, EventInv, Close;
  }

  lemma AcceptStreamKeeps<C>(s: State<C>, c: C)
    requires Base(s) && EventInv(s) && c in s.sessions
    ensures Base(AcceptStream(s, c)) && EventInv(AcceptStream(s, c)) && (Inv(s) ==> Inv(AcceptStream(s, c)))
  {
    if s.sessions[c].accepting && s.cfg.onStream { CallKeeps(s, StreamCalled(c)); }
    hide Inv, Base, GateHeld, OnceHeld;
  }

  /** Every state a run can reach from a new server; `Exec` is defined on it because what always
      holds does so on the way. */
  ghost function Exec<C>(s: State<C>, steps: seq<Step<C>>): (r: State<C>)
    requires Base(s) && EventInv(s)
    ensures Base(r) && EventInv(r)
    decreases |steps|
  {
    if steps == [] then s
    else
      ApplyKeeps(s, steps[0]);
      Exec(Apply(s, steps[0]), steps[1..])
  }

  lemma EmptyHolds<C>(cfg: Config)
    ensures Inv(Init<C>(cfg)) && EventInv(Init<C>(cfg))
  {
  }

  ghost function Run<C>(cfg: Config, steps: seq<Step<C>>): (r: State<C>)
    ensures Base(r) && EventInv(r)
  {
    EmptyHolds<C>(cfg);
    Exec(Init(cfg), steps)
  }

  /** No step of the schedule validates a session that is closed. */
  ghost predicate Timely<C>(s: State<C>, steps: seq<Step<C>>)
    requires Base(s) && EventInv(s)
    decreases |steps|
  {
    steps != [] ==> !Late(s, steps[0]) && (ApplyKeeps(s, steps[0]); Timely(Apply(s, steps[0]), steps[1..]))
  }

  /**
   * The registry holds live sessions only, at every point of a run, exactly if no session is
   * validated after it was closed.
   */
  lemma RegistryIsLiveIffTimely<C>(cfg: Config, steps: seq<Step<C>>)
    ensures (EmptyHolds<C>(cfg); Timely(Init<C>(cfg), steps)) <==>
      forall k: nat | k <= |steps| :: Inv(Run<C>(cfg, steps[..k]))
  {
    EmptyHolds<C>(cfg);
    LiveIffTimely(Init<C>(cfg), steps);
    assert forall k: nat | k <= |steps| :: Run<C>(cfg, steps[..k]) == Exec(Init<C>(cfg), steps[..k]);
  }

  lemma {:induction false} LiveIffTimely<C>(s: State<C>, steps: seq<Step<C>>)
    requires Inv(s) && EventInv(s)
    ensures Timely(s, steps) <==> forall k: nat | k <= |steps| :: Inv(Exec(s, steps[..k]))
    decreases |steps|
  {
    hide Inv, EventInv, Apply, Base, Late;
    if steps == [] {
      assert steps[..0] == [];
    } else {
      ApplyKeeps(s, steps[0]);
      var s1, rest := Apply(s, steps[0]), steps[1..];
      forall k: nat | 0 < k <= |steps| ensures Exec(s, steps[..k]) == Exec(s1, rest[..k - 1]) {
        assert steps[..k][1..] == rest[..k - 1];
      }
      assert Exec(s, steps[..0]) == s;
      assert rest[..0] == [];
      if Late(s, steps[0]) {
        assert Exec(s, steps[..1]) == Exec(s1, rest[..0]) == s1;
      } else {
        LiveIffTimely(s1, rest);
        forall k: nat | k <= |rest| ensures Exec(s1, rest[..k]) == Exec(s, steps[..k + 1]) {
          assert steps[..k + 1][1..] == rest[..k];
        }
      }
    }
  }

  /** What a late validation comes to: a lookup finds a closed session. */
  lemma LateListsClosed<C>(s: State<C>, c: C, d: ClientData)
    requires Base(s) && Late(s, Receive(c, Validate(Some(d))))
    ensures var s' := Apply(s, Receive(c, Validate(Some(d))));
      GetClient(s', d.id) == Some(c) && c in s'.sessions && s'.sessions[c].closed
  {
    ValidateReplaces(s, c, d);
    ValidateShape(s, c, d);
    hide ValidateClient, Base;
  }

  /** A run in which this happens: the session is closed while its validation is under way. */
  lemma LateValidationListsClosedSession<C>(cfg: Config, c: C, d: ClientData)
    ensures var s := Run(cfg, [NewSession(c, "x"), CloseCalled(c)]);
      && Inv(s) && Late(s, Receive(c, Validate(Some(d))))
      && var s' := Apply(s, Receive(c, Validate(Some(d))));
      GetClient(s', d.id) == Some(c) && c in s'.sessions && s'.sessions[c].closed && !Inv(s')
  {
    EmptyHolds<C>(cfg);
    var s0 := Init<C>(cfg);
    var open, closed := NewSession(c, "x"), CloseCalled(c);
    ApplyKeeps(s0, open);
    var s1 := Apply(s0, open);
    ApplyKeeps(s1, closed);
    var s2 := Apply(s1, closed);
    assert Late(s2, Receive(c, Validate(Some(d))));
    hide Inv, EventInv, Base, Apply, Late;
    assert [open, closed][1..] == [closed] && [closed][1..] == [];
    assert Exec(s1, [closed]) == Exec(s2, []);
    assert Run(cfg, [open, closed]) == s2;
    LateListsClosed(s2, c, d);
    ApplyKeeps(s2, Receive(c, Validate(Some(d))));
  }

  // ----- how sessions age -------------------------------------------------------------------

  /** Validated sessions stay validated, with the same id, tags and context; none became validated and
      none came to life; only new sessions appeared. */
  ghost predicate Ages<C>(s: State<C>, s': State<C>) {
    && s.sessions.Keys <= s'.sessions.Keys
    && (forall c | c in s'.sessions ::
          if c in s.sessions then SessionAges(s.sessions[c], s'.sessions[c]) else !s'.sessions[c].initialized)
  }

  predicate SessionAges(r: Session, r': Session) {
    && r'.initialized == r.initialized && (r.closed ==> r'.closed)
    && (r.initialized ==> r'.id == r.id && r'.ctx == r.ctx && r'.tags == r.tags)
  }

  lemma CloseAges<C>(s: State<C>, c: C)
    requires Base(s) && c in s.sessions
    ensures Ages(s, Close(s, c)) && Ages(s, StopReading(Close(s, c), c))
  {
  }

  lemma DeliverAges<C>(s: State<C>, c: C, msg: Incoming)
    requires Base(s) && c in s.sessions && !msg.Validate?
    ensures Ages(s, Deliver(s, c, msg))
  {
    CloseAges(s, c);
    SameSessionsAge(s, Deliver(s, c, msg));
    hide Ages, Close, StopReading, Base;
  }

  lemma TouchAges<C>(s: State<C>, c: C, mtype: string)
    requires c in s.sessions
    ensures Ages(s, AddHandler(s, c, mtype))
  {
  }

  lemma AcceptAges<C>(s: State<C>, c: C, sessionId: string)
    requires c !in s.sessions
    ensures Ages(s, Accept(s, c, sessionId))
  {
  }

  /** Sessions age by all steps but validations. */
  lemma StepAges<C>(s: State<C>, step: Step<C>)
    requires Base(s) && !(step.Receive? && step.msg.Validate?)
    ensures Ages(s, Apply(s, step))
  {
    SameSessionsAge(s, Apply(s, step));
    hide Ages, Close, Deliver, Base;
    if Enabled(s, step) {
      match step
      case NewSession(c, sessionId) => AcceptAges(s, c, sessionId);
      case Receive(c, msg) => DeliverAges(s, c, msg);
      case RegisterHandler(c, mtype) => TouchAges(s, c, mtype);
      case IncomingStream(c) =>
      case TickerFires(c) => CloseAges(s, c);
      case CloseCalled(c) => CloseAges(s, c);
    }
  }

  /** Such steps keep all that a step can keep. */
  lemma AgingStepKeeps<C>(s: State<C>, step: Step<C>)
    requires Base(s) && EventInv(s) && !(step.Receive? && step.msg.Validate?)
    ensures Base(Apply(s, step)) && EventInv(Apply(s, step)) && Ages(s, Apply(s, step))
    ensures Inv(s) ==> Inv(Apply(s, step))
  {
    assert !Late(s, step);
    hide Base, Inv, EventInv, Late, Apply, Ages;
    ApplyKeeps(s, step);
    StepAges(s, step);
  }

  lemma SameSessionsAge<C>(s: State<C>, s': State<C>)
    ensures s'.sessions == s.sessions ==> Ages(s, s')
  {
  }

  lemma AgesTwice<C>(s: State<C>, s': State<C>, s'': State<C>)
    requires Ages(s, s') && Ages(s', s'')
    ensures Ages(s, s'')
  {
  }

  /** A successful validation changes the validated session, and closes at most one other. */
  ghost predicate ValidatedOnly<C>(s: State<C>, c: C, d: ClientData, s': State<C>) {
    && s'.sessions.Keys == s.sessions.Keys
    && c in s.sessions
    && s'.sessions[c].initialized && ClientData(s'.sessions[c].id, s'.sessions[c].tags, s'.sessions[c].ctx) == d
    && s'.sessions[c].closed == s.sessions[c].closed
    && (forall k | k in s.sessions && k != c :: SessionAges(s.sessions[k], s'.sessions[k]))
  }

  lemma ValidatedAges<C>(s: State<C>, c: C, d: ClientData)
    requires Base(s) && EventInv(s) && c in s.sessions && !s.sessions[c].initialized
    ensures var s' := Deliver(s, c, Validate(Some(d)));
      && Base(s') && EventInv(s') && ValidatedOnly(s, c, d, s')
      && (Inv(s) ==> (Inv(s') <==> !s.sessions[c].closed))
  {
    WelcomeKeeps(s, c, d);
    ValidateShape(s, c, d);
    hide Inv, Base, EventInv, ValidateClient, ValidatedTo, ValidatedOnly;
    ShapeAges(s, c, d, ValidateClient(s, c, Some(d)));
    WelcomeAges(s, c, d, ValidateClient(s, c, Some(d)));
  }

  lemma ShapeAges<C>(s: State<C>, c: C, d: ClientData, s': State<C>)
    requires c in s.sessions && ValidatedTo(s, c, d, s')
    ensures ValidatedOnly(s, c, d, s')
  {
  }

  lemma WelcomeAges<C>(s: State<C>, c: C, d: ClientData, s': State<C>)
    requires ValidatedOnly(s, c, d, s')
    ensures ValidatedOnly(s, c, d, Welcome(s', c))
  {
  }

  // ----- lookups ----------------------------------------------------------------------------

  /** `GetClient`. */
  function GetClient<C(==)>(s: State<C>, id: string): Option<C> {
    if id in s.clients then Some(s.clients[id]) else None
  }

  /** The sessions `GetClientsWithTag` collects. */
  ghost function WithTag<C>(s: State<C>, tag: string): set<C>
    requires LeadsHome(s)
  {
    set id | id in s.clients && tag in s.sessions[s.clients[id]].tags :: s.clients[id]
  }

  /**
   * In every reachable state: there is at most one live session per id, and a lookup finds it if
   * there is one, by its id and by its tags. What lookups find is live without exception exactly
   * as long as the registry holds live sessions only.
   */
  lemma LookupsFindTheLive<C(!new)>(cfg: Config, steps: seq<Step<C>>)
    ensures var s := Run(cfg, steps);
      && (forall c | c in s.sessions && Live(s.sessions[c]) :: GetClient(s, s.sessions[c].id) == Some(c))
      && (forall c, tag :: c in WithTag(s, tag) <==>
            c in s.sessions && tag in s.sessions[c].tags && GetClient(s, s.sessions[c].id) == Some(c))
      && (forall id, c | GetClient(s, id) == Some(c) ::
            c in s.sessions && s.sessions[c].id == id && Validated(c) in s.events)
      && (Inv(s) <==> forall id, c | GetClient(s, id) == Some(c) :: c in s.sessions && !s.sessions[c].closed)
  {
    var s := Run(cfg, steps);
    hide Run;
    if forall id, c | GetClient(s, id) == Some(c) :: c in s.sessions && !s.sessions[c].closed {
      forall id | id in s.clients ensures Live(s.sessions[s.clients[id]]) {
        assert GetClient(s, id) == Some(s.clients[id]);
      }
      assert LiveRegistered(s);
    }
  }

  // ----- the gate over whole runs -----------------------------------------------------------

  /**
   * In every run: each connected callback, handler call and stream call is preceded by the
   * validation of its session; no session is validated, announced as connected or announced as
   * disconnected twice; and when the disconnected callback is set it has been called exactly for
   * the closed sessions.
   */
  lemma DispatchGate<C>(cfg: Config, steps: seq<Step<C>>)
    ensures var s := Run(cfg, steps);
      && (forall k | 0 <= k < |s.events| && Gated(s.events[k]) ::
            exists j | 0 <= j < k :: s.events[j] == Validated(s.events[k].c))
      && (forall j, k | 0 <= j < k < |s.events| && AtMostOnce(s.events[k]) :: s.events[j] != s.events[k])
      && (forall c | c in s.sessions :: Validated(c) in s.events <==> s.sessions[c].initialized)
      && (cfg.onDisconnected ==> forall c | c in s.sessions :: DisconnectedCalled(c) in s.events <==>
        s.sessions[c].closed)
  {
    EmptyHolds<C>(cfg);
    ConfigStays(Init<C>(cfg), steps);
    var s := Run(cfg, steps);
    assert s.cfg == cfg;
    hide Run;
    GatePrecedes(s.events);
  }

  lemma GatePrecedes<C>(events: seq<Event<C>>)
    requires GateHeld(events)
    ensures forall k | 0 <= k < |events| && Gated(events[k]) :: exists j | 0 <= j < k ::
      events[j] == Validated(events[k].c)
  {
    forall k | 0 <= k < |events| && Gated(events[k])
      ensures exists j | 0 <= j < k :: events[j] == Validated(events[k].c) {
      assert Validated(events[k].c) in events[..k];
      var j :| 0 <= j < k && events[..k][j] == Validated(events[k].c);
      assert events[j] == Validated(events[k].c);
    }
  }

  lemma {:induction false} ConfigStays<C>(s: State<C>, steps: seq<Step<C>>)
    requires Base(s) && EventInv(s)
    ensures Exec(s, steps).cfg == s.cfg
    decreases |steps|
  {
    if steps != [] {
      ApplyKeeps(s, steps[0]);
      StepKeepsConfig(s, steps[0]);
      ConfigStays(Apply(s, steps[0]), steps[1..]);
    }
  }

  lemma StepKeepsConfig<C>(s: State<C>, step: Step<C>)
    requires Base(s)
    ensures Apply(s, step).cfg == s.cfg
  {
  }

  // ----- what a step does, and what it does not ---------------------------------------------

  predicate IsRead<C(==)>(s: State<C>, c: C) {
    c in s.sessions && s.sessions[c].reading
  }

  /** The step is a validation of the session that the application approves. */
  predicate Validates<C(==)>(s: State<C>, step: Step<C>, c: C) {
    && step.Receive? && step.c == c && IsRead(s, c) && !s.sessions[c].initialized
    && step.msg.Validate? && step.msg.answer.Some?
  }

  /** What ends the session that sent it: a failed read, and before the validation a refusal and
      any message for a handler. */
  predicate Ends<C(==)>(s: State<C>, step: Step<C>, c: C) {
    && step.Receive? && step.c == c && IsRead(s, c)
    && (step.msg.ReadFailed?
        || (!s.sessions[c].initialized && (step.msg.Other? || (step.msg.Validate? && step.msg.answer.None?))))
  }

  /** Another session is validated under the id that leads to this one. */
  predicate Replaces<C(==)>(s: State<C>, step: Step<C>, c: C) {
    && step.Receive? && Validates(s, step, step.c)
    && step.msg.answer.value.id in s.clients && s.clients[step.msg.answer.value.id] == c
  }

  predicate Closes<C(==)>(s: State<C>, step: Step<C>, c: C) {
    && c in s.sessions && !s.sessions[c].closed
    && (step == CloseCalled(c) || (step == TickerFires(c) && !s.sessions[c].initialized)
        || Ends(s, step, c) || Replaces(s, step, c))
  }

  /** The step calls this into the application. */
  predicate Causes<C(==)>(s: State<C>, step: Step<C>, e: Event<C>) {
    match e
    case Validated(c) => Validates(s, step, c)
    case ConnectedCalled(c) => Validates(s, step, c) && s.cfg.onConnected
    case HandlerCalled(c, mtype) =>
      && step == Receive(c, Other(mtype)) && IsRead(s, c) && s.sessions[c].initialized
      && (mtype in s.sessions[c].handlers || mtype in s.cfg.handlers)
    case StreamCalled(c) =>
      step == IncomingStream(c) && c in s.sessions && s.sessions[c].accepting && s.cfg.onStream
    case DisconnectedCalled(c) => Closes(s, step, c) && s.cfg.onDisconnected
  }

  /** What the step leaves of a session that was there before. */
  ghost predicate SessionFollows<C>(s: State<C>, step: Step<C>, c: C, r': Session)
    requires c in s.sessions
  {
    var r := s.sessions[c];
    && r'.sessionId == r.sessionId
    && (r'.initialized <==> r.initialized || Validates(s, step, c))
    && (r'.accepting <==> r.accepting || Validates(s, step, c))
    && (r'.closed <==> r.closed || Closes(s, step, c))
    && (r'.reading <==> r.reading && !Ends(s, step, c))
    && ClientData(r'.id, r'.tags, r'.ctx) ==
      (if Validates(s, step, c) then step.msg.answer.value else ClientData(r.id, r.tags, r.ctx))
    && r'.handlers ==
      (if Closes(s, step, c) then {}
       else if step.RegisterHandler? && step.c == c then r.handlers + {step.mtype}
       else r.handlers)
  }

  /** The callbacks of a step, each once, after those before. */
  ghost predicate Follows<C(!new)>(s: State<C>, step: Step<C>, s': State<C>) {
    && s'.cfg == s.cfg && s.events <= s'.events
    && (var more := s'.events[|s.events|..];
        && (forall e :: e in more <==> Causes(s, step, e))
        && (forall i, j | 0 <= i < j < |more| :: more[i] != more[j]))
    && (forall c | c in s'.sessions && c !in s.sessions ::
          step.NewSession? && step.c == c && Enabled(s, step)
          && s'.sessions[c] == Session(step.sessionId, "", map[], NoContext, false, false, true, false, {}))
    && (step.NewSession? && Enabled(s, step) ==> step.c in s'.sessions)
    && (forall c | c in s.sessions :: c in s'.sessions && SessionFollows(s, step, c, s'.sessions[c]))
  }

  /**
   * Every step, in full: which callbacks it makes, which sessions it opens, validates and closes,
   * which stop being read and start to accept streams, and what becomes of their data and handlers.
   */
  lemma StepFollows<C(!new)>(s: State<C>, step: Step<C>)
    requires Base(s) && EventInv(s)
    ensures Follows(s, step, Apply(s, step))
  {
    hide Base, EventInv, Apply;
    StepCalls(s, step);
    StepChangesSessions(s, step);
    var more := Calls(s, step);
    assert (s.events + more)[|s.events|..] == more;
    CallsAreCaused(s, step);
    hide Calls, Causes, SessionFollows, Enabled;
  }

  /** The handler calls among the callbacks. */
  function HandlerCalls<C>(events: seq<Event<C>>): seq<Event<C>> {
    if events == [] then []
    else (if events[0].HandlerCalled? then [events[0]] else []) + HandlerCalls(events[1..])
  }

  /** The messages of a schedule that find their session validated and their type registered, with
      the session or with the server, one call for each. */
  ghost function Dispatched<C>(s: State<C>, steps: seq<Step<C>>): seq<Event<C>>
    requires Base(s) && EventInv(s)
    decreases |steps|
  {
    if steps == [] then []
    else
      ApplyKeeps(s, steps[0]);
      DispatchedBy(s, steps[0]) + Dispatched(Apply(s, steps[0]), steps[1..])
  }

  ghost function DispatchedBy<C>(s: State<C>, step: Step<C>): seq<Event<C>> {
    if step.Receive? && step.msg.Other? && Causes(s, step, HandlerCalled(step.c, step.msg.mtype))
      then [HandlerCalled(step.c, step.msg.mtype)] else []
  }

  lemma {:induction false} HandlerCallsOfBoth<C>(events: seq<Event<C>>, more: seq<Event<C>>)
    ensures HandlerCalls(events + more) == HandlerCalls(events) + HandlerCalls(more)
  {
    if events == [] {
      assert events + more == more;
    } else {
      assert (events + more)[1..] == events[1..] + more;
      HandlerCallsOfBoth(events[1..], more);
    }
  }

  lemma {:induction false} NoHandlerCalls<C>(events: seq<Event<C>>)
    requires forall e | e in events :: !e.HandlerCalled?
    ensures HandlerCalls(events) == []
  {
    if events != [] { NoHandlerCalls(events[1..]); }
  }

  lemma StepDispatches<C(!new)>(s: State<C>, step: Step<C>)
    requires Base(s) && EventInv(s)
    ensures HandlerCalls(Apply(s, step).events) == HandlerCalls(s.events) + DispatchedBy(s, step)
  {
    StepCalls(s, step);
    HandlerCallsOfBoth(s.events, Calls(s, step));
    CallsAreCaused(s, step);
    hide Base, EventInv, Apply;
    if DispatchedBy(s, step) == [] {
      hide Calls;
      NoHandlerCalls(Calls(s, step));
    } else {
      assert Calls(s, step) == DispatchedBy(s, step);
    }
  }

  /**
   * In every run, the handlers are called for exactly the messages of sessions that are validated
   * by then and of types registered by then, in the order of the messages, once each.
   */
  lemma HandlersCalledExactly<C(!new)>(cfg: Config, steps: seq<Step<C>>)
    ensures HandlerCalls(Run(cfg, steps).events) == (EmptyHolds<C>(cfg); Dispatched(Init<C>(cfg), steps))
  {
    EmptyHolds<C>(cfg);
    DispatchedFrom(Init<C>(cfg), steps);
  }

  lemma {:induction false} DispatchedFrom<C(!new)>(s: State<C>, steps: seq<Step<C>>)
    requires Base(s) && EventInv(s)
    ensures HandlerCalls(Exec(s, steps).events) == HandlerCalls(s.events) + Dispatched(s, steps)
    decreases |steps|
  {
    hide Base, EventInv, Inv, Apply, DispatchedBy;
    if steps != [] {
      ApplyKeeps(s, steps[0]);
      StepDispatches(s, steps[0]);
      DispatchedFrom(Apply(s, steps[0]), steps[1..]);
    }
  }

  /** The callbacks of a step in the order it makes them. */
  function Calls<C(==)>(s: State<C>, step: Step<C>): seq<Event<C>> {
    if !Enabled(s, step) then []
    else match step
      case Receive(c, Validate(Some(d))) =>
        if s.sessions[c].initialized then []
        else
          [Validated(c)]
          + (if d.id in s.clients then DisconnectCall(s, s.clients[d.id]) else [])
          + (if s.cfg.onConnected then [ConnectedCalled(c)] else [])
      case Receive(c, Other(mtype)) =>
        if !s.sessions[c].initialized then DisconnectCall(s, c)
        else if mtype in s.sessions[c].handlers || mtype in s.cfg.handlers then [HandlerCalled(c, mtype)] else []
      case Receive(c, ReadFailed) => DisconnectCall(s, c)
      case Receive(c, Validate(None)) => if s.sessions[c].initialized then [] else DisconnectCall(s, c)
      case IncomingStream(c) => if s.sessions[c].accepting && s.cfg.onStream then [StreamCalled(c)] else []
      case TickerFires(c) => if s.sessions[c].initialized then [] else DisconnectCall(s, c)
      case CloseCalled(c) => DisconnectCall(s, c)
      case _ => []
  }

  function DisconnectCall<C(==)>(s: State<C>, c: C): seq<Event<C>> {
    if c in s.sessions && !s.sessions[c].closed && s.cfg.onDisconnected then [DisconnectedCalled(c)] else []
  }

  lemma ValidateCalls<C>(s: State<C>, c: C, d: ClientData)
    requires Base(s) && c in s.sessions && !s.sessions[c].initialized
    ensures var s' := ValidateClient(s, c, Some(d));
      && s'.events == s.events + [Validated(c)] + (if d.id in s.clients then DisconnectCall(s, s.clients[d.id]) else [])
      && s'.cfg == s.cfg && c in s'.sessions
  {
    assert d.id in s.clients ==> s.clients[d.id] != c && LeadsHome(s);
    hide Base;
  }

  lemma StepCalls<C>(s: State<C>, step: Step<C>)
    requires Base(s)
    ensures Apply(s, step).events == s.events + Calls(s, step) && Apply(s, step).cfg == s.cfg
  {
    assert LeadsHome(s);
    hide Base, ValidateClient;
    if Enabled(s, step) && step.Receive? && step.msg.Validate? && step.msg.answer.Some? {
      if !s.sessions[step.c].initialized { ValidateCalls(s, step.c, step.msg.answer.value); }
    }
  }

  lemma CallsAreCaused<C(!new)>(s: State<C>, step: Step<C>)
    requires Base(s) && EventInv(s)
    ensures forall e :: e in Calls(s, step) <==> Causes(s, step, e)
    ensures forall i, j | 0 <= i < j < |Calls(s, step)| :: Calls(s, step)[i] != Calls(s, step)[j]
  {
    assert LeadsHome(s) && RegisteredValidated(s);
    hide Base, EventInv;
    hide Calls, Causes;
    if !step.Receive? {
      CallIsCaused(s, step);
    } else if !Enabled(s, step) {
      UnreadCausesNothing(s, step.c, step.msg);
    } else if Validates(s, step, step.c) {
      ValidationIsCaused(s, step.c, step.msg.answer.value);
    } else {
      MessageIsCaused(s, step.c, step.msg);
    }
  }

  lemma CallIsCaused<C(!new)>(s: State<C>, step: Step<C>)
    requires !step.Receive?
    ensures forall e :: e in Calls(s, step) <==> Causes(s, step, e)
    ensures |Calls(s, step)| <= 1
  {
  }

  lemma UnreadCausesNothing<C(!new)>(s: State<C>, c: C, msg: Incoming)
    requires !IsRead(s, c)
    ensures Calls(s, Receive(c, msg)) == [] && forall e :: !Causes(s, Receive(c, msg), e)
  {
  }

  lemma ValidationIsCaused<C(!new)>(s: State<C>, c: C, d: ClientData)
    requires LeadsHome(s) && Validates(s, Receive(c, Validate(Some(d))), c)
    ensures var step := Receive(c, Validate(Some(d)));
      && (forall e :: e in Calls(s, step) <==> Causes(s, step, e))
      && (forall i, j | 0 <= i < j < |Calls(s, step)| :: Calls(s, step)[i] != Calls(s, step)[j])
  {
    var step := Receive(c, Validate(Some(d)));
    assert Enabled(s, step) && forall k :: Replaces(s, step, k) <==> d.id in s.clients && s.clients[d.id] == k;
    hide Enabled, LeadsHome;
  }

  lemma MessageIsCaused<C(!new)>(s: State<C>, c: C, msg: Incoming)
    requires IsRead(s, c) && !Validates(s, Receive(c, msg), c)
    ensures var step := Receive(c, msg);
      && (forall e :: e in Calls(s, step) <==> Causes(s, step, e))
      && (forall i, j | 0 <= i < j < |Calls(s, step)| :: Calls(s, step)[i] != Calls(s, step)[j])
  {
    var step := Receive(c, msg);
    assert Enabled(s, step) && forall k :: !Validates(s, step, k) && !Replaces(s, step, k);
    hide Enabled, Validates, Replaces;
  }

  lemma StepChangesSessions<C>(s: State<C>, step: Step<C>)
    requires Base(s) && EventInv(s)
    ensures var s' := Apply(s, step);
      && (forall c | c in s'.sessions && c !in s.sessions ::
            step.NewSession? && step.c == c && Enabled(s, step)
            && s'.sessions[c] == Session(step.sessionId, "", map[], NoContext, false, false, true, false, {}))
      && (step.NewSession? && Enabled(s, step) ==> step.c in s'.sessions)
      && (forall c | c in s.sessions :: c in s'.sessions && SessionFollows(s, step, c, s'.sessions[c]))
  {
    assert LeadsHome(s) && RegisteredValidated(s) && (forall c | c in s.sessions :: s.sessions[c].accepting ==>
      s.sessions[c].initialized);
    hide Base, EventInv;
    if step.Receive? && Validates(s, step, step.c) {
      hide Deliver;
      ValidationChanges(s, step.c, step.msg.answer.value);
    } else {
      OtherChanges(s, step);
    }
  }

  lemma ValidationChanges<C>(s: State<C>, c: C, d: ClientData)
    requires Base(s) && Validates(s, Receive(c, Validate(Some(d))), c)
    ensures var s' := Apply(s, Receive(c, Validate(Some(d))));
      && s'.sessions.Keys == s.sessions.Keys
      && forall k | k in s.sessions :: SessionFollows(s, Receive(c, Validate(Some(d))), k, s'.sessions[k])
  {
    var s1 := ValidateClient(s, c, Some(d));
    assert Apply(s, Receive(c, Validate(Some(d)))) == Welcome(s1, c);
    ValidateShape(s, c, d);
    assert d.id in s.clients ==> s.clients[d.id] in s.sessions && s.sessions[s.clients[d.id]].initialized;
    hide Apply, Base, ValidateClient, ValidatedTo;
    ValidatedFollows(s, c, d, s1);
  }

  lemma ValidatedFollows<C>(s: State<C>, c: C, d: ClientData, s': State<C>)
    requires Validates(s, Receive(c, Validate(Some(d))), c) && ValidatedTo(s, c, d, s')
    requires d.id in s.clients ==> s.clients[d.id] in s.sessions && s.sessions[s.clients[d.id]].initialized
    ensures Welcome(s', c).sessions.Keys == s.sessions.Keys
    ensures forall k | k in s.sessions ::
      SessionFollows(s, Receive(c, Validate(Some(d))), k, Welcome(s', c).sessions[k])
  {
  }

  lemma OtherChanges<C>(s: State<C>, step: Step<C>)
    requires Base(s) && !(step.Receive? && Validates(s, step, step.c))
    ensures var s' := Apply(s, step);
      && (forall c | c in s'.sessions && c !in s.sessions ::
            step.NewSession? && step.c == c && Enabled(s, step)
            && s'.sessions[c] == Session(step.sessionId, "", map[], NoContext, false, false, true, false, {}))
      && (step.NewSession? && Enabled(s, step) ==> step.c in s'.sessions)
      && (forall c | c in s.sessions :: c in s'.sessions && SessionFollows(s, step, c, s'.sessions[c]))
  {
    assert LeadsHome(s);
    hide Base, Deliver, Close, SessionFollows;
    if !Enabled(s, step) {
      NothingFollows(s, step);
    } else {
      match step
      case NewSession(c, sessionId) => NothingFollows(s, step);
      case Receive(c, msg) => ReceiveChanges(s, c, msg);
      case IncomingStream(c) => NothingFollows(s, step);
      case RegisterHandler(c, mtype) => HandlerFollows(s, c, mtype);
      case TickerFires(c) =>
        if s.sessions[c].initialized { NothingFollows(s, step); } else { CloseFollows(s, c, step); }
      case CloseCalled(c) => CloseFollows(s, c, step);
    }
  }

  lemma NothingFollows<C>(s: State<C>, step: Step<C>)
    requires forall c :: !Validates(s, step, c)
    requires !Enabled(s, step) || step.NewSession? || step.IncomingStream?
      || (step.TickerFires? && s.sessions[step.c].initialized)
    ensures forall c | c in s.sessions :: SessionFollows(s, step, c, s.sessions[c])
  {
  }

  lemma HandlerFollows<C>(s: State<C>, c: C, mtype: string)
    requires c in s.sessions
    ensures forall k | k in s.sessions ::
      SessionFollows(s, RegisterHandler(c, mtype), k, AddHandler(s, c, mtype).sessions[k])
  {
  }

  lemma CloseFollows<C>(s: State<C>, c: C, step: Step<C>)
    requires LeadsHome(s) && c in s.sessions
    requires step == CloseCalled(c) || (step == TickerFires(c) && !s.sessions[c].initialized)
    ensures Close(s, c).sessions.Keys == s.sessions.Keys
    ensures forall k | k in s.sessions :: SessionFollows(s, step, k, Close(s, c).sessions[k])
  {
    CloseShape(s, c);
    hide Close;
  }

  lemma CloseShape<C>(s: State<C>, c: C)
    requires LeadsHome(s) && c in s.sessions
    ensures var s' := Close(s, c);
      s'.sessions == if s.sessions[c].closed then s.sessions
        else s.sessions[c := s.sessions[c].(closed := true, handlers := {})]
  {
  }

  lemma ReceiveChanges<C>(s: State<C>, c: C, msg: Incoming)
    requires Base(s) && IsRead(s, c) && !Validates(s, Receive(c, msg), c)
    ensures var s' := Deliver(s, c, msg);
      && s'.sessions.Keys == s.sessions.Keys
      && forall k | k in s.sessions :: SessionFollows(s, Receive(c, msg), k, s'.sessions[k])
  {
    assert LeadsHome(s);
    hide Base, Close, ValidateClient, Welcome;
    if Ends(s, Receive(c, msg), c) {
      assert Deliver(s, c, msg) == StopReading(Close(s, c), c);
      hide Deliver;
      EndFollows(s, c, msg);
    } else {
      assert Deliver(s, c, msg).sessions == s.sessions;
      hide Deliver;
      HeardFollows(s, c, msg);
    }
  }

  lemma EndFollows<C>(s: State<C>, c: C, msg: Incoming)
    requires LeadsHome(s) && Ends(s, Receive(c, msg), c) && !Validates(s, Receive(c, msg), c)
    ensures var s' := StopReading(Close(s, c), c);
      && s'.sessions.Keys == s.sessions.Keys
      && forall k | k in s.sessions :: SessionFollows(s, Receive(c, msg), k, s'.sessions[k])
  {
    CloseShape(s, c);
    hide Close;
  }

  lemma HeardFollows<C>(s: State<C>, c: C, msg: Incoming)
    requires IsRead(s, c) && !Ends(s, Receive(c, msg), c) && !Validates(s, Receive(c, msg), c)
    ensures forall k | k in s.sessions :: SessionFollows(s, Receive(c, msg), k, s.sessions[k])
  {
  }

  // ----- closing the server -----------------------------------------------------------------

  /** One turn of the loop of `Close`: the session is closed and its entry deleted in any case. */
  function CloseEntry<C(==)>(s: State<C>, id: string): State<C>
    requires LeadsHome(s) && id in s.clients
  {
    var s' := Close(s, s.clients[id]);
    s'.(clients := s'.clients - {id})
  }

  lemma CloseEntryKeeps<C>(s: State<C>, id: string)
    requires Base(s) && id in s.clients
    ensures Base(CloseEntry(s, id)) && CloseEntry(s, id).clients == s.clients - {id}
    ensures forall c | c in s.sessions && (s.sessions[c].closed || c == s.clients[id]) ::
      c in CloseEntry(s, id).sessions && CloseEntry(s, id).sessions[c].closed
  {
    var s' := CloseEntry(s, id);
    assert s'.clients == s.clients - {id};
    assert forall k | k in s'.clients :: s.clients[k] != s.clients[id];
  }

  /** The entries closed one after the other. */
  ghost function CloseEach<C>(s: State<C>, order: seq<string>): (r: State<C>)
    requires Base(s)
    ensures Base(r)
    decreases |order|
  {
    if order == [] then s
    else if order[0] !in s.clients then CloseEach(s, order[1..])
    else
      CloseEntryKeeps(s, order[0]);
      CloseEach(CloseEntry(s, order[0]), order[1..])
  }

  lemma {:induction false} CloseEachAppend<C>(s: State<C>, order: seq<string>, id: string)
    requires Base(s) && id in CloseEach(s, order).clients
    ensures CloseEach(s, order + [id]) == CloseEntry(CloseEach(s, order), id)
    decreases |order|
  {
    hide Base, CloseEntry;
    if order == [] {
      CloseEntryKeeps(s, id);
      assert ([] + [id])[1..] == [];
    } else {
      assert (order + [id])[1..] == order[1..] + [id];
      if order[0] !in s.clients {
        CloseEachAppend(s, order[1..], id);
      } else {
        CloseEntryKeeps(s, order[0]);
        CloseEachAppend(CloseEntry(s, order[0]), order[1..], id);
      }
    }
  }

  /** In the middle of closing the server: the entries of `order` were closed so far. */
  ghost predicate Closing<C>(start: State<C>, order: seq<string>, now: State<C>) {
    Base(start) && now == CloseEach(start, order) && ClosedSoFar(start.clients, order, now)
  }

  ghost predicate ClosedSoFar<C>(clients: map<string, C>, order: seq<string>, now: State<C>) {
    && (forall id | id in now.clients :: id in clients && now.clients[id] == clients[id])
    && (forall id | id in clients :: id in order <==> id !in now.clients)
    && (forall id | id in order :: id in clients && clients[id] in now.sessions && now.sessions[clients[id]].closed)
  }

  lemma ClosingBegins<C>(s: State<C>)
    requires Base(s)
    ensures Closing(s, [], s)
  {
  }

  lemma ClosedOneMore<C>(clients: map<string, C>, order: seq<string>, now: State<C>, id: string)
    requires Base(now) && ClosedSoFar(clients, order, now) && id in now.clients
    ensures ClosedSoFar(clients, order + [id], CloseEntry(now, id))
  {
    CloseEntryKeeps(now, id);
    hide Base, CloseEntry;
  }

  lemma ClosingStep<C>(start: State<C>, order: seq<string>, now: State<C>, id: string)
    requires Closing(start, order, now) && id in now.clients
    ensures Base(now) && Closing(start, order + [id], CloseEntry(now, id))
    ensures CloseEntry(now, id).clients == now.clients - {id}
  {
    CloseEachAppend(start, order, id);
    CloseEntryKeeps(now, id);
    hide Base, CloseEntry, CloseEach, ClosedSoFar;
    ClosedOneMore(start.clients, order, now, id);
  }

  lemma ClosingDone<C>(start: State<C>, order: seq<string>, now: State<C>)
    requires Closing(start, order, now) && now.clients == map[]
    ensures now == CloseEach(start, order) && (set id | id in order) == start.clients.Keys && Base(now)
    ensures forall id | id in start.clients ::
      start.clients[id] in now.sessions && now.sessions[start.clients[id]].closed
  {
    hide Base, CloseEach;
  }

  lemma SameElsewhere<C>(before: map<C, Session>, after: map<C, Session>, c: C)
    requires before.Keys == after.Keys && c in before
    requires forall k | k in before && k != c :: after[k] == before[k]
    ensures after == before[c := after[c]]
  {
  }

  /** `Close` of an open session, part by part; `own` says whether the registry leads to it. */
  lemma CloseIs<C>(s: State<C>, c: C, own: bool, s': State<C>)
    requires c in s.sessions && !s.sessions[c].closed
    requires s.sessions[c].id in s.clients ==> s.clients[s.sessions[c].id] in s.sessions
    requires own == (s.sessions[c].id in s.clients
      && s.sessions[s.clients[s.sessions[c].id]].sessionId == s.sessions[c].sessionId)
    requires s'.cfg == s.cfg
    requires s'.sessions == s.sessions[c := ClosedSession(s.sessions[c])]
    requires s'.clients == if own then s.clients - {s.sessions[c].id} else s.clients
    requires s'.events == if s.cfg.onDisconnected then s.events + [DisconnectedCalled(c)] else s.events
    ensures s' == Close(s, c)
  {
  }
}
