/**
 * Setting up a connection between a source, the broker and a target as a state machine. The
 * broker's registry is that of `Registry`; requests and replies travel as the sound calls that
 * `AckProtocol.SenderBehavesAsCall` provides, so a reply that comes back was written for that
 * request, while timeouts, closed channels and failed writes may end any call.
 */
module BrokerProtocol {
  import opened Prelude
  import opened BrokerSpec
  import opened Calls
  import R = Registry

  /** Where the broker is with a request: not reached, turned down at once, or passed on to a
      target. The target may answer after the broker stopped waiting for it. */
  datatype Pc<C> =
    | Requested
    | TurnedDown
    | Offering(target: C, offer: Call<Offer, OfferReply>, handled: bool)

  /** One request of a source, from its `createConnection` to the end. The connection the broker
      makes for it is named by the number of the task. */
  datatype Task<C> = Task(source: C, ask: Call<Request, Reply>, pc: Pc<C>)

  /** What was stored or built, in order; `relay` is the address the broker reports with it. */
  datatype Event =
    | TargetStored(task: nat, peerConn: PeerConn)
    | BrokerStored(task: nat, conn: Conn, relay: string)
    | SourceBuilt(task: nat, peerConn: PeerConn)

  datatype Sys<C(==)> = Sys(reg: R.State<C>, table: Table<nat>, tasks: map<nat, Task<C>>, events: seq<Event>)

  datatype Step<+C> =
    | SessionStep(step: R.Step<C>)
    | SourceAsks(t: nat, source: C, req: Request)
    | BrokerReceives(t: nat, newId: Option<string>)
    | TargetReceives(t: nat, addressesParse: bool)
    | BrokerResumes(t: nat, answer: Outcome<OfferReply>)
    | SourceResumes(t: nat, outcome: Outcome<Reply>, addressesParse: bool)
    | BrokerCloses(id: string)

  ghost function Init<C>(cfg: R.Config): Sys<C> {
    Sys(R.Init(cfg), Table(map[], map[]), map[], [])
  }

  /** The broker's handler runs for validated sessions only (`Registry.DispatchGate`). */
  ghost predicate Enabled<C>(s: Sys<C>, step: Step<C>) {
    match step
    case SessionStep(_) => true
    case SourceAsks(t, source, _) => t !in s.tasks && source in s.reg.sessions
    case BrokerReceives(t, _) =>
      && t in s.tasks && s.tasks[t].pc.Requested?
      && s.tasks[t].source in s.reg.sessions && s.reg.sessions[s.tasks[t].source].initialized
    case TargetReceives(t, _) =>
      t in s.tasks && s.tasks[t].pc.Offering? && !s.tasks[t].pc.handled && s.tasks[t].pc.target in s.reg.sessions
    case BrokerResumes(t, outcome) =>
      && t in s.tasks && s.tasks[t].pc.Offering? && s.tasks[t].pc.offer.outcome.None? && t in s.table.records
      && Sound(s.tasks[t].pc.offer.(outcome := Some(outcome)))
    case SourceResumes(t, outcome, _) =>
      && t in s.tasks && s.tasks[t].ask.outcome.None? && s.tasks[t].source in s.reg.sessions
      && Sound(s.tasks[t].ask.(outcome := Some(outcome)))
    case BrokerCloses(_) => true
  }

  ghost function Replied<C>(task: Task<C>, reply: Reply): Task<C> {
    task.(ask := task.ask.(answers := task.ask.answers + {reply}))
  }

  /** `connectionRequestHandler` of the broker until its call to the target. */
  ghost function Receive<C>(s: Sys<C>, t: nat, id: Option<string>): Sys<C>
    requires R.LeadsHome(s.reg) && t in s.tasks && s.tasks[t].source in s.reg.sessions
  {
    var task := s.tasks[t];
    var req := task.ask.request;
    var r := s.reg.sessions[task.source];
    match Check(req, r.ctx.BrokerContext?, PeerId(s.reg, r.id), PeerId(s.reg, req.target), id)
    case None => s.(tasks := s.tasks[t := Replied(task, Failed).(pc := TurnedDown)])
    case Some(conn) =>
      s.(table := Create(s.table, t, conn),
         tasks := s.tasks[t := task.(pc := Offering(s.reg.clients[req.target], Call(OfferFor(conn, req), {}, None),
           false))])
  }

  /** `connectionRequestHandler` of the target, which knows itself by the id of its session. */
  ghost function Offered<C>(s: Sys<C>, t: nat, addressesParse: bool): Sys<C>
    requires t in s.tasks && s.tasks[t].pc.Offering? && s.tasks[t].pc.target in s.reg.sessions
  {
    var task := s.tasks[t];
    var offer := task.pc.offer;
    var reply := if addressesParse then Accepted else Refused;
    s.(tasks := s.tasks[t := task.(pc := task.pc.(offer := offer.(answers := offer.answers + {reply}),
      handled := true))],
       events := if addressesParse
         then s.events + [TargetStored(t, AcceptedConn(s.reg.sessions[task.pc.target].id, offer.request))]
           else s.events)
  }

  /** The broker's handler after its call: the connection is stored and reported, or given up. */
  ghost function Resume<C>(s: Sys<C>, t: nat, outcome: Outcome<OfferReply>): Sys<C>
    requires Inv(s.table) && t in s.tasks && s.tasks[t].pc.Offering? && t in s.table.records
  {
    var task := s.tasks[t];
    var conn := s.table.records[t];
    var over := task.(pc := task.pc.(offer := task.pc.offer.(outcome := Some(outcome))));
    if outcome == Outcome.Answered(Accepted) then
      s.(table := Store(s.table, t),
         tasks := s.tasks[t := Replied(over, ReplyFor(conn, task.ask.request))],
         events := s.events + [BrokerStored(t, conn, task.ask.request.relay)])
    else
      s.(table := CloseConnection(s.table, conn.id), tasks := s.tasks[t := Replied(over, Failed)])
  }

  /** The source's `createConnection` after its call. */
  ghost function Finish<C>(s: Sys<C>, t: nat, outcome: Outcome<Reply>, addressesParse: bool): Sys<C>
    requires t in s.tasks && s.tasks[t].source in s.reg.sessions
  {
    var task := s.tasks[t];
    var s' := s.(tasks := s.tasks[t := task.(ask := task.ask.(outcome := Some(outcome)))]);
    if outcome.Answered? && outcome.reply.Created? && addressesParse then
      s'.(events := s.events + [SourceBuilt(t, CreatedConn(s.reg.sessions[task.source].id, task.ask.request,
        outcome.reply))])
    else s'
  }

  ghost function Apply<C>(s: Sys<C>, step: Step<C>): Sys<C>
    requires R.Base(s.reg) && Inv(s.table)
  {
    if !Enabled(s, step) then s
    else match step
      case SessionStep(st) => s.(reg := R.Apply(s.reg, st))
      case SourceAsks(t, source, req) => s.(tasks := s.tasks[t := Task(source, Call(req, {}, None), Requested)])
      case BrokerReceives(t, id) => Receive(s, t, id)
      case TargetReceives(t, addressesParse) => Offered(s, t, addressesParse)
      case BrokerResumes(t, outcome) => Resume(s, t, outcome)
      case SourceResumes(t, outcome, addressesParse) => Finish(s, t, outcome, addressesParse)
      case BrokerCloses(id) => s.(table := CloseConnection(s.table, id))
  }

  // ----- the invariant ----------------------------------------------------------------------

  /** The broker's call to the target came back with a yes. */
  predicate Confirmed<C>(task: Task<C>) {
    task.pc.Offering? && task.pc.offer.outcome == Some(Outcome.Answered(Accepted))
  }

  /** The broker's record of the task's connection as it was made. */
  ghost function Plan<C>(s: Sys<C>, t: nat): Conn
    requires t in s.table.records
  {
    s.table.records[t].(closed := false)
  }

  ghost function TargetEvent(t: nat, conn: Conn, req: Request): Event {
    TargetStored(t, AcceptedConn(conn.target, OfferFor(conn, req)))
  }

  ghost function BrokerEvent(t: nat, conn: Conn, req: Request): Event {
    BrokerStored(t, conn, req.relay)
  }

  ghost function SourceEvent(t: nat, conn: Conn, req: Request): Event {
    SourceBuilt(t, CreatedConn(conn.source, req, ReplyFor(conn, req)))
  }

  /** What the table holds was confirmed, and only that was ever closed. */
  ghost predicate TableOk<C>(s: Sys<C>) {
    && Inv(s.table)
    && (forall id | id in s.table.conns :: s.table.conns[id] in s.tasks && Confirmed(s.tasks[s.table.conns[id]]))
    && (forall t | t in s.table.records :: t in s.tasks && s.tasks[t].pc.Offering?)
    && (forall t | t in s.table.records && s.table.records[t].closed :: Confirmed(s.tasks[t]))
  }

  /** A session that is validated, under this id. */
  ghost predicate Known<C>(reg: R.State<C>, c: C, id: string) {
    c in reg.sessions && reg.sessions[c].initialized && reg.sessions[c].id == id
  }

  /** A task that was passed on: the record and the offer are those of the request, between the
      source's and the target's session. */
  ghost predicate Planned<C>(s: Sys<C>, t: nat)
    requires t in s.tasks
  {
    var task := s.tasks[t];
    task.pc.Offering? ==>
      && t in s.table.records
      && Plan(s, t) == Conn(task.pc.offer.request.id, task.ask.request.mode, Plan(s, t).source,
        task.ask.request.target, false)
      && Known(s.reg, task.source, Plan(s, t).source) && Known(s.reg, task.pc.target, Plan(s, t).target)
      && task.pc.offer.request == OfferFor(Plan(s, t), task.ask.request)
  }

  /** The replies written so far, by the target and by the broker. */
  ghost predicate RepliesOk<C>(s: Sys<C>, t: nat)
    requires t in s.tasks
  {
    var task := s.tasks[t];
    match task.pc
    case Requested => task.ask.answers == {}
    case TurnedDown => task.ask.answers == {Failed}
    case Offering(_, offer, handled) =>
      && Sound(offer) && (offer.answers != {} ==> handled)
      && task.ask.answers ==
          if offer.outcome.None? then {}
          else if Confirmed(task) && t in s.table.records then {ReplyFor(Plan(s, t), task.ask.request)} else {Failed}
  }

  /** The target stored the connection iff it accepted, the broker iff it was told so. */
  ghost predicate StoredOk<C>(s: Sys<C>, t: nat)
    requires t in s.tasks
  {
    var task := s.tasks[t];
    task.pc.Offering? && t in s.table.records ==>
      && (Accepted in task.pc.offer.answers <==> TargetEvent(t, Plan(s, t), task.ask.request) in s.events)
      && (Confirmed(task) <==> BrokerEvent(t, Plan(s, t), task.ask.request) in s.events)
  }

  ghost predicate TaskOk<C>(s: Sys<C>, t: nat)
    requires t in s.tasks
  {
    Planned(s, t) && RepliesOk(s, t) && StoredOk(s, t) && Sound(s.tasks[t].ask)
  }

  /** An event was the one its task called for, happened once, and after the one it rests on. */
  ghost predicate EventOk<C>(s: Sys<C>, before: seq<Event>, e: Event) {
    && e.task in s.tasks && s.tasks[e.task].pc.Offering? && e.task in s.table.records && e !in before
    && var task := s.tasks[e.task];
    var conn := Plan(s, e.task);
    match e
    case TargetStored(t, _) => Accepted in task.pc.offer.answers && e == TargetEvent(t, conn, task.ask.request)
    case BrokerStored(t, _, _) =>
      Confirmed(task) && e == BrokerEvent(t, conn, task.ask.request) && TargetEvent(t, conn, task.ask.request) in before
    case SourceBuilt(t, _) =>
      task.ask.outcome.Some? && e == SourceEvent(t, conn, task.ask.request)
        && BrokerEvent(t, conn, task.ask.request) in before
  }

  ghost predicate EventsOk<C>(s: Sys<C>) {
    forall k | 0 <= k < |s.events| :: EventOk(s, s.events[..k], s.events[k])
  }

  ghost predicate TasksOk<C>(s: Sys<C>) {
    forall t | t in s.tasks :: TaskOk(s, t)
  }

  ghost predicate SysInv<C>(s: Sys<C>): (r: bool)
    ensures r ==> R.Base(s.reg) && Inv(s.table)
  {
    R.Base(s.reg) && R.EventInv(s.reg) && TableOk(s) && TasksOk(s) && EventsOk(s)
  }

  // ----- what steps leave alone -------------------------------------------------------------

  /** Validated sessions stay validated under the same id. */
  ghost predicate IdsStay<C>(reg: R.State<C>, reg': R.State<C>) {
    forall c | c in reg.sessions && reg.sessions[c].initialized ::
      c in reg'.sessions && reg'.sessions[c].initialized && reg'.sessions[c].id == reg.sessions[c].id
  }

  lemma RegistryStepKeepsIds<C>(reg: R.State<C>, step: R.Step<C>)
    requires R.Base(reg)
    ensures IdsStay(reg, R.Apply(reg, step))
  {
    if !(step.Receive? && step.msg.Validate?) {
      R.StepAges(reg, step);
      hide R.Apply, R.Base;
    } else if R.Enabled(reg, step) && !reg.sessions[step.c].initialized {
      match step.msg.answer
      case None =>
        R.CloseAges(reg, step.c);
        hide R.Close, R.StopReading, R.Base;
      case Some(d) =>
        R.ValidateShape(reg, step.c, d);
        hide R.ValidateClient, R.Base;
    }
  }

  /** A task only moves forward, and its record keeps what it was made of. */
  ghost predicate Forward<C>(s: Sys<C>, s': Sys<C>, t: nat)
    requires t in s.tasks && t in s'.tasks
  {
    var task, task' := s.tasks[t], s'.tasks[t];
    && task'.source == task.source && task'.ask.request == task.ask.request
    && (task.ask.outcome.Some? ==> task'.ask.outcome.Some?)
    && (task.pc.Offering? && t in s.table.records ==>
        && task'.pc.Offering? && t in s'.table.records && Plan(s', t) == Plan(s, t)
        && (Confirmed(task) ==> Confirmed(task'))
        && task.pc.offer.answers <= task'.pc.offer.answers)
  }

  lemma OldEventsStayOk<C>(s: Sys<C>, s': Sys<C>, k: nat)
    requires EventsOk(s) && k < |s.events| && s.events <= s'.events
    requires s.events[k].task in s'.tasks
    requires s.events[k].task in s.tasks ==> Forward(s, s', s.events[k].task)
    ensures EventOk(s', s'.events[..k], s'.events[k])
  {
    assert s'.events[..k] == s.events[..k];
    assert EventOk(s, s.events[..k], s.events[k]);
    hide IdsStay;
  }

  lemma EventsStayOk<C>(s: Sys<C>, s': Sys<C>)
    requires EventsOk(s) && s.events <= s'.events <= s.events + s'.events[|s.events|..]
    requires |s'.events| <= |s.events| + 1
    requires forall t | t in s.tasks :: t in s'.tasks && Forward(s, s', t)
    requires |s'.events| > |s.events| ==> EventOk(s', s.events, s'.events[|s.events|])
    ensures EventsOk(s')
  {
    forall k | 0 <= k < |s'.events| ensures EventOk(s', s'.events[..k], s'.events[k]) {
      if k < |s.events| {
        assert EventOk(s, s.events[..k], s.events[k]);
        OldEventsStayOk(s, s', k);
      } else {
        assert s'.events[..k] == s.events;
      }
    }
  }

  /** A task that did not move itself is not disturbed by what happened to the others. */
  lemma OtherTaskStaysOk<C>(s: Sys<C>, s': Sys<C>, t: nat)
    requires t in s.tasks && TaskOk(s, t) && IdsStay(s.reg, s'.reg)
    requires t in s'.tasks && s'.tasks[t] == s.tasks[t] && Forward(s, s', t)
    requires t in s'.table.records ==> t in s.table.records
    requires forall e: Event | e.task == t :: e in s'.events <==> e in s.events
    ensures TaskOk(s', t)
  {
  }

  /** At most the task `t` moved, and at most one event, of its own, was added. */
  ghost predicate Moved<C>(s: Sys<C>, s': Sys<C>, t: nat) {
    && IdsStay(s.reg, s'.reg)
    && s.tasks.Keys <= s'.tasks.Keys <= s.tasks.Keys + {t}
    && (forall k | k in s.tasks && k != t :: s'.tasks[k] == s.tasks[k])
    && (forall k | k in s.tasks :: Forward(s, s', k))
    && (forall k | k in s'.table.records && k != t :: k in s.table.records)
    && (s'.events == s.events || exists e: Event ::
      e.task == t && s'.events == s.events + [e] && EventOk(s', s.events, e))
  }

  lemma MovedKeeps<C>(s: Sys<C>, s': Sys<C>, t: nat)
    requires TasksOk(s) && EventsOk(s) && Moved(s, s', t)
    requires t in s'.tasks ==> TaskOk(s', t)
    ensures TasksOk(s') && EventsOk(s')
  {
    MovedKeepsEvents(s, s', t);
    hide EventsOk, EventOk;
    forall k | k in s'.tasks && k != t ensures TaskOk(s', k) {
      hide TaskOk, IdsStay, Forward;
      OtherTaskStaysOk(s, s', k);
    }
  }

  lemma MovedKeepsEvents<C>(s: Sys<C>, s': Sys<C>, t: nat)
    requires EventsOk(s) && Moved(s, s', t)
    ensures EventsOk(s')
  {
    hide IdsStay, Forward, EventOk, EventsOk;
    EventsStayOk(s, s');
  }

  // ----- the steps --------------------------------------------------------------------------

  /** Sessions may change as they like, as long as the validated ones keep their ids. */
  lemma RegistryMayAge<C>(s: Sys<C>, reg: R.State<C>)
    requires TableOk(s) && TasksOk(s) && EventsOk(s) && IdsStay(s.reg, reg)
    ensures TableOk(s.(reg := reg)) && TasksOk(s.(reg := reg)) && EventsOk(s.(reg := reg))
  {
    var s' := s.(reg := reg);
    hide IdsStay, TaskOk, EventOk, EventsOk;
    assert forall t | t in s.tasks :: Forward(s, s', t);
    forall t | t in s.tasks ensures TaskOk(s', t) {
      OtherTaskStaysOk(s, s', t);
    }
    EventsStayOk(s, s');
  }

  lemma SessionStepKeeps<C>(s: Sys<C>, step: R.Step<C>)
    requires SysInv(s)
    ensures SysInv(Apply(s, SessionStep(step)))
  {
    R.ApplyKeeps(s.reg, step);
    RegistryStepKeepsIds(s.reg, step);
    hide R.Base, R.EventInv, R.Apply, IdsStay, TasksOk, EventsOk;
    assert Inv(s.table);
    hide TableOk;
    RegistryMayAge(s, R.Apply(s.reg, step));
  }

  lemma AskKeeps<C>(s: Sys<C>, t: nat, source: C, req: Request)
    requires SysInv(s)
    ensures SysInv(Apply(s, SourceAsks(t, source, req)))
  {
    hide R.Base, R.EventInv;
    var s' := Apply(s, SourceAsks(t, source, req));
    if s' != s {
      MovedKeeps(s, s', t);
    }
  }

  /** What a step of the task `t` has to show. */
  ghost predicate StepOk<C>(s: Sys<C>, s': Sys<C>, t: nat) {
    s'.reg == s.reg && t in s'.tasks && TableOk(s') && Moved(s, s', t) && TaskOk(s', t)
  }

  lemma TaskStepKeeps<C>(s: Sys<C>, s': Sys<C>, t: nat)
    requires SysInv(s) && StepOk(s, s', t)
    ensures SysInv(s')
  {
    hide R.Base, R.EventInv, TableOk, Moved, TaskOk, TasksOk, EventsOk;
    MovedKeeps(s, s', t);
  }

  /** Nothing was stored for a task the broker has not passed on. */
  lemma NoEventYet<C>(s: Sys<C>, t: nat)
    requires EventsOk(s) && t in s.tasks && !s.tasks[t].pc.Offering?
    ensures forall e: Event | e in s.events :: e.task != t
  {
    forall e: Event | e in s.events ensures e.task != t {
      var k :| 0 <= k < |s.events| && s.events[k] == e;
      assert EventOk(s, s.events[..k], e);
    }
  }

  /** The peers the broker finds for a request are the validated sessions under those ids. */
  lemma TargetKnown<C>(reg: R.State<C>, id: string)
    requires R.LeadsHome(reg) && R.RegisteredValidated(reg) && id in reg.clients
    ensures Known(reg, reg.clients[id], id) && PeerId(reg, id) == Some(id)
  {
  }

  lemma ReceivedTaskOk<C>(s: Sys<C>, t: nat, id: Option<string>)
    requires R.LeadsHome(s.reg) && R.RegisteredValidated(s.reg) && Enabled(s, BrokerReceives(t, id))
    requires TaskOk(s, t) && (forall e: Event | e in s.events :: e.task != t)
    ensures TaskOk(Receive(s, t, id), t)
  {
    var req := s.tasks[t].ask.request;
    var r := s.reg.sessions[s.tasks[t].source];
    if req.target in s.reg.clients { TargetKnown(s.reg, req.target); }
    if r.id in s.reg.clients { TargetKnown(s.reg, r.id); }
    hide R.LeadsHome, R.RegisteredValidated;
  }

  lemma ReceivedTableOk<C>(s: Sys<C>, t: nat, id: Option<string>)
    requires R.LeadsHome(s.reg) && Enabled(s, BrokerReceives(t, id)) && TableOk(s)
    ensures TableOk(Receive(s, t, id))
  {
  }

  lemma ReceiveOk<C>(s: Sys<C>, t: nat, id: Option<string>)
    requires R.LeadsHome(s.reg) && R.RegisteredValidated(s.reg) && Enabled(s, BrokerReceives(t, id))
    requires TaskOk(s, t) && TableOk(s) && EventsOk(s)
    ensures StepOk(s, Receive(s, t, id), t)
  {
    NoEventYet(s, t);
    ReceivedTaskOk(s, t, id);
    ReceivedTableOk(s, t, id);
    assert forall k | k in s.table.records :: k != t;
    hide TaskOk, TableOk, EventsOk, Check, PeerId, R.LeadsHome, R.RegisteredValidated;
  }

  lemma ReceiveKeeps<C>(s: Sys<C>, t: nat, id: Option<string>)
    requires SysInv(s)
    ensures SysInv(Apply(s, BrokerReceives(t, id)))
  {
    assert R.LeadsHome(s.reg) && R.RegisteredValidated(s.reg);
    hide R.Base, R.EventInv, TableOk, StepOk, TaskOk, Receive, EventsOk;
    if Enabled(s, BrokerReceives(t, id)) {
      ReceiveOk(s, t, id);
      TaskStepKeeps(s, Receive(s, t, id), t);
    }
  }

  lemma OfferedOk<C>(s: Sys<C>, t: nat, addressesParse: bool)
    requires Enabled(s, TargetReceives(t, addressesParse)) && TaskOk(s, t) && TableOk(s)
    ensures StepOk(s, Offered(s, t, addressesParse), t)
  {
    var s' := Offered(s, t, addressesParse);
    if addressesParse {
      var e := TargetEvent(t, Plan(s, t), s.tasks[t].ask.request);
      assert s'.events == s.events + [e];
      assert EventOk(s', s.events, e);
    }
    hide EventOk;
    assert TaskOk(s', t);
    hide TaskOk;
    assert TableOk(s');
    hide TableOk;
  }

  lemma OfferedKeeps<C>(s: Sys<C>, t: nat, addressesParse: bool)
    requires SysInv(s)
    ensures SysInv(Apply(s, TargetReceives(t, addressesParse)))
  {
    hide R.Base, R.EventInv, TableOk, StepOk, TaskOk, Offered, EventsOk;
    if Enabled(s, TargetReceives(t, addressesParse)) {
      assert TaskOk(s, t);
      OfferedOk(s, t, addressesParse);
      TaskStepKeeps(s, Offered(s, t, addressesParse), t);
    }
  }

  lemma StoreOk<C>(s: Sys<C>, t: nat)
    requires Enabled(s, BrokerResumes(t, Outcome.Answered(Accepted))) && TaskOk(s, t) && TableOk(s)
    ensures StepOk(s, Resume(s, t, Outcome.Answered(Accepted)), t)
  {
    var s' := Resume(s, t, Outcome.Answered(Accepted));
    assert Plan(s, t) == s.table.records[t];
    var e := BrokerEvent(t, Plan(s, t), s.tasks[t].ask.request);
    assert s'.events == s.events + [e];
    assert EventOk(s', s.events, e);
    assert TaskOk(s', t);
    hide TaskOk, EventOk;
    assert TableOk(s');
    hide TableOk;
  }

  /** Closing an entry leaves every record as it was made. */
  lemma CloseConnectionKeeps<C>(s: Sys<C>, id: string)
    requires TableOk(s)
    ensures var s' := s.(table := CloseConnection(s.table, id));
      && TableOk(s') && s'.table.records.Keys == s.table.records.Keys
      && (forall t | t in s.table.records :: Plan(s', t) == Plan(s, t))
  {
  }

  lemma GivenUpTaskOk<C>(s: Sys<C>, t: nat, outcome: Outcome<OfferReply>)
    requires Enabled(s, BrokerResumes(t, outcome)) && TaskOk(s, t) && TableOk(s)
    requires outcome != Outcome.Answered(Accepted)
    ensures TaskOk(Resume(s, t, outcome), t)
  {
    CloseConnectionKeeps(s, s.table.records[t].id);
    assert Plan(Resume(s, t, outcome), t) == Plan(s, t);
    hide CloseConnection, Plan, Inv;
  }

  lemma GivenUpTableOk<C>(s: Sys<C>, t: nat, outcome: Outcome<OfferReply>)
    requires Enabled(s, BrokerResumes(t, outcome)) && TableOk(s) && outcome != Outcome.Answered(Accepted)
    ensures TableOk(Resume(s, t, outcome))
  {
  }

  lemma GivenUpForward<C>(s: Sys<C>, t: nat, outcome: Outcome<OfferReply>, k: nat)
    requires Enabled(s, BrokerResumes(t, outcome)) && TableOk(s) && k in s.tasks
      && outcome != Outcome.Answered(Accepted)
    ensures Forward(s, Resume(s, t, outcome), k)
  {
    CloseConnectionKeeps(s, s.table.records[t].id);
    assert k in s.table.records ==> Plan(Resume(s, t, outcome), k) == Plan(s, k);
    hide CloseConnection, Plan, Inv, TableOk;
  }

  lemma GiveUpOk<C>(s: Sys<C>, t: nat, outcome: Outcome<OfferReply>)
    requires Enabled(s, BrokerResumes(t, outcome)) && TaskOk(s, t) && TableOk(s)
    requires outcome != Outcome.Answered(Accepted)
    ensures StepOk(s, Resume(s, t, outcome), t)
  {
    GivenUpTaskOk(s, t, outcome);
    GivenUpTableOk(s, t, outcome);
    CloseConnectionKeeps(s, s.table.records[t].id);
    hide TaskOk, TableOk, EventOk, Forward;
    forall k | k in s.tasks ensures Forward(s, Resume(s, t, outcome), k) {
      GivenUpForward(s, t, outcome, k);
    }
  }

  lemma ResumeKeeps<C>(s: Sys<C>, t: nat, outcome: Outcome<OfferReply>)
    requires SysInv(s)
    ensures SysInv(Apply(s, BrokerResumes(t, outcome)))
  {
    assert Inv(s.table);
    hide R.Base, R.EventInv, TableOk, StepOk, TaskOk, Resume, EventsOk, Inv;
    if Enabled(s, BrokerResumes(t, outcome)) {
      assert TaskOk(s, t);
      if outcome == Outcome.Answered(Accepted) { StoreOk(s, t); } else { GiveUpOk(s, t, outcome); }
      TaskStepKeeps(s, Resume(s, t, outcome), t);
    }
  }

  /** A source that still waits has built nothing. */
  lemma NotBuiltYet<C>(s: Sys<C>, t: nat)
    requires EventsOk(s) && t in s.tasks && s.tasks[t].ask.outcome.None?
    ensures forall e: Event | e in s.events && e.SourceBuilt? :: e.task != t
  {
    forall e: Event | e in s.events && e.SourceBuilt?
      ensures e.task != t {
      var k :| 0 <= k < |s.events| && s.events[k] == e;
      assert EventOk(s, s.events[..k], e);
    }
  }

  lemma FinishedEventOk<C>(s: Sys<C>, t: nat, outcome: Outcome<Reply>, addressesParse: bool)
    requires Enabled(s, SourceResumes(t, outcome, addressesParse)) && TaskOk(s, t) && EventsOk(s)
    ensures var s' := Finish(s, t, outcome, addressesParse);
      s'.events == s.events || (exists e: Event ::
        e.task == t && s'.events == s.events + [e] && EventOk(s', s.events, e))
  {
    var s' := Finish(s, t, outcome, addressesParse);
    NotBuiltYet(s, t);
    hide EventsOk;
    if s'.events != s.events {
      var e := SourceEvent(t, Plan(s, t), s.tasks[t].ask.request);
      assert s'.events == s.events + [e];
      assert EventOk(s', s.events, e);
    }
  }

  lemma FinishedTaskOk<C>(s: Sys<C>, t: nat, outcome: Outcome<Reply>, addressesParse: bool)
    requires Enabled(s, SourceResumes(t, outcome, addressesParse)) && TaskOk(s, t) && TableOk(s)
    ensures TaskOk(Finish(s, t, outcome, addressesParse), t) && TableOk(Finish(s, t, outcome, addressesParse))
  {
  }

  lemma FinishOk<C>(s: Sys<C>, t: nat, outcome: Outcome<Reply>, addressesParse: bool)
    requires Enabled(s, SourceResumes(t, outcome, addressesParse)) && TaskOk(s, t) && TableOk(s) && EventsOk(s)
    ensures StepOk(s, Finish(s, t, outcome, addressesParse), t)
  {
    FinishedEventOk(s, t, outcome, addressesParse);
    FinishedTaskOk(s, t, outcome, addressesParse);
    hide EventsOk, EventOk, TaskOk, TableOk, Sound;
  }

  lemma FinishKeeps<C>(s: Sys<C>, t: nat, outcome: Outcome<Reply>, addressesParse: bool)
    requires SysInv(s)
    ensures SysInv(Apply(s, SourceResumes(t, outcome, addressesParse)))
  {
    hide R.Base, R.EventInv, TableOk, StepOk, TaskOk, Finish, EventsOk;
    if Enabled(s, SourceResumes(t, outcome, addressesParse)) {
      assert TaskOk(s, t);
      FinishOk(s, t, outcome, addressesParse);
      TaskStepKeeps(s, Finish(s, t, outcome, addressesParse), t);
    }
  }

  lemma ClosedForward<C>(s: Sys<C>, id: string, t: nat)
    requires TableOk(s) && t in s.tasks
    ensures Forward(s, s.(table := CloseConnection(s.table, id)), t)
  {
    CloseConnectionKeeps(s, id);
    hide CloseConnection, TableOk, Inv;
  }

  lemma CloseKeeps<C>(s: Sys<C>, id: string)
    requires SysInv(s)
    ensures SysInv(Apply(s, BrokerCloses(id)))
  {
    CloseConnectionKeeps(s, id);
    assert Inv(s.table) && R.Base(s.reg);
    hide R.Base, R.EventInv, TableOk, Inv, CloseConnection, EventOk, EventsOk, TaskOk, Forward, Plan;
    var s' := s.(table := CloseConnection(s.table, id));
    assert Apply(s, BrokerCloses(id)) == s';
    hide Apply;
    forall t | t in s.tasks ensures TaskOk(s', t) && Forward(s, s', t) {
      ClosedForward(s, id, t);
      OtherTaskStaysOk(s, s', t);
    }
    EventsStayOk(s, s');
  }

  // ----- all runs ---------------------------------------------------------------------------

  lemma ApplyKeeps<C>(s: Sys<C>, step: Step<C>)
    requires SysInv(s)
    ensures SysInv(Apply(s, step))
  {
    hide SysInv;
    match step
    case SessionStep(st) => SessionStepKeeps(s, st);
    case SourceAsks(t, source, req) => AskKeeps(s, t, source, req);
    case BrokerReceives(t, id) => ReceiveKeeps(s, t, id);
    case TargetReceives(t, addressesParse) => OfferedKeeps(s, t, addressesParse);
    case BrokerResumes(t, outcome) => ResumeKeeps(s, t, outcome);
    case SourceResumes(t, outcome, addressesParse) => FinishKeeps(s, t, outcome, addressesParse);
    case BrokerCloses(id) => CloseKeeps(s, id);
  }

  ghost function Exec<C>(s: Sys<C>, steps: seq<Step<C>>): (r: Sys<C>)
    requires SysInv(s)
    ensures SysInv(r)
    decreases |steps|
  {
    if steps == [] then s
    else
      ApplyKeeps(s, steps[0]);
      Exec(Apply(s, steps[0]), steps[1..])
  }

  lemma EmptyHolds<C>(cfg: R.Config)
    ensures SysInv(Init<C>(cfg))
  {
    R.EmptyHolds<C>(cfg);
  }

  /** The state after any schedule of steps, from a broker that knows nobody. */
  ghost function Run<C>(cfg: R.Config, steps: seq<Step<C>>): (r: Sys<C>)
    ensures SysInv(r)
  {
    EmptyHolds<C>(cfg);
    Exec(Init(cfg), steps)
  }

  /** The target stored its end and the broker then its record, before the source built this one. */
  ghost predicate AgreedBefore(events: seq<Event>, n: nat, t: nat, built: PeerConn) {
    exists i: nat, j: nat ::
      && i < j < n <= |events|
      && events[i].TargetStored? && events[i].task == t && Match(built, events[i].peerConn)
      && events[j].BrokerStored? && events[j].task == t && events[j].relay == built.relay
      && events[j].conn == Conn(built.id, built.mode, built.owner, built.peer, false)
  }

  /**
   * In every run: when a source builds its end of a connection, the target had stored its own end
   * and the broker its record before, in this order. The two ends belong together, the record
   * names the two peers, all agree on id, mode and relay address, and the connection is the one
   * the source asked for.
   */
  lemma ThreePartyAgreement<C>(cfg: R.Config, steps: seq<Step<C>>, n: nat)
    requires n < |Run<C>(cfg, steps).events| && Run<C>(cfg, steps).events[n].SourceBuilt?
    ensures var s := Run<C>(cfg, steps);
      var t, built := s.events[n].task, s.events[n].peerConn;
      && t in s.tasks
      && built.initiator && built.peer == s.tasks[t].ask.request.target
      && built.mode == s.tasks[t].ask.request.mode && built.relay == s.tasks[t].ask.request.relay
      && AgreedBefore(s.events, n, t, built)
  {
    var s := Run<C>(cfg, steps);
    hide Run, R.Base, R.EventInv;
    BuiltIsAgreed(s, n);
  }

  lemma BuiltIsAgreed<C>(s: Sys<C>, n: nat)
    requires EventsOk(s) && TasksOk(s) && n < |s.events| && s.events[n].SourceBuilt?
    ensures var t, built := s.events[n].task, s.events[n].peerConn;
      && t in s.tasks
      && built.initiator && built.peer == s.tasks[t].ask.request.target
      && built.mode == s.tasks[t].ask.request.mode && built.relay == s.tasks[t].ask.request.relay
      && AgreedBefore(s.events, n, t, built)
  {
    var e := s.events[n];
    assert EventOk(s, s.events[..n], e);
    var conn, req := Plan(s, e.task), s.tasks[e.task].ask.request;
    assert Planned(s, e.task);
    var j: nat :| j < n && s.events[..n][j] == BrokerEvent(e.task, conn, req);
    assert EventOk(s, s.events[..j], s.events[j]);
    var i: nat :| i < j && s.events[..j][i] == TargetEvent(e.task, conn, req);
    assert s.events[i] == TargetEvent(e.task, conn, req);
    hide EventsOk, TasksOk, EventOk;
  }

  /**
   * In every run: the target stored a connection exactly if it accepted the offer, and the broker
   * exactly if it was answered so in time. A target may thus hold what the broker gave up on.
   */
  lemma StoredExactly<C>(cfg: R.Config, steps: seq<Step<C>>, t: nat)
    requires t in Run<C>(cfg, steps).tasks
    ensures var s := Run<C>(cfg, steps);
      var pc := s.tasks[t].pc;
      && ((exists e: Event :: e in s.events && e.task == t && e.TargetStored?) <==>
        pc.Offering? && Accepted in pc.offer.answers)
      && ((exists e: Event :: e in s.events && e.task == t && e.BrokerStored?)
          <==> pc.Offering? && pc.offer.outcome == Some(Outcome.Answered(Accepted)))
  {
    var s := Run<C>(cfg, steps);
    hide Run;
    assert TaskOk(s, t);
    forall e: Event | e in s.events && e.task == t
      ensures e.TargetStored? ==> s.tasks[t].pc.Offering? && Accepted in s.tasks[t].pc.offer.answers
      ensures e.BrokerStored? ==> Confirmed(s.tasks[t])
    {
      var k :| 0 <= k < |s.events| && s.events[k] == e;
      assert EventOk(s, s.events[..k], e);
    }
    if s.tasks[t].pc.Offering? {
      var target := TargetEvent(t, Plan(s, t), s.tasks[t].ask.request);
      var broker := BrokerEvent(t, Plan(s, t), s.tasks[t].ask.request);
      assert target.task == t && target.TargetStored? && broker.task == t && broker.BrokerStored?;
    }
  }

  /**
   * In every run: whom the broker approves to a relay is the source or the target of a connection
   * that the target had stored, and the broker after it, under this id and between these peers.
   */
  lemma ApprovalsAreAgreed<C>(cfg: R.Config, steps: seq<Step<C>>, peer: string, id: string)
    requires RelayAnswer(Run<C>(cfg, steps).table, Some(peer), id).Some?
    ensures var s := Run<C>(cfg, steps);
      var conn := RelayAnswer(s.table, Some(peer), id).value;
      && conn.id == id && (peer == conn.source || peer == conn.target)
      && (exists i: nat, j: nat ::
            && i < j < |s.events|
            && s.events[j].BrokerStored? && s.events[j].conn == conn.(closed := false)
            && s.events[i].TargetStored?
            && s.events[i].peerConn == PeerConn(conn.target, false, id, conn.mode, conn.source, s.events[j].relay))
  {
    var s := Run<C>(cfg, steps);
    var t := s.table.conns[id];
    assert TaskOk(s, t) && Confirmed(s.tasks[t]);
    hide Run, SysInv, EventsOk, EventOk, TableOk, TasksOk, R.Base, R.EventInv;
    StoredInOrder(s, t);
  }

  lemma StoredInOrder<C>(s: Sys<C>, t: nat)
    requires EventsOk(s) && t in s.tasks && t in s.table.records
    requires BrokerEvent(t, Plan(s, t), s.tasks[t].ask.request) in s.events
    ensures exists i: nat, j: nat ::
      && i < j < |s.events| && s.events[j] == BrokerEvent(t, Plan(s, t), s.tasks[t].ask.request)
      && s.events[i] == TargetEvent(t, Plan(s, t), s.tasks[t].ask.request)
  {
    var conn, req := Plan(s, t), s.tasks[t].ask.request;
    var j: nat :| j < |s.events| && s.events[j] == BrokerEvent(t, conn, req);
    assert EventOk(s, s.events[..j], s.events[j]);
    var i: nat :| i < j && s.events[..j][i] == TargetEvent(t, conn, req);
    assert s.events[i] == TargetEvent(t, conn, req);
  }

  function IdOf(e: Event): string {
    if e.BrokerStored? then e.conn.id else e.peerConn.id
  }

  /** In every run in which the broker's ids do not repeat: each party stores a connection once. */
  lemma OneOfEachPerId<C>(cfg: R.Config, steps: seq<Step<C>>, j: nat, k: nat)
    requires var s := Run<C>(cfg, steps);
      && (forall t, t' | t in s.table.records && t' in s.table.records
        && s.table.records[t].id == s.table.records[t'].id :: t == t')
      && j < k < |s.events| && IdOf(s.events[j]) == IdOf(s.events[k])
    ensures var s := Run<C>(cfg, steps);
      && (s.events[j].TargetStored? ==> !s.events[k].TargetStored?)
      && (s.events[j].BrokerStored? ==> !s.events[k].BrokerStored?)
      && (s.events[j].SourceBuilt? ==> !s.events[k].SourceBuilt?)
  {
    var s := Run<C>(cfg, steps);
    hide Run;
    assert EventOk(s, s.events[..j], s.events[j]) && EventOk(s, s.events[..k], s.events[k]);
    assert s.events[..k][j] == s.events[j];
  }

  /**
   * In every run: giving up on a target never closes the record made for the request, as that was
   * not listed yet; and it leaves the table as it was exactly if no connection is listed under the
   * new id. Otherwise it closes and unlists that other connection, and does nothing else.
   */
  lemma GivingUpHitsSameId<C>(cfg: R.Config, steps: seq<Step<C>>, t: nat, outcome: Outcome<OfferReply>)
    requires var s := Run<C>(cfg, steps);
      && t in s.tasks && s.tasks[t].pc.Offering? && s.tasks[t].pc.offer.outcome.None?
      && outcome != Outcome.Answered(Accepted)
    ensures var s := Run<C>(cfg, steps);
      t in s.table.records && OnlySameId(s, t, Resume(s, t, outcome).table)
  {
    var s := Run<C>(cfg, steps);
    assert Planned(s, t) by {
      assert TaskOk(s, t);
    }
    hide Run, R.Base, R.EventInv, TasksOk, EventsOk;
    GivenUpIs(s, t, outcome);
  }

  /** Of the table only the entry under the id of the task's connection went, if there was one, and
      what it led to is another connection and now closed. */
  ghost predicate OnlySameId<C>(s: Sys<C>, t: nat, table': Table<nat>)
    requires t in s.table.records
  {
    var id := s.table.records[t].id;
    && t in table'.records && !table'.records[t].closed
    && (table' == s.table <==> id !in s.table.conns)
    && (id in s.table.conns ==>
        var other := s.table.conns[id];
        && other in s.tasks && other != t && Confirmed(s.tasks[other]) && other in s.table.records
        && table' == Table(s.table.conns - {id}, s.table.records[other := s.table.records[other].(closed := true)]))
  }

  lemma GivenUpIs<C>(s: Sys<C>, t: nat, outcome: Outcome<OfferReply>)
    requires TableOk(s) && t in s.table.records && s.tasks[t].pc.offer.outcome.None?
    requires outcome != Outcome.Answered(Accepted)
    ensures OnlySameId(s, t, Resume(s, t, outcome).table)
  {
    var id := s.table.records[t].id;
    if id in s.table.conns {
      assert id !in Resume(s, t, outcome).table.conns;
    }
  }

  // ----- what the handlers do, and what they do not -----------------------------------------

  /** The request may be passed on to a target: it comes from a client of the broker, names a relay if
      it is to go through one, both peers are registered, and there is a new id. */
  ghost predicate MayOffer<C>(s: Sys<C>, t: nat, id: Option<string>)
    requires t in s.tasks && s.tasks[t].source in s.reg.sessions
  {
    var req, r := s.tasks[t].ask.request, s.reg.sessions[s.tasks[t].source];
    && r.ctx.BrokerContext? && (req.mode == "relay" ==> req.relay != "")
    && r.id in s.reg.clients && req.target in s.reg.clients && id.Some?
  }

  /**
   * What the broker makes of a request: an offer to the client registered under the target's id,
   * with a record of its own, exactly if the request may be passed on; otherwise a failure is
   * reported. Nothing is listed yet in either case.
   */
  lemma OfferedExactly<C>(s: Sys<C>, t: nat, id: Option<string>)
    requires SysInv(s) && Enabled(s, BrokerReceives(t, id))
    ensures var s' := Apply(s, BrokerReceives(t, id));
      && t in s'.tasks && (s'.tasks[t].pc.Offering? <==> MayOffer(s, t, id))
      && s'.table.conns == s.table.conns && s'.events == s.events && s'.reg == s.reg
      && s'.tasks == s.tasks[t := s'.tasks[t]]
      && if MayOffer(s, t, id) then
           var req, source := s.tasks[t].ask.request, s.reg.sessions[s.tasks[t].source].id;
           && s'.tasks[t].pc.target == s.reg.clients[req.target] && s'.tasks[t].ask == s.tasks[t].ask
           && s'.tasks[t].pc.offer == Call(Offer(id.value, req.mode, req.relay, source), {}, None)
           && s'.table.records == s.table.records[t := Conn(id.value, req.mode, source, req.target, false)]
         else s'.table == s.table && s'.tasks[t].pc.TurnedDown? && s'.tasks[t].ask.answers == {Failed}
  {
    assert TaskOk(s, t) && R.LeadsHome(s.reg) && R.RegisteredValidated(s.reg);
    hide R.Base, R.EventInv, TableOk, TasksOk, EventsOk;
  }

  /** The target accepts exactly if the addresses parse, and then has stored its end: the offer's
      connection, to the source, not as initiator. */
  lemma TargetAnswers<C>(s: Sys<C>, t: nat, addressesParse: bool)
    requires R.Base(s.reg) && Inv(s.table) && Enabled(s, TargetReceives(t, addressesParse))
    ensures var s' := Apply(s, TargetReceives(t, addressesParse));
      var offer := s.tasks[t].pc.offer;
      && t in s'.tasks && s'.tasks[t].pc.Offering? && s'.tasks[t].pc.handled && s'.table == s.table
      && s'.tasks[t].pc.offer.answers == offer.answers + {if addressesParse then Accepted else Refused}
      && s'.events == s.events + if addressesParse then
           [TargetStored(t, PeerConn(s.reg.sessions[s.tasks[t].pc.target].id, false, offer.request.id,
              offer.request.mode, offer.request.peer, offer.request.relay))]
         else []
  {
    hide R.Base;
  }

  /** The broker lists and reports its record exactly if it was told that the target accepted. */
  lemma BrokerConcludes<C>(s: Sys<C>, t: nat, outcome: Outcome<OfferReply>)
    requires SysInv(s) && Enabled(s, BrokerResumes(t, outcome))
    ensures var s' := Apply(s, BrokerResumes(t, outcome));
      var conn, relay := s.table.records[t], s.tasks[t].ask.request.relay;
      && t in s'.tasks && t in s'.table.records && s'.table.records[t] == conn
      && if outcome == Outcome.Answered(Accepted) then
           && s'.tasks[t].ask.answers == {Created(conn.id, conn.mode, relay, conn.target)}
           && s'.table == s.table.(conns := s.table.conns[conn.id := t])
           && s'.events == s.events + [BrokerStored(t, conn, relay)]
         else s'.tasks[t].ask.answers == {Failed} && conn.id !in s'.table.conns && s'.events == s.events
  {
    assert s.tasks[t].ask.answers == {} by { assert TaskOk(s, t); }
    assert TableOk(s) && Apply(s, BrokerResumes(t, outcome)) == Resume(s, t, outcome);
    hide SysInv, R.Base, Apply, Enabled, TaskOk, Resume;
    if outcome == Outcome.Answered(Accepted) {
      hide TableOk, Inv;
      AcceptedIs(s, t);
    } else {
      GivenUpIs(s, t, outcome);
      hide TableOk, Inv;
      RefusedIs(s, t, outcome);
    }
  }

  lemma AcceptedIs<C>(s: Sys<C>, t: nat)
    requires Inv(s.table) && t in s.tasks && s.tasks[t].pc.Offering? && t in s.table.records
    ensures var s' := Resume(s, t, Outcome.Answered(Accepted));
      var conn, relay := s.table.records[t], s.tasks[t].ask.request.relay;
      && t in s'.tasks
      && s'.tasks[t].ask.answers == s.tasks[t].ask.answers + {Created(conn.id, conn.mode, relay, conn.target)}
      && s'.table == s.table.(conns := s.table.conns[conn.id := t])
      && s'.events == s.events + [BrokerStored(t, conn, relay)]
  {
  }

  lemma RefusedIs<C>(s: Sys<C>, t: nat, outcome: Outcome<OfferReply>)
    requires Inv(s.table) && t in s.tasks && s.tasks[t].pc.Offering? && t in s.table.records
    requires outcome != Outcome.Answered(Accepted) && OnlySameId(s, t, Resume(s, t, outcome).table)
    ensures var s' := Resume(s, t, outcome);
      && t in s'.tasks && s'.tasks[t].ask.answers == s.tasks[t].ask.answers + {Failed} && s'.events == s.events
      && t in s'.table.records && s'.table.records[t] == s.table.records[t]
      && s.table.records[t].id !in s'.table.conns
  {
  }

  /** The source has its end exactly if it was told of a connection and the addresses parse. */
  lemma SourceConcludes<C>(s: Sys<C>, t: nat, outcome: Outcome<Reply>, addressesParse: bool)
    requires R.Base(s.reg) && Inv(s.table) && Enabled(s, SourceResumes(t, outcome, addressesParse))
    ensures var s' := Apply(s, SourceResumes(t, outcome, addressesParse));
      && t in s'.tasks && s'.tasks[t].ask.outcome == Some(outcome) && s'.table == s.table
      && s'.events == s.events + match outcome
           case Answered(Created(id, mode, relay, peer)) =>
             if addressesParse then
               [SourceBuilt(t, PeerConn(s.reg.sessions[s.tasks[t].source].id, true, id, s.tasks[t].ask.request.mode,
                 peer,
                  s.tasks[t].ask.request.relay))]
             else []
           case _ => []
  {
    hide R.Base;
  }

  /** A close takes the connection listed under the id out of the table, closed, and nothing else. */
  lemma CloseHitsListed<C>(s: Sys<C>, id: string)
    requires R.Base(s.reg) && Inv(s.table)
    ensures var s' := Apply(s, BrokerCloses(id));
      && s' == s.(table := s'.table) && id !in s'.table.conns
      && (forall k | k in s.table.conns && k != id :: k in s'.table.conns && s'.table.conns[k] == s.table.conns[k])
      && s'.table.records.Keys == s.table.records.Keys
      && (forall t | t in s.table.records ::
            s'.table.records[t] == if id in s.table.conns && t == s.table.conns[id]
              then s.table.records[t].(closed := true) else s.table.records[t])
  {
    hide R.Base;
  }

  /** Every request that was passed on came from a client of the broker, and names a relay if it is
      to go through one. */
  ghost predicate OffersChecked<C>(s: Sys<C>) {
    forall t | t in s.tasks && s.tasks[t].pc.Offering? ::
      && (s.tasks[t].ask.request.mode == "relay" ==> s.tasks[t].ask.request.relay != "")
      && s.tasks[t].source in s.reg.sessions && s.reg.sessions[s.tasks[t].source].initialized
      && s.reg.sessions[s.tasks[t].source].ctx.BrokerContext?
  }

  lemma StepKeepsChecked<C>(s: Sys<C>, step: Step<C>)
    requires SysInv(s) && OffersChecked(s)
    ensures OffersChecked(Apply(s, step))
  {
    if step.SessionStep? {
      R.StepChangesSessions(s.reg, step.step);
      hide SysInv, R.Base, R.EventInv, R.Apply;
      forall c | c in s.reg.sessions && s.reg.sessions[c].initialized
        ensures c in R.Apply(s.reg, step.step).sessions
        ensures R.Apply(s.reg, step.step).sessions[c].initialized
          && R.Apply(s.reg, step.step).sessions[c].ctx == s.reg.sessions[c].ctx {
        assert R.SessionFollows(s.reg, step.step, c, R.Apply(s.reg, step.step).sessions[c]);
      }
    } else if step.BrokerReceives? && Enabled(s, step) {
      OfferedExactly(s, step.t, step.newId);
      hide SysInv, Apply;
    } else {
      hide SysInv, R.Base;
      NoNewOffers(s, step);
      hide Apply, Enabled;
    }
  }

  lemma NoNewOffers<C>(s: Sys<C>, step: Step<C>)
    requires R.Base(s.reg) && Inv(s.table) && !step.SessionStep? && !(step.BrokerReceives? && Enabled(s, step))
    ensures var s' := Apply(s, step);
      && s'.reg == s.reg
      && forall t | t in s'.tasks && s'.tasks[t].pc.Offering? ::
           && t in s.tasks && s.tasks[t].pc.Offering? && s'.tasks[t].source == s.tasks[t].source
           && s'.tasks[t].ask.request == s.tasks[t].ask.request
  {
    hide R.Base, Inv;
  }

  /** In every run, only such requests are passed on to a target. */
  lemma OnlyCheckedOffers<C>(cfg: R.Config, steps: seq<Step<C>>)
    ensures OffersChecked(Run<C>(cfg, steps))
  {
    EmptyHolds<C>(cfg);
    CheckedFrom(Init<C>(cfg), steps);
  }

  lemma {:induction false} CheckedFrom<C>(s: Sys<C>, steps: seq<Step<C>>)
    requires SysInv(s) && OffersChecked(s)
    ensures OffersChecked(Exec(s, steps))
    decreases |steps|
  {
    hide SysInv, Apply, OffersChecked;
    if steps != [] {
      ApplyKeeps(s, steps[0]);
      StepKeepsChecked(s, steps[0]);
      CheckedFrom(Apply(s, steps[0]), steps[1..]);
    }
  }

  /** One more step at the end of a run. */
  lemma {:induction false} ExecAppend<C>(s: Sys<C>, steps: seq<Step<C>>, step: Step<C>)
    requires SysInv(s)
    ensures Exec(s, steps + [step]) == Apply(Exec(s, steps), step)
    decreases |steps|
  {
    hide SysInv, Apply;
    ApplyKeeps(s, if steps == [] then step else steps[0]);
    if steps == [] {
      assert (steps + [step])[1..] == [];
      assert Exec(Apply(s, step), []) == Apply(s, step);
    } else {
      assert (steps + [step])[1..] == steps[1..] + [step];
      ExecAppend(Apply(s, steps[0]), steps[1..], step);
    }
  }

  lemma RunAppend<C>(cfg: R.Config, steps: seq<Step<C>>, step: Step<C>)
    ensures Run(cfg, steps + [step]) == Apply(Run(cfg, steps), step)
  {
    EmptyHolds<C>(cfg);
    ExecAppend(Init<C>(cfg), steps, step);
  }

  const LOOP := Request("a", MODE_P2P, "")

  /** A validated client of the broker, which is about to connect to itself. */
  lemma OneClient<C>(cfg: R.Config, c: C) returns (steps: seq<Step<C>>)
    ensures var s := Run(cfg, steps);
      && Known(s.reg, c, "a") && s.reg.sessions[c].ctx.BrokerContext?
      && "a" in s.reg.clients && s.reg.clients["a"] == c
      && s.table == Table(map[], map[]) && s.tasks == map[]
  {
    var d := R.ClientData("a", map[], R.BrokerContext);
    var arrive, validate := SessionStep(R.NewSession(c, "x")), SessionStep(R.Receive(c, R.Validate(Some(d))));
    steps := [arrive, validate];
    RunAppend(cfg, [], arrive);
    RunAppend(cfg, [arrive], validate);
    assert [] + [arrive] == [arrive] && [arrive] + [validate] == steps;
    EmptyHolds<C>(cfg);
    var s1 := Run(cfg, [arrive]);
    assert c in s1.reg.sessions && s1.reg.sessions[c] == R.Fresh("x");
    R.ValidateReplaces(s1.reg, c, d);
    hide R.ValidateClient, R.Base, R.EventInv, SysInv, Run;
  }

  /** Such a client asks for a connection, and the broker offers it under the id `k`. */
  lemma AskedAndOffered<C>(cfg: R.Config, steps: seq<Step<C>>, c: C, t: nat) returns (steps': seq<Step<C>>)
    requires var s := Run(cfg, steps);
      && Known(s.reg, c, "a") && s.reg.sessions[c].ctx.BrokerContext?
      && "a" in s.reg.clients && s.reg.clients["a"] == c && t !in s.tasks
    ensures var s, s' := Run(cfg, steps), Run(cfg, steps');
      && s'.reg == s.reg && s'.table.conns == s.table.conns
      && s'.table.records == s.table.records[t := Conn("k", MODE_P2P, "a", "a", false)]
      && s'.tasks == s.tasks[t := s'.tasks[t]] && s'.tasks[t].pc.Offering?
      && s'.tasks[t].pc == Offering(c, Call(Offer("k", MODE_P2P, "", "a"), {}, None), false)
  {
    var ask, receive := SourceAsks(t, c, LOOP), BrokerReceives(t, Some("k"));
    steps' := steps + [ask] + [receive];
    RunAppend(cfg, steps, ask);
    RunAppend(cfg, steps + [ask], receive);
    hide Run, SysInv;
  }

  const PAIR := Conn("k", MODE_P2P, "a", "a", false)

  /** The target accepts in time. */
  lemma AcceptedAndStored<C>(s: Sys<C>, c: C)
    requires R.Base(s.reg) && s.table == Table(map[], map[0 := PAIR]) && c in s.reg.sessions
    requires 0 in s.tasks && s.tasks[0].pc == Offering(c, Call(Offer("k", MODE_P2P, "", "a"), {}, None), false)
    ensures var s1 := Apply(s, TargetReceives(0, true));
      && R.Base(s1.reg) && Inv(s1.table)
      && var s2 := Apply(s1, BrokerResumes(0, Outcome.Answered(Accepted)));
      s2.reg == s.reg && s2.tasks.Keys == s.tasks.Keys && s2.table == Table(map["k" := 0], map[0 := PAIR])
  {
    hide R.Base;
    var s1 := Apply(s, TargetReceives(0, true));
    assert s1.reg == s.reg && s1.table == s.table && s1.tasks.Keys == s.tasks.Keys;
    assert 0 in s1.tasks && s1.tasks[0].pc.Offering?
      && s1.tasks[0].pc.offer == Call(Offer("k", MODE_P2P, "", "a"), {Accepted}, None);
    hide Offered;
  }

  /** A second request under the same id, whose target does not answer. */
  lemma GivenUp<C>(s: Sys<C>, c: C)
    requires R.Base(s.reg) && s.table.conns == map["k" := 0]
    requires s.table.records == map[0 := PAIR][1 := PAIR]
    requires 1 in s.tasks && s.tasks[1].pc == Offering(c, Call(Offer("k", MODE_P2P, "", "a"), {}, None), false)
    ensures Enabled(s, BrokerResumes(1, TimedOut)) && Inv(s.table)
    ensures var s' := Apply(s, BrokerResumes(1, TimedOut));
      s'.table.conns == map[] && 0 in s'.table.records && s'.table.records[0].closed
  {
    hide R.Base;
    assert s.table.conns["k"] == 0;
  }

  /**
   * A run in which it happens: an id generator that repeats itself, a first connection that is
   * set up, and a second request that times out. Giving that up closes the first.
   */
  lemma GivingUpClosesAnother<C>(cfg: R.Config, c: C) returns (steps: seq<Step<C>>)
    ensures var s := Run(cfg, steps);
      && s.table.conns == map["k" := 0] && 0 in s.table.records && !s.table.records[0].closed
      && Enabled(s, BrokerResumes(1, TimedOut))
      && var s' := Apply(s, BrokerResumes(1, TimedOut));
      && s'.table.conns == map[] && 0 in s'.table.records && s'.table.records[0].closed
  {
    var first := OneClient(cfg, c);
    hide Run, SysInv, R.Base, Inv, Apply, Enabled;
    var offered := AskedAndOffered(cfg, first, c, 0);
    var accept, store: Step<C> := TargetReceives(0, true), BrokerResumes(0, Outcome.Answered(Accepted));
    AcceptedAndStored(Run(cfg, offered), c);
    RunAppend(cfg, offered, accept);
    RunAppend(cfg, offered + [accept], store);
    steps := AskedAndOffered(cfg, offered + [accept] + [store], c, 1);
    GivenUp(Run(cfg, steps), c);
  }
}
