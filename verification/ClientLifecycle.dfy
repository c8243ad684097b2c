/**
 * The life of a UDP client (`udp/client`): dialling with bounded retries, initialization, the
 * reading goroutine that hands over to a reconnect when it ends, and the close.
 */
module ClientLifecycle {
  import opened Prelude

  /** The two limits, and whether the application set handlers of its own to decide instead. */
  datatype Config = Config(connectTries: int, reconnectTries: int, customConnect: bool, customReconnect: bool)

  datatype Dial = DialFails | StreamFails | Linked

  /** What comes back for the validation message: `ClientData` with its status and the id. */
  datatype InitReply = NoReply | Reply(status: bool, id: string)

  /** One turn of a retry loop: the answer of a custom handler, and what the network does. */
  datatype Attempt = Attempt(allowed: bool, dial: Dial, reply: InitReply)

  /** `Down` is an error or a give-up; a loop may also need more than the attempts at hand. */
  datatype Verdict = Up | Down | StillTrying

  /** The fields of a client, and its goroutines: readers by the session they were started for,
      reconnects and closes that have not got the mutex yet. Sessions are numbered by dials. */
  datatype State = State(
    session: Option<nat>, channel: Option<nat>, id: string, data: Option<bool>, init: bool,
    connected: bool, exit: bool, closed: bool,
    dials: nat, readers: set<nat>, reconnects: nat, closes: nat)

  const NEW := State(None, None, "", None, false, false, false, false, 0, {}, 0, 0)

  /** `canConnectHandler` and `canReconnectHandler`. */
  predicate CanTry(limit: int, tries: nat) {
    limit == 0 || tries < limit
  }

  predicate May(custom: bool, limit: int, tries: nat, allowed: bool) {
    if custom then allowed else CanTry(limit, tries)
  }

  /** `reset`. */
  function Reset(s: State): State {
    s.(connected := false, channel := None, session := None)
  }

  /** `connect`: a session without a stream stays until the next reset. */
  function DialOnce(s: State, dial: Dial): State {
    var r := Reset(s).(dials := s.dials + 1);
    match dial
    case DialFails => r
    case StreamFails => r.(session := Some(s.dials))
    case Linked => r.(session := Some(s.dials), channel := Some(s.dials))
  }

  predicate Accepts(reply: InitReply) {
    reply.Reply? && reply.status
  }

  /** `initialize` and `handleInitData`. */
  function Initialize(s: State, reply: InitReply): State
    requires s.session.Some?
  {
    match reply
    case NoReply => s
    case Reply(false, _) => s.(data := Some(false))
    case Reply(true, id) =>
      s.(data := Some(true), id := id, init := true, readers := s.readers + {s.session.value}, connected := true)
  }

  /** The retry loop of `Connect`, from `tries` on. */
  function ConnectLoop(cfg: Config, s: State, script: seq<Attempt>, tries: nat): (State, Verdict)
    decreases |script|
  {
    if script == [] then
      (s, if cfg.customConnect || CanTry(cfg.connectTries, tries) then StillTrying else Down)
    else if !May(cfg.customConnect, cfg.connectTries, tries, script[0].allowed) then (s, Down)
    else
      var s1 := DialOnce(s, script[0].dial);
      if script[0].dial.Linked? then AfterLink(s1, script[0].reply)
      else ConnectLoop(cfg, s1, script[1..], tries + 1)
  }

  /** The rest of `Connect`: a failed initialization closes the client in the background. */
  function AfterLink(s: State, reply: InitReply): (State, Verdict)
    requires s.session.Some?
  {
    if Accepts(reply) then (Initialize(s, reply), Up)
    else (Initialize(s, reply).(closes := s.closes + 1), Down)
  }

  function Connect(cfg: Config, s: State, script: seq<Attempt>): (State, Verdict) {
    if s.closed then (s, Down) else ConnectLoop(cfg, s, script, 0)
  }

  /** The retry loop of `reconnect` with what follows it; a refusal by the server ends it. */
  function ReconnectLoop(cfg: Config, s: State, script: seq<Attempt>, tries: nat): (State, Verdict)
    decreases |script|
  {
    if script == [] then
      if cfg.customReconnect || CanTry(cfg.reconnectTries, tries) then (s, StillTrying)
      else (s.(closes := s.closes + 1), Down)
    else if !May(cfg.customReconnect, cfg.reconnectTries, tries, script[0].allowed)
      then (s.(closes := s.closes + 1), Down)
    else
      var s1 := DialOnce(s, script[0].dial);
      if !script[0].dial.Linked? then ReconnectLoop(cfg, s1, script[1..], tries + 1)
      else
        var s2 := Initialize(s1, script[0].reply);
        if Accepts(script[0].reply) then (s2, Up)
        else if s2.data == Some(false) then (s2.(closes := s2.closes + 1), Down)
        else ReconnectLoop(cfg, s2, script[1..], tries + 1)
  }

  function Reconnect(cfg: Config, s: State, script: seq<Attempt>): (State, Verdict) {
    if s.closed then (s, Down) else ReconnectLoop(cfg, s, script, 0)
  }

  /** `Close`. */
  function Close(s: State): State {
    if s.closed then s else Reset(s).(exit := true, closed := true)
  }

  /** The deferred part of `handleMessages`. */
  function ReaderEnds(s: State, reader: nat): State {
    s.(readers := s.readers - {reader}, reconnects := if s.closed then s.reconnects else s.reconnects + 1)
  }

  // ----- the retry loops --------------------------------------------------------------------

  predicate AllowedAt(custom: bool, limit: int, script: seq<Attempt>, tries: nat, j: nat)
    requires j < |script|
  {
    May(custom, limit, tries + j, script[j].allowed)
  }

  /** The attempts of a loop that get as far as `i`: all allowed, none of the earlier ones linked. */
  ghost predicate Reaches(custom: bool, limit: int, script: seq<Attempt>, tries: nat, i: nat) {
    && i < |script|
    && (forall j | 0 <= j <= i :: AllowedAt(custom, limit, script, tries, j))
    && (forall j | 0 <= j < i :: !script[j].dial.Linked?)
  }

  /** `Connect` succeeds exactly when the first attempt that links is also accepted. */
  lemma {:induction false} ConnectsAtFirstLink(cfg: Config, s: State, script: seq<Attempt>, tries: nat)
    ensures ConnectLoop(cfg, s, script, tries).1 == Up <==> exists i: nat ::
      Reaches(cfg.customConnect, cfg.connectTries, script, tries, i) && script[i].dial.Linked?
        && Accepts(script[i].reply)
    decreases |script|
  {
    var custom, limit := cfg.customConnect, cfg.connectTries;
    assert forall i: nat | Reaches(custom, limit, script, tries, i) :: AllowedAt(custom, limit, script, tries, 0);
    if script != [] && AllowedAt(custom, limit, script, tries, 0) {
      if script[0].dial.Linked? {
        assert Reaches(custom, limit, script, tries, 0);
        assert forall i: nat | Reaches(custom, limit, script, tries, i) :: i == 0;
      } else {
        var rest, next := script[1..], tries + 1;
        ConnectsAtFirstLink(cfg, DialOnce(s, script[0].dial), rest, next);
        forall i: nat | Reaches(custom, limit, rest, next, i) ensures Reaches(custom, limit, script, tries, i + 1) {
          ReachesShift(custom, limit, script, tries, i);
        }
        forall i: nat | Reaches(custom, limit, script, tries, i) && script[i].dial.Linked?
          ensures i > 0 && Reaches(custom, limit, rest, next, i - 1) {
          ReachesShift(custom, limit, script, tries, i - 1);
        }
      }
    }
  }

  lemma ReachesShift(custom: bool, limit: int, script: seq<Attempt>, tries: nat, i: nat)
    requires script != [] && !script[0].dial.Linked? && May(custom, limit, tries, script[0].allowed)
    ensures Reaches(custom, limit, script, tries, i + 1) <==> Reaches(custom, limit, script[1..], tries + 1, i)
  {
    var rest := script[1..];
    if Reaches(custom, limit, rest, tries + 1, i) {
      forall j | 0 <= j <= i + 1 ensures AllowedAt(custom, limit, script, tries, j)
        && (j <= i ==> !script[j].dial.Linked?) {
        if j > 0 { assert rest[j - 1] == script[j] && AllowedAt(custom, limit, rest, tries + 1, j - 1); }
      }
    }
    if Reaches(custom, limit, script, tries, i + 1) {
      forall j | 0 <= j <= i ensures AllowedAt(custom, limit, rest, tries + 1, j) && (j < i ==> !rest[j].dial.Linked?) {
        assert rest[j] == script[j + 1] && AllowedAt(custom, limit, script, tries, j + 1);
      }
    }
  }

  // ----- how the loops end ------------------------------------------------------------------

  /** The attempt ends its loop: the first one that links ends `Connect`; a reconnect goes on after
      a link as long as nothing came back, unless a refusal is known from before. */
  predicate Final(again: bool, data: Option<bool>, a: Attempt) {
    a.dial.Linked? && (again ==> a.reply.Reply? || data == Some(false))
  }

  /** The loop makes the first `n` attempts in vain and ends with the next, or without another. */
  ghost predicate EndsAt(again: bool, custom: bool, limit: int, data: Option<bool>, script: seq<Attempt>, tries: nat,
    n: nat) {
    && n <= |script|
    && (forall j | 0 <= j < n :: AllowedAt(custom, limit, script, tries, j) && !Final(again, data, script[j]))
    && (n < |script| && AllowedAt(custom, limit, script, tries, n) ==> Final(again, data, script[n]))
  }

  /** The client after an attempt that linked as the dial number `k`, and the verdict. */
  predicate EndsLinked(s: State, k: nat, reply: InitReply, s': State, v: Verdict) {
    && s'.dials == k + 1 && s'.session == s'.channel == Some(k)
    && s'.closed == s.closed && s'.exit == s.exit && s'.reconnects == s.reconnects
    && match reply
       case Reply(true, id) =>
         && v == Up && s'.connected && s'.init && s'.id == id && s'.data == Some(true)
         && s'.readers == s.readers + {k} && s'.closes == s.closes
       case reply =>
         && v == Down && !s'.connected && s'.init == s.init && s'.id == s.id && s'.readers == s.readers
         && s'.data == (if reply.Reply? then Some(false) else s.data) && s'.closes == s.closes + 1
  }

  /** The client after `n` attempts in vain; `more` says whether another one would be allowed. */
  predicate EndsUnlinked(again: bool, s: State, script: seq<Attempt>, n: nat, more: bool, s': State, v: Verdict)
    requires n <= |script|
  {
    && s'.dials == s.dials + n && s'.connected == (s.connected && n == 0)
    && (if n == 0 then s'.session == s.session && s'.channel == s.channel
        else
          && s'.session == (if script[n - 1].dial.DialFails? then None else Some(s.dials + n - 1))
          && s'.channel == if script[n - 1].dial.Linked? then s'.session else None)
    && s'.readers == s.readers && s'.data == s.data && s'.id == s.id && s'.init == s.init
    && s'.closed == s.closed && s'.exit == s.exit && s'.reconnects == s.reconnects
    && v == (if more then StillTrying else Down) && s'.closes == s.closes + if again && !more then 1 else 0
  }

  /** What is left of a loop that ended so, and its verdict. */
  ghost predicate LoopEnds(again: bool, custom: bool, limit: int, s: State, script: seq<Attempt>, tries: nat, n: nat,
    s': State, v: Verdict)
    requires n <= |script|
  {
    if n < |script| && AllowedAt(custom, limit, script, tries, n)
      then EndsLinked(s, s.dials + n, script[n].reply, s', v)
      else EndsUnlinked(again, s, script, n, n == |script| && (custom || limit == 0 || tries + n < limit), s', v)
  }

  lemma EndsShift(again: bool, custom: bool, limit: int, data: Option<bool>, script: seq<Attempt>, tries: nat, n: nat)
    requires EndsAt(again, custom, limit, data, script, tries, n) && n > 0
    ensures May(custom, limit, tries, script[0].allowed) && !Final(again, data, script[0])
    ensures EndsAt(again, custom, limit, data, script[1..], tries + 1, n - 1)
    ensures n < |script| ==>
      (AllowedAt(custom, limit, script[1..], tries + 1, n - 1) <==> AllowedAt(custom, limit, script, tries, n))
  {
    assert AllowedAt(custom, limit, script, tries, 0);
    var rest := script[1..];
    forall j | 0 <= j < |rest|
      ensures rest[j] == script[j + 1]
      ensures AllowedAt(custom, limit, rest, tries + 1, j) <==> AllowedAt(custom, limit, script, tries, j + 1) {}
  }

  lemma LoopEndsShift(again: bool, custom: bool, limit: int, s: State, script: seq<Attempt>, tries: nat, n: nat,
    s': State, v: Verdict)
    requires n > 0 && EndsAt(again, custom, limit, s.data, script, tries, n)
    requires LoopEnds(again, custom, limit, DialOnce(s, script[0].dial), script[1..], tries + 1, n - 1, s', v)
    ensures LoopEnds(again, custom, limit, s, script, tries, n, s', v)
  {
    EndsShift(again, custom, limit, s.data, script, tries, n);
    hide AllowedAt, EndsAt, EndsLinked, EndsUnlinked, DialOnce;
    assert DialOnce(s, script[0].dial).dials == s.dials + 1 by { DialCounts(s, script[0].dial); }
    if n < |script| && AllowedAt(custom, limit, script, tries, n) {
      assert script[1..][n - 1] == script[n];
      LinkedShift(s, script[0].dial, n, script[n].reply, s', v);
    } else {
      UnlinkedShift(again, s, script, n, n == |script| && (custom || limit == 0 || tries + n < limit), s', v);
    }
  }

  lemma DialCounts(s: State, dial: Dial)
    ensures DialOnce(s, dial).dials == s.dials + 1
  {
  }

  lemma LinkedShift(s: State, dial: Dial, n: nat, reply: InitReply, s': State, v: Verdict)
    requires n > 0 && EndsLinked(DialOnce(s, dial), s.dials + n, reply, s', v)
    ensures EndsLinked(s, s.dials + n, reply, s', v)
  {
  }

  lemma UnlinkedShift(again: bool, s: State, script: seq<Attempt>, n: nat, more: bool, s': State, v: Verdict)
    requires 0 < n <= |script|
    requires EndsUnlinked(again, DialOnce(s, script[0].dial), script[1..], n - 1, more, s', v)
    ensures EndsUnlinked(again, s, script, n, more, s', v)
  {
    assert n > 1 ==> script[1..][n - 2] == script[n - 1];
  }

  lemma {:induction false} ConnectEnds(cfg: Config, s: State, script: seq<Attempt>, tries: nat, n: nat)
    requires EndsAt(false, cfg.customConnect, cfg.connectTries, s.data, script, tries, n)
    ensures var (s', v) := ConnectLoop(cfg, s, script, tries);
      LoopEnds(false, cfg.customConnect, cfg.connectTries, s, script, tries, n, s', v)
    decreases |script|
  {
    if n > 0 {
      EndsShift(false, cfg.customConnect, cfg.connectTries, s.data, script, tries, n);
      ConnectEnds(cfg, DialOnce(s, script[0].dial), script[1..], tries + 1, n - 1);
      var (s', v) := ConnectLoop(cfg, s, script, tries);
      assert (s', v) == ConnectLoop(cfg, DialOnce(s, script[0].dial), script[1..], tries + 1);
      hide LoopEnds, EndsAt, ConnectLoop, DialOnce;
      LoopEndsShift(false, cfg.customConnect, cfg.connectTries, s, script, tries, n, s', v);
    } else {
      ConnectEndsAtOnce(cfg, s, script, tries);
    }
  }

  lemma ConnectEndsAtOnce(cfg: Config, s: State, script: seq<Attempt>, tries: nat)
    requires EndsAt(false, cfg.customConnect, cfg.connectTries, s.data, script, tries, 0)
    ensures var (s', v) := ConnectLoop(cfg, s, script, tries);
      LoopEnds(false, cfg.customConnect, cfg.connectTries, s, script, tries, 0, s', v)
  {
  }

  lemma ReconnectEndsAtOnce(cfg: Config, s: State, script: seq<Attempt>, tries: nat)
    requires EndsAt(true, cfg.customReconnect, cfg.reconnectTries, s.data, script, tries, 0)
    ensures var (s', v) := ReconnectLoop(cfg, s, script, tries);
      LoopEnds(true, cfg.customReconnect, cfg.reconnectTries, s, script, tries, 0, s', v)
  {
    if script != [] && AllowedAt(cfg.customReconnect, cfg.reconnectTries, script, tries, 0) {
      ReconnectEndsLinked(cfg, s, script, tries);
      hide ReconnectLoop, EndsUnlinked, EndsLinked, DialOnce, Initialize;
      LinkEnds(s, script[0].reply);
    }
  }

  lemma ReconnectEndsLinked(cfg: Config, s: State, script: seq<Attempt>, tries: nat)
    requires script != [] && May(cfg.customReconnect, cfg.reconnectTries, tries, script[0].allowed)
    requires Final(true, s.data, script[0])
    ensures ReconnectLoop(cfg, s, script, tries) == LinkedOutcome(s, script[0].reply)
  {
  }

  function LinkedOutcome(s: State, reply: InitReply): (State, Verdict) {
    var s' := Initialize(DialOnce(s, Linked), reply);
    if Accepts(reply) then (s', Up) else (s'.(closes := s'.closes + 1), Down)
  }

  lemma LinkEnds(s: State, reply: InitReply)
    ensures EndsLinked(s, s.dials, reply, LinkedOutcome(s, reply).0, LinkedOutcome(s, reply).1)
  {
  }

  lemma {:induction false} ReconnectEnds(cfg: Config, s: State, script: seq<Attempt>, tries: nat, n: nat)
    requires EndsAt(true, cfg.customReconnect, cfg.reconnectTries, s.data, script, tries, n)
    ensures var (s', v) := ReconnectLoop(cfg, s, script, tries);
      LoopEnds(true, cfg.customReconnect, cfg.reconnectTries, s, script, tries, n, s', v)
    decreases |script|
  {
    if n > 0 {
      EndsShift(true, cfg.customReconnect, cfg.reconnectTries, s.data, script, tries, n);
      ReconnectEnds(cfg, DialOnce(s, script[0].dial), script[1..], tries + 1, n - 1);
      var (s', v) := ReconnectLoop(cfg, s, script, tries);
      assert (s', v) == ReconnectLoop(cfg, DialOnce(s, script[0].dial), script[1..], tries + 1);
      hide LoopEnds, EndsAt, ReconnectLoop, DialOnce;
      LoopEndsShift(true, cfg.customReconnect, cfg.reconnectTries, s, script, tries, n, s', v);
    } else {
      ReconnectEndsAtOnce(cfg, s, script, tries);
    }
  }

  lemma {:induction false} SomeEnd(again: bool, custom: bool, limit: int, data: Option<bool>, script: seq<Attempt>,
    tries: nat) returns (n: nat)
    ensures EndsAt(again, custom, limit, data, script, tries, n)
    decreases |script|
  {
    if script == [] || !AllowedAt(custom, limit, script, tries, 0) || Final(again, data, script[0]) {
      n := 0;
    } else {
      var rest := script[1..];
      var m := SomeEnd(again, custom, limit, data, rest, tries + 1);
      n := m + 1;
      forall j | 0 <= j < |rest|
        ensures rest[j] == script[j + 1]
        ensures AllowedAt(custom, limit, rest, tries + 1, j) <==> AllowedAt(custom, limit, script, tries, j + 1) {}
      forall j | 0 <= j < n ensures AllowedAt(custom, limit, script, tries, j) && !Final(again, data, script[j]) {
        if j > 0 { assert rest[j - 1] == script[j]; }
      }
    }
  }

  /**
   * A reconnect succeeds exactly if some attempt links and is accepted, that one and all before it
   * are allowed, and none before it ended the loop, that is, linked and got a refusal, or linked in
   * vain while a refusal was known.
   */
  lemma ReconnectsAtFirstAccepted(cfg: Config, s: State, script: seq<Attempt>, tries: nat)
    ensures ReconnectLoop(cfg, s, script, tries).1 == Up <==> exists i: nat ::
      && i < |script| && script[i].dial.Linked? && Accepts(script[i].reply)
      && (forall j | 0 <= j <= i :: AllowedAt(cfg.customReconnect, cfg.reconnectTries, script, tries, j))
      && (forall j | 0 <= j < i && script[j].dial.Linked? :: script[j].reply.NoReply? && s.data != Some(false))
  {
    var custom, limit := cfg.customReconnect, cfg.reconnectTries;
    var n := SomeEnd(true, custom, limit, s.data, script, tries);
    ReconnectEnds(cfg, s, script, tries, n);
    hide ReconnectLoop;
    if ReconnectLoop(cfg, s, script, tries).1 == Up {
      assert script[n].dial.Linked? && Accepts(script[n].reply);
      assert forall j | 0 <= j < n :: !Final(true, s.data, script[j]);
    }
    forall i: nat | i < |script| && script[i].dial.Linked? && Accepts(script[i].reply)
      && (forall j | 0 <= j <= i :: AllowedAt(custom, limit, script, tries, j))
      && (forall j | 0 <= j < i && script[j].dial.Linked? :: script[j].reply.NoReply? && s.data != Some(false))
      ensures i == n {
      assert forall j | 0 <= j < i :: !Final(true, s.data, script[j]);
      assert Final(true, s.data, script[i]);
    }
  }

  function Left(limit: int, tries: nat): nat {
    if tries < limit then limit - tries else 0
  }

  /** With the default handler and a positive limit, a loop dials at most as often as is left of
      the limit, and that many attempts always bring it to an end. */
  lemma {:induction false} ConnectLoopBounded(cfg: Config, s: State, script: seq<Attempt>, tries: nat)
    requires !cfg.customConnect && cfg.connectTries > 0
    ensures var (s', v) := ConnectLoop(cfg, s, script, tries);
      s.dials <= s'.dials <= s.dials + Left(cfg.connectTries, tries)
      && (|script| >= Left(cfg.connectTries, tries) ==> v != StillTrying)
    decreases |script|
  {
    if script != [] && CanTry(cfg.connectTries, tries) && !script[0].dial.Linked? {
      ConnectLoopBounded(cfg, DialOnce(s, script[0].dial), script[1..], tries + 1);
    }
  }

  lemma {:induction false} ReconnectLoopBounded(cfg: Config, s: State, script: seq<Attempt>, tries: nat)
    requires !cfg.customReconnect && cfg.reconnectTries > 0
    ensures var (s', v) := ReconnectLoop(cfg, s, script, tries);
      s.dials <= s'.dials <= s.dials + Left(cfg.reconnectTries, tries)
      && (|script| >= Left(cfg.reconnectTries, tries) ==> v != StillTrying)
    decreases |script|
  {
    if script != [] && CanTry(cfg.reconnectTries, tries) {
      var s1 := DialOnce(s, script[0].dial);
      var s2 := if script[0].dial.Linked? then Initialize(s1, script[0].reply) else s1;
      ReconnectLoopBounded(cfg, s2, script[1..], tries + 1);
    }
  }

  /** Every call dials at most as often as configured, and ends after as many attempts. */
  lemma RetriesBounded(cfg: Config, s: State, script: seq<Attempt>)
    requires !cfg.customConnect && !cfg.customReconnect && cfg.connectTries > 0 && cfg.reconnectTries > 0
    ensures Connect(cfg, s, script).0.dials <= s.dials + cfg.connectTries
    ensures Reconnect(cfg, s, script).0.dials <= s.dials + cfg.reconnectTries
    ensures |script| >= cfg.connectTries ==> Connect(cfg, s, script).1 != StillTrying
    ensures |script| >= cfg.reconnectTries ==> Reconnect(cfg, s, script).1 != StillTrying
  {
    ConnectLoopBounded(cfg, s, script, 0);
    ReconnectLoopBounded(cfg, s, script, 0);
  }

  // ----- what holds of a client at any time -------------------------------------------------

  /** Connected means a session with its channel, initialized; closed means neither. */
  predicate LinkOk(s: State) {
    && (s.channel.Some? ==> s.session == s.channel)
    && (s.connected ==> s.channel.Some? && s.init && !s.closed)
    && (s.closed ==> s.session.None? && s.channel.None?)
    && (s.closed <==> s.exit)
    && (s.session.Some? ==> s.session.value < s.dials)
    && (forall k | k in s.readers :: k < s.dials)
  }

  /** How a retry loop leaves the client: linked afresh with one more reader, or without a link
      and without a new reader. */
  ghost predicate LoopLeaves(s: State, s': State, v: Verdict) {
    && LinkOk(s') && s.dials <= s'.dials && s'.closed == s.closed && s'.reconnects == s.reconnects
    && (v == Up ==>
      s'.connected && s'.session.value >= s.dials && s'.readers == s.readers + {s'.session.value}
        && s'.closes == s.closes)
    && (v == Down ==>
      s'.readers == s.readers && (s'.connected ==> s.connected && s'.dials == s.dials) && s'.closes >= s.closes)
  }

  lemma DialLeaves(s: State, dial: Dial)
    requires LinkOk(s) && !s.closed
    ensures var s' := DialOnce(s, dial);
      && LinkOk(s') && !s'.connected && s.dials !in s.readers
      && s' == s.(dials := s.dials + 1, session := s'.session, channel := s'.channel, connected := false)
      && (dial.Linked? ==> s'.session == s'.channel == Some(s.dials))
  {
  }

  lemma {:induction false} ConnectLoopLeaves(cfg: Config, s: State, script: seq<Attempt>, tries: nat)
    requires LinkOk(s) && !s.closed
    ensures var (s', v) := ConnectLoop(cfg, s, script, tries);
      LoopLeaves(s, s', v) && (v == Down ==> s'.init == s.init)
    decreases |script|
  {
    if script != [] && !script[0].dial.Linked? {
      ConnectLoopLeaves(cfg, DialOnce(s, script[0].dial), script[1..], tries + 1);
    }
  }

  lemma InitializeLeaves(s: State, reply: InitReply)
    requires LinkOk(s) && !s.closed && !s.connected && s.channel.Some?
    ensures var s' := Initialize(s, reply);
      && LinkOk(s') && s' == s.(data := s'.data, id := s'.id, init := s'.init, readers := s'.readers,
        connected := s'.connected)
      && s'.connected == Accepts(reply)
      && s'.readers == if Accepts(reply) then s.readers + {s.session.value} else s.readers
  {
  }

  lemma {:induction false} ReconnectLoopLeaves(cfg: Config, s: State, script: seq<Attempt>, tries: nat)
    requires LinkOk(s) && !s.closed
    ensures var (s', v) := ReconnectLoop(cfg, s, script, tries);
      LoopLeaves(s, s', v) && (v == Down ==> s'.closes == s.closes + 1)
    decreases |script|
  {
    if script != [] {
      var s1 := DialOnce(s, script[0].dial);
      DialLeaves(s, script[0].dial);
      if !script[0].dial.Linked? {
        hide LinkOk, DialOnce;
        ReconnectLoopLeaves(cfg, s1, script[1..], tries + 1);
      } else {
        InitializeLeaves(s1, script[0].reply);
        hide LinkOk, Initialize, DialOnce;
        if !Accepts(script[0].reply) {
          ReconnectLoopLeaves(cfg, Initialize(s1, script[0].reply), script[1..], tries + 1);
        }
      }
    }
  }

  /**
   * A reconnect that ends on a client that is not closed either leaves it connected on a session
   * dialled since, with exactly one reader more, for that session; or it leaves no new reader and
   * one more close under way.
   */
  lemma ReconnectHandsOn(cfg: Config, s: State, script: seq<Attempt>)
    requires LinkOk(s) && !s.closed && Reconnect(cfg, s, script).1 != StillTrying
    ensures var (s', v) := Reconnect(cfg, s, script);
      if v == Up then
        && s'.connected && s'.channel == s'.session && s'.session.Some? && s'.session.value >= s.dials
        && s'.session.value !in s.readers && s'.readers == s.readers + {s'.session.value} && s'.closes == s.closes
      else s'.readers == s.readers && s'.closes == s.closes + 1
  {
    ReconnectLoopLeaves(cfg, s, script, 0);
  }

  // ----- all runs ---------------------------------------------------------------------------

  datatype Step =
    | ConnectCalled(script: seq<Attempt>)
    | ReaderStops(reader: nat)
    | ReconnectRuns(script: seq<Attempt>)
    | CloseRuns
    | CloseCalled

  /** `overlapped`: a call of `Connect` succeeded on an open client that had a reader or a pending
      reconnect; `intruded`: a call dialled while an open client had a reader. */
  datatype Sys = Sys(client: State, overlapped: bool, intruded: bool)

  /** Calls hold the client's mutex until they are over, so they are steps of their own. */
  predicate Enabled(cfg: Config, s: State, step: Step) {
    match step
    case ConnectCalled(script) => Connect(cfg, s, script).1 != StillTrying
    case ReaderStops(reader) => reader in s.readers
    case ReconnectRuns(script) => s.reconnects > 0 && Reconnect(cfg, s, script).1 != StillTrying
    case CloseRuns => s.closes > 0
    case CloseCalled => true
  }

  /** Readers, and reconnects that will become readers. */
  function Batons(s: State): nat {
    |s.readers| + s.reconnects
  }

  predicate Overlaps(cfg: Config, s: State, script: seq<Attempt>) {
    !s.closed && Batons(s) > 0 && Connect(cfg, s, script).1 == Up
  }

  predicate Intrudes(s: State, s': State) {
    !s.closed && s.readers != {} && s'.dials > s.dials
  }

  function AfterStep(cfg: Config, s: State, step: Step): State {
    if !Enabled(cfg, s, step) then s
    else match step
      case ConnectCalled(script) => Connect(cfg, s, script).0
      case ReaderStops(reader) => ReaderEnds(s, reader)
      case ReconnectRuns(script) => Reconnect(cfg, s.(reconnects := s.reconnects - 1), script).0
      case CloseRuns => Close(s.(closes := s.closes - 1))
      case CloseCalled => Close(s)
  }

  function Apply(cfg: Config, s: Sys, step: Step): Sys {
    var next := AfterStep(cfg, s.client, step);
    Sys(next,
        s.overlapped || (step.ConnectCalled? && Overlaps(cfg, s.client, step.script)),
        s.intruded || Intrudes(s.client, next))
  }

  /** A close leaves no link, and everything but the link and the flags as it was. */
  predicate CloseLeaves(s: State, s': State) {
    if s.closed then s' == s
    else
      && s'.closed && s'.exit && !s'.connected && s'.session.None? && s'.channel.None?
      && s' == s.(closed := true, exit := true, connected := false, session := None, channel := None)
  }

  /** A loop that ended leaves what its attempts call for. */
  ghost predicate LoopLeavesEnd(again: bool, custom: bool, limit: int, s: State, script: seq<Attempt>, s': State) {
    exists n, v :: EndsAt(again, custom, limit, s.data, script, 0, n) && v != StillTrying
      && LoopEnds(again, custom, limit, s, script, 0, n, s', v)
  }

  /** Every step, in full. */
  lemma StepEffects(cfg: Config, s: State, step: Step)
    requires Enabled(cfg, s, step)
    ensures var s' := AfterStep(cfg, s, step);
      match step
      case CloseCalled => CloseLeaves(s, s')
      case CloseRuns => CloseLeaves(s.(closes := s.closes - 1), s')
      case ReaderStops(reader) =>
        && reader !in s'.readers && s'.readers + {reader} == s.readers
        && s'.reconnects == s.reconnects + (if s.closed then 0 else 1)
        && s' == s.(readers := s'.readers, reconnects := s'.reconnects)
      case ConnectCalled(script) =>
        if s.closed then s' == s
        else LoopLeavesEnd(false, cfg.customConnect, cfg.connectTries, s, script, s')
      case ReconnectRuns(script) =>
        var r := s.(reconnects := s.reconnects - 1);
        if s.closed then s' == r
        else LoopLeavesEnd(true, cfg.customReconnect, cfg.reconnectTries, r, script, s')
  {
    match step
    case ConnectCalled(script) =>
      if !s.closed {
        var n := SomeEnd(false, cfg.customConnect, cfg.connectTries, s.data, script, 0);
        ConnectEnds(cfg, s, script, 0, n);
        hide ConnectLoop, EndsAt, LoopEnds;
      }
    case ReconnectRuns(script) =>
      if !s.closed {
        var r := s.(reconnects := s.reconnects - 1);
        var n := SomeEnd(true, cfg.customReconnect, cfg.reconnectTries, s.data, script, 0);
        ReconnectEnds(cfg, r, script, 0, n);
        ReconnectIgnoresCount(cfg, s, r.reconnects, script, 0);
        hide ReconnectLoop, EndsAt, LoopEnds;
        assert Reconnect(cfg, r, script).1 != StillTrying;
      }
    case _ =>
  }

  /** No open client is left without a reader, a pending reconnect or a close under way once it was
      initialized. */
  predicate BatonKept(s: State) {
    s.init && !s.closed ==> Batons(s) > 0 || s.closes > 0
  }

  /** The readers of an open client read its current session. */
  ghost predicate ReadersCurrent(s: State) {
    forall k | k in s.readers && !s.closed :: s.connected && s.session == Some(k)
  }

  ghost predicate SysInv(s: Sys) {
    && LinkOk(s.client) && BatonKept(s.client)
    && (!s.overlapped ==> Batons(s.client) <= 1)
    && (!s.intruded ==> ReadersCurrent(s.client))
  }

  /**
   * Of a call of `Connect` that has ended: a bound of one reader or pending reconnect survives it
   * exactly if the call did not succeed while there was one.
   */
  lemma BoundAfterConnect(cfg: Config, s: State, script: seq<Attempt>)
    requires LinkOk(s) && Batons(s) <= 1 && Connect(cfg, s, script).1 != StillTrying
    ensures var (s', v) := Connect(cfg, s, script);
      Batons(s') <= 1 <==> !(v == Up && Batons(s) == 1)
  {
    if !s.closed {
      ConnectLoopLeaves(cfg, s, script, 0);
    }
  }

  /**
   * What a caller can look at before the call: some course of events makes `Connect` break the
   * bound exactly if the client is open and has a reader or a pending reconnect already (and may
   * dial at all).
   */
  lemma ConnectMayBreakBound(cfg: Config, s: State)
    requires LinkOk(s) && Batons(s) <= 1
    ensures (exists script :: Connect(cfg, s, script).1 != StillTrying && Batons(Connect(cfg, s, script).0) > 1)
      <==> !s.closed && Batons(s) == 1 && (cfg.customConnect || CanTry(cfg.connectTries, 0))
  {
    forall script | Connect(cfg, s, script).1 != StillTrying && Batons(Connect(cfg, s, script).0) > 1
      ensures !s.closed && Batons(s) == 1 && (cfg.customConnect || CanTry(cfg.connectTries, 0)) {
      BoundAfterConnect(cfg, s, script);
    }
    if !s.closed && Batons(s) == 1 && (cfg.customConnect || CanTry(cfg.connectTries, 0)) {
      var script := [Attempt(true, Linked, Reply(true, ""))];
      assert Connect(cfg, s, script).1 == Up;
      BoundAfterConnect(cfg, s, script);
    }
  }

  lemma ConnectKeeps(cfg: Config, s: Sys, script: seq<Attempt>)
    requires SysInv(s)
    ensures SysInv(Apply(cfg, s, ConnectCalled(script)))
  {
    if Enabled(cfg, s.client, ConnectCalled(script)) && !s.client.closed {
      ConnectLoopLeaves(cfg, s.client, script, 0);
      hide ConnectLoop;
      if Connect(cfg, s.client, script).1 == Down && Connect(cfg, s.client, script).0.dials == s.client.dials {
        NoDialNoChange(cfg, s.client, script, 0);
      }
    }
  }

  /** A retry loop that does not dial leaves the link alone. */
  lemma NoDialNoChange(cfg: Config, s: State, script: seq<Attempt>, tries: nat)
    requires LinkOk(s) && !s.closed
    ensures var s' := ConnectLoop(cfg, s, script, tries).0;
      s'.dials == s.dials ==> s' == s
    ensures var s' := ReconnectLoop(cfg, s, script, tries).0;
      s'.dials == s.dials ==> s' == s.(closes := s'.closes)
  {
    if script != [] {
      var s1 := DialOnce(s, script[0].dial);
      DialLeaves(s, script[0].dial);
      if !script[0].dial.Linked? {
        ConnectLoopLeaves(cfg, s1, script[1..], tries + 1);
        ReconnectLoopLeaves(cfg, s1, script[1..], tries + 1);
      } else {
        InitializeLeaves(s1, script[0].reply);
        hide LinkOk;
        ReconnectLoopLeaves(cfg, Initialize(s1, script[0].reply), script[1..], tries + 1);
      }
    }
  }

  lemma ReconnectKeeps(cfg: Config, s: Sys, script: seq<Attempt>)
    requires SysInv(s)
    ensures SysInv(Apply(cfg, s, ReconnectRuns(script)))
  {
    if Enabled(cfg, s.client, ReconnectRuns(script)) {
      var c := s.client.(reconnects := s.client.reconnects - 1);
      assert LinkOk(c);
      ReconnectIgnoresCount(cfg, s.client, c.reconnects, script, 0);
      var s' := Apply(cfg, s, ReconnectRuns(script));
      assert s' == Sys(Reconnect(cfg, c, script).0, s.overlapped, s.intruded ||
        Intrudes(s.client, Reconnect(cfg, c, script).0));
      if !s.client.closed {
        ReconnectLoopLeaves(cfg, c, script, 0);
        NoDialNoChange(cfg, c, script, 0);
        hide ReconnectLoop, ConnectLoop, Enabled, Apply;
      }
    }
  }

  lemma {:induction false} ReconnectIgnoresCount(cfg: Config, s: State, n: nat, script: seq<Attempt>, tries: nat)
    ensures ReconnectLoop(cfg, s.(reconnects := n), script, tries).1 == ReconnectLoop(cfg, s, script, tries).1
    decreases |script|
  {
    if script != [] {
      var s1 := DialOnce(s, script[0].dial);
      var s2 := if script[0].dial.Linked? then Initialize(s1, script[0].reply) else s1;
      ReconnectIgnoresCount(cfg, s2, n, script[1..], tries + 1);
    }
  }

  lemma ApplyKeeps(cfg: Config, s: Sys, step: Step)
    requires SysInv(s)
    ensures SysInv(Apply(cfg, s, step))
  {
    match step
    case ConnectCalled(script) => ConnectKeeps(cfg, s, script);
    case ReconnectRuns(script) => ReconnectKeeps(cfg, s, script);
    case ReaderStops(reader) =>
    case _ =>
  }

  ghost function Exec(cfg: Config, s: Sys, steps: seq<Step>): (r: Sys)
    requires SysInv(s)
    ensures SysInv(r)
    decreases |steps|
  {
    if steps == [] then s
    else
      ApplyKeeps(cfg, s, steps[0]);
      Exec(cfg, Apply(cfg, s, steps[0]), steps[1..])
  }

  ghost function Run(cfg: Config, steps: seq<Step>): (r: Sys)
    ensures SysInv(r)
  {
    Exec(cfg, Sys(NEW, false, false), steps)
  }

  /** In every run: a connected client has a session and its channel and is initialized. */
  lemma ConnectedIsLinked(cfg: Config, steps: seq<Step>)
    ensures var c := Run(cfg, steps).client;
      && (c.connected ==> c.session.Some? && c.channel == c.session && c.init && !c.closed)
      && (c.closed ==> !c.connected && c.session.None? && c.channel.None? && c.exit)
  {
  }

  /** Once closed, a client stays closed and never dials again, whatever happens to it. */
  lemma {:induction false} ClosedIsFinal(cfg: Config, s: Sys, steps: seq<Step>)
    requires SysInv(s) && s.client.closed
    ensures var c := Exec(cfg, s, steps).client;
      c.closed && !c.connected && c.session.None? && c.channel.None? && c.dials == s.client.dials
    decreases |steps|
  {
    if steps != [] {
      ApplyKeeps(cfg, s, steps[0]);
      ClosedIsFinal(cfg, Apply(cfg, s, steps[0]), steps[1..]);
    }
  }

  /**
   * Over all runs, with any number of calls of `Connect`: an initialized client that is not closed
   * has a reader or a pending reconnect, or is about to be closed. At no point of the run is there
   * more than one of the two exactly if no `Connect` succeeded on an open client that had one; and
   * at every point the readers read the current session exactly if no call dialled while an open
   * client had a reader.
   */
  lemma ReaderHandOver(cfg: Config, steps: seq<Step>)
    ensures BatonKept(Run(cfg, steps).client)
    ensures !Run(cfg, steps).overlapped <==> forall k: nat | k <= |steps| :: Batons(Run(cfg, steps[..k]).client) <= 1
    ensures !Run(cfg, steps).intruded <==> forall k: nat | k <= |steps| :: ReadersCurrent(Run(cfg, steps[..k]).client)
  {
    HandOverFrom(cfg, Sys(NEW, false, false), steps);
    assert forall k: nat | k <= |steps| :: Run(cfg, steps[..k]) == Exec(cfg, Sys(NEW, false, false), steps[..k]);
  }

  /** A step that sets one of the flags breaks what the flag stands for. */
  lemma FlagsAreBreaks(cfg: Config, s: Sys, step: Step)
    requires SysInv(s)
    ensures !s.overlapped && Apply(cfg, s, step).overlapped ==> Batons(Apply(cfg, s, step).client) > 1
    ensures !s.intruded && Apply(cfg, s, step).intruded ==> !ReadersCurrent(Apply(cfg, s, step).client)
  {
    hide ConnectLoop, ReconnectLoop;
    if step.ConnectCalled? && Enabled(cfg, s.client, step) && !s.client.closed {
      ConnectLoopLeaves(cfg, s.client, step.script, 0);
      if !s.overlapped && Apply(cfg, s, step).overlapped { BoundAfterConnect(cfg, s.client, step.script); }
    } else if step.ReconnectRuns? && Enabled(cfg, s.client, step) && !s.client.closed {
      var c := s.client.(reconnects := s.client.reconnects - 1);
      ReconnectLoopLeaves(cfg, c, step.script, 0);
      ReconnectIgnoresCount(cfg, s.client, c.reconnects, step.script, 0);
    }
    if !s.intruded && Apply(cfg, s, step).intruded {
      var k :| k in s.client.readers;
      assert k in Apply(cfg, s, step).client.readers;
    }
  }

  lemma {:induction false} HandOverFrom(cfg: Config, s: Sys, steps: seq<Step>)
    requires SysInv(s)
    ensures s.overlapped ==> Exec(cfg, s, steps).overlapped
    ensures s.intruded ==> Exec(cfg, s, steps).intruded
    ensures !s.overlapped ==>
      (!Exec(cfg, s, steps).overlapped <==>
        forall k: nat | k <= |steps| :: Batons(Exec(cfg, s, steps[..k]).client) <= 1)
    ensures !s.intruded ==>
      (!Exec(cfg, s, steps).intruded <==>
        forall k: nat | k <= |steps| :: ReadersCurrent(Exec(cfg, s, steps[..k]).client))
    decreases |steps|
  {
    assert SysInv(s);
    assert steps[..0] == [];
    if steps != [] {
      ApplyKeeps(cfg, s, steps[0]);
      FlagsAreBreaks(cfg, s, steps[0]);
      var s1, rest := Apply(cfg, s, steps[0]), steps[1..];
      assert (s.overlapped ==> s1.overlapped) && (s.intruded ==> s1.intruded);
      assert !s1.overlapped ==> Batons(s.client) <= 1;
      assert !s1.intruded ==> ReadersCurrent(s.client);
      hide SysInv, Apply, ReadersCurrent, Batons;
      HandOverFrom(cfg, s1, rest);
      forall k: nat | k <= |rest| ensures Exec(cfg, s1, rest[..k]) == Exec(cfg, s, steps[..k + 1]) {
        assert steps[..k + 1][1..] == rest[..k];
      }
      forall k: nat | 0 < k <= |steps| ensures Exec(cfg, s, steps[..k]) == Exec(cfg, s1, rest[..k - 1]) {
        assert steps[..k][1..] == rest[..k - 1];
      }
      assert rest[..0] == [];
      assert Exec(cfg, s, steps[..1]) == s1;
    }
  }

  /** The run in which it happens: a second call on a live client starts a second reader. */
  lemma SecondConnectBreaksHandOver(cfg: Config, id: string)
    requires cfg.customConnect || CanTry(cfg.connectTries, 0)
    ensures var call := ConnectCalled([Attempt(true, Linked, Reply(true, id))]);
      Run(cfg, [call, call]).overlapped && Run(cfg, [call, call]).client.readers == {0, 1}
  {
    var call := ConnectCalled([Attempt(true, Linked, Reply(true, id))]);
    var s1 := Apply(cfg, Sys(NEW, false, false), call);
    assert s1.client.readers == {0};
    var s2 := Apply(cfg, s1, call);
    assert s2.client.readers == {0, 1};
    assert [call, call][1..] == [call] && [call][1..] == [];
    assert Exec(cfg, s1, [call]) == Exec(cfg, s2, []);
  }
}
