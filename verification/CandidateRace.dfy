/**
 * The race of a connecting peer (`p2p/client/p2p.go`): one candidate per address of the other
 * side dials and offers itself; the connecting goroutine tries the offered ones in turn and
 * adopts the first that the other side confirms.
 */
module CandidateRace {
  import opened Prelude
  import L = ClientLifecycle

  const P2P_CONNECT_TRIES: nat := 3

  /** A candidate: between dials with so many made, in one, connected but not taken, taken by the
      connecting goroutine, or at one of its four ends. */
  datatype Candidate =
    | Trying(tries: nat)
    | Dialing(tries: nat)
    | Connected
    | HandedOff
    | Adopted
    | Closed
    | NeverConnected
    | InitFailed

  /** The connecting goroutine: on its way to the select, in it, with a candidate but without the
      lock yet, initializing it under the lock, or over. */
  datatype Main =
    | Looping
    | Selecting
    | Received(i: nat)
    | Initializing(i: nat)
    | Done(i: nat)
    | TimedOut

  /** A dial let through by `canConnect`, and an adoption. */
  datatype Event = DialAllowed(i: nat) | AdoptedNow(i: nat)

  /** `connected` and `taken`: the candidates that ever connected, and whose hand-off was taken. */
  datatype Race = Race(main: Main, completed: bool, localClient: Option<nat>, candidates: seq<Candidate>,
                       connected: set<nat>, taken: set<nat>, events: seq<Event>)

  datatype Step =
    | AsksToDial(i: nat)
    | DialFails(i: nat)
    | DialEnds(i: nat, validated: bool)
    | HandsOff(i: nat)
    | MainSelects
    | MainLocks
    | InitReturns(ok: bool)
    | MainTimesOut

  function Init(n: nat): Race {
    Race(Looping, false, None, seq(n, _ => Trying(0)), {}, {}, [])
  }

  /** The read lock of the candidates waits while an initialization holds the lock. */
  predicate Enabled(r: Race, step: Step) {
    match step
    case AsksToDial(i) => i < |r.candidates| && r.candidates[i].Trying? && !r.main.Initializing?
    case DialFails(i) => i < |r.candidates| && r.candidates[i].Dialing?
    case DialEnds(i, _) => i < |r.candidates| && r.candidates[i].Dialing?
    case HandsOff(i) => i < |r.candidates| && r.candidates[i].Connected? && !r.main.Initializing?
    case MainSelects => r.main.Looping?
    case MainLocks => r.main.Received?
    case InitReturns(_) => r.main.Initializing? && r.main.i < |r.candidates|
    case MainTimesOut => r.main.Selecting?
  }

  function Set(r: Race, i: nat, c: Candidate): Race
    requires i < |r.candidates|
  {
    r.(candidates := r.candidates[i := c])
  }

  function Apply(r: Race, step: Step): Race {
    if !Enabled(r, step) then r
    else match step
      case AsksToDial(i) =>
        var tries := r.candidates[i].tries;
        if !r.completed && tries < P2P_CONNECT_TRIES
          then Set(r, i, Dialing(tries)).(events := r.events + [DialAllowed(i)])
        else Set(r, i, NeverConnected)
      case DialFails(i) => Set(r, i, Trying(r.candidates[i].tries + 1))
      case DialEnds(i, validated) => (if validated then Set(r, i, Connected).(connected := r.connected + {i})
        else Set(r, i, NeverConnected))
      case HandsOff(i) =>
        if r.main.Selecting? then Set(r, i, HandedOff).(main := Received(i), taken := r.taken + {i})
          else Set(r, i, Closed)
      case MainSelects => r.(main := Selecting)
      case MainLocks => r.(main := Initializing(r.main.i))
      case InitReturns(ok) =>
        if ok then Set(r, r.main.i, Adopted).(main := Done(r.main.i), completed := true, localClient := Some(r.main.i),
                                              events := r.events + [AdoptedNow(r.main.i)])
        else Set(r, r.main.i, InitFailed).(main := Looping)
      case MainTimesOut => r.(main := TimedOut)
  }

  // ----- the invariant ----------------------------------------------------------------------

  /** Who is adopted is the local client, and the race is completed by it. */
  ghost predicate AdoptionOk(r: Race) {
    && (r.completed <==> r.main.Done?) && (r.completed <==> r.localClient.Some?)
    && (r.main.Done? ==> r.localClient == Some(r.main.i))
    && (forall i: nat | i < |r.candidates| :: r.candidates[i].Adopted? <==> r.localClient == Some(i))
    && (r.localClient.Some? ==> r.localClient.value < |r.candidates|)
  }

  /** Who was taken is with the connecting goroutine. */
  ghost predicate HandOffOk(r: Race) {
    && (forall i: nat | i < |r.candidates| :: r.candidates[i].HandedOff? <==>
      r.main == Received(i) || r.main == Initializing(i))
    && (r.main.Received? || r.main.Initializing? ==> r.main.i < |r.candidates|)
  }

  /** What became of a candidate says whether it connected, and whether it was taken. */
  ghost predicate HistoryOk(r: Race) {
    forall i: nat | i < |r.candidates| ::
      var c := r.candidates[i];
      && (i in r.connected <==> c.Connected? || c.HandedOff? || c.Adopted? || c.Closed? || c.InitFailed?)
      && (i in r.taken <==> c.HandedOff? || c.Adopted? || c.InitFailed?)
  }

  function Dials(events: seq<Event>, i: nat): nat {
    if events == [] then 0
    else Dials(events[..|events| - 1], i) + if events[|events| - 1] == DialAllowed(i) then 1 else 0
  }

  ghost predicate DialsOk(r: Race) {
    forall i: nat | i < |r.candidates| ::
      && Dials(r.events, i) <= P2P_CONNECT_TRIES
      && (r.candidates[i].Trying? ==> Dials(r.events, i) == r.candidates[i].tries)
      && (r.candidates[i].Dialing? ==> Dials(r.events, i) == r.candidates[i].tries + 1)
  }

  /** Nothing is let through after an adoption, and there is only one. */
  ghost predicate OrderOk(r: Race) {
    && (forall j | 0 <= j < |r.events| - 1 :: !r.events[j].AdoptedNow?)
    && (r.completed <==> r.events != [] && r.events[|r.events| - 1].AdoptedNow?)
  }

  ghost predicate RaceInv(r: Race) {
    AdoptionOk(r) && HandOffOk(r) && HistoryOk(r) && DialsOk(r) && OrderOk(r)
  }

  lemma DialsAppend(events: seq<Event>, e: Event, i: nat)
    ensures Dials(events + [e], i) == Dials(events, i) + if e == DialAllowed(i) then 1 else 0
  {
    assert (events + [e])[..|events|] == events;
  }

  lemma ApplyKeepsAdoption(r: Race, step: Step)
    requires AdoptionOk(r) && HandOffOk(r)
    ensures AdoptionOk(Apply(r, step)) && HandOffOk(Apply(r, step))
  {
  }

  lemma ApplyKeepsHistory(r: Race, step: Step)
    requires HandOffOk(r) && HistoryOk(r)
    ensures HistoryOk(Apply(r, step))
  {
  }

  lemma ApplyKeepsDials(r: Race, step: Step)
    requires DialsOk(r)
    ensures DialsOk(Apply(r, step))
  {
    var r' := Apply(r, step);
    if r'.events != r.events {
      forall i: nat { DialsAppend(r.events, r'.events[|r.events|], i); }
    }
  }

  lemma ApplyKeepsOrder(r: Race, step: Step)
    requires AdoptionOk(r) && OrderOk(r)
    ensures OrderOk(Apply(r, step))
  {
  }

  lemma ApplyKeeps(r: Race, step: Step)
    requires RaceInv(r)
    ensures RaceInv(Apply(r, step)) && |Apply(r, step).candidates| == |r.candidates|
  {
    ApplyKeepsAdoption(r, step);
    ApplyKeepsHistory(r, step);
    ApplyKeepsDials(r, step);
    ApplyKeepsOrder(r, step);
  }

  // ----- all runs ---------------------------------------------------------------------------

  ghost function Exec(r: Race, steps: seq<Step>): (r': Race)
    requires RaceInv(r)
    ensures RaceInv(r') && |r'.candidates| == |r.candidates|
    decreases |steps|
  {
    if steps == [] then r
    else
      ApplyKeeps(r, steps[0]);
      Exec(Apply(r, steps[0]), steps[1..])
  }

  lemma InitHolds(n: nat)
    ensures RaceInv(Init(n))
  {
  }

  ghost function Run(n: nat, steps: seq<Step>): (r: Race)
    ensures RaceInv(r) && |r.candidates| == n
  {
    InitHolds(n);
    Exec(Init(n), steps)
  }

  predicate Ended(c: Candidate) {
    c.Adopted? || c.Closed? || c.NeverConnected? || c.InitFailed?
  }

  /** In every run: at most one candidate is adopted, and it is the local client. */
  lemma AtMostOneAdopted(n: nat, steps: seq<Step>, i: nat, j: nat)
    requires i < n && j < n && Run(n, steps).candidates[i].Adopted?
    ensures Run(n, steps).localClient == Some(i) && Run(n, steps).completed
    ensures Run(n, steps).candidates[j].Adopted? ==> i == j
  {
  }

  /** In every run: each candidate dials at most three times, and none is let through to a dial
      after the adoption, which comes last and once. */
  lemma NoDialAfterAdoption(n: nat, steps: seq<Step>, i: nat)
    requires i < n
    ensures var r := Run(n, steps);
      && Dials(r.events, i) <= P2P_CONNECT_TRIES
      && (forall j | 0 <= j < |r.events| - 1 :: !r.events[j].AdoptedNow?)
      && (r.completed ==> forall more: Step :: Apply(r, more).events == r.events)
  {
  }

  /** In every run: once a candidate is at an end it stays there. */
  lemma {:induction false} EndsStay(r: Race, steps: seq<Step>, i: nat)
    requires RaceInv(r) && i < |r.candidates| && Ended(r.candidates[i])
    ensures Exec(r, steps).candidates[i] == r.candidates[i]
    decreases |steps|
  {
    if steps != [] {
      assert HandOffOk(r);
      hide RaceInv, DialsOk, OrderOk, HistoryOk, AdoptionOk;
      ApplyKeeps(r, steps[0]);
      assert Apply(r, steps[0]).candidates[i] == r.candidates[i];
      hide Apply, HandOffOk;
      EndsStay(Apply(r, steps[0]), steps[1..], i);
    }
  }

  /** Once completed, the only dials still to come to an end are those let through before. */
  lemma {:induction false} OnlyDialsInFlight(r: Race, steps: seq<Step>, i: nat)
    requires RaceInv(r) && r.completed && i < |r.candidates|
    ensures Exec(r, steps).candidates[i].Dialing? ==> Exec(r, steps).candidates[i] == r.candidates[i]
    ensures !r.candidates[i].Dialing? ==> !Exec(r, steps).candidates[i].Dialing?
    ensures Exec(r, steps).events == r.events && Exec(r, steps).completed
    decreases |steps|
  {
    if steps != [] {
      ApplyKeeps(r, steps[0]);
      hide DialsOk, OrderOk, HistoryOk;
      OnlyDialsInFlight(Apply(r, steps[0]), steps[1..], i);
    }
  }

  // ----- the race as its connecting goroutine sees it ---------------------------------------

  /** What the select of `connect` sees: a candidate, with the other side's answer to its init
      message, or the timer. */
  datatype Arrival<+C> = Offers(client: C, confirmed: bool) | TimerFires

  datatype Choice<+C> = Adopts(client: C) | GivesUp | StillWaiting

  /** The select loop of `connect`. */
  function Choose<C>(arrivals: seq<Arrival<C>>): Choice<C> {
    if arrivals == [] then StillWaiting
    else match arrivals[0]
      case Offers(client, confirmed) => if confirmed then Adopts(client) else Choose(arrivals[1..])
      case TimerFires => GivesUp
  }

  /** What the steps of a run bring to the select, in order. */
  function Arriving(r: Race, step: Step): seq<Arrival<nat>> {
    if !Enabled(r, step) then []
    else match step
      case InitReturns(ok) => [Offers(r.main.i, ok)]
      case MainTimesOut => [TimerFires]
      case _ => []
  }

  function Arrivals(r: Race, steps: seq<Step>): seq<Arrival<nat>>
    decreases |steps|
  {
    if steps == [] then [] else Arriving(r, steps[0]) + Arrivals(Apply(r, steps[0]), steps[1..])
  }

  predicate MainOver(m: Main) {
    m.Done? || m.TimedOut?
  }

  function ChoiceOf(m: Main): Choice<nat> {
    match m
    case Done(i) => Adopts(i)
    case TimedOut => GivesUp
    case _ => StillWaiting
  }

  lemma {:induction false} OverStaysOver(r: Race, steps: seq<Step>)
    requires RaceInv(r) && MainOver(r.main)
    ensures Arrivals(r, steps) == [] && Exec(r, steps).main == r.main
    decreases |steps|
  {
    if steps != [] {
      ApplyKeeps(r, steps[0]);
      hide DialsOk, OrderOk, HistoryOk, AdoptionOk;
      OverStaysOver(Apply(r, steps[0]), steps[1..]);
    }
  }

  lemma {:induction false} ChoosesFrom(r: Race, steps: seq<Step>)
    requires RaceInv(r) && !MainOver(r.main)
    ensures Choose(Arrivals(r, steps)) == ChoiceOf(Exec(r, steps).main)
    decreases |steps|
  {
    if steps != [] {
      ApplyKeeps(r, steps[0]);
      var r' := Apply(r, steps[0]);
      var first := Arriving(r, steps[0]);
      hide DialsOk, OrderOk, HistoryOk, AdoptionOk, HandOffOk;
      if MainOver(r'.main) {
        OverStaysOver(r', steps[1..]);
        assert first + [] == first;
      } else {
        ChoosesFrom(r', steps[1..]);
        if first != [] {
          assert (first + Arrivals(r', steps[1..]))[1..] == Arrivals(r', steps[1..]);
        } else {
          assert first + Arrivals(r', steps[1..]) == Arrivals(r', steps[1..]);
        }
      }
    }
  }

  /**
   * The whole race refines the loop that its connecting goroutine runs: whatever the candidates
   * do meanwhile, the local client of a race is the client the loop adopts from what the race
   * brings to its select, and the goroutine times out exactly if the loop gives up.
   */
  lemma RaceRefinesLoop(n: nat, steps: seq<Step>)
    ensures var r, choice := Run(n, steps), Choose(Arrivals(Init(n), steps));
      && (forall i: nat :: r.localClient == Some(i) <==> choice == Adopts(i))
      && (r.main.TimedOut? <==> choice == GivesUp)
  {
    InitHolds(n);
    ChoosesFrom(Init(n), steps);
    assert AdoptionOk(Run(n, steps));
    hide Run, Choose, Arrivals, DialsOk, OrderOk, HistoryOk;
  }

  predicate Deciding<C>(a: Arrival<C>) {
    a.TimerFires? || a.confirmed
  }

  ghost predicate FirstDeciding<C>(arrivals: seq<Arrival<C>>, i: nat) {
    && i < |arrivals| && Deciding(arrivals[i])
    && forall j | 0 <= j < i :: !Deciding(arrivals[j])
  }

  /** A candidate is adopted exactly if it is the first to be confirmed and the timer came later. */
  lemma {:induction false} FirstConfirmedIsAdopted<C>(arrivals: seq<Arrival<C>>, client: C)
    ensures Choose(arrivals) == Adopts(client) <==>
      exists i: nat :: FirstDeciding(arrivals, i) && arrivals[i] == Offers(client, true)
    ensures Choose(arrivals) == GivesUp <==> exists i: nat :: FirstDeciding(arrivals, i) && arrivals[i].TimerFires?
    decreases |arrivals|
  {
    if arrivals != [] {
      if Deciding(arrivals[0]) {
        assert FirstDeciding(arrivals, 0);
        assert forall i: nat | FirstDeciding(arrivals, i) :: i == 0;
      } else {
        var rest := arrivals[1..];
        FirstConfirmedIsAdopted(rest, client);
        forall i: nat | FirstDeciding(rest, i) ensures FirstDeciding(arrivals, i + 1) {
          assert forall j | 0 <= j < i + 1 :: j > 0 ==> arrivals[j] == rest[j - 1];
        }
        forall i: nat | FirstDeciding(arrivals, i) ensures i > 0 && FirstDeciding(rest, i - 1) {
          assert forall j | 0 <= j < i - 1 :: rest[j] == arrivals[j + 1];
        }
      }
    }
  }

  // ----- the race comes to an end -----------------------------------------------------------

  /** How many steps a candidate can still take part in. */
  function Rank(c: Candidate): nat {
    match c
    case Trying(tries) => 5 + 2 * (if tries < P2P_CONNECT_TRIES then P2P_CONNECT_TRIES - tries else 0)
    case Dialing(tries) => 4 + 2 * (if tries < P2P_CONNECT_TRIES then P2P_CONNECT_TRIES - tries else 0)
    case Connected => 4
    case HandedOff => 3
    case _ => 0
  }

  function MainRank(m: Main): nat {
    match m
    case Looping => 2
    case Selecting => 1
    case Received(_) => 1
    case Initializing(_) => 0
    case Done(_) => 0
    case TimedOut => 0
  }

  function RankAll(cs: seq<Candidate>): nat {
    if cs == [] then 0 else Rank(cs[0]) + RankAll(cs[1..])
  }

  lemma {:induction false} RankUpdate(cs: seq<Candidate>, i: nat, c: Candidate)
    requires i < |cs|
    ensures RankAll(cs[i := c]) == RankAll(cs) - Rank(cs[i]) + Rank(c)
    decreases |cs|
  {
    if i == 0 {
      assert cs[i := c][1..] == cs[1..];
    } else {
      assert cs[i := c][1..] == cs[1..][i - 1 := c];
      RankUpdate(cs[1..], i - 1, c);
    }
  }

  function TotalRank(r: Race): nat {
    RankAll(r.candidates) + MainRank(r.main)
  }

  lemma StepDescends(r: Race, step: Step)
    requires RaceInv(r)
    ensures Apply(r, step) == r || TotalRank(Apply(r, step)) < TotalRank(r)
  {
    var r' := Apply(r, step);
    hide OrderOk, HistoryOk, AdoptionOk, RankAll;
    if Enabled(r, step) {
      assert step.InitReturns? ==> r.candidates[r.main.i] == HandedOff;
      assert step.DialFails? || step.DialEnds? ==> r.candidates[step.i].tries < P2P_CONNECT_TRIES;
      hide DialsOk, HandOffOk, RaceInv;
      match step
      case MainSelects =>
      case MainLocks =>
      case MainTimesOut =>
      case InitReturns(_) => RankUpdate(r.candidates, r.main.i, r'.candidates[r.main.i]);
      case _ => RankUpdate(r.candidates, step.i, r'.candidates[step.i]);
    }
  }

  /** How many of the steps change anything. */
  ghost function Effective(r: Race, steps: seq<Step>): nat
    requires RaceInv(r)
    decreases |steps|
  {
    if steps == [] then 0
    else
      ApplyKeeps(r, steps[0]);
      (if Apply(r, steps[0]) == r then 0 else 1) + Effective(Apply(r, steps[0]), steps[1..])
  }

  lemma {:induction false} EffectiveBounded(r: Race, steps: seq<Step>)
    requires RaceInv(r)
    ensures Effective(r, steps) + TotalRank(Exec(r, steps)) <= TotalRank(r)
    decreases |steps|
  {
    if steps != [] {
      ApplyKeeps(r, steps[0]);
      StepDescends(r, steps[0]);
      EffectiveBounded(Apply(r, steps[0]), steps[1..]);
    }
  }

  lemma {:induction false} InitialRank(n: nat)
    ensures RankAll(seq(n, _ => Trying(0))) == 11 * n
  {
    if n > 0 {
      assert seq(n, _ => Trying(0))[1..] == seq(n - 1, _ => Trying(0));
      InitialRank(n - 1);
    }
  }

  /** Nothing can happen any more. */
  ghost predicate Over(r: Race) {
    forall step: Step :: !Enabled(r, step)
  }

  /**
   * Every race ends: no run takes more than 11n + 2 effective steps. When nothing can happen any
   * more, each candidate is at one of its four ends: never connected, or closed if its hand-off
   * was not taken, or else adopted or failed to initialize; and the connecting goroutine has
   * adopted one or timed out.
   */
  lemma RaceEnds(n: nat, steps: seq<Step>)
    ensures (InitHolds(n); Effective(Init(n), steps)) <= 11 * n + 2
    ensures var r := Run(n, steps);
      Over(r) ==>
        && (forall i: nat | i < n ::
          if i !in r.connected then r.candidates[i] == NeverConnected
          else if i !in r.taken then r.candidates[i] == Closed
          else r.candidates[i] == Adopted || r.candidates[i] == InitFailed)
        && (r.main.TimedOut? || (r.main.Done? && r.candidates[r.main.i].Adopted?))
  {
    InitHolds(n);
    InitialRank(n);
    EffectiveBounded(Init(n), steps);
    var r := Run(n, steps);
    hide Run, RaceInv, Effective, Over;
    if Over(r) { OverMeans(r); }
  }

  lemma OverMeans(r: Race)
    requires RaceInv(r) && Over(r)
    ensures forall i: nat | i < |r.candidates| ::
      if i !in r.connected then r.candidates[i] == NeverConnected
      else if i !in r.taken then r.candidates[i] == Closed
      else r.candidates[i] == Adopted || r.candidates[i] == InitFailed
    ensures r.main.TimedOut? || (r.main.Done? && r.main.i < |r.candidates| && r.candidates[r.main.i].Adopted?)
  {
    assert AdoptionOk(r) && HandOffOk(r) && HistoryOk(r);
    hide RaceInv, DialsOk, OrderOk;
    assert !Enabled(r, MainSelects) && !Enabled(r, MainLocks) && !Enabled(r, MainTimesOut)
      && !Enabled(r, InitReturns(true));
    hide HistoryOk;
    forall i: nat | i < |r.candidates| ensures Ended(r.candidates[i]) {
      assert !Enabled(r, AsksToDial(i)) && !Enabled(r, DialFails(i)) && !Enabled(r, HandsOff(i));
    }
    assert r.main.TimedOut? || (r.main.Done? && r.main.i < |r.candidates| && r.candidates[r.main.i].Adopted?);
    hide Over, AdoptionOk, HandOffOk;
    EndsByHistory(r);
  }

  lemma EndsByHistory(r: Race)
    requires HistoryOk(r) && forall i: nat | i < |r.candidates| :: Ended(r.candidates[i])
    ensures forall i: nat | i < |r.candidates| ::
      if i !in r.connected then r.candidates[i] == NeverConnected
      else if i !in r.taken then r.candidates[i] == Closed
      else r.candidates[i] == Adopted || r.candidates[i] == InitFailed
  {
  }

  lemma RunCons(r: Race, step: Step, rest: seq<Step>)
    requires RaceInv(r)
    ensures RaceInv(Apply(r, step)) && Exec(r, [step] + rest) == Exec(Apply(r, step), rest)
  {
    ApplyKeeps(r, step);
    hide RaceInv, Apply;
    assert ([step] + rest)[1..] == rest;
  }

  /** In any race that is open, a candidate that gets its turn wins: it dials, connects, is taken from
      the select, confirmed and adopted. */
  lemma FirstToConnectWins(r: Race, i: nat)
    requires RaceInv(r) && r.main.Looping? && i < |r.candidates| && r.candidates[i] == Trying(0)
    ensures var r' := Exec(r, [MainSelects] + ([AsksToDial(i)] + ([DialEnds(i, true)] + ([HandsOff(i)] +
        ([MainLocks] + ([InitReturns(true)] + []))))));
      && r'.localClient == Some(i) && r'.completed && r'.main == Done(i) && r'.candidates[i] == Adopted
      && r'.events == r.events + [DialAllowed(i)] + [AdoptedNow(i)]
      && (forall j: nat | j < |r.candidates| && j != i :: r'.candidates[j] == r.candidates[j])
  {
    assert !r.completed by { hide DialsOk, OrderOk, HistoryOk; }
    CandidateWins(r, i);
    hide Apply, RaceInv;
    RunOfSix(r, MainSelects, AsksToDial(i), DialEnds(i, true), HandsOff(i), MainLocks, InitReturns(true));
  }

  lemma RunOfSix(r: Race, a: Step, b: Step, c: Step, d: Step, e: Step, f: Step)
    requires RaceInv(r)
    ensures Exec(r, [a] + ([b] + ([c] + ([d] + ([e] + ([f] + []))))))
      == Apply(Apply(Apply(Apply(Apply(Apply(r, a), b), c), d), e), f)
  {
    hide Apply, RaceInv;
    RunCons(r, a, [b] + ([c] + ([d] + ([e] + ([f] + [])))));
    var r1 := Apply(r, a);
    RunCons(r1, b, [c] + ([d] + ([e] + ([f] + []))));
    var r2 := Apply(r1, b);
    RunCons(r2, c, [d] + ([e] + ([f] + [])));
    var r3 := Apply(r2, c);
    RunCons(r3, d, [e] + ([f] + []));
    var r4 := Apply(r3, d);
    RunCons(r4, e, [f] + []);
    RunCons(Apply(r4, e), f, []);
  }

  lemma CandidateWins(r: Race, i: nat)
    requires r.main.Looping? && !r.completed && i < |r.candidates| && r.candidates[i] == Trying(0)
    ensures var r' := Apply(Apply(Apply(Apply(Apply(Apply(r, MainSelects), AsksToDial(i)), DialEnds(i, true)),
        HandsOff(i)), MainLocks), InitReturns(true));
      && r'.localClient == Some(i) && r'.completed && r'.main == Done(i)
      && r'.candidates == r.candidates[i := Adopted]
      && r'.events == r.events + [DialAllowed(i)] + [AdoptedNow(i)]
  {
    var r2 := Apply(Apply(r, MainSelects), AsksToDial(i));
    assert r2.main == Selecting && r2.candidates == r.candidates[i := Dialing(0)]
      && r2.events == r.events + [DialAllowed(i)];
    var r4 := Apply(Apply(r2, DialEnds(i, true)), HandsOff(i));
    assert r4.main == Received(i) && r4.candidates == r.candidates[i := HandedOff] && r4.events == r2.events;
  }

  /**
   * What decides a candidate's fate at each turn: it may dial exactly in an open race and for the
   * third time at most; it is taken exactly if the connecting goroutine is in its select, and closed
   * otherwise; it is adopted exactly if it is confirmed, and then and only then the race is over.
   */
  lemma TurnsDecide(r: Race, i: nat, ok: bool)
    requires RaceInv(r) && i < |r.candidates|
    ensures r.candidates[i].Trying? && !r.main.Initializing? ==>
      var c := Apply(r, AsksToDial(i)).candidates[i];
      if !r.completed && r.candidates[i].tries < 3 then c == Dialing(r.candidates[i].tries) else c == NeverConnected
    ensures r.candidates[i].Dialing? ==>
      && Apply(r, DialFails(i)).candidates[i] == Trying(r.candidates[i].tries + 1)
      && Apply(r, DialEnds(i, ok)).candidates[i] == if ok then Connected else NeverConnected
    ensures r.candidates[i].Connected? && !r.main.Initializing? ==>
      var r' := Apply(r, HandsOff(i));
      if r.main.Selecting? then r'.candidates[i] == HandedOff && r'.main == Received(i)
      else r'.candidates[i] == Closed && r'.main == r.main
    ensures r.main == Initializing(i) ==>
      var r' := Apply(r, InitReturns(ok));
      && r'.completed == ok && r'.candidates[i] == (if ok then Adopted else InitFailed)
      && r'.main == if ok then Done(i) else Looping
  {
    hide DialsOk, OrderOk, HistoryOk;
  }

  /** Under the race's own gate, which allows no try from the third on, a candidate's call of
      `Connect` dials at most three times. */
  lemma {:induction false} GateBoundsDials(cfg: L.Config, s: L.State, script: seq<L.Attempt>, tries: nat)
    requires cfg.customConnect
    requires forall j | 0 <= j < |script| && script[j].allowed :: tries + j < P2P_CONNECT_TRIES
    ensures s.dials <= L.ConnectLoop(cfg, s, script, tries).0.dials <= s.dials + L.Left(P2P_CONNECT_TRIES, tries)
    decreases |script|
  {
    if script != [] && script[0].allowed && !script[0].dial.Linked? {
      forall j | 0 <= j < |script[1..]| && script[1..][j].allowed ensures tries + 1 + j < P2P_CONNECT_TRIES {
        assert script[j + 1].allowed;
      }
      GateBoundsDials(cfg, L.DialOnce(s, script[0].dial), script[1..], tries + 1);
    }
  }
}
