/**
 * Start and shutdown of the server in `apps/api/src/server.ts`, composed with the protocols of the readiness
 * controller and of the realtime transport, whose steps interleave freely with those of the server.
 */
module ServerProtocol {
  import opened Common
  import RealtimeProtocol
  import RealtimeInvariants
  import RealtimeSteps
  import RealtimeRuns
  import HealthProtocol

  type Req = RealtimeProtocol.Req

  /** What JavaScript code may throw; the shutdown tells `undefined` and `null` from other values. */
  datatype Thrown = UndefinedValue | NullValue | Failure(code: nat)

  /** How the shutdown of the telemetry runtime settles. */
  datatype TelemetryEnd = Settled | Rejects(error: Thrown)

  datatype Outcome = Resolved | Rejected(error: Thrown)

  /** `listenPromise`: not made, waiting for its turn, waiting for the socket, and settled. */
  datatype Listen = NotCalled | Scheduled | Binding | Bound | Unbound

  /** `shutdownPromise`: not made, and the `await` its function is suspended at. */
  datatype Shutdown = Idle | AwaitDrain | AwaitClose | AwaitTelemetry | Over(end: TelemetryEnd, outcome: Outcome)

  /**
   * `drains` and `closes` count calls of `realtime.beginDrain` and of `server.close`; `drained` are the streams
   * the drain waits for; `drainError` and `closeError` are what those two calls failed with. `open` says whether the
   * socket accepts connections.
   */
  datatype State = State(
    health: HealthProtocol.State,
    realtime: Option<RealtimeProtocol.State>,
    listen: Listen,
    open: bool,
    shutdown: Shutdown,
    drains: nat,
    closes: nat,
    drained: set<Req>,
    drainError: Option<Thrown>,
    closeError: Option<Thrown>,
    shutdownError: Thrown,
    exitFailure: bool)

  function Init(options: HealthProtocol.Options, clock: int, realtime: Option<RealtimeProtocol.Config>): State {
    State(HealthProtocol.Init(options, clock),
          if realtime.Some? then Some(RealtimeProtocol.Init(realtime.value)) else None,
          NotCalled, false, Idle, 0, 0, {}, None, None, UndefinedValue, false)
  }

  datatype Event =
    | ListenCalled
    | ListenStarts(telemetryThrows: bool)
    | Listening
    | ListenFails
    | ShutdownCalled(failing: set<Req>, thrown: Thrown)
    | DrainSettles
    | ServerCloses(error: Option<Thrown>)
    | TelemetryStops(end: TelemetryEnd)
    | Health(h: HealthProtocol.Event)
    | Realtime(e: RealtimeProtocol.Event)

  /** The promise of the drain rejects with its first error; otherwise it waits for every stream it closed. */
  predicate DrainSettled(s: State) {
    || s.drainError.Some?
    || s.realtime.None?
    || forall r <- s.drained :: r in s.realtime.value.streams && s.realtime.value.streams[r].phase.Ended?
  }

  /** Node reports a failure of `close` with an error object. */
  predicate Enabled(s: State, e: Event) {
    match e
    case ListenCalled => true
    case ListenStarts(_) => s.listen.Scheduled?
    case Listening => s.listen.Binding?
    case ListenFails => s.listen.Binding?
    case ShutdownCalled(_, _) => true
    case DrainSettles => s.shutdown.AwaitDrain? && DrainSettled(s)
    case ServerCloses(error) => s.shutdown.AwaitClose? && (error.Some? ==> error.value.Failure?)
    case TelemetryStops(_) => s.shutdown.AwaitTelemetry?
    case Health(h) => HealthProtocol.Enabled(s.health, h) && !h.BeginDrain? && !h.CompleteStartup?
    case Realtime(e) =>
      s.realtime.Some? && RealtimeProtocol.Enabled(s.realtime.value, e)
      && RealtimeProtocol.Admissible(s.realtime.value, e) && !e.BeginDrain?
  }

  function ListenCalledStep(s: State): State { if s.listen.NotCalled? then s.(listen := Scheduled) else s }

  function ListenStartsStep(s: State, telemetryThrows: bool): State {
    s.(listen := if telemetryThrows then Unbound else Binding)
  }

  function ListeningStep(s: State): State {
    s.(listen := Bound, open := true, health := HealthProtocol.CompleteStartupStep(s.health))
  }

  /** `shutdown` up to the first `await` of the function behind its promise. */
  function ShutdownStep(s: State, failing: set<Req>, thrown: Thrown): State {
    if !s.shutdown.Idle? then s
    else
      var t := s.(shutdown := AwaitDrain, health := HealthProtocol.BeginDrainStep(s.health));
      match s.realtime
      case None => t
      case Some(r) =>
        t.(realtime := Some(RealtimeProtocol.BeginDrainStep(r, failing)),
           drains := s.drains + 1,
           drained := RealtimeProtocol.LiveStreams(r),
           drainError := if RealtimeProtocol.Writable(r) * failing == {} then None else Some(thrown))
  }

  /** The drain is over, and `server.close` stops the socket at once. */
  function DrainSettlesStep(s: State): State {
    s.(shutdown := AwaitClose, closes := s.closes + 1, open := false,
       shutdownError := if s.drainError.Some? then s.drainError.value else s.shutdownError)
  }

  /** The value of `shutdownError ??= error`. */
  function Coalesce(current: Thrown, error: Thrown): Thrown { if current.Failure? then current else error }

  function ServerClosesStep(s: State, error: Option<Thrown>): State {
    var shutdownError := if error.Some? then Coalesce(s.shutdownError, error.value) else s.shutdownError;
    s.(shutdown := AwaitTelemetry, closeError := error, shutdownError := shutdownError,
       exitFailure := s.exitFailure || !shutdownError.UndefinedValue?)
  }

  function OutcomeOf(shutdownError: Thrown, end: TelemetryEnd): Outcome {
    if end.Rejects? then Rejected(end.error)
    else if shutdownError.UndefinedValue? then Resolved
    else Rejected(shutdownError)
  }

  function Step(s: State, e: Event): State
    requires Enabled(s, e)
  {
    match e
    case ListenCalled => ListenCalledStep(s)
    case ListenStarts(telemetryThrows) => ListenStartsStep(s, telemetryThrows)
    case Listening => ListeningStep(s)
    case ListenFails => s.(listen := Unbound)
    case ShutdownCalled(failing, thrown) => ShutdownStep(s, failing, thrown)
    case DrainSettles => DrainSettlesStep(s)
    case ServerCloses(error) => ServerClosesStep(s, error)
    case TelemetryStops(end) => s.(shutdown := Over(end, OutcomeOf(s.shutdownError, end)))
    case Health(h) => s.(health := HealthProtocol.Step(s.health, h))
    case Realtime(e) => s.(realtime := Some(RealtimeProtocol.Step(s.realtime.value, e)))
  }

  predicate IsRun(s: State, es: seq<Event>)
    decreases |es|
  {
    es == [] || (Enabled(s, es[0]) && IsRun(Step(s, es[0]), es[1..]))
  }

  function Run(s: State, es: seq<Event>): State
    requires IsRun(s, es)
    decreases |es|
  {
    if es == [] then s else Run(Step(s, es[0]), es[1..])
  }

  // ------------------------------------------------------------- invariant

  /** What `shutdownError` holds once both calls have settled. */
  function Collected(drainError: Option<Thrown>, closeError: Option<Thrown>): Thrown {
    var first := if drainError.Some? then drainError.value else UndefinedValue;
    if closeError.Some? then Coalesce(first, closeError.value) else first
  }

  predicate RealtimeDraining(s: State) { s.realtime.Some? ==> s.realtime.value.draining }

  ghost predicate RealtimeOk(s: State) { s.realtime.Some? ==> RealtimeInvariants.Inv(s.realtime.value) }

  /** Nothing is live that the drain has not failed to close. */
  ghost predicate Quiet(s: State) {
    s.realtime.Some? && s.drainError.None? ==> RealtimeProtocol.LiveStreams(s.realtime.value) == {}
  }

  predicate Started(s: State) { s.shutdown.AwaitClose? || s.shutdown.AwaitTelemetry? || s.shutdown.Over? }

  ghost predicate ErrorsOk(s: State) {
    && (s.closeError.Some? ==> s.closeError.value.Failure?)
    && (s.shutdown.Idle? || s.shutdown.AwaitDrain? ==>
          s.shutdownError.UndefinedValue? && s.closeError.None? && s.closes == 0)
    && (Started(s) ==> s.shutdownError == Collected(s.drainError, s.closeError) && s.closes == 1)
    && (s.shutdown.AwaitClose? ==> s.closeError.None?)
    && (s.shutdown.Over? ==> s.shutdown.outcome == OutcomeOf(s.shutdownError, s.shutdown.end))
    && (s.shutdown.AwaitTelemetry? || s.shutdown.Over? ==> (s.exitFailure <==> !s.shutdownError.UndefinedValue?))
    && (!s.shutdown.AwaitTelemetry? && !s.shutdown.Over? ==> !s.exitFailure)
  }

  ghost predicate Inv(s: State) {
    && HealthProtocol.Inv(s.health) && RealtimeOk(s) && ErrorsOk(s)
    && (s.open ==> s.listen.Bound?)
    && (s.shutdown.Idle? ==>
          && s.drains == 0 && s.drained == {} && s.drainError.None? && !s.health.lifecycle.Draining?
          && (s.realtime.Some? ==> !s.realtime.value.draining))
    && (!s.shutdown.Idle? ==>
          && s.health.lifecycle.Draining? && RealtimeDraining(s) && Quiet(s)
          && s.drains == (if s.realtime.Some? then 1 else 0))
    && (Started(s) ==> DrainSettled(s))
  }

  lemma ShutdownInv(s: State, failing: set<Req>, thrown: Thrown)
    requires Inv(s)
    ensures Inv(ShutdownStep(s, failing, thrown))
  {
    if s.shutdown.Idle? {
      HealthProtocol.LifecycleInv(s.health, HealthProtocol.BeginDrainStep(s.health));
      if s.realtime.Some? { DrainQuiet(s.realtime.value, failing); }
    }
  }

  lemma DrainQuiet(r: RealtimeProtocol.State, failing: set<Req>)
    requires RealtimeInvariants.Inv(r) && !r.draining
    ensures var d := RealtimeProtocol.BeginDrainStep(r, failing);
            && RealtimeInvariants.Inv(d) && d.draining
            && (RealtimeProtocol.Writable(r) * failing == {} ==> RealtimeProtocol.LiveStreams(d) == {})
  {
    RealtimeSteps.DrainInv(r, failing);
    RealtimeRuns.DrainLeaves(r, failing);
  }

  /** Steps of the transport before the shutdown leave it accepting, and steps after it shrink what is live. */
  lemma RealtimeInv(s: State, e: RealtimeProtocol.Event)
    requires Inv(s) && Enabled(s, Realtime(e))
    ensures Inv(Step(s, Realtime(e)))
  {
    var r := s.realtime.value;
    RealtimeSteps.StepInv(r, e);
    if s.shutdown.Idle? {
      StaysAccepting(r, e);
    } else {
      RealtimeRuns.LiveShrinks(r, e);
      if s.drainError.None? && Started(s) {
        forall q | q in s.drained
          ensures q in RealtimeProtocol.Step(r, e).streams && RealtimeProtocol.Step(r, e).streams[q].phase.Ended?
        {
          assert RealtimeInvariants.IsStreaming(r, q);
          RealtimeRuns.StreamStep(r, e, q);
        }
      }
    }
  }

  lemma StaysAccepting(r: RealtimeProtocol.State, e: RealtimeProtocol.Event)
    requires RealtimeProtocol.Enabled(r, e) && !e.BeginDrain?
    ensures RealtimeProtocol.Step(r, e).draining == r.draining
  {
    match e
    case ResumeAuthorize(q, answer, newId) =>
      RealtimeRuns.AuthorizeWhileDraining(r, q, r.admissions[q].request, answer, newId);
    case _ =>
  }

  lemma HealthInv(s: State, h: HealthProtocol.Event)
    requires Inv(s) && Enabled(s, Health(h))
    ensures Inv(Step(s, Health(h)))
  {
    HealthProtocol.StepInv(s.health, h);
  }

  lemma StepInv(s: State, e: Event)
    requires Inv(s) && Enabled(s, e)
    ensures Inv(Step(s, e))
  {
    match e
    case Listening => HealthProtocol.StepInv(s.health, HealthProtocol.CompleteStartup);
    case ShutdownCalled(failing, thrown) => ShutdownInv(s, failing, thrown);
    case Health(h) => HealthInv(s, h);
    case Realtime(x) => RealtimeInv(s, x);
    case ListenCalled =>
    case ListenStarts(_) =>
    case ListenFails =>
    case DrainSettles =>
    case ServerCloses(_) =>
    case TelemetryStops(_) =>
  }

  lemma InitInv(options: HealthProtocol.Options, clock: int, realtime: Option<RealtimeProtocol.Config>)
    requires HealthProtocol.ValidOptions(options)
    ensures Inv(Init(options, clock, realtime))
  {
    if realtime.Some? { RealtimeInvariants.InitInv(realtime.value); }
  }

  lemma {:induction false} RunInv(s: State, es: seq<Event>)
    requires Inv(s) && IsRun(s, es)
    ensures Inv(Run(s, es)) && s.drains <= Run(s, es).drains && s.closes <= Run(s, es).closes
    decreases |es|
  {
    if es != [] {
      StepInv(s, es[0]);
      RunInv(Step(s, es[0]), es[1..]);
    }
  }

  /** A run may be cut in two. */
  lemma {:induction false} RunAppend(s: State, a: seq<Event>, b: seq<Event>)
    requires IsRun(s, a) && IsRun(Run(s, a), b)
    ensures IsRun(s, a + b) && Run(s, a + b) == Run(Run(s, a), b)
    decreases |a|
  {
    if a == [] {
      assert a + b == b;
    } else {
      assert (a + b)[0] == a[0] && (a + b)[1..] == a[1..] + b;
      RunAppend(Step(s, a[0]), a[1..], b);
    }
  }

  predicate NoBeginDrain(es: seq<RealtimeProtocol.Event>) { forall i | 0 <= i < |es| :: !es[i].BeginDrain? }

  function Lift(es: seq<RealtimeProtocol.Event>): seq<Event> {
    seq(|es|, i requires 0 <= i < |es| => Realtime(es[i]))
  }

  /** A run of the transport is a run of the server. */
  lemma {:induction false} LiftRun(s: State, es: seq<RealtimeProtocol.Event>)
    requires s.realtime.Some? && RealtimeProtocol.IsRun(s.realtime.value, es) && NoBeginDrain(es)
    ensures IsRun(s, Lift(es)) && Run(s, Lift(es)) == s.(realtime := Some(RealtimeProtocol.Run(s.realtime.value, es)))
    decreases |es|
  {
    if es != [] {
      var t := s.(realtime := Some(RealtimeProtocol.Step(s.realtime.value, es[0])));
      LiftRun(t, es[1..]);
      assert Lift(es)[0] == Realtime(es[0]);
      assert Lift(es)[1..] == Lift(es[1..]);
    }
  }

  // -------------------------------------------------------------- theorems

  /**
   * In whatever order listening, starting up and any number of shutdown calls happen: the transport is drained at
   * most once and the server closed at most once; it is closed only after the drain has settled, which without
   * a failing write means that no stream is live and every stream the drain closed has ended.
   */
  lemma ShutdownOrder(options: HealthProtocol.Options, clock: int, realtime: Option<RealtimeProtocol.Config>,
                      es: seq<Event>)
    requires HealthProtocol.ValidOptions(options) && IsRun(Init(options, clock, realtime), es)
    ensures var s := Run(Init(options, clock, realtime), es);
            && s.drains <= 1 && s.closes <= 1
            && (s.closes == 1 ==> s.realtime.Some? ==> s.drains == 1)
            && (s.closes == 1 && s.realtime.Some? && s.drainError.None? ==>
                  && s.realtime.value.active == map[]
                  && forall r <- s.drained ::
                       r in s.realtime.value.streams && s.realtime.value.streams[r].phase.Ended?)
  {
    InitInv(options, clock, realtime);
    RunInv(Init(options, clock, realtime), es);
    var s := Run(Init(options, clock, realtime), es);
    if s.realtime.Some? { RealtimeRuns.ActiveCount(s.realtime.value); }
  }

  /** What a step after the shutdown began leaves as it was. */
  ghost predicate Settling(s: State, t: State, c: HealthProtocol.CallId) {
    && !t.shutdown.Idle? && t.health.lifecycle.Draining?
    && (c in t.health.callers && t.health.callers[c].Answered? && t.health.callers[c].ready ==>
          c in s.health.callers && s.health.callers[c] == t.health.callers[c])
    && t.realtime.Some? == s.realtime.Some?
    && (t.realtime.Some? ==> t.realtime.value.streams.Keys == s.realtime.value.streams.Keys)
    && t.drains == s.drains && t.drained == s.drained && t.drainError == s.drainError
  }

  lemma SettlingStep(s: State, e: Event, c: HealthProtocol.CallId)
    requires Inv(s) && !s.shutdown.Idle? && Enabled(s, e)
    ensures Settling(s, Step(s, e), c)
  {
    match e
    case Health(h) => HealthProtocol.DrainingStep(s.health, h, c);
    case Realtime(x) => RealtimeRuns.LiveShrinks(s.realtime.value, x);
    case ListenCalled =>
    case ListenStarts(_) =>
    case Listening =>
    case ListenFails =>
    case ShutdownCalled(_, _) =>
    case DrainSettles =>
    case ServerCloses(_) =>
    case TelemetryStops(_) =>
  }

  /**
   * Once `shutdown` has been called, whatever follows (a socket that comes up late, further calls, requests):
   * no new report says ready, no new stream is registered, and no second drain happens.
   */
  lemma {:induction false} ShutdownIsFinal(s: State, es: seq<Event>, c: HealthProtocol.CallId)
    requires Inv(s) && !s.shutdown.Idle? && IsRun(s, es)
    ensures Settling(s, Run(s, es), c)
    decreases |es|
  {
    if es != [] {
      StepInv(s, es[0]);
      SettlingStep(s, es[0], c);
      ShutdownIsFinal(Step(s, es[0]), es[1..], c);
    }
  }

  /** A live stream on which the drain writes. */
  predicate Told(r: RealtimeProtocol.State, q: Req) {
    q in r.streams && r.streams[q].phase.Live? && !r.streams[q].destroyed
  }

  /**
   * The drain fails if and only if one of the streams it writes to makes the write throw; then it has settled at once,
   * and otherwise once every stream that was live has ended.
   */
  lemma DrainErrorIff(s: State, failing: set<Req>, thrown: Thrown)
    requires s.shutdown.Idle? && s.drainError.None? && s.realtime.Some?
    ensures var r, t := s.realtime.value, Step(s, ShutdownCalled(failing, thrown));
            && (t.drainError == Some(thrown) <==> exists q :: q in failing && Told(r, q))
            && (t.drainError != Some(thrown) ==> t.drainError == None)
            && (forall q :: q in t.drained <==> q in r.streams && r.streams[q].phase.Live?)
  {
    var r := s.realtime.value;
    forall q ensures q in RealtimeProtocol.Writable(r) <==> Told(r, q) {}
    if q :| q in failing && Told(r, q) { assert q in RealtimeProtocol.Writable(r) * failing; }
    if q :| q in RealtimeProtocol.Writable(r) * failing { assert q in failing && Told(r, q); }
  }

  lemma DrainSettlesIff(s: State)
    requires s.shutdown.AwaitDrain?
    ensures Enabled(s, DrainSettles) <==>
            || s.drainError.Some? || s.realtime.None?
            || forall q <- s.drained :: q in s.realtime.value.streams && s.realtime.value.streams[q].phase.Ended?
  {
  }

  // -------------------------------------------------------------- the socket

  /** The socket came up at event `i`, and the server was not closed after that. */
  predicate UpSince(es: seq<Event>, i: nat) {
    i < |es| && es[i].Listening? && forall j | i < j < |es| :: !es[j].DrainSettles?
  }

  predicate NoClose(es: seq<Event>) { forall j | 0 <= j < |es| :: !es[j].DrainSettles? }

  lemma UpSinceCons(e: Event, es: seq<Event>)
    ensures (exists i: nat :: UpSince([e] + es, i)) <==>
            (e.Listening? && NoClose(es)) || exists i: nat :: UpSince(es, i)
    ensures NoClose([e] + es) <==> !e.DrainSettles? && NoClose(es)
  {
    var all := [e] + es;
    forall j | 0 <= j < |es| ensures all[j + 1] == es[j] {}
    if i: nat :| UpSince(all, i) {
      if i > 0 {
        forall j | i - 1 < j < |es| ensures !es[j].DrainSettles? { assert all[j + 1] == es[j]; }
        assert UpSince(es, i - 1);
      } else {
        forall j | 0 <= j < |es| ensures !es[j].DrainSettles? { assert all[j + 1] == es[j]; }
      }
    }
    if e.Listening? && NoClose(es) { assert UpSince(all, 0); }
    if i: nat :| UpSince(es, i) {
      forall j | i + 1 < j < |all| ensures !all[j].DrainSettles? { assert all[j] == es[j - 1]; }
      assert UpSince(all, i + 1);
    }
    if NoClose(all) {
      forall j | 0 <= j < |es| ensures !es[j].DrainSettles? { assert all[j + 1] == es[j]; }
      assert all[0] == e;
    }
  }

  /** A run ends with an open socket exactly when the socket came up and no `server.close` followed. */
  lemma {:induction false} EndsOpen(s: State, es: seq<Event>)
    requires IsRun(s, es)
    ensures Run(s, es).open <==> (s.open && NoClose(es)) || exists i: nat :: UpSince(es, i)
    decreases |es|
  {
    if es != [] {
      EndsOpen(Step(s, es[0]), es[1..]);
      UpSinceCons(es[0], es[1..]);
      assert es == [es[0]] + es[1..];
    }
  }

  predicate ListenSettled(s: State) { s.listen.Bound? || s.listen.Unbound? }

  lemma {:induction false} SettledStaysClosed(s: State, es: seq<Event>)
    requires ListenSettled(s) && !s.open && IsRun(s, es)
    ensures !Run(s, es).open
    decreases |es|
  {
    if es != [] { SettledStaysClosed(Step(s, es[0]), es[1..]); }
  }

  /** How a socket that was asked for too late, or has still to come up, opens. */
  function Opening(s: State): seq<Event> {
    match s.listen
    case NotCalled => [ListenCalled, ListenStarts(false), Listening]
    case Scheduled => [ListenStarts(false), Listening]
    case _ => [Listening]
  }

  lemma Opens(s: State)
    requires !ListenSettled(s)
    ensures IsRun(s, Opening(s)) && Run(s, Opening(s)).open
  {
    var a, b, c := [ListenCalled, ListenStarts(false), Listening], [ListenStarts(false), Listening], [Listening];
    assert a[1..] == b && b[1..] == c && c[1..] == [];
    var binding := s.(listen := Binding);
    var scheduled := s.(listen := Scheduled);
    assert IsRun(Step(binding, Listening), []) && IsRun(binding, c) && Run(binding, c).open;
    assert IsRun(scheduled, b) && Run(scheduled, b) == Run(binding, c);
    if s.listen.NotCalled? { assert IsRun(s, a) && Run(s, a) == Run(scheduled, b); }
  }

  /**
   * After the server was closed its socket stays closed in every continuation exactly when the promise of `listen`
   * had settled by then: nothing keeps a later `listen`, or one under way, from opening the socket for good.
   */
  lemma StaysClosedIff(s: State)
    requires Inv(s) && s.closes == 1 && !s.open
    ensures (forall es | IsRun(s, es) :: !Run(s, es).open) <==> ListenSettled(s)
  {
    if ListenSettled(s) {
      forall es | IsRun(s, es) ensures !Run(s, es).open { SettledStaysClosed(s, es); }
    } else {
      Opens(s);
    }
  }

  // ------------------------------------------------------ what the caller hears

  /** The first of the two calls of a shutdown that failed. */
  function FirstError(s: State): Option<Thrown> { if s.drainError.Some? then s.drainError else s.closeError }

  /**
   * Whether the shutdown can tell its caller of the first failure: the drain fails with a real value or not at all,
   * unless `null` is all there is to tell, and the telemetry runtime does not fail with something else.
   */
  predicate FirstErrorSurvives(s: State, end: TelemetryEnd) {
    match end
    case Rejects(error) => FirstError(s) == Some(error)
    case Settled => s.drainError != Some(UndefinedValue) && (s.drainError == Some(NullValue) ==> s.closeError.None?)
  }

  /** The promise of `shutdown` reports the first failure, or success if there was none. */
  predicate ReportsFirst(s: State)
    requires s.shutdown.Over?
  {
    s.shutdown.outcome == if FirstError(s).Some? then Rejected(FirstError(s).value) else Resolved
  }

  lemma FirstErrorKept(s: State)
    requires Inv(s) && s.shutdown.Over?
    ensures ReportsFirst(s) <==> FirstErrorSurvives(s, s.shutdown.end)
  {
  }

  /**
   * In every run that has seen a shutdown through its promise reports the first failure exactly when that survives,
   * and the exit code fails exactly when something other than undefined is left to tell.
   */
  lemma FirstErrorReported(options: HealthProtocol.Options, clock: int, realtime: Option<RealtimeProtocol.Config>,
                           es: seq<Event>)
    requires HealthProtocol.ValidOptions(options) && IsRun(Init(options, clock, realtime), es)
    requires Run(Init(options, clock, realtime), es).shutdown.Over?
    ensures var s := Run(Init(options, clock, realtime), es);
            && (ReportsFirst(s) <==> FirstErrorSurvives(s, s.shutdown.end))
            && (s.exitFailure <==> Collected(s.drainError, s.closeError) != UndefinedValue)
  {
    InitInv(options, clock, realtime);
    RunInv(Init(options, clock, realtime), es);
    FirstErrorKept(Run(Init(options, clock, realtime), es));
  }

  lemma FourEvents(s: State, e0: Event, a: State, e1: Event, b: State, e2: Event, c: State, e3: Event)
    requires Enabled(s, e0) && a == Step(s, e0) && Enabled(a, e1) && b == Step(a, e1)
    requires Enabled(b, e2) && c == Step(b, e2) && Enabled(c, e3)
    ensures IsRun(s, [e0, e1, e2, e3]) && Run(s, [e0, e1, e2, e3]) == Step(c, e3)
  {
    assert [e0, e1, e2, e3][1..] == [e1, e2, e3] && [e1, e2, e3][1..] == [e2, e3];
    assert [e2, e3][1..] == [e3] && [e3][1..] == [];
    assert IsRun(Step(c, e3), []);
    assert IsRun(c, [e3]) && Run(c, [e3]) == Step(c, e3);
    assert IsRun(b, [e2, e3]) && Run(b, [e2, e3]) == Step(c, e3);
    assert IsRun(a, [e1, e2, e3]) && Run(a, [e1, e2, e3]) == Step(c, e3);
  }

  /**
   * It does not always survive: here closing the server fails, and the caller hears of the telemetry runtime only. That
   * takes a runtime whose promise rejects; the one of this repository settles with "failed" when its SDK does, and
   * rejects only if the call of the SDK throws at once.
   */
  lemma MaskedError(s: State)
    requires s == Init(HealthProtocol.Options(false, 0, 0), 0, None)
    ensures var es := [ShutdownCalled({}, UndefinedValue), DrainSettles, ServerCloses(Some(Failure(1))),
                       TelemetryStops(Rejects(Failure(2)))];
            && IsRun(s, es) && Run(s, es).closeError == Some(Failure(1)) && Run(s, es).drainError.None?
            && Run(s, es).shutdown == Over(Rejects(Failure(2)), Rejected(Failure(2)))
  {
    var e1, e2, e3 := DrainSettles, ServerCloses(Some(Failure(1))), TelemetryStops(Rejects(Failure(2)));
    var a := ShutdownStep(s, {}, UndefinedValue);
    var b := DrainSettlesStep(a);
    var c := ServerClosesStep(b, Some(Failure(1)));
    FourEvents(s, ShutdownCalled({}, UndefinedValue), a, e1, b, e2, c, e3);
  }
}
