/**
 * The closures of `createApiServerRuntime` with the variables they share. Every method is one stretch of code
 * between two `await`s, and moves `model` by exactly one step of the protocol.
 */
module Server {
  import opened Common
  import opened ServerProtocol
  import RealtimeProtocol
  import RealtimeTransport
  import HealthProtocol
  import HealthReadiness

  class Promise {
    constructor () {}
  }

  /** An operation reported to telemetry. */
  datatype Operation = NotStarted | Running | Completed(success: bool)

  class ApiServer {
    const healthReadiness: HealthReadiness.HealthReadinessController
    const realtime: RealtimeTransport.Transport?
    var listenPromise: Promise?
    var shutdownPromise: Promise?
    var shutdownError: Thrown
    /** Whether the listeners for `error` and for `listening` are registered, and the operation `api_startup`. */
    var errorListener: bool
    var listeningListener: bool
    var startup: Operation
    ghost var model: State

    /** The variables of the closures agree with the model. */
    ghost predicate VariablesLinked()
      reads this
    {
      && (listenPromise == null <==> model.listen.NotCalled?)
      && (shutdownPromise == null <==> model.shutdown.Idle?)
      && shutdownError == model.shutdownError
      && (errorListener <==> model.listen.Binding?) && (listeningListener <==> model.listen.Binding?)
      && (startup.Running? <==> model.listen.Binding?)
      && (startup.Completed? ==> startup.success == model.listen.Bound?)
      && (model.listen.Bound? ==> startup.Completed?)
    }

    ghost predicate HealthLinked()
      reads this, healthReadiness
    {
      model.health == healthReadiness.model
    }

    ghost predicate RealtimeLinked()
      reads this, realtime
    {
      model.realtime == if realtime == null then None else Some(realtime.model)
    }

    ghost predicate Linked()
      reads this, healthReadiness, realtime
    {
      VariablesLinked() && HealthLinked() && RealtimeLinked()
    }

    /** The readiness controller and the transport, if there is one, are in order themselves. */
    ghost predicate PartsValid()
      reads healthReadiness, realtime, Reached(), if realtime == null then {} else {realtime.registry}
    {
      var t := realtime;
      healthReadiness.Valid() && (t != null ==> t.Valid())
    }

    constructor (options: HealthProtocol.Options, ghost clock: int, config: Option<RealtimeProtocol.Config>)
      requires HealthProtocol.ValidOptions(options)
      ensures Linked() && PartsValid()
      ensures model == Init(options, clock, config)
      ensures fresh(healthReadiness)
      ensures realtime != null ==>
                && fresh(realtime) && fresh(realtime.registry) && fresh(realtime.objects)
                && fresh(realtime.registry.ledger.sets) && fresh(realtime.registry.ledger.granted)
    {
      healthReadiness := new HealthReadiness.HealthReadinessController(options, clock);
      if config.Some? {
        var transport := new RealtimeTransport.Transport(config.value);
        realtime := transport;
      } else {
        realtime := null;
      }
      listenPromise, shutdownPromise, shutdownError := null, null, UndefinedValue;
      errorListener, listeningListener, startup := false, false, NotStarted;
      model := Init(options, clock, config);
    }

    /** `listen`: every call gets the one promise. */
    method Listen() returns (promise: Promise)
      requires Linked()
      modifies this`listenPromise, this`model
      ensures Linked() && model == ListenCalledStep(old(model)) && promise == listenPromise
      ensures old(listenPromise) != null ==> promise == old(listenPromise)
    {
      if listenPromise == null {
        listenPromise := new Promise();
      }
      model := ListenCalledStep(model);
      promise := listenPromise;
    }

    /** The readiness controller has made a step of its own, other than those the server makes it do. */
    ghost method RecordHealth(h: HealthProtocol.Event)
      requires PartsValid() && VariablesLinked() && RealtimeLinked() && Enabled(model, Health(h))
      requires healthReadiness.model == HealthProtocol.Step(model.health, h)
      modifies this`model
      ensures Linked() && PartsValid() && model == Step(old(model), Health(h))
    {
      model := model.(health := healthReadiness.model);
    }

    /** The transport has made steps of its own, none of them a drain. */
    ghost method RecordRealtime(es: seq<RealtimeProtocol.Event>)
      requires PartsValid() && VariablesLinked() && HealthLinked() && realtime != null && model.realtime.Some?
      requires RealtimeProtocol.IsRun(model.realtime.value, es) && NoBeginDrain(es)
      requires realtime.model == RealtimeProtocol.Run(model.realtime.value, es)
      modifies this`model
      ensures Linked() && PartsValid() && model == old(model).(realtime := Some(realtime.model))
      ensures IsRun(old(model), Lift(es)) && model == Run(old(model), Lift(es))
    {
      LiftRun(model, es);
      model := model.(realtime := Some(realtime.model));
    }

    /** The transport has made one step of its own. */
    ghost method RecordStep(e: RealtimeProtocol.Event)
      requires PartsValid() && VariablesLinked() && HealthLinked() && realtime != null && model.realtime.Some?
      requires Enabled(model, Realtime(e)) && realtime.model == RealtimeProtocol.Step(model.realtime.value, e)
      modifies this`model
      ensures Linked() && PartsValid() && model == old(model).(realtime := Some(realtime.model))
    {
      OneEvent(model.realtime.value, e);
      RecordRealtime([e]);
    }

    lemma OneEvent(s: RealtimeProtocol.State, e: RealtimeProtocol.Event)
      requires RealtimeProtocol.Enabled(s, e) && RealtimeProtocol.Admissible(s, e)
      ensures RealtimeProtocol.IsRun(s, [e]) && RealtimeProtocol.Run(s, [e]) == RealtimeProtocol.Step(s, e)
    {
      assert [e][1..] == [];
      assert RealtimeProtocol.IsRun(RealtimeProtocol.Step(s, e), []);
    }

    /**
     * The body of the promise of `listen`: telemetry is started, and unless that throws an operation begins, both
     * listeners are registered and the socket is asked for.
     */
    method StartListening(telemetryThrows: bool) returns (asked: bool)
      requires Linked() && model.listen.Scheduled?
      modifies this`model, this`errorListener, this`listeningListener, this`startup
      ensures Linked() && model == ListenStartsStep(old(model), telemetryThrows)
      ensures asked == errorListener == listeningListener == !telemetryThrows
      ensures startup == if telemetryThrows then old(startup) else Running
    {
      model := ListenStartsStep(model, telemetryThrows);
      asked := !telemetryThrows;
      if !telemetryThrows {
        startup, errorListener, listeningListener := Running, true, true;
      }
    }

    /** The listener for a socket that could not come up. */
    method OnError()
      requires Linked() && errorListener
      modifies this`model, this`errorListener, this`listeningListener, this`startup
      ensures Linked() && model == old(model).(listen := Unbound)
      ensures !errorListener && !listeningListener && startup == Completed(false)
    {
      model := model.(listen := Unbound);
      errorListener, listeningListener, startup := false, false, Completed(false);
    }

    /** The listener for a socket that has come up. */
    method OnListening()
      requires Linked() && healthReadiness.Valid() && listeningListener
      modifies this`model, this`errorListener, this`listeningListener, this`startup, healthReadiness
      ensures Linked() && healthReadiness.Valid() && model == ListeningStep(old(model))
      ensures !errorListener && !listeningListener && startup == Completed(true)
    {
      healthReadiness.CompleteStartup();
      model := ListeningStep(model);
      errorListener, listeningListener, startup := false, false, Completed(true);
    }

    /**
     * `shutdown` up to its first `await`: every call gets the one promise, and only the first does anything.
     * `failing` are the streams on which the drain cannot write, `thrown` what the first such write throws.
     */
    method Shutdown(failing: set<RealtimeProtocol.Req>, ghost thrown: Thrown) returns (promise: Promise)
      requires Linked() && PartsValid()
      modifies this`shutdownPromise, this`model, healthReadiness, realtime, Reached()
      ensures Linked() && PartsValid()
      ensures model == ShutdownStep(old(model), failing, thrown) && promise == shutdownPromise
      ensures old(shutdownPromise) != null ==> promise == old(shutdownPromise)
      ensures realtime != null ==>
                && realtime.objects == old(realtime.objects) && realtime.streams == old(realtime.streams)
                && realtime.registry.OnlyReleased()
    {
      if shutdownPromise == null {
        FirstShutdown(failing, thrown);
      }
      promise := shutdownPromise;
    }

    method FirstShutdown(failing: set<RealtimeProtocol.Req>, ghost thrown: Thrown)
      requires Linked() && PartsValid() && shutdownPromise == null
      modifies this`shutdownPromise, this`model, healthReadiness, realtime, Reached()
      ensures Linked() && PartsValid() && shutdownPromise != null
      ensures model == ShutdownStep(old(model), failing, thrown)
      ensures realtime != null ==>
                && realtime.objects == old(realtime.objects) && realtime.streams == old(realtime.streams)
                && realtime.registry.OnlyReleased()
    {
      StartDrain(failing);
      Begin(ShutdownStep(model, failing, thrown));
    }

    method Begin(ghost m: State)
      modifies this`shutdownPromise, this`model
      ensures shutdownPromise != null && model == m
    {
      shutdownPromise := new Promise();
      model := m;
    }

    method StartDrain(failing: set<RealtimeProtocol.Req>)
      requires PartsValid()
      modifies healthReadiness, realtime, Reached()
      ensures PartsValid() && (realtime != null ==> realtime.draining)
      ensures healthReadiness.model == HealthProtocol.BeginDrainStep(old(healthReadiness.model))
      ensures healthReadiness.lifecycleState.Draining?
      ensures realtime != null ==> realtime.model == RealtimeProtocol.BeginDrainStep(old(realtime.model), failing)
      ensures realtime != null ==>
                && realtime.objects == old(realtime.objects) && realtime.streams == old(realtime.streams)
                && realtime.registry.OnlyReleased()
    {
      healthReadiness.BeginDrain();
      if realtime != null { realtime.BeginDrain(failing); }
    }

    /** The objects behind the transport. */
    ghost function Reached(): set<object>
      reads realtime, if realtime == null then {} else {realtime.registry}
    {
      if realtime == null then {}
      else realtime.objects + {realtime.registry} + realtime.registry.ledger.sets + realtime.registry.ledger.granted
    }

    /** `shutdown` once the drain has settled, with its error or without: the server is told to close. */
    method DrainOver(error: Option<Thrown>)
      requires Linked() && model.shutdown.AwaitDrain? && DrainSettled(model) && error == model.drainError
      modifies this`shutdownError, this`model
      ensures Linked() && model == DrainSettlesStep(old(model))
    {
      if error.Some? { shutdownError := error.value; }
      model := DrainSettlesStep(model);
    }

    /** `shutdown` once the server is closed; returns what becomes of the exit code. */
    method CloseOver(error: Option<Thrown>) returns (failed: bool)
      requires Linked() && Enabled(model, ServerCloses(error))
      modifies this`shutdownError, this`model
      ensures Linked() && model == ServerClosesStep(old(model), error)
      ensures failed == (shutdownError != UndefinedValue)
    {
      if error.Some? && !shutdownError.Failure? { shutdownError := error.value; }
      model := ServerClosesStep(model, error);
      failed := !shutdownError.UndefinedValue?;
    }

    /** `shutdown` to its end: what its promise settles to. */
    method TelemetryOver(end: TelemetryEnd) returns (outcome: Outcome)
      requires Linked() && model.shutdown.AwaitTelemetry?
      modifies this`model
      ensures Linked() && model == old(model).(shutdown := Over(end, outcome))
      ensures outcome == OutcomeOf(shutdownError, end)
      ensures old(Inv(model)) ==> (ReportsFirst(model) <==> FirstErrorSurvives(model, end))
    {
      ghost var before := model;
      outcome := match end
        case Rejects(error) => Rejected(error)
        case Settled => if shutdownError.UndefinedValue? then Resolved else Rejected(shutdownError);
      model := model.(shutdown := Over(end, OutcomeOf(model.shutdownError, end)));
      if Inv(before) {
        StepInv(before, TelemetryStops(end));
        FirstErrorKept(model);
      }
    }
  }
}
