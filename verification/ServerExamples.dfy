/** Shutdowns whose first failure does not reach the caller although the telemetry runtime settles. */
module ServerExamples {
  import opened Common
  import opened ServerProtocol
  import opened RealtimeTypes
  import RealtimeProtocol
  import RealtimeExamples
  import HealthProtocol

  /** The server after the admission of one stream. */
  function WithStream(options: HealthProtocol.Options, c: RealtimeProtocol.Config, r: Req, session: Session,
                      id: string): State {
    Init(options, 0, Some(c)).(realtime := Some(RealtimeExamples.OneStream(c, r, session, id)))
  }

  /** A shutdown in which the drain cannot write to the one stream there is. */
  function FailingShutdown(r: Req, thrown: Thrown, error: Option<Thrown>): seq<Event> {
    [ShutdownCalled({r}, thrown), DrainSettles, ServerCloses(error), TelemetryStops(Settled)]
  }

  lemma FailingShutdownRun(options: HealthProtocol.Options, c: RealtimeProtocol.Config, r: Req, session: Session,
                           id: string, thrown: Thrown, error: Option<Thrown>)
    requires error.Some? ==> error.value.Failure?
    ensures var s, es := WithStream(options, c, r, session, id), FailingShutdown(r, thrown, error);
            && IsRun(s, es)
            && Run(s, es).drainError == Some(thrown) && Run(s, es).closeError == error
            && Run(s, es).shutdown == Over(Settled, OutcomeOf(Collected(Some(thrown), error), Settled))
  {
    var s := WithStream(options, c, r, session, id);
    var a := FailingStart(options, c, r, session, id, thrown);
    var b := DrainSettlesStep(a);
    var d := ServerClosesStep(b, error);
    FourEvents(s, ShutdownCalled({r}, thrown), a, DrainSettles, b, ServerCloses(error), d, TelemetryStops(Settled));
  }

  /** The shutdown has begun, and its drain has failed. */
  lemma FailingStart(options: HealthProtocol.Options, c: RealtimeProtocol.Config, r: Req, session: Session,
                     id: string, thrown: Thrown) returns (a: State)
    ensures a == ShutdownStep(WithStream(options, c, r, session, id), {r}, thrown)
    ensures a.drainError == Some(thrown) && a.shutdown == AwaitDrain && a.shutdownError == UndefinedValue
  {
    RealtimeExamples.StuckInDrain(c, r, session, id);
    a := ShutdownStep(WithStream(options, c, r, session, id), {r}, thrown);
  }

  lemma WithStreamReached(options: HealthProtocol.Options, c: RealtimeProtocol.Config, r: Req, request: Request,
                          session: Session, id: string)
    requires RealtimeExamples.Admits(c, request, session, id)
    ensures var es := Lift(RealtimeExamples.AdmissionEvents(r, request, session, id));
            && IsRun(Init(options, 0, Some(c)), es)
            && Run(Init(options, 0, Some(c)), es) == WithStream(options, c, r, session, id)
  {
    RealtimeExamples.AdmissionRun(c, r, request, session, id);
    LiftRun(Init(options, 0, Some(c)), RealtimeExamples.AdmissionEvents(r, request, session, id));
  }

  /**
   * With one stream registered, a drain that throws `undefined` is reported as a success, and one that throws `null`
   * before the server fails to close is reported as that later failure.
   */
  lemma LostDrainErrors(options: HealthProtocol.Options, c: RealtimeProtocol.Config, r: Req, request: Request,
                        session: Session, id: string)
    requires RealtimeExamples.Admits(c, request, session, id)
    ensures var start := Init(options, 0, Some(c));
            var admission := Lift(RealtimeExamples.AdmissionEvents(r, request, session, id));
            var undefined, nothing := admission + FailingShutdown(r, UndefinedValue, None),
                                    admission + FailingShutdown(r, NullValue, Some(Failure(1)));
            && IsRun(start, undefined) && IsRun(start, nothing)
            && FirstError(Run(start, undefined)) == Some(UndefinedValue)
            && Run(start, undefined).shutdown == Over(Settled, Resolved)
            && FirstError(Run(start, nothing)) == Some(NullValue)
            && Run(start, nothing).shutdown == Over(Settled, Rejected(Failure(1)))
  {
    var start, admission := Init(options, 0, Some(c)), Lift(RealtimeExamples.AdmissionEvents(r, request, session, id));
    WithStreamReached(options, c, r, request, session, id);
    FailingShutdownRun(options, c, r, session, id, UndefinedValue, None);
    FailingShutdownRun(options, c, r, session, id, NullValue, Some(Failure(1)));
    RunAppend(start, admission, FailingShutdown(r, UndefinedValue, None));
    RunAppend(start, admission, FailingShutdown(r, NullValue, Some(Failure(1))));
  }
}
