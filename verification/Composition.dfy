/**
 * The parts put together: a server is built and listens, a stream is admitted, a hint is published, and the server
 * shuts down until the response of the stream has ended and the caller has its answer.
 */
module Composition {
  import opened Common
  import opened RealtimeTypes
  import opened RealtimeProtocol
  import opened RealtimeExamples
  import opened ConnectionRegistry
  import RealtimeInvariants
  import RealtimeTransport
  import HealthProtocol
  import ServerProtocol
  import Server

  // ------------------------------------------------------------ of an admission

  /** The answer to the suspended admission of `r` makes it acquire the lease `id`. */
  ghost predicate Grants(s: State, r: Req, request: Request, session: Session, id: string) {
    var held := s.held;
    && r in s.admissions && s.admissions[r] == AwaitAuthorize(request)
    && Admitted(request, Authorized(session)) == Ok(session)
    && |Holders(held, session.sessionKey)| < s.config.limit
    && forall q <- Holders(held, session.sessionKey) :: held[q].connectionId != id
  }

  function Leased(s: State, r: Req, session: Session, id: string): State {
    s.(admissions := s.admissions[r := AwaitAcquire(session, Granted(id))],
       held := s.held[r := Held(session.sessionKey, id)])
  }

  lemma GrantedAt(s: State, r: Req, request: Request, session: Session, id: string)
    requires Grants(s, r, request, session, id)
    ensures var e := ResumeAuthorize(r, Authorized(session), Some(id));
            Enabled(s, e) && Admissible(s, e) && Step(s, e) == Leased(s, r, session, id)
  {
  }

  /** The event that registers a stream whose response is there to be written to. */
  function Registers(r: Req): Event { ResumeAcquire(r, Unsupported, false, false) }

  // ------------------------------------------------- what becomes of a stream

  function StreamOf(s: State, r: Req): Option<Stream> { if r in s.streams then Some(s.streams[r]) else None }

  /** The one stream there is, `r`, has come to a phase and has been sent `frames`. */
  ghost predicate Alone(s: State, r: Req, phase: Phase, frames: seq<Frame>) {
    var stream := StreamOf(s, r);
    && stream.Some?
    && var t := stream.value;
       && t.phase == phase && t.frames == frames && !t.destroyed
       && t.writableEnded == phase.Ended? && t.endCalls == (if phase.Ended? then 1 else 0)
       && s.streams.Keys == {r} && s.active.Keys == (if phase.Live? then {t.connectionId} else {})
       && s.draining == !phase.Live?
  }

  /** What steps on a stream leave as it was. */
  ghost predicate OthersKept(s: State, u: State, r: Req) {
    && u.config == s.config && u.admissions == s.admissions && u.held - {r} == s.held - {r}
    && r in s.streams && r in u.streams && u.streams[r].session == s.streams[r].session
  }

  function Transcript(hint: Hint): seq<Frame> { [Refresh, HintFrame(hint), Reconnect(ForDeployment)] }

  lemma CloseNone(s: State, why: CloseResult)
    ensures Close(s, {}, why) == s
  {
    assert Close(s, {}, why).streams == s.streams;
    assert Close(s, {}, why).active == s.active;
    assert Close(s, {}, why).held == s.held;
  }

  /** A hint in scope. */
  lemma HintSent(s: State, r: Req, hint: Hint)
    requires Alone(s, r, Live, [Refresh]) && IsSafeHint(hint) && InScope(s.streams[r].session, hint)
    ensures Delivered(s, hint, {}) == 1
    ensures var p := PublishStep(s, hint, {});
            Alone(p, r, Live, [Refresh, HintFrame(hint)]) && OthersKept(s, p, r) && p.held == s.held
  {
    var w := Write(s, {r}, HintFrame(hint));
    assert Targets(s, hint) == {r} && {r} - {} == {r} && {r} * {} == {};
    CloseNone(w, Aborted);
    assert [Refresh] + [HintFrame(hint)] == [Refresh, HintFrame(hint)];
    assert PublishStep(s, hint, {}) == Emit(w.(published := s.published + [hint]), DeliveryDelivered);
  }

  /** A drain. */
  lemma HintDrained(p: State, r: Req, hint: Hint)
    requires Alone(p, r, Live, [Refresh, HintFrame(hint)]) && RealtimeInvariants.Inv(p)
    ensures LiveStreams(p) == {r} && Writable(p) * {} == {}
    ensures var d := BeginDrainStep(p, {});
            Alone(d, r, Closing(Drained), Transcript(hint)) && OthersKept(p, d, r) && d.held == p.held - {r}
  {
    assert LiveStreams(p) == {r} && Writable(p) == {r};
    assert {r} - {} == {r} && {r} * {} == {};
    var d := BeginDrainStep(p, {});
    assert d.streams[r].frames == [Refresh, HintFrame(hint)] + [Reconnect(ForDeployment)];
    forall c | c in p.active ensures p.active[c] == r { assert RealtimeProtocol.IsLive(p, p.active[c]); }
    assert d.active == map[];
  }

  /** The end of its response. */
  lemma HintFinished(d: State, r: Req, hint: Hint)
    requires Alone(d, r, Closing(Drained), Transcript(hint))
    ensures var t := CloseTailStep(d, r);
            Alone(t, r, Ended(Drained), Transcript(hint)) && OthersKept(d, t, r) && t.held == d.held
  {
  }

  // ------------------------------------------------------------ with a server

  datatype Part = Variables | Readiness | Realtime

  /** One part is in order: the variables agree with the parts, and each part is valid. */
  ghost predicate InOrder(server: Server.ApiServer, part: Part)
    reads server, server.healthReadiness, server.realtime, server.Reached()
    reads if server.realtime == null then {} else {server.realtime.registry}
  {
    match part
    case Variables => server.Linked()
    case Readiness => server.healthReadiness.Valid()
    case Realtime => server.realtime != null && server.realtime.Valid()
  }

  /** The server has a transport, and all parts are in order. */
  ghost predicate Up(server: Server.ApiServer)
    reads server, server.healthReadiness, server.realtime, server.Reached()
    reads if server.realtime == null then {} else {server.realtime.registry}
  {
    var t := server.realtime;
    t != null && forall part {:trigger InOrder(server, part)} :: InOrder(server, part)
  }

  lemma Parts(server: Server.ApiServer)
    requires Up(server)
    ensures server.Linked() && server.PartsValid() && server.realtime.Valid()
  {
    assert InOrder(server, Variables) && InOrder(server, Readiness) && InOrder(server, Realtime);
  }

  /** A server that listens. */
  method Boot(options: HealthProtocol.Options, ghost clock: int, c: Config) returns (server: Server.ApiServer)
    requires HealthProtocol.ValidOptions(options)
    ensures fresh(server) && fresh(server.healthReadiness) && fresh(server.realtime) && fresh(server.realtime.registry)
    ensures fresh(server.realtime.objects)
    ensures fresh(server.realtime.registry.ledger.sets) && fresh(server.realtime.registry.ledger.granted)
    ensures Up(server) && server.realtime.config == c && server.realtime.model == Init(c)
    ensures server.model.open && Serving(server.model)
  {
    server := new Server.ApiServer(options, clock, Some(c));
    server.realtime.BothSides();
    Listen(server);
  }

  method Listen(server: Server.ApiServer)
    requires server.Linked() && server.healthReadiness.Valid() && server.model.listen.NotCalled?
    modifies server, server.healthReadiness
    ensures server.Linked() && server.healthReadiness.Valid() && server.model.open
    ensures server.model ==
            old(server.model).(listen := ServerProtocol.Bound, open := true, health := server.model.health)
  {
    var promise := server.Listen();
    var asked := server.StartListening(false);
    server.OnListening();
  }

  /** All parts are in order, but the server may have yet to take note of a step of its transport. */
  ghost predicate Stale(server: Server.ApiServer)
    reads server, server.healthReadiness, server.realtime, server.Reached()
    reads if server.realtime == null then {} else {server.realtime.registry}
  {
    var t := server.realtime;
    t != null && server.PartsValid() && server.VariablesLinked() && server.HealthLinked()
  }

  /** From what the server knows of its transport, the event leads to `u`. */
  ghost predicate Leads(m: ServerProtocol.State, e: Event, u: State) {
    var s := m.realtime;
    s.Some? && ServerProtocol.Enabled(m, ServerProtocol.Realtime(e)) && u == Step(s.value, e)
  }

  /** A step that the transport can make is one the server can take note of. */
  lemma Next(m: ServerProtocol.State, e: Event)
    requires m.realtime.Some? && ServerProtocol.Enabled(m, ServerProtocol.Realtime(e))
    ensures Leads(m, e, Step(m.realtime.value, e))
  {
  }

  lemma GrantedNext(m: ServerProtocol.State, r: Req, request: Request, session: Session, id: string)
    requires m.realtime.Some? && Grants(m.realtime.value, r, request, session, id)
    ensures Leads(m, ResumeAuthorize(r, Authorized(session), Some(id)), Leased(m.realtime.value, r, session, id))
  {
    GrantedAt(m.realtime.value, r, request, session, id);
    Next(m, ResumeAuthorize(r, Authorized(session), Some(id)));
  }

  lemma FinishedNext(m: ServerProtocol.State, r: Req, hint: Hint)
    requires m.realtime.Some? && Alone(m.realtime.value, r, Closing(Drained), Transcript(hint))
    ensures var t := CloseTailStep(m.realtime.value, r);
            && Leads(m, CloseTail(r), t)
            && Alone(t, r, Ended(Drained), Transcript(hint)) && OthersKept(m.realtime.value, t, r)
            && t.held == m.realtime.value.held
  {
    HintFinished(m.realtime.value, r, hint);
    Next(m, CloseTail(r));
  }

  /** The server takes note of a step of its transport. */
  ghost method Record(server: Server.ApiServer, e: Event)
    requires Stale(server) && Leads(server.model, e, server.realtime.model)
    modifies server`model
    ensures Up(server) && server.model == old(server.model).(realtime := Some(server.realtime.model))
  {
    server.RecordStep(e);
  }

  // Each stretch of code of the transport, on a server that takes note of it.

  method AskAt(server: Server.ApiServer, r: Req, request: Request)
    requires Up(server) && r !in server.realtime.model.admissions
    modifies server`model, server.realtime`metrics, server.realtime`model
    ensures Up(server) && server.realtime.model == ArriveStep(old(server.realtime.model), r, request)
    ensures server.model == old(server.model).(realtime := Some(server.realtime.model))
  {
    Parts(server);
    Next(server.model, Arrive(r, request));
    var denial := server.realtime.Arrive(r, request);
    Record(server, Arrive(r, request));
  }

  /** The authorizer's answer, up to the lease. */
  method Answer(t: RealtimeTransport.Transport, r: Req, request: Request, session: Session, id: string)
    returns (lease: ConnectionRegistry.Lease)
    requires t.Valid() && Grants(t.model, r, request, session, id)
    modifies t`metrics, t`model, t.registry, t.registry.ledger.sets
    ensures t.Valid() && t.model == Leased(old(t.model), r, session, id)
    ensures t.registry.ledger.leases == old(t.registry.ledger.leases)[r := lease] && t.registry.Grown()
  {
    GrantedAt(t.model, r, request, session, id);
    var denial, grant, some := t.ResumeAuthorize(r, request, Authorized(session), Some(id));
    lease := some;
  }

  method AnswerAt(server: Server.ApiServer, r: Req, request: Request, session: Session, id: string)
    returns (lease: ConnectionRegistry.Lease)
    requires Up(server) && Grants(server.realtime.model, r, request, session, id)
    modifies server`model, server.realtime`metrics, server.realtime`model, server.realtime.registry
    modifies server.realtime.registry.ledger.sets
    ensures Up(server) && server.realtime.model == Leased(old(server.realtime.model), r, session, id)
    ensures server.model == old(server.model).(realtime := Some(server.realtime.model))
    ensures server.realtime.registry.ledger.leases == old(server.realtime.registry.ledger.leases)[r := lease]
    ensures server.realtime.registry.Grown()
  {
    Parts(server);
    GrantedNext(server.model, r, request, session, id);
    lease := Answer(server.realtime, r, request, session, id);
    Record(server, ResumeAuthorize(r, Authorized(session), Some(id)));
  }

  method RegisterAt(server: Server.ApiServer, r: Req, session: Session, id: string, lease: ConnectionRegistry.Lease)
    returns (denial: Option<Denial>, stream: RealtimeTransport.ActiveStream?)
    requires Up(server) && r in server.realtime.model.admissions
    requires server.realtime.model.admissions[r] == AwaitAcquire(session, Granted(id))
    requires r in server.realtime.registry.ledger.leases && server.realtime.registry.ledger.leases[r] == lease
    modifies server`model, server.realtime, server.realtime.registry
    modifies server.realtime.registry.ledger.sets, server.realtime.registry.ledger.granted
    ensures Up(server)
    ensures server.realtime.model == ResumeAcquireStep(old(server.realtime.model), Registers(r), session, Granted(id))
    ensures server.model == old(server.model).(realtime := Some(server.realtime.model))
    ensures denial.None? <==> r in server.realtime.model.admissions && server.realtime.model.admissions[r].Streaming?
    ensures denial.Some? ==> r in server.realtime.model.admissions
                             && server.realtime.model.admissions[r] == AwaitRelease(denial.value)
    ensures denial.None? <==> stream != null
    ensures stream != null ==> server.realtime.Owns(r, stream) && fresh(stream)
    ensures server.realtime.streams ==
            if stream == null then old(server.realtime.streams) else old(server.realtime.streams)[r := stream]
    ensures server.realtime.objects ==
            if stream == null then old(server.realtime.objects) else old(server.realtime.objects) + {stream}
    ensures server.realtime.registry.OnlyReleased()
  {
    Parts(server);
    Next(server.model, Registers(r));
    denial, stream := server.realtime.ResumeAcquire(Registers(r), session, Granted(id), lease);
    Record(server, Registers(r));
  }

  method ReleaseAt(server: Server.ApiServer, r: Req, denial: Denial)
    requires Up(server) && r in server.realtime.model.admissions
    requires server.realtime.model.admissions[r] == AwaitRelease(denial)
    modifies server`model, server.realtime`metrics, server.realtime`model
    ensures Up(server)
    ensures server.realtime.model == Reject(old(server.realtime.model), r, AdmissionUnavailable, denial)
    ensures server.model == old(server.model).(realtime := Some(server.realtime.model))
  {
    Parts(server);
    Next(server.model, ResumeRelease(r));
    server.realtime.ResumeRelease(r, denial);
    Record(server, ResumeRelease(r));
  }

  method PublishAt(server: Server.ApiServer, hint: Hint) returns (delivered: nat)
    requires Up(server) && IsJsonText(hint.json)
    modifies server`model, server.realtime`active, server.realtime`model, server.realtime`metrics
    modifies server.realtime.objects, server.realtime.registry
    modifies server.realtime.registry.ledger.sets, server.realtime.registry.ledger.granted
    ensures Up(server) && server.realtime.model == PublishStep(old(server.realtime.model), hint, {})
    ensures delivered == Delivered(old(server.realtime.model), hint, {})
    ensures server.model == old(server.model).(realtime := Some(server.realtime.model))
    ensures server.realtime.registry.OnlyReleased()
  {
    Parts(server);
    Next(server.model, Publish(hint, {}));
    delivered := server.realtime.Publish(hint, {});
    Record(server, Publish(hint, {}));
  }

  /** A hint for the one stream there is. */
  method SendAt(server: Server.ApiServer, r: Req, hint: Hint) returns (delivered: nat)
    requires Up(server) && Alone(server.realtime.model, r, Live, [Refresh])
    requires IsSafeHint(hint) && IsJsonText(hint.json) && InScope(server.realtime.model.streams[r].session, hint)
    modifies server`model, server.realtime`active, server.realtime`model, server.realtime`metrics
    modifies server.realtime.objects, server.realtime.registry
    modifies server.realtime.registry.ledger.sets, server.realtime.registry.ledger.granted
    ensures Up(server) && delivered == 1
    ensures Alone(server.realtime.model, r, Live, [Refresh, HintFrame(hint)])
    ensures OthersKept(old(server.realtime.model), server.realtime.model, r)
    ensures server.realtime.model.held == old(server.realtime.model).held
    ensures server.model == old(server.model).(realtime := Some(server.realtime.model))
    ensures server.realtime.registry.OnlyReleased()
  {
    HintSent(server.realtime.model, r, hint);
    delivered := PublishAt(server, hint);
  }

  /** No shutdown has begun. */
  ghost predicate Serving(m: ServerProtocol.State) {
    var error := m.shutdownError;
    m.shutdown.Idle? && error.UndefinedValue?
  }

  /** A shutdown waits for the drain of the one stream `r`. */
  ghost predicate Waits(m: ServerProtocol.State, r: Req) {
    var error := m.shutdownError;
    m.shutdown.AwaitDrain? && m.drained == {r} && m.drainError.None? && error.UndefinedValue?
  }

  lemma ShutdownWaits(m: ServerProtocol.State, p: State, r: Req, hint: Hint)
    requires Serving(m) && m.realtime == Some(p) && RealtimeInvariants.Inv(p)
    requires Alone(p, r, Live, [Refresh, HintFrame(hint)])
    ensures var n := ServerProtocol.ShutdownStep(m, {}, ServerProtocol.UndefinedValue);
            Waits(n, r) && n.realtime == Some(BeginDrainStep(p, {}))
    ensures var d := BeginDrainStep(p, {});
            Alone(d, r, Closing(Drained), Transcript(hint)) && OthersKept(p, d, r) && d.held == p.held - {r}
  {
    HintDrained(p, r, hint);
  }

  /** `shutdown` up to its first `await`. */
  method ShutdownAt(server: Server.ApiServer, r: Req, ghost hint: Hint)
    requires Up(server) && Serving(server.model)
    requires Alone(server.realtime.model, r, Live, [Refresh, HintFrame(hint)])
    modifies server, server.healthReadiness, server.realtime, server.realtime.objects, server.realtime.registry
    modifies server.realtime.registry.ledger.sets, server.realtime.registry.ledger.granted
    ensures Up(server) && Waits(server.model, r)
    ensures Alone(server.realtime.model, r, Closing(Drained), Transcript(hint))
    ensures OthersKept(old(server.realtime.model), server.realtime.model, r)
    ensures server.realtime.model.held == old(server.realtime.model).held - {r}
    ensures server.realtime.streams == old(server.realtime.streams)
    ensures server.realtime.objects == old(server.realtime.objects)
    ensures server.realtime.registry.OnlyReleased()
  {
    Parts(server);
    server.realtime.BothSides();
    ShutdownWaits(server.model, server.realtime.model, r, hint);
    var promise := server.Shutdown({}, ServerProtocol.UndefinedValue);
  }

  /** The close that the drain waits for. */
  method CloseAt(server: Server.ApiServer, stream: RealtimeTransport.ActiveStream, ghost hint: Hint)
    requires Up(server) && server.realtime.Owns(stream.req, stream)
    requires Alone(server.realtime.model, stream.req, Closing(Drained), Transcript(hint))
    modifies server`model, server.realtime`model, server.realtime`metrics, stream
    ensures Up(server) && Alone(server.realtime.model, stream.req, Ended(Drained), Transcript(hint))
    ensures OthersKept(old(server.realtime.model), server.realtime.model, stream.req)
    ensures server.realtime.model.held == old(server.realtime.model).held
    ensures server.model == old(server.model).(realtime := Some(server.realtime.model))
  {
    Parts(server);
    FinishedNext(server.model, stream.req, hint);
    server.realtime.CloseTail(stream, Drained);
    Record(server, CloseTail(stream.req));
  }

  /** `shutdown` from the end of its drain to its own end, when nothing fails. */
  method Conclude(server: Server.ApiServer, ghost r: Req, ghost hint: Hint) returns (outcome: ServerProtocol.Outcome)
    requires server.Linked() && Waits(server.model, r) && server.model.realtime.Some?
    requires Alone(server.model.realtime.value, r, Ended(Drained), Transcript(hint))
    modifies server`model, server`shutdownError
    ensures server.Linked() && outcome == ServerProtocol.Resolved && !server.model.open
    ensures server.model.shutdown == ServerProtocol.Over(ServerProtocol.Settled, outcome)
  {
    server.DrainOver(None);
    var failed := server.CloseOver(None);
    outcome := server.TelemetryOver(ServerProtocol.Settled);
  }

  /** What the objects say once the model says that the stream has ended and no lease is held. */
  lemma AtTheEnd(server: Server.ApiServer, stream: RealtimeTransport.ActiveStream, hint: Hint)
    requires Up(server) && server.realtime.Owns(stream.req, stream)
    requires Alone(server.realtime.model, stream.req, Ended(Drained), Transcript(hint))
    ensures server.Linked() && server.model.realtime == Some(server.realtime.model)
    ensures server.realtime.registry.Valid() && server.realtime.registry.View() == server.realtime.model.held
    ensures stream.frames == Transcript(hint) && stream.endCalls == 1 && stream.closed
  {
    Parts(server);
    server.realtime.BothSides();
    assert server.realtime.Synced(stream.req);
  }

  /** The end of the one stream, and of the shutdown. */
  method Finish(server: Server.ApiServer, stream: RealtimeTransport.ActiveStream, ghost hint: Hint)
    returns (leases: nat, outcome: ServerProtocol.Outcome)
    requires Up(server) && server.realtime.Owns(stream.req, stream) && Waits(server.model, stream.req)
    requires Alone(server.realtime.model, stream.req, Closing(Drained), Transcript(hint))
    requires server.realtime.model.held == map[]
    modifies server`model, server`shutdownError, server.realtime`model, server.realtime`metrics, stream
    ensures leases == 0 && outcome == ServerProtocol.Resolved
    ensures stream.frames == Transcript(hint) && stream.endCalls == 1 && stream.closed
    ensures server.realtime.model.admissions == old(server.realtime.model).admissions
  {
    CloseAt(server, stream, hint);
    AtTheEnd(server, stream, hint);
    leases := LeaseCount(server.realtime.registry);
    outcome := Conclude(server, stream.req, hint);
  }

  method LeaseCount(registry: InMemoryRegistry) returns (leases: nat)
    requires registry.Valid() && registry.View() == map[]
    ensures leases == 0
  {
    leases := registry.ActiveCount();
  }

  // ------------------------------------------------------------ one stream

  /** `shutdown` as a whole. */
  method Stop(server: Server.ApiServer, stream: RealtimeTransport.ActiveStream, ghost hint: Hint)
    returns (leases: nat, outcome: ServerProtocol.Outcome)
    requires Up(server) && Serving(server.model) && server.realtime.model.held.Keys == {stream.req}
    requires server.realtime.Owns(stream.req, stream) && stream in server.realtime.objects
    requires Alone(server.realtime.model, stream.req, Live, [Refresh, HintFrame(hint)])
    modifies server, server.healthReadiness, server.realtime, server.realtime.objects, server.realtime.registry
    modifies server.realtime.registry.ledger.sets, server.realtime.registry.ledger.granted
    ensures leases == 0 && outcome == ServerProtocol.Resolved
    ensures stream.frames == Transcript(hint) && stream.endCalls == 1 && stream.closed
  {
    ShutdownAt(server, stream.req, hint);
    leases, outcome := Finish(server, stream, hint);
  }

  /** A hint for the stream, and the end. */
  method Deliver(server: Server.ApiServer, stream: RealtimeTransport.ActiveStream, hint: Hint)
    returns (delivered: nat, leases: nat, outcome: ServerProtocol.Outcome)
    requires Up(server) && Serving(server.model) && server.realtime.model.held.Keys == {stream.req}
    requires server.realtime.Owns(stream.req, stream) && stream in server.realtime.objects
    requires Alone(server.realtime.model, stream.req, Live, [Refresh])
    requires IsSafeHint(hint) && IsJsonText(hint.json)
    requires InScope(server.realtime.model.streams[stream.req].session, hint)
    modifies server, server.healthReadiness, server.realtime, server.realtime.objects, server.realtime.registry
    modifies server.realtime.registry.ledger.sets, server.realtime.registry.ledger.granted
    ensures delivered == 1 && leases == 0 && outcome == ServerProtocol.Resolved
    ensures stream.frames == Transcript(hint) && stream.endCalls == 1 && stream.closed
  {
    delivered := SendAt(server, stream.req, hint);
    leases, outcome := Stop(server, stream, hint);
  }

  lemma StartsAlone(c: Config, r: Req, session: Session, id: string)
    ensures var s := OneStream(c, r, session, id);
            && Alone(s, r, Live, [Refresh]) && s.held.Keys == {r} && s.streams[r].session == session
  {
  }

  lemma AdmissionGrants(c: Config, r: Req, request: Request, session: Session, id: string)
    requires Admits(c, request, session, id)
    ensures Grants(Asked(c, r, request), r, request, session, id)
    ensures Leased(Asked(c, r, request), r, session, id) == Waiting(c, r, session, id)
  {
    assert Holders(Asked(c, r, request).held, session.sessionKey) == {};
  }

  /** One admission up to its lease. */
  method Lease(server: Server.ApiServer, r: Req, request: Request, session: Session, id: string)
    returns (lease: ConnectionRegistry.Lease)
    requires Up(server) && server.realtime.model == Init(server.realtime.config)
    requires Admits(server.realtime.config, request, session, id)
    modifies server`model, server.realtime`metrics, server.realtime`model, server.realtime.registry
    modifies server.realtime.registry.ledger.sets
    ensures Up(server) && server.realtime.model == Waiting(server.realtime.config, r, session, id)
    ensures server.model == old(server.model).(realtime := Some(server.realtime.model))
    ensures r in server.realtime.registry.ledger.leases && server.realtime.registry.ledger.leases[r] == lease
    ensures server.realtime.registry.Grown()
  {
    AdmissionSteps(server.realtime.config, r, request, session, id);
    AdmissionGrants(server.realtime.config, r, request, session, id);
    AskAt(server, r, request);
    lease := AnswerAt(server, r, request, session, id);
  }

  /** One admission, through all its awaits. */
  method Admit(server: Server.ApiServer, r: Req, request: Request, session: Session, id: string)
    returns (stream: RealtimeTransport.ActiveStream)
    requires Up(server) && server.realtime.model == Init(server.realtime.config)
    requires Admits(server.realtime.config, request, session, id)
    modifies server`model, server.realtime, server.realtime.registry
    modifies server.realtime.registry.ledger.sets, server.realtime.registry.ledger.granted
    ensures Up(server) && server.realtime.Owns(r, stream)
    ensures server.realtime.model == OneStream(server.realtime.config, r, session, id)
    ensures server.model == old(server.model).(realtime := Some(server.realtime.model))
    ensures server.realtime.registry.Grown()
    ensures fresh(stream) && server.realtime.objects == old(server.realtime.objects) + {stream}
  {
    AdmissionSteps(server.realtime.config, r, request, session, id);
    var lease := Lease(server, r, request, session, id);
    var denial, some := RegisterAt(server, r, session, id, lease);
    stream := some;
  }

  /** A stream on a server that has none. */
  method StreamFor(server: Server.ApiServer, r: Req, request: Request, session: Session, id: string, hint: Hint)
    returns (stream: RealtimeTransport.ActiveStream, delivered: nat, leases: nat, outcome: ServerProtocol.Outcome)
    requires Up(server) && Serving(server.model)
    requires server.realtime.model == Init(server.realtime.config)
    requires Admits(server.realtime.config, request, session, id)
    requires IsSafeHint(hint) && IsJsonText(hint.json) && InScope(session, hint)
    modifies server, server.healthReadiness, server.realtime, server.realtime.objects, server.realtime.registry
    modifies server.realtime.registry.ledger.sets, server.realtime.registry.ledger.granted
    ensures delivered == 1 && leases == 0 && outcome == ServerProtocol.Resolved
    ensures stream.frames == Transcript(hint) && stream.endCalls == 1 && stream.closed
  {
    StartsAlone(server.realtime.config, r, session, id);
    stream := Admit(server, r, request, session, id);
    delivered, leases, outcome := Deliver(server, stream, hint);
  }

  /**
   * From nothing to a finished shutdown: whatever admissible request, authorization and hint there are, the hint is
   * delivered once, the stream has been sent a refresh, the hint and a reconnect, its response has been ended once,
   * no lease is held any more, and the caller of `shutdown` hears of success.
   */
  method Serve(options: HealthProtocol.Options, ghost clock: int, c: Config, r: Req, request: Request, session: Session,
               id: string, hint: Hint)
    returns (stream: RealtimeTransport.ActiveStream, delivered: nat, leases: nat, outcome: ServerProtocol.Outcome)
    requires HealthProtocol.ValidOptions(options) && Admits(c, request, session, id)
    requires IsSafeHint(hint) && IsJsonText(hint.json)
    requires hint.brandId == session.brandId && hint.storeId == session.storeId
    ensures delivered == 1 && leases == 0 && outcome == ServerProtocol.Resolved
    ensures stream.frames == Transcript(hint) && stream.endCalls == 1 && stream.closed
  {
    var server := Boot(options, clock, c);
    stream, delivered, leases, outcome := StreamFor(server, r, request, session, id, hint);
  }
}
