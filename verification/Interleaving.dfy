/**
 * Two admissions that overlap, and a shutdown in between: the first has registered its stream and been sent a hint
 * while the second only holds its lease. The lease the second acquired before is still its own when it is resumed,
 * and is given back, since the transport drains.
 */
module Interleaving {
  import opened Common
  import opened RealtimeTypes
  import opened RealtimeProtocol
  import opened RealtimeExamples
  import opened ConnectionRegistry
  import opened Composition
  import RealtimeTransport
  import HealthProtocol
  import ServerProtocol
  import Server

  /** One who asks for a stream: the request, what the authorizer says to it, and the connection id drawn. */
  datatype Client = Client(r: Req, request: Request, session: Session, id: string)

  predicate Fit(c: Config, client: Client) { Admits(c, client.request, client.session, client.id) }

  /** Each could be admitted alone, and they do not contend for an id or for the last lease of a session. */
  predicate Compatible(c: Config, first: Client, second: Client) {
    var sameSession := first.session.sessionKey == second.session.sessionKey;
    && (forall client {:trigger Fit(c, client)} | client in {first, second} :: Fit(c, client))
    && first.r != second.r && (sameSession ==> c.limit >= 2 && first.id != second.id)
  }

  lemma SecondKey(c: Config, first: Client, second: Client)
    requires Compatible(c, first, second)
    ensures IsOpaqueKey(second.id)
  {
    assert Fit(c, second);
  }

  /** Both wait for the authorizer. */
  function BothAsked(c: Config, first: Client, second: Client): State {
    Init(c).(admissions := map[first.r := AwaitAuthorize(first.request)][second.r := AwaitAuthorize(second.request)])
  }

  /** The second has been answered. */
  function SecondLeased(c: Config, first: Client, second: Client): State {
    Leased(BothAsked(c, first, second), second.r, second.session, second.id)
  }

  /** Then the first. */
  function BothLeased(c: Config, first: Client, second: Client): State {
    Leased(SecondLeased(c, first, second), first.r, first.session, first.id)
  }

  lemma AskedTwice(c: Config, first: Client, second: Client)
    requires Compatible(c, first, second)
    ensures Asked(c, first.r, first.request) == ArriveStep(Init(c), first.r, first.request)
    ensures BothAsked(c, first, second) == ArriveStep(Asked(c, first.r, first.request), second.r, second.request)
  {
    assert Fit(c, first) && Fit(c, second);
  }

  lemma SecondGranted(c: Config, first: Client, second: Client)
    requires Compatible(c, first, second)
    ensures Grants(BothAsked(c, first, second), second.r, second.request, second.session, second.id)
  {
    assert Fit(c, second);
    assert Holders(map[], second.session.sessionKey) == {};
  }

  lemma FirstGranted(c: Config, first: Client, second: Client)
    requires Compatible(c, first, second)
    ensures Grants(SecondLeased(c, first, second), first.r, first.request, first.session, first.id)
  {
    assert Fit(c, first);
    var held := SecondLeased(c, first, second).held;
    assert held == map[second.r := Held(second.session.sessionKey, second.id)];
    OneHolder(second.r, held[second.r], first.session.sessionKey);
  }

  lemma OneHolder(r: Req, lease: Held, key: string)
    ensures Holders(map[r := lease], key) == if lease.sessionKey == key then {r} else {}
  {
  }

  /** The admission of a client was granted its lease and waits to be resumed. */
  ghost predicate Suspends(s: State, client: Client) {
    var admissions := s.admissions;
    client.r in admissions && admissions[client.r] == AwaitAcquire(client.session, Granted(client.id))
  }

  /** The first registers while the second waits. */
  lemma FirstRegisters(c: Config, first: Client, second: Client)
    requires Compatible(c, first, second)
    ensures var s := BothLeased(c, first, second);
            var u := ResumeAcquireStep(s, Registers(first.r), first.session, Granted(first.id));
            && Suspends(s, first)
            && Alone(u, first.r, Live, [Refresh]) && u.streams[first.r].session == first.session
            && u.admissions[first.r].Streaming? && Suspends(u, second) && u.held.Keys == {first.r, second.r}
  {
    assert Fit(c, first);
  }

  /** While the transport drains, the second gives its lease back. */
  lemma SecondReturns(s: State, r: Req, phase: Phase, frames: seq<Frame>, second: Client)
    requires Alone(s, r, phase, frames) && !phase.Live? && Suspends(s, second) && IsOpaqueKey(second.id)
    ensures var u := ResumeAcquireStep(s, Registers(second.r), second.session, Granted(second.id));
            u == Returned(s, second.r) && Alone(u, r, phase, frames)
  {
  }

  function Returned(s: State, r: Req): State {
    s.(admissions := s.admissions[r := AwaitRelease(DRAINING)], held := s.held - {r})
  }

  /** Once the lease is back the second is denied. */
  lemma SecondDenied(s: State, r: Req, phase: Phase, frames: seq<Frame>, q: Req)
    requires Alone(s, r, phase, frames) && s.held.Keys == {q}
    ensures var u := Reject(Returned(s, q), q, AdmissionUnavailable, DRAINING);
            Alone(u, r, phase, frames) && u.held == map[] && u.admissions == s.admissions[q := Rejected(DRAINING)]
  {
  }

  /** `lease` is the lease that the registry knows for `r`. */
  ghost predicate Has(server: Server.ApiServer, r: Req, lease: ConnectionRegistry.Lease)
    reads server.realtime, if server.realtime == null then {} else {server.realtime.registry}
  {
    var t := server.realtime;
    t != null && r in t.registry.ledger.leases && t.registry.ledger.leases[r] == lease
  }

  /** A lease that is still held is the one it was, if leases were only given back. */
  lemma LeaseKept(server: Server.ApiServer, r: Req, before: map<Req, ConnectionRegistry.Lease>)
    requires Up(server) && r in server.realtime.model.held
    requires OnlyFewer(before, server.realtime.registry.ledger.leases)
    ensures r in before && Has(server, r, before[r])
  {
    Parts(server);
    server.realtime.BothSides();
  }

  method AskBoth(server: Server.ApiServer, first: Client, second: Client)
    requires Up(server) && server.realtime.model == Init(server.realtime.config)
    requires Compatible(server.realtime.config, first, second)
    modifies server`model, server.realtime`metrics, server.realtime`model
    ensures Up(server) && server.realtime.model == BothAsked(server.realtime.config, first, second)
    ensures server.model == old(server.model).(realtime := Some(server.realtime.model))
  {
    AskedTwice(server.realtime.config, first, second);
    AskAt(server, first.r, first.request);
    AskAt(server, second.r, second.request);
  }

  method AnswerSecond(server: Server.ApiServer, ghost first: Client, second: Client)
    returns (lease: ConnectionRegistry.Lease)
    requires Up(server) && Compatible(server.realtime.config, first, second)
    requires server.realtime.model == BothAsked(server.realtime.config, first, second)
    modifies server`model, server.realtime`metrics, server.realtime`model, server.realtime.registry
    modifies server.realtime.registry.ledger.sets
    ensures Up(server) && server.realtime.model == SecondLeased(server.realtime.config, first, second)
    ensures server.model == old(server.model).(realtime := Some(server.realtime.model))
    ensures Has(server, second.r, lease) && server.realtime.registry.Grown()
  {
    SecondGranted(server.realtime.config, first, second);
    lease := AnswerAt(server, second.r, second.request, second.session, second.id);
  }

  method AnswerFirst(server: Server.ApiServer, first: Client, ghost second: Client,
                     ghost other: ConnectionRegistry.Lease) returns (lease: ConnectionRegistry.Lease)
    requires Up(server) && Compatible(server.realtime.config, first, second)
    requires server.realtime.model == SecondLeased(server.realtime.config, first, second)
    requires Has(server, second.r, other)
    modifies server`model, server.realtime`metrics, server.realtime`model, server.realtime.registry
    modifies server.realtime.registry.ledger.sets
    ensures Up(server) && server.realtime.model == BothLeased(server.realtime.config, first, second)
    ensures server.model == old(server.model).(realtime := Some(server.realtime.model))
    ensures Has(server, first.r, lease) && Has(server, second.r, other) && server.realtime.registry.Grown()
  {
    FirstGranted(server.realtime.config, first, second);
    lease := AnswerAt(server, first.r, first.request, first.session, first.id);
  }

  method RegisterFirst(server: Server.ApiServer, first: Client, ghost second: Client, lease1: ConnectionRegistry.Lease,
                       ghost lease2: ConnectionRegistry.Lease) returns (stream: RealtimeTransport.ActiveStream)
    requires Up(server) && Compatible(server.realtime.config, first, second)
    requires server.realtime.model == BothLeased(server.realtime.config, first, second)
    requires Has(server, first.r, lease1) && Has(server, second.r, lease2)
    modifies server`model, server.realtime, server.realtime.registry
    modifies server.realtime.registry.ledger.sets, server.realtime.registry.ledger.granted
    ensures Up(server) && server.realtime.Owns(first.r, stream)
    ensures Alone(server.realtime.model, first.r, Live, [Refresh])
    ensures server.realtime.model.streams[first.r].session == first.session
    ensures server.realtime.model.held.Keys == {first.r, second.r}
    ensures Suspends(server.realtime.model, second) && Has(server, second.r, lease2)
    ensures server.model == old(server.model).(realtime := Some(server.realtime.model))
    ensures server.realtime.registry.OnlyReleased()
    ensures fresh(stream) && server.realtime.objects == old(server.realtime.objects) + {stream}
  {
    FirstRegisters(server.realtime.config, first, second);
    var denial, some := RegisterAt(server, first.r, first.session, first.id, lease1);
    LeaseKept(server, second.r, old(server.realtime.registry.ledger.leases));
    stream := some;
  }

  /** A hint for the first, and the shutdown, while the second holds its lease. */
  method SendAndStop(server: Server.ApiServer, stream: RealtimeTransport.ActiveStream, hint: Hint, ghost second: Client,
                     ghost lease: ConnectionRegistry.Lease) returns (delivered: nat)
    requires Up(server) && Serving(server.model) && server.realtime.Owns(stream.req, stream)
    requires Alone(server.realtime.model, stream.req, Live, [Refresh])
    requires IsSafeHint(hint) && IsJsonText(hint.json)
    requires InScope(server.realtime.model.streams[stream.req].session, hint)
    requires second.r != stream.req && server.realtime.model.held.Keys == {stream.req, second.r}
    requires Suspends(server.realtime.model, second) && Has(server, second.r, lease)
    modifies server, server.healthReadiness, server.realtime, server.realtime.objects, server.realtime.registry
    modifies server.realtime.registry.ledger.sets, server.realtime.registry.ledger.granted
    ensures Up(server) && Waits(server.model, stream.req) && server.realtime.Owns(stream.req, stream) && delivered == 1
    ensures Alone(server.realtime.model, stream.req, Closing(Drained), Transcript(hint))
    ensures server.realtime.model.held.Keys == {second.r}
    ensures Suspends(server.realtime.model, second) && Has(server, second.r, lease)
    ensures server.realtime.objects == old(server.realtime.objects)
    ensures server.realtime.registry.OnlyReleased()
  {
    delivered := SendAt(server, stream.req, hint);
    ShutdownAt(server, stream.req, hint);
    LeaseKept(server, second.r, old(server.realtime.registry.ledger.leases));
  }

  /** The second is resumed while the transport drains. */
  method ReturnSecond(server: Server.ApiServer, stream: RealtimeTransport.ActiveStream, ghost hint: Hint,
                      second: Client, lease: ConnectionRegistry.Lease) returns (denial: Denial)
    requires Up(server) && Waits(server.model, stream.req) && server.realtime.Owns(stream.req, stream)
    requires Alone(server.realtime.model, stream.req, Closing(Drained), Transcript(hint))
    requires second.r != stream.req && IsOpaqueKey(second.id)
    requires Suspends(server.realtime.model, second) && Has(server, second.r, lease)
    modifies server`model, server.realtime, server.realtime.registry
    modifies server.realtime.registry.ledger.sets, server.realtime.registry.ledger.granted
    ensures Up(server) && Waits(server.model, stream.req) && server.realtime.Owns(stream.req, stream)
    ensures server.realtime.model == Returned(old(server.realtime.model), second.r) && denial == DRAINING
  {
    SecondReturns(server.realtime.model, stream.req, Closing(Drained), Transcript(hint), second);
    var some, none := RegisterAt(server, second.r, second.session, second.id, lease);
    denial := some.value;
  }

  method RefuseSecond(server: Server.ApiServer, stream: RealtimeTransport.ActiveStream, ghost hint: Hint,
                      second: Client, lease: ConnectionRegistry.Lease) returns (denial: Denial)
    requires Up(server) && Waits(server.model, stream.req) && server.realtime.Owns(stream.req, stream)
    requires Alone(server.realtime.model, stream.req, Closing(Drained), Transcript(hint))
    requires server.realtime.model.held.Keys == {second.r} && second.r != stream.req && IsOpaqueKey(second.id)
    requires Suspends(server.realtime.model, second) && Has(server, second.r, lease)
    modifies server`model, server.realtime, server.realtime.registry
    modifies server.realtime.registry.ledger.sets, server.realtime.registry.ledger.granted
    ensures Up(server) && Waits(server.model, stream.req) && server.realtime.Owns(stream.req, stream)
    ensures Alone(server.realtime.model, stream.req, Closing(Drained), Transcript(hint))
    ensures server.realtime.model.held == map[]
    ensures server.realtime.model.admissions == old(server.realtime.model).admissions[second.r := Rejected(DRAINING)]
    ensures denial == DRAINING
  {
    SecondDenied(server.realtime.model, stream.req, Closing(Drained), Transcript(hint), second.r);
    denial := ReturnSecond(server, stream, hint, second, lease);
    ReleaseAt(server, second.r, denial);
  }

  method AnswerBoth(server: Server.ApiServer, first: Client, second: Client)
    returns (lease1: ConnectionRegistry.Lease, lease2: ConnectionRegistry.Lease)
    requires Up(server) && Compatible(server.realtime.config, first, second)
    requires server.realtime.model == BothAsked(server.realtime.config, first, second)
    modifies server`model, server.realtime`metrics, server.realtime`model, server.realtime.registry
    modifies server.realtime.registry.ledger.sets
    ensures Up(server) && server.realtime.model == BothLeased(server.realtime.config, first, second)
    ensures server.model == old(server.model).(realtime := Some(server.realtime.model))
    ensures Has(server, first.r, lease1) && Has(server, second.r, lease2) && server.realtime.registry.Grown()
  {
    lease2 := AnswerSecond(server, first, second);
    lease1 := AnswerFirst(server, first, second, lease2);
  }

  /** Both admissions up to their leases. */
  method LeaseBoth(server: Server.ApiServer, first: Client, second: Client)
    returns (lease1: ConnectionRegistry.Lease, lease2: ConnectionRegistry.Lease)
    requires Up(server) && server.realtime.model == Init(server.realtime.config)
    requires Compatible(server.realtime.config, first, second)
    modifies server`model, server.realtime`metrics, server.realtime`model, server.realtime.registry
    modifies server.realtime.registry.ledger.sets
    ensures Up(server) && server.realtime.model == BothLeased(server.realtime.config, first, second)
    ensures server.model == old(server.model).(realtime := Some(server.realtime.model))
    ensures Has(server, first.r, lease1) && Has(server, second.r, lease2) && server.realtime.registry.Grown()
  {
    AskBoth(server, first, second);
    lease1, lease2 := AnswerBoth(server, first, second);
  }

  /** From the registration of the first to the shutdown. */
  method RegisterAndStop(server: Server.ApiServer, first: Client, ghost second: Client,
                         lease1: ConnectionRegistry.Lease, ghost lease2: ConnectionRegistry.Lease, hint: Hint)
    returns (stream: RealtimeTransport.ActiveStream, delivered: nat)
    requires Up(server) && Serving(server.model) && Compatible(server.realtime.config, first, second)
    requires server.realtime.model == BothLeased(server.realtime.config, first, second)
    requires Has(server, first.r, lease1) && Has(server, second.r, lease2)
    requires IsSafeHint(hint) && IsJsonText(hint.json) && InScope(first.session, hint)
    modifies server, server.healthReadiness, server.realtime, server.realtime.objects, server.realtime.registry
    modifies server.realtime.registry.ledger.sets, server.realtime.registry.ledger.granted
    ensures Up(server) && Waits(server.model, first.r) && server.realtime.Owns(first.r, stream) && delivered == 1
    ensures Alone(server.realtime.model, first.r, Closing(Drained), Transcript(hint))
    ensures server.realtime.model.held.Keys == {second.r}
    ensures Suspends(server.realtime.model, second) && Has(server, second.r, lease2)
    ensures fresh(stream) && server.realtime.registry.OnlyReleased()
  {
    stream := RegisterFirst(server, first, second, lease1, lease2);
    delivered := SendAndStop(server, stream, hint, second, lease2);
  }

  /** From the resumption of the second to the end. */
  method RefuseAndFinish(server: Server.ApiServer, stream: RealtimeTransport.ActiveStream, ghost hint: Hint,
                         second: Client, lease: ConnectionRegistry.Lease)
    returns (denial: Denial, leases: nat, outcome: ServerProtocol.Outcome)
    requires Up(server) && Waits(server.model, stream.req) && server.realtime.Owns(stream.req, stream)
    requires Alone(server.realtime.model, stream.req, Closing(Drained), Transcript(hint))
    requires server.realtime.model.held.Keys == {second.r} && second.r != stream.req && IsOpaqueKey(second.id)
    requires Suspends(server.realtime.model, second) && Has(server, second.r, lease)
    modifies server`model, server`shutdownError, server.realtime, server.realtime.registry
    modifies server.realtime.registry.ledger.sets, server.realtime.registry.ledger.granted, stream
    ensures denial == DRAINING && leases == 0 && outcome == ServerProtocol.Resolved
    ensures stream.frames == Transcript(hint) && stream.endCalls == 1 && stream.closed
    ensures second.r in server.realtime.model.admissions
            && server.realtime.model.admissions[second.r] == Rejected(denial)
  {
    denial := RefuseSecond(server, stream, hint, second, lease);
    leases, outcome := Finish(server, stream, hint);
  }

  method Overlap(server: Server.ApiServer, first: Client, second: Client, hint: Hint)
    returns (stream: RealtimeTransport.ActiveStream, delivered: nat, denial: Denial, leases: nat,
             outcome: ServerProtocol.Outcome)
    requires Up(server) && Serving(server.model) && server.realtime.model == Init(server.realtime.config)
    requires Compatible(server.realtime.config, first, second)
    requires IsSafeHint(hint) && IsJsonText(hint.json) && InScope(first.session, hint)
    modifies server, server.healthReadiness, server.realtime, server.realtime.objects, server.realtime.registry
    modifies server.realtime.registry.ledger.sets, server.realtime.registry.ledger.granted
    ensures delivered == 1 && denial == DRAINING && leases == 0 && outcome == ServerProtocol.Resolved
    ensures stream.frames == Transcript(hint) && stream.endCalls == 1 && stream.closed
    ensures second.r in server.realtime.model.admissions
            && server.realtime.model.admissions[second.r] == Rejected(denial)
  {
    SecondKey(server.realtime.config, first, second);
    var lease1, lease2 := LeaseBoth(server, first, second);
    stream, delivered := RegisterAndStop(server, first, second, lease1, lease2, hint);
    denial, leases, outcome := RefuseAndFinish(server, stream, hint, second, lease2);
  }

  /**
   * From nothing to a finished shutdown with two admissions on the way: the first is sent its hint and told to
   * reconnect, and the second, resumed with the lease it acquired before the first even had its own, is denied
   * because the transport drains. No lease is held any more, and the caller of `shutdown` hears of success.
   */
  method ServeTwo(options: HealthProtocol.Options, ghost clock: int, c: Config, first: Client, second: Client,
                  hint: Hint)
    returns (server: Server.ApiServer, stream: RealtimeTransport.ActiveStream, delivered: nat, denial: Denial,
             leases: nat, outcome: ServerProtocol.Outcome)
    requires HealthProtocol.ValidOptions(options) && Compatible(c, first, second)
    requires IsSafeHint(hint) && IsJsonText(hint.json)
    requires hint.brandId == first.session.brandId && hint.storeId == first.session.storeId
    ensures delivered == 1 && denial == DRAINING && leases == 0 && outcome == ServerProtocol.Resolved
    ensures stream.frames == Transcript(hint) && stream.endCalls == 1 && stream.closed
    ensures server.realtime != null && second.r in server.realtime.model.admissions
            && server.realtime.model.admissions[second.r] == Rejected(denial)
  {
    server := Boot(options, clock, c);
    stream, delivered, denial, leases, outcome := Overlap(server, first, second, hint);
  }
}
