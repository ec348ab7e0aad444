/**
 * The realtime transport as a state machine.
 *
 * Code between two `await`s of `apps/api/src/realtime.ts` runs without interruption, so one step is one
 * such stretch of code, or one thing its environment does. Steps of different requests, timers and
 * listeners interleave freely.
 */
module RealtimeProtocol {
  import opened Common
  import opened RealtimeTypes

  /** One call of `#admit`. Requests are never confused with one another, so a number stands for each. */
  type Req = nat

  datatype Config = Config(expectedOrigin: string, limit: nat)

  /** One call of `response.write` on a stream. */
  datatype Frame = Refresh | Heartbeat | HintFrame(hint: Hint) | Reconnect(reason: ReconnectReason)
  datatype ReconnectReason = ForDeployment | ForLifetime

  datatype CloseResult = Aborted | Drained | Expired | Revoked

  /** `#close` decides (`Closing`), waits for the lease, and then ends the response (`Ended`). */
  datatype Phase = Live | Closing(result: CloseResult) | Ended(result: CloseResult)

  datatype Timer = HeartbeatTimer | RevalidationTimer | LifetimeTimer

  const ALL_TIMERS: set<Timer> := {HeartbeatTimer, RevalidationTimer, LifetimeTimer}

  /**
   * A registered stream. `from` and `upto` delimit the stretch of published hints it was there for:
   * `upto` is set when the close is decided. `endCalls` counts calls of `response.end`.
   */
  datatype Stream = Stream(
    session: Session,
    connectionId: string,
    phase: Phase,
    timers: set<Timer>,
    subscribed: bool,
    listening: bool,
    destroyed: bool,
    writableEnded: bool,
    endCalls: nat,
    frames: seq<Frame>,
    from: nat,
    upto: nat)

  /** What the promise of `acquire` holds. */
  datatype Grant = Granted(connectionId: string) | Refused | Failed

  /** Where a call of `#admit` is suspended, or how it finished. */
  datatype Admission =
    | AwaitAuthorize(request: Request)
    | AwaitAcquire(session: Session, grant: Grant)
    | AwaitRelease(denial: Denial)
    | Rejected(denial: Denial)
    | Streaming

  /** A lease that has not been released. */
  datatype Held = Held(sessionKey: string, connectionId: string)

  datatype Metric =
    | AdmissionAccepted | AdmissionDenied | AdmissionLimited | AdmissionUnavailable
    | DeliveryDelivered | DeliveryRejected
    | Lifecycle(result: CloseResult)

  datatype State = State(
    config: Config,
    draining: bool,
    admissions: map<Req, Admission>,
    streams: map<Req, Stream>,
    active: map<string, Req>,
    held: map<Req, Held>,
    metrics: seq<Metric>,
    published: seq<Hint>)

  function Init(config: Config): State {
    State(config, false, map[], map[], map[], map[], [], [])
  }

  /** How `subscribeToScopeChanges` behaves for one stream. */
  datatype Subscription = Unsupported | Subscribed | SubscribeThrew

  datatype Event =
    | Arrive(r: Req, request: Request)
    | ResumeAuthorize(r: Req, answer: Answer, newId: Option<string>)
    | ResumeAcquire(r: Req, subscription: Subscription, destroyed: bool, writableEnded: bool)
    | ResumeRelease(r: Req)
    | Publish(hint: Hint, failing: set<Req>)
    | HeartbeatTick(r: Req)
    | LifetimeOver(r: Req)
    | ResumeRevalidate(r: Req, answer: Answer)
    | CloseEvent(r: Req)
    | Destroyed(r: Req)
    | BeginDrain(failing: set<Req>)
    | CloseTail(r: Req)

  predicate IsLive(s: State, r: Req) { r in s.streams && s.streams[r].phase.Live? }

  function LiveStreams(s: State): set<Req> { set r | r in s.streams && s.streams[r].phase.Live? }

  /** Admissions that hold a lease and wait to be resumed. */
  function Suspended(s: State): set<Req> {
    set r | r in s.admissions && s.admissions[r].AwaitAcquire? && s.admissions[r].grant.Granted?
  }

  /** The holders of the leases of one session. */
  function Holders(held: map<Req, Held>, sessionKey: string): set<Req> {
    set r | r in held && held[r].sessionKey == sessionKey
  }

  function Shut(t: Stream, why: CloseResult, now: nat): Stream {
    t.(phase := Closing(why), timers := {}, subscribed := false, listening := false, upto := now)
  }

  /** The synchronous part of `#close` on every live stream of `rs`. */
  function Close(s: State, rs: set<Req>, why: CloseResult): State {
    var hit := rs * LiveStreams(s);
    s.(streams := map r | r in s.streams :: if r in hit then Shut(s.streams[r], why, |s.published|) else s.streams[r],
       active := map c | c in s.active && s.active[c] !in hit :: s.active[c],
       held := s.held - hit)
  }

  function Write(s: State, rs: set<Req>, f: Frame): State {
    s.(streams := map r | r in s.streams ::
         if r in rs then s.streams[r].(frames := s.streams[r].frames + [f]) else s.streams[r])
  }

  function Emit(s: State, m: Metric): State { s.(metrics := s.metrics + [m]) }

  function Reject(s: State, r: Req, m: Metric, d: Denial): State {
    Emit(s.(admissions := s.admissions[r := Rejected(d)]), m)
  }

  function DenialMetric(d: Denial): Metric {
    if d.status == 503 then AdmissionUnavailable else if d.status == 429 then AdmissionLimited else AdmissionDenied
  }

  /** `#admit` from its start to the call of `authorize`. */
  function ArriveStep(s: State, r: Req, request: Request): State {
    if s.draining then Reject(s, r, AdmissionUnavailable, DRAINING)
    else
      match Gate(request, s.config.expectedOrigin)
      case Some(d) => Reject(s, r, AdmissionDenied, d)
      case None => s.(admissions := s.admissions[r := AwaitAuthorize(request)])
  }

  /** `#admit` from the authorizer's answer to the end of `acquire`, whose body runs at once. */
  function ResumeAuthorizeStep(s: State, r: Req, request: Request, answer: Answer, newId: Option<string>): State {
    match Admitted(request, answer)
    case Err(d) => Reject(s, r, DenialMetric(d), d)
    case Ok(session) =>
      if |Holders(s.held, session.sessionKey)| >= s.config.limit then
        s.(admissions := s.admissions[r := AwaitAcquire(session, Refused)])
      else if newId.None? then
        s.(admissions := s.admissions[r := AwaitAcquire(session, Failed)])
      else
        s.(admissions := s.admissions[r := AwaitAcquire(session, Granted(newId.value))],
           held := s.held[r := Held(session.sessionKey, newId.value)])
  }

  function NewStream(s: State, session: Session, id: string, e: Event): Stream
    requires e.ResumeAcquire?
  {
    Stream(session, id, Live, ALL_TIMERS, e.subscription.Subscribed?, true, e.destroyed, e.writableEnded, 0,
           [Refresh], |s.published|, |s.published|)
  }

  /** `#admit` from the outcome of `acquire`. */
  function ResumeAcquireStep(s: State, e: Event, session: Session, grant: Grant): State
    requires e.ResumeAcquire?
  {
    var r := e.r;
    match grant
    case Failed => Reject(s, r, AdmissionUnavailable, REGISTRY_UNAVAILABLE)
    case Refused => Reject(s, r, AdmissionLimited, CONNECTION_LIMIT)
    case Granted(id) =>
      if !IsOpaqueKey(id) || id in s.active then
        s.(admissions := s.admissions[r := AwaitRelease(REGISTRY_UNAVAILABLE)], held := s.held - {r})
      else if s.draining then
        s.(admissions := s.admissions[r := AwaitRelease(DRAINING)], held := s.held - {r})
      else
        var registered := s.(admissions := s.admissions[r := Streaming],
                             streams := s.streams[r := NewStream(s, session, id, e)],
                             active := s.active[id := r]);
        if e.subscription.SubscribeThrew? then Close(registered, {r}, Revoked)
        else if e.destroyed || e.writableEnded then Close(registered, {r}, Aborted)
        else Emit(registered, AdmissionAccepted)
  }

  /** The live streams a hint is meant for. */
  function Targets(s: State, h: Hint): set<Req> {
    set r | r in s.streams && s.streams[r].phase.Live? && InScope(s.streams[r].session, h)
  }

  /** Writing a hint to `hit`, where the writes to `failing` throw and those streams are aborted instead. */
  function Deliver(s: State, h: Hint, hit: set<Req>, failing: set<Req>): State {
    Close(Write(s, hit - failing, HintFrame(h)), hit * failing, Aborted)
  }

  function PublishStep(s: State, h: Hint, failing: set<Req>): State {
    if !IsSafeHint(h) then Emit(s, DeliveryRejected)
    else
      var hit := Targets(s, h);
      Emit(Deliver(s, h, hit, failing).(published := s.published + [h]),
           if |hit - failing| > 0 then DeliveryDelivered else DeliveryRejected)
  }

  /** What `publish` returns. */
  function Delivered(s: State, h: Hint, failing: set<Req>): nat {
    if !IsSafeHint(h) then 0 else |Targets(s, h) - failing|
  }

  /** The live streams that can still be told to reconnect. */
  function Writable(s: State): set<Req> {
    set r | r in s.streams && s.streams[r].phase.Live? && !s.streams[r].destroyed
  }

  /** The synchronous part of `beginDrain`; where a write throws, that stream is not closed. */
  function BeginDrainStep(s: State, failing: set<Req>): State {
    if s.draining then s
    else
      var stuck := Writable(s) * failing;
      Close(Write(s.(draining := true), Writable(s) - failing, Reconnect(ForDeployment)),
            LiveStreams(s) - stuck, Drained)
  }

  function LifetimeStep(s: State, r: Req): State {
    Close(Write(s, {r} * Writable(s), Reconnect(ForLifetime)), {r}, Expired)
  }

  /** `#revalidate` from the authorizer's answer. */
  function RevalidateStep(s: State, r: Req, answer: Answer): State
    requires r in s.streams
  {
    if answer.Authorized? && SameAuthorization(s.streams[r].session, answer.session) then s
    else Close(s, {r}, Revoked)
  }

  /** The rest of `#close`, after the release of the lease. */
  function CloseTailStep(s: State, r: Req): State
    requires r in s.streams && s.streams[r].phase.Closing?
  {
    var t := s.streams[r];
    Emit(s.(streams := s.streams[r := t.(phase := Ended(t.phase.result), writableEnded := true,
                                         endCalls := t.endCalls + (if t.writableEnded then 0 else 1))]),
         Lifecycle(t.phase.result))
  }

  /** Whether the event can happen: a suspended call is there to be resumed, a timer is armed, and so on. */
  predicate Enabled(s: State, e: Event) {
    match e
    case Arrive(r, _) => r !in s.admissions
    case ResumeAuthorize(r, _, _) => r in s.admissions && s.admissions[r].AwaitAuthorize?
    case ResumeAcquire(r, _, _, _) => r in s.admissions && s.admissions[r].AwaitAcquire?
    case ResumeRelease(r) => r in s.admissions && s.admissions[r].AwaitRelease?
    case Publish(_, _) => true
    case HeartbeatTick(r) => r in s.streams && HeartbeatTimer in s.streams[r].timers
    case LifetimeOver(r) => r in s.streams && LifetimeTimer in s.streams[r].timers
    case ResumeRevalidate(r, _) => r in s.streams
    case CloseEvent(r) => r in s.streams && s.streams[r].listening
    case Destroyed(r) => r in s.streams
    case BeginDrain(_) => true
    case CloseTail(r) => r in s.streams && s.streams[r].phase.Closing?
  }

  function Step(s: State, e: Event): State
    requires Enabled(s, e)
  {
    match e
    case Arrive(r, request) => ArriveStep(s, r, request)
    case ResumeAuthorize(r, answer, newId) => ResumeAuthorizeStep(s, r, s.admissions[r].request, answer, newId)
    case ResumeAcquire(r, _, _, _) => ResumeAcquireStep(s, e, s.admissions[r].session, s.admissions[r].grant)
    case ResumeRelease(r) => Reject(s, r, AdmissionUnavailable, s.admissions[r].denial)
    case Publish(h, failing) => PublishStep(s, h, failing)
    case HeartbeatTick(r) => if s.streams[r].phase.Live? then Write(s, {r}, Heartbeat) else s
    case LifetimeOver(r) => LifetimeStep(s, r)
    case ResumeRevalidate(r, answer) => RevalidateStep(s, r, answer)
    case CloseEvent(r) => Close(s, {r}, Aborted)
    case Destroyed(r) => s.(streams := s.streams[r := s.streams[r].(destroyed := true)])
    case BeginDrain(failing) => BeginDrainStep(s, failing)
    case CloseTail(r) => CloseTailStep(s, r)
  }

  /**
   * What is assumed of the environment: a new connection id differs from those the same session holds,
   * and the JSON text of a hint has no raw line break.
   */
  predicate Admissible(s: State, e: Event) {
    match e
    case ResumeAuthorize(r, Authorized(session), Some(id)) =>
      forall q <- Holders(s.held, session.sessionKey) :: s.held[q].connectionId != id
    case Publish(h, _) => IsJsonText(h.json)
    case _ => true
  }

  /** A run: every event can happen and the environment behaves. */
  predicate IsRun(s: State, es: seq<Event>)
    decreases |es|
  {
    es == [] || (Enabled(s, es[0]) && Admissible(s, es[0]) && IsRun(Step(s, es[0]), es[1..]))
  }

  function Run(s: State, es: seq<Event>): State
    requires IsRun(s, es)
    decreases |es|
  {
    if es == [] then s else Run(Step(s, es[0]), es[1..])
  }
}
