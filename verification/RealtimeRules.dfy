/**
 * What a caller, an operator or an auditor can rely on step by step, told from requests, sessions and hints alone: who
 * is let in, what is written to whom, why a stream is closed and what is reported.
 */
module RealtimeRules {
  import opened Common
  import opened Regex
  import opened RealtimeTypes
  import opened RealtimePatterns
  import opened RealtimeProtocol
  import opened RealtimeInvariants
  import opened RealtimeSteps
  import opened RealtimeRuns
  import opened RealtimeMetrics
  import RealtimeExamples

  // ---------------------------------------------------------------- what is written

  /** A stream a hint is written to. */
  ghost predicate Receives(s: State, r: Req, h: Hint, failing: set<Req>) {
    SoundHint(h) && ForStream(s, r, h) && r !in failing
  }

  /** What an event writes to a stream that is registered already. */
  ghost function Written(s: State, e: Event, r: Req): seq<Frame>
    requires r in s.streams
  {
    match e
    case Publish(h, failing) => if Receives(s, r, h, failing) then [HintFrame(h)] else []
    case HeartbeatTick(q) => if q == r && IsLive(s, r) then [Heartbeat] else []
    case LifetimeOver(q) => if q == r && IsLive(s, r) && !s.streams[r].destroyed then [Reconnect(ForLifetime)] else []
    case BeginDrain(failing) =>
      if !s.draining && IsLive(s, r) && !s.streams[r].destroyed && r !in failing then [Reconnect(ForDeployment)] else []
    case _ => []
  }

  lemma PublishWrites(s: State, h: Hint, failing: set<Req>, r: Req)
    requires r in s.streams
    ensures r in PublishStep(s, h, failing).streams
    ensures PublishStep(s, h, failing).streams[r].frames == s.streams[r].frames + Written(s, Publish(h, failing), r)
  {
    SafeHintIff(h);
    if IsSafeHint(h) { FramesByHint(s, h, failing, r); }
  }

  /** Every event writes to a registered stream exactly that. */
  lemma FramesWritten(s: State, e: Event, r: Req)
    requires AdmissionsMatch(s) && Enabled(s, e) && r in s.streams
    ensures r in Step(s, e).streams && Step(s, e).streams[r].frames == s.streams[r].frames + Written(s, e, r)
  {
    assert IsStreaming(s, r);
    match e
    case Publish(h, failing) => PublishWrites(s, h, failing, r);
    case ResumeAuthorize(q, answer, newId) =>
      AuthorizeWhileDraining(s, q, s.admissions[q].request, answer, newId);
    case HeartbeatTick(_) => TimersWrite(s, e, r);
    case LifetimeOver(_) => TimersWrite(s, e, r);
    case BeginDrain(_) => TimersWrite(s, e, r);
    case _ => OthersWrite(s, e, r);
  }

  lemma TimersWrite(s: State, e: Event, r: Req)
    requires Enabled(s, e) && r in s.streams && (e.HeartbeatTick? || e.LifetimeOver? || e.BeginDrain?)
    ensures r in Step(s, e).streams && Step(s, e).streams[r].frames == s.streams[r].frames + Written(s, e, r)
  {
    if e.BeginDrain? { DrainWrites(s, e.failing, r); }
    if e.LifetimeOver? { LifetimeWrites(s, e.r, r); }
  }

  lemma DrainWrites(s: State, failing: set<Req>, r: Req)
    requires r in s.streams
    ensures var t := BeginDrainStep(s, failing);
            r in t.streams && t.streams[r].frames == s.streams[r].frames + Written(s, BeginDrain(failing), r)
  {
  }

  lemma LifetimeWrites(s: State, q: Req, r: Req)
    requires r in s.streams
    ensures var t := LifetimeStep(s, q);
            r in t.streams && t.streams[r].frames == s.streams[r].frames + Written(s, LifetimeOver(q), r)
  {
  }

  lemma OthersWrite(s: State, e: Event, r: Req)
    requires Enabled(s, e) && r in s.streams && IsStreaming(s, r) && !e.Publish? && !e.ResumeAuthorize?
    requires !e.HeartbeatTick? && !e.LifetimeOver? && !e.BeginDrain?
    ensures r in Step(s, e).streams && Step(s, e).streams[r].frames == s.streams[r].frames + Written(s, e, r)
  {
  }

  /**
   * In every run a hint reaches exactly those live streams, other than those whose write throws, whose session has
   * its brand and its store, where a missing store is one too; it is written to each once, and their number returned.
   */
  lemma HintReaches(c: Config, es: seq<Event>, h: Hint, failing: set<Req>, r: Req)
    requires IsRun(Init(c), es) && r in Run(Init(c), es).streams
    ensures var s := Run(Init(c), es);
            var u := Step(s, Publish(h, failing));
            && r in u.streams
            && u.streams[r].frames == s.streams[r].frames + (if Receives(s, r, h, failing) then [HintFrame(h)] else [])
            && Delivered(s, h, failing) == |set q | q in s.streams && Receives(s, q, h, failing)|
            && u.published == s.published + (if SoundHint(h) then [h] else [])
  {
    var s := Run(Init(c), es);
    InitInv(c);
    RunInv(Init(c), es);
    FramesWritten(s, Publish(h, failing), r);
    CountsReceivers(s, h, failing);
    SafeHintIff(h);
  }

  lemma CountsReceivers(s: State, h: Hint, failing: set<Req>)
    ensures Delivered(s, h, failing) == |set q | q in s.streams && Receives(s, q, h, failing)|
  {
    SafeHintIff(h);
    var receivers := set q | q in s.streams && Receives(s, q, h, failing);
    if IsSafeHint(h) { assert receivers == Targets(s, h) - failing; } else { assert receivers == {}; }
  }

  // ---------------------------------------------------------------- why a stream is closed

  /** The answer of a revalidation lets the stream of a session go on. */
  ghost predicate StillAuthorized(answer: Answer, session: Session) {
    && answer.Authorized?
    && SoundSession(answer.session)
    && answer.session.kind == session.kind && answer.session.sessionKey == session.sessionKey
    && answer.session.brandId == session.brandId && answer.session.storeId == session.storeId
    && answer.session.revision == session.revision
    && "realtime:subscribe" in answer.session.permissions
  }

  /** Whether an event closes a live stream, and with what result. */
  ghost function Decision(s: State, e: Event, r: Req): Option<CloseResult>
    requires r in s.streams
  {
    var t := s.streams[r];
    match e
    case Publish(h, failing) => if SoundHint(h) && ForStream(s, r, h) && r in failing then Some(Aborted) else None
    case LifetimeOver(q) => if q == r then Some(Expired) else None
    case ResumeRevalidate(q, answer) => if q == r && !StillAuthorized(answer, t.session) then Some(Revoked) else None
    case CloseEvent(q) => if q == r then Some(Aborted) else None
    case BeginDrain(failing) => if !s.draining && (t.destroyed || r !in failing) then Some(Drained) else None
    case _ => None
  }

  ghost predicate Decided(s: State, t: State, r: Req, decision: Option<CloseResult>) {
    && r in t.streams
    && t.streams[r].phase == (if decision.Some? then Closing(decision.value) else Live)
    && (r in t.held <==> decision.None?)
  }

  /** A live stream is closed for those reasons and no others, and its lease goes with it. */
  lemma ClosedBy(s: State, e: Event, r: Req)
    requires Inv(s) && Enabled(s, e) && IsLive(s, r)
    ensures Decided(s, Step(s, e), r, Decision(s, e, r))
  {
    assert IsStreaming(s, r) && r in s.held;
    match e
    case Publish(h, _) =>
      SafeHintIff(h);
      PublishDecides(s, e, r);
    case ResumeRevalidate(q, answer) => RevalidateDecides(s, q, answer, r);
    case ResumeAuthorize(q, answer, newId) => AuthorizeDecides(s, q, answer, newId, r);
    case BeginDrain(failing) => DrainDecides(s, failing, r);
    case _ => OthersDecide(s, e, r);
  }

  lemma PublishDecides(s: State, e: Event, r: Req)
    requires e.Publish? && IsLive(s, r) && r in s.held && (IsSafeHint(e.hint) <==> SoundHint(e.hint))
    ensures Decided(s, Step(s, e), r, Decision(s, e, r))
  {
  }

  lemma DrainDecides(s: State, failing: set<Req>, r: Req)
    requires IsLive(s, r) && r in s.held
    ensures Decided(s, BeginDrainStep(s, failing), r, Decision(s, BeginDrain(failing), r))
  {
  }

  lemma OthersDecide(s: State, e: Event, r: Req)
    requires Enabled(s, e) && IsLive(s, r) && IsStreaming(s, r) && r in s.held
    requires !e.Publish? && !e.ResumeRevalidate? && !e.ResumeAuthorize? && !e.BeginDrain?
    ensures Decided(s, Step(s, e), r, Decision(s, e, r))
  {
  }

  lemma AuthorizeDecides(s: State, q: Req, answer: Answer, newId: Option<string>, r: Req)
    requires q in s.admissions && s.admissions[q].AwaitAuthorize? && IsLive(s, r) && IsStreaming(s, r) && r in s.held
    ensures Decided(s, ResumeAuthorizeStep(s, q, s.admissions[q].request, answer, newId), r, None)
  {
    match Admitted(s.admissions[q].request, answer)
    case Err(_) =>
    case Ok(_) =>
  }

  lemma SameAuthorizationIff(answer: Answer, session: Session)
    ensures answer.Authorized? && SameAuthorization(session, answer.session) <==> StillAuthorized(answer, session)
  {
    if answer.Authorized? { SafeSessionIff(answer.session); }
  }

  lemma RevalidateDecides(s: State, q: Req, answer: Answer, r: Req)
    requires q in s.streams && IsLive(s, r) && r in s.held
    ensures Decided(s, RevalidateStep(s, q, answer), r, Decision(s, ResumeRevalidate(q, answer), r))
  {
    SameAuthorizationIff(answer, s.streams[q].session);
  }

  /**
   * A revalidation leaves a live stream live exactly when it is authorized with a sound session that has the same
   * kind, key, brand, store and revision and still the permission; otherwise the stream is revoked, without its lease.
   */
  lemma RevalidatedIff(s: State, r: Req, answer: Answer)
    requires Inv(s) && IsLive(s, r)
    ensures var t, session := Step(s, ResumeRevalidate(r, answer)), s.streams[r].session;
            && (IsLive(t, r) <==>
                  && answer.Authorized? && SoundSession(answer.session)
                  && answer.session.kind == session.kind && answer.session.sessionKey == session.sessionKey
                  && answer.session.brandId == session.brandId && answer.session.storeId == session.storeId
                  && answer.session.revision == session.revision
                  && "realtime:subscribe" in answer.session.permissions)
            && (!IsLive(t, r) ==> t.streams[r].phase == Closing(Revoked) && r !in t.held)
  {
    ClosedBy(s, ResumeRevalidate(r, answer), r);
  }

  // ---------------------------------------------------------------- who is let in

  /** The headers and the query with which a request gets as far as the authorizer. */
  predicate SameOrigin(request: Request, expectedOrigin: string) {
    && request.origin == Some(expectedOrigin)
    && request.fetchSite == Some("same-origin") && request.fetchMode == Some("cors")
  }

  predicate PlainQuery(request: Request) { forall key <- request.query :: key == "storeId" }

  predicate PlainCursor(request: Request) {
    request.lastEventId.Some? ==>
      |request.lastEventId.value| <= 128 && forall c <- request.lastEventId.value :: 31 < c as int && c as int != 127
  }

  /** A request is asked about exactly if the transport accepts, and headers, query and cursor are as they must be. */
  lemma ArrivalIff(s: State, r: Req, request: Request)
    requires r !in s.admissions
    ensures var t := Step(s, Arrive(r, request));
            && r in t.admissions
            && (t.admissions[r] == AwaitAuthorize(request) <==>
                  && !s.draining && SameOrigin(request, s.config.expectedOrigin)
                  && PlainQuery(request) && PlainCursor(request))
            && (t.admissions[r] != AwaitAuthorize(request) ==>
                  t.admissions[r] == Rejected(
                    if s.draining then Denial(503, "realtime_draining")
                    else if !SameOrigin(request, s.config.expectedOrigin) then Denial(403, "realtime_origin_denied")
                    else if !PlainQuery(request) then Denial(400, "realtime_query_denied")
                    else Denial(400, "realtime_cursor_invalid")))
  {
    PlainQueryIff(request);
    PlainCursorIff(request);
  }

  lemma PlainQueryIff(request: Request)
    ensures PlainQuery(request) <==> request.query.Keys - {"storeId"} == {}
  {
    if PlainQuery(request) { assert request.query.Keys - {"storeId"} == {}; }
    if request.query.Keys - {"storeId"} == {} {
      forall key | key in request.query ensures key == "storeId" {
        assert key != "storeId" ==> key in request.query.Keys - {"storeId"};
      }
    }
  }

  lemma PlainCursorIff(request: Request)
    ensures PlainCursor(request) <==>
            !(request.lastEventId.Some?
              && (|request.lastEventId.value| > 128 || HasControlCharacter(request.lastEventId.value)))
  {
    if request.lastEventId.Some? {
      var id := request.lastEventId.value;
      if !HasControlCharacter(id) {
        forall c | c in id ensures 31 < c as int && c as int != 127 {
          var i :| 0 <= i < |id| && id[i] == c;
        }
      } else {
        var i :| 0 <= i < |id| && (id[i] <= 31 as char || id[i] == 127 as char);
        assert id[i] in id;
      }
    }
  }

  /** The session the authorizer gave may subscribe. */
  ghost predicate MaySubscribe(session: Session) {
    SoundSession(session) && session.kind.Merchant? && "realtime:subscribe" in session.permissions
  }

  /** A request for a store is for the very store of the session; a request for none is for any. */
  ghost predicate ForStoreOf(request: Request, session: Session) {
    "storeId" in request.query ==>
      request.query["storeId"].Text? && session.storeId == Some(request.query["storeId"].text)
  }

  ghost function Denied(request: Request, answer: Answer): Option<Denial> {
    match answer
    case Threw => Some(Denial(503, "realtime_authorizer_unavailable"))
    case Unauthenticated => Some(Denial(401, "realtime_unauthenticated"))
    case Forbidden => Some(Denial(403, "realtime_forbidden"))
    case Authorized(session) =>
      if !MaySubscribe(session) then Some(Denial(403, "realtime_forbidden"))
      else if !ForStoreOf(request, session) then Some(Denial(403, "realtime_scope_denied"))
      else None
  }

  /** The store is compared with a sound one, so that the expression for ids adds nothing. */
  lemma StoreIff(request: Request, session: Session)
    requires IsSafeSession(session) && "storeId" in request.query
    ensures var wanted := request.query["storeId"];
            wanted.Text? && IsUuidV7(wanted.text) && session.storeId == Some(wanted.text) <==>
            ForStoreOf(request, session)
  {
  }

  lemma AdmittedIff(request: Request, answer: Answer)
    ensures Admitted(request, answer) ==
            if Denied(request, answer).Some? then Err(Denied(request, answer).value) else Ok(answer.session)
  {
    if answer.Authorized? {
      SafeSessionIff(answer.session);
      if IsSafeSession(answer.session) && "storeId" in request.query { StoreIff(request, answer.session); }
    }
  }

  /** What becomes of an admission once the authorizer has answered, and once `acquire` has run. */
  lemma AnswerIff(s: State, r: Req, answer: Answer, newId: Option<string>)
    requires Enabled(s, ResumeAuthorize(r, answer, newId))
    ensures var request, t := s.admissions[r].request, Step(s, ResumeAuthorize(r, answer, newId));
            && r in t.admissions
            && (Denied(request, answer).Some? ==>
                  t.admissions[r] == Rejected(Denied(request, answer).value) && t.held == s.held)
            && (Denied(request, answer).None? ==>
                  && t.admissions[r].AwaitAcquire? && t.admissions[r].session == answer.session
                  && (t.admissions[r].grant.Granted? <==>
                        |Holders(s.held, answer.session.sessionKey)| < s.config.limit && newId.Some?))
  {
    var request := s.admissions[r].request;
    AdmittedIff(request, answer);
    match Admitted(request, answer)
    case Err(d) => assert ResumeAuthorizeStep(s, r, request, answer, newId) == Reject(s, r, DenialMetric(d), d);
    case Ok(_) =>
  }

  // ---------------------------------------------------------------- who gets a stream

  /** The stream a registration makes: live, unless the subscription threw or its response is gone. */
  ghost predicate FreshStream(t: Stream, session: Session, id: string, e: Event)
    requires e.ResumeAcquire?
  {
    && t.session == session && t.connectionId == id && t.frames == [Refresh] && t.endCalls == 0
    && t.phase == (if e.subscription.SubscribeThrew? then Closing(Revoked)
                   else if e.destroyed || e.writableEnded then Closing(Aborted) else Live)
  }

  /** What becomes of a lease: a stream if its id is a sound new one and the transport accepts; else it goes back. */
  ghost predicate Registers(s: State, t: State, e: Event, session: Session, id: string)
    requires e.ResumeAcquire?
  {
    if Matches(OpaqueKey(), id) && id !in s.active && !s.draining then
      && e.r in t.admissions && t.admissions[e.r].Streaming?
      && e.r in t.streams && FreshStream(t.streams[e.r], session, id, e)
    else
      && e.r !in t.streams && e.r !in t.held
      && e.r in t.admissions
      && t.admissions[e.r] == AwaitRelease(
           if Matches(OpaqueKey(), id) && id !in s.active then Denial(503, "realtime_draining")
           else Denial(503, "realtime_registry_unavailable"))
  }

  lemma RegisteredIff(s: State, e: Event)
    requires e.ResumeAcquire? && Enabled(s, e) && AdmissionsMatch(s)
    ensures var admission, t := s.admissions[e.r], Step(s, e);
            match admission.grant
            case Failed => t.admissions == s.admissions[e.r := Rejected(Denial(503, "realtime_registry_unavailable"))]
            case Refused => t.admissions == s.admissions[e.r := Rejected(Denial(429, "realtime_connection_limit"))]
            case Granted(id) => Registers(s, t, e, admission.session, id)
  {
    assert e.r !in s.streams by { assert !IsStreaming(s, e.r); }
    var admission := s.admissions[e.r];
    if admission.grant.Granted? { GrantRegisters(s, e, admission.session, admission.grant.connectionId); }
  }

  lemma GrantRegisters(s: State, e: Event, session: Session, id: string)
    requires e.ResumeAcquire? && e.r !in s.streams
    ensures Registers(s, ResumeAcquireStep(s, e, session, Granted(id)), e, session, id)
  {
    OpaqueKeyIff(id);
    if IsOpaqueKey(id) && id !in s.active && !s.draining {
      GrantStreams(s, e, session, id);
    } else {
      GrantReturns(s, e, session, id);
    }
  }

  lemma GrantStreams(s: State, e: Event, session: Session, id: string)
    requires e.ResumeAcquire? && IsOpaqueKey(id) && id !in s.active && !s.draining
    ensures var t := ResumeAcquireStep(s, e, session, Granted(id));
            && e.r in t.admissions && t.admissions[e.r].Streaming?
            && e.r in t.streams && FreshStream(t.streams[e.r], session, id, e)
  {
  }

  lemma GrantReturns(s: State, e: Event, session: Session, id: string)
    requires e.ResumeAcquire? && e.r !in s.streams && (!IsOpaqueKey(id) || id in s.active || s.draining)
    ensures var t := ResumeAcquireStep(s, e, session, Granted(id));
            && e.r !in t.streams && e.r !in t.held && e.r in t.admissions
            && t.admissions[e.r] == AwaitRelease(
                 if IsOpaqueKey(id) && id !in s.active then Denial(503, "realtime_draining")
                 else Denial(503, "realtime_registry_unavailable"))
  {
  }

  /** A request that is let in from the start, with an authorization and an id to go with it. */
  lemma AdmitsIff(c: Config, request: Request, session: Session, id: string)
    ensures RealtimeExamples.Admits(c, request, session, id) <==>
            && c.limit >= 1
            && SameOrigin(request, c.expectedOrigin) && PlainQuery(request) && PlainCursor(request)
            && MaySubscribe(session) && ForStoreOf(request, session) && Matches(OpaqueKey(), id)
  {
    PlainQueryIff(request);
    PlainCursorIff(request);
    AdmittedIff(request, Authorized(session));
    OpaqueKeyIff(id);
  }

  // ---------------------------------------------------------------- from request to stream

  /** Where the admission of a request stands, and with which session. */
  ghost predicate Follows(s: State, r: Req, request: Request) {
    && r in s.admissions
    && match s.admissions[r]
       case AwaitAuthorize(asked) => asked == request
       case AwaitAcquire(session, _) => MaySubscribe(session) && ForStoreOf(request, session)
       case Streaming =>
         r in s.streams && MaySubscribe(s.streams[r].session) && ForStoreOf(request, s.streams[r].session)
       case _ => true
  }

  lemma FollowsStep(s: State, e: Event, r: Req, request: Request)
    requires Inv(s) && Enabled(s, e) && Follows(s, r, request)
    ensures Follows(Step(s, e), r, request)
  {
    match e
    case ResumeAuthorize(q, answer, newId) =>
      if q == r { FollowsAnswer(s, r, answer, newId, request); } else { Elsewhere(s, e, r); }
    case ResumeAcquire(q, _, _, _) =>
      if q == r { FollowsLease(s, e, request); } else { Elsewhere(s, e, r); }
    case Arrive(_, _) =>
    case ResumeRelease(_) =>
    case _ => OthersKeep(s, e, r);
  }

  lemma FollowsAnswer(s: State, r: Req, answer: Answer, newId: Option<string>, request: Request)
    requires Enabled(s, ResumeAuthorize(r, answer, newId)) && Follows(s, r, request)
    ensures Follows(Step(s, ResumeAuthorize(r, answer, newId)), r, request)
  {
    AnswerIff(s, r, answer, newId);
  }

  lemma FollowsLease(s: State, e: Event, request: Request)
    requires e.ResumeAcquire? && Enabled(s, e) && AdmissionsMatch(s) && Follows(s, e.r, request)
    ensures Follows(Step(s, e), e.r, request)
  {
    RegisteredIff(s, e);
  }

  /** What an event leaves of the admission and the stream of `r`. */
  ghost predicate Kept(s: State, t: State, r: Req) {
    && (r in s.admissions ==> r in t.admissions && t.admissions[r] == s.admissions[r])
    && (r in s.streams ==> r in t.streams && t.streams[r].session == s.streams[r].session)
  }

  lemma Elsewhere(s: State, e: Event, r: Req)
    requires Enabled(s, e) && (e.ResumeAuthorize? || e.ResumeAcquire?) && e.r != r
    ensures Kept(s, Step(s, e), r)
  {
    if e.ResumeAuthorize? {
      var q, request := e.r, s.admissions[e.r].request;
      match Admitted(request, e.answer)
      case Err(d) => assert ResumeAuthorizeStep(s, q, request, e.answer, e.newId) == Reject(s, q, DenialMetric(d), d);
      case Ok(_) =>
    }
  }

  lemma OthersKeep(s: State, e: Event, r: Req)
    requires Inv(s) && Enabled(s, e) && !e.Arrive? && !e.ResumeAuthorize? && !e.ResumeAcquire? && !e.ResumeRelease?
    ensures Kept(s, Step(s, e), r)
  {
    if e.Publish? { PublishAdmissions(s, e.hint, e.failing); } else { OthersAdmissions(s, e); }
    if r in s.streams { StreamStep(s, e, r); }
  }

  lemma PublishAdmissions(s: State, h: Hint, failing: set<Req>)
    ensures PublishStep(s, h, failing).admissions == s.admissions
  {
  }

  lemma OthersAdmissions(s: State, e: Event)
    requires Enabled(s, e) && !e.Arrive? && !e.ResumeAuthorize? && !e.ResumeAcquire? && !e.ResumeRelease? && !e.Publish?
    ensures Step(s, e).admissions == s.admissions
  {
  }

  lemma {:induction false} FollowsRun(s: State, es: seq<Event>, r: Req, request: Request)
    requires Inv(s) && IsRun(s, es) && Follows(s, r, request)
    ensures Follows(Run(s, es), r, request)
    decreases |es|
  {
    if es != [] {
      FollowsStep(s, es[0], r, request);
      StepInv(s, es[0]);
      FollowsRun(Step(s, es[0]), es[1..], r, request);
    }
  }

  lemma ArrivalFollows(s: State, r: Req, request: Request)
    requires r !in s.admissions
    ensures Follows(ArriveStep(s, r, request), r, request)
  {
    ArrivalIff(s, r, request);
  }

  /**
   * In every run in which a request has arrived, an admission of it that the authorizer let pass, and the stream that
   * came of it, belong to a session that may subscribe, and to the store the request asked for if it asked for one.
   */
  lemma {:induction false} StoreAskedFor(s: State, es: seq<Event>, i: nat, r: Req, request: Request)
    requires Inv(s) && IsRun(s, es) && i < |es| && es[i] == Arrive(r, request)
    ensures Follows(Run(s, es), r, request)
    decreases |es|
  {
    StepInv(s, es[0]);
    if i == 0 {
      ArrivalFollows(s, r, request);
      FollowsRun(Step(s, es[0]), es[1..], r, request);
    } else {
      StoreAskedFor(Step(s, es[0]), es[1..], i - 1, r, request);
    }
  }

  /** The session of a stream, and of an admission that holds out for one, against the query of its request. */
  ghost predicate Matching(s: State, r: Req, request: Request) {
    && (r in s.streams ==>
          && s.streams[r].session.kind.Merchant? && "realtime:subscribe" in s.streams[r].session.permissions
          && ("storeId" in request.query ==>
                && request.query["storeId"].Text?
                && s.streams[r].session.storeId == Some(request.query["storeId"].text)))
    && (r in s.admissions && s.admissions[r].AwaitAcquire? && "storeId" in request.query ==>
          && request.query["storeId"].Text?
          && s.admissions[r].session.storeId == Some(request.query["storeId"].text))
  }

  lemma FollowsMatching(s: State, r: Req, request: Request)
    requires AdmissionsMatch(s) && Follows(s, r, request)
    ensures Matching(s, r, request)
  {
    assert r in s.streams ==> IsStreaming(s, r);
  }

  /** In every run from the start the fields of a session agree with the query of the request it was admitted for. */
  lemma StreamOfRequest(c: Config, es: seq<Event>, i: nat, r: Req, request: Request)
    requires IsRun(Init(c), es) && i < |es| && es[i] == Arrive(r, request)
    ensures Matching(Run(Init(c), es), r, request)
  {
    InitInv(c);
    StoreAskedFor(Init(c), es, i, r, request);
    RunInv(Init(c), es);
    FollowsMatching(Run(Init(c), es), r, request);
  }

  // ---------------------------------------------------------------- what is reported

  /** The metric of an admission that has just come to an end, or to its stream. */
  function AdmissionMetric(t: State, r: Req): seq<Metric> {
    if r !in t.admissions then []
    else
      match t.admissions[r]
      case Rejected(d) =>
        [if d.status == 503 then AdmissionUnavailable
         else if d.status == 429 then AdmissionLimited else AdmissionDenied]
      case Streaming => if IsLive(t, r) then [AdmissionAccepted] else []
      case _ => []
  }

  /** What an event reports. */
  ghost function Reported(s: State, e: Event): seq<Metric>
    requires Enabled(s, e)
  {
    match e
    case Publish(h, failing) =>
      [if exists r :: r in s.streams && Receives(s, r, h, failing) then DeliveryDelivered else DeliveryRejected]
    case CloseTail(r) => [Lifecycle(s.streams[r].phase.result)]
    case Arrive(r, _) => AdmissionMetric(Step(s, e), r)
    case ResumeAuthorize(r, _, _) => AdmissionMetric(Step(s, e), r)
    case ResumeAcquire(r, _, _, _) => AdmissionMetric(Step(s, e), r)
    case ResumeRelease(r) => AdmissionMetric(Step(s, e), r)
    case _ => []
  }

  /** In every run an event reports exactly that. */
  lemma ReportedInRuns(c: Config, es: seq<Event>, e: Event)
    requires IsRun(Init(c), es) && Enabled(Run(Init(c), es), e)
    ensures var s := Run(Init(c), es); Step(s, e).metrics == s.metrics + Reported(s, e)
  {
    RunAccounted(Init(c), es);
    StepReported(Run(Init(c), es), e);
  }

  lemma StepReported(s: State, e: Event)
    requires ReleasesUnavailable(s) && Enabled(s, e)
    ensures Step(s, e).metrics == s.metrics + Reported(s, e)
  {
    match e
    case Publish(h, failing) => PublishReported(s, h, failing);
    case ResumeAuthorize(r, answer, newId) => AnswerReported(s, r, s.admissions[r].request, answer, newId);
    case ResumeAcquire(r, _, _, _) => AcquireReported(s, e, s.admissions[r].session, s.admissions[r].grant);
    case _ => OthersReported(s, e);
  }

  lemma PublishReported(s: State, h: Hint, failing: set<Req>)
    ensures PublishStep(s, h, failing).metrics == s.metrics + Reported(s, Publish(h, failing))
  {
    SafeHintIff(h);
    if IsSafeHint(h) {
      var hit := Targets(s, h) - failing;
      assert forall r :: r in hit <==> r in s.streams && Receives(s, r, h, failing);
      if r :| r in hit { assert r in s.streams && Receives(s, r, h, failing); }
    }
  }

  lemma AnswerReported(s: State, r: Req, request: Request, answer: Answer, newId: Option<string>)
    ensures var t := ResumeAuthorizeStep(s, r, request, answer, newId); t.metrics == s.metrics + AdmissionMetric(t, r)
  {
    match Admitted(request, answer)
    case Err(d) => assert ResumeAuthorizeStep(s, r, request, answer, newId) == Reject(s, r, DenialMetric(d), d);
    case Ok(_) =>
  }

  lemma AcquireReported(s: State, e: Event, session: Session, grant: Grant)
    requires e.ResumeAcquire?
    ensures var t := ResumeAcquireStep(s, e, session, grant); t.metrics == s.metrics + AdmissionMetric(t, e.r)
  {
    match grant
    case Failed =>
      assert ResumeAcquireStep(s, e, session, grant) == Reject(s, e.r, AdmissionUnavailable, REGISTRY_UNAVAILABLE);
    case Refused =>
      assert ResumeAcquireStep(s, e, session, grant) == Reject(s, e.r, AdmissionLimited, CONNECTION_LIMIT);
    case Granted(id) => GrantReported(s, e, session, id);
  }

  lemma GrantReported(s: State, e: Event, session: Session, id: string)
    requires e.ResumeAcquire?
    ensures var t := ResumeAcquireStep(s, e, session, Granted(id)); t.metrics == s.metrics + AdmissionMetric(t, e.r)
  {
    if IsOpaqueKey(id) && id !in s.active && !s.draining { StreamReported(s, Registered(s, e, session, id), e); }
  }

  lemma StreamReported(s: State, u: State, e: Event)
    requires e.ResumeAcquire? && IsLive(u, e.r) && IsStreaming(u, e.r) && u.metrics == s.metrics
    ensures forall why :: Close(u, {e.r}, why).metrics == s.metrics + AdmissionMetric(Close(u, {e.r}, why), e.r)
    ensures Emit(u, AdmissionAccepted).metrics == s.metrics + AdmissionMetric(Emit(u, AdmissionAccepted), e.r)
  {
  }

  lemma OthersReported(s: State, e: Event)
    requires Enabled(s, e) && !e.Publish? && !e.ResumeAuthorize? && !e.ResumeAcquire?
    requires e.ResumeRelease? ==> s.admissions[e.r].denial.status == 503
    ensures Step(s, e).metrics == s.metrics + Reported(s, e)
  {
  }
}
