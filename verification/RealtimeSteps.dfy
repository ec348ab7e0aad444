/** Every step of the realtime protocol keeps the invariant. */
module RealtimeSteps {
  import opened Common
  import opened RealtimeTypes
  import opened RealtimeProtocol
  import opened RealtimeInvariants

  // ---------------------------------------------------------------- admissions

  /** What a step that touches only admissions and leases leaves alone. */
  lemma StreamsFrame(s: State, t: State)
    requires Inv(s)
    requires t.streams == s.streams && t.active == s.active && t.metrics == s.metrics && t.published == s.published
    ensures ActiveMatches(t) && MetricsMatch(t) && StreamsOk(t) && PublishedSafe(t)
  {
    TouchActive(s, t);
    forall w: CloseResult ensures EndedWith(t, w) == EndedWith(s, w) {}
  }

  /** Admissions, streams and leases agree about who holds what. */
  ghost predicate Agreement(s: State) { LeasesMatch(s) && AdmissionsMatch(s) && SessionsPermitted(s) }

  lemma MoveAgreement(s: State, r: Req, a: Admission)
    requires Agreement(s) && r !in s.streams && r !in Suspended(s)
    requires !a.Streaming? && (a.AwaitAcquire? ==> !a.grant.Granted? && Permitted(a.session))
    ensures Agreement(s.(admissions := s.admissions[r := a]))
  {
    var t := s.(admissions := s.admissions[r := a]);
    assert LiveStreams(t) == LiveStreams(s) && Suspended(t) == Suspended(s);
    forall q | q in t.held ensures HoldsOwn(t, q) { assert q in s.held ==> HoldsOwn(s, q); }
  }

  /** An admission that holds no lease moves on without getting one. */
  lemma MoveInv(s: State, r: Req, a: Admission)
    requires Inv(s) && r !in s.streams && r !in Suspended(s)
    requires !a.Streaming? && (a.AwaitAcquire? ==> !a.grant.Granted? && Permitted(a.session))
    ensures Inv(s.(admissions := s.admissions[r := a]))
  {
    var t := s.(admissions := s.admissions[r := a]);
    StreamsFrame(s, t);
    LimitsFrame(s, t);
    MoveAgreement(s, r, a);
  }

  lemma EmitInv(s: State, m: Metric)
    requires Inv(s) && !m.Lifecycle?
    ensures Inv(Emit(s, m))
  {
    EmitStructure(s, m);
  }

  lemma RejectInv(s: State, r: Req, m: Metric, d: Denial)
    requires Inv(s) && r !in s.streams && r !in Suspended(s) && !m.Lifecycle?
    ensures Inv(Reject(s, r, m, d))
  {
    MoveInv(s, r, Rejected(d));
    EmitInv(s.(admissions := s.admissions[r := Rejected(d)]), m);
  }

  function WithLease(s: State, r: Req, session: Session, id: string): State {
    s.(admissions := s.admissions[r := AwaitAcquire(session, Granted(id))],
       held := s.held[r := Held(session.sessionKey, id)])
  }

  lemma GrantAgreement(s: State, r: Req, session: Session, id: string)
    requires Agreement(s) && r !in s.streams && r !in Suspended(s) && Permitted(session)
    ensures Agreement(WithLease(s, r, session, id)) && r !in s.held
  {
    var t := WithLease(s, r, session, id);
    assert LiveStreams(t) == LiveStreams(s) && Suspended(t) == Suspended(s) + {r};
    forall q | q in t.held ensures HoldsOwn(t, q) { assert q in s.held ==> HoldsOwn(s, q); }
  }

  lemma GrantDistinct(s: State, t: State, r: Req, lease: Held)
    requires IdsDistinct(s) && r !in s.held && t.held == s.held[r := lease]
    requires forall q <- Holders(s.held, lease.sessionKey) :: s.held[q].connectionId != lease.connectionId
    ensures IdsDistinct(t)
  {
    forall q | q in s.held && s.held[q].sessionKey == lease.sessionKey ensures s.held[q] != lease {
      assert q in Holders(s.held, lease.sessionKey);
    }
    forall p, q | SameLease(t.held, p, q) ensures p == q {
      if p in s.held && q in s.held { assert p != r && q != r && SameLease(s.held, p, q); }
    }
  }

  lemma GrantLimits(s: State, t: State, r: Req, lease: Held)
    requires LimitKept(s) && |Holders(s.held, lease.sessionKey)| < s.config.limit
    requires r !in s.held && t.held == s.held[r := lease] && t.config == s.config
    ensures LimitKept(t)
  {
    forall key: string ensures |Holders(t.held, key)| <= t.config.limit { GrantLimit(s, t, r, lease, key); }
  }

  lemma GrantLimit(s: State, t: State, r: Req, lease: Held, key: string)
    requires |Holders(s.held, key)| + (if key == lease.sessionKey then 1 else 0) <= s.config.limit
    requires r !in s.held && t.held == s.held[r := lease] && t.config == s.config
    ensures |Holders(t.held, key)| <= t.config.limit
  {
    assert Holders(t.held, key) == Holders(s.held, key) + (if key == lease.sessionKey then {r} else {});
  }

  /** The registry grants a lease: the count for the session was below the limit and the id is new to it. */
  lemma GrantInv(s: State, r: Req, session: Session, id: string)
    requires Inv(s) && r !in s.streams && r !in Suspended(s) && Permitted(session)
    requires |Holders(s.held, session.sessionKey)| < s.config.limit
    requires forall q <- Holders(s.held, session.sessionKey) :: s.held[q].connectionId != id
    ensures Inv(WithLease(s, r, session, id))
  {
    var t := WithLease(s, r, session, id);
    StreamsFrame(s, t);
    GrantAgreement(s, r, session, id);
    GrantDistinct(s, t, r, Held(session.sessionKey, id));
    GrantLimits(s, t, r, Held(session.sessionKey, id));
  }

  function WithoutLease(s: State, r: Req, d: Denial): State {
    s.(admissions := s.admissions[r := AwaitRelease(d)], held := s.held - {r})
  }

  lemma ReturnLeases(s: State, r: Req, d: Denial)
    requires LeasesMatch(s) && AdmissionsMatch(s) && r in Suspended(s)
    ensures LeasesMatch(WithoutLease(s, r, d)) && AdmissionsMatch(WithoutLease(s, r, d))
  {
    var t := WithoutLease(s, r, d);
    assert r !in s.streams;
    assert LiveStreams(t) == LiveStreams(s);
    assert Suspended(t) == Suspended(s) - {r};
    forall q | q in t.held ensures HoldsOwn(t, q) { assert q in s.held ==> HoldsOwn(s, q); }
  }

  lemma ReturnAgreement(s: State, r: Req, d: Denial)
    requires Agreement(s) && r in Suspended(s)
    ensures Agreement(WithoutLease(s, r, d))
  {
    ReturnLeases(s, r, d);
    assert SessionsPermitted(WithoutLease(s, r, d));
  }

  /** The guard after `acquire` gives the lease back. */
  lemma ReturnInv(s: State, r: Req, d: Denial)
    requires Inv(s) && r in Suspended(s)
    ensures Inv(WithoutLease(s, r, d))
  {
    StreamsFrame(s, WithoutLease(s, r, d));
    LimitsFrame(s, WithoutLease(s, r, d));
    ReturnAgreement(s, r, d);
  }

  function Registered(s: State, e: Event, session: Session, id: string): State
    requires e.ResumeAcquire?
  {
    s.(admissions := s.admissions[e.r := Streaming],
       streams := s.streams[e.r := NewStream(s, session, id, e)],
       active := s.active[id := e.r])
  }

  /** The lease passes from the suspended admission to the stream. */
  lemma RegisterInv(s: State, e: Event, session: Session, id: string)
    requires Inv(s) && e.ResumeAcquire? && e.r in s.admissions
    requires s.admissions[e.r] == AwaitAcquire(session, Granted(id)) && id !in s.active
    ensures Inv(Registered(s, e, session, id))
  {
    RegisterAgreement(s, e, session, id);
    RegisterActive(s, e, session, id);
    LimitsFrame(s, Registered(s, e, session, id));
    RegisterMetrics(s, e, session, id);
    RegisterStreams(s, e, session, id);
  }

  lemma RegisterStreams(s: State, e: Event, session: Session, id: string)
    requires StreamsOk(s) && PublishedSafe(s) && e.ResumeAcquire?
    ensures StreamsOk(Registered(s, e, session, id)) && PublishedSafe(Registered(s, e, session, id))
  {
    NewStreamOk(s, session, id, e);
  }

  lemma NewStreamOk(s: State, session: Session, id: string, e: Event)
    requires e.ResumeAcquire?
    ensures StreamOk(s.published, NewStream(s, session, id, e))
  {
    assert s.published[|s.published|..|s.published|] == [];
    assert [Refresh][..0] == [];
  }

  lemma RegisterLeases(s: State, e: Event, session: Session, id: string)
    requires LeasesMatch(s) && AdmissionsMatch(s) && e.ResumeAcquire? && e.r in s.admissions
    requires s.admissions[e.r] == AwaitAcquire(session, Granted(id))
    ensures LeasesMatch(Registered(s, e, session, id)) && AdmissionsMatch(Registered(s, e, session, id))
    ensures e.r !in s.streams
  {
    var t := Registered(s, e, session, id);
    assert e.r in Suspended(s) && e.r !in s.streams;
    assert LiveStreams(t) == LiveStreams(s) + {e.r};
    assert Suspended(t) == Suspended(s) - {e.r};
    assert HoldsOwn(s, e.r);
    forall q | q in t.held ensures HoldsOwn(t, q) { assert q in s.held ==> HoldsOwn(s, q); }
  }

  lemma RegisterAgreement(s: State, e: Event, session: Session, id: string)
    requires Agreement(s) && e.ResumeAcquire? && e.r in s.admissions
    requires s.admissions[e.r] == AwaitAcquire(session, Granted(id))
    ensures Agreement(Registered(s, e, session, id)) && e.r !in s.streams
  {
    RegisterLeases(s, e, session, id);
    assert SessionsPermitted(Registered(s, e, session, id));
  }

  lemma RegisterMetrics(s: State, e: Event, session: Session, id: string)
    requires MetricsMatch(s) && e.ResumeAcquire? && e.r !in s.streams
    ensures MetricsMatch(Registered(s, e, session, id))
  {
    forall w: CloseResult ensures EndedWith(Registered(s, e, session, id), w) == EndedWith(s, w) {}
  }

  lemma RegisterActive(s: State, e: Event, session: Session, id: string)
    requires ActiveMatches(s) && e.ResumeAcquire? && e.r !in s.streams && id !in s.active
    ensures ActiveMatches(Registered(s, e, session, id))
  {
    var t := Registered(s, e, session, id);
    forall r | IsLive(t, r)
      ensures t.streams[r].connectionId in t.active && t.active[t.streams[r].connectionId] == r
    {
      if r != e.r { assert IsLive(s, r); }
    }
  }

  // ---------------------------------------------------------------- streams

  lemma CloseInv(s: State, rs: set<Req>, why: CloseResult)
    requires Inv(s)
    ensures Inv(Close(s, rs, why))
  {
    CloseStructure(s, rs, why);
    forall r | r in s.streams && r in rs && s.streams[r].phase.Live?
      ensures StreamOk(s.published, Shut(s.streams[r], why, |s.published|))
    {
      ShutOk(s.published, s.streams[r], why);
    }
  }

  lemma PublishInv(s: State, h: Hint, failing: set<Req>)
    requires Inv(s) && IsJsonText(h.json)
    ensures Inv(PublishStep(s, h, failing))
  {
    if !IsSafeHint(h) {
      EmitInv(s, DeliveryRejected);
    } else {
      var hit := Targets(s, h);
      var d := Deliver(s, h, hit, failing);
      var p := d.(published := s.published + [h]);
      WriteStructure(s, hit - failing, HintFrame(h));
      CloseStructure(Write(s, hit - failing, HintFrame(h)), hit * failing, Aborted);
      PublishedStructure(d, s.published + [h]);
      forall r | r in p.streams ensures StreamOk(p.published, p.streams[r]) {
        DeliveredStream(s, h, failing, r);
      }
      EmitInv(p, if |hit - failing| > 0 then DeliveryDelivered else DeliveryRejected);
    }
  }

  /** What a publication does to one stream. */
  lemma DeliveredStream(s: State, h: Hint, failing: set<Req>, r: Req)
    requires StreamsOk(s) && r in s.streams
    ensures StreamOk(s.published + [h], Deliver(s, h, Targets(s, h), failing).streams[r])
  {
    var t := s.streams[r];
    var u := Deliver(s, h, Targets(s, h), failing).streams[r];
    if r in Targets(s, h) && r !in failing {
      HintOk(s.published, t, h);
      assert u == t.(frames := t.frames + [HintFrame(h)]);
    } else if r in Targets(s, h) {
      ShutOk(s.published, t, Aborted);
      SkipOk(s.published, Shut(t, Aborted, |s.published|), h);
      assert u == Shut(t, Aborted, |s.published|);
    } else {
      SkipOk(s.published, t, h);
      assert u == t;
    }
  }

  lemma PublishedStructure(s: State, published: seq<Hint>)
    requires Structure(s)
    ensures Structure(s.(published := published))
  {
    forall w: CloseResult ensures EndedWith(s.(published := published), w) == EndedWith(s, w) {}
    TouchStructure(s, s.(published := published));
  }

  lemma HeartbeatInv(s: State, r: Req)
    requires Inv(s) && IsLive(s, r)
    ensures Inv(Write(s, {r}, Heartbeat))
  {
    WriteStructure(s, {r}, Heartbeat);
    HeartbeatStreams(s, r);
  }

  lemma HeartbeatStreams(s: State, r: Req)
    requires StreamsOk(s) && IsLive(s, r)
    ensures StreamsOk(Write(s, {r}, Heartbeat))
  {
    HeartbeatOk(s.published, s.streams[r]);
  }

  /** A reconnect is written to some live streams that are all closed in the same stretch. */
  lemma AnnouncedCloseInv(s: State, told: set<Req>, rs: set<Req>, reason: ReconnectReason)
    requires Inv(s) && told <= rs && told <= LiveStreams(s)
    ensures Inv(Close(Write(s, told, Reconnect(reason)), rs, if reason == ForLifetime then Expired else Drained))
  {
    WriteStructure(s, told, Reconnect(reason));
    CloseStructure(Write(s, told, Reconnect(reason)), rs, if reason == ForLifetime then Expired else Drained);
    AnnouncedCloseStreams(s, told, rs, reason);
  }

  lemma AnnouncedCloseStreams(s: State, told: set<Req>, rs: set<Req>, reason: ReconnectReason)
    requires StreamsOk(s) && told <= rs && told <= LiveStreams(s)
    ensures StreamsOk(Close(Write(s, told, Reconnect(reason)), rs, if reason == ForLifetime then Expired else Drained))
  {
    var why := if reason == ForLifetime then Expired else Drained;
    var c := Close(Write(s, told, Reconnect(reason)), rs, why);
    forall r | r in c.streams ensures StreamOk(c.published, c.streams[r]) {
      var t := s.streams[r];
      if r in told {
        ReconnectOk(s.published, t, reason);
      } else if r in rs && t.phase.Live? {
        ShutOk(s.published, t, why);
      }
    }
  }

  lemma DrainInv(s: State, failing: set<Req>)
    requires Inv(s)
    ensures Inv(BeginDrainStep(s, failing))
  {
    if !s.draining {
      var d := s.(draining := true);
      StreamsFrame(s, d);
      TouchStructure(s, d);
      AnnouncedCloseInv(d, Writable(s) - failing, LiveStreams(s) - Writable(s) * failing, ForDeployment);
    }
  }

  function Destroy(s: State, r: Req): State
    requires r in s.streams
  {
    s.(streams := s.streams[r := s.streams[r].(destroyed := true)])
  }

  lemma DestroyedInv(s: State, r: Req)
    requires Inv(s) && r in s.streams
    ensures Inv(Destroy(s, r))
  {
    DestroyedMetrics(s, r);
    DestroyedStreams(s, r);
    TouchStructure(s, Destroy(s, r));
  }

  lemma DestroyedMetrics(s: State, r: Req)
    requires MetricsMatch(s) && r in s.streams
    ensures MetricsMatch(Destroy(s, r))
  {
    forall w: CloseResult ensures EndedWith(Destroy(s, r), w) == EndedWith(s, w) {}
  }

  lemma DestroyedStreams(s: State, r: Req)
    requires StreamsOk(s) && r in s.streams
    ensures StreamsOk(Destroy(s, r))
  {
    assert StreamOk(s.published, s.streams[r]);
  }

  lemma CloseTailMetrics(s: State, r: Req)
    requires MetricsMatch(s) && r in s.streams && s.streams[r].phase.Closing?
    ensures MetricsMatch(CloseTailStep(s, r))
  {
    var t := CloseTailStep(s, r);
    forall w: CloseResult ensures Count(t.metrics, Lifecycle(w)) == |EndedWith(t, w)| { CloseTailMetric(s, r, w); }
  }

  lemma CloseTailMetric(s: State, r: Req, w: CloseResult)
    requires Count(s.metrics, Lifecycle(w)) == |EndedWith(s, w)|
    requires r in s.streams && s.streams[r].phase.Closing?
    ensures var t := CloseTailStep(s, r); Count(t.metrics, Lifecycle(w)) == |EndedWith(t, w)|
  {
    CloseTailEnded(s, r, w);
    SizeMore(EndedWith(s, w), EndedWith(CloseTailStep(s, r), w), r, w == s.streams[r].phase.result);
    OneMore(s.metrics, Lifecycle(s.streams[r].phase.result), Lifecycle(w));
  }

  lemma CloseTailEnded(s: State, r: Req, w: CloseResult)
    requires r in s.streams && s.streams[r].phase.Closing?
    ensures r !in EndedWith(s, w)
    ensures EndedWith(CloseTailStep(s, r), w) == EndedWith(s, w) + (if w == s.streams[r].phase.result then {r} else {})
  {
  }

  lemma SizeMore(a: set<Req>, b: set<Req>, r: Req, more: bool)
    requires r !in a && b == a + (if more then {r} else {})
    ensures |b| == |a| + (if more then 1 else 0)
  {
    if !more { assert b == a; }
  }

  lemma OneMore(ms: seq<Metric>, x: Metric, m: Metric)
    ensures Count(ms + [x], m) == Count(ms, m) + (if x == m then 1 else 0)
  {
    assert (ms + [x])[..|ms|] == ms;
  }

  lemma CloseTailStreams(s: State, r: Req)
    requires StreamsOk(s) && r in s.streams && s.streams[r].phase.Closing?
    ensures StreamsOk(CloseTailStep(s, r))
  {
    assert StreamOk(s.published, s.streams[r]);
  }

  lemma CloseTailInv(s: State, r: Req)
    requires Inv(s) && r in s.streams && s.streams[r].phase.Closing?
    ensures Inv(CloseTailStep(s, r))
  {
    CloseTailMetrics(s, r);
    CloseTailStreams(s, r);
    TouchStructure(s, CloseTailStep(s, r));
  }

  // ---------------------------------------------------------------- steps

  lemma ArriveInv(s: State, r: Req, request: Request)
    requires Inv(s) && r !in s.admissions
    ensures Inv(ArriveStep(s, r, request))
  {
    if s.draining { RejectInv(s, r, AdmissionUnavailable, DRAINING); }
    else {
      match Gate(request, s.config.expectedOrigin)
      case Some(d) => RejectInv(s, r, AdmissionDenied, d);
      case None => MoveInv(s, r, AwaitAuthorize(request));
    }
  }

  lemma ResumeAuthorizeInv(s: State, r: Req, request: Request, answer: Answer, newId: Option<string>)
    requires Inv(s) && r !in s.streams && r !in Suspended(s) && Admissible(s, ResumeAuthorize(r, answer, newId))
    ensures Inv(ResumeAuthorizeStep(s, r, request, answer, newId))
  {
    match Admitted(request, answer)
    case Err(d) => RejectInv(s, r, DenialMetric(d), d);
    case Ok(session) =>
      if |Holders(s.held, session.sessionKey)| >= s.config.limit { MoveInv(s, r, AwaitAcquire(session, Refused)); }
      else if newId.None? { MoveInv(s, r, AwaitAcquire(session, Failed)); }
      else { GrantInv(s, r, session, newId.value); }
  }

  lemma ResumeAcquireInv(s: State, e: Event, session: Session, grant: Grant)
    requires Inv(s) && e.ResumeAcquire? && e.r in s.admissions && s.admissions[e.r] == AwaitAcquire(session, grant)
    ensures Inv(ResumeAcquireStep(s, e, session, grant))
  {
    assert e.r !in s.streams;
    match grant
    case Failed => RejectInv(s, e.r, AdmissionUnavailable, REGISTRY_UNAVAILABLE);
    case Refused => RejectInv(s, e.r, AdmissionLimited, CONNECTION_LIMIT);
    case Granted(id) =>
      assert e.r in Suspended(s);
      if !IsOpaqueKey(id) || id in s.active { ReturnInv(s, e.r, REGISTRY_UNAVAILABLE); }
      else if s.draining { ReturnInv(s, e.r, DRAINING); }
      else {
        RegisterInv(s, e, session, id);
        var g := Registered(s, e, session, id);
        if e.subscription.SubscribeThrew? { CloseInv(g, {e.r}, Revoked); }
        else if e.destroyed || e.writableEnded { CloseInv(g, {e.r}, Aborted); }
        else { EmitInv(g, AdmissionAccepted); }
      }
  }

  /** Every step keeps the invariant. */
  lemma StepInv(s: State, e: Event)
    requires Inv(s) && Enabled(s, e) && Admissible(s, e)
    ensures Inv(Step(s, e))
  {
    match e
    case Arrive(r, request) => ArriveInv(s, r, request);
    case ResumeAuthorize(r, answer, newId) => ResumeAuthorizeInv(s, r, s.admissions[r].request, answer, newId);
    case ResumeAcquire(r, _, _, _) => ResumeAcquireInv(s, e, s.admissions[r].session, s.admissions[r].grant);
    case ResumeRelease(r) => RejectInv(s, r, AdmissionUnavailable, s.admissions[r].denial);
    case Publish(h, failing) => PublishInv(s, h, failing);
    case HeartbeatTick(r) => if s.streams[r].phase.Live? { HeartbeatInv(s, r); }
    case LifetimeOver(r) => AnnouncedCloseInv(s, {r} * Writable(s), {r}, ForLifetime);
    case ResumeRevalidate(r, answer) => CloseInv(s, {r}, Revoked);
    case CloseEvent(r) => CloseInv(s, {r}, Aborted);
    case Destroyed(r) => DestroyedInv(s, r);
    case BeginDrain(failing) => DrainInv(s, failing);
    case CloseTail(r) => CloseTailInv(s, r);
  }
}
