/** The metrics of the realtime transport account for every admission it turned away. */
module RealtimeMetrics {
  import opened Common
  import opened RealtimeTypes
  import opened RealtimeProtocol
  import opened RealtimeInvariants
  import opened RealtimeSteps

  predicate IsRejection(m: Metric) { m == AdmissionDenied || m == AdmissionLimited || m == AdmissionUnavailable }

  predicate IsRejected(s: State, r: Req) { r in s.admissions && s.admissions[r].Rejected? }

  /** The admissions turned away with a denial that is reported as `m`. */
  function RejectedAs(s: State, m: Metric): set<Req> {
    set r | r in s.admissions && s.admissions[r].Rejected? && DenialMetric(s.admissions[r].denial) == m
  }

  ghost predicate RejectionsCounted(s: State) {
    forall m {:trigger RejectedAs(s, m)} | IsRejection(m) :: Count(s.metrics, m) == |RejectedAs(s, m)|
  }

  /** An admission that waits for the release of an unusable lease will be answered with 503. */
  ghost predicate ReleasesUnavailable(s: State) {
    forall r {:trigger s.admissions[r]} | r in s.admissions && s.admissions[r].AwaitRelease? ::
      s.admissions[r].denial.status == 503
  }

  ghost predicate Accounted(s: State) { RejectionsCounted(s) && ReleasesUnavailable(s) }

  lemma RejectAccounted(s: State, r: Req, d: Denial)
    requires Accounted(s) && !IsRejected(s, r)
    ensures Accounted(Reject(s, r, DenialMetric(d), d))
  {
    var t := Reject(s, r, DenialMetric(d), d);
    forall m | IsRejection(m) ensures Count(t.metrics, m) == |RejectedAs(t, m)| {
      RejectCounted(s, r, d, m);
    }
  }

  lemma RejectCounted(s: State, r: Req, d: Denial, m: Metric)
    requires Count(s.metrics, m) == |RejectedAs(s, m)| && !IsRejected(s, r)
    ensures var t := Reject(s, r, DenialMetric(d), d); Count(t.metrics, m) == |RejectedAs(t, m)|
  {
    var t := Reject(s, r, DenialMetric(d), d);
    OneMore(s.metrics, DenialMetric(d), m);
    assert RejectedAs(t, m) == RejectedAs(s, m) + (if m == DenialMetric(d) then {r} else {});
  }

  /** At most one metric more, and none that reports a rejection. */
  predicate NoRejection(before: seq<Metric>, after: seq<Metric>) {
    || after == before
    || (|after| == |before| + 1 && after == before + [after[|before|]] && !IsRejection(after[|before|]))
  }

  lemma SameCount(before: seq<Metric>, after: seq<Metric>, m: Metric)
    requires NoRejection(before, after) && IsRejection(m)
    ensures Count(after, m) == Count(before, m)
  {
    if after != before { OneMore(before, after[|before|], m); }
  }

  /** A step that rejects nothing: at most one other metric, and the admission of `r` may move. */
  ghost predicate Moves(s: State, t: State, r: Req) {
    && NoRejection(s.metrics, t.metrics)
    && !IsRejected(s, r) && !IsRejected(t, r)
    && (forall q | q != r :: q in t.admissions <==> q in s.admissions)
    && (forall q | q != r && q in s.admissions :: t.admissions[q] == s.admissions[q])
    && (r in t.admissions && t.admissions[r].AwaitRelease? ==> t.admissions[r].denial.status == 503)
  }

  lemma MovesAccounted(s: State, t: State, r: Req)
    requires Accounted(s) && Moves(s, t, r)
    ensures Accounted(t)
  {
    forall m | IsRejection(m) ensures Count(t.metrics, m) == |RejectedAs(t, m)| {
      assert RejectedAs(t, m) == RejectedAs(s, m);
      SameCount(s.metrics, t.metrics, m);
    }
  }

  lemma QuietAccounted(s: State, t: State)
    requires Accounted(s) && t.admissions == s.admissions
    requires NoRejection(s.metrics, t.metrics)
    ensures Accounted(t)
  {
    forall m | IsRejection(m) ensures Count(t.metrics, m) == |RejectedAs(t, m)| {
      assert RejectedAs(t, m) == RejectedAs(s, m);
      SameCount(s.metrics, t.metrics, m);
    }
  }

  lemma ArriveAccounted(s: State, r: Req, request: Request)
    requires Accounted(s) && r !in s.admissions
    ensures Accounted(ArriveStep(s, r, request))
  {
    if s.draining {
      RejectAccounted(s, r, DRAINING);
    } else {
      var gate := Gate(request, s.config.expectedOrigin);
      if gate.Some? {
        assert gate.value in {ORIGIN_DENIED, QUERY_DENIED, CURSOR_INVALID};
        RejectAccounted(s, r, gate.value);
      } else {
        MovesAccounted(s, ArriveStep(s, r, request), r);
      }
    }
  }

  lemma AuthorizeAccounted(s: State, r: Req, request: Request, answer: Answer, newId: Option<string>)
    requires Accounted(s) && r in s.admissions && s.admissions[r].AwaitAuthorize?
    ensures Accounted(ResumeAuthorizeStep(s, r, request, answer, newId))
  {
    match Admitted(request, answer)
    case Err(d) => RejectAccounted(s, r, d);
    case Ok(session) => MovesAccounted(s, ResumeAuthorizeStep(s, r, request, answer, newId), r);
  }

  lemma AcquireAccounted(s: State, e: Event, session: Session, grant: Grant)
    requires Accounted(s) && e.ResumeAcquire?
    requires e.r in s.admissions && s.admissions[e.r] == AwaitAcquire(session, grant)
    ensures Accounted(ResumeAcquireStep(s, e, session, grant))
  {
    match grant
    case Failed => RejectAccounted(s, e.r, REGISTRY_UNAVAILABLE);
    case Refused => RejectAccounted(s, e.r, CONNECTION_LIMIT);
    case Granted(_) =>
      var t := ResumeAcquireStep(s, e, session, grant);
      if t.metrics != s.metrics { assert t.metrics == s.metrics + [AdmissionAccepted]; }
      MovesAccounted(s, t, e.r);
  }

  lemma OthersAccounted(s: State, e: Event)
    requires Accounted(s) && Enabled(s, e)
    requires !e.Arrive? && !e.ResumeAuthorize? && !e.ResumeAcquire? && !e.ResumeRelease?
    ensures Accounted(Step(s, e))
  {
    match e
    case Publish(h, failing) => PublishAccounted(s, h, failing);
    case CloseTail(r) => QuietAccounted(s, CloseTailStep(s, r));
    case LifetimeOver(r) => QuietAccounted(s, LifetimeStep(s, r));
    case BeginDrain(failing) => QuietAccounted(s, BeginDrainStep(s, failing));
    case HeartbeatTick(_) => QuietAccounted(s, Step(s, e));
    case ResumeRevalidate(_, _) => QuietAccounted(s, Step(s, e));
    case CloseEvent(_) => QuietAccounted(s, Step(s, e));
    case Destroyed(_) => QuietAccounted(s, Step(s, e));
  }

  lemma PublishAccounted(s: State, h: Hint, failing: set<Req>)
    requires Accounted(s)
    ensures Accounted(PublishStep(s, h, failing))
  {
    QuietAccounted(s, PublishStep(s, h, failing));
  }

  lemma StepAccounted(s: State, e: Event)
    requires Accounted(s) && Enabled(s, e)
    ensures Accounted(Step(s, e))
  {
    match e
    case Arrive(r, request) => ArriveAccounted(s, r, request);
    case ResumeAuthorize(r, answer, newId) => AuthorizeAccounted(s, r, s.admissions[r].request, answer, newId);
    case ResumeAcquire(r, _, _, _) => AcquireAccounted(s, e, s.admissions[r].session, s.admissions[r].grant);
    case ResumeRelease(r) => RejectAccounted(s, r, s.admissions[r].denial);
    case _ => OthersAccounted(s, e);
  }

  lemma {:induction false} RunAccounted(s: State, es: seq<Event>)
    requires Accounted(s) && IsRun(s, es)
    ensures Accounted(Run(s, es))
    decreases |es|
  {
    if es != [] {
      StepAccounted(s, es[0]);
      RunAccounted(Step(s, es[0]), es[1..]);
    }
  }

  /** The admissions turned away with a status in `statuses`. */
  function RejectedWith(s: State, statuses: set<nat>): set<Req> {
    set r | r in s.admissions && s.admissions[r].Rejected? && s.admissions[r].denial.status in statuses
  }

  function Rejected(s: State): set<Req> { set r | r in s.admissions && s.admissions[r].Rejected? }

  /**
   * In every run each rejected admission has been counted exactly once, as its status demands: 503 as
   * unavailable, 429 as limited, anything else as denied.
   */
  lemma RejectionsReported(c: Config, es: seq<Event>)
    requires IsRun(Init(c), es)
    ensures var s := Run(Init(c), es);
            && Count(s.metrics, AdmissionUnavailable) == |RejectedWith(s, {503})|
            && Count(s.metrics, AdmissionLimited) == |RejectedWith(s, {429})|
            && Count(s.metrics, AdmissionDenied) == |Rejected(s) - RejectedWith(s, {429, 503})|
  {
    RunAccounted(Init(c), es);
    RejectedByStatus(Run(Init(c), es));
  }

  lemma RejectedByStatus(s: State)
    requires RejectionsCounted(s)
    ensures Count(s.metrics, AdmissionUnavailable) == |RejectedWith(s, {503})|
    ensures Count(s.metrics, AdmissionLimited) == |RejectedWith(s, {429})|
    ensures Count(s.metrics, AdmissionDenied) == |Rejected(s) - RejectedWith(s, {429, 503})|
  {
    assert RejectedAs(s, AdmissionUnavailable) == RejectedWith(s, {503});
    assert RejectedAs(s, AdmissionLimited) == RejectedWith(s, {429});
    assert RejectedAs(s, AdmissionDenied) == Rejected(s) - RejectedWith(s, {429, 503});
  }
}
