/** What holds of every run of the realtime protocol. */
module RealtimeRuns {
  import opened Common
  import opened RealtimeTypes
  import opened RealtimeProtocol
  import opened RealtimeInvariants
  import opened RealtimeSteps

  // ---------------------------------------------------------------- invariants of runs

  lemma {:induction false} RunInv(s: State, es: seq<Event>)
    requires Inv(s) && IsRun(s, es)
    ensures Inv(Run(s, es))
    decreases |es|
  {
    if es != [] {
      StepInv(s, es[0]);
      RunInv(Step(s, es[0]), es[1..]);
    }
  }

  /** A run may be cut in two. */
  lemma {:induction false} RunAppend(s: State, a: seq<Event>, b: seq<Event>)
    requires IsRun(s, a) && IsRun(Run(s, a), b)
    ensures IsRun(s, a + b) && Run(s, a + b) == Run(Run(s, a), b)
    decreases |a|
  {
    if a == [] {
      assert a + b == b;
    } else {
      RunAppend(Step(s, a[0]), a[1..], b);
      assert (a + b)[1..] == a[1..] + b;
    }
  }

  /** All timers that are armed, of all streams. */
  function ArmedTimers(s: State): set<(Req, Timer)> {
    set r, k | r in s.streams && k in s.streams[r].timers :: (r, k)
  }

  /** The live streams of one session. */
  function LiveFor(s: State, sessionKey: string): set<Req> {
    set r | r in s.streams && s.streams[r].phase.Live? && s.streams[r].session.sessionKey == sessionKey
  }

  /**
   * In every run: the active map has one entry for each live stream, three timers are armed for each,
   * the registry holds one lease for each live stream and one for each suspended admission, and no
   * session has more live streams than leases, nor more leases than its limit.
   */
  lemma Conservation(c: Config, es: seq<Event>, sessionKey: string)
    requires IsRun(Init(c), es)
    ensures var s := Run(Init(c), es);
            && |s.active| == |LiveStreams(s)|
            && |ArmedTimers(s)| == 3 * |s.active|
            && |s.held| == |s.active| + |Suspended(s)|
            && |LiveFor(s, sessionKey)| <= |Holders(s.held, sessionKey)| <= s.config.limit
  {
    InitInv(c);
    RunInv(Init(c), es);
    var s := Run(Init(c), es);
    ActiveCount(s);
    ArmedAreLive(s);
    TimerCount(LiveStreams(s));
    LeaseCount(s);
    LiveWithinLimit(s, sessionKey);
  }

  /** `r` was answered by the authorizer, and holds no lease: none was granted, or it has been given back. */
  ghost predicate Spent(s: State, r: Req) {
    r in s.admissions && !s.admissions[r].AwaitAuthorize? && r !in s.held
  }

  lemma ArriveSpent(s: State, q: Req, request: Request, r: Req)
    requires q != r && Spent(s, r)
    ensures Spent(ArriveStep(s, q, request), r)
  {
  }

  lemma AuthorizeSpent(s: State, q: Req, answer: Answer, newId: Option<string>, r: Req)
    requires q in s.admissions && s.admissions[q].AwaitAuthorize? && Spent(s, r)
    ensures Spent(ResumeAuthorizeStep(s, q, s.admissions[q].request, answer, newId), r)
  {
    match Admitted(s.admissions[q].request, answer)
    case Err(_) =>
    case Ok(_) =>
  }

  lemma AcquireSpent(s: State, e: Event, session: Session, grant: Grant, r: Req)
    requires e.ResumeAcquire? && Spent(s, r)
    ensures Spent(ResumeAcquireStep(s, e, session, grant), r)
  {
  }

  /** All other steps leave the admissions alone, and at most give leases back. */
  lemma OthersSpent(s: State, e: Event, r: Req)
    requires Enabled(s, e) && Spent(s, r)
    requires !e.Arrive? && !e.ResumeAuthorize? && !e.ResumeAcquire? && !e.ResumeRelease?
    ensures Spent(Step(s, e), r)
  {
  }

  lemma SpentStep(s: State, e: Event, r: Req)
    requires Enabled(s, e) && Spent(s, r)
    ensures Spent(Step(s, e), r)
  {
    match e
    case Arrive(q, request) => ArriveSpent(s, q, request, r);
    case ResumeAuthorize(q, answer, newId) => AuthorizeSpent(s, q, answer, newId, r);
    case ResumeAcquire(q, _, _, _) => AcquireSpent(s, e, s.admissions[q].session, s.admissions[q].grant, r);
    case ResumeRelease(_) =>
    case _ => OthersSpent(s, e, r);
  }

  /** A lease is given back at most once: who holds none after the authorizer's answer never holds one again. */
  lemma {:induction false} SpentForGood(s: State, es: seq<Event>, r: Req)
    requires IsRun(s, es) && Spent(s, r)
    ensures Spent(Run(s, es), r)
    decreases |es|
  {
    if es != [] {
      SpentStep(s, es[0], r);
      SpentForGood(Step(s, es[0]), es[1..], r);
    }
  }

  /**
   * In every run the transcript of each stream is a refresh, then hints and heartbeats, then perhaps one reconnect
   * that announces the very close decided; its response is ended at most once, and only after such a decision.
   */
  lemma TranscriptShape(c: Config, es: seq<Event>, r: Req)
    requires IsRun(Init(c), es) && r in Run(Init(c), es).streams
    ensures var t := Run(Init(c), es).streams[r];
            && t.frames != [] && t.frames[0] == Refresh
            && (forall i | 0 < i < |t.frames| ::
                  t.frames[i].HintFrame? || t.frames[i].Heartbeat? || t.frames[i].Reconnect?)
            && (forall i | 0 < i < |t.frames| && t.frames[i].Reconnect? ::
                  && i == |t.frames| - 1 && !t.phase.Live?
                  && t.phase.result == (if t.frames[i].reason.ForLifetime? then Expired else Drained))
            && t.endCalls <= (if t.phase.Ended? then 1 else 0)
  {
    InitInv(c);
    RunInv(Init(c), es);
    var s := Run(Init(c), es);
    assert StreamOk(s.published, s.streams[r]);
  }

  /** In every run each ended stream has one lifecycle result to show for, the one its close decided. */
  lemma OneResultEach(c: Config, es: seq<Event>, why: CloseResult)
    requires IsRun(Init(c), es)
    ensures var s := Run(Init(c), es); Count(s.metrics, Lifecycle(why)) == |EndedWith(s, why)|
  {
    InitInv(c);
    RunInv(Init(c), es);
    var s := Run(Init(c), es);
    assert MetricsMatch(s);
  }

  lemma LeaseCount(s: State)
    requires LeasesMatch(s) && AdmissionsMatch(s)
    ensures |s.held| == |LiveStreams(s)| + |Suspended(s)|
  {
    assert LiveStreams(s) !! Suspended(s);
    assert |s.held| == |s.held.Keys|;
  }

  lemma LiveWithinLimit(s: State, sessionKey: string)
    requires LeasesMatch(s) && LimitKept(s)
    ensures |LiveFor(s, sessionKey)| <= |Holders(s.held, sessionKey)| <= s.config.limit
  {
    assert LiveFor(s, sessionKey) <= LiveStreams(s);
    forall r | r in LiveFor(s, sessionKey) ensures r in Holders(s.held, sessionKey) { assert HoldsOwn(s, r); }
    SubsetSize(LiveFor(s, sessionKey), Holders(s.held, sessionKey));
  }

  function Armed(rs: set<Req>): set<(Req, Timer)> { set r, k | r in rs && k in ALL_TIMERS :: (r, k) }

  lemma ArmedAreLive(s: State)
    requires StreamsOk(s)
    ensures ArmedTimers(s) == Armed(LiveStreams(s))
  {
    forall r | r in s.streams ensures s.streams[r].timers == if s.streams[r].phase.Live? then ALL_TIMERS else {} {
      assert StreamOk(s.published, s.streams[r]);
    }
  }

  lemma {:induction false} TimerCount(rs: set<Req>)
    ensures |Armed(rs)| == 3 * |rs|
  {
    if rs != {} {
      var r :| r in rs;
      TimerCount(rs - {r});
      var own := {(r, HeartbeatTimer), (r, RevalidationTimer), (r, LifetimeTimer)};
      assert Armed(rs) == Armed(rs - {r}) + own;
      assert Armed(rs - {r}) !! own;
    }
  }

  lemma ActiveCount(s: State)
    requires ActiveMatches(s)
    ensures |s.active| == |LiveStreams(s)|
  {
    BijectionCount(s, LiveStreams(s));
    forall r | r in LiveStreams(s) ensures s.streams[r].connectionId in s.active { assert IsLive(s, r); }
    assert s.active.Keys == set r | r in LiveStreams(s) :: s.streams[r].connectionId by {
      forall k | k in s.active.Keys ensures k in set r | r in LiveStreams(s) :: s.streams[r].connectionId {
        assert s.active[k] in LiveStreams(s);
      }
    }
    assert |s.active| == |s.active.Keys|;
  }

  lemma {:induction false} BijectionCount(s: State, rs: set<Req>)
    requires ActiveMatches(s) && rs <= LiveStreams(s)
    ensures |set r | r in rs :: s.streams[r].connectionId| == |rs|
  {
    if rs != {} {
      var r :| r in rs;
      BijectionCount(s, rs - {r});
      var rest := set q | q in rs - {r} :: s.streams[q].connectionId;
      forall q | q in rs - {r} ensures s.streams[q].connectionId != s.streams[r].connectionId {
        assert IsLive(s, q) && IsLive(s, r);
      }
      assert (set q | q in rs :: s.streams[q].connectionId) == rest + {s.streams[r].connectionId};
    }
  }

  // ---------------------------------------------------------------- one stream through a run

  /** The hint an event publishes, if it is safe. */
  function SafeHint(e: Event): seq<Hint> {
    if e.Publish? && IsSafeHint(e.hint) then [e.hint] else []
  }

  /** The safe hints published by a sequence of events. */
  function SafeHints(es: seq<Event>): seq<Hint>
    decreases |es|
  {
    if es == [] then [] else SafeHint(es[0]) + SafeHints(es[1..])
  }

  lemma PublishedStep(s: State, e: Event)
    requires Enabled(s, e)
    ensures Step(s, e).published == s.published + SafeHint(e)
  {
    match e
    case ResumeAcquire(r, _, _, _) =>
      assert ResumeAcquireStep(s, e, s.admissions[r].session, s.admissions[r].grant).published == s.published;
    case _ =>
  }

  lemma {:induction false} PublishedRun(s: State, es: seq<Event>)
    requires IsRun(s, es)
    ensures Run(s, es).published == s.published + SafeHints(es)
    decreases |es|
  {
    if es != [] {
      PublishedStep(s, es[0]);
      PublishedRun(Step(s, es[0]), es[1..]);
      Assoc(s.published, SafeHint(es[0]), SafeHints(es[1..]));
    }
  }

  /** How one step may change a stream. */
  ghost predicate Successor(t: Stream, u: Stream, now: nat) {
    && u.session == t.session
    && u.connectionId == t.connectionId
    && u.from == t.from
    && t.frames <= u.frames
    && (t.phase.Live? && !u.phase.Live? ==> u.phase.Closing? && u.upto == now)
    && (!t.phase.Live? ==> u.frames == t.frames && u.upto == t.upto && !u.phase.Live?
                           && u.phase.result == t.phase.result)
    && (t.phase.Ended? ==> u.phase == t.phase && u.endCalls == t.endCalls)
  }

  lemma CloseStream(s: State, rs: set<Req>, why: CloseResult, r: Req)
    requires r in s.streams
    ensures Successor(s.streams[r], Close(s, rs, why).streams[r], |s.published|)
  {
  }

  lemma WriteLive(s: State, rs: set<Req>, f: Frame, r: Req)
    requires r in s.streams && rs <= LiveStreams(s)
    ensures Successor(s.streams[r], Write(s, rs, f).streams[r], |s.published|)
  {
  }

  lemma AnnouncedClose(s: State, told: set<Req>, f: Frame, rs: set<Req>, why: CloseResult, r: Req)
    requires r in s.streams && told <= LiveStreams(s)
    ensures Successor(s.streams[r], Close(Write(s, told, f), rs, why).streams[r], |s.published|)
  {
    WriteLive(s, told, f, r);
    CloseStream(Write(s, told, f), rs, why, r);
  }

  lemma AcquireStream(s: State, e: Event, r: Req, session: Session, grant: Grant)
    requires e.ResumeAcquire? && r in s.streams && r != e.r
    ensures var u := ResumeAcquireStep(s, e, session, grant);
            r in u.streams && Successor(s.streams[r], u.streams[r], |s.published|)
  {
    if grant.Granted? {
      var g := Registered(s, e, session, grant.connectionId);
      assert g.streams[r] == s.streams[r];
      CloseStream(g, {e.r}, Revoked, r);
      CloseStream(g, {e.r}, Aborted, r);
    }
  }

  lemma PublishStream(s: State, h: Hint, failing: set<Req>, r: Req)
    requires r in s.streams
    ensures Successor(s.streams[r], PublishStep(s, h, failing).streams[r], |s.published|)
  {
    assert Targets(s, h) <= LiveStreams(s);
    AnnouncedClose(s, Targets(s, h) - failing, HintFrame(h), Targets(s, h) * failing, Aborted, r);
  }

  /** Events that concern one stream, or none. */
  lemma QuietStreamStep(s: State, e: Event, r: Req)
    requires Enabled(s, e) && r in s.streams
    requires !e.ResumeAcquire? && !e.Publish? && !e.LifetimeOver? && !e.BeginDrain?
    ensures r in Step(s, e).streams && Successor(s.streams[r], Step(s, e).streams[r], |s.published|)
  {
    match e
    case HeartbeatTick(q) => if IsLive(s, q) { WriteLive(s, {q}, Heartbeat, r); }
    case ResumeRevalidate(q, _) => CloseStream(s, {q}, Revoked, r);
    case CloseEvent(q) => CloseStream(s, {q}, Aborted, r);
    case _ =>
  }

  lemma StreamStep(s: State, e: Event, r: Req)
    requires Enabled(s, e) && IsStreaming(s, r) && r in s.streams
    ensures r in Step(s, e).streams && Successor(s.streams[r], Step(s, e).streams[r], |s.published|)
  {
    match e
    case ResumeAcquire(q, _, _, _) => AcquireStream(s, e, r, s.admissions[q].session, s.admissions[q].grant);
    case Publish(h, failing) => PublishStream(s, h, failing, r);
    case LifetimeOver(q) => AnnouncedClose(s, {q} * Writable(s), Reconnect(ForLifetime), {q}, Expired, r);
    case BeginDrain(failing) =>
      AnnouncedClose(s.(draining := true), Writable(s) - failing, Reconnect(ForDeployment),
                     LiveStreams(s) - Writable(s) * failing, Drained, r);
    case _ => QuietStreamStep(s, e, r);
  }

  lemma AcquiredStream(s: State, e: Event, session: Session, grant: Grant)
    requires e.ResumeAcquire?
    ensures var u := ResumeAcquireStep(s, e, session, grant);
            && u.streams.Keys <= s.streams.Keys + {e.r}
            && (e.r !in s.streams && e.r in u.streams ==> u.streams[e.r].from == |s.published|)
  {
    if grant.Granted? {
      var g := Registered(s, e, session, grant.connectionId);
      CloseStream(g, {e.r}, Revoked, e.r);
      CloseStream(g, {e.r}, Aborted, e.r);
    }
  }

  /** Once a close is decided nothing is written any more and the result stays; `end` is not called twice. */
  lemma {:induction false} ClosedForever(s: State, es: seq<Event>, r: Req)
    requires Inv(s) && IsRun(s, es) && r in s.streams && !s.streams[r].phase.Live?
    ensures var u := Run(s, es);
            && r in u.streams && !u.streams[r].phase.Live?
            && u.streams[r].frames == s.streams[r].frames
            && u.streams[r].phase.result == s.streams[r].phase.result
            && u.streams[r].upto == s.streams[r].upto
            && u.streams[r].endCalls <= 1
    decreases |es|
  {
    assert StreamOk(s.published, s.streams[r]);
    if es != [] {
      StreamStep(s, es[0], r);
      StepInv(s, es[0]);
      ClosedForever(Step(s, es[0]), es[1..], r);
    }
  }

  lemma {:induction false} SameStream(s: State, es: seq<Event>, r: Req)
    requires Inv(s) && IsRun(s, es) && r in s.streams
    ensures var u := Run(s, es);
            r in u.streams && u.streams[r].session == s.streams[r].session && u.streams[r].from == s.streams[r].from
    decreases |es|
  {
    if es != [] {
      StreamStep(s, es[0], r);
      StepInv(s, es[0]);
      SameStream(Step(s, es[0]), es[1..], r);
    }
  }

  /**
   * Broadcast: from the step that registers a stream (`e`) until the step that decides its close (`x`), be
   * it a failed write or anything else, the stream is sent exactly the safe hints published that belong to
   * its session, in order, and whatever happens later changes nothing.
   */
  lemma BroadcastRefinement(s: State, e: Event, during: seq<Event>)
    requires Inv(s) && e.ResumeAcquire? && Enabled(s, e) && IsLive(Step(s, e), e.r)
    requires IsRun(Step(s, e), during) && IsLive(Run(Step(s, e), during), e.r)
    ensures var u := Run(Step(s, e), during);
            HintsOf(u.streams[e.r].frames) == Select(u.streams[e.r].session, SafeHints(during))
  {
    StepInv(s, e);
    assert e.r !in s.streams;
    AcquiredStream(s, e, s.admissions[e.r].session, s.admissions[e.r].grant);
    PublishedStep(s, e);
    LiveSinceRegistration(Step(s, e), during, e.r);
  }

  lemma LiveSinceRegistration(s: State, during: seq<Event>, r: Req)
    requires Inv(s) && IsRun(s, during) && IsLive(s, r) && s.streams[r].from == |s.published|
    requires IsLive(Run(s, during), r)
    ensures HintsOf(Run(s, during).streams[r].frames) == Select(Run(s, during).streams[r].session, SafeHints(during))
  {
    var u := Run(s, during);
    SameStream(s, during, r);
    RunInv(s, during);
    PublishedRun(s, during);
    FullStretch(s.published, SafeHints(during), u.streams[r]);
  }

  lemma FullStretch(before: seq<Hint>, hints: seq<Hint>, t: Stream)
    requires StreamOk(before + hints, t) && t.phase.Live? && t.from == |before|
    ensures HintsOf(t.frames) == Select(t.session, hints)
  {
    assert (before + hints)[|before|..|before + hints|] == hints;
  }

  /** The frames a closing step may add to a stream carry no hint. */
  lemma ClosedAt(published: seq<Hint>, t: Stream, later: seq<Hint>, u: Stream)
    requires StreamOk(published, t) && StreamOk(published + later, u)
    requires t.phase.Live? && !u.phase.Live? && Successor(t, u, |published|)
    ensures HintsOf(u.frames) == HintsOf(t.frames)
  {
    assert (published + later)[t.from..|published|] == published[t.from..|published|];
  }

  lemma StopStep(s: State, x: Event, r: Req)
    requires Inv(s) && Enabled(s, x) && Admissible(s, x) && IsLive(s, r) && !IsLive(Step(s, x), r)
    ensures Inv(Step(s, x)) && r in Step(s, x).streams
    ensures HintsOf(Step(s, x).streams[r].frames) == HintsOf(s.streams[r].frames)
  {
    StepInv(s, x);
    StreamStep(s, x, r);
    PublishedStep(s, x);
    ClosedAt(s.published, s.streams[r], SafeHint(x), Step(s, x).streams[r]);
  }

  lemma BroadcastStops(s: State, x: Event, after: seq<Event>, r: Req)
    requires Inv(s) && Enabled(s, x) && Admissible(s, x) && IsLive(s, r) && !IsLive(Step(s, x), r)
    requires IsRun(Step(s, x), after)
    ensures var u := Run(Step(s, x), after);
            r in u.streams && HintsOf(u.streams[r].frames) == HintsOf(s.streams[r].frames)
  {
    StopStep(s, x, r);
    ClosedForever(Step(s, x), after, r);
  }

  // ---------------------------------------------------------------- drain

  lemma LiveAfter(s: State, told: set<Req>, f: Frame, rs: set<Req>, why: CloseResult)
    ensures LiveStreams(Close(Write(s, told, f), rs, why)) == LiveStreams(s) - rs
  {
    assert LiveStreams(Write(s, told, f)) == LiveStreams(s);
    LiveAfterClose(Write(s, told, f), rs, why);
  }

  lemma LiveAfterClose(s: State, rs: set<Req>, why: CloseResult)
    ensures LiveStreams(Close(s, rs, why)) == LiveStreams(s) - rs
  {
  }

  /** What the synchronous part of the first drain leaves live: exactly the streams whose reconnect write threw. */
  lemma DrainLeaves(s: State, failing: set<Req>)
    requires Inv(s) && !s.draining
    ensures var d := BeginDrainStep(s, failing);
            && d.draining && LiveStreams(d) == Writable(s) * failing
            && (d.active == map[] <==> Writable(s) * failing == {})
  {
    var d := BeginDrainStep(s, failing);
    DrainInv(s, failing);
    LiveAfter(s.(draining := true), Writable(s) - failing, Reconnect(ForDeployment),
              LiveStreams(s) - Writable(s) * failing, Drained);
    LiveIsWritable(s, failing);
    ActiveCount(d);
  }

  lemma LiveIsWritable(s: State, failing: set<Req>)
    ensures LiveStreams(s) - (LiveStreams(s) - Writable(s) * failing) == Writable(s) * failing
    ensures LiveStreams(s.(draining := true)) == LiveStreams(s)
  {
  }

  lemma AcquireWhileDraining(s: State, e: Event, session: Session, grant: Grant)
    requires s.draining && e.ResumeAcquire?
    ensures var u := ResumeAcquireStep(s, e, session, grant);
            u.streams == s.streams && (grant.Granted? ==> e.r !in u.held)
  {
  }

  lemma LiveShrinks(s: State, e: Event)
    requires s.draining && Enabled(s, e)
    ensures Step(s, e).draining && LiveStreams(Step(s, e)) <= LiveStreams(s)
    ensures Step(s, e).streams.Keys == s.streams.Keys
  {
    match e
    case Arrive(r, request) => ArriveWhileDraining(s, r, request);
    case ResumeAuthorize(r, answer, newId) => AuthorizeWhileDraining(s, r, s.admissions[r].request, answer, newId);
    case ResumeAcquire(q, _, _, _) => AcquireWhileDraining(s, e, s.admissions[q].session, s.admissions[q].grant);
    case _ => OthersShrink(s, e);
  }

  lemma OthersShrink(s: State, e: Event)
    requires s.draining && Enabled(s, e) && !e.Arrive? && !e.ResumeAuthorize? && !e.ResumeAcquire?
    ensures Step(s, e).draining && LiveStreams(Step(s, e)) <= LiveStreams(s)
    ensures Step(s, e).streams.Keys == s.streams.Keys
  {
    match e
    case Publish(h, failing) =>
      LiveAfter(s, Targets(s, h) - failing, HintFrame(h), Targets(s, h) * failing, Aborted);
    case LifetimeOver(q) => LiveAfter(s, {q} * Writable(s), Reconnect(ForLifetime), {q}, Expired);
    case ResumeRevalidate(q, _) => LiveAfterClose(s, {q}, Revoked);
    case CloseEvent(q) => LiveAfterClose(s, {q}, Aborted);
    case HeartbeatTick(r) => assert LiveStreams(Write(s, {r}, Heartbeat)) == LiveStreams(s);
    case ResumeRelease(_) =>
    case Destroyed(_) =>
    case BeginDrain(_) =>
    case CloseTail(_) =>
  }

  lemma {:induction false} DrainingRun(s: State, es: seq<Event>)
    requires s.draining && Inv(s) && IsRun(s, es)
    ensures Inv(Run(s, es)) && Run(s, es).draining && LiveStreams(Run(s, es)) <= LiveStreams(s)
    ensures Run(s, es).streams.Keys == s.streams.Keys
    decreases |es|
  {
    if es != [] {
      LiveShrinks(s, es[0]);
      StepInv(s, es[0]);
      DrainingRun(Step(s, es[0]), es[1..]);
    }
  }

  /**
   * Drain is terminal: after `beginDrain` no stream is registered in any run, and only those are live ever whose
   * reconnect write threw. If none threw, nothing is active when `beginDrain` has decided nor later, and once no
   * admission is pending the registry is empty.
   */
  lemma DrainTerminal(s: State, failing: set<Req>, es: seq<Event>)
    requires Inv(s) && !s.draining && IsRun(BeginDrainStep(s, failing), es)
    ensures var d, u := BeginDrainStep(s, failing), Run(BeginDrainStep(s, failing), es);
            && u.draining && u.streams.Keys == s.streams.Keys
            && LiveStreams(u) <= Writable(s) * failing
            && u.held.Keys == LiveStreams(u) + Suspended(u)
            && (Writable(s) * failing == {} ==>
                  && d.active == map[] && u.active == map[]
                  && ((forall r <- u.admissions :: Remaining(u.admissions[r]) == 0) ==> u.held == map[]))
  {
    DrainLeaves(s, failing);
    DrainInv(s, failing);
    DrainingRun(BeginDrainStep(s, failing), es);
    NothingLeft(Run(BeginDrainStep(s, failing), es));
  }

  lemma NothingLeft(u: State)
    requires Inv(u)
    ensures u.held.Keys == LiveStreams(u) + Suspended(u)
    ensures LiveStreams(u) == {} ==>
              && u.active == map[]
              && ((forall r <- u.admissions :: Remaining(u.admissions[r]) == 0) ==> u.held == map[])
  {
    ActiveCount(u);
    if forall r <- u.admissions :: Remaining(u.admissions[r]) == 0 { NothingPending(u); }
  }

  lemma NothingPending(s: State)
    requires forall r <- s.admissions :: Remaining(s.admissions[r]) == 0
    ensures Suspended(s) == {}
  {
    forall r | r in s.admissions ensures !s.admissions[r].AwaitAcquire? {
      assert Remaining(s.admissions[r]) == 0;
    }
  }

  /** How many times a suspended admission still has to be resumed, at most. */
  function Remaining(a: Admission): nat {
    match a
    case AwaitAuthorize(_) => 3
    case AwaitAcquire(_, _) => 2
    case AwaitRelease(_) => 1
    case _ => 0
  }

  function RemainingFor(s: State, r: Req): nat { if r in s.admissions then Remaining(s.admissions[r]) else 0 }

  predicate Resumes(e: Event, r: Req) {
    (e.ResumeAuthorize? || e.ResumeAcquire? || e.ResumeRelease?) && e.r == r
  }

  /**
   * While draining, resuming an admission brings it strictly closer to its end and registers nothing;
   * one that holds a lease releases it.
   */
  lemma DrainingResume(s: State, e: Event, r: Req)
    requires AdmissionsMatch(s) && s.draining && Enabled(s, e) && Resumes(e, r)
    ensures RemainingFor(Step(s, e), r) < RemainingFor(s, r)
    ensures Step(s, e).streams == s.streams
    ensures r in Suspended(s) ==> r !in Step(s, e).held
  {
    match e
    case ResumeAuthorize(q, answer, newId) => AuthorizeWhileDraining(s, q, s.admissions[q].request, answer, newId);
    case ResumeAcquire(q, _, _, _) => AcquireWhileDraining(s, e, s.admissions[q].session, s.admissions[q].grant);
    case ResumeRelease(_) =>
  }

  /** No other event brings an admission farther from its end while draining. */
  lemma PendingStep(s: State, e: Event, r: Req)
    requires AdmissionsMatch(s) && s.draining && Enabled(s, e)
    ensures RemainingFor(Step(s, e), r) + (if Resumes(e, r) then 1 else 0) <= RemainingFor(s, r)
  {
    match e
    case Arrive(q, request) => ArriveWhileDraining(s, q, request);
    case ResumeAuthorize(q, answer, newId) =>
      if q == r { DrainingResume(s, e, r); } else { AuthorizeElsewhere(s, q, answer, newId, r); }
    case ResumeAcquire(q, _, _, _) =>
      if q == r { DrainingResume(s, e, r); } else { AcquireElsewhere(s, e, r); }
    case ResumeRelease(_) =>
    case Publish(_, _) =>
    case HeartbeatTick(_) =>
    case LifetimeOver(_) =>
    case ResumeRevalidate(_, _) =>
    case CloseEvent(_) =>
    case Destroyed(_) =>
    case BeginDrain(_) =>
    case CloseTail(_) =>
  }

  lemma AuthorizeElsewhere(s: State, q: Req, answer: Answer, newId: Option<string>, r: Req)
    requires q in s.admissions && s.admissions[q].AwaitAuthorize? && q != r
    ensures RemainingFor(ResumeAuthorizeStep(s, q, s.admissions[q].request, answer, newId), r) == RemainingFor(s, r)
  {
    match Admitted(s.admissions[q].request, answer)
    case Err(_) =>
    case Ok(_) =>
  }

  lemma AcquireElsewhere(s: State, e: Event, r: Req)
    requires e.ResumeAcquire? && e.r in s.admissions && s.admissions[e.r].AwaitAcquire? && e.r != r
    ensures RemainingFor(ResumeAcquireStep(s, e, s.admissions[e.r].session, s.admissions[e.r].grant), r) ==
            RemainingFor(s, r)
  {
  }

  function Resumptions(es: seq<Event>, r: Req): nat
    decreases |es|
  {
    if es == [] then 0 else (if Resumes(es[0], r) then 1 else 0) + Resumptions(es[1..], r)
  }

  /** In every run from a draining state each pending admission ends: it is resumed three times at most. */
  lemma {:induction false} PendingAdmissionsEnd(s: State, es: seq<Event>, r: Req)
    requires Inv(s) && s.draining && IsRun(s, es)
    ensures RemainingFor(Run(s, es), r) + Resumptions(es, r) <= RemainingFor(s, r) <= 3
    decreases |es|
  {
    if es != [] {
      StepInv(s, es[0]);
      LiveShrinks(s, es[0]);
      PendingStep(s, es[0], r);
      PendingAdmissionsEnd(Step(s, es[0]), es[1..], r);
    }
  }

  lemma AuthorizeWhileDraining(s: State, r: Req, request: Request, answer: Answer, newId: Option<string>)
    ensures var u := ResumeAuthorizeStep(s, r, request, answer, newId);
            r in u.admissions && Remaining(u.admissions[r]) < 3 && u.streams == s.streams && u.draining == s.draining
  {
    match Admitted(request, answer)
    case Err(d) => assert ResumeAuthorizeStep(s, r, request, answer, newId) == Reject(s, r, DenialMetric(d), d);
    case Ok(session) =>
  }

  /** A request that arrives while draining is turned away at once. */
  lemma ArriveWhileDraining(s: State, r: Req, request: Request)
    requires s.draining
    ensures ArriveStep(s, r, request).admissions == s.admissions[r := Rejected(DRAINING)]
    ensures ArriveStep(s, r, request).held == s.held
    ensures ArriveStep(s, r, request).streams == s.streams && ArriveStep(s, r, request).draining
  {
  }

  // ---------------------------------------------------------------- publication

  /** The streams whose transcripts differ between two states. */
  function Grown(s: State, u: State): set<Req> {
    set r | r in s.streams && r in u.streams && u.streams[r].frames != s.streams[r].frames
  }

  /** A live stream of a session with the brand and the store of a hint, where a missing store is one too. */
  predicate ForStream(s: State, r: Req, h: Hint) {
    IsLive(s, r) && s.streams[r].session.brandId == h.brandId && s.streams[r].session.storeId == h.storeId
  }

  lemma TargetsIff(s: State, h: Hint, r: Req)
    ensures r in Targets(s, h) <==> ForStream(s, r, h)
  {
  }

  /**
   * In every run a publication returns the number of transcripts it adds to; it adds the one hint to each of them, they
   * are the live streams for a safe hint whose write succeeds, and the streams it closes are those whose write throws.
   */
  lemma DeliveredOnce(c: Config, es: seq<Event>, h: Hint, failing: set<Req>)
    requires IsRun(Init(c), es)
    ensures var s := Run(Init(c), es);
            var u := PublishStep(s, h, failing);
            && Delivered(s, h, failing) == |Grown(s, u)|
            && (forall r <- Grown(s, u) :: u.streams[r].frames == s.streams[r].frames + [HintFrame(h)] && IsLive(u, r))
            && (forall r :: r in Grown(s, u) <==> IsSafeHint(h) && ForStream(s, r, h) && r !in failing)
            && (forall r :: IsLive(s, r) && !IsLive(u, r) <==> IsSafeHint(h) && ForStream(s, r, h) && r in failing)
  {
    var s := Run(Init(c), es);
    GrownByHint(s, h, failing);
    ClosedByHint(s, h, failing);
    forall r ensures r in Targets(s, h) <==> ForStream(s, r, h) { TargetsIff(s, h, r); }
    LiveByHint(s, PublishStep(s, h, failing), if IsSafeHint(h) then Targets(s, h) * failing else {});
  }

  lemma LiveByHint(s: State, u: State, closed: set<Req>)
    requires LiveStreams(u) == LiveStreams(s) - closed
    ensures forall r :: IsLive(u, r) <==> IsLive(s, r) && r !in closed
  {
    forall r ensures IsLive(u, r) <==> IsLive(s, r) && r !in closed {
      assert IsLive(u, r) <==> r in LiveStreams(u);
      assert IsLive(s, r) <==> r in LiveStreams(s);
    }
  }

  lemma FramesByHint(s: State, h: Hint, failing: set<Req>, r: Req)
    requires r in s.streams && IsSafeHint(h)
    ensures PublishStep(s, h, failing).streams.Keys == s.streams.Keys
    ensures PublishStep(s, h, failing).streams[r].frames ==
            s.streams[r].frames + (if r in Targets(s, h) - failing then [HintFrame(h)] else [])
  {
  }

  lemma GrownByHint(s: State, h: Hint, failing: set<Req>)
    ensures var u := PublishStep(s, h, failing);
            && Grown(s, u) == (if IsSafeHint(h) then Targets(s, h) - failing else {})
            && (forall r <- Grown(s, u) :: u.streams[r].frames == s.streams[r].frames + [HintFrame(h)])
  {
    if IsSafeHint(h) {
      var u := PublishStep(s, h, failing);
      forall r | r in s.streams
        ensures r in u.streams
        ensures r in Targets(s, h) - failing ==> u.streams[r].frames == s.streams[r].frames + [HintFrame(h)]
        ensures r in Targets(s, h) - failing <==> u.streams[r].frames != s.streams[r].frames
      {
        FramesByHint(s, h, failing, r);
      }
    }
  }

  lemma ClosedByHint(s: State, h: Hint, failing: set<Req>)
    ensures LiveStreams(PublishStep(s, h, failing)) ==
            LiveStreams(s) - (if IsSafeHint(h) then Targets(s, h) * failing else {})
  {
    if IsSafeHint(h) {
      LiveAfter(s, Targets(s, h) - failing, HintFrame(h), Targets(s, h) * failing, Aborted);
      assert PublishStep(s, h, failing).streams == Deliver(s, h, Targets(s, h), failing).streams;
    }
  }
}
