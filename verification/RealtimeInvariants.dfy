/** What every step of the realtime protocol keeps. */
module RealtimeInvariants {
  import opened RealtimeTypes
  import opened RealtimeProtocol

  /** The active map holds exactly the live streams, each under its connection id. */
  ghost predicate ActiveMatches(s: State) {
    && (forall r {:trigger IsLive(s, r)} ::
          IsLive(s, r) ==> s.streams[r].connectionId in s.active && s.active[s.streams[r].connectionId] == r)
    && (forall c {:trigger s.active[c]} | c in s.active ::
          IsLive(s, s.active[c]) && s.streams[s.active[c]].connectionId == c)
  }

  /** The lease a live stream holds, or an admission suspended with a grant. */
  ghost predicate HoldsOwn(s: State, r: Req)
    requires r in s.held
  {
    && (IsLive(s, r) ==> s.held[r] == Held(s.streams[r].session.sessionKey, s.streams[r].connectionId))
    && (r in Suspended(s) ==>
          s.held[r] == Held(s.admissions[r].session.sessionKey, s.admissions[r].grant.connectionId))
  }

  /** Leases are conserved: one for each live stream, one for each admission suspended with a grant. */
  ghost predicate LeasesMatch(s: State) {
    && s.held.Keys == LiveStreams(s) + Suspended(s)
    && forall r {:trigger HoldsOwn(s, r)} | r in s.held :: HoldsOwn(s, r)
  }

  ghost predicate SameLease(held: map<Req, Held>, q: Req, r: Req) { q in held && r in held && held[q] == held[r] }

  ghost predicate IdsDistinct(s: State) {
    forall q, r {:trigger SameLease(s.held, q, r)} | SameLease(s.held, q, r) :: q == r
  }

  ghost predicate LimitKept(s: State) {
    forall key: string {:trigger Holders(s.held, key)} :: |Holders(s.held, key)| <= s.config.limit
  }

  predicate IsStreaming(s: State, r: Req) { r in s.admissions && s.admissions[r].Streaming? }

  ghost predicate AdmissionsMatch(s: State) {
    forall r {:trigger r in s.streams} {:trigger IsStreaming(s, r)} :: r in s.streams <==> IsStreaming(s, r)
  }

  /** Resources of a stream are armed while it is live and gone as soon as its close is decided. */
  ghost predicate ResourcesMatch(t: Stream) {
    && t.timers == (if t.phase.Live? then ALL_TIMERS else {})
    && t.listening == t.phase.Live?
    && (t.subscribed ==> t.phase.Live?)
    && t.endCalls <= (if t.phase.Ended? then 1 else 0)
    && (t.phase.Ended? ==> t.writableEnded)
  }

  ghost predicate Permitted(session: Session) {
    IsSafeSession(session) && session.kind == Merchant && PERMISSION in session.permissions
  }

  ghost predicate SessionsPermitted(s: State) {
    && (forall r {:trigger Permitted(s.streams[r].session)} | r in s.streams :: Permitted(s.streams[r].session))
    && (forall r {:trigger Permitted(s.admissions[r].session)} | r in s.admissions && s.admissions[r].AwaitAcquire? ::
          Permitted(s.admissions[r].session))
  }

  /** refresh, then hints and heartbeats, then perhaps one reconnect that announces the very close decided. */
  ghost predicate Shape(t: Stream) {
    && |t.frames| > 0
    && t.frames[0] == Refresh
    && forall i | 0 < i < |t.frames| ::
         || t.frames[i].HintFrame?
         || t.frames[i].Heartbeat?
         || (i == |t.frames| - 1 && t.frames[i] == Reconnect(ForLifetime)
             && t.phase in {Closing(Expired), Ended(Expired)})
         || (i == |t.frames| - 1 && t.frames[i] == Reconnect(ForDeployment)
             && t.phase in {Closing(Drained), Ended(Drained)})
  }

  /** The hints among the frames. */
  function HintsOf(frames: seq<Frame>): seq<Hint> {
    if frames == [] then []
    else HintsOf(frames[..|frames| - 1]) +
         (if frames[|frames| - 1].HintFrame? then [frames[|frames| - 1].hint] else [])
  }

  /** The published hints of the brand and the store of a session, in the order of publication. */
  function Select(session: Session, hints: seq<Hint>): seq<Hint> {
    if hints == [] then []
    else Select(session, hints[..|hints| - 1]) +
         (if session.brandId == hints[|hints| - 1].brandId && session.storeId == hints[|hints| - 1].storeId
          then [hints[|hints| - 1]] else [])
  }

  /** Where the stretch of hints a stream is entitled to ends so far. */
  function Until(published: seq<Hint>, t: Stream): nat { if t.phase.Live? then |published| else t.upto }

  /** A stream was sent exactly the hints of its scope published while it was registered. */
  ghost predicate Broadcast(published: seq<Hint>, t: Stream) {
    && t.from <= Until(published, t) <= |published|
    && HintsOf(t.frames) == Select(t.session, published[t.from..Until(published, t)])
  }

  ghost predicate PublishedSafe(s: State) {
    forall h {:trigger IsSafeHint(h)} | h in s.published :: IsSafeHint(h) && IsJsonText(h.json)
  }

  ghost predicate StreamOk(published: seq<Hint>, t: Stream) {
    ResourcesMatch(t) && Shape(t) && Broadcast(published, t)
  }

  ghost predicate StreamsOk(s: State) {
    forall r {:trigger StreamOk(s.published, s.streams[r])} | r in s.streams :: StreamOk(s.published, s.streams[r])
  }

  function Count(ms: seq<Metric>, m: Metric): nat {
    if ms == [] then 0 else Count(ms[..|ms| - 1], m) + (if ms[|ms| - 1] == m then 1 else 0)
  }

  function EndedWith(s: State, why: CloseResult): set<Req> {
    set r | r in s.streams && s.streams[r].phase == Ended(why)
  }

  /** One lifecycle metric for each ended stream, with the result its close decided. */
  ghost predicate MetricsMatch(s: State) {
    forall why: CloseResult {:trigger EndedWith(s, why)} ::
      Count(s.metrics, Lifecycle(why)) == |EndedWith(s, why)|
  }

  /** The part of the invariant that does not look at frames. */
  ghost predicate Structure(s: State) {
    && ActiveMatches(s)
    && LeasesMatch(s)
    && IdsDistinct(s)
    && LimitKept(s)
    && AdmissionsMatch(s)
    && SessionsPermitted(s)
    && MetricsMatch(s)
  }

  ghost predicate Inv(s: State) { Structure(s) && StreamsOk(s) && PublishedSafe(s) }

  lemma InitInv(config: Config)
    ensures Inv(Init(config))
  {
  }

  lemma SubsetSize<T>(a: set<T>, b: set<T>)
    requires a <= b
    ensures |a| <= |b|
  {
    if a != {} {
      var x :| x in a;
      SubsetSize(a - {x}, b - {x});
    }
  }

  // ---------------------------------------------------------------- one stream

  lemma ShutOk(published: seq<Hint>, t: Stream, why: CloseResult)
    requires StreamOk(published, t) && t.phase.Live?
    ensures StreamOk(published, Shut(t, why, |published|))
  {
  }

  lemma HeartbeatOk(published: seq<Hint>, t: Stream)
    requires StreamOk(published, t) && t.phase.Live?
    ensures StreamOk(published, t.(frames := t.frames + [Heartbeat]))
  {
    assert (t.frames + [Heartbeat])[..|t.frames|] == t.frames;
  }

  /** A close that is announced: the write of a reconnect frame and the decision to close, in one stretch. */
  lemma ReconnectOk(published: seq<Hint>, t: Stream, reason: ReconnectReason)
    requires StreamOk(published, t) && t.phase.Live?
    ensures StreamOk(published, Shut(t.(frames := t.frames + [Reconnect(reason)]),
                                     if reason == ForLifetime then Expired else Drained, |published|))
  {
    assert (t.frames + [Reconnect(reason)])[..|t.frames|] == t.frames;
  }

  lemma HintOk(published: seq<Hint>, t: Stream, h: Hint)
    requires StreamOk(published, t) && t.phase.Live? && InScope(t.session, h)
    ensures StreamOk(published + [h], t.(frames := t.frames + [HintFrame(h)]))
  {
    assert (t.frames + [HintFrame(h)])[..|t.frames|] == t.frames;
    assert (published + [h])[t.from..|published| + 1] == published[t.from..|published|] + [h];
  }

  /** A hint that is not written: to a closed stream, out of scope, or because the write threw. */
  lemma SkipOk(published: seq<Hint>, t: Stream, h: Hint)
    requires StreamOk(published, t) && (t.phase.Live? ==> !InScope(t.session, h))
    ensures StreamOk(published + [h], t)
  {
    if t.phase.Live? {
      assert (published + [h])[t.from..|published| + 1] == published[t.from..|published|] + [h];
    } else {
      assert (published + [h])[t.from..t.upto] == published[t.from..t.upto];
    }
  }

  // ---------------------------------------------------------------- the pieces steps are made of

  /** Leases and limits survive when leases only disappear. */
  lemma LimitsFrame(s: State, t: State)
    requires IdsDistinct(s) && LimitKept(s)
    requires t.config == s.config && t.held.Keys <= s.held.Keys && forall r <- t.held :: t.held[r] == s.held[r]
    ensures IdsDistinct(t) && LimitKept(t)
  {
    forall q, r | SameLease(t.held, q, r) ensures q == r { assert SameLease(s.held, q, r); }
    forall key: string ensures |Holders(t.held, key)| <= t.config.limit {
      assert Holders(t.held, key) <= Holders(s.held, key);
      SubsetSize(Holders(t.held, key), Holders(s.held, key));
    }
  }

  /** Who a stream is and whether it is live. */
  ghost predicate SameIdentity(t: Stream, u: Stream) {
    u.session == t.session && u.connectionId == t.connectionId && u.phase.Live? == t.phase.Live?
  }

  /** Changes inside streams that leave identities and liveness alone. */
  lemma TouchStructure(s: State, t: State)
    requires Structure(s) && MetricsMatch(t)
    requires t.streams.Keys == s.streams.Keys && forall r <- s.streams :: SameIdentity(s.streams[r], t.streams[r])
    requires t.active == s.active && t.held == s.held && t.admissions == s.admissions && t.config == s.config
    ensures Structure(t) && LiveStreams(t) == LiveStreams(s)
  {
    assert LiveStreams(t) == LiveStreams(s) && Suspended(t) == Suspended(s);
    LimitsFrame(s, t);
    TouchActive(s, t);
    forall q | q in t.held ensures HoldsOwn(t, q) { assert HoldsOwn(s, q); }
    assert LeasesMatch(t);
    assert AdmissionsMatch(t);
    assert SessionsPermitted(t);
  }

  lemma TouchActive(s: State, t: State)
    requires ActiveMatches(s)
    requires t.streams.Keys == s.streams.Keys && forall r <- s.streams :: SameIdentity(s.streams[r], t.streams[r])
    requires t.active == s.active
    ensures ActiveMatches(t)
  {
    forall r | IsLive(t, r)
      ensures t.streams[r].connectionId in t.active && t.active[t.streams[r].connectionId] == r
    {
      assert IsLive(s, r) && SameIdentity(s.streams[r], t.streams[r]);
    }
    forall c | c in t.active ensures IsLive(t, t.active[c]) && t.streams[t.active[c]].connectionId == c {
      assert IsLive(s, s.active[c]) && SameIdentity(s.streams[s.active[c]], t.streams[s.active[c]]);
    }
  }

  lemma EmitMetrics(s: State, m: Metric)
    requires MetricsMatch(s) && !m.Lifecycle?
    ensures MetricsMatch(Emit(s, m))
  {
    var t := Emit(s, m);
    forall why: CloseResult ensures Count(t.metrics, Lifecycle(why)) == |EndedWith(t, why)| {
      assert t.metrics[..|t.metrics| - 1] == s.metrics;
      assert EndedWith(t, why) == EndedWith(s, why);
    }
  }

  lemma EmitStructure(s: State, m: Metric)
    requires Structure(s) && !m.Lifecycle?
    ensures Structure(Emit(s, m))
  {
    EmitMetrics(s, m);
    TouchStructure(s, Emit(s, m));
  }

  lemma WriteStructure(s: State, rs: set<Req>, f: Frame)
    requires Structure(s)
    ensures Structure(Write(s, rs, f)) && LiveStreams(Write(s, rs, f)) == LiveStreams(s)
  {
    var t := Write(s, rs, f);
    forall why: CloseResult ensures EndedWith(t, why) == EndedWith(s, why) {}
    TouchStructure(s, t);
  }

  lemma CloseActive(s: State, rs: set<Req>, why: CloseResult)
    requires ActiveMatches(s)
    ensures ActiveMatches(Close(s, rs, why))
  {
    var t := Close(s, rs, why);
    forall r | IsLive(t, r)
      ensures t.streams[r].connectionId in t.active && t.active[t.streams[r].connectionId] == r
    {
      assert IsLive(s, r) && t.streams[r] == s.streams[r];
    }
    forall c | c in t.active ensures IsLive(t, t.active[c]) && t.streams[t.active[c]].connectionId == c {
      assert IsLive(s, s.active[c]);
    }
  }

  lemma CloseLeases(s: State, rs: set<Req>, why: CloseResult)
    requires LeasesMatch(s) && AdmissionsMatch(s)
    ensures LeasesMatch(Close(s, rs, why)) && LiveStreams(Close(s, rs, why)) == LiveStreams(s) - rs
  {
    var t := Close(s, rs, why);
    assert LiveStreams(t) == LiveStreams(s) - rs;
    assert Suspended(t) == Suspended(s);
    forall r ensures !(r in Suspended(s) && r in LiveStreams(s)) { assert r in s.streams <==> IsStreaming(s, r); }
    forall q | q in t.held ensures HoldsOwn(t, q) { assert HoldsOwn(s, q); }
  }

  lemma CloseMetrics(s: State, rs: set<Req>, why: CloseResult)
    requires MetricsMatch(s)
    ensures MetricsMatch(Close(s, rs, why))
  {
    forall w: CloseResult ensures EndedWith(Close(s, rs, why), w) == EndedWith(s, w) {}
  }

  lemma CloseSessions(s: State, rs: set<Req>, why: CloseResult)
    requires AdmissionsMatch(s) && SessionsPermitted(s)
    ensures AdmissionsMatch(Close(s, rs, why)) && SessionsPermitted(Close(s, rs, why))
  {
    var t := Close(s, rs, why);
    forall r | r in t.streams ensures t.streams[r].session == s.streams[r].session {}
  }

  lemma CloseStructure(s: State, rs: set<Req>, why: CloseResult)
    requires Structure(s)
    ensures Structure(Close(s, rs, why)) && LiveStreams(Close(s, rs, why)) == LiveStreams(s) - rs
  {
    CloseActive(s, rs, why);
    CloseLeases(s, rs, why);
    LimitsFrame(s, Close(s, rs, why));
    CloseMetrics(s, rs, why);
    CloseSessions(s, rs, why);
  }
}
