/**
 * The health and readiness controller of `apps/api/src/health-readiness.ts` as a state machine. A step is one
 * stretch of code between two `await`s, or one thing the environment does; all of them interleave freely.
 */
module HealthProtocol {
  import opened Common

  datatype Lifecycle = Starting | Accepting | Draining

  /** What a probe of the database ends with. */
  datatype Status = Ready | NotReady | Timeout

  /** Options within the bounds that the constructor enforces. */
  datatype Options = Options(configured: bool, positiveCache: nat, negativeCache: nat)

  predicate ValidOptions(o: Options) { o.positiveCache <= 1_000 && o.negativeCache <= 250 }

  function Ttl(o: Options, status: Status): nat { if status.Ready? then o.positiveCache else o.negativeCache }

  datatype Cached = Cached(expiresAt: int, status: Status)

  type ProbeId = nat
  type CallId = nat

  /**
   * One run of `#runDatabaseProbe`: its race is open, or decided while the function is still suspended, or the
   * function has returned, at the time it read from the clock. `timer` says whether its timer is armed.
   */
  datatype Probe = Racing | Decided(status: Status, timer: bool) | Done(status: Status, at: int)

  predicate Armed(p: Probe) { p.Racing? || (p.Decided? && p.timer) }

  /** One call of `readinessSnapshot`, and where the status it reports came from. */
  datatype Source = NoProbe | FromCache(status: Status) | FromProbe(p: ProbeId)
  datatype Caller = Waiting(source: Source) | Answered(source: Source, status: Option<Status>, ready: bool)

  datatype State = State(
    options: Options,
    lifecycle: Lifecycle,
    cached: Option<Cached>,
    inFlight: Option<ProbeId>,
    ownedTimers: int,
    clock: int,
    probes: map<ProbeId, Probe>,
    callers: map<CallId, Caller>)

  function Init(options: Options, clock: int): State {
    State(options, Starting, None, None, 0, clock, map[], map[])
  }

  datatype Event =
    | CompleteStartup
    | BeginDrain
    | Call(c: CallId, now: int, p: ProbeId)
    | ProbeSettles(p: ProbeId, ready: bool)
    | TimerFires(p: ProbeId)
    | Continue(p: ProbeId, now: int)
    | FinallyRuns(p: ProbeId)
    | Resume(c: CallId)

  predicate Enabled(s: State, e: Event) {
    match e
    case CompleteStartup => true
    case BeginDrain => true
    case Call(c, now, p) => c !in s.callers && s.clock <= now && p !in s.probes
    case ProbeSettles(p, _) => p in s.probes
    case TimerFires(p) => p in s.probes && Armed(s.probes[p])
    case Continue(p, now) => p in s.probes && s.probes[p].Decided? && s.clock <= now
    case FinallyRuns(p) => p in s.probes && s.probes[p].Done?
    case Resume(c) => c in s.callers && CanResume(s, s.callers[c])
  }

  /** A waiting call resumes once its promise is settled. */
  predicate CanResume(s: State, caller: Caller) {
    caller.Waiting? && (caller.source.FromProbe? ==> caller.source.p in s.probes && s.probes[caller.source.p].Done?)
  }

  function CompleteStartupStep(s: State): State {
    if s.lifecycle.Starting? then s.(lifecycle := Accepting) else s
  }

  function BeginDrainStep(s: State): State {
    if s.lifecycle.Draining? then s else s.(lifecycle := Draining, cached := None)
  }

  /** Where a call made now gets its status from. */
  function SourceOf(s: State, now: int, p: ProbeId): Source {
    if !s.lifecycle.Accepting? || !s.options.configured then NoProbe
    else if s.cached.Some? && now < s.cached.value.expiresAt then FromCache(s.cached.value.status)
    else if s.inFlight.Some? then FromProbe(s.inFlight.value)
    else FromProbe(p)
  }

  /** `readinessSnapshot` up to its `await`; `p` names the probe it starts, if it starts one. */
  function CallStep(s: State, c: CallId, now: int, p: ProbeId): State {
    var source := SourceOf(s, now, p);
    var t := s.(clock := now,
                callers := s.callers[c := if source.NoProbe? then Answered(NoProbe, None, false) else Waiting(source)]);
    if source == FromProbe(p) && s.inFlight.None? then
      t.(probes := s.probes[p := Racing], inFlight := Some(p), ownedTimers := s.ownedTimers + 1)
    else t
  }

  function ProbeSettlesStep(s: State, p: ProbeId, ready: bool): State
    requires p in s.probes
  {
    if s.probes[p].Racing? then
      s.(probes := s.probes[p := Decided(if ready then Ready else NotReady, true)])
    else s
  }

  function TimerFiresStep(s: State, p: ProbeId): State
    requires p in s.probes && Armed(s.probes[p])
  {
    s.(probes := s.probes[p := Decided(if s.probes[p].Racing? then Timeout else s.probes[p].status, false)],
       ownedTimers := s.ownedTimers - 1)
  }

  /** `#runDatabaseProbe` from the end of its race. */
  function ContinueStep(s: State, p: ProbeId, now: int): State
    requires p in s.probes && s.probes[p].Decided?
  {
    var status := s.probes[p].status;
    s.(clock := now,
       cached := if s.lifecycle.Accepting? then Some(Cached(now + Ttl(s.options, status), status)) else s.cached,
       ownedTimers := if s.probes[p].timer then s.ownedTimers - 1 else s.ownedTimers,
       probes := s.probes[p := Done(status, now)])
  }

  function FinallyStep(s: State, p: ProbeId): State {
    if s.inFlight == Some(p) then s.(inFlight := None) else s
  }

  function SettledStatus(s: State, source: Source): Option<Status> {
    match source
    case NoProbe => None
    case FromCache(status) => Some(status)
    case FromProbe(p) => if p in s.probes && s.probes[p].Done? then Some(s.probes[p].status) else None
  }

  /** `readinessSnapshot` from the end of its `await`. */
  function ResumeStep(s: State, c: CallId): State
    requires c in s.callers
  {
    var source := s.callers[c].source;
    var status := SettledStatus(s, source);
    s.(callers := s.callers[c := Answered(source, status, s.lifecycle.Accepting? && status == Some(Ready))])
  }

  function Step(s: State, e: Event): State
    requires Enabled(s, e)
  {
    match e
    case CompleteStartup => CompleteStartupStep(s)
    case BeginDrain => BeginDrainStep(s)
    case Call(c, now, p) => CallStep(s, c, now, p)
    case ProbeSettles(p, ready) => ProbeSettlesStep(s, p, ready)
    case TimerFires(p) => TimerFiresStep(s, p)
    case Continue(p, now) => ContinueStep(s, p, now)
    case FinallyRuns(p) => FinallyStep(s, p)
    case Resume(c) => ResumeStep(s, c)
  }

  predicate IsRun(s: State, es: seq<Event>)
    decreases |es|
  {
    es == [] || (Enabled(s, es[0]) && IsRun(Step(s, es[0]), es[1..]))
  }

  function Run(s: State, es: seq<Event>): State
    requires IsRun(s, es)
    decreases |es|
  {
    if es == [] then s else Run(Step(s, es[0]), es[1..])
  }

  // ------------------------------------------------------------- invariant

  /** A cached result belongs to a finished probe of the time it was accepting. */
  ghost predicate CacheOk(s: State) {
    s.cached.Some? ==>
      && s.lifecycle.Accepting?
      && exists p :: p in s.probes && s.probes[p].Done? && CachedFrom(s, s.cached.value, s.probes[p])
  }

  predicate CachedFrom(s: State, cached: Cached, p: Probe)
    requires p.Done?
  {
    p.status == cached.status && p.at <= s.clock && cached.expiresAt == p.at + Ttl(s.options, p.status)
  }

  /** A probe that has not returned is the one in flight. */
  ghost predicate FlightOk(s: State) {
    && (s.inFlight.Some? ==> s.inFlight.value in s.probes)
    && (forall p {:trigger s.probes[p]} | p in s.probes && !s.probes[p].Done? :: s.inFlight == Some(p))
    && s.ownedTimers == (if s.inFlight.Some? && Armed(s.probes[s.inFlight.value]) then 1 else 0)
  }

  predicate CallerOk(s: State, caller: Caller) {
    && (caller.source.FromProbe? ==> caller.source.p in s.probes)
    && (caller.Answered? ==> caller.status == SettledStatus(s, caller.source))
    && (caller.Answered? && caller.source.FromProbe? ==> s.probes[caller.source.p].Done?)
    && (caller.Answered? && caller.ready ==> caller.status == Some(Ready))
  }

  ghost predicate CallersOk(s: State) {
    forall c {:trigger s.callers[c]} | c in s.callers :: CallerOk(s, s.callers[c])
  }

  ghost predicate Inv(s: State) { ValidOptions(s.options) && CacheOk(s) && FlightOk(s) && CallersOk(s) }

  /** Probes only move forward. */
  ghost predicate ProbesKept(s: State, t: State) {
    forall p {:trigger s.probes[p]} | p in s.probes ::
      p in t.probes && (s.probes[p].Done? ==> t.probes[p] == s.probes[p])
  }

  lemma CallersKept(s: State, t: State)
    requires CallersOk(s) && ProbesKept(s, t) && t.callers == s.callers
    ensures CallersOk(t)
  {
  }

  lemma CacheKept(s: State, t: State)
    requires CacheOk(s) && ProbesKept(s, t) && s.clock <= t.clock && t.options == s.options
    requires t.cached == s.cached && t.lifecycle == s.lifecycle
    ensures CacheOk(t)
  {
    if t.cached.Some? {
      var p :| p in s.probes && s.probes[p].Done? && CachedFrom(s, s.cached.value, s.probes[p]);
      assert CachedFrom(t, t.cached.value, t.probes[p]);
    }
  }

  lemma CallInv(s: State, c: CallId, now: int, p: ProbeId)
    requires Inv(s) && Enabled(s, Call(c, now, p))
    ensures Inv(CallStep(s, c, now, p))
  {
    var t := CallStep(s, c, now, p);
    CacheKept(s, t);
    forall d | d in t.callers ensures CallerOk(t, t.callers[d]) {
      if d != c { assert CallerOk(s, s.callers[d]); }
    }
  }

  lemma ContinueInv(s: State, p: ProbeId, now: int)
    requires Inv(s) && Enabled(s, Continue(p, now))
    ensures Inv(ContinueStep(s, p, now))
  {
    var t := ContinueStep(s, p, now);
    CallersKept(s, t);
    if s.lifecycle.Accepting? {
      assert CachedFrom(t, t.cached.value, t.probes[p]);
    } else {
      CacheKept(s, t);
    }
  }

  lemma ProbeInv(s: State, e: Event)
    requires Inv(s) && Enabled(s, e) && (e.ProbeSettles? || e.TimerFires?)
    ensures Inv(Step(s, e))
  {
    CallersKept(s, Step(s, e));
    CacheKept(s, Step(s, e));
  }

  lemma ResumeInv(s: State, c: CallId)
    requires Inv(s) && Enabled(s, Resume(c))
    ensures Inv(ResumeStep(s, c))
  {
    var t := ResumeStep(s, c);
    CacheKept(s, t);
    forall d | d in t.callers ensures CallerOk(t, t.callers[d]) { assert CallerOk(s, s.callers[d]); }
  }

  lemma LifecycleInv(s: State, t: State)
    requires Inv(s) && t.callers == s.callers && t.probes == s.probes && t.options == s.options && t.clock == s.clock
    requires t.inFlight == s.inFlight && t.ownedTimers == s.ownedTimers
    requires t.cached.None? || (t.cached == s.cached && t.lifecycle.Accepting?)
    ensures Inv(t)
  {
    CallersKept(s, t);
    if t.cached.Some? {
      var p :| p in s.probes && s.probes[p].Done? && CachedFrom(s, s.cached.value, s.probes[p]);
      assert CachedFrom(t, t.cached.value, t.probes[p]);
    }
  }

  lemma FinallyInv(s: State, p: ProbeId)
    requires Inv(s) && Enabled(s, FinallyRuns(p))
    ensures Inv(FinallyStep(s, p))
  {
    CallersKept(s, FinallyStep(s, p));
    CacheKept(s, FinallyStep(s, p));
  }

  lemma StepInv(s: State, e: Event)
    requires Inv(s) && Enabled(s, e)
    ensures Inv(Step(s, e))
  {
    match e
    case CompleteStartup => if s.lifecycle.Starting? { LifecycleInv(s, CompleteStartupStep(s)); }
    case BeginDrain => if !s.lifecycle.Draining? { LifecycleInv(s, BeginDrainStep(s)); }
    case Call(c, now, p) => CallInv(s, c, now, p);
    case ProbeSettles(_, _) => ProbeInv(s, e);
    case TimerFires(_) => ProbeInv(s, e);
    case Continue(p, now) => ContinueInv(s, p, now);
    case FinallyRuns(p) => FinallyInv(s, p);
    case Resume(c) => ResumeInv(s, c);
  }

  lemma {:induction false} RunInv(s: State, es: seq<Event>)
    requires Inv(s) && IsRun(s, es)
    ensures Inv(Run(s, es)) && s.clock <= Run(s, es).clock
    decreases |es|
  {
    if es != [] {
      StepInv(s, es[0]);
      RunInv(Step(s, es[0]), es[1..]);
    }
  }

  // -------------------------------------------------------------- theorems

  function OpenRaces(s: State): set<ProbeId> { set p | p in s.probes && !s.probes[p].Done? }

  function ArmedTimers(s: State): set<ProbeId> { set p | p in s.probes && Armed(s.probes[p]) }

  /** However callers, timeouts and answers interleave, one race is open at most, and timers are counted exactly. */
  lemma SingleFlight(options: Options, clock: int, es: seq<Event>)
    requires ValidOptions(options) && IsRun(Init(options, clock), es)
    ensures var s := Run(Init(options, clock), es);
            && |OpenRaces(s)| <= 1
            && s.ownedTimers == |ArmedTimers(s)|
            && ArmedTimers(s) <= OpenRaces(s)
            && (OpenRaces(s) != {} ==> s.inFlight.Some? && OpenRaces(s) == {s.inFlight.value})
  {
    RunInv(Init(options, clock), es);
    OneRace(Run(Init(options, clock), es));
  }

  lemma OneRace(s: State)
    requires FlightOk(s)
    ensures |OpenRaces(s)| <= 1 && s.ownedTimers == |ArmedTimers(s)| && ArmedTimers(s) <= OpenRaces(s)
    ensures OpenRaces(s) != {} ==> s.inFlight.Some? && OpenRaces(s) == {s.inFlight.value}
  {
    if s.inFlight.Some? {
      var p := s.inFlight.value;
      assert OpenRaces(s) <= {p} && ArmedTimers(s) <= {p};
      assert OpenRaces(s) == if s.probes[p].Done? then {} else {p};
      assert ArmedTimers(s) == if Armed(s.probes[p]) then {p} else {};
    } else {
      assert OpenRaces(s) == {} && ArmedTimers(s) == {};
    }
  }

  lemma {:induction false} OptionsKept(s: State, es: seq<Event>)
    requires IsRun(s, es)
    ensures Run(s, es).options == s.options
    decreases |es|
  {
    if es != [] { OptionsKept(Step(s, es[0]), es[1..]); }
  }

  /**
   * In every run a status is served from the cache only while the controller accepts, and was found by a finished
   * probe less than its configured time to live ago, which is at most a second for a ready status and a quarter of
   * one for any other.
   */
  lemma CacheFresh(options: Options, clock: int, es: seq<Event>, c: CallId, now: int, p: ProbeId)
    requires ValidOptions(options) && IsRun(Init(options, clock), es)
    requires Enabled(Run(Init(options, clock), es), Call(c, now, p))
    requires SourceOf(Run(Init(options, clock), es), now, p).FromCache?
    ensures var s := Run(Init(options, clock), es);
            var status := SourceOf(s, now, p).status;
            && s.lifecycle.Accepting?
            && Ttl(options, status) <= (if status.Ready? then 1_000 else 250)
            && exists q :: && q in s.probes && s.probes[q].Done? && s.probes[q].status == status
                           && 0 <= now - s.probes[q].at < Ttl(options, status)
  {
    RunInv(Init(options, clock), es);
    OptionsKept(Init(options, clock), es);
    var s := Run(Init(options, clock), es);
    var q :| q in s.probes && s.probes[q].Done? && CachedFrom(s, s.cached.value, s.probes[q]);
    assert 0 <= now - s.probes[q].at < Ttl(options, s.probes[q].status);
  }

  /**
   * In every run all callers that shared a probe report what its race ended with, and so the same; a ready
   * report needs a ready probe.
   */
  lemma JoinersAgree(options: Options, clock: int, es: seq<Event>, c: CallId, d: CallId)
    requires ValidOptions(options) && IsRun(Init(options, clock), es)
    requires var callers := Run(Init(options, clock), es).callers;
             c in callers && d in callers && callers[c].Answered? && callers[d].Answered?
             && callers[c].source.FromProbe? && callers[d].source == callers[c].source
    ensures var s := Run(Init(options, clock), es);
            var p := s.callers[c].source.p;
            && p in s.probes && s.probes[p].Done?
            && s.callers[c].status == s.callers[d].status == Some(s.probes[p].status)
            && (s.callers[c].ready ==> s.probes[p].status.Ready?)
  {
    RunInv(Init(options, clock), es);
    var s := Run(Init(options, clock), es);
    assert CallerOk(s, s.callers[c]) && CallerOk(s, s.callers[d]);
  }

  /** Nothing that happens turns a draining controller back, and no report made then is ready. */
  lemma DrainingStep(s: State, e: Event, c: CallId)
    requires Inv(s) && s.lifecycle.Draining? && Enabled(s, e)
    ensures var t := Step(s, e);
            && t.lifecycle.Draining? && t.cached.None? && t.probes.Keys == s.probes.Keys
            && (c in t.callers && t.callers[c].Answered? && t.callers[c].ready ==>
                  c in s.callers && s.callers[c] == t.callers[c])
  {
  }

  /**
   * Draining is absorbing: in every run from a draining state nothing is cached, no probe is started, and a
   * report that says ready was made before.
   */
  lemma {:induction false} DrainAbsorbs(s: State, es: seq<Event>, c: CallId)
    requires Inv(s) && s.lifecycle.Draining? && IsRun(s, es)
    ensures var t := Run(s, es);
            && t.lifecycle.Draining? && t.cached.None? && t.probes.Keys == s.probes.Keys
            && (c in t.callers && t.callers[c].Answered? && t.callers[c].ready ==>
                  c in s.callers && s.callers[c] == t.callers[c])
    decreases |es|
  {
    if es != [] {
      StepInv(s, es[0]);
      DrainingStep(s, es[0], c);
      DrainAbsorbs(Step(s, es[0]), es[1..], c);
    }
  }

  /** A database that never answers holds nobody up: the timer alone lets every caller of the probe be answered. */
  lemma TimeoutReleases(s: State, p: ProbeId, c: CallId, now: int)
    requires Inv(s) && p in s.probes && s.probes[p].Racing? && s.clock <= now
    requires c in s.callers && s.callers[c] == Waiting(FromProbe(p))
    ensures var es := [TimerFires(p), Continue(p, now), FinallyRuns(p), Resume(c)];
            && IsRun(s, es)
            && c in Run(s, es).callers && Run(s, es).callers[c] == Answered(FromProbe(p), Some(Timeout), false)
            && Run(s, es).inFlight.None? && Run(s, es).ownedTimers == 0
  {
    var a := TimerFiresStep(s, p);
    var b := ContinueStep(a, p, now);
    var d := FinallyStep(b, p);
    var es := [TimerFires(p), Continue(p, now), FinallyRuns(p), Resume(c)];
    assert es[1..] == [Continue(p, now), FinallyRuns(p), Resume(c)];
    assert es[1..][1..] == [FinallyRuns(p), Resume(c)];
    assert es[1..][1..][1..] == [Resume(c)];
    assert es[1..][1..][1..][1..] == [];
    assert IsRun(ResumeStep(d, c), []);
    assert IsRun(d, [Resume(c)]) && Run(d, [Resume(c)]) == ResumeStep(d, c);
    assert IsRun(b, es[1..][1..]) && Run(b, es[1..][1..]) == ResumeStep(d, c);
    assert IsRun(a, es[1..]) && Run(a, es[1..]) == ResumeStep(d, c);
  }

  // ---------------------------------------------------- what the database said

  /** What can decide the race of a probe: the database settles, or the timeout fires. */
  predicate Decides(e: Event, p: ProbeId) { (e.ProbeSettles? && e.p == p) || e == TimerFires(p) }

  /** The first event that decides the race of a probe. */
  function FirstWord(es: seq<Event>, p: ProbeId): Option<Event> {
    if es == [] then None
    else
      var before, last := FirstWord(es[..|es| - 1], p), es[|es| - 1];
      if before.Some? then before else if Decides(last, p) then Some(last) else None
  }

  ghost predicate DecidesFirst(es: seq<Event>, i: nat, p: ProbeId) {
    i < |es| && Decides(es[i], p) && forall j | 0 <= j < i :: !Decides(es[j], p)
  }

  /** What is called the first word is first. */
  lemma {:induction false} FirstWordAt(es: seq<Event>, p: ProbeId) returns (i: nat)
    ensures FirstWord(es, p).None? ==> forall j | 0 <= j < |es| :: !Decides(es[j], p)
    ensures FirstWord(es, p).Some? ==> DecidesFirst(es, i, p) && es[i] == FirstWord(es, p).value
  {
    i := 0;
    if es != [] {
      var rest := es[..|es| - 1];
      i := FirstWordAt(rest, p);
      forall j | 0 <= j < |rest| ensures rest[j] == es[j] {}
      if FirstWord(rest, p).None? { i := |rest|; }
    }
  }

  /** The event that makes a probe report a status. */
  predicate Says(e: Event, p: ProbeId, status: Status) {
    match status
    case Ready => e == ProbeSettles(p, true)
    case NotReady => e == ProbeSettles(p, false)
    case Timeout => e == TimerFires(p)
  }

  /** A probe against what was said of it so far. */
  ghost predicate Told(es: seq<Event>, p: ProbeId, probe: Probe) {
    var word := FirstWord(es, p);
    match probe
    case Racing => word.None?
    case Decided(status, _) => word.Some? && Says(word.value, p, status)
    case Done(status, _) => word.Some? && Says(word.value, p, status)
  }

  /** Some probe that is done has reported the status. */
  ghost predicate Found(s: State, status: Status) {
    exists p :: p in s.probes && s.probes[p].Done? && s.probes[p].status == status
  }

  /** The probes, and what callers took from the cache, go back to what was said. */
  ghost predicate History(es: seq<Event>, s: State) {
    && (forall p {:trigger s.probes[p]} | p in s.probes :: Told(es, p, s.probes[p]))
    && (forall p {:trigger FirstWord(es, p)} | p !in s.probes :: FirstWord(es, p).None?)
    && (forall c {:trigger s.callers[c]} | c in s.callers && s.callers[c].source.FromCache? ::
          Found(s, s.callers[c].source.status))
  }

  lemma OneMoreWord(es: seq<Event>, e: Event, p: ProbeId)
    ensures FirstWord(es + [e], p) ==
            if FirstWord(es, p).Some? then FirstWord(es, p) else if Decides(e, p) then Some(e) else None
  {
    assert (es + [e])[..|es|] == es;
  }

  lemma ToldStep(es: seq<Event>, s: State, e: Event, p: ProbeId)
    requires History(es, s) && Enabled(s, e)
    ensures p in Step(s, e).probes ==> Told(es + [e], p, Step(s, e).probes[p])
    ensures p !in Step(s, e).probes ==> FirstWord(es + [e], p).None?
  {
    OneMoreWord(es, e, p);
    assert p in s.probes ==> Told(es, p, s.probes[p]);
  }

  lemma FoundKept(s: State, t: State, status: Status)
    requires ProbesKept(s, t) && Found(s, status)
    ensures Found(t, status)
  {
    var p :| p in s.probes && s.probes[p].Done? && s.probes[p].status == status;
    assert t.probes[p] == s.probes[p];
  }

  lemma CacheFound(s: State, now: int, p: ProbeId)
    requires CacheOk(s) && SourceOf(s, now, p).FromCache?
    ensures Found(s, SourceOf(s, now, p).status)
  {
    var q :| q in s.probes && s.probes[q].Done? && CachedFrom(s, s.cached.value, s.probes[q]);
  }

  lemma SourcesFound(es: seq<Event>, s: State, e: Event, c: CallId)
    requires Inv(s) && History(es, s) && Enabled(s, e)
    requires c in Step(s, e).callers && Step(s, e).callers[c].source.FromCache?
    ensures Found(Step(s, e), Step(s, e).callers[c].source.status)
  {
    var t := Step(s, e);
    if c in s.callers {
      assert t.callers[c].source == s.callers[c].source;
      FoundKept(s, t, s.callers[c].source.status);
    } else {
      CacheFound(s, e.now, e.p);
      FoundKept(s, t, SourceOf(s, e.now, e.p).status);
    }
  }

  lemma HistoryStep(es: seq<Event>, s: State, e: Event)
    requires Inv(s) && History(es, s) && Enabled(s, e)
    ensures History(es + [e], Step(s, e))
  {
    var t := Step(s, e);
    forall p | p in t.probes ensures Told(es + [e], p, t.probes[p]) { ToldStep(es, s, e, p); }
    forall p | p !in t.probes ensures FirstWord(es + [e], p).None? { ToldStep(es, s, e, p); }
    forall c | c in t.callers && t.callers[c].source.FromCache? ensures Found(t, t.callers[c].source.status) {
      SourcesFound(es, s, e, c);
    }
  }

  /** The last event of a run. */
  lemma {:induction false} RunLast(s: State, es: seq<Event>, e: Event)
    requires IsRun(s, es + [e])
    ensures IsRun(s, es) && Enabled(Run(s, es), e) && Run(s, es + [e]) == Step(Run(s, es), e)
    decreases |es|
  {
    var all := es + [e];
    if es == [] {
      assert all == [e] && all[1..] == [];
    } else {
      assert all[0] == es[0] && all[1..] == es[1..] + [e];
      RunLast(Step(s, es[0]), es[1..], e);
    }
  }

  lemma {:induction false} HistoryRun(options: Options, clock: int, es: seq<Event>)
    requires ValidOptions(options) && IsRun(Init(options, clock), es)
    ensures Inv(Run(Init(options, clock), es)) && History(es, Run(Init(options, clock), es))
    decreases |es|
  {
    var s := Init(options, clock);
    RunInv(s, es);
    if es != [] {
      var rest, last := es[..|es| - 1], es[|es| - 1];
      assert es == rest + [last];
      RunLast(s, rest, last);
      HistoryRun(options, clock, rest);
      HistoryStep(rest, Run(s, rest), last);
    }
  }

  /** In a run `p` was first decided by the event that makes it report `status`. */
  ghost predicate Reports(es: seq<Event>, p: ProbeId, status: Status) {
    exists i: nat :: DecidesFirst(es, i, p) && Says(es[i], p, status)
  }

  lemma ToldReports(es: seq<Event>, s: State, p: ProbeId)
    requires History(es, s) && p in s.probes && !s.probes[p].Racing?
    ensures Reports(es, p, s.probes[p].status)
  {
    assert Told(es, p, s.probes[p]);
    var i := FirstWordAt(es, p);
  }

  /**
   * In every run a probe reports what its race was decided by: ready if and only if the database was first to settle
   * and said so, not ready if and only if it was first and did not, and a timeout if and only if the timer was first.
   */
  lemma ProbeReports(options: Options, clock: int, es: seq<Event>, p: ProbeId, status: Status)
    requires ValidOptions(options) && IsRun(Init(options, clock), es)
    requires var s := Run(Init(options, clock), es); p in s.probes && !s.probes[p].Racing?
    ensures Run(Init(options, clock), es).probes[p].status == status <==> Reports(es, p, status)
  {
    HistoryRun(options, clock, es);
    var s := Run(Init(options, clock), es);
    ToldReports(es, s, p);
    if Reports(es, p, status) {
      var i: nat :| DecidesFirst(es, i, p) && Says(es[i], p, status);
      var j: nat :| DecidesFirst(es, j, p) && Says(es[j], p, s.probes[p].status);
      assert i == j;
    }
  }

  /** In every run the status that the cache holds was reported by a probe for just that reason. */
  lemma CacheReports(options: Options, clock: int, es: seq<Event>)
    requires ValidOptions(options) && IsRun(Init(options, clock), es)
    ensures var s := Run(Init(options, clock), es);
            s.cached.Some? ==> exists p :: p in s.probes && Reports(es, p, s.cached.value.status)
  {
    HistoryRun(options, clock, es);
    var s := Run(Init(options, clock), es);
    if s.cached.Some? {
      var p :| p in s.probes && s.probes[p].Done? && CachedFrom(s, s.cached.value, s.probes[p]);
      ToldReports(es, s, p);
    }
  }

  /**
   * In every run an answer goes back to the database: what is answered from a probe is what that probe reports, what
   * is answered from the cache is what some probe reported, and only a database that was first to say ready makes an
   * answer ready.
   */
  lemma AnswerReports(options: Options, clock: int, es: seq<Event>, c: CallId)
    requires ValidOptions(options) && IsRun(Init(options, clock), es)
    requires var callers := Run(Init(options, clock), es).callers; c in callers && callers[c].Answered?
    ensures var caller := Run(Init(options, clock), es).callers[c];
            && (caller.source.NoProbe? ==> caller.status == None && !caller.ready)
            && (caller.source.FromProbe? ==> caller.status.Some? && Reports(es, caller.source.p, caller.status.value))
            && (caller.source.FromCache? ==>
                  caller.status == Some(caller.source.status) && exists p :: Reports(es, p, caller.source.status))
            && (caller.ready ==> exists p, i: nat :: DecidesFirst(es, i, p) && es[i] == ProbeSettles(p, true))
  {
    HistoryRun(options, clock, es);
    var s := Run(Init(options, clock), es);
    var caller := s.callers[c];
    assert CallerOk(s, caller);
    match caller.source
    case NoProbe =>
    case FromProbe(p) => ToldReports(es, s, p);
    case FromCache(status) =>
      var p :| p in s.probes && s.probes[p].Done? && s.probes[p].status == status;
      ToldReports(es, s, p);
  }

  /** A database that says ready in time is heard: a caller of the probe is told so while the controller accepts. */
  lemma ReadyIsHeard(s: State, p: ProbeId, c: CallId, now: int)
    requires Inv(s) && s.lifecycle.Accepting? && p in s.probes && s.probes[p].Racing? && s.clock <= now
    requires c in s.callers && s.callers[c] == Waiting(FromProbe(p))
    ensures var es := [ProbeSettles(p, true), Continue(p, now), FinallyRuns(p), Resume(c)];
            && IsRun(s, es)
            && c in Run(s, es).callers && Run(s, es).callers[c] == Answered(FromProbe(p), Some(Ready), true)
  {
    var a := ProbeSettlesStep(s, p, true);
    var b := ContinueStep(a, p, now);
    var d := FinallyStep(b, p);
    var es := [ProbeSettles(p, true), Continue(p, now), FinallyRuns(p), Resume(c)];
    assert es[1..] == [Continue(p, now), FinallyRuns(p), Resume(c)];
    assert es[1..][1..] == [FinallyRuns(p), Resume(c)];
    assert es[1..][1..][1..] == [Resume(c)];
    assert es[1..][1..][1..][1..] == [];
    assert IsRun(ResumeStep(d, c), []);
    assert IsRun(d, [Resume(c)]) && Run(d, [Resume(c)]) == ResumeStep(d, c);
    assert IsRun(b, es[1..][1..]) && Run(b, es[1..][1..]) == ResumeStep(d, c);
    assert IsRun(a, es[1..]) && Run(a, es[1..]) == ResumeStep(d, c);
  }

  /**
   * A call takes a status from the cache while that is fresh; otherwise it waits for the probe in flight, and starts
   * one only if there is none; without a probe to ask, or when the controller does not accept, it is answered at once.
   */
  lemma CallTakes(s: State, c: CallId, now: int, p: ProbeId)
    requires Inv(s) && Enabled(s, Call(c, now, p))
    ensures var t := Step(s, Call(c, now, p));
            && c in t.callers && t.inFlight == (if t.callers[c] == Waiting(FromProbe(p)) then Some(p) else s.inFlight)
            && (!s.lifecycle.Accepting? || !s.options.configured ==>
                  t.callers[c] == Answered(NoProbe, None, false) && t.probes == s.probes)
            && (s.lifecycle.Accepting? && s.options.configured && s.cached.Some? && now < s.cached.value.expiresAt ==>
                  t.callers[c] == Waiting(FromCache(s.cached.value.status)) && t.probes == s.probes)
            && (s.lifecycle.Accepting? && s.options.configured
                && !(s.cached.Some? && now < s.cached.value.expiresAt) ==>
                  && t.inFlight.Some? && t.callers[c] == Waiting(FromProbe(t.inFlight.value))
                  && (s.inFlight.Some? ==> t.inFlight == s.inFlight && t.probes == s.probes)
                  && (s.inFlight.None? ==> t.inFlight == Some(p) && t.probes == s.probes[p := Racing]))
  {
  }
}
