/**
 * `HealthReadinessController` with its fields. Every method is one stretch of code between two `await`s and
 * moves `model` by exactly one step of the protocol; `timers` stands for the local `timer` of each probe.
 */
module HealthReadiness {
  import opened Common
  import opened HealthProtocol

  class HealthReadinessController {
    const options: Options
    var lifecycleState: Lifecycle
    var cachedProbeResult: Option<Cached>
    var inFlightProbe: Option<ProbeId>
    var ownedTimers: int
    var timers: set<ProbeId>
    ghost var model: State

    ghost predicate Valid()
      reads this
    {
      && model.options == options && model.lifecycle == lifecycleState
      && model.cached == cachedProbeResult && model.inFlight == inFlightProbe
      && model.ownedTimers == ownedTimers && timers == ArmedTimers(model)
      && Inv(model)
    }

    constructor (options: Options, ghost clock: int)
      requires ValidOptions(options)
      ensures Valid() && model == Init(options, clock)
    {
      this.options := options;
      lifecycleState, cachedProbeResult, inFlightProbe := Starting, None, None;
      ownedTimers, timers := 0, {};
      model := Init(options, clock);
    }

    method CompleteStartup()
      requires Valid()
      modifies this
      ensures Valid() && model == CompleteStartupStep(old(model))
    {
      StepInv(model, HealthProtocol.CompleteStartup);
      if lifecycleState.Starting? { lifecycleState := Accepting; }
      model := CompleteStartupStep(model);
    }

    method BeginDrain()
      requires Valid()
      modifies this
      ensures Valid() && model == BeginDrainStep(old(model))
      ensures lifecycleState.Draining? && cachedProbeResult.None?
    {
      StepInv(model, HealthProtocol.BeginDrain);
      model := BeginDrainStep(model);
      if lifecycleState.Draining? { return; }
      lifecycleState, cachedProbeResult := Draining, None;
    }

    /** `readinessSnapshot` up to its `await`, with `#databaseReadiness`; `p` is the promise of a new probe. */
    method ReadinessSnapshot(ghost c: CallId, now: int, p: ProbeId) returns (source: Source)
      requires Valid() && Enabled(model, Call(c, now, p))
      modifies this
      ensures Valid() && model == CallStep(old(model), c, now, p) && source == SourceOf(old(model), now, p)
    {
      StepInv(model, Call(c, now, p));
      ghost var before := model;
      model := CallStep(model, c, now, p);
      if !lifecycleState.Accepting? || !options.configured {
        source := NoProbe;
      } else if cachedProbeResult.Some? && now < cachedProbeResult.value.expiresAt {
        source := FromCache(cachedProbeResult.value.status);
      } else if inFlightProbe.Some? {
        source := FromProbe(inFlightProbe.value);
      } else {
        RunDatabaseProbe(p);
        inFlightProbe := Some(p);
        source := FromProbe(p);
        assert ArmedTimers(model) == ArmedTimers(before) + {p};
      }
      if source != FromProbe(p) || before.inFlight.Some? { assert ArmedTimers(model) == ArmedTimers(before); }
    }

    /** `#runDatabaseProbe` up to its race: the timeout is armed. */
    method RunDatabaseProbe(p: ProbeId)
      modifies this`timers, this`ownedTimers
      ensures timers == old(timers) + {p} && ownedTimers == old(ownedTimers) + 1
    {
      timers := timers + {p};
      ownedTimers := ownedTimers + 1;
    }

    /** The callback of the timeout. */
    method TimerFires(p: ProbeId)
      requires Valid() && Enabled(model, HealthProtocol.TimerFires(p))
      modifies this
      ensures Valid() && model == TimerFiresStep(old(model), p)
    {
      StepInv(model, HealthProtocol.TimerFires(p));
      ghost var before := model;
      model := TimerFiresStep(model, p);
      timers := timers - {p};
      ownedTimers := ownedTimers - 1;
      assert ArmedTimers(model) == ArmedTimers(before) - {p};
    }

    /** The database answers, or fails; nothing of the controller changes before the race is resumed. */
    ghost method ProbeSettles(p: ProbeId, ready: bool)
      requires Valid() && p in model.probes
      modifies this`model
      ensures Valid() && model == ProbeSettlesStep(old(model), p, ready)
    {
      StepInv(model, HealthProtocol.ProbeSettles(p, ready));
      var before := model;
      model := ProbeSettlesStep(model, p, ready);
      assert ArmedTimers(model) == ArmedTimers(before);
    }

    /** `#runDatabaseProbe` from the end of its race, with its `finally`. */
    method RaceOver(p: ProbeId, status: Status, now: int)
      requires Valid() && Enabled(model, Continue(p, now)) && model.probes[p].status == status
      modifies this
      ensures Valid() && model == ContinueStep(old(model), p, now)
    {
      StepInv(model, Continue(p, now));
      ghost var before := model;
      model := ContinueStep(model, p, now);
      var cacheMilliseconds := if status.Ready? then options.positiveCache else options.negativeCache;
      if lifecycleState.Accepting? {
        cachedProbeResult := Some(Cached(now + cacheMilliseconds, status));
      }
      if p in timers {
        timers := timers - {p};
        ownedTimers := ownedTimers - 1;
      }
      assert ArmedTimers(model) == ArmedTimers(before) - {p};
    }

    /** The `finally` callback of `#databaseReadiness`. */
    method ProbeFinally(p: ProbeId)
      requires Valid() && Enabled(model, FinallyRuns(p))
      modifies this
      ensures Valid() && model == FinallyStep(old(model), p)
    {
      StepInv(model, FinallyRuns(p));
      ghost var before := model;
      model := FinallyStep(model, p);
      if inFlightProbe == Some(p) { inFlightProbe := None; }
      assert ArmedTimers(model) == ArmedTimers(before);
    }

    /** `readinessSnapshot` from its `await`, which gave `status`; a ready snapshot is never given while draining. */
    method Resume(ghost c: CallId, status: Option<Status>) returns (ready: bool)
      requires Valid() && Enabled(model, HealthProtocol.Resume(c))
      requires status == SettledStatus(model, model.callers[c].source)
      modifies this`model
      ensures Valid() && model == ResumeStep(old(model), c)
      ensures model.callers[c] == Answered(old(model).callers[c].source, status, ready)
      ensures ready <==> lifecycleState.Accepting? && status == Some(Ready)
    {
      StepInv(model, HealthProtocol.Resume(c));
      ghost var before := model;
      model := ResumeStep(model, c);
      ready := lifecycleState.Accepting? && status == Some(Ready);
      assert ArmedTimers(model) == ArmedTimers(before);
    }
  }
}
