/**
 * `RealtimeTransport` with its mutable streams, its insertion-ordered map and its registry. Every method is
 * one stretch of code between two `await`s, and moves `model` by exactly one step of the protocol.
 */
module RealtimeTransport {
  import opened Common
  import opened RealtimeTypes
  import opened RealtimeProtocol
  import opened RealtimeInvariants
  import opened RealtimeSteps
  import opened RealtimeRuns
  import opened ConnectionRegistry

  /** `ActiveStream` together with the part of its response that is written to. */
  class ActiveStream {
    const session: Session
    const lease: Lease
    const req: Req
    var closed: bool
    /** The timer handles that are armed: `heartbeat`, `revalidation` and `lifetime`. */
    var timers: set<Timer>
    var unsubscribe: bool
    var listening: bool
    var destroyed: bool
    var writableEnded: bool
    var endCalls: nat
    var frames: seq<Frame>
    ghost var phase: Phase
    ghost var from: nat
    ghost var upto: nat

    ghost function View(): Stream
      reads this
    {
      Stream(session, lease.connectionId, phase, timers, unsubscribe, listening, destroyed, writableEnded,
             endCalls, frames, from, upto)
    }

    ghost predicate Valid()
      reads this
    {
      closed == !phase.Live?
    }

    /** Registration: the first frame, three timers, the close listener and perhaps the subscription. */
    constructor (req: Req, session: Session, lease: Lease, subscribed: bool, destroyed: bool,
                 writableEnded: bool, ghost now: nat)
      ensures Valid() && this.session == session && this.lease == lease && this.req == req
      ensures View() == Stream(session, lease.connectionId, Live, ALL_TIMERS, subscribed, true, destroyed,
                               writableEnded, 0, [Refresh], now, now)
    {
      this.req, this.session, this.lease := req, session, lease;
      this.closed, this.frames := false, [Refresh];
      this.timers := ALL_TIMERS;
      this.unsubscribe, this.listening := subscribed, true;
      this.destroyed, this.writableEnded, this.endCalls := destroyed, writableEnded, 0;
      this.phase, this.from, this.upto := Live, now, now;
    }

    method Write(f: Frame)
      requires Valid()
      modifies this
      ensures Valid() && View() == old(View()).(frames := old(frames) + [f])
    {
      frames := frames + [f];
    }

    /** The part of `#close` that touches the stream only. */
    method Shut(why: CloseResult, ghost now: nat)
      requires Valid() && !closed
      modifies this
      ensures Valid() && View() == RealtimeProtocol.Shut(old(View()), why, now)
    {
      closed := true;
      timers := {};
      unsubscribe, listening := false, false;
      phase, upto := Closing(why), now;
    }

    method Destroy()
      requires Valid()
      modifies this
      ensures Valid() && View() == old(View()).(destroyed := true)
    {
      destroyed := true;
    }

    /** The end of the response after the lease has been released. */
    method End()
      requires Valid() && phase.Closing?
      modifies this
      ensures Valid()
      ensures View() == old(View()).(phase := Ended(old(phase).result), writableEnded := true,
                                     endCalls := old(endCalls) + (if old(writableEnded) then 0 else 1))
    {
      if !writableEnded {
        writableEnded, endCalls := true, endCalls + 1;
      }
      phase := Ended(phase.result);
    }
  }

  /** One entry of the list behind a Map (section 24.1 of ECMA-262): deletion empties an entry in place. */
  datatype Slot = Empty | Entry(key: string, stream: ActiveStream)

  predicate HasKey(slots: seq<Slot>, key: string) {
    exists i | 0 <= i < |slots| :: slots[i].Entry? && slots[i].key == key
  }

  function Delete(slots: seq<Slot>, key: string): (r: seq<Slot>)
    ensures |r| == |slots|
    ensures forall i | 0 <= i < |slots| ::
              r[i] == if slots[i].Entry? && slots[i].key == key then Empty else slots[i]
  {
    seq(|slots|, i requires 0 <= i < |slots| => if slots[i].Entry? && slots[i].key == key then Empty else slots[i])
  }

  predicate DistinctKeys(slots: seq<Slot>) {
    forall i, j | 0 <= i < j < |slots| && slots[i].Entry? && slots[j].Entry? :: slots[i].key != slots[j].key
  }

  ghost predicate SlotOk(slot: Slot, act: map<string, Req>, streams: map<Req, ActiveStream>) {
    slot.Entry? ==> slot.key in act && act[slot.key] in streams && streams[act[slot.key]] == slot.stream
  }

  /** The slots list exactly the entries of a map from connection ids to streams. */
  ghost predicate SlotsMatch(slots: seq<Slot>, act: map<string, Req>, streams: map<Req, ActiveStream>) {
    && (forall i {:trigger SlotOk(slots[i], act, streams)} | 0 <= i < |slots| :: SlotOk(slots[i], act, streams))
    && (forall k {:trigger HasKey(slots, k)} | k in act :: HasKey(slots, k))
    && DistinctKeys(slots)
  }

  lemma DeleteMatch(slots: seq<Slot>, act: map<string, Req>, streams: map<Req, ActiveStream>, key: string,
                    act': map<string, Req>)
    requires SlotsMatch(slots, act, streams) && act' == act - {key}
    ensures SlotsMatch(Delete(slots, key), act', streams)
  {
    var slots' := Delete(slots, key);
    forall i | 0 <= i < |slots'| ensures SlotOk(slots'[i], act', streams) { assert SlotOk(slots[i], act, streams); }
    forall k | k in act' ensures HasKey(slots', k) {
      assert HasKey(slots, k);
      var i :| 0 <= i < |slots| && slots[i].Entry? && slots[i].key == k;
      assert slots'[i] == slots[i];
    }
  }

  lemma AppendMatch(slots: seq<Slot>, act: map<string, Req>, streams: map<Req, ActiveStream>, key: string,
                    r: Req, stream: ActiveStream)
    requires SlotsMatch(slots, act, streams) && key !in act && r !in streams
    ensures SlotsMatch(slots + [Entry(key, stream)], act[key := r], streams[r := stream])
  {
    var slots', act', streams' := slots + [Entry(key, stream)], act[key := r], streams[r := stream];
    forall i | 0 <= i < |slots'| ensures SlotOk(slots'[i], act', streams') {
      if i < |slots| { assert SlotOk(slots[i], act, streams); }
    }
    forall k | k in act' ensures HasKey(slots', k) {
      if k == key {
        assert slots'[|slots|] == Entry(key, stream);
      } else {
        assert HasKey(slots, k);
        var i :| 0 <= i < |slots| && slots[i].Entry? && slots[i].key == k;
        assert slots'[i] == slots[i];
      }
    }
    forall i, j | 0 <= i < j < |slots'| && slots'[i].Entry? && slots'[j].Entry? ensures slots'[i].key != slots'[j].key {
      if j == |slots| { assert SlotOk(slots[i], act, streams); }
    }
  }

  lemma HasKeyIff(slots: seq<Slot>, act: map<string, Req>, streams: map<Req, ActiveStream>, key: string)
    requires SlotsMatch(slots, act, streams)
    ensures HasKey(slots, key) <==> key in act
  {
    if HasKey(slots, key) {
      var i :| 0 <= i < |slots| && slots[i].Entry? && slots[i].key == key;
      assert SlotOk(slots[i], act, streams);
    }
  }

  // ---------------------------------------------------------------- one stream at a time

  lemma CloseTwice(s: State, a: set<Req>, b: set<Req>, why: CloseResult)
    ensures Close(Close(s, a, why), b, why) == Close(s, a + b, why)
  {
    var t, u := Close(Close(s, a, why), b, why), Close(s, a + b, why);
    assert LiveStreams(Close(s, a, why)) == LiveStreams(s) - a;
    assert t.streams == u.streams;
    assert t.active == u.active;
    assert t.held == u.held;
  }

  lemma WriteTwice(s: State, a: set<Req>, b: set<Req>, f: Frame)
    requires a !! b
    ensures RealtimeProtocol.Write(RealtimeProtocol.Write(s, a, f), b, f) == RealtimeProtocol.Write(s, a + b, f)
  {
    assert RealtimeProtocol.Write(RealtimeProtocol.Write(s, a, f), b, f).streams ==
           RealtimeProtocol.Write(s, a + b, f).streams;
  }

  /** Writing to some streams and closing others can be done in either order. */
  lemma WriteClose(s: State, a: set<Req>, b: set<Req>, f: Frame, why: CloseResult)
    requires a !! b
    ensures RealtimeProtocol.Write(Close(s, b, why), a, f) == Close(RealtimeProtocol.Write(s, a, f), b, why)
  {
    var t, u := RealtimeProtocol.Write(Close(s, b, why), a, f), Close(RealtimeProtocol.Write(s, a, f), b, why);
    assert LiveStreams(RealtimeProtocol.Write(s, a, f)) == LiveStreams(s);
    assert t.streams == u.streams;
  }

  lemma DeliverOne(s: State, h: Hint, done: set<Req>, r: Req, failing: set<Req>)
    requires r !in done
    ensures r in failing ==>
              Close(Deliver(s, h, done, failing), {r}, Aborted) == Deliver(s, h, done + {r}, failing)
    ensures r !in failing ==>
              RealtimeProtocol.Write(Deliver(s, h, done, failing), {r}, HintFrame(h)) ==
              Deliver(s, h, done + {r}, failing)
  {
    var f := HintFrame(h);
    if r in failing {
      assert done + {r} - failing == done - failing;
      assert (done + {r}) * failing == done * failing + {r};
      CloseTwice(RealtimeProtocol.Write(s, done - failing, f), done * failing, {r}, Aborted);
    } else {
      assert done + {r} - failing == done - failing + {r};
      assert (done + {r}) * failing == done * failing;
      WriteClose(RealtimeProtocol.Write(s, done - failing, f), {r}, done * failing, f, Aborted);
      WriteTwice(s, done - failing, {r}, f);
    }
  }

  lemma DeliverNothing(s: State, h: Hint, failing: set<Req>)
    ensures Deliver(s, h, {}, failing) == s
  {
    assert Deliver(s, h, {}, failing).streams == s.streams;
    assert Deliver(s, h, {}, failing).active == s.active;
    assert Deliver(s, h, {}, failing).held == s.held;
  }

  /** Where a stream has not been reached, nothing has happened to it. */
  lemma DeliverElsewhere(s: State, h: Hint, done: set<Req>, failing: set<Req>, r: Req)
    requires r in s.streams && r !in done
    ensures Deliver(s, h, done, failing).streams[r] == s.streams[r]
  {
  }

  /** The requests whose entries are among the first `n`. */
  ghost function Reached(slots: seq<Slot>, act: map<string, Req>, n: nat): set<Req> {
    set i | 0 <= i < n && i < |slots| && slots[i].Entry? && slots[i].key in act :: act[slots[i].key]
  }

  lemma ReachedNext(slots: seq<Slot>, s: State, streams: map<Req, ActiveStream>, n: nat)
    requires SlotsMatch(slots, s.active, streams) && ActiveMatches(s) && n < |slots|
    ensures slots[n].Empty? ==> Reached(slots, s.active, n + 1) == Reached(slots, s.active, n)
    ensures slots[n].Entry? ==>
              && slots[n].key in s.active
              && var r := s.active[slots[n].key];
                 && Reached(slots, s.active, n + 1) == Reached(slots, s.active, n) + {r}
                 && r !in Reached(slots, s.active, n)
                 && IsLive(s, r) && r in streams && streams[r] == slots[n].stream
                 && s.streams[r].connectionId == slots[n].key
  {
    if slots[n].Entry? {
      assert SlotOk(slots[n], s.active, streams);
      forall i | 0 <= i < n && slots[i].Entry? && slots[i].key in s.active
        ensures s.active[slots[i].key] != s.active[slots[n].key]
      {
        assert IsLive(s, s.active[slots[i].key]);
      }
    }
  }

  lemma DoneNext(slots: seq<Slot>, s: State, streams: map<Req, ActiveStream>, n: nat, h: Hint)
    requires SlotsMatch(slots, s.active, streams) && ActiveMatches(s) && n < |slots|
    ensures var done := Reached(slots, s.active, n) * Targets(s, h);
            var more := Reached(slots, s.active, n + 1) * Targets(s, h);
            && (slots[n].Empty? ==> more == done)
            && (slots[n].Entry? ==>
                  && slots[n].key in s.active
                  && var r := s.active[slots[n].key];
                     r in s.streams && more == if InScope(s.streams[r].session, h) then done + {r} else done)
  {
    ReachedNext(slots, s, streams, n);
  }

  lemma DoneSize(done: set<Req>, r: Req, failing: set<Req>)
    requires r !in done
    ensures |done + {r} - failing| == |done - failing| + (if r in failing then 0 else 1)
  {
    assert done + {r} - failing == (done - failing) + ({r} - failing);
  }

  lemma ReachedAll(slots: seq<Slot>, s: State, streams: map<Req, ActiveStream>)
    requires SlotsMatch(slots, s.active, streams) && ActiveMatches(s)
    ensures LiveStreams(s) <= Reached(slots, s.active, |slots|)
  {
    forall r | r in LiveStreams(s) ensures r in Reached(slots, s.active, |slots|) {
      assert IsLive(s, r);
      var k := s.streams[r].connectionId;
      assert HasKey(slots, k);
      var i :| 0 <= i < |slots| && slots[i].Entry? && slots[i].key == k;
      assert s.active[slots[i].key] == r;
    }
  }

  lemma TargetsReached(s: State, h: Hint, reached: set<Req>)
    requires LiveStreams(s) <= reached
    ensures reached * Targets(s, h) == Targets(s, h)
  {
    forall r | r in Targets(s, h) ensures r in reached { assert r in LiveStreams(s); }
  }

  /**
   * A walk over the entries `slots` that publishes `hint` from state `start` on; `states` are the states after each
   * number of entries.
   */
  datatype Walk = Walk(start: State, slots: seq<Slot>, hint: Hint, failing: set<Req>, streams: map<Req, ActiveStream>,
                       states: seq<State>) {
    ghost predicate Stage(i: nat)
      requires i < |states|
    {
      states[i] == Deliver(start, hint, Done(i), failing)
    }

    ghost predicate Matches() { SlotsMatch(slots, start.active, streams) && ActiveMatches(start) }

    ghost predicate Sound() {
      && Matches()
      && |states| == |slots| + 1
      && forall i {:trigger Stage(i)} | 0 <= i < |states| :: Stage(i)
    }

    /** The targets among the first `i` entries. */
    ghost function Done(i: nat): set<Req> { Reached(slots, start.active, i) * Targets(start, hint) }

    /** The entry of a target whose write succeeds. */
    ghost predicate Hit(slot: Slot) {
      && slot.Entry? && slot.key in start.active && start.active[slot.key] in start.streams
      && InScope(start.streams[start.active[slot.key]].session, hint) && start.active[slot.key] !in failing
    }

    /** The deliveries among the first `i` entries. */
    ghost function Count(i: nat): nat
      requires i <= |slots|
    {
      if i == 0 then 0 else Count(i - 1) + (if Hit(slots[i - 1]) then 1 else 0)
    }

    lemma {:induction false} CountDone(i: nat)
      requires Matches() && i <= |slots|
      ensures Count(i) == |Done(i) - failing|
    {
      if i == 0 {
        NoneDone();
      } else {
        CountDone(i - 1);
        CountNext(i);
      }
    }

    lemma NoneDone()
      ensures Done(0) == {} && Done(0) - failing == {}
    {
    }

    lemma CountNext(i: nat)
      requires Matches() && 0 < i <= |slots|
      ensures |Done(i) - failing| == |Done(i - 1) - failing| + (if Hit(slots[i - 1]) then 1 else 0)
    {
      DoneNext(slots, start, streams, i - 1, hint);
      if slots[i - 1].Entry? && Done(i) != Done(i - 1) {
        ReachedNext(slots, start, streams, i - 1);
        DoneSize(Done(i - 1), start.active[slots[i - 1].key], failing);
      } else if slots[i - 1].Entry? {
        ReachedNext(slots, start, streams, i - 1);
      }
    }

    /** The walk has reached index `i` after `n` deliveries, with entries `now` and state `m`. */
    ghost predicate At(i: nat, n: nat, now: seq<Slot>, m: State) {
      && i <= |now| == |slots|
      && i < |states| && m == states[i]
      && n == Count(i)
      && now[i..] == slots[i..]
    }

    lemma Here(i: nat, n: nat, now: seq<Slot>, m: State)
      requires At(i, n, now, m) && i < |now|
      ensures now[i] == slots[i] && now[i + 1..] == slots[i + 1..]
    {
      assert now[i] == now[i..][0] && slots[i] == slots[i..][0];
      assert now[i + 1..] == now[i..][1..] && slots[i + 1..] == slots[i..][1..];
    }

    lemma Begin()
      requires Sound()
      ensures At(0, 0, slots, start)
    {
      assert Stage(0);
      DeliverNothing(start, hint, failing);
      NoneDone();
    }

    lemma Finish(n: nat, now: seq<Slot>, m: State)
      requires Sound() && At(|slots|, n, now, m)
      ensures m == Deliver(start, hint, Targets(start, hint), failing) && n == |Targets(start, hint) - failing|
    {
      assert Stage(|slots|);
      CountDone(|slots|);
      ReachedAll(slots, start, streams);
      TargetsReached(start, hint, Reached(slots, start.active, |slots|));
    }

    lemma Skip(i: nat, n: nat, now: seq<Slot>, m: State)
      requires Sound() && At(i, n, now, m) && i < |now| && now[i].Empty?
      ensures At(i + 1, n, now, m)
    {
      assert Stage(i) && Stage(i + 1);
      Here(i, n, now, m);
      DoneNext(slots, start, streams, i, hint);
    }

    /** The stream at an entry that the walk meets is live still. */
    lemma Meet(i: nat, n: nat, now: seq<Slot>, m: State)
      requires Sound() && At(i, n, now, m) && i < |now| && now[i].Entry?
      ensures now[i].key in start.active
      ensures var r := start.active[now[i].key];
              && IsLive(m, r) && r in streams && streams[r] == now[i].stream && r !in Done(i)
              && r in start.streams && m.streams[r] == start.streams[r] && start.streams[r].connectionId == now[i].key
    {
      assert Stage(i);
      Here(i, n, now, m);
      ReachedNext(slots, start, streams, i);
      DeliverElsewhere(start, hint, Done(i), failing, start.active[now[i].key]);
    }

    /** One turn of the walk: the entry of `r` is written to, closed or out of scope. */
    lemma Turn(i: nat, n: nat, now: seq<Slot>, m: State, now': seq<Slot>, m': State, r: Req)
      requires Sound() && At(i, n, now, m) && i < |now| && now[i].Entry?
      requires now[i].key in start.active && r == start.active[now[i].key]
      requires now' == now || now' == Delete(now, now[i].key)
      requires r in m.streams && m' == if !InScope(m.streams[r].session, hint) then m
                                       else if r in failing then Close(m, {r}, Aborted)
                                       else RealtimeProtocol.Write(m, {r}, HintFrame(hint))
      ensures At(i + 1, n + (if InScope(m.streams[r].session, hint) && r !in failing then 1 else 0), now', m')
    {
      assert Stage(i) && Stage(i + 1);
      Meet(i, n, now, m);
      DoneNext(slots, start, streams, i, hint);
      DeliverOne(start, hint, Done(i), r, failing);
      Here(i, n, now, m);
      Later(i, now, now');
    }

    /** Entries the walk has yet to meet are still there. */
    lemma Later(i: nat, now: seq<Slot>, now': seq<Slot>)
      requires SlotsMatch(slots, start.active, streams) && i < |now| == |slots|
      requires now[i] == slots[i] && now[i].Entry? && now[i + 1..] == slots[i + 1..]
      requires now' == now || now' == Delete(now, now[i].key)
      ensures |now'| == |slots| && now'[i + 1..] == slots[i + 1..]
    {
      forall j | i < j < |slots| ensures now'[j] == now[j] {
        assert now[j] == now[i + 1..][j - i - 1] == slots[i + 1..][j - i - 1] == slots[j];
      }
      assert now'[i + 1..] == now[i + 1..];
    }
  }

  ghost function Stages(start: State, slots: seq<Slot>, hint: Hint, failing: set<Req>, streams: map<Req, ActiveStream>)
    : (w: Walk)
    requires SlotsMatch(slots, start.active, streams) && ActiveMatches(start)
    ensures w.Sound() && w == Walk(start, slots, hint, failing, streams, w.states)
  {
    var w := Walk(start, slots, hint, failing, streams, []);
    w.(states := seq(|slots| + 1, i requires 0 <= i => Deliver(start, hint, w.Done(i), failing)))
  }

  /**
   * The walk of `beginDrain` over the entries that were there when it started; `states` are the states after each
   * number of entries.
   */
  datatype DrainWalk = DrainWalk(start: State, slots: seq<Slot>, failing: set<Req>, streams: map<Req, ActiveStream>,
                                 states: seq<State>) {
    /** `start` after the streams of `done` have been told to reconnect and closed. */
    ghost function Partial(done: set<Req>): State {
      Close(RealtimeProtocol.Write(start, Writable(start) * done - failing, Reconnect(ForDeployment)),
            done - Writable(start) * failing, Drained)
    }

    ghost predicate Stage(i: nat)
      requires i < |states|
    {
      states[i] == Partial(Reached(slots, start.active, i))
    }

    ghost predicate Sound() {
      && SlotsMatch(slots, start.active, streams) && ActiveMatches(start)
      && |states| == |slots| + 1
      && forall i {:trigger Stage(i)} | 0 <= i < |states| :: Stage(i)
    }

    ghost predicate At(i: nat, m: State) { i < |states| && m == states[i] }

    lemma Begin()
      requires Sound()
      ensures At(0, start)
    {
      assert Stage(0);
      assert Reached(slots, start.active, 0) == {};
      assert Partial({}).streams == start.streams;
      assert Partial({}).active == start.active;
      assert Partial({}).held == start.held;
    }

    lemma Finish(m: State)
      requires Sound() && At(|slots|, m)
      ensures m == Close(RealtimeProtocol.Write(start, Writable(start) - failing, Reconnect(ForDeployment)),
                         LiveStreams(start) - Writable(start) * failing, Drained)
    {
      assert Stage(|slots|);
      AllReached();
      assert Writable(start) * LiveStreams(start) == Writable(start);
    }

    lemma AllReached()
      requires SlotsMatch(slots, start.active, streams) && ActiveMatches(start)
      ensures Reached(slots, start.active, |slots|) == LiveStreams(start)
    {
      ReachedAll(slots, start, streams);
      forall r | r in Reached(slots, start.active, |slots|) ensures r in LiveStreams(start) {
        var j :| 0 <= j < |slots| && slots[j].Entry? && slots[j].key in start.active && start.active[slots[j].key] == r;
        ReachedNext(slots, start, streams, j);
      }
    }

    lemma Skip(i: nat, m: State)
      requires Sound() && At(i, m) && i < |slots| && slots[i].Empty?
      ensures At(i + 1, m)
    {
      assert Stage(i) && Stage(i + 1);
      ReachedNext(slots, start, streams, i);
    }

    lemma Meet(i: nat, m: State)
      requires Sound() && At(i, m) && i < |slots| && slots[i].Entry?
      ensures slots[i].key in start.active
      ensures var r := start.active[slots[i].key];
              && IsLive(m, r) && r in streams && streams[r] == slots[i].stream
              && r in start.streams && m.streams[r] == start.streams[r] && r !in Reached(slots, start.active, i)
    {
      assert Stage(i);
      ReachedNext(slots, start, streams, i);
    }

    lemma Turn(i: nat, m: State, m': State, r: Req)
      requires Sound() && At(i, m) && i < |slots| && slots[i].Entry?
      requires slots[i].key in start.active && r == start.active[slots[i].key]
      requires r in m.streams &&
               m' == if m.streams[r].destroyed then Close(m, {r}, Drained)
                     else if r in failing then m
                     else Close(RealtimeProtocol.Write(m, {r}, Reconnect(ForDeployment)), {r}, Drained)
      ensures At(i + 1, m')
    {
      assert Stage(i) && Stage(i + 1);
      Meet(i, m);
      ReachedNext(slots, start, streams, i);
      PartialNext(Reached(slots, start.active, i), r);
    }

    lemma PartialNext(done: set<Req>, r: Req)
      requires r !in done && IsLive(start, r)
      ensures Partial(done + {r}) ==
              if start.streams[r].destroyed then Close(Partial(done), {r}, Drained)
              else if r in failing then Partial(done)
              else Close(RealtimeProtocol.Write(Partial(done), {r}, Reconnect(ForDeployment)), {r}, Drained)
    {
      var f := Reconnect(ForDeployment);
      var told, shut := Writable(start) * done - failing, done - Writable(start) * failing;
      var w := RealtimeProtocol.Write(start, told, f);
      if start.streams[r].destroyed {
        assert Writable(start) * (done + {r}) - failing == told;
        assert done + {r} - Writable(start) * failing == shut + {r};
        CloseTwice(w, shut, {r}, Drained);
      } else if r in failing {
        assert Writable(start) * (done + {r}) - failing == told;
        assert done + {r} - Writable(start) * failing == shut;
      } else {
        assert Writable(start) * (done + {r}) - failing == told + {r};
        assert done + {r} - Writable(start) * failing == shut + {r};
        WriteClose(w, {r}, shut, f, Drained);
        WriteTwice(start, told, {r}, f);
        CloseTwice(RealtimeProtocol.Write(start, told + {r}, f), shut, {r}, Drained);
      }
    }
  }

  ghost function DrainStages(start: State, slots: seq<Slot>, failing: set<Req>, streams: map<Req, ActiveStream>)
    : (w: DrainWalk)
    requires SlotsMatch(slots, start.active, streams) && ActiveMatches(start)
    ensures w.Sound() && w == DrainWalk(start, slots, failing, streams, w.states)
  {
    var w := DrainWalk(start, slots, failing, streams, []);
    w.(states := seq(|slots| + 1, i requires 0 <= i => w.Partial(Reached(slots, start.active, i))))
  }

  datatype Side = Objects | Protocol

  class Transport {
    const config: Config
    const registry: InMemoryRegistry
    var draining: bool
    var active: seq<Slot>
    var metrics: seq<Metric>
    ghost var model: State
    ghost var streams: map<Req, ActiveStream>
    ghost var objects: set<ActiveStream>

    /** The heap agrees with the model about one stream. */
    ghost predicate Synced(r: Req)
      reads this, objects, registry
      requires r in streams
    {
      && streams[r] in objects
      && streams[r].req == r
      && streams[r].Valid()
      && streams[r].lease in registry.ledger.granted && streams[r].lease.current in registry.ledger.sets
      && r in model.streams
      && streams[r].View() == model.streams[r]
      && (IsLive(model, r) ==> r in registry.ledger.leases && registry.ledger.leases[r] == streams[r].lease)
    }

    ghost predicate Owns(r: Req, stream: ActiveStream)
      reads this
    {
      r in streams && streams[r] == stream && stream.req == r
    }

    ghost predicate AllStreamsSynced()
      reads this, objects, registry
    {
      forall r {:trigger Synced(r)} | r in streams :: Synced(r)
    }

    /** The heap agrees with the model. */
    ghost predicate Linked()
      reads this, objects, registry, registry.ledger.sets, registry.ledger.granted
    {
      && registry.Valid() && registry.View() == model.held
      && model.config == config && model.draining == draining && model.metrics == metrics
      && streams.Keys == model.streams.Keys
      && AllStreamsSynced()
      && SlotsMatch(active, model.active, streams)
      && ActiveMatches(model)
    }

    /** What holds between any two steps: the heap agrees with the model, which keeps the invariant of the protocol. */
    ghost predicate Holds(side: Side)
      reads this, objects, registry, registry.ledger.sets, registry.ledger.granted
    {
      match side
      case Objects => Linked()
      case Protocol => Inv(model)
    }

    /** Both sides hold; callers, who only pass this on, need not look into either. */
    ghost predicate Valid()
      reads this, objects, registry, registry.ledger.sets, registry.ledger.granted
    {
      forall side {:trigger Holds(side)} :: Holds(side)
    }

    lemma BothSides()
      requires Valid()
      ensures Linked() && Inv(model)
    {
      assert Holds(Objects) && Holds(Protocol);
    }

    constructor (config: Config)
      ensures Valid() && model == Init(config) && fresh(registry) && fresh(objects)
      ensures fresh(registry.ledger.sets) && fresh(registry.ledger.granted)
    {
      this.config := config;
      registry := new InMemoryRegistry();
      draining, active, metrics := false, [], [];
      model, streams, objects := Init(config), map[], {};
      new;
      InitInv(config);
    }

    /** The model moves in parts the heap of streams does not show. */
    ghost method Advance(m: State)
      requires Linked()
      requires m.config == model.config && m.draining == model.draining && m.metrics == model.metrics
      requires m.streams == model.streams && m.active == model.active && m.held == model.held
      modifies this`model
      ensures Linked() && model == m
    {
      model := m;
      TouchActive(old(model), model);
      forall r | r in streams ensures Synced(r) { assert old(Synced(r)); }
    }

    method Emit(m: Metric)
      requires Linked()
      modifies this`metrics, this`model
      ensures Linked() && model == RealtimeProtocol.Emit(old(model), m)
    {
      metrics := metrics + [m];
      model := RealtimeProtocol.Emit(model, m);
      TouchActive(old(model), model);
      forall r | r in streams ensures Synced(r) { assert old(Synced(r)); }
    }

    method StartDraining()
      requires Linked()
      modifies this`draining, this`model
      ensures Linked() && model == old(model).(draining := true)
    {
      draining := true;
      model := model.(draining := true);
      TouchActive(old(model), model);
      forall r | r in streams ensures Synced(r) { assert old(Synced(r)); }
    }

    /** The denial of a request: a metric and an error response. */
    method Deny(ghost r: Req, m: Metric, d: Denial)
      requires Linked()
      modifies this`metrics, this`model
      ensures Linked() && model == Reject(old(model), r, m, d)
    {
      Advance(model.(admissions := model.admissions[r := Rejected(d)]));
      Emit(m);
    }

    /** `response.write` on one stream. */
    method WriteOne(stream: ActiveStream, f: Frame)
      requires Linked() && Owns(stream.req, stream)
      modifies this`model, stream
      ensures Linked() && model == RealtimeProtocol.Write(old(model), {stream.req}, f)
    {
      assert Synced(stream.req);
      WriteOneStreams(model, stream.req, f);
      WriteOneActive(model, stream.req, f);
      WriteEffects(stream, f);
      AllSynced(stream);
    }

    method WriteEffects(stream: ActiveStream, f: Frame)
      requires stream.Valid()
      modifies this`model, stream
      ensures stream.Valid() && stream.View() == old(stream.View()).(frames := old(stream.frames) + [f])
      ensures model == RealtimeProtocol.Write(old(model), {stream.req}, f)
    {
      stream.Write(f);
      model := RealtimeProtocol.Write(model, {stream.req}, f);
    }

    lemma WriteOneActive(s: State, r: Req, f: Frame)
      requires ActiveMatches(s)
      ensures ActiveMatches(RealtimeProtocol.Write(s, {r}, f))
    {
      TouchActive(s, RealtimeProtocol.Write(s, {r}, f));
    }

    lemma WriteOneStreams(s: State, r: Req, f: Frame)
      requires r in s.streams
      ensures RealtimeProtocol.Write(s, {r}, f).streams ==
              s.streams[r := s.streams[r].(frames := s.streams[r].frames + [f])]
    {
    }

    /** `#close` up to its `await`, on a stream that may be closed already. */
    method CloseOne(stream: ActiveStream, why: CloseResult)
      requires Linked() && Owns(stream.req, stream)
      modifies this`active, this`model, stream, registry, stream.lease, stream.lease.current
      ensures Linked() && model == Close(old(model), {stream.req}, why)
      ensures registry.OnlyReleased()
      ensures active == if old(stream.closed) then old(active) else Delete(old(active), stream.lease.connectionId)
    {
      assert Synced(stream.req);
      if stream.closed {
        CloseNothing(model, stream.req, why);
      } else {
        CloseLive(stream, why);
      }
    }

    method CloseLive(stream: ActiveStream, why: CloseResult)
      requires Linked() && Owns(stream.req, stream) && !stream.closed
      modifies this`active, this`model, stream, registry, stream.lease, stream.lease.current
      ensures Linked() && model == Close(old(model), {stream.req}, why)
      ensures registry.OnlyReleased()
      ensures active == Delete(old(active), stream.lease.connectionId)
    {
      assert Synced(stream.req) && IsLive(model, stream.req);
      CloseActive(model, {stream.req}, why);
      DeleteMatch(active, model.active, streams, stream.lease.connectionId, Close(model, {stream.req}, why).active) by {
        CloseOneActive(model, stream.req, why);
      }
      CloseOneStreams(model, stream.req, why);
      CloseEffects(stream, why);
      AllSynced(stream);
    }

    lemma CloseOneStreams(s: State, r: Req, why: CloseResult)
      requires IsLive(s, r)
      ensures Close(s, {r}, why).streams == s.streams[r := RealtimeProtocol.Shut(s.streams[r], why, |s.published|)]
      ensures Close(s, {r}, why).held == s.held - {r}
    {
    }

    /** Streams that are not touched stay in agreement with the model. */
    twostate lemma AllSynced(stream: ActiveStream)
      requires old(AllStreamsSynced()) && stream.req in old(streams) && old(streams)[stream.req] == stream
      requires unchanged(this`streams, this`objects) && unchanged(objects - {stream})
      requires stream.Valid() && model.streams == old(model).streams[stream.req := stream.View()]
      requires || (registry.ledger.leases == old(registry.ledger).leases - {stream.req} && !IsLive(model, stream.req))
               || (registry.ledger == old(registry.ledger)
                   && (IsLive(model, stream.req) ==> old(IsLive(model, stream.req))))
      requires registry.ledger.sets == old(registry.ledger).sets
      requires registry.ledger.granted == old(registry.ledger).granted
      ensures AllStreamsSynced()
    {
      forall r | r in streams ensures Synced(r) {
        assert old(Synced(r));
        assert old(Synced(stream.req));
      }
    }

    lemma CloseOneActive(s: State, r: Req, why: CloseResult)
      requires ActiveMatches(s) && IsLive(s, r)
      ensures Close(s, {r}, why).active == s.active - {s.streams[r].connectionId}
    {
      forall c | c in s.active ensures s.active[c] == r <==> c == s.streams[r].connectionId {
        assert IsLive(s, s.active[c]);
      }
    }

    lemma CloseNothing(s: State, r: Req, why: CloseResult)
      requires r in s.streams && !s.streams[r].phase.Live?
      ensures Close(s, {r}, why) == s
    {
      assert Close(s, {r}, why).streams == s.streams;
      assert Close(s, {r}, why).active == s.active;
      assert Close(s, {r}, why).held == s.held;
    }

    /** The assignments of `#close`. */
    method CloseEffects(stream: ActiveStream, why: CloseResult)
      requires stream.Valid() && !stream.closed
      requires registry.Valid()
      requires stream.req in registry.ledger.leases && registry.ledger.leases[stream.req] == stream.lease
      modifies this`active, this`model, stream, registry, stream.lease, stream.lease.current
      ensures model == Close(old(model), {stream.req}, why)
      ensures stream.Valid() && stream.View() == RealtimeProtocol.Shut(old(stream.View()), why, |old(model).published|)
      ensures active == Delete(old(active), stream.lease.connectionId)
      ensures registry.Valid() && registry.View() == old(registry.View()) - {stream.req}
      ensures registry.ledger.leases == old(registry.ledger.leases) - {stream.req}
      ensures registry.OnlyReleased()
    {
      assert registry.Captured(stream.req);
      registry.Release(stream.lease);
      stream.Shut(why, |model.published|);
      active := Delete(active, stream.lease.connectionId);
      model := Close(model, {stream.req}, why);
    }

    // -------------------------------------------------------------- #admit

    /** `#admit` from its start to the call of `authorize`. */
    method Arrive(ghost r: Req, request: Request) returns (denial: Option<Denial>)
      requires Valid() && r !in model.admissions
      modifies this`metrics, this`model
      ensures Valid() && model == ArriveStep(old(model), r, request)
      ensures denial == if draining then Some(DRAINING) else Gate(request, config.expectedOrigin)
    {
      BothSides();
      ArriveInv(model, r, request);
      if draining {
        denial := Some(DRAINING);
        Deny(r, AdmissionUnavailable, DRAINING);
      } else {
        denial := Gate(request, config.expectedOrigin);
        if denial.Some? {
          Deny(r, AdmissionDenied, denial.value);
        } else {
          Advance(model.(admissions := model.admissions[r := AwaitAuthorize(request)]));
        }
      }
    }

    // -------------------------------------------------------------- publish

    /** The body of the loop of `publish` for one stream. */
    method DeliverTo(stream: ActiveStream, hint: Hint, failing: set<Req>) returns (wrote: nat)
      requires Linked() && Owns(stream.req, stream) && IsLive(model, stream.req)
      modifies this`active, this`model, stream, registry, stream.lease, stream.lease.current
      ensures Linked()
      ensures model == if !InScope(stream.session, hint) then old(model)
                       else if stream.req in failing then Close(old(model), {stream.req}, Aborted)
                       else RealtimeProtocol.Write(old(model), {stream.req}, HintFrame(hint))
      ensures wrote == if InScope(stream.session, hint) && stream.req !in failing then 1 else 0
      ensures registry.OnlyReleased()
      ensures active == old(active) || active == Delete(old(active), stream.lease.connectionId)
    {
      assert Synced(stream.req);
      wrote := 0;
      if !stream.closed && InScope(stream.session, hint) {
        if stream.req in failing {
          CloseOne(stream, Aborted);
        } else {
          WriteOne(stream, HintFrame(hint));
          wrote := 1;
        }
      }
    }

    /** One turn of the loop of `publish`. */
    method DeliverSlot(ghost walk: Walk, hint: Hint, failing: set<Req>, i: nat, ghost n: nat) returns (wrote: nat)
      requires Linked() && walk.Sound() && walk.At(i, n, active, model) && i < |active|
      requires walk.hint == hint && walk.failing == failing && walk.streams == streams
      modifies this`active, this`model, objects, registry, registry.ledger.sets, registry.ledger.granted
      ensures Linked() && walk.At(i + 1, n + wrote, active, model)
      ensures registry.OnlyReleased()
    {
      wrote := 0;
      var slot := active[i];
      if slot.Entry? {
        walk.Meet(i, n, active, model);
        ghost var r := walk.start.active[slot.key];
        OwnLease(r);
        wrote := DeliverTo(slot.stream, hint, failing);
        walk.Turn(i, n, old(active), old(model), active, model, r);
      } else {
        walk.Skip(i, n, active, model);
      }
    }

    /** What the close of a live stream touches belongs to the registry. */
    lemma OwnLease(r: Req)
      requires Linked() && r in streams && IsLive(model, r)
      ensures streams[r] in objects && streams[r].req == r && streams[r].session == model.streams[r].session
      ensures streams[r].lease in registry.ledger.granted && streams[r].lease.current in registry.ledger.sets
      ensures streams[r].lease.connectionId == model.streams[r].connectionId
    {
      assert Synced(r);
      assert registry.Captured(r);
      assert registry.Mapped(registry.ledger.leases[r].sessionKey);
    }

    /** The loop of `publish`: one walk over the map's entries, some of which are emptied on the way. */
    method DeliverAll(hint: Hint, failing: set<Req>) returns (delivered: nat)
      requires Linked()
      modifies this`active, this`model, objects, registry, registry.ledger.sets, registry.ledger.granted
      ensures Linked() && model == Deliver(old(model), hint, Targets(old(model), hint), failing)
      ensures registry.OnlyReleased()
      ensures delivered == |Targets(old(model), hint) - failing|
    {
      ghost var walk := Stages(model, active, hint, failing, streams);
      walk.Begin();
      delivered := DeliverEntries(walk, hint, failing);
      walk.Finish(delivered, active, model);
    }

    method DeliverEntries(ghost walk: Walk, hint: Hint, failing: set<Req>) returns (delivered: nat)
      requires Linked() && walk.Sound() && walk.At(0, 0, active, model)
      requires walk.hint == hint && walk.failing == failing && walk.streams == streams
      modifies this`active, this`model, objects, registry, registry.ledger.sets, registry.ledger.granted
      ensures Linked() && walk.At(|walk.slots|, delivered, active, model)
      ensures registry.OnlyReleased()
    {
      delivered := 0;
      var i := 0;
      while i < |active|
        invariant Linked() && walk.At(i, delivered, active, model)
        invariant registry.OnlyReleased()
      {
        var wrote := DeliverSlot(walk, hint, failing, i, delivered);
        delivered := delivered + wrote;
        i := i + 1;
      }
    }

    /** `publish` */
    method Publish(hint: Hint, failing: set<Req>) returns (delivered: nat)
      requires Valid() && IsJsonText(hint.json)
      modifies this`active, this`model, this`metrics, objects
      modifies registry, registry.ledger.sets, registry.ledger.granted
      ensures Valid() && model == PublishStep(old(model), hint, failing)
      ensures delivered == Delivered(old(model), hint, failing)
      ensures registry.OnlyReleased()
    {
      BothSides();
      PublishInv(model, hint, failing);
      if !IsSafeHint(hint) {
        Emit(DeliveryRejected);
        return 0;
      }
      delivered := DeliverAll(hint, failing);
      Advance(model.(published := model.published + [hint]));
      Emit(if delivered > 0 then DeliveryDelivered else DeliveryRejected);
    }

    // -------------------------------------------------------------- drain

    /** The body of `beginDrain` for one stream; a write that throws leaves the stream as it is. */
    method DrainSlot(ghost walk: DrainWalk, slot: Slot, failing: set<Req>, i: nat)
      requires Linked() && walk.Sound() && walk.At(i, model) && i < |walk.slots| && walk.slots[i] == slot
      requires walk.failing == failing && walk.streams == streams
      modifies this`active, this`model, objects, registry, registry.ledger.sets, registry.ledger.granted
      ensures Linked() && walk.At(i + 1, model)
      ensures registry.OnlyReleased()
    {
      if slot.Entry? {
        walk.Meet(i, model);
        OwnLease(walk.start.active[slot.key]);
        DrainStream(slot.stream, failing);
        walk.Turn(i, old(model), model, walk.start.active[slot.key]);
      } else {
        walk.Skip(i, model);
      }
    }

    method DrainStream(stream: ActiveStream, failing: set<Req>)
      requires Linked() && Owns(stream.req, stream) && IsLive(model, stream.req)
      modifies this`active, this`model, stream, registry, stream.lease, stream.lease.current
      ensures Linked()
      ensures model == if old(model).streams[stream.req].destroyed then Close(old(model), {stream.req}, Drained)
                       else if stream.req in failing then old(model)
                       else Close(RealtimeProtocol.Write(old(model), {stream.req}, Reconnect(ForDeployment)),
                                  {stream.req}, Drained)
      ensures registry.OnlyReleased()
    {
      assert Synced(stream.req);
      if !stream.closed && !stream.destroyed {
        if stream.req in failing { return; }
        WriteOne(stream, Reconnect(ForDeployment));
      }
      CloseOne(stream, Drained);
    }

    /** The `map` callbacks of `beginDrain`, run over the entries that were there when it was called. */
    method DrainAll(failing: set<Req>)
      requires Linked()
      modifies this`active, this`model, objects, registry, registry.ledger.sets, registry.ledger.granted
      ensures Linked()
      ensures var told := Writable(old(model)) - failing;
              model == Close(RealtimeProtocol.Write(old(model), told, Reconnect(ForDeployment)),
                             LiveStreams(old(model)) - Writable(old(model)) * failing, Drained)
      ensures registry.OnlyReleased()
    {
      ghost var walk := DrainStages(model, active, failing, streams);
      walk.Begin();
      DrainEntries(walk.start, walk.states, active, failing);
      walk.Finish(model);
    }

    method DrainEntries(ghost start: State, ghost states: seq<State>, entries: seq<Slot>, failing: set<Req>)
      requires Linked() && DrainWalk(start, entries, failing, streams, states).Sound()
      requires DrainWalk(start, entries, failing, streams, states).At(0, model)
      modifies this`active, this`model, objects, registry, registry.ledger.sets, registry.ledger.granted
      ensures Linked() && DrainWalk(start, entries, failing, streams, states).At(|entries|, model)
      ensures registry.OnlyReleased()
    {
      ghost var walk := DrainWalk(start, entries, failing, streams, states);
      for i := 0 to |entries|
        invariant Linked() && walk.At(i, model)
        invariant registry.OnlyReleased()
      {
        DrainSlot(walk, entries[i], failing, i);
      }
    }

    /** `beginDrain` up to its `await` */
    method BeginDrain(failing: set<Req>)
      requires Valid()
      modifies this`draining, this`active, this`model, objects
      modifies registry, registry.ledger.sets, registry.ledger.granted
      ensures Valid() && model == BeginDrainStep(old(model), failing) && draining
      ensures registry.OnlyReleased()
    {
      BothSides();
      DrainInv(model, failing);
      if draining { return; }
      DrainStart(model, failing);
      StartDraining();
      DrainAll(failing);
    }

    lemma DrainStart(s: State, failing: set<Req>)
      requires !s.draining
      ensures var t := s.(draining := true);
              BeginDrainStep(s, failing) ==
              Close(RealtimeProtocol.Write(t, Writable(t) - failing, Reconnect(ForDeployment)),
                    LiveStreams(t) - Writable(t) * failing, Drained)
    {
      var t := s.(draining := true);
      assert Writable(t) == Writable(s) && LiveStreams(t) == LiveStreams(s);
    }

    // ------------------------------------------------- #admit after its awaits

    /**
     * `#admit` from the authorizer's answer to the call of `acquire`, whose body runs at once. A denial ends the
     * call; otherwise `lease` is what the promise of `acquire` holds, if that is a lease.
     */
    method ResumeAuthorize(ghost r: Req, request: Request, answer: Answer, newId: Option<string>)
      returns (denial: Option<Denial>, grant: Grant, lease: Lease?)
      requires Valid() && r in model.admissions && model.admissions[r] == AwaitAuthorize(request)
      requires Admissible(model, RealtimeProtocol.ResumeAuthorize(r, answer, newId))
      modifies this`metrics, this`model, registry, registry.ledger.sets
      ensures Valid() && model == ResumeAuthorizeStep(old(model), r, request, answer, newId)
      ensures denial == match Admitted(request, answer) case Err(d) => Some(d) case Ok(_) => None
      ensures r in model.admissions
      ensures denial.None? ==> model.admissions[r] == AwaitAcquire(Admitted(request, answer).value, grant)
      ensures lease != null <==> denial.None? && grant.Granted?
      ensures registry.ledger.leases ==
              if lease != null then old(registry.ledger.leases)[r := lease] else old(registry.ledger.leases)
      ensures registry.Grown()
    {
      BothSides();
      ResumeAuthorizeInv(model, r, request, answer, newId);
      HoldsNothing(model, r);
      denial, grant, lease := Decide(r, request, answer, newId);
    }

    lemma HoldsNothing(s: State, r: Req)
      requires Inv(s) && r in s.admissions && s.admissions[r].AwaitAuthorize?
      ensures r !in s.held && !IsLive(s, r)
    {
      assert r in s.streams <==> IsStreaming(s, r);
    }

    /** The checks on the authorizer's answer, and the call of `acquire`. */
    method Decide(ghost r: Req, request: Request, answer: Answer, newId: Option<string>)
      returns (denial: Option<Denial>, grant: Grant, lease: Lease?)
      requires Linked() && r !in model.held && !IsLive(model, r)
      requires Admissible(model, RealtimeProtocol.ResumeAuthorize(r, answer, newId))
      modifies this`metrics, this`model, registry, registry.ledger.sets
      ensures Linked() && model == ResumeAuthorizeStep(old(model), r, request, answer, newId)
      ensures denial == match Admitted(request, answer) case Err(d) => Some(d) case Ok(_) => None
      ensures r in model.admissions
      ensures denial.None? ==> model.admissions[r] == AwaitAcquire(Admitted(request, answer).value, grant)
      ensures lease != null <==> denial.None? && grant.Granted?
      ensures registry.ledger.leases ==
              if lease != null then old(registry.ledger.leases)[r := lease] else old(registry.ledger.leases)
      ensures registry.Grown()
    {
      AuthorizedStep(model, r, request, answer, newId);
      grant, lease := Failed, null;
      match Admitted(request, answer)
      case Err(d) =>
        denial := Some(d);
        Deny(r, DenialMetric(d), d);
      case Ok(session) =>
        denial := None;
        grant, lease := Acquire(r, session, newId);
    }

    /** What `acquire` returns in state `s`. */
    ghost function GrantOf(s: State, session: Session, newId: Option<string>): Grant {
      if |Holders(s.held, session.sessionKey)| >= s.config.limit then Refused
      else if newId.None? then Failed else Granted(newId.value)
    }

    ghost function AcquireStep(s: State, r: Req, session: Session, newId: Option<string>): State {
      if GrantOf(s, session, newId).Granted? then WithLease(s, r, session, newId.value)
      else s.(admissions := s.admissions[r := AwaitAcquire(session, GrantOf(s, session, newId))])
    }

    lemma AuthorizedStep(s: State, r: Req, request: Request, answer: Answer, newId: Option<string>)
      ensures var t := ResumeAuthorizeStep(s, r, request, answer, newId);
              match Admitted(request, answer)
              case Err(d) => t == Reject(s, r, DenialMetric(d), d) && r in t.admissions
              case Ok(session) => t == AcquireStep(s, r, session, newId) && r in t.admissions
                                  && t.admissions[r] == AwaitAcquire(session, GrantOf(s, session, newId))
    {
    }

    lemma AcquireTouches(s: State, r: Req, session: Session, newId: Option<string>)
      requires ActiveMatches(s)
      ensures var t := AcquireStep(s, r, session, newId);
              && t.streams == s.streams && t.active == s.active && t.config == s.config && t.draining == s.draining
              && t.metrics == s.metrics && ActiveMatches(t)
    {
      TouchActive(s, AcquireStep(s, r, session, newId));
    }

    /** The call of `acquire` in `#admit`. */
    method Acquire(ghost r: Req, session: Session, newId: Option<string>) returns (grant: Grant, lease: Lease?)
      requires Linked() && r !in model.held && !IsLive(model, r)
      requires newId.Some? ==>
                 forall q <- Holders(model.held, session.sessionKey) :: model.held[q].connectionId != newId.value
      modifies this`model, registry, registry.ledger.sets
      ensures Linked() && (lease != null <==> grant.Granted?)
      ensures grant == GrantOf(old(model), session, newId)
      ensures grant.Granted? ==> r in registry.ledger.leases && registry.ledger.leases[r] == lease
      ensures model == AcquireStep(old(model), r, session, newId)
      ensures registry.ledger.leases ==
              if lease != null then old(registry.ledger.leases)[r := lease] else old(registry.ledger.leases)
      ensures registry.Grown()
    {
      AcquireTouches(model, r, session, newId);
      grant, lease := AcquireEffects(r, session, newId);
      Undisturbed();
    }

    method AcquireEffects(ghost r: Req, session: Session, newId: Option<string>) returns (grant: Grant, lease: Lease?)
      requires registry.Valid() && registry.View() == model.held && config == model.config && r !in model.held
      requires newId.Some? ==>
                 forall q <- Holders(model.held, session.sessionKey) :: model.held[q].connectionId != newId.value
      modifies this`model, registry, registry.ledger.sets
      ensures registry.Valid() && (lease != null <==> grant.Granted?)
      ensures grant == GrantOf(old(model), session, newId)
      ensures grant.Granted? ==> registry.ledger.leases == old(registry.ledger.leases)[r := lease]
      ensures !grant.Granted? ==> registry.ledger.leases == old(registry.ledger.leases)
      ensures registry.View() == model.held && model == AcquireStep(old(model), r, session, newId)
      ensures old(registry.ledger.sets) <= registry.ledger.sets
      ensures old(registry.ledger.granted) <= registry.ledger.granted
      ensures registry.Grown()
    {
      grant, lease := registry.Acquire(session.sessionKey, config.limit, newId, r);
      model := AcquireStep(model, r, session, newId);
    }

    /** What a call of `acquire` does to the registry leaves the streams as they are. */
    twostate lemma Undisturbed()
      requires old(AllStreamsSynced()) && unchanged(this`streams, this`objects) && unchanged(objects)
      requires model.streams == old(model).streams
      requires forall q | q in old(registry.ledger).leases && IsLive(model, q) ::
                 q in registry.ledger.leases && registry.ledger.leases[q] == old(registry.ledger).leases[q]
      requires old(registry.ledger).sets <= registry.ledger.sets
      requires old(registry.ledger).granted <= registry.ledger.granted
      ensures AllStreamsSynced()
    {
      forall q | q in streams ensures Synced(q) {
        assert old(Synced(q));
        assert IsLive(model, q) == old(IsLive(model, q));
      }
    }

    /** `#admit` from the outcome of `acquire` to its next `await`, or to its end. */
    method ResumeAcquire(e: Event, session: Session, grant: Grant, lease: Lease?)
      returns (denial: Option<Denial>, stream: ActiveStream?)
      requires Valid() && e.ResumeAcquire? && e.r in model.admissions
      requires model.admissions[e.r] == AwaitAcquire(session, grant)
      requires grant.Granted? ==> e.r in registry.ledger.leases && registry.ledger.leases[e.r] == lease
      modifies this`active, this`metrics, this`model, this`streams, this`objects
      modifies registry, registry.ledger.sets, registry.ledger.granted
      ensures Valid() && model == ResumeAcquireStep(old(model), e, session, grant)
      ensures stream != null <==> e.r in model.admissions && model.admissions[e.r].Streaming?
      ensures denial.None? <==> stream != null
      ensures denial.Some? ==> e.r in model.admissions && model.admissions[e.r] ==
                                 if grant.Granted? then AwaitRelease(denial.value) else Rejected(denial.value)
      ensures stream != null ==> Owns(e.r, stream) && stream.lease == lease && fresh(stream)
      ensures objects == if stream == null then old(objects) else old(objects) + {stream}
      ensures streams == if stream == null then old(streams) else old(streams)[e.r := stream]
      ensures registry.OnlyReleased()
    {
      BothSides();
      ResumeAcquireInv(model, e, session, grant);
      stream := null;
      match grant
      case Failed =>
        denial := Some(REGISTRY_UNAVAILABLE);
        Deny(e.r, AdmissionUnavailable, REGISTRY_UNAVAILABLE);
      case Refused =>
        denial := Some(CONNECTION_LIMIT);
        Deny(e.r, AdmissionLimited, CONNECTION_LIMIT);
      case Granted(id) =>
        GrantedLease(e.r, lease);
        GrantedStep(model, e, session, id);
        denial, stream := Admit(e, session, lease);
    }

    /** The guards on a lease that was granted. */
    ghost function Guard(s: State, id: string): Option<Denial> {
      if !IsOpaqueKey(id) || id in s.active then Some(REGISTRY_UNAVAILABLE)
      else if s.draining then Some(DRAINING)
      else None
    }

    lemma GrantedStep(s: State, e: Event, session: Session, id: string)
      requires e.ResumeAcquire?
      ensures ResumeAcquireStep(s, e, session, Granted(id)) ==
              (if Guard(s, id).Some? then WithoutLease(s, e.r, Guard(s, id).value)
               else Settled(Registered(s, e, session, id), e))
      ensures var t := ResumeAcquireStep(s, e, session, Granted(id));
              Guard(s, id).Some? <==> e.r in t.admissions && !t.admissions[e.r].Streaming?
    {
    }

    /** Those guards, and the registration of a stream that passes them. */
    method Admit(e: Event, session: Session, lease: Lease) returns (denial: Option<Denial>, stream: ActiveStream?)
      requires Linked() && e.ResumeAcquire? && e.r !in model.streams
      requires e.r in registry.ledger.leases && registry.ledger.leases[e.r] == lease
      modifies this`active, this`metrics, this`model, this`streams, this`objects
      modifies registry, lease, lease.current
      ensures Linked() && denial == Guard(old(model), lease.connectionId)
      ensures model == if denial.Some? then WithoutLease(old(model), e.r, denial.value)
                       else Settled(Registered(old(model), e, session, lease.connectionId), e)
      ensures denial.None? <==> stream != null
      ensures stream != null ==> Owns(e.r, stream) && stream.lease == lease && fresh(stream)
      ensures objects == if stream == null then old(objects) else old(objects) + {stream}
      ensures streams == if stream == null then old(streams) else old(streams)[e.r := stream]
      ensures registry.OnlyReleased()
    {
      stream := null;
      HasKeyIff(active, model.active, streams, lease.connectionId);
      if !IsOpaqueKey(lease.connectionId) || HasKey(active, lease.connectionId) {
        denial := Some(REGISTRY_UNAVAILABLE);
      } else {
        denial := if draining then Some(DRAINING) else None;
      }
      if denial.Some? {
        Return(e.r, lease, denial.value);
      } else {
        stream := Start(e, session, lease);
      }
    }

    /** The lease a suspended admission was granted. */
    lemma GrantedLease(r: Req, lease: Lease)
      requires Linked() && Inv(model) && r in Suspended(model)
      requires r in registry.ledger.leases && registry.ledger.leases[r] == lease
      ensures lease.connectionId == model.admissions[r].grant.connectionId
      ensures lease in registry.ledger.granted && lease.current in registry.ledger.sets
      ensures r !in model.streams
    {
      assert registry.Captured(r) && HoldsOwn(model, r);
      assert registry.Mapped(lease.sessionKey);
      assert r in model.streams <==> IsStreaming(model, r);
    }

    /** A lease that cannot be used is given back, and `#admit` waits for that. */
    method Return(ghost r: Req, lease: Lease, ghost d: Denial)
      requires Linked() && r in registry.ledger.leases && registry.ledger.leases[r] == lease && !IsLive(model, r)
      modifies this`model, registry, lease, lease.current
      ensures Linked() && model == WithoutLease(old(model), r, d)
      ensures registry.OnlyReleased()
    {
      assert registry.Captured(r);
      registry.Release(lease);
      model := WithoutLease(model, r, d);
      TouchActive(old(model), model);
      forall q | q in streams ensures Synced(q) { assert old(Synced(q)); }
    }

    /** The assignments that register a stream. */
    method RegisterEffects(e: Event, session: Session, lease: Lease) returns (stream: ActiveStream)
      requires e.ResumeAcquire?
      modifies this`active, this`model, this`streams, this`objects
      ensures fresh(stream) && stream.Valid()
      ensures stream.req == e.r && stream.session == session && stream.lease == lease
      ensures stream.View() == NewStream(old(model), session, lease.connectionId, e)
      ensures active == old(active) + [Entry(lease.connectionId, stream)]
      ensures model == Registered(old(model), e, session, lease.connectionId)
      ensures streams == old(streams)[e.r := stream] && objects == old(objects) + {stream}
    {
      stream := new ActiveStream(e.r, session, lease, e.subscription.Subscribed?, e.destroyed, e.writableEnded,
                                 |model.published|);
      active := active + [Entry(lease.connectionId, stream)];
      model := Registered(model, e, session, lease.connectionId);
      streams, objects := streams[e.r := stream], objects + {stream};
    }

    /** The registration of a stream, from its first frame to `subscribeToScopeChanges`. */
    method Register(e: Event, session: Session, lease: Lease) returns (stream: ActiveStream)
      requires Linked() && e.ResumeAcquire? && e.r !in model.streams && lease.connectionId !in model.active
      requires e.r in registry.ledger.leases && registry.ledger.leases[e.r] == lease
      modifies this`active, this`model, this`streams, this`objects
      ensures Linked() && model == Registered(old(model), e, session, lease.connectionId)
      ensures Owns(e.r, stream) && stream.lease == lease && objects == old(objects) + {stream} && fresh(stream)
      ensures streams == old(streams)[e.r := stream]
    {
      RegisterActive(model, e, session, lease.connectionId);
      assert registry.Captured(e.r);
      assert registry.Mapped(lease.sessionKey);
      stream := RegisterEffects(e, session, lease);
      AppendMatch(old(active), old(model).active, old(streams), lease.connectionId, e.r, stream);
      Joined(stream);
    }

    /** A stream that was not there before joins those in agreement with the model. */
    twostate lemma Joined(new stream: ActiveStream)
      requires old(AllStreamsSynced()) && stream.req !in old(streams)
      requires streams == old(streams)[stream.req := stream] && objects == old(objects) + {stream}
      requires unchanged(old(objects)) && registry.ledger == old(registry.ledger)
      requires stream.Valid() && model.streams == old(model).streams[stream.req := stream.View()]
      requires stream.req in registry.ledger.leases && registry.ledger.leases[stream.req] == stream.lease
      requires stream.lease in registry.ledger.granted && stream.lease.current in registry.ledger.sets
      ensures AllStreamsSynced()
    {
      forall q | q in streams ensures Synced(q) { assert q != stream.req ==> old(Synced(q)); }
    }

    /** `#admit` from its first write to the end of the call, or to the `await` of a `#close`. */
    method Start(e: Event, session: Session, lease: Lease) returns (stream: ActiveStream)
      requires Linked() && e.ResumeAcquire? && e.r !in model.streams && lease.connectionId !in model.active
      requires e.r in registry.ledger.leases && registry.ledger.leases[e.r] == lease
      modifies this`active, this`metrics, this`model, this`streams, this`objects
      modifies registry, lease, lease.current
      ensures Linked()
      ensures Owns(e.r, stream) && stream.lease == lease && objects == old(objects) + {stream} && fresh(stream)
      ensures streams == old(streams)[e.r := stream]
      ensures registry.OnlyReleased()
      ensures model == Settled(Registered(old(model), e, session, lease.connectionId), e)
    {
      stream := Register(e, session, lease);
      Settle(e, stream);
    }

    /** What becomes of a stream just registered: it may have nothing to subscribe to, or no response any more. */
    ghost function Settled(s: State, e: Event): State
      requires e.ResumeAcquire?
    {
      if e.subscription.SubscribeThrew? then Close(s, {e.r}, Revoked)
      else if e.destroyed || e.writableEnded then Close(s, {e.r}, Aborted)
      else RealtimeProtocol.Emit(s, AdmissionAccepted)
    }

    method Settle(e: Event, stream: ActiveStream)
      requires Linked() && e.ResumeAcquire? && Owns(e.r, stream)
      modifies this`active, this`metrics, this`model, stream
      modifies registry, stream.lease, stream.lease.current
      ensures Linked()
      ensures registry.OnlyReleased()
      ensures model == Settled(old(model), e)
    {
      if e.subscription.SubscribeThrew? {
        CloseOne(stream, Revoked);
      } else if e.destroyed || e.writableEnded {
        CloseOne(stream, Aborted);
      } else {
        Emit(AdmissionAccepted);
      }
    }

    /** `#admit` after the release of a lease it could not use. */
    method ResumeRelease(ghost r: Req, denial: Denial)
      requires Valid() && r in model.admissions && model.admissions[r] == AwaitRelease(denial)
      modifies this`metrics, this`model
      ensures Valid() && model == Step(old(model), RealtimeProtocol.ResumeRelease(r))
    {
      BothSides();
      RejectInv(model, r, AdmissionUnavailable, denial);
      Deny(r, AdmissionUnavailable, denial);
    }

    // ------------------------------------------- timers, listeners and answers

    /** The callback of the heartbeat timer. */
    method HeartbeatTick(stream: ActiveStream)
      requires Valid() && Owns(stream.req, stream) && HeartbeatTimer in stream.timers
      modifies this`model, stream
      ensures Valid()
      ensures model ==
              if IsLive(old(model), stream.req) then RealtimeProtocol.Write(old(model), {stream.req}, Heartbeat)
              else old(model)
    {
      BothSides();
      if IsLive(model, stream.req) { HeartbeatInv(model, stream.req); }
      assert Synced(stream.req);
      if !stream.closed {
        WriteOne(stream, Heartbeat);
      }
    }

    /** The callback of the lifetime timer. */
    method LifetimeOver(stream: ActiveStream)
      requires Valid() && Owns(stream.req, stream) && LifetimeTimer in stream.timers
      modifies this`active, this`model, stream, registry, stream.lease, stream.lease.current
      ensures Valid() && model == LifetimeStep(old(model), stream.req)
      ensures registry.OnlyReleased()
    {
      BothSides();
      AnnouncedCloseInv(model, {stream.req} * Writable(model), {stream.req}, ForLifetime);
      AnnounceExpiry(stream);
      CloseOne(stream, Expired);
    }

    method AnnounceExpiry(stream: ActiveStream)
      requires Linked() && Owns(stream.req, stream)
      modifies this`model, stream
      ensures Linked()
      ensures model == RealtimeProtocol.Write(old(model), {stream.req} * Writable(old(model)), Reconnect(ForLifetime))
    {
      assert Synced(stream.req);
      if !stream.closed && !stream.destroyed {
        assert {stream.req} * Writable(model) == {stream.req};
        WriteOne(stream, Reconnect(ForLifetime));
      } else {
        assert {stream.req} * Writable(model) == {};
        WriteNothing(model, Reconnect(ForLifetime));
      }
    }

    lemma WriteNothing(s: State, f: Frame)
      ensures RealtimeProtocol.Write(s, {}, f) == s
    {
      assert RealtimeProtocol.Write(s, {}, f).streams == s.streams;
    }

    /** `#revalidate` from the authorizer's answer. */
    method ResumeRevalidate(stream: ActiveStream, answer: Answer)
      requires Valid() && Owns(stream.req, stream)
      modifies this`active, this`model, stream, registry, stream.lease, stream.lease.current
      ensures Valid() && stream.req in old(model).streams && model == RevalidateStep(old(model), stream.req, answer)
      ensures registry.OnlyReleased()
    {
      BothSides();
      CloseInv(model, {stream.req}, Revoked);
      assert Synced(stream.req);
      if !(answer.Authorized? && SameAuthorization(stream.session, answer.session)) {
        CloseOne(stream, Revoked);
      }
    }

    /** The listener for the end of the connection. */
    method OnClose(stream: ActiveStream)
      requires Valid() && Owns(stream.req, stream) && stream.listening
      modifies this`active, this`model, stream, registry, stream.lease, stream.lease.current
      ensures Valid() && model == Close(old(model), {stream.req}, Aborted)
      ensures registry.OnlyReleased()
    {
      BothSides();
      CloseInv(model, {stream.req}, Aborted);
      CloseOne(stream, Aborted);
    }

    /** The response is destroyed by the other side; its `close` event comes later. */
    method Destroyed(stream: ActiveStream)
      requires Valid() && Owns(stream.req, stream)
      modifies this`model, stream
      ensures Valid() && stream.req in old(model).streams && model == Destroy(old(model), stream.req)
    {
      BothSides();
      assert Synced(stream.req);
      DestroyedInv(model, stream.req);
      DestroyLinked(stream);
    }

    method DestroyLinked(stream: ActiveStream)
      requires Linked() && Owns(stream.req, stream)
      modifies this`model, stream
      ensures Linked() && stream.req in old(model).streams && model == Destroy(old(model), stream.req)
    {
      assert Synced(stream.req);
      DestroyedActive(model, stream.req);
      DestroyEffects(stream);
      AllSynced(stream);
    }

    lemma DestroyedActive(s: State, r: Req)
      requires ActiveMatches(s) && r in s.streams
      ensures ActiveMatches(Destroy(s, r))
    {
      TouchActive(s, Destroy(s, r));
    }

    method DestroyEffects(stream: ActiveStream)
      requires stream.Valid() && stream.req in model.streams
      modifies this`model, stream
      ensures stream.Valid() && stream.View() == old(stream.View()).(destroyed := true)
      ensures model == Destroy(old(model), stream.req)
    {
      stream.Destroy();
      model := Destroy(model, stream.req);
    }

    /** `#close` after the release of the lease. */
    method CloseTail(stream: ActiveStream, result: CloseResult)
      requires Valid() && Owns(stream.req, stream)
      requires stream.req in model.streams && model.streams[stream.req].phase == Closing(result)
      modifies this`metrics, this`model, stream
      ensures Valid() && model == CloseTailStep(old(model), stream.req)
    {
      BothSides();
      CloseTailInv(model, stream.req);
      Finish(stream);
      Emit(Lifecycle(result));
    }

    ghost function Finished(s: State, r: Req): State
      requires r in s.streams && s.streams[r].phase.Closing?
    {
      s.(streams := CloseTailStep(s, r).streams)
    }

    method Finish(stream: ActiveStream)
      requires Linked() && Owns(stream.req, stream)
      requires stream.req in model.streams && model.streams[stream.req].phase.Closing?
      modifies this`model, stream
      ensures Linked() && model == Finished(old(model), stream.req)
    {
      assert Synced(stream.req);
      TouchActive(model, Finished(model, stream.req));
      FinishEffects(stream);
      AllSynced(stream);
    }

    method FinishEffects(stream: ActiveStream)
      requires stream.Valid() && stream.phase.Closing?
      requires stream.req in model.streams && model.streams[stream.req] == stream.View()
      modifies this`model, stream
      ensures stream.Valid() && model == Finished(old(model), stream.req)
      ensures stream.View() == model.streams[stream.req]
    {
      stream.End();
      model := Finished(model, stream.req);
    }

    /** `resourceSnapshot`: the number of active streams and of the timers they own. */
    method ResourceSnapshot() returns (activeStreams: nat, isDraining: bool, ownedTimers: nat)
      requires Valid()
      ensures activeStreams == |LiveStreams(model)| && isDraining == model.draining
      ensures ownedTimers == |ArmedTimers(model)|
    {
      BothSides();
      SlotCount(active, model.active, streams);
      RealtimeRuns.ActiveCount(model);
      ArmedAreLive(model);
      TimerCount(LiveStreams(model));
      activeStreams := EntryCount(active);
      isDraining, ownedTimers := draining, activeStreams * 3;
    }
  }

  /** The size of a Map is the number of its entries that are not empty. */
  function EntryCount(slots: seq<Slot>): nat {
    if slots == [] then 0
    else EntryCount(slots[..|slots| - 1]) + (if slots[|slots| - 1].Entry? then 1 else 0)
  }

  function EntryKeys(slots: seq<Slot>): set<string> { set i | 0 <= i < |slots| && slots[i].Entry? :: slots[i].key }

  lemma {:induction false} EntryCountKeys(slots: seq<Slot>)
    requires DistinctKeys(slots)
    ensures EntryCount(slots) == |EntryKeys(slots)|
  {
    if slots != [] {
      EntryCountKeys(slots[..|slots| - 1]);
      LastKey(slots);
    }
  }

  lemma LastKey(slots: seq<Slot>)
    requires slots != [] && DistinctKeys(slots)
    ensures var last, rest := slots[|slots| - 1], slots[..|slots| - 1];
            && (last.Entry? ==> last.key !in EntryKeys(rest))
            && EntryKeys(slots) == EntryKeys(rest) + if last.Entry? then {last.key} else {}
  {
    var last, rest := slots[|slots| - 1], slots[..|slots| - 1];
    forall key | key in EntryKeys(slots) ensures key in EntryKeys(rest) || (last.Entry? && key == last.key) {
      var i :| 0 <= i < |slots| && slots[i].Entry? && slots[i].key == key;
      assert i < |rest| ==> rest[i] == slots[i];
    }
  }

  lemma SlotCount(slots: seq<Slot>, act: map<string, Req>, streams: map<Req, ActiveStream>)
    requires SlotsMatch(slots, act, streams)
    ensures EntryCount(slots) == |act|
  {
    EntryCountKeys(slots);
    forall i | 0 <= i < |slots| && slots[i].Entry? ensures slots[i].key in act {
      assert SlotOk(slots[i], act, streams);
    }
    forall k | k in act ensures k in EntryKeys(slots) {
      assert HasKey(slots, k);
    }
    assert EntryKeys(slots) == act.Keys;
  }
}
