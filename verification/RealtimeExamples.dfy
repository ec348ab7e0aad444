/** Runs that show what can happen to one stream. */
module RealtimeExamples {
  import opened Common
  import opened RealtimeTypes
  import opened RealtimeProtocol
  import opened RealtimeInvariants
  import opened RealtimeSteps
  import opened RealtimeRuns

  /** A request, an authorization and a connection id with which a stream is registered. */
  predicate Admits(c: Config, request: Request, session: Session, id: string) {
    && c.limit >= 1
    && Gate(request, c.expectedOrigin).None?
    && Admitted(request, Authorized(session)) == Ok(session)
    && IsOpaqueKey(id)
  }

  /** The events that register a stream whose response is there to be written to. */
  function AdmissionEvents(r: Req, request: Request, session: Session, id: string): seq<Event> {
    [Arrive(r, request), ResumeAuthorize(r, Authorized(session), Some(id)), ResumeAcquire(r, Unsupported, false, false)]
  }

  function OneStream(c: Config, r: Req, session: Session, id: string): State {
    State(c, false, map[r := Streaming],
          map[r := Stream(session, id, Live, ALL_TIMERS, false, true, false, false, 0, [Refresh], 0, 0)],
          map[id := r], map[r := Held(session.sessionKey, id)], [AdmissionAccepted], [])
  }

  /** The state in which such a request waits for the authorizer, and the one in which it holds its lease. */
  function Asked(c: Config, r: Req, request: Request): State {
    Init(c).(admissions := map[r := AwaitAuthorize(request)])
  }

  function Waiting(c: Config, r: Req, session: Session, id: string): State {
    Init(c).(admissions := map[r := AwaitAcquire(session, Granted(id))], held := map[r := Held(session.sessionKey, id)])
  }

  lemma AdmissionSteps(c: Config, r: Req, request: Request, session: Session, id: string)
    requires Admits(c, request, session, id)
    ensures var a := ArriveStep(Init(c), r, request);
            var b := ResumeAuthorizeStep(a, r, request, Authorized(session), Some(id));
            var e := ResumeAcquire(r, Unsupported, false, false);
            && a == Asked(c, r, request)
            && b == Waiting(c, r, session, id)
            && ResumeAcquireStep(b, e, session, Granted(id)) == OneStream(c, r, session, id)
  {
    var a := ArriveStep(Init(c), r, request);
    assert Holders(a.held, session.sessionKey) == {};
  }

  /** From the start such a request leads to exactly one live stream. */
  lemma AdmissionRun(c: Config, r: Req, request: Request, session: Session, id: string)
    requires Admits(c, request, session, id)
    ensures IsRun(Init(c), AdmissionEvents(r, request, session, id))
    ensures Run(Init(c), AdmissionEvents(r, request, session, id)) == OneStream(c, r, session, id)
  {
    AdmissionSteps(c, r, request, session, id);
    var e1, e2 := ResumeAuthorize(r, Authorized(session), Some(id)), ResumeAcquire(r, Unsupported, false, false);
    var a := ArriveStep(Init(c), r, request);
    var b := ResumeAuthorizeStep(a, r, request, Authorized(session), Some(id));
    var d := OneStream(c, r, session, id);
    var es := AdmissionEvents(r, request, session, id);
    assert es[1..] == [e1, e2] && [e1, e2][1..] == [e2] && [e2][1..] == [];
    assert Holders(a.held, session.sessionKey) == {};
    assert IsRun(d, []) && Run(d, []) == d;
    assert IsRun(b, [e2]) && Run(b, [e2]) == d;
    assert IsRun(a, [e1, e2]) && Run(a, [e1, e2]) == d;
  }

  /**
   * A write that throws during the drain leaves its stream as it was: after such a run the stream is live, its entry
   * is in the active map, its lease is held and its timers are armed, and draining again changes nothing.
   */
  lemma DrainLeavesStream(c: Config, r: Req, request: Request, session: Session, id: string, again: set<Req>)
    requires Admits(c, request, session, id)
    ensures var es := AdmissionEvents(r, request, session, id) + [BeginDrain({r})];
            && IsRun(Init(c), es)
            && var u := Run(Init(c), es);
               && u.draining && LiveStreams(u) == {r} && u.active == map[id := r]
               && u.held == map[r := Held(session.sessionKey, id)]
               && u.streams[r].timers == ALL_TIMERS && u.streams[r].frames == [Refresh]
               && BeginDrainStep(u, again) == u
  {
    var s, drain := OneStream(c, r, session, id), [BeginDrain({r})];
    AdmissionRun(c, r, request, session, id);
    StuckInDrain(c, r, session, id);
    assert drain[1..] == [];
    assert IsRun(BeginDrainStep(s, {r}), []);
    assert IsRun(s, drain) && Run(s, drain) == BeginDrainStep(s, {r});
    RunAppend(Init(c), AdmissionEvents(r, request, session, id), drain);
  }

  lemma StuckInDrain(c: Config, r: Req, session: Session, id: string)
    ensures var s := OneStream(c, r, session, id);
            && Writable(s) * {r} == {r} && LiveStreams(s) == {r}
            && BeginDrainStep(s, {r}) == s.(draining := true)
  {
    var s := OneStream(c, r, session, id);
    assert Writable(s) == {r} && LiveStreams(s) == {r};
    var t := BeginDrainStep(s, {r});
    assert t.streams == s.streams && t.active == s.active && t.held == s.held;
  }

  const UUID: string := "01890a5d-ac96-774b-bcce-b302099a8057"

  const REQUEST := Request(Some("o"), Some("same-origin"), Some("cors"), map[], None)

  const SESSION := Session(true, UUID, Merchant, [PERMISSION], "r", "k", None)

  /** Such requests and authorizations exist. */
  lemma ExampleAdmits()
    ensures Admits(Config("o", 1), REQUEST, SESSION, "c")
  {
    UuidExample();
    KeyExamples();
    assert REQUEST.query.Keys - {"storeId"} == {};
    assert SESSION.permissions == [PERMISSION];
  }

  lemma KeyExamples()
    ensures IsOpaqueKey("c") && IsOpaqueKey("r") && IsOpaqueKey("k") && IsOpaqueKey(PERMISSION)
  {
  }

  lemma UuidExample()
    ensures IsUuidV7(UUID)
  {
    assert UUID[8] == '-' && UUID[13] == '-' && UUID[14] == '7';
    assert UUID[18] == '-' && UUID[19] == 'b' && UUID[23] == '-';
    forall i | 0 <= i < 36 ensures UuidCharAt(UUID, i) {}
  }
}
