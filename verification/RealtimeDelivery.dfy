/** From publication to the browser: what the client of a stream reads. */
module RealtimeDelivery {
  import opened RealtimeTypes
  import opened RealtimeProtocol
  import opened RealtimeInvariants
  import opened RealtimeSteps
  import opened RealtimeRuns
  import opened EventStream

  lemma {:induction false} HintIsListed(frames: seq<Frame>, i: nat)
    requires i < |frames| && frames[i].HintFrame?
    ensures frames[i].hint in HintsOf(frames)
  {
    if i < |frames| - 1 {
      HintIsListed(frames[..|frames| - 1], i);
    }
  }

  lemma {:induction false} SelectedIsPublished(session: Session, hints: seq<Hint>, h: Hint)
    requires h in Select(session, hints)
    ensures h in hints && InScope(session, h)
  {
    if hints != [] && h in Select(session, hints[..|hints| - 1]) {
      SelectedIsPublished(session, hints[..|hints| - 1], h);
    }
  }

  lemma FramesPrintable(published: seq<Hint>, t: Stream)
    requires StreamOk(published, t) && forall h <- published :: Printable(h)
    ensures AllPrintable(t.frames)
  {
    forall f | f in t.frames && f.HintFrame? ensures Printable(f.hint) {
      var i :| 0 <= i < |t.frames| && t.frames[i] == f;
      HintIsListed(t.frames, i);
      SelectedIsPublished(t.session, published[t.from..Until(published, t)], f.hint);
    }
  }

  lemma StreamPrintable(s: State, r: Req)
    requires Inv(s) && r in s.streams
    ensures AllPrintable(s.streams[r].frames)
  {
    assert StreamOk(s.published, s.streams[r]);
    FramesPrintable(s.published, s.streams[r]);
  }

  /**
   * End to end: control events aside, the client of a stream registered by `e` dispatches exactly the safe
   * hints of its scope published since then, in order, each once.
   */
  lemma ClientReceives(s: State, e: Event, during: seq<Event>)
    requires Inv(s) && e.ResumeAcquire? && Enabled(s, e) && IsLive(Step(s, e), e.r)
    requires IsRun(Step(s, e), during) && IsLive(Run(Step(s, e), during), e.r)
    ensures var t := Run(Step(s, e), during).streams[e.r];
            Business(Interpret(PrintAll(t.frames))) == HintEvents(Select(t.session, SafeHints(during)))
  {
    var u := Run(Step(s, e), during);
    BroadcastRefinement(s, e, during);
    StepInv(s, e);
    RunInv(Step(s, e), during);
    StreamPrintable(u, e.r);
    HintsReceived(u.streams[e.r].frames);
  }

  /**
   * In every run each stream belongs to an active merchant session with the permission to subscribe, and every
   * hint it was ever sent is a safe one that was published for the brand and store of that session.
   */
  lemma TenantIsolation(c: Config, es: seq<Event>, r: Req, h: Hint)
    requires IsRun(Init(c), es) && r in Run(Init(c), es).streams
    ensures var t := Run(Init(c), es).streams[r];
            && IsSafeSession(t.session) && t.session.kind == Merchant && PERMISSION in t.session.permissions
            && (h in HintsOf(t.frames) ==>
                  && h in SafeHints(es) && IsSafeHint(h)
                  && h.brandId == t.session.brandId && h.storeId == t.session.storeId)
  {
    InitInv(c);
    RunInv(Init(c), es);
    PublishedRun(Init(c), es);
    SentInScope(Run(Init(c), es), r, h);
  }

  lemma SentInScope(s: State, r: Req, h: Hint)
    requires Inv(s) && r in s.streams
    ensures Permitted(s.streams[r].session)
    ensures h in HintsOf(s.streams[r].frames) ==> h in s.published && IsSafeHint(h) && InScope(s.streams[r].session, h)
  {
    var t := s.streams[r];
    assert StreamOk(s.published, t) && Permitted(t.session);
    if h in HintsOf(t.frames) {
      SelectedIsPublished(t.session, s.published[t.from..Until(s.published, t)], h);
      assert IsSafeHint(h);
    }
  }

  /** Every client is first told to refresh: its first event says that it is connected. */
  lemma FirstEvent(s: State, r: Req)
    requires Inv(s) && r in s.streams
    ensures var events := Interpret(PrintAll(s.streams[r].frames));
            events != [] && events[0] == ClientEvent("system.refresh", ReasonJson("connected"), "")
  {
    StreamPrintable(s, r);
    assert StreamOk(s.published, s.streams[r]);
    FirstFrame(s.streams[r].frames);
  }

  lemma FirstFrame(frames: seq<Frame>)
    requires AllPrintable(frames) && frames != [] && frames[0] == Refresh
    ensures var events := Interpret(PrintAll(frames));
            events != [] && events[0] == ClientEvent("system.refresh", ReasonJson("connected"), "")
  {
    RoundTrip(frames);
    assert Meant(frames, "")[0] == EventOf(frames[0], "")[0];
  }
}
