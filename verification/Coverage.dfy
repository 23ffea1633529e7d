/** What the watchdog and the media report are for: every established call that sends video
    is watched, and every established call is reported on.  Which steps leave a call
    uncovered. */
module Coverage {
  import opened Options
  import opened Pjsua
  import opened Calls
  import opened CallRuns

  predicate Established(s: State, c: int) {
    c in s.env.calls && s.env.calls[c].state.Confirmed?
  }

  predicate SendsVideo(media: seq<Media>) {
    FirstSending(media) < |media|
  }

  /** Established and sending video, given up or not. */
  predicate Sending(s: State, c: int) {
    Established(s, c) && SendsVideo(s.env.calls[c].media)
  }

  // ---- The watchdog ----------------------------------------------------------------------------

  /** Every established, sending call that was not given up is watched. */
  ghost predicate Watched(s: State) {
    forall c | Sending(s, c) && c != s.latch :: s.watch == Timer(true, c)
  }

  /** Another call than `c` is established, sending and not given up. */
  ghost predicate OtherNeedsWatch(s: State, c: int) {
    exists d :: d != c && d != s.latch && Sending(s, d)
  }

  /** Any other call is established and sending. */
  ghost predicate OtherSends(s: State, c: int) {
    exists d :: d != c && Sending(s, d)
  }

  /** What leaves a call unwatched: being established, or starting to send, with the
      watchdog not armed for it; the end or the renegotiation of another call; a timer that
      fires but cannot see its call, or cannot be scheduled; and another call's being given
      up. */
  ghost predicate LosesWatch(s: State, a: Action) {
    match a
    case StateChange(c, st, delivered) =>
      c in s.env.calls &&
      if st.Disconnected? then delivered && OtherNeedsWatch(s, c)
      else st.Confirmed? && SendsVideo(s.env.calls[c].media) && c != s.latch && s.watch != Timer(true, c)
    case MediaChange(c, media, watchOk, _) =>
      c in s.env.calls &&
      (OtherNeedsWatch(s, c) || (Established(s, c) && SendsVideo(media) && c != s.latch && !watchOk))
    case Traffic(c, media) =>
      Established(s, c) && SendsVideo(media) && c != s.latch && s.watch != Timer(true, c)
    case DeviceError(c) => c >= 0 && c != s.latch && OtherSends(s, c)
    case Fires(id, infoOk, statOk, schedOk) =>
      && id.Watchdog? && id in s.env.heap && s.env.heap[id] <= s.env.now && Sending(s, s.watch.call)
      && (|| !infoOk
          || if IsStall(s, Reading(s.env.calls[s.watch.call].media, statOk)) then OtherSends(s, s.watch.call)
             else !schedOk)
    case _ => false
  }

  lemma StateChangeKeepsWatch(s: State, a: Action)
    requires Watched(s) && IdsFit(s) && a.StateChange?
    ensures Watched(Step(s, a)) <==> !LosesWatch(s, a)
  {
    hide FirstSending;
    var c, st, delivered := a.call, a.state, a.delivered;
    if c in s.env.calls {
      var s1 := s.(env := SetCall(s.env, c, s.env.calls[c].(state := st)));
      var s2 := if delivered then OnCallState(s1, c, st) else s1;
      OnCallStateIs(s1, c, st);
      hide OnCallState;
      var r := Step(s, a);
      assert forall d | d != c :: Sending(r, d) <==> Sending(s, d);
      if LosesWatch(s, a) {
        if st.Disconnected? {
          var d :| d != c && d != s.latch && Sending(s, d);
          assert Sending(r, d) && d != r.latch && !r.watch.scheduled;
        } else {
          assert Sending(r, c);
        }
      } else if st.Disconnected? && delivered {
        assert forall d | Sending(r, d) :: d == r.latch;
      }
    }
  }

  lemma MediaChangeKeepsWatch(s: State, a: Action)
    requires Watched(s) && a.MediaChange?
    ensures Watched(Step(s, a)) <==> !LosesWatch(s, a)
  {
    var c, media := a.call, a.media;
    if c in s.env.calls {
      var s1 := s.(env := SetCall(s.env, c, s.env.calls[c].(media := media)));
      var s2 := ArmWatch(s1, c, media, a.watchOk);
      ArmWatchWatch(s1, c, media, a.watchOk);
      ArmReportWatch(s2, c, a.reportOk);
      var r := Step(s, a);
      assert r == ArmReport(s2, c, a.reportOk);
      hide ArmWatch, ArmReport, FirstSending, Step;
      assert forall d | d != c :: Sending(r, d) <==> Sending(s, d);
      assert Sending(r, c) <==> Established(s, c) && SendsVideo(media);
      if OtherNeedsWatch(s, c) {
        var d :| d != c && d != s.latch && Sending(s, d);
        assert Sending(r, d) && d != r.latch;
      }
    }
  }

  lemma ArmWatchWatch(s: State, c: int, media: seq<Media>, ok: bool)
    ensures var r := ArmWatch(s, c, media, ok);
            && r.env.calls == s.env.calls && r.latch == s.latch
            && (r.watch.scheduled <==> SendsVideo(media) && c != s.latch && ok)
            && (r.watch.scheduled ==> r.watch.call == c)
  {
  }

  lemma ArmReportWatch(s: State, c: int, ok: bool)
    ensures var r := ArmReport(s, c, ok); r.env.calls == s.env.calls && r.latch == s.latch && r.watch == s.watch
  {
  }

  /** Giving up on a call leaves the watchdog off, and every other call exposed. */
  lemma GiveUpWatch(s: State, c: int)
    ensures var r := GiveUp(s, c);
            && r.latch == c
            && (c == s.latch ==> r == s)
            && (c != s.latch ==> !r.watch.scheduled)
            && (forall d :: Sending(r, d) <==> Sending(s, d))
  {
    hide FirstSending;
  }

  lemma DeviceErrorKeepsWatch(s: State, a: Action)
    requires Watched(s) && a.DeviceError?
    ensures Watched(Step(s, a)) <==> !LosesWatch(s, a)
  {
    GiveUpWatch(s, a.call);
    hide GiveUp, SendsVideo;
    if OtherSends(s, a.call) {
      var d :| d != a.call && Sending(s, d);
      assert Sending(GiveUp(s, a.call), d);
    }
  }

  lemma FiringKeepsWatch(s: State, a: Action)
    requires Watched(s) && TimersAgree(s) && WatchSparesLatch(s) && a.Fires? && a.id.Watchdog?
    ensures Watched(Step(s, a)) <==> !LosesWatch(s, a)
  {
    hide GiveUp, FirstSending, Reading, IsStall;
    if Watchdog in s.env.heap && s.env.heap[Watchdog] <= s.env.now {
      var c, r := s.watch.call, Step(s, a);
      var s' := s.(env := Unqueue(s.env, a.id), watch := s.watch.(scheduled := false), stalls := s.stalls + 1);
      if Sending(s, c) && a.infoOk {
        var reading := Reading(s.env.calls[c].media, a.statOk);
        SameStall(s, s.(env := Unqueue(s.env, a.id), watch := s.watch.(scheduled := false)), reading);
        if IsStall(s, reading) {
          assert r == GiveUp(s', c);
          GiveUpWatch(s', c);
          assert forall d :: Sending(s', d) <==> Sending(s, d);
          if OtherSends(s, c) {
            var d :| d != c && Sending(s, d);
            assert Sending(r, d);
          }
        } else {
          assert r.watch == Timer(a.schedOk, c) && r.latch == s.latch && r.env.calls == s.env.calls;
          assert Sending(r, c);
        }
      } else {
        assert !r.watch.scheduled && r.latch == s.latch && r.env.calls == s.env.calls;
        assert forall d :: Sending(r, d) <==> Sending(s, d);
      }
    }
  }

  lemma SameStall(s: State, r: State, reading: Option<nat>)
    requires r.seen == s.seen && r.stalls == s.stalls
    ensures IsStall(s, reading) <==> IsStall(r, reading)
  {
  }

  lemma OthersKeepWatch(s: State, a: Action)
    requires Watched(s) && IdsFit(s)
    requires !a.StateChange? && !a.MediaChange? && !a.DeviceError? && !(a.Fires? && a.id.Watchdog?)
    ensures Watched(Step(s, a)) <==> !LosesWatch(s, a)
  {
    hide FirstSending, GiveUp, ArmWatch, ArmReport, OnWatchdog, OnCallState;
    var r := Step(s, a);
    assert r.watch == s.watch && r.latch == s.latch;
    if a.Traffic? {
      assert forall d | d != a.call :: Sending(r, d) <==> Sending(s, d);
      assert Sending(r, a.call) <==> Established(s, a.call) && SendsVideo(a.media);
    } else {
      assert forall d :: Sending(r, d) <==> Sending(s, d);
    }
  }

  /** Coverage by the watchdog is kept exactly by the steps that do not lose it. */
  lemma StepKeepsWatch(s: State, a: Action)
    requires Watched(s) && TimersAgree(s) && WatchSparesLatch(s) && IdsFit(s)
    ensures Watched(Step(s, a)) <==> !LosesWatch(s, a)
  {
    hide Step, Watched, LosesWatch;
    if a.StateChange? {
      StateChangeKeepsWatch(s, a);
    } else if a.MediaChange? {
      MediaChangeKeepsWatch(s, a);
    } else if a.DeviceError? {
      DeviceErrorKeepsWatch(s, a);
    } else if a.Fires? && a.id.Watchdog? {
      FiringKeepsWatch(s, a);
    } else {
      OthersKeepWatch(s, a);
    }
  }

  // ---- The media report --------------------------------------------------------------------------

  /** Every established call is reported on. */
  ghost predicate Reported(s: State) {
    forall c | Established(s, c) :: s.report == Timer(true, c)
  }

  ghost predicate OtherEstablished(s: State, c: int) {
    exists d :: d != c && Established(s, d)
  }

  /** What leaves a call unreported: being established with the report not armed for it, the
      end or the renegotiation of another call, and a timer that fires but cannot see its
      call, or cannot be scheduled. */
  ghost predicate LosesReport(s: State, a: Action) {
    match a
    case StateChange(c, st, delivered) =>
      c in s.env.calls &&
      if st.Disconnected? then delivered && OtherEstablished(s, c)
      else st.Confirmed? && s.report != Timer(true, c)
    case MediaChange(c, _, _, reportOk) =>
      c in s.env.calls && (OtherEstablished(s, c) || (Established(s, c) && !reportOk))
    case Fires(id, infoOk, _, schedOk) =>
      && id.Report? && id in s.env.heap && s.env.heap[id] <= s.env.now
      && Established(s, s.report.call) && !(infoOk && schedOk)
    case _ => false
  }

  /** What has no bearing on it. */
  ghost predicate SameReport(s: State, r: State) {
    r.report == s.report && forall c :: Established(r, c) <==> Established(s, c)
  }

  lemma GiveUpSameReport(s: State, c: int)
    ensures SameReport(s, GiveUp(s, c))
  {
  }

  lemma OnWatchdogSameReport(s: State, infoOk: bool, statOk: bool, schedOk: bool)
    ensures SameReport(s, OnWatchdog(s, infoOk, statOk, schedOk))
  {
    hide GiveUp, FirstSending, Reading;
    GiveUpSameReport(s.(watch := s.watch.(scheduled := false), stalls := s.stalls + 1), s.watch.call);
  }

  lemma StateChangeKeepsReport(s: State, a: Action)
    requires Reported(s) && a.StateChange?
    ensures Reported(Step(s, a)) <==> !LosesReport(s, a)
  {
    var r, c := Step(s, a), a.call;
    if c in s.env.calls {
      hide OnCallState;
      OnCallStateIs(s.(env := SetCall(s.env, c, s.env.calls[c].(state := a.state))), c, a.state);
      assert forall d | d != c :: Established(r, d) <==> Established(s, d);
      if OtherEstablished(s, c) {
        var d :| d != c && Established(s, d);
        assert Established(r, d);
      }
      if a.state.Confirmed? {
        assert Established(r, c);
      }
    }
  }

  lemma ArmReportReport(s: State, c: int, ok: bool)
    ensures var r := ArmReport(s, c, ok); r.env.calls == s.env.calls && r.report == Timer(ok, c)
  {
  }

  lemma MediaChangeKeepsReport(s: State, a: Action)
    requires Reported(s) && a.MediaChange?
    ensures Reported(Step(s, a)) <==> !LosesReport(s, a)
  {
    var r, c := Step(s, a), a.call;
    if c in s.env.calls {
      hide ArmWatch, FirstSending;
      var s1 := s.(env := SetCall(s.env, c, s.env.calls[c].(media := a.media)));
      var s2 := ArmWatch(s1, c, a.media, a.watchOk);
      ArmWatchWatch(s1, c, a.media, a.watchOk);
      ArmReportReport(s2, c, a.reportOk);
      assert r == ArmReport(s2, c, a.reportOk);
      hide ArmReport, Step;
      assert forall d :: Established(r, d) <==> Established(s, d);
      if OtherEstablished(s, c) {
        var d :| d != c && Established(s, d);
        assert Established(r, d);
      }
    }
  }

  /** Coverage by the report is kept exactly by the steps that do not lose it. */
  lemma StepKeepsReport(s: State, a: Action)
    requires Reported(s) && TimersAgree(s)
    ensures Reported(Step(s, a)) <==> !LosesReport(s, a)
  {
    if a.StateChange? {
      hide Step;
      StateChangeKeepsReport(s, a);
    } else if a.MediaChange? {
      hide Step;
      MediaChangeKeepsReport(s, a);
    } else {
      hide GiveUp, ArmWatch, ArmReport, OnWatchdog, OnCallState;
      var r := Step(s, a);
      if a.DeviceError? {
        GiveUpSameReport(s, a.call);
      } else if a.Fires? && a.id.Watchdog? {
        OnWatchdogSameReport(s.(env := Unqueue(s.env, a.id)), a.infoOk, a.statOk, a.schedOk);
      } else {
        assert forall d :: Established(r, d) <==> Established(s, d);
      }
    }
  }

  /** `n` intervals of the report, each with the call to be found and the timer taken back. */
  function ReportPasses(s: State, n: nat): State {
    if n == 0 then s else Step(Step(ReportPasses(s, n - 1), Tick(REPORT_MSEC)), Fires(Report, true, true, true))
  }

  /** The report goes on every five seconds, for as long as the call is established. */
  lemma {:induction false} ReportGoesOn(s: State, c: int, n: nat)
    requires s.report == Timer(true, c) && Established(s, c)
    requires Report in s.env.heap && s.env.heap[Report] == s.env.now + REPORT_MSEC
    ensures var r := ReportPasses(s, n);
            && r.report == Timer(true, c) && r.env.calls == s.env.calls && r.env.now == s.env.now + n * REPORT_MSEC
            && Report in r.env.heap && r.env.heap[Report] == r.env.now + REPORT_MSEC
  {
    if n > 0 {
      ReportGoesOn(s, c, n - 1);
    }
  }

  // ---- Runs ----------------------------------------------------------------------------------------

  ghost predicate CoveredRun(s: State, actions: seq<Action>)
    decreases |actions|
  {
    actions == [] ||
      (&& !LosesWatch(s, actions[0]) && !LosesReport(s, actions[0])
       && CoveredRun(Step(s, actions[0]), actions[1..]))
  }

  lemma {:induction false} CoverageInRun(s: State, actions: seq<Action>)
    requires Watched(s) && Reported(s) && TimersAgree(s) && WatchSparesLatch(s) && IdsFit(s)
    requires CoveredRun(s, actions)
    ensures Watched(Run(s, actions)) && Reported(Run(s, actions))
    decreases |actions|
  {
    hide Step, Watched, Reported, TimersAgree, WatchSparesLatch, IdsFit, LosesWatch, LosesReport;
    if actions != [] {
      StepKeepsWatch(s, actions[0]);
      StepKeepsReport(s, actions[0]);
      StepKeepsTimers(s, actions[0]);
      StepKeepsLatchApart(s, actions[0]);
      CoverageInRun(Step(s, actions[0]), actions[1..]);
    }
  }

  /** From the start, a run without such steps ends with every established call reported on,
      and watched if it sends video that was not given up. */
  lemma CoverageOfEveryRun(actions: seq<Action>)
    requires CoveredRun(Start(), actions)
    ensures Watched(Run(Start(), actions)) && Reported(Run(Start(), actions))
  {
    CoverageInRun(Start(), actions);
  }

  /** A call of our own whose media are negotiated before it is established. */
  function InEarlyMedia(c: int, media: seq<Media>): State {
    Step(Step(Step(Start(), Dial(Some(c))), StateChange(c, Early, true)), MediaChange(c, media, true, true))
  }

  lemma EarlyMediaArms(c: int, media: seq<Media>)
    requires c >= 0
    ensures var s := InEarlyMedia(c, media);
            && s.env.calls == map[c := Call(Early, media, 0, 0, 0, 0)] && s.env.now == 0 && s.latch == INVALID_ID
            && s.report == Timer(true, c) && Report in s.env.heap && s.env.heap[Report] == REPORT_MSEC
            && (SendsVideo(media) ==>
                  s.watch == Timer(true, c) && Watchdog in s.env.heap && s.env.heap[Watchdog] == WATCHDOG_MSEC)
  {
    hide FirstSending;
    var placed := Step(Step(Start(), Dial(Some(c))), StateChange(c, Early, true));
    assert placed.env.calls == map[c := Call(Early, [], 0, 0, 0, 0)] && placed.env.heap == map[];
    assert InEarlyMedia(c, media).env.calls == map[c := Call(Early, media, 0, 0, 0, 0)];
  }

  /** One call and every callback delivered, and still unwatched: the watchdog is armed in
      early media, lapses, and is not armed again when the call is established. */
  lemma EarlyMediaLeavesUnwatched(c: int, media: seq<Media>, infoOk: bool, statOk: bool, schedOk: bool)
    requires c >= 0 && SendsVideo(media)
    ensures var armed := InEarlyMedia(c, media);
            var lapsed := Step(Step(armed, Tick(WATCHDOG_MSEC)), Fires(Watchdog, infoOk, statOk, schedOk));
            var r := Step(lapsed, StateChange(c, Confirmed, true));
            armed.watch == Timer(true, c) && Sending(r, c) && r.latch != c && !r.watch.scheduled
  {
    hide FirstSending, InEarlyMedia;
    EarlyMediaArms(c, media);
    var armed := InEarlyMedia(c, media);
    var lapsed := Step(Step(armed, Tick(WATCHDOG_MSEC)), Fires(Watchdog, infoOk, statOk, schedOk));
    assert lapsed.env.calls == armed.env.calls && !lapsed.watch.scheduled && lapsed.latch == INVALID_ID;
  }

  /** Nor is it reported on, if it is established only after the report was due. */
  lemma EarlyMediaLeavesUnreported(c: int, media: seq<Media>, infoOk: bool, statOk: bool, schedOk: bool)
    requires c >= 0
    ensures var armed := InEarlyMedia(c, media);
            var lapsed := Step(Step(armed, Tick(REPORT_MSEC)), Fires(Report, infoOk, statOk, schedOk));
            var r := Step(lapsed, StateChange(c, Confirmed, true));
            armed.report == Timer(true, c) && Established(r, c) && !r.report.scheduled
  {
    hide FirstSending, InEarlyMedia;
    EarlyMediaArms(c, media);
    var armed := InEarlyMedia(c, media);
    var lapsed := Step(Step(armed, Tick(REPORT_MSEC)), Fires(Report, infoOk, statOk, schedOk));
    assert lapsed.env.calls == armed.env.calls && !lapsed.report.scheduled;
  }
}
