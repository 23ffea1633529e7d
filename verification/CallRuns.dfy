/** What every run of the call supervision keeps, and exactly where the code lets go. */
module CallRuns {
  import opened Options
  import opened Pjsua
  import opened Calls

  /** Nothing that the ring timer or the current call depends on has changed. */
  predicate Apart(s: State, r: State) {
    && r.callId == s.callId && r.ringTimeout == s.ringTimeout && r.ring == s.ring
    && r.env.now == s.env.now && r.env.rejects == s.env.rejects
    && (RingTimer in r.env.heap <==> RingTimer in s.env.heap)
    && (RingTimer in s.env.heap ==> r.env.heap[RingTimer] == s.env.heap[RingTimer])
    && r.env.calls.Keys == s.env.calls.Keys
    && forall c | c in s.env.calls ::
         var a, b := s.env.calls[c], r.env.calls[c];
         b.state == a.state && b.arrived == a.arrived && b.limit == a.limit
  }

  lemma CountsApart(s: State, c: int)
    ensures Apart(s, s.(env := CountRemoval(s.env, c))) && Apart(s, s.(env := CountDisplaced(s.env, c)))
  {
  }

  lemma GiveUpApart(s: State, c: int)
    ensures Apart(s, GiveUp(s, c))
  {
    hide CountRemoval, CountDisplaced;
    var s1 := CancelWatch(s.(latch := c));
    var s2 := s1.(env := CountDisplaced(s1.env, s.latch));
    CountsApart(s1, s.latch);
    CountsApart(s2, c);
  }

  lemma ArmsApart(s: State, c: int, media: seq<Media>, ok: bool)
    ensures Apart(s, ArmWatch(s, c, media, ok)) && Apart(s, ArmReport(s, c, ok))
  {
  }

  lemma OnWatchdogApart(s: State, infoOk: bool, statOk: bool, schedOk: bool)
    ensures Apart(s, OnWatchdog(s, infoOk, statOk, schedOk))
  {
    hide GiveUp, FirstSending, Reading;
    var s' := s.(watch := s.watch.(scheduled := false), stalls := s.stalls + 1);
    GiveUpApart(s', s.watch.call);
  }

  /** Steps that have nothing to do with the ring timer or the current call. */
  predicate Elsewhere(a: Action) {
    a.MediaChange? || a.Traffic? || a.DeviceError? || a.HangupAll? || (a.Fires? && !a.id.RingTimer?)
  }

  lemma ApartTwice(s: State, r: State, t: State)
    requires Apart(s, r) && Apart(r, t)
    ensures Apart(s, t)
  {
  }

  lemma MediaApart(s: State, c: int, media: seq<Media>)
    requires c in s.env.calls
    ensures Apart(s, s.(env := SetCall(s.env, c, s.env.calls[c].(media := media))))
  {
  }

  lemma MediaChangeApart(s: State, a: Action)
    requires a.MediaChange?
    ensures Apart(s, Step(s, a))
  {
    if a.call in s.env.calls {
      hide ArmWatch, ArmReport, Apart;
      var s1 := s.(env := SetCall(s.env, a.call, s.env.calls[a.call].(media := a.media)));
      var s2 := ArmWatch(s1, a.call, a.media, a.watchOk);
      MediaApart(s, a.call, a.media);
      ArmsApart(s1, a.call, a.media, a.watchOk);
      ApartTwice(s, s1, s2);
      ArmsApart(s2, a.call, a.media, a.reportOk);
      ApartTwice(s, s2, ArmReport(s2, a.call, a.reportOk));
    }
  }

  lemma FiresApart(s: State, a: Action)
    requires a.Fires? && !a.id.RingTimer?
    ensures Apart(s, Step(s, a))
  {
    hide OnWatchdog;
    OnWatchdogApart(s.(env := Unqueue(s.env, a.id)), a.infoOk, a.statOk, a.schedOk);
  }

  lemma ElsewhereApart(s: State, a: Action)
    requires Elsewhere(a)
    ensures Apart(s, Step(s, a))
  {
    if a.MediaChange? {
      hide Step;
      MediaChangeApart(s, a);
    } else if a.Fires? {
      hide Step;
      FiresApart(s, a);
    } else if a.DeviceError? {
      hide GiveUp;
      GiveUpApart(s, a.call);
    } else {
      hide ArmWatch, ArmReport, GiveUp, OnWatchdog, OnReport, OnRingTimer, OnCallState, OnIncoming;
    }
  }

  lemma EndCallIs(s: State, c: int)
    ensures var r := EndCall(s, c);
            && r.env.calls == s.env.calls && r.env.rejects == s.env.rejects && r.ring == s.ring
            && r.callId == (if c == s.callId then INVALID_ID else s.callId)
            && r.latch == (if c == s.latch then INVALID_ID else s.latch)
            && r.watch == s.watch.(scheduled := false) && r.report == s.report.(scheduled := false)
            && r.env.heap.Keys <= s.env.heap.Keys
            && (RingTimer in s.env.heap ==>
                  RingTimer in r.env.heap && r.env.heap[RingTimer] == s.env.heap[RingTimer])
  {
  }

  /** What the end of a callback leaves of a call's id and its timers. */
  lemma OnCallStateIs(s: State, c: int, st: CallState)
    ensures var r := OnCallState(s, c, st);
            && r.env.calls == s.env.calls && r.env.rejects == s.env.rejects
            && r.callId == (if st.Disconnected? && c == s.callId then INVALID_ID else s.callId)
            && r.latch == (if st.Disconnected? && c == s.latch then INVALID_ID else s.latch)
            && r.watch == (if st.Disconnected? then s.watch.(scheduled := false) else s.watch)
            && r.report == (if st.Disconnected? then s.report.(scheduled := false) else s.report)
            && r.env.heap.Keys <= s.env.heap.Keys
            && r.ring.call == s.ring.call
            && (r.ring.scheduled <==> s.ring.scheduled && (c != s.ring.call || Ringing(st)))
            && (r.ring.scheduled && RingTimer in s.env.heap ==>
                  RingTimer in r.env.heap && r.env.heap[RingTimer] == s.env.heap[RingTimer])
  {
    hide EndCall;
    EndCallIs(s, c);
    EndCallIs(CancelRing(s), c);
  }

  // ---- The ring timeout ----------------------------------------------------------------------

  predicate IsRinging(s: State, c: int) {
    c in s.env.calls && Ringing(s.env.calls[c].state)
  }

  /** An armed ring timer names a call that is still ringing, and is due when the timeout
      in force at that call's arrival has run out. */
  predicate RingFits(s: State) {
    s.ring.scheduled ==>
      && IsRinging(s, s.ring.call)
      && s.env.calls[s.ring.call].limit > 0
      && RingTimer in s.env.heap
      && s.env.heap[RingTimer] == s.env.calls[s.ring.call].arrived + 1000 * s.env.calls[s.ring.call].limit
  }

  /** Every automatic rejection hit a call that was ringing, and had been for as long as
      the timeout in force when it arrived. */
  predicate RejectsFit(s: State) {
    forall r: Reject | r in s.env.rejects :: Ringing(r.state) && r.limit > 0 && r.at >= r.arrived + 1000 * r.limit
  }

  /** The ringing call with the armed timer moves on and its callback is lost. */
  predicate LosesRing(s: State, a: Action) {
    a.StateChange? && !a.delivered && a.call in s.env.calls
    && s.ring.scheduled && s.ring.call == a.call && !Ringing(a.state)
  }

  lemma StepKeepsRing(s: State, a: Action)
    requires TimersAgree(s) && RingFits(s) && RejectsFit(s)
    ensures RejectsFit(Step(s, a))
    ensures RingFits(Step(s, a)) <==> !LosesRing(s, a)
  {
    if Elsewhere(a) {
      hide Step;
      ElsewhereApart(s, a);
      StepKeepsTimers(s, a);
    } else {
      hide GiveUp, ArmWatch, ArmReport, OnWatchdog, OnReport, OnCallState;
      if a.StateChange? && a.call in s.env.calls {
        var s' := s.(env := SetCall(s.env, a.call, s.env.calls[a.call].(state := a.state)));
        OnCallStateIs(s', a.call, a.state);
      }
    }
  }

  /** In every run in which no ringing call's last callback is lost. */
  lemma {:induction false} RingOfEveryRun(s: State, actions: seq<Action>)
    requires TimersAgree(s) && RingFits(s) && RejectsFit(s)
    requires forall a: Action | a in actions :: a.StateChange? ==> a.delivered
    ensures RingFits(Run(s, actions)) && RejectsFit(Run(s, actions))
    decreases |actions|
  {
    if actions != [] {
      StepKeepsTimers(s, actions[0]);
      StepKeepsRing(s, actions[0]);
      RingOfEveryRun(Step(s, actions[0]), actions[1..]);
    }
  }

  // ---- The current call -----------------------------------------------------------------------

  /** A valid current-call id names a live call. */
  predicate CurrentIsLive(s: State) {
    s.callId != INVALID_ID ==> s.callId in s.env.calls
  }

  /** It names exactly the live calls there are. */
  predicate Tracks(s: State) {
    s.env.calls.Keys == if s.callId == INVALID_ID then {} else {s.callId}
  }

  /** What loses track: a dial that reaches the library, or an arriving call, while a call
      is live; or the end of the call going unnoticed. */
  predicate LosesTrack(s: State, a: Action) {
    match a
    case Dial(None) => s.env.calls != map[]
    case Dial(Some(c)) => s.env.calls != map[] && c >= 0 && c !in s.env.calls
    case IncomingCall(c, _, _) => s.env.calls != map[] && c >= 0 && c !in s.env.calls
    case StateChange(c, st, delivered) => c in s.env.calls && st.Disconnected? && !delivered
    case _ => false
  }

  lemma StepKeepsCurrentLive(s: State, a: Action)
    requires CurrentIsLive(s) && IdsFit(s)
    requires a.StateChange? ==> a.delivered
    ensures CurrentIsLive(Step(s, a)) && IdsFit(Step(s, a))
  {
    if Elsewhere(a) {
      hide Step;
      ElsewhereApart(s, a);
    } else {
      hide GiveUp, ArmWatch, ArmReport, OnWatchdog, OnReport, OnCallState;
      if a.StateChange? && a.call in s.env.calls {
        var s' := s.(env := SetCall(s.env, a.call, s.env.calls[a.call].(state := a.state)));
        OnCallStateIs(s', a.call, a.state);
      }
    }
  }

  lemma StateChangeKeepsTrack(s: State, a: Action)
    requires Tracks(s) && IdsFit(s) && a.StateChange?
    ensures Tracks(Step(s, a)) <==> !LosesTrack(s, a)
    ensures IdsFit(Step(s, a))
  {
    if a.call in s.env.calls {
      OnCallStateIs(s.(env := SetCall(s.env, a.call, s.env.calls[a.call].(state := a.state))), a.call, a.state);
    }
    hide OnCallState;
    assert Step(s, a).env.calls.Keys == s.env.calls.Keys - if a.state.Disconnected? then {a.call} else {};
  }

  lemma NewCallKeepsTrack(s: State, a: Action)
    requires Tracks(s) && IdsFit(s) && (a.IncomingCall? || a.Dial?)
    ensures Tracks(Step(s, a)) <==> !LosesTrack(s, a)
    ensures IdsFit(Step(s, a))
  {
    assert s.env.calls == map[] <==> s.env.calls.Keys == {};
    var c := if a.IncomingCall? then a.call else if a.placed.Some? then a.placed.value else INVALID_ID;
    if c >= 0 && c !in s.env.calls {
      assert Step(s, a).callId == c && Step(s, a).env.calls.Keys == s.env.calls.Keys + {c};
    }
  }

  /** From a state that tracks the call, a step keeps track exactly when it is none of
      those that lose it. */
  lemma StepKeepsTrack(s: State, a: Action)
    requires Tracks(s) && IdsFit(s)
    ensures Tracks(Step(s, a)) <==> !LosesTrack(s, a)
    ensures IdsFit(Step(s, a))
  {
    if Elsewhere(a) {
      hide Step;
      ElsewhereApart(s, a);
    } else if a.StateChange? {
      hide Step;
      StateChangeKeepsTrack(s, a);
    } else if a.IncomingCall? || a.Dial? {
      hide Step;
      NewCallKeepsTrack(s, a);
    } else {
      hide OnCallState, OnIncoming;
    }
  }

  lemma {:induction false} CurrentOfEveryRun(s: State, actions: seq<Action>)
    requires CurrentIsLive(s) && IdsFit(s)
    requires forall a: Action | a in actions :: a.StateChange? ==> a.delivered
    ensures CurrentIsLive(Run(s, actions))
    decreases |actions|
  {
    if actions != [] {
      StepKeepsCurrentLive(s, actions[0]);
      CurrentOfEveryRun(Step(s, actions[0]), actions[1..]);
    }
  }

  /** While the call is tracked, hanging up everything reaches every live call there is,
      and asks for nothing when there is none. */
  lemma HangupAllReachesTheCall(s: State)
    requires Tracks(s) && IdsFit(s)
    ensures var asked := Step(s, HangupAll).env.hangups[|s.env.hangups|..];
            && s.env.hangups <= Step(s, HangupAll).env.hangups
            && |asked| <= 1
            && (forall c :: c in s.env.calls <==> c in asked)
  {
  }

  /** A dial that fails while a call is up makes the daemon forget that call: nothing is
      hung up any more. */
  lemma FailedDialForgetsTheCall(c: int)
    requires c >= 0
    ensures var s := Step(Step(Start(), IncomingCall(c, true, true)), Dial(None));
            c in s.env.calls && s.callId == INVALID_ID && Step(s, HangupAll) == s
  {
  }

  // ---- Armed timers belong to live calls -----------------------------------------------------

  predicate ArmedAreLive(s: State) {
    && (s.watch.scheduled ==> s.watch.call in s.env.calls)
    && (s.report.scheduled ==> s.report.call in s.env.calls)
  }

  /** The end of a supervised call goes unnoticed. */
  predicate StrandsTimer(s: State, a: Action) {
    && a.StateChange? && a.state.Disconnected? && !a.delivered && a.call in s.env.calls
    && ((s.watch.scheduled && s.watch.call == a.call) || (s.report.scheduled && s.report.call == a.call))
  }

  lemma OnWatchdogArmsLive(s: State, infoOk: bool, statOk: bool, schedOk: bool)
    requires s.report.scheduled ==> s.report.call in s.env.calls
    ensures ArmedAreLive(OnWatchdog(s, infoOk, statOk, schedOk))
  {
    hide FirstSending, Reading;
  }

  lemma StepKeepsArmedLive(s: State, a: Action)
    requires ArmedAreLive(s)
    ensures ArmedAreLive(Step(s, a)) <==> !StrandsTimer(s, a)
  {
    hide FirstSending;
    if a.Fires? && a.id.Watchdog? {
      hide OnWatchdog;
      OnWatchdogArmsLive(s.(env := Unqueue(s.env, a.id)), a.infoOk, a.statOk, a.schedOk);
    } else {
      hide OnWatchdog;
    }
  }

  // ---- Giving up on video ----------------------------------------------------------------------

  /** Removals asked for a live call are accounted for by the latch: one while it holds the
      call, and one for every time another call took it away. */
  predicate RemovalsFit(s: State) {
    && (s.latch != INVALID_ID ==> s.latch in s.env.calls)
    && forall c | c in s.env.calls ::
         s.env.calls[c].removals == s.env.calls[c].displaced + if c == s.latch then 1 else 0
  }

  /** An event for a call that is gone, or a call that ends unnoticed with its video given up. */
  predicate StrandsLatch(s: State, a: Action) {
    match a
    case DeviceError(c) => c >= 0 && c !in s.env.calls && c != s.latch
    case StateChange(c, st, delivered) => c in s.env.calls && st.Disconnected? && !delivered && c == s.latch
    case _ => false
  }

  /** One removal more for the call given up, one displacement more for the one before. */
  lemma GiveUpCounts(s: State, c: int)
    requires c != s.latch
    ensures var r := GiveUp(s, c);
            && r.latch == c && r.env.calls.Keys == s.env.calls.Keys
            && forall d | d in s.env.calls ::
                 && r.env.calls[d].removals == s.env.calls[d].removals + (if d == c then 1 else 0)
                 && r.env.calls[d].displaced == s.env.calls[d].displaced + (if d == s.latch then 1 else 0)
  {
    var s' := CancelWatch(s.(latch := c));
    assert s'.env.calls == s.env.calls && s'.latch == c;
    hide CancelWatch;
    assert GiveUp(s, c).env.calls.Keys == s.env.calls.Keys;
  }

  lemma GiveUpKeepsRemovals(s: State, c: int)
    requires RemovalsFit(s) && IdsFit(s) && c in s.env.calls
    ensures RemovalsFit(GiveUp(s, c)) && IdsFit(GiveUp(s, c))
  {
    if c != s.latch {
      GiveUpCounts(s, c);
      hide GiveUp;
    }
  }

  /** The latch and the removal counts are as they were. */
  predicate Quiet(s: State, r: State) {
    && r.latch == s.latch && r.env.calls.Keys == s.env.calls.Keys
    && forall c | c in s.env.calls ::
         r.env.calls[c].removals == s.env.calls[c].removals && r.env.calls[c].displaced == s.env.calls[c].displaced
  }

  lemma ArmsQuiet(s: State, c: int, media: seq<Media>, ok: bool)
    ensures Quiet(s, ArmWatch(s, c, media, ok)) && Quiet(s, ArmReport(s, c, ok))
  {
  }

  lemma OnWatchdogKeepsRemovals(s: State, infoOk: bool, statOk: bool, schedOk: bool)
    requires RemovalsFit(s) && IdsFit(s)
    ensures RemovalsFit(OnWatchdog(s, infoOk, statOk, schedOk))
  {
    hide GiveUp, FirstSending, Reading;
    var s' := s.(watch := s.watch.(scheduled := false), stalls := s.stalls + 1);
    if s.watch.call in s.env.calls {
      GiveUpKeepsRemovals(s', s.watch.call);
    }
  }

  lemma MediaChangeIsQuiet(s: State, a: Action)
    requires a.MediaChange?
    ensures Quiet(s, Step(s, a))
  {
    hide ArmWatch, ArmReport;
    if a.call in s.env.calls {
      var s' := s.(env := SetCall(s.env, a.call, s.env.calls[a.call].(media := a.media)));
      ArmsQuiet(s', a.call, a.media, a.watchOk);
      ArmsQuiet(ArmWatch(s', a.call, a.media, a.watchOk), a.call, a.media, a.reportOk);
    }
  }

  lemma StateChangeKeepsRemovals(s: State, a: Action)
    requires a.StateChange? && RemovalsFit(s) && IdsFit(s)
    ensures RemovalsFit(Step(s, a)) <==> !StrandsLatch(s, a)
    ensures NeverDisplaced(s) ==> NeverDisplaced(Step(s, a))
  {
    hide OnCallState;
    if a.call in s.env.calls {
      var s' := s.(env := SetCall(s.env, a.call, s.env.calls[a.call].(state := a.state)));
      OnCallStateIs(s', a.call, a.state);
    }
  }

  lemma DeviceErrorKeepsRemovals(s: State, a: Action)
    requires a.DeviceError? && RemovalsFit(s) && IdsFit(s)
    ensures RemovalsFit(Step(s, a)) <==> !StrandsLatch(s, a)
  {
    if a.call in s.env.calls {
      hide GiveUp;
      GiveUpKeepsRemovals(s, a.call);
    }
  }

  lemma NewCallKeepsRemovals(s: State, a: Action)
    requires RemovalsFit(s) && IdsFit(s) && (a.IncomingCall? || a.Dial?)
    ensures RemovalsFit(Step(s, a))
    ensures NeverDisplaced(s) ==> NeverDisplaced(Step(s, a))
  {
    if a.IncomingCall? {
      hide OnIncoming;
      OnIncomingIs(s.(env := SetCall(s.env, a.call, NewCall(s, Incoming, s.ringTimeout))), a.call, a.infoOk, a.schedOk);
    }
  }

  lemma OnIncomingIs(s: State, c: int, infoOk: bool, schedOk: bool)
    ensures var r := OnIncoming(s, c, infoOk, schedOk);
            r.env.calls == s.env.calls && r.latch == s.latch
  {
  }

  lemma OthersAreQuiet(s: State, a: Action)
    requires a.Tick? || a.Traffic? || a.HangupAll? || a.SetRingTimeout? || (a.Fires? && !a.id.Watchdog?)
    ensures Quiet(s, Step(s, a))
  {
    hide ArmWatch, ArmReport, OnCallState, GiveUp, OnWatchdog, OnIncoming;
  }

  /** The account is kept exactly by the steps that strand no latch. */
  lemma StepKeepsRemovals(s: State, a: Action)
    requires RemovalsFit(s) && IdsFit(s)
    ensures RemovalsFit(Step(s, a)) <==> !StrandsLatch(s, a)
  {
    if a.MediaChange? {
      hide Step;
      MediaChangeIsQuiet(s, a);
    } else if a.StateChange? {
      hide Step;
      StateChangeKeepsRemovals(s, a);
    } else if a.DeviceError? {
      hide Step;
      DeviceErrorKeepsRemovals(s, a);
    } else if a.Fires? && a.id.Watchdog? {
      hide OnWatchdog;
      OnWatchdogKeepsRemovals(s.(env := Unqueue(s.env, a.id)), a.infoOk, a.statOk, a.schedOk);
    } else if a.IncomingCall? || a.Dial? {
      hide Step;
      NewCallKeepsRemovals(s, a);
    } else {
      hide Step;
      OthersAreQuiet(s, a);
    }
  }

  predicate AtMostOne(s: State) {
    forall c, d | c in s.env.calls && d in s.env.calls :: c == d
  }

  /** One call at a time, media events only for live calls, and no end unnoticed. */
  predicate SingleCallRun(s: State, actions: seq<Action>)
    decreases |actions|
  {
    actions == [] ||
      (&& !StrandsLatch(s, actions[0])
       && AtMostOne(s)
       && SingleCallRun(Step(s, actions[0]), actions[1..]))
  }

  predicate NeverDisplaced(s: State) {
    forall c | c in s.env.calls :: s.env.calls[c].displaced == 0
  }

  lemma GiveUpAlone(s: State, c: int)
    requires RemovalsFit(s) && NeverDisplaced(s) && AtMostOne(s) && (c in s.env.calls || c == s.latch)
    ensures NeverDisplaced(GiveUp(s, c))
  {
  }

  lemma StepKeepsUndisplaced(s: State, a: Action)
    requires RemovalsFit(s) && IdsFit(s) && NeverDisplaced(s) && AtMostOne(s) && !StrandsLatch(s, a)
    ensures NeverDisplaced(Step(s, a))
  {
    if a.MediaChange? {
      hide Step;
      MediaChangeIsQuiet(s, a);
    } else if a.StateChange? {
      hide Step;
      StateChangeKeepsRemovals(s, a);
    } else if a.DeviceError? {
      hide GiveUp;
      if a.call >= 0 {
        GiveUpAlone(s, a.call);
      }
    } else if a.Fires? && a.id.Watchdog? {
      hide GiveUp, FirstSending, Reading;
      if s.watch.call in s.env.calls {
        var s' := s.(env := Unqueue(s.env, a.id), watch := s.watch.(scheduled := false), stalls := s.stalls + 1);
        GiveUpAlone(s', s.watch.call);
      }
    } else if a.IncomingCall? || a.Dial? {
      hide Step;
      NewCallKeepsRemovals(s, a);
    } else {
      hide Step;
      OthersAreQuiet(s, a);
    }
  }

  /** Giving up is one-shot: over every single-call run, whatever device errors, watchdog
      ticks and renegotiations it holds, no call's video is removed twice; and it is removed
      exactly when the latch names it. */
  lemma {:induction false} GiveUpIsOneShot(s: State, actions: seq<Action>)
    requires RemovalsFit(s) && IdsFit(s) && NeverDisplaced(s) && TimersAgree(s) && WatchSparesLatch(s)
    requires SingleCallRun(s, actions)
    ensures var r := Run(s, actions);
            forall c | c in r.env.calls :: r.env.calls[c].removals == if c == r.latch then 1 else 0
    decreases |actions|
  {
    hide Step;
    if actions == [] {
      assert forall c | c in s.env.calls :: s.env.calls[c].displaced == 0;
    } else {
      StepKeepsRemovals(s, actions[0]);
      StepKeepsUndisplaced(s, actions[0]);
      StepKeepsTimers(s, actions[0]);
      StepKeepsLatchApart(s, actions[0]);
      GiveUpIsOneShot(Step(s, actions[0]), actions[1..]);
      assert Run(s, actions) == Run(Step(s, actions[0]), actions[1..]);
    }
  }

  /** With two calls up the latch can be taken back and forth: the same call's video is
      removed twice. */
  lemma TwoCallsRemoveTwice()
    ensures var s := Step(Step(Start(), IncomingCall(0, true, true)), IncomingCall(1, true, true));
            var r := Step(Step(Step(s, DeviceError(0)), DeviceError(1)), DeviceError(0));
            0 in r.env.calls && r.env.calls[0].removals == 2
  {
  }

  /** A device error that comes after its call has ended is charged to the next call with
      the same id: that call's video is never watched. */
  lemma LateErrorBlindsTheNextCall(media: seq<Media>)
    ensures var ended := Step(Step(Start(), IncomingCall(0, true, true)), StateChange(0, Disconnected, true));
            var next := Step(Step(ended, DeviceError(0)), IncomingCall(0, true, true));
            var s := Step(next, StateChange(0, Confirmed, true));
            var r := Step(s, MediaChange(0, media, true, true));
            r.latch == 0 && 0 in r.env.calls && r.env.calls[0].removals == 0 && !r.watch.scheduled
  {
    var ended := Step(Step(Start(), IncomingCall(0, true, true)), StateChange(0, Disconnected, true));
    assert ended.latch == INVALID_ID && ended.env.calls == map[] && !ended.watch.scheduled;
    var late := Step(ended, DeviceError(0));
    assert late.latch == 0 && 0 !in late.env.calls && !late.watch.scheduled;
  }

  // ---- Whole runs ------------------------------------------------------------------------------------

  predicate Delivered(actions: seq<Action>) {
    forall a: Action | a in actions :: a.StateChange? ==> a.delivered
  }

  lemma {:induction false} ArmedOfEveryRun(s: State, actions: seq<Action>)
    requires ArmedAreLive(s) && Delivered(actions)
    ensures ArmedAreLive(Run(s, actions))
    decreases |actions|
  {
    if actions != [] {
      StepKeepsArmedLive(s, actions[0]);
      ArmedOfEveryRun(Step(s, actions[0]), actions[1..]);
    }
  }

  /** No step of the run loses track of the call. */
  predicate TrackedRun(s: State, actions: seq<Action>)
    decreases |actions|
  {
    actions == [] || (!LosesTrack(s, actions[0]) && TrackedRun(Step(s, actions[0]), actions[1..]))
  }

  /** Such a run ends with the current call being exactly the live one. */
  lemma {:induction false} TrackOfEveryRun(s: State, actions: seq<Action>)
    requires Tracks(s) && IdsFit(s) && TrackedRun(s, actions)
    ensures Tracks(Run(s, actions)) && IdsFit(Run(s, actions))
    decreases |actions|
  {
    if actions != [] {
      StepKeepsTrack(s, actions[0]);
      TrackOfEveryRun(Step(s, actions[0]), actions[1..]);
    }
  }

  /** From the start, whatever happens: flags and heap agree, and the watchdog spares the
      call whose video was given up.  If no callback is lost as well: an armed ring timer
      names a ringing call and every rejection was due, every armed timer belongs to a live
      call, and a valid current-call id names one.  With one call at a time no video is
      removed twice; and runs that never lose track end tracking the call. */
  lemma EveryRun(actions: seq<Action>)
    ensures var s := Run(Start(), actions);
            && TimersAgree(s) && WatchSparesLatch(s)
            && (Delivered(actions) ==> RingFits(s) && RejectsFit(s) && ArmedAreLive(s) && CurrentIsLive(s))
            && (SingleCallRun(Start(), actions) ==>
                  forall c | c in s.env.calls :: s.env.calls[c].removals == if c == s.latch then 1 else 0)
            && (TrackedRun(Start(), actions) ==> Tracks(s))
  {
    hide Step, Run, SingleCallRun, TrackedRun;
    TimersOfEveryRun(Start(), actions);
    if SingleCallRun(Start(), actions) {
      GiveUpIsOneShot(Start(), actions);
    }
    if TrackedRun(Start(), actions) {
      TrackOfEveryRun(Start(), actions);
    }
    if Delivered(actions) {
      RingOfEveryRun(Start(), actions);
      ArmedOfEveryRun(Start(), actions);
      CurrentOfEveryRun(Start(), actions);
    }
  }
}
