/** What the entry points of the call module mean over the runs that follow them. */
module CallEffects {
  import opened Pjsua
  import opened Calls
  import opened CallRuns

  // ---- Setting the ring timeout -------------------------------------------------------------

  /** The same state with another timeout set. */
  function Timed(s: State, seconds: nat): State {
    s.(ringTimeout := seconds)
  }

  lemma GiveUpIgnoresTimeout(s: State, seconds: nat, c: int)
    ensures GiveUp(Timed(s, seconds), c) == Timed(GiveUp(s, c), seconds)
  {
  }

  lemma ArmsIgnoreTimeout(s: State, seconds: nat, c: int, media: seq<Media>, ok: bool)
    ensures ArmWatch(Timed(s, seconds), c, media, ok) == Timed(ArmWatch(s, c, media, ok), seconds)
    ensures ArmReport(Timed(s, seconds), c, ok) == Timed(ArmReport(s, c, ok), seconds)
  {
  }

  lemma OnCallStateIgnoresTimeout(s: State, seconds: nat, c: int, st: CallState)
    ensures OnCallState(Timed(s, seconds), c, st) == Timed(OnCallState(s, c, st), seconds)
  {
  }

  lemma FiringIgnoresTimeout(s: State, seconds: nat, infoOk: bool, statOk: bool, schedOk: bool)
    ensures OnRingTimer(Timed(s, seconds), infoOk) == Timed(OnRingTimer(s, infoOk), seconds)
    ensures OnWatchdog(Timed(s, seconds), infoOk, statOk, schedOk)
         == Timed(OnWatchdog(s, infoOk, statOk, schedOk), seconds)
    ensures OnReport(Timed(s, seconds), infoOk, schedOk) == Timed(OnReport(s, infoOk, schedOk), seconds)
  {
    hide GiveUp, FirstSending, Reading;
    GiveUpIgnoresTimeout(s.(watch := s.watch.(scheduled := false), stalls := s.stalls + 1), seconds, s.watch.call);
  }

  lemma StepIgnoresTimeout(s: State, seconds: nat, a: Action)
    requires !a.IncomingCall? && !a.SetRingTimeout?
    ensures Step(Timed(s, seconds), a) == Timed(Step(s, a), seconds)
  {
    hide GiveUp, ArmWatch, ArmReport, OnRingTimer, OnWatchdog, OnReport, OnCallState;
    match a
    case StateChange(c, st, _) =>
      if c in s.env.calls {
        OnCallStateIgnoresTimeout(s.(env := SetCall(s.env, c, s.env.calls[c].(state := st))), seconds, c, st);
      }
    case MediaChange(c, media, watchOk, reportOk) =>
      if c in s.env.calls {
        var s' := s.(env := SetCall(s.env, c, s.env.calls[c].(media := media)));
        ArmsIgnoreTimeout(s', seconds, c, media, watchOk);
        ArmsIgnoreTimeout(ArmWatch(s', c, media, watchOk), seconds, c, media, reportOk);
      }
    case DeviceError(c) => GiveUpIgnoresTimeout(s, seconds, c);
    case Fires(id, infoOk, statOk, schedOk) =>
      FiringIgnoresTimeout(s.(env := Unqueue(s.env, id)), seconds, infoOk, statOk, schedOk);
    case _ =>
  }

  /** Changing the timeout matters to nothing but calls that arrive later: over every run
      without arrivals, changing it first or last comes to the same. */
  lemma {:induction false} TimeoutChangeIsForLater(s: State, seconds: nat, actions: seq<Action>)
    requires forall a: Action | a in actions :: !a.IncomingCall? && !a.SetRingTimeout?
    ensures Run(Step(s, SetRingTimeout(seconds)), actions) == Step(Run(s, actions), SetRingTimeout(seconds))
    decreases |actions|
  {
    if actions != [] {
      hide Timed;
      StepIgnoresTimeout(s, seconds, actions[0]);
      TimeoutChangeIsForLater(Step(s, actions[0]), seconds, actions[1..]);
    }
  }

  predicate Ends(a: Action, c: int) {
    a.StateChange? && a.call == c && a.state.Disconnected?
  }

  /** The rejections of `c` added by a step apply what is recorded in the call. */
  predicate RejectsAsRecorded(s: State, r: State, c: int, arrived: nat, limit: nat) {
    && s.env.rejects <= r.env.rejects
    && forall j | |s.env.rejects| <= j < |r.env.rejects| && r.env.rejects[j].call == c ::
         r.env.rejects[j].arrived == arrived && r.env.rejects[j].limit == limit
  }

  lemma StepKeepsCall(s: State, a: Action, c: int)
    requires c in s.env.calls && !Ends(a, c)
    ensures var r, call := Step(s, a), s.env.calls[c];
            && c in r.env.calls && r.env.calls[c].arrived == call.arrived && r.env.calls[c].limit == call.limit
            && RejectsAsRecorded(s, r, c, call.arrived, call.limit)
  {
    if Elsewhere(a) {
      hide Step;
      ElsewhereApart(s, a);
    } else {
      hide GiveUp, ArmWatch, ArmReport, OnWatchdog, OnReport, OnCallState;
      if a.StateChange? && a.call in s.env.calls {
        OnCallStateIs(s.(env := SetCall(s.env, a.call, s.env.calls[a.call].(state := a.state))), a.call, a.state);
      }
    }
  }

  /** A call keeps the timeout in force when it arrived for as long as it lives, whatever is
      set and whoever arrives meanwhile: its timer, while it is the one armed, is due then,
      and it is not rejected before. */
  lemma {:induction false} RingingCallKeepsItsTimeout(s: State, actions: seq<Action>, c: int)
    requires TimersAgree(s) && RingFits(s) && RejectsFit(s) && c in s.env.calls
    requires Delivered(actions) && forall a: Action | a in actions :: !Ends(a, c)
    ensures var r, call := Run(s, actions), s.env.calls[c];
            && c in r.env.calls && r.env.calls[c].arrived == call.arrived && r.env.calls[c].limit == call.limit
            && (r.ring == Timer(true, c) ==>
                  RingTimer in r.env.heap && r.env.heap[RingTimer] == call.arrived + 1000 * call.limit)
            && RejectsAsRecorded(s, r, c, call.arrived, call.limit)
            && RejectsFit(r)
    decreases |actions|
  {
    hide Step, RejectsFit, TimersAgree;
    if actions != [] {
      var s' := Step(s, actions[0]);
      StepKeepsTimers(s, actions[0]);
      StepKeepsRing(s, actions[0]);
      StepKeepsCall(s, actions[0], c);
      RingingCallKeepsItsTimeout(s', actions[1..], c);
    }
  }

  // ---- The ring timer ------------------------------------------------------------------------

  /** How often `c` was rejected. */
  function RejectsOf(rejects: seq<Reject>, c: int): nat {
    if rejects == [] then 0
    else RejectsOf(rejects[..|rejects| - 1], c) + if rejects[|rejects| - 1].call == c then 1 else 0
  }

  lemma RejectsOneMore(rejects: seq<Reject>, r: Reject, c: int)
    ensures RejectsOf(rejects + [r], c) == RejectsOf(rejects, c) + if r.call == c then 1 else 0
  {
    assert (rejects + [r])[..|rejects|] == rejects;
  }

  /** The step arms the ring timer for a call that has just arrived. */
  predicate TakesTimer(s: State, a: Action) {
    a.IncomingCall? && a.call >= 0 && a.call !in s.env.calls && a.infoOk && s.ringTimeout > 0
  }

  /** The step is the ring timer's firing. */
  predicate RingFires(s: State, a: Action) {
    a.Fires? && a.id.RingTimer? && RingTimer in s.env.heap && s.env.heap[RingTimer] <= s.env.now
  }

  /** The timer is armed for `c` until another call takes it, or until it fires but cannot
      see its call. */
  predicate Escapes(s: State, actions: seq<Action>, c: int)
    decreases |actions|
  {
    && actions != [] && s.ring == Timer(true, c)
    && (|| TakesTimer(s, actions[0])
        || (RingFires(s, actions[0]) && !actions[0].infoOk)
        || Escapes(Step(s, actions[0]), actions[1..], c))
  }

  predicate StaysRinging(a: Action, c: int) {
    a.StateChange? && a.call == c ==> Ringing(a.state)
  }

  /** A step rejects only the call the timer is armed for, and arms it only for a new one. */
  lemma StepSpares(s: State, a: Action, c: int)
    requires TimersAgree(s) && s.ring != Timer(true, c) && (c in s.env.calls || !(a.IncomingCall? && a.call == c))
    ensures var r := Step(s, a);
            r.ring != Timer(true, c) && RejectsOf(r.env.rejects, c) == RejectsOf(s.env.rejects, c)
  {
    if Elsewhere(a) {
      hide Step;
      ElsewhereApart(s, a);
    } else {
      hide GiveUp, ArmWatch, ArmReport, OnWatchdog, OnReport, OnCallState, RejectsOf;
      if a.StateChange? && a.call in s.env.calls {
        OnCallStateIs(s.(env := SetCall(s.env, a.call, s.env.calls[a.call].(state := a.state))), a.call, a.state);
      } else if a.Fires? && IsRinging(s, s.ring.call) {
        var d, call := s.ring.call, s.env.calls[s.ring.call];
        RejectsOneMore(s.env.rejects, Reject(d, call.state, s.env.now, call.arrived, call.limit), c);
      }
    }
  }

  /** While `c` rings with the timer armed for it, a step leaves both as they are, takes the
      timer away, or is its firing, which rejects `c` if it can see it. */
  lemma StepWhileArmed(s: State, a: Action, c: int)
    requires TimersAgree(s) && s.ring == Timer(true, c) && IsRinging(s, c) && StaysRinging(a, c)
    ensures var r := Step(s, a);
            && IsRinging(r, c)
            && if RingFires(s, a) then
                 && !r.ring.scheduled
                 && RejectsOf(r.env.rejects, c) == RejectsOf(s.env.rejects, c) + if a.infoOk then 1 else 0
               else
                 && r.env.rejects == s.env.rejects
                 && if TakesTimer(s, a) then r.ring != Timer(true, c)
                    else r.ring == Timer(true, c) && RingTimer in r.env.heap
                         && r.env.heap[RingTimer] == s.env.heap[RingTimer]
  {
    if Elsewhere(a) {
      hide Step;
      ElsewhereApart(s, a);
    } else {
      hide GiveUp, ArmWatch, ArmReport, OnWatchdog, OnReport, OnCallState, RejectsOf;
      if a.StateChange? && a.call in s.env.calls {
        OnCallStateIs(s.(env := SetCall(s.env, a.call, s.env.calls[a.call].(state := a.state))), a.call, a.state);
      } else if a.Fires? {
        var call := s.env.calls[c];
        RejectsOneMore(s.env.rejects, Reject(c, call.state, s.env.now, call.arrived, call.limit), c);
      }
    }
  }

  lemma {:induction false} SparedWhileLive(s: State, actions: seq<Action>, c: int)
    requires TimersAgree(s) && s.ring != Timer(true, c) && IsRinging(s, c)
    requires forall a: Action | a in actions :: StaysRinging(a, c)
    ensures RejectsOf(Run(s, actions).env.rejects, c) == RejectsOf(s.env.rejects, c)
    decreases |actions|
  {
    hide Step, TimersAgree, RejectsOf;
    if actions != [] {
      StepKeepsTimers(s, actions[0]);
      StepSpares(s, actions[0], c);
      StepKeepsRinging(s, actions[0], c);
      SparedWhileLive(Step(s, actions[0]), actions[1..], c);
    }
  }

  lemma StepKeepsRinging(s: State, a: Action, c: int)
    requires IsRinging(s, c) && StaysRinging(a, c)
    ensures IsRinging(Step(s, a), c)
  {
    if Elsewhere(a) {
      hide Step;
      ElsewhereApart(s, a);
    } else {
      hide GiveUp, ArmWatch, ArmReport, OnWatchdog, OnReport, OnCallState;
      if a.StateChange? && a.call in s.env.calls {
        OnCallStateIs(s.(env := SetCall(s.env, a.call, s.env.calls[a.call].(state := a.state))), a.call, a.state);
      }
    }
  }

  /** The only rejection a step makes is of the call the ring timer is armed for, when the
      timer is due, and only if the call is ringing then, whatever was missed before. */
  lemma StepRejects(s: State, a: Action)
    ensures var c, r := s.ring.call, Step(s, a);
            r.env.rejects == s.env.rejects
            + if RingFires(s, a) && a.infoOk && IsRinging(s, c) then
                [Reject(c, s.env.calls[c].state, s.env.now, s.env.calls[c].arrived, s.env.calls[c].limit)]
              else []
  {
    assert s.env.rejects + [] == s.env.rejects;
    if Elsewhere(a) {
      hide Step;
      ElsewhereApart(s, a);
    } else {
      hide GiveUp, ArmWatch, ArmReport, OnWatchdog, OnReport, OnCallState;
      if a.StateChange? && a.call in s.env.calls {
        OnCallStateIs(s.(env := SetCall(s.env, a.call, s.env.calls[a.call].(state := a.state))), a.call, a.state);
      }
    }
  }

  /** In no run is a call rejected that is not ringing, even if its callbacks are lost. */
  lemma {:induction false} OnlyRingingIsRejected(s: State, actions: seq<Action>)
    ensures var r := Run(s, actions);
            && s.env.rejects <= r.env.rejects
            && forall j | |s.env.rejects| <= j < |r.env.rejects| :: Ringing(r.env.rejects[j].state)
    decreases |actions|
  {
    hide Step;
    if actions != [] {
      StepRejects(s, actions[0]);
      OnlyRingingIsRejected(Step(s, actions[0]), actions[1..]);
    }
  }

  /** A call with the ring timer armed that goes on ringing until its time is up, and the
      timer's turn has come, has been rejected: exactly once, unless another call took the
      timer first or it could not see the call, and then not at all. */
  lemma {:induction false} UnansweredIsRejected(s: State, actions: seq<Action>, c: int)
    requires TimersAgree(s) && s.ring == Timer(true, c) && IsRinging(s, c)
    requires forall a: Action | a in actions :: StaysRinging(a, c)
    requires EndsWithRingTurn(s, actions, s.env.heap[RingTimer])
    ensures RejectsOf(Run(s, actions).env.rejects, c)
         == RejectsOf(s.env.rejects, c) + if Escapes(s, actions, c) then 0 else 1
    decreases |actions|
  {
    hide Step, TimersAgree, RejectsOf, IsRinging;
    var a, s' := actions[0], Step(s, actions[0]);
    StepKeepsTimers(s, a);
    StepWhileArmed(s, a, c);
    TurnPasses(s, actions);
    if s'.ring == Timer(true, c) {
      UnansweredIsRejected(s', actions[1..], c);
    } else {
      SparedWhileLive(s', actions[1..], c);
    }
  }

  /** The run ends with the ring timer's turn, at or after `due`. */
  predicate EndsWithRingTurn(s: State, actions: seq<Action>, due: nat) {
    && actions != []
    && var n := |actions| - 1;
       actions[n].Fires? && actions[n].id.RingTimer? && Run(s, actions[..n]).env.now >= due
  }

  lemma TurnPasses(s: State, actions: seq<Action>)
    requires TimersAgree(s) && s.ring.scheduled && EndsWithRingTurn(s, actions, s.env.heap[RingTimer])
    ensures var s' := Step(s, actions[0]);
            if |actions| == 1 then RingFires(s, actions[0])
            else EndsWithRingTurn(s', actions[1..], s.env.heap[RingTimer])
  {
    hide Step;
    StepKeepsTimers(s, actions[0]);
    if |actions| > 1 {
      var n := |actions| - 1;
      assert actions[..n][1..] == actions[1..][..n - 1];
      assert Run(s, actions[..n]) == Run(Step(s, actions[0]), actions[1..][..n - 1]);
    } else {
      assert Run(s, actions[..0]) == s;
    }
  }

  lemma {:induction false} SparedInRun(s: State, actions: seq<Action>, c: int)
    requires TimersAgree(s) && s.ring != Timer(true, c)
    requires forall a: Action | a in actions :: !(a.IncomingCall? && a.call == c)
    ensures RejectsOf(Run(s, actions).env.rejects, c) == RejectsOf(s.env.rejects, c)
    decreases |actions|
  {
    hide Step, TimersAgree, RejectsOf;
    if actions != [] {
      StepKeepsTimers(s, actions[0]);
      StepSpares(s, actions[0], c);
      SparedInRun(Step(s, actions[0]), actions[1..], c);
    }
  }

  /** A call that was answered, or has ended, and whose callback ran is never rejected
      afterwards, unless a new call arrives under its id. */
  lemma AnsweredIsLeftAlone(s: State, c: int, st: CallState, actions: seq<Action>)
    requires TimersAgree(s) && c in s.env.calls && !Ringing(st)
    requires forall a: Action | a in actions :: !(a.IncomingCall? && a.call == c)
    ensures var r := Run(Step(s, StateChange(c, st, true)), actions);
            RejectsOf(r.env.rejects, c) == RejectsOf(s.env.rejects, c)
  {
    hide OnCallState, Run, RejectsOf;
    OnCallStateIs(s.(env := SetCall(s.env, c, s.env.calls[c].(state := st))), c, st);
    StepKeepsTimers(s, StateChange(c, st, true));
    SparedInRun(Step(s, StateChange(c, st, true)), actions, c);
  }

  /** There is one ring timer, and a later arrival takes it: the call that was ringing
      before is never rejected, however long nobody answers it. */
  lemma LaterArrivalTakesTheTimer(s: State, a: Action, c: int, actions: seq<Action>)
    requires TimersAgree(s) && TakesTimer(s, a) && a.call != c
    requires forall a: Action | a in actions :: !(a.IncomingCall? && a.call == c)
    ensures RejectsOf(Run(Step(s, a), actions).env.rejects, c) == RejectsOf(s.env.rejects, c)
  {
    hide Run, RejectsOf;
    StepKeepsTimers(s, a);
    SparedInRun(Step(s, a), actions, c);
  }

  /** An arriving call is the current one, and takes the ring timer if there is a timeout and
      the call can be looked up; the timer, if it can be scheduled, is due when the timeout
      in force has passed. */
  lemma ArrivalArms(s: State, c: int, infoOk: bool, schedOk: bool)
    requires TimersAgree(s) && c >= 0 && c !in s.env.calls
    ensures var r := Step(s, IncomingCall(c, infoOk, schedOk));
            && IsRinging(r, c) && r.callId == c && r.env.rejects == s.env.rejects && TimersAgree(r)
            && r.ring == (if infoOk && s.ringTimeout > 0 then Timer(schedOk, c) else s.ring)
            && (infoOk && schedOk && s.ringTimeout > 0 ==>
                  RingTimer in r.env.heap && r.env.heap[RingTimer] == s.env.now + 1000 * s.ringTimeout)
  {
    StepKeepsTimers(s, IncomingCall(c, infoOk, schedOk));
  }

  lemma StepKeepsTimeout(s: State, a: Action)
    ensures Step(s, a).ringTimeout == if a.SetRingTimeout? then a.seconds else s.ringTimeout
  {
    if Elsewhere(a) {
      hide Step;
      ElsewhereApart(s, a);
    } else {
      hide GiveUp, ArmWatch, ArmReport, OnWatchdog, OnReport;
    }
  }

  lemma {:induction false} TimeoutInRun(s: State, actions: seq<Action>)
    requires TimersAgree(s) && forall a: Action | a in actions :: !a.SetRingTimeout?
    ensures Run(s, actions).ringTimeout == s.ringTimeout && TimersAgree(Run(s, actions))
    decreases |actions|
  {
    hide Step, TimersAgree;
    if actions != [] {
      StepKeepsTimers(s, actions[0]);
      StepKeepsTimeout(s, actions[0]);
      TimeoutInRun(Step(s, actions[0]), actions[1..]);
    }
  }

  /** The ring timeout from end to end: after it is set to `seconds` and whatever else
      happens before a call arrives, that call, if it goes on ringing for that long and the
      timer's turn has come, has been rejected exactly once, unless the timer was lost to it
      on the way; and with no timeout set it is never rejected. */
  lemma TimeoutRejects(s: State, seconds: nat, before: seq<Action>, c: int, after: seq<Action>)
    requires TimersAgree(s) && forall a: Action | a in before :: !a.SetRingTimeout?
    requires forall a: Action | a in after :: StaysRinging(a, c)
    ensures var s1 := Run(Step(s, SetRingTimeout(seconds)), before);
            var s2 := Step(s1, IncomingCall(c, true, true));
            c >= 0 && c !in s1.env.calls ==>
              var rejected := RejectsOf(Run(s2, after).env.rejects, c) - RejectsOf(s1.env.rejects, c);
              && (seconds == 0 && s1.ring != Timer(true, c) ==> rejected == 0)
              && (seconds > 0 && EndsWithRingTurn(s2, after, s1.env.now + 1000 * seconds) ==>
                    rejected == if Escapes(s2, after, c) then 0 else 1)
  {
    hide Run, Step, TimersAgree, RejectsOf, Escapes;
    var s0 := Step(s, SetRingTimeout(seconds));
    StepKeepsTimers(s, SetRingTimeout(seconds));
    StepKeepsTimeout(s, SetRingTimeout(seconds));
    TimeoutInRun(s0, before);
    var s1 := Run(s0, before);
    if c >= 0 && c !in s1.env.calls {
      ArrivalArms(s1, c, true, true);
      var s2 := Step(s1, IncomingCall(c, true, true));
      if seconds == 0 && s1.ring != Timer(true, c) {
        SparedWhileLive(s2, after, c);
      } else if seconds > 0 && EndsWithRingTurn(s2, after, s1.env.now + 1000 * seconds) {
        UnansweredIsRejected(s2, after, c);
      }
    }
  }

  // ---- Cancelling ------------------------------------------------------------------------------

  function Cancel(s: State, id: TimerId): State {
    match id
    case RingTimer => CancelRing(s)
    case Watchdog => CancelWatch(s)
    case Report => CancelReport(s)
  }

  predicate Arms(a: Action, id: TimerId) {
    if id.RingTimer? then a.IncomingCall? else a.MediaChange?
  }

  function Without(actions: seq<Action>, id: TimerId): seq<Action> {
    if actions == [] then []
    else if actions[0].Fires? && actions[0].id == id then Without(actions[1..], id)
    else [actions[0]] + Without(actions[1..], id)
  }

  lemma GiveUpQueues(s: State, c: int)
    ensures GiveUp(s, c).env.heap.Keys <= s.env.heap.Keys
  {
  }

  lemma OnIncomingQueues(s: State, c: int, infoOk: bool, schedOk: bool)
    ensures OnIncoming(s, c, infoOk, schedOk).env.heap.Keys <= s.env.heap.Keys + {RingTimer}
  {
  }

  lemma ArmsQueue(s: State, c: int, media: seq<Media>, ok: bool)
    ensures ArmWatch(s, c, media, ok).env.heap.Keys <= s.env.heap.Keys + {Watchdog}
    ensures ArmReport(s, c, ok).env.heap.Keys <= s.env.heap.Keys + {Report}
  {
  }

  lemma FiringQueues(s: State, infoOk: bool, statOk: bool, schedOk: bool)
    ensures OnRingTimer(s, infoOk).env.heap.Keys <= s.env.heap.Keys
    ensures OnWatchdog(s, infoOk, statOk, schedOk).env.heap.Keys <= s.env.heap.Keys + {Watchdog}
    ensures OnReport(s, infoOk, schedOk).env.heap.Keys <= s.env.heap.Keys + {Report}
  {
    hide GiveUp, FirstSending, Reading;
    var s' := s.(watch := s.watch.(scheduled := false), stalls := s.stalls + 1);
    GiveUpQueues(s', s.watch.call);
  }

  /** Only arming queues an entry, and an entry that is not queued does not fire. */
  lemma StepLeavesOff(s: State, a: Action, id: TimerId)
    requires id !in s.env.heap && !Arms(a, id)
    ensures id !in Step(s, a).env.heap
    ensures a.Fires? && a.id == id ==> Step(s, a) == s
  {
    hide GiveUp, ArmWatch, ArmReport, OnRingTimer, OnWatchdog, OnReport, OnCallState, OnIncoming;
    match a
    case IncomingCall(c, infoOk, schedOk) =>
      OnIncomingQueues(s.(env := SetCall(s.env, c, NewCall(s, Incoming, s.ringTimeout))), c, infoOk, schedOk);
    case StateChange(c, st, _) =>
      if c in s.env.calls {
        OnCallStateIs(s.(env := SetCall(s.env, c, s.env.calls[c].(state := st))), c, st);
      }
    case MediaChange(c, media, watchOk, reportOk) =>
      if c in s.env.calls {
        var s' := s.(env := SetCall(s.env, c, s.env.calls[c].(media := media)));
        ArmsQueue(s', c, media, watchOk);
        ArmsQueue(ArmWatch(s', c, media, watchOk), c, media, reportOk);
      }
    case DeviceError(c) => GiveUpQueues(s, c);
    case Fires(fired, infoOk, statOk, schedOk) =>
      FiringQueues(s.(env := Unqueue(s.env, fired)), infoOk, statOk, schedOk);
    case _ =>
  }

  lemma {:induction false} OffStaysOff(s: State, id: TimerId, actions: seq<Action>)
    requires id !in s.env.heap && forall a: Action | a in actions :: !Arms(a, id)
    ensures id !in Run(s, actions).env.heap
    ensures Run(s, actions) == Run(s, Without(actions, id))
    decreases |actions|
  {
    hide Step, Arms;
    if actions != [] {
      var s' := Step(s, actions[0]);
      StepLeavesOff(s, actions[0], id);
      OffStaysOff(s', id, actions[1..]);
      var rest := Without(actions[1..], id);
      assert ([actions[0]] + rest)[1..] == rest;
    }
  }

  /** A cancelled timer does nothing more until it is armed again: the run goes as if the
      timer never fired.  Cancelling leaves the other timers alone, and keeps flags and
      heap in agreement. */
  lemma CancelledNeverFires(s: State, id: TimerId, actions: seq<Action>)
    requires TimersAgree(s) && forall a: Action | a in actions :: !Arms(a, id)
    ensures var r := Cancel(s, id);
            && r.env.heap == s.env.heap - {id} && TimersAgree(r)
            && Run(r, actions) == Run(r, Without(actions, id))
            && id !in Run(r, actions).env.heap
  {
    hide Run, Without, Arms;
    assert id !in s.env.heap ==> s.env.heap - {id} == s.env.heap;
    OffStaysOff(Cancel(s, id), id, actions);
  }

  // ---- Windows ---------------------------------------------------------------------------------

  /** How long the watchdog and the report wait. */
  function Delay(id: TimerId): nat {
    if id.Watchdog? then WATCHDOG_MSEC else REPORT_MSEC
  }

  /** The entry is not due before `t`, and could not be if it were armed now. */
  predicate Waits(s: State, id: TimerId, t: nat) {
    (id in s.env.heap ==> s.env.heap[id] >= t) && t <= s.env.now + Delay(id)
  }

  /** A step arms a timer for a whole delay from now, or leaves it as it is. */
  predicate ArmsWhole(s: State, r: State) {
    && r.env.now >= s.env.now
    && (forall id: TimerId | !id.RingTimer? && id in r.env.heap ::
          (id in s.env.heap && r.env.heap[id] == s.env.heap[id]) || r.env.heap[id] == s.env.now + Delay(id))
  }

  lemma ArmsTwice(s: State, r: State, t: State)
    requires ArmsWhole(s, r) && ArmsWhole(r, t) && r.env.now == s.env.now
    ensures ArmsWhole(s, t)
  {
  }

  lemma HandlersArmWhole(s: State, c: int, media: seq<Media>, ok: bool)
    ensures ArmsWhole(s, GiveUp(s, c)) && GiveUp(s, c).env.now == s.env.now
    ensures ArmsWhole(s, ArmWatch(s, c, media, ok)) && ArmWatch(s, c, media, ok).env.now == s.env.now
    ensures ArmsWhole(s, ArmReport(s, c, ok)) && ArmReport(s, c, ok).env.now == s.env.now
  {
  }

  lemma OnCallStateArmsWhole(s: State, c: int, st: CallState)
    ensures ArmsWhole(s, OnCallState(s, c, st))
  {
  }

  lemma OnIncomingArmsWhole(s: State, c: int, infoOk: bool, schedOk: bool)
    ensures ArmsWhole(s, OnIncoming(s, c, infoOk, schedOk))
  {
  }

  lemma FiringArmsWhole(s: State, infoOk: bool, schedOk: bool)
    ensures ArmsWhole(s, OnRingTimer(s, infoOk)) && ArmsWhole(s, OnReport(s, infoOk, schedOk))
  {
  }

  lemma OnWatchdogArmsWhole(s: State, infoOk: bool, statOk: bool, schedOk: bool)
    ensures ArmsWhole(s, OnWatchdog(s, infoOk, statOk, schedOk))
  {
    hide GiveUp, FirstSending, Reading;
    var s' := s.(watch := s.watch.(scheduled := false), stalls := s.stalls + 1);
    HandlersArmWhole(s', s.watch.call, [], true);
  }

  lemma StepArmsWhole(s: State, a: Action)
    ensures ArmsWhole(s, Step(s, a))
  {
    hide GiveUp, ArmWatch, ArmReport, OnRingTimer, OnWatchdog, OnReport, OnCallState, OnIncoming;
    match a
    case IncomingCall(c, infoOk, schedOk) =>
      OnIncomingArmsWhole(s.(env := SetCall(s.env, c, NewCall(s, Incoming, s.ringTimeout))), c, infoOk, schedOk);
    case StateChange(c, st, _) =>
      if c in s.env.calls {
        OnCallStateArmsWhole(s.(env := SetCall(s.env, c, s.env.calls[c].(state := st))), c, st);
      }
    case MediaChange(c, media, watchOk, reportOk) =>
      if c in s.env.calls {
        var s1 := s.(env := SetCall(s.env, c, s.env.calls[c].(media := media)));
        var s2 := ArmWatch(s1, c, media, watchOk);
        HandlersArmWhole(s1, c, media, watchOk);
        HandlersArmWhole(s2, c, media, reportOk);
        ArmsTwice(s1, s2, ArmReport(s2, c, reportOk));
      }
    case DeviceError(c) => HandlersArmWhole(s, c, [], true);
    case Fires(fired, infoOk, statOk, schedOk) =>
      FiringArmsWhole(s.(env := Unqueue(s.env, fired)), infoOk, schedOk);
      OnWatchdogArmsWhole(s.(env := Unqueue(s.env, fired)), infoOk, statOk, schedOk);
    case _ =>
  }

  lemma {:induction false} TimePasses(s: State, actions: seq<Action>)
    ensures Run(s, actions).env.now >= s.env.now
    decreases |actions|
  {
    hide Step;
    if actions != [] {
      StepArmsWhole(s, actions[0]);
      TimePasses(Step(s, actions[0]), actions[1..]);
    }
  }

  /** Until then the timer does nothing, whatever else re-arms it: the run goes as if it
      never fired. */
  lemma {:induction false} WaitsInRun(s: State, id: TimerId, t: nat, actions: seq<Action>)
    requires !id.RingTimer? && Waits(s, id, t) && Run(s, actions).env.now < t
    ensures Run(s, actions) == Run(s, Without(actions, id))
    decreases |actions|
  {
    if actions != [] {
      var s' := Step(s, actions[0]);
      TimePasses(s, actions);
      StepArmsWhole(s, actions[0]);
      assert actions[0].Fires? && actions[0].id == id ==> s' == s;
      hide Step;
      WaitsInRun(s', id, t, actions[1..]);
      var rest := Without(actions[1..], id);
      assert ([actions[0]] + rest)[1..] == rest;
    }
  }

  /** The watchdog's firing that gives nothing up, or a negotiation: a window begins. */
  predicate StartsWindow(s: State, a: Action) {
    || (a.MediaChange? && a.call in s.env.calls)
    || (a.Fires? && a.id.Watchdog? && Watchdog in s.env.heap && s.env.heap[Watchdog] <= s.env.now)
  }

  lemma WindowIsWhole(s: State, a: Action)
    requires TimersAgree(s) && StartsWindow(s, a)
    ensures var r := Step(s, a);
            r.env.now == s.env.now && (Watchdog in r.env.heap ==> r.env.heap[Watchdog] == s.env.now + WATCHDOG_MSEC)
  {
    hide GiveUp, FirstSending, Reading, IsStall;
    if a.Fires? {
      var s' := s.(env := Unqueue(s.env, a.id), watch := s.watch.(scheduled := false), stalls := s.stalls + 1);
      GiveUpQueues(s', s.watch.call);
      HandlersArmWhole(s', s.watch.call, [], true);
    }
  }

  /** No removal has been asked for since: the latch, if it moved, was let go, and what a
      live call counts it counted before, or it is a new one. */
  predicate AskedNothing(s: State, r: State) {
    && (r.latch == s.latch || r.latch == INVALID_ID)
    && forall d | d in r.env.calls ::
         r.env.calls[d].removals == 0 || (d in s.env.calls && r.env.calls[d].removals == s.env.calls[d].removals)
  }

  lemma StepAsksNothing(s: State, a: Action)
    requires !a.DeviceError? && !(a.Fires? && a.id.Watchdog?)
    ensures AskedNothing(s, Step(s, a))
  {
    if a.MediaChange? {
      hide Step;
      MediaChangeIsQuiet(s, a);
    } else if a.StateChange? {
      hide OnCallState;
      if a.call in s.env.calls {
        OnCallStateIs(s.(env := SetCall(s.env, a.call, s.env.calls[a.call].(state := a.state))), a.call, a.state);
      }
    } else if a.IncomingCall? {
      hide OnIncoming;
      var s' := s.(env := SetCall(s.env, a.call, NewCall(s, Incoming, s.ringTimeout)));
      OnIncomingIs(s', a.call, a.infoOk, a.schedOk);
    } else if a.Dial? {
    } else {
      hide Step;
      OthersAreQuiet(s, a);
    }
  }

  lemma {:induction false} RunAsksNothing(s: State, actions: seq<Action>)
    requires forall a: Action | a in actions :: !a.DeviceError? && !(a.Fires? && a.id.Watchdog?)
    ensures AskedNothing(s, Run(s, actions))
    decreases |actions|
  {
    if actions != [] {
      hide Step;
      StepAsksNothing(s, actions[0]);
      RunAsksNothing(Step(s, actions[0]), actions[1..]);
    }
  }

  lemma {:induction false} WithoutIs(actions: seq<Action>, id: TimerId)
    ensures forall a: Action | a in Without(actions, id) :: a in actions && !(a.Fires? && a.id == id)
  {
    if actions != [] {
      WithoutIs(actions[1..], id);
    }
  }

  /** Nobody's video is given up within three seconds of its being negotiated, or of the
      watchdog's looking at it and letting it be: in no run, except for a device error. */
  lemma NeverWithinAWindow(s: State, a: Action, actions: seq<Action>)
    requires TimersAgree(s) && StartsWindow(s, a)
    requires forall b: Action | b in actions :: !b.DeviceError?
    requires Run(Step(s, a), actions).env.now < s.env.now + WATCHDOG_MSEC
    ensures AskedNothing(Step(s, a), Run(Step(s, a), actions))
  {
    hide Step, Run, AskedNothing;
    WindowIsWhole(s, a);
    WaitsInRun(Step(s, a), Watchdog, s.env.now + WATCHDOG_MSEC, actions);
    WithoutIs(actions, Watchdog);
    RunAsksNothing(Step(s, a), Without(actions, Watchdog));
  }

  // ---- Giving up, and the end of a call ----------------------------------------------------------

  /** One fault arrives as a stream of device errors: the second and later ones change
      nothing, however many there are. */
  lemma {:induction false} RepeatedErrorsCostNothing(s: State, c: int, errors: seq<Action>)
    requires errors != [] && forall a: Action | a in errors :: a == DeviceError(c)
    ensures Run(s, errors) == Step(s, DeviceError(c))
    decreases |errors|
  {
    var s' := Step(s, DeviceError(c));
    assert errors[0] in errors;
    assert Step(s', DeviceError(c)) == s';
    if |errors| > 1 {
      assert forall a: Action | a in errors[1..] :: a in errors;
      RepeatedErrorsCostNothing(s', c, errors[1..]);
    }
  }

  /** The end of the one call there is leaves no timer queued or armed, and leaves the module
      as at its start exactly when the current call and the call given up were, if any,
      that one. */
  lemma EndOfCallStartsOver(s: State, c: int)
    requires TimersAgree(s) && RingFits(s) && s.env.calls.Keys == {c}
    ensures var r := Step(s, StateChange(c, Disconnected, true));
            && r.env.calls == map[] && r.env.heap == map[]
            && !r.ring.scheduled && !r.watch.scheduled && !r.report.scheduled
            && (r.callId == INVALID_ID && r.latch == INVALID_ID <==>
                  s.callId in {c, INVALID_ID} && s.latch in {c, INVALID_ID})
  {
    var a := StateChange(c, Disconnected, true);
    var r := Step(s, a);
    StepKeepsTimers(s, a);
    assert r.env.calls.Keys == {};
    forall id
      ensures id !in r.env.heap
    {
      match id
      case RingTimer =>
      case Watchdog =>
      case Report =>
    }
  }
}
