/** The call module itself: static variables updated by callbacks.  Performing an action or
    a whole history of them is held to Calls, so that what every run keeps is what this
    code keeps. */
module CallModule {
  import opened Options
  import opened Pjsua
  import opened Calls
  import Account
  import opened CallRuns

  class Supervisor {
    var callId: int
    var ringTimeout: nat
    var ringScheduled: bool
    var ringCall: int
    var latch: int
    var watchScheduled: bool
    var watchCall: int
    var packetsSeen: nat
    var stallTicks: nat
    var reportScheduled: bool
    var reportCall: int
    var env: Env

    function State(): Calls.State
      reads this
    {
      Calls.State(callId, ringTimeout, Timer(ringScheduled, ringCall), latch, Timer(watchScheduled, watchCall),
                  packetsSeen, stallTicks, Timer(reportScheduled, reportCall), env)
    }

    constructor ()
      ensures State() == Start()
    {
      callId, ringTimeout, latch := INVALID_ID, 0, INVALID_ID;
      ringScheduled, ringCall := false, INVALID_ID;
      watchScheduled, watchCall, packetsSeen, stallTicks := false, INVALID_ID, 0, 0;
      reportScheduled, reportCall := false, INVALID_ID;
      env := Env(map[], map[], 0, [], [], false);
    }

    method CancelRingTimer()
      modifies this
      ensures State() == CancelRing(old(State()))
    {
      if !ringScheduled {
        return;
      }
      env := Unqueue(env, RingTimer);
      ringScheduled := false;
    }

    method CancelVideoWatchdog()
      modifies this
      ensures State() == CancelWatch(old(State()))
    {
      if !watchScheduled {
        return;
      }
      env := Unqueue(env, Watchdog);
      watchScheduled := false;
    }

    method CancelMediaReport()
      modifies this
      ensures State() == CancelReport(old(State()))
    {
      if !reportScheduled {
        return;
      }
      env := Unqueue(env, Report);
      reportScheduled := false;
    }

    /** The library is asked to remove the stream; the rest of the update to `env` is
        bookkeeping of that. */
    method GiveUpOnVideo(c: int)
      modifies this
      ensures State() == GiveUp(old(State()), c)
    {
      if c == latch {
        return;
      }
      var previous := latch;
      latch := c;
      CancelVideoWatchdog();
      env := CountRemoval(CountDisplaced(env, previous), c);
    }

    /** Finds the first active video stream that is meant to be sending. */
    method FindSendingVideo(media: seq<Media>) returns (found: bool, index: nat)
      ensures found <==> exists i :: 0 <= i < |media| && media[i].IsSending()
      ensures found ==> index < |media| && media[index].IsSending()
                        && forall k | 0 <= k < index :: !media[k].IsSending()
      ensures found <==> FirstSending(media) < |media|
    {
      index := 0;
      while index < |media|
        invariant index <= |media| && forall k | 0 <= k < index :: !media[k].IsSending()
      {
        if media[index].kind.Video? && media[index].active && media[index].encoding {
          assert media[index].IsSending();
          return true, index;
        }
        index := index + 1;
      }
      return false, 0;
    }

    /** The transmit counter of the first active video stream, sending or not. */
    method GetTxPackets(media: seq<Media>, statOk: bool) returns (tx: Option<nat>)
      ensures tx.None? <==> !statOk || forall i | 0 <= i < |media| :: !media[i].IsVideo()
      ensures tx.Some? ==> exists i :: 0 <= i < |media| && media[i].IsVideo() && tx.value == media[i].tx
                                       && forall k | 0 <= k < i :: !media[k].IsVideo()
      ensures tx == Reading(media, statOk)
    {
      var i := 0;
      while i < |media|
        invariant i <= |media| && forall k | 0 <= k < i :: !media[k].IsVideo()
      {
        if media[i].kind.Video? && media[i].active {
          assert media[i].IsVideo();
          return if statOk then Some(media[i].tx) else None;
        }
        i := i + 1;
      }
      return None;
    }

    method OnCallState(c: int, infoOk: bool)
      modifies this
      ensures !infoOk || c !in old(env).calls ==> State() == old(State())
      ensures infoOk && c in old(env).calls ==> State() == Calls.OnCallState(old(State()), c, old(env).calls[c].state)
    {
      if !infoOk || c !in env.calls {
        return;
      }
      var st := env.calls[c].state;
      if ringScheduled && c == ringCall && !st.Incoming? && !st.Early? {
        CancelRingTimer();
      }
      if st.Disconnected? {
        if c == callId {
          callId := INVALID_ID;
        }
        if c == latch {
          latch := INVALID_ID;
        }
        CancelVideoWatchdog();
        CancelMediaReport();
      }
    }

    method OnCallMediaState(c: int, infoOk: bool, watchOk: bool, reportOk: bool)
      modifies this
      ensures !infoOk || c !in old(env).calls ==> State() == old(State())
      ensures infoOk && c in old(env).calls ==>
                State() == ArmReport(ArmWatch(old(State()), c, old(env).calls[c].media, watchOk), c, reportOk)
    {
      if !infoOk || c !in env.calls {
        return;
      }
      ArmVideoWatchdog(c, env.calls[c].media, watchOk);
      ArmMediaReport(c, reportOk);
    }

    /** Only video device errors matter, and of those only a call's first. */
    method OnCallMediaEvent(c: int, deviceError: bool)
      modifies this
      ensures State() == if deviceError then GiveUp(old(State()), c) else old(State())
    {
      if !deviceError {
        return;
      }
      GiveUpOnVideo(c);
    }

    method ArmVideoWatchdog(c: int, media: seq<Media>, ok: bool)
      modifies this
      ensures State() == ArmWatch(old(State()), c, media, ok)
    {
      CancelVideoWatchdog();
      var found, _ := FindSendingVideo(media);
      if !found || c == latch {
        return;
      }
      packetsSeen, stallTicks := 0, 0;
      env, watchCall := InitEntry(env, Watchdog), c;
      env := Schedule(env, Watchdog, WATCHDOG_MSEC, ok);
      if ok {
        watchScheduled := true;
      }
    }

    method ArmMediaReport(c: int, ok: bool)
      modifies this
      ensures State() == ArmReport(old(State()), c, ok)
    {
      CancelMediaReport();
      env, reportCall := InitEntry(env, Report), c;
      env := Schedule(env, Report, REPORT_MSEC, ok);
      if ok {
        reportScheduled := true;
      }
    }

    method OnIncomingCall(c: int, infoOk: bool, schedOk: bool)
      modifies this
      ensures State() == OnIncoming(old(State()), c, infoOk, schedOk)
    {
      callId := c;
      if !infoOk {
        return;
      }
      if ringTimeout > 0 {
        CancelRingTimer();
        env, ringCall := InitEntry(env, RingTimer), c;
        env := Schedule(env, RingTimer, 1000 * ringTimeout, schedOk);
        if schedOk {
          ringScheduled := true;
        }
      }
    }

    method RingTimerExpired(infoOk: bool)
      modifies this
      ensures State() == OnRingTimer(old(State()), infoOk)
    {
      ringScheduled := false;
      if !infoOk || ringCall !in env.calls {
        return;
      }
      var call := env.calls[ringCall];
      if !call.state.Incoming? && !call.state.Early? {
        return;
      }
      env := env.(rejects := env.rejects + [Reject(ringCall, call.state, env.now, call.arrived, call.limit)]);
    }

    method VideoWatchdogExpired(infoOk: bool, statOk: bool, schedOk: bool)
      modifies this
      ensures State() == OnWatchdog(old(State()), infoOk, statOk, schedOk)
    {
      hide GiveUp, FirstSending, Reading;
      watchScheduled := false;
      if !infoOk || watchCall !in env.calls || !env.calls[watchCall].state.Confirmed? {
        return;
      }
      var media := env.calls[watchCall].media;
      var found, _ := FindSendingVideo(media);
      if !found {
        return;
      }
      var tx := GetTxPackets(media, statOk);
      if tx.Some? && tx.value > packetsSeen {
        packetsSeen, stallTicks := tx.value, 0;
      } else {
        stallTicks := stallTicks + 1;
        if stallTicks >= (if packetsSeen > 0 then 1 else 2) {
          GiveUpOnVideo(watchCall);
          return;
        }
      }
      env := Schedule(env, Watchdog, WATCHDOG_MSEC, schedOk);
      if schedOk {
        watchScheduled := true;
      }
    }

    method MediaReportExpired(infoOk: bool, schedOk: bool)
      modifies this
      ensures State() == OnReport(old(State()), infoOk, schedOk)
    {
      reportScheduled := false;
      if !infoOk || reportCall !in env.calls || !env.calls[reportCall].state.Confirmed? {
        return;
      }
      env := Schedule(env, Report, REPORT_MSEC, schedOk);
      if schedOk {
        reportScheduled := true;
      }
    }

    /** `placed` is the call the library sets up, or None when it refuses the dial. */
    method Dial(account: Account.Slot, placed: Option<int>) returns (status: Account.Status)
      requires account.Valid()
      requires placed.Some? ==> placed.value >= 0 && placed.value !in env.calls
      modifies this
      ensures !account.MayDial() ==> status == Account.InvalidOp && State() == old(State())
      ensures account.MayDial() ==> State() == Step(old(State()), Calls.Dial(placed))
      ensures status == Account.Success ==>
                && placed.Some? && callId == placed.value
                && env == SetCall(old(env), callId, Call(Calling, [], env.now, 0, 0, 0))
      ensures status == Account.LibraryError ==> callId == INVALID_ID && env == old(env)
      ensures account.MayDial() ==> status == if placed.Some? then Account.Success else Account.LibraryError
    {
      if account.accId == INVALID_ID || !account.registered {
        return Account.InvalidOp;
      }
      MakeCall(placed);
      return if placed.Some? then Account.Success else Account.LibraryError;
    }

    method MakeCall(placed: Option<int>)
      requires placed.Some? ==> placed.value >= 0 && placed.value !in env.calls
      modifies this
      ensures State() == Step(old(State()), Calls.Dial(placed))
    {
      if placed.None? {
        callId := INVALID_ID;
        return;
      }
      callId, env := placed.value, SetCall(env, placed.value, Call(Calling, [], env.now, 0, 0, 0));
    }

    /** Code 0: the library picks how to end the call. */
    method HangupAll()
      modifies this
      ensures State() == Step(old(State()), Calls.HangupAll)
    {
      if callId == INVALID_ID {
        return;
      }
      env := env.(hangups := env.hangups + [callId]);
    }

    method SetRingTimeout(seconds: nat)
      modifies this
      ensures State() == Step(old(State()), Calls.SetRingTimeout(seconds))
    {
      ringTimeout := seconds;
    }

    /** The "state" field of status.get; fails when there is an account and its details
        cannot be had. */
    method StatusGet(account: Account.Slot, infoOk: bool) returns (state: Option<string>)
      requires account.Valid() && IdsFit(State())
      ensures state.None? <==> account.accId != INVALID_ID && !infoOk
      ensures state == Some("idle") <==> account.accId == INVALID_ID
      ensures state.Some? && Tracks(State()) ==>
                (state.value == "in_call" <==> account.accId != INVALID_ID && env.calls != map[])
      ensures state.Some? && state.value != "idle" ==>
                && (state.value == "in_call" <==> callId != INVALID_ID)
                && (state.value == "registered" <==> callId == INVALID_ID && account.MayDial())
                && (state.value == "registering" <==> callId == INVALID_ID && !account.MayDial())
      ensures state.Some? ==> state.value in ["idle", "in_call", "registered", "registering"]
    {
      if account.accId == INVALID_ID {
        return Some("idle");
      }
      if !infoOk {
        return None;
      }
      assert env.calls == map[] <==> env.calls.Keys == {};
      return Some(if callId != INVALID_ID then "in_call"
                  else if account.registered then "registered" else "registering");
    }

    // ---- Whole histories -------------------------------------------------------------------

    /** One action: what the library does by itself, and the code that is called for it. */
    method Perform(a: Action)
      modifies this
      ensures State() == Step(old(State()), a)
    {
      hide GiveUp, ArmWatch, ArmReport, OnRingTimer, OnWatchdog, OnReport, OnIncoming, Calls.OnCallState;
      match a
      case Tick(msec) =>
        env := env.(now := env.now + msec);
      case IncomingCall(c, infoOk, schedOk) =>
        if c >= 0 && c !in env.calls {
          env := SetCall(env, c, Call(Incoming, [], env.now, ringTimeout, 0, 0));
          OnIncomingCall(c, infoOk, schedOk);
        }
      case StateChange(c, st, delivered) =>
        if c in env.calls {
          env := SetCall(env, c, env.calls[c].(state := st));
          OnCallState(c, delivered);
          if st.Disconnected? {
            env := env.(calls := env.calls - {c});
          }
        }
      case MediaChange(c, media, watchOk, reportOk) =>
        if c in env.calls {
          env := SetCall(env, c, env.calls[c].(media := media));
          OnCallMediaState(c, true, watchOk, reportOk);
        }
      case Traffic(c, media) =>
        if c in env.calls {
          env := SetCall(env, c, env.calls[c].(media := media));
          OnCallMediaState(c, false, true, true);
        }
      case DeviceError(c) =>
        if c >= 0 {
          OnCallMediaEvent(c, true);
        }
      case Fires(id, infoOk, statOk, schedOk) =>
        if id in env.heap && env.heap[id] <= env.now {
          Expire(id, infoOk, statOk, schedOk);
        }
      case Dial(placed) =>
        if placed.None? || (placed.value >= 0 && placed.value !in env.calls) {
          MakeCall(placed);
        }
      case HangupAll =>
        HangupAll();
      case SetRingTimeout(seconds) =>
        SetRingTimeout(seconds);
    }

    /** The timer heap lets go of a due entry and calls back. */
    method Expire(id: TimerId, infoOk: bool, statOk: bool, schedOk: bool)
      requires id in env.heap && env.heap[id] <= env.now
      modifies this
      ensures State() == Step(old(State()), Fires(id, infoOk, statOk, schedOk))
    {
      hide OnRingTimer, OnWatchdog, OnReport;
      env := Unqueue(env, id);
      match id
      case RingTimer => RingTimerExpired(infoOk);
      case Watchdog => VideoWatchdogExpired(infoOk, statOk, schedOk);
      case Report => MediaReportExpired(infoOk, schedOk);
    }

    method RunAll(actions: seq<Action>)
      modifies this
      ensures State() == Run(old(State()), actions)
    {
      hide Step;
      var i := 0;
      while i < |actions|
        invariant i <= |actions| && Run(State(), actions[i..]) == Run(old(State()), actions)
      {
        assert actions[i..][1..] == actions[i + 1..];
        Perform(actions[i]);
        i := i + 1;
      }
    }

    /** What every history of the module ends in: no timer entry was ever initialised or
        scheduled while queued, and flags and heap agree; if no callback was lost, timers
        and the current call belong to live calls and rejections were due; in a single-call
        history a call's video was removed once if it is the one given up and never
        otherwise; and in one without the steps that lose track, the current call is
        exactly the live one. */
    static method History(actions: seq<Action>) returns (m: Supervisor)
      ensures fresh(m) && m.State() == Run(Start(), actions)
      ensures !m.env.misused && TimersAgree(m.State()) && WatchSparesLatch(m.State())
      ensures Delivered(actions) ==>
                RingFits(m.State()) && RejectsFit(m.State()) && ArmedAreLive(m.State()) && CurrentIsLive(m.State())
      ensures SingleCallRun(Start(), actions) ==>
                forall c | c in m.env.calls :: m.env.calls[c].removals == if c == m.latch then 1 else 0
      ensures TrackedRun(Start(), actions) ==> Tracks(m.State())
    {
      m := new Supervisor();
      m.RunAll(actions);
      EveryRun(actions);
    }
  }
}
