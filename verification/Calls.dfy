/** Call supervision: the current call, the ring timer, the video watchdog, the media
    report and the give-up latch, driven by callbacks in any order.  The telephony library
    is the environment: a table of live calls, a timer heap and packet counters. */
module Calls {
  import opened Options
  import opened Pjsua

  const WATCHDOG_MSEC: nat := 3000
  const REPORT_MSEC: nat := 5000

  datatype CallState = Null | Calling | Incoming | Early | Connecting | Confirmed | Disconnected
  datatype Kind = Audio | Video | OtherMedia
  datatype Media = Media(kind: Kind, active: bool, encoding: bool, tx: nat) {
    predicate IsVideo() { kind.Video? && active }
    predicate IsSending() { IsVideo() && encoding }
  }

  /** A live call; `limit` is the ring timeout (in seconds) in force when it arrived, and
      0 for a call of our own.
      `removals` and `displaced` are history: video removals asked for it, and times
      another call took the give-up latch from it. */
  datatype Call = Call(state: CallState, media: seq<Media>, arrived: nat, limit: nat, removals: nat, displaced: nat)

  datatype TimerId = RingTimer | Watchdog | Report

  /** An automatic rejection with 480: whom, in what state, when, and what applied to it. */
  datatype Reject = Reject(call: int, state: CallState, at: nat, arrived: nat, limit: nat)

  /** The library: live calls by id, the due time of every queued timer entry, the clock,
      what it was asked to do, and whether a queued entry was ever initialised or
      scheduled again. */
  datatype Env = Env(calls: map<int, Call>, heap: map<TimerId, nat>, now: nat,
                     rejects: seq<Reject>, hangups: seq<int>, misused: bool)

  /** A static timer entry with its call id, and the flag kept beside it. */
  datatype Timer = Timer(scheduled: bool, call: int)

  datatype State = State(callId: int, ringTimeout: nat, ring: Timer, latch: int,
                         watch: Timer, seen: nat, stalls: nat, report: Timer, env: Env)

  function Start(): State {
    State(INVALID_ID, 0, Timer(false, INVALID_ID), INVALID_ID, Timer(false, INVALID_ID), 0, 0, Timer(false, INVALID_ID),
          Env(map[], map[], 0, [], [], false))
  }

  // ---- The library ------------------------------------------------------------------------

  function InitEntry(env: Env, id: TimerId): Env {
    env.(misused := env.misused || id in env.heap)
  }

  function Schedule(env: Env, id: TimerId, delay: nat, ok: bool): Env {
    if ok then env.(heap := env.heap[id := env.now + delay], misused := env.misused || id in env.heap) else env
  }

  function Unqueue(env: Env, id: TimerId): Env {
    env.(heap := env.heap - {id})
  }

  function SetCall(env: Env, c: int, call: Call): Env {
    env.(calls := env.calls[c := call])
  }

  predicate Ringing(st: CallState) {
    st.Incoming? || st.Early?
  }

  /** The first active video stream that is meant to be sending, or |media|. */
  function FirstSending(media: seq<Media>, i: nat := 0): (r: nat)
    requires i <= |media|
    ensures i <= r <= |media|
    ensures r < |media| ==> media[r].IsSending()
    ensures forall k | i <= k < r :: !media[k].IsSending()
    decreases |media| - i
  {
    if i == |media| || media[i].IsSending() then i
    else FirstSending(media, i + 1)
  }

  /** The first active video stream, sending or not, or |media|. */
  function FirstActive(media: seq<Media>, i: nat := 0): (r: nat)
    requires i <= |media|
    ensures i <= r <= |media|
    ensures r < |media| ==> media[r].IsVideo()
    ensures forall k | i <= k < r :: !media[k].IsVideo()
    decreases |media| - i
  {
    if i == |media| || media[i].IsVideo() then i
    else FirstActive(media, i + 1)
  }

  /** The transmit counter the watchdog reads. */
  function Reading(media: seq<Media>, statOk: bool): Option<nat> {
    if statOk && FirstActive(media) < |media| then Some(media[FirstActive(media)].tx) else None
  }

  // ---- What each entry point does -------------------------------------------------------------

  function CancelRing(s: State): State {
    if s.ring.scheduled then s.(ring := s.ring.(scheduled := false), env := Unqueue(s.env, RingTimer)) else s
  }

  function CancelWatch(s: State): State {
    if s.watch.scheduled then s.(watch := s.watch.(scheduled := false), env := Unqueue(s.env, Watchdog)) else s
  }

  function CancelReport(s: State): State {
    if s.report.scheduled then s.(report := s.report.(scheduled := false), env := Unqueue(s.env, Report)) else s
  }

  function CountDisplaced(env: Env, c: int): Env {
    if c in env.calls then SetCall(env, c, env.calls[c].(displaced := env.calls[c].displaced + 1)) else env
  }

  function CountRemoval(env: Env, c: int): Env {
    if c in env.calls then SetCall(env, c, env.calls[c].(removals := env.calls[c].removals + 1)) else env
  }

  function GiveUp(s: State, c: int): State {
    if c == s.latch then s
    else
      var s' := CancelWatch(s.(latch := c));
      s'.(env := CountRemoval(CountDisplaced(s'.env, s.latch), c))
  }

  function OnCallState(s: State, c: int, st: CallState): State {
    var s := if s.ring.scheduled && c == s.ring.call && !Ringing(st) then CancelRing(s) else s;
    if st.Disconnected? then EndCall(s, c) else s
  }

  function EndCall(s: State, c: int): State {
    var s := if c == s.callId then s.(callId := INVALID_ID) else s;
    var s := if c == s.latch then s.(latch := INVALID_ID) else s;
    CancelReport(CancelWatch(s))
  }

  function ArmWatch(s: State, c: int, media: seq<Media>, ok: bool): State {
    var s := CancelWatch(s);
    if FirstSending(media) == |media| || c == s.latch then s
    else
      s.(seen := 0, stalls := 0, watch := Timer(ok, c),
         env := Schedule(InitEntry(s.env, Watchdog), Watchdog, WATCHDOG_MSEC, ok))
  }

  function ArmReport(s: State, c: int, ok: bool): State {
    var s := CancelReport(s);
    s.(report := Timer(ok, c), env := Schedule(InitEntry(s.env, Report), Report, REPORT_MSEC, ok))
  }

  function OnIncoming(s: State, c: int, infoOk: bool, schedOk: bool): State {
    var s := s.(callId := c);
    if !infoOk || s.ringTimeout == 0 then s
    else
      var s := CancelRing(s);
      s.(ring := Timer(schedOk, c),
         env := Schedule(InitEntry(s.env, RingTimer), RingTimer, 1000 * s.ringTimeout, schedOk))
  }

  function OnRingTimer(s: State, infoOk: bool): State {
    var s := s.(ring := s.ring.(scheduled := false));
    var c := s.ring.call;
    if !infoOk || c !in s.env.calls || !Ringing(s.env.calls[c].state) then s
    else
      var call := s.env.calls[c];
      s.(env := s.env.(rejects := s.env.rejects + [Reject(c, call.state, s.env.now, call.arrived, call.limit)]))
  }

  predicate Rises(reading: Option<nat>, seen: nat) {
    reading.Some? && reading.value > seen
  }

  /** Nothing new to see, for long enough: one interval if packets were seen before, two if
      none ever were. */
  predicate IsStall(s: State, reading: Option<nat>) {
    !Rises(reading, s.seen) && s.stalls + 1 >= if s.seen > 0 then 1 else 2
  }

  function OnWatchdog(s: State, infoOk: bool, statOk: bool, schedOk: bool): State {
    var s := s.(watch := s.watch.(scheduled := false));
    var c := s.watch.call;
    if !infoOk || c !in s.env.calls || !s.env.calls[c].state.Confirmed? then s
    else
      var media := s.env.calls[c].media;
      if FirstSending(media) == |media| then s
      else
        var reading := Reading(media, statOk);
        if IsStall(s, reading) then
          GiveUp(s.(stalls := s.stalls + 1), c)
        else
          var s := if Rises(reading, s.seen) then s.(seen := reading.value, stalls := 0)
                   else s.(stalls := s.stalls + 1);
          s.(watch := Timer(schedOk, c), env := Schedule(s.env, Watchdog, WATCHDOG_MSEC, schedOk))
  }

  function OnReport(s: State, infoOk: bool, schedOk: bool): State {
    var s := s.(report := s.report.(scheduled := false));
    var c := s.report.call;
    if !infoOk || c !in s.env.calls || !s.env.calls[c].state.Confirmed? then s
    else s.(report := Timer(schedOk, c), env := Schedule(s.env, Report, REPORT_MSEC, schedOk))
  }

  // ---- Steps ------------------------------------------------------------------------------------

  datatype Action =
    | Tick(msec: nat)
    | IncomingCall(call: int, infoOk: bool, schedOk: bool)
    | StateChange(call: int, state: CallState, delivered: bool)   // delivered: the callback ran and saw it
    | MediaChange(call: int, media: seq<Media>, watchOk: bool, reportOk: bool)
    | Traffic(call: int, media: seq<Media>)                       // counters move, or a change is not seen
    | DeviceError(call: int)
    | Fires(id: TimerId, infoOk: bool, statOk: bool, schedOk: bool)
    | Dial(placed: Option<int>)                                   // the account allowed it; None: it failed
    | HangupAll
    | SetRingTimeout(seconds: nat)

  function NewCall(s: State, st: CallState, limit: nat): Call {
    Call(st, [], s.env.now, limit, 0, 0)
  }

  function Step(s: State, a: Action): State {
    match a
    case Tick(msec) => s.(env := s.env.(now := s.env.now + msec))
    case IncomingCall(c, infoOk, schedOk) =>
      if c < 0 || c in s.env.calls then s
      else OnIncoming(s.(env := SetCall(s.env, c, NewCall(s, Incoming, s.ringTimeout))), c, infoOk, schedOk)
    case StateChange(c, st, delivered) =>
      if c !in s.env.calls then s
      else
        var s' := s.(env := SetCall(s.env, c, s.env.calls[c].(state := st)));
        var s' := if delivered then OnCallState(s', c, st) else s';
        if st.Disconnected? then s'.(env := s'.env.(calls := s'.env.calls - {c})) else s'
    case MediaChange(c, media, watchOk, reportOk) =>
      if c !in s.env.calls then s
      else
        var s' := s.(env := SetCall(s.env, c, s.env.calls[c].(media := media)));
        ArmReport(ArmWatch(s', c, media, watchOk), c, reportOk)
    case Traffic(c, media) =>
      if c !in s.env.calls then s
      else s.(env := SetCall(s.env, c, s.env.calls[c].(media := media)))
    case DeviceError(c) => if c < 0 then s else GiveUp(s, c)
    case Fires(id, infoOk, statOk, schedOk) =>
      if id !in s.env.heap || s.env.heap[id] > s.env.now then s
      else
        var s' := s.(env := Unqueue(s.env, id));
        (match id
         case RingTimer => OnRingTimer(s', infoOk)
         case Watchdog => OnWatchdog(s', infoOk, statOk, schedOk)
         case Report => OnReport(s', infoOk, schedOk))
    case Dial(placed) =>
      (match placed
       case None => s.(callId := INVALID_ID)
       case Some(c) =>
         if c < 0 || c in s.env.calls then s
         else s.(callId := c, env := SetCall(s.env, c, NewCall(s, Calling, 0))))
    case HangupAll =>
      if s.callId == INVALID_ID then s else s.(env := s.env.(hangups := s.env.hangups + [s.callId]))
    case SetRingTimeout(seconds) => s.(ringTimeout := seconds)
  }

  function Run(s: State, actions: seq<Action>): State
    decreases |actions|
  {
    if actions == [] then s else Run(Step(s, actions[0]), actions[1..])
  }

  // ---- Timers and heap -----------------------------------------------------------------------------

  /** Each flag is set exactly while its entry is queued, and no queued entry was ever
      initialised or scheduled again. */
  predicate TimersAgree(s: State) {
    && (s.ring.scheduled <==> RingTimer in s.env.heap)
    && (s.watch.scheduled <==> Watchdog in s.env.heap)
    && (s.report.scheduled <==> Report in s.env.heap)
    && !s.env.misused
  }

  lemma GiveUpKeepsTimers(s: State, c: int)
    requires TimersAgree(s)
    ensures TimersAgree(GiveUp(s, c))
  {
  }

  lemma ArmsKeepTimers(s: State, c: int, media: seq<Media>, ok: bool)
    requires TimersAgree(s)
    ensures TimersAgree(ArmWatch(s, c, media, ok)) && TimersAgree(ArmReport(s, c, ok))
  {
  }

  lemma OnIncomingKeepsTimers(s: State, c: int, infoOk: bool, schedOk: bool)
    requires TimersAgree(s)
    ensures TimersAgree(OnIncoming(s, c, infoOk, schedOk))
  {
  }

  lemma OnCallStateKeepsTimers(s: State, c: int, st: CallState)
    requires TimersAgree(s)
    ensures TimersAgree(OnCallState(s, c, st))
  {
  }

  lemma FiringKeepsTimers(s: State, id: TimerId, infoOk: bool, statOk: bool, schedOk: bool)
    requires TimersAgree(s) && id in s.env.heap
    ensures var s' := s.(env := Unqueue(s.env, id));
            match id
            case RingTimer => TimersAgree(OnRingTimer(s', infoOk))
            case Watchdog => TimersAgree(OnWatchdog(s', infoOk, statOk, schedOk))
            case Report => TimersAgree(OnReport(s', infoOk, schedOk))
  {
    hide FirstSending, FirstActive;
    if id.Watchdog? {
      var s' := s.(env := Unqueue(s.env, id), watch := s.watch.(scheduled := false));
      GiveUpKeepsTimers(s'.(stalls := s.stalls + 1), s.watch.call);
    }
  }

  lemma StepKeepsTimers(s: State, a: Action)
    requires TimersAgree(s)
    ensures TimersAgree(Step(s, a))
  {
    hide GiveUp, ArmWatch, ArmReport, OnRingTimer, OnWatchdog, OnReport, OnIncoming, OnCallState;
    match a
    case DeviceError(c) => GiveUpKeepsTimers(s, c);
    case IncomingCall(c, infoOk, schedOk) =>
      OnIncomingKeepsTimers(s.(env := SetCall(s.env, c, NewCall(s, Incoming, s.ringTimeout))), c, infoOk, schedOk);
    case StateChange(c, st, _) =>
      if c in s.env.calls {
        OnCallStateKeepsTimers(s.(env := SetCall(s.env, c, s.env.calls[c].(state := st))), c, st);
      }
    case MediaChange(c, media, watchOk, reportOk) =>
      if c in s.env.calls {
        var s' := s.(env := SetCall(s.env, c, s.env.calls[c].(media := media)));
        ArmsKeepTimers(s', c, media, watchOk);
        ArmsKeepTimers(ArmWatch(s', c, media, watchOk), c, media, reportOk);
      }
    case Fires(id, infoOk, statOk, schedOk) =>
      if id in s.env.heap {
        FiringKeepsTimers(s, id, infoOk, statOk, schedOk);
      }
    case _ =>
  }

  /** An armed watchdog never belongs to the call whose video was given up. */
  predicate WatchSparesLatch(s: State) {
    s.watch.scheduled ==> s.watch.call != s.latch && s.watch.call >= 0
  }

  predicate IdsFit(s: State) {
    forall c | c in s.env.calls :: c >= 0
  }

  lemma GiveUpKeepsApart(s: State, c: int)
    requires WatchSparesLatch(s)
    ensures WatchSparesLatch(GiveUp(s, c))
    ensures GiveUp(s, c).env.calls.Keys == s.env.calls.Keys
  {
  }

  lemma OnWatchdogKeepsApart(s: State, infoOk: bool, statOk: bool, schedOk: bool)
    requires WatchSparesLatch(s) && s.watch.scheduled && IdsFit(s)
    ensures WatchSparesLatch(OnWatchdog(s, infoOk, statOk, schedOk)) && IdsFit(OnWatchdog(s, infoOk, statOk, schedOk))
  {
    hide GiveUp, FirstSending, Reading;
    var s' := s.(watch := s.watch.(scheduled := false), stalls := s.stalls + 1);
    GiveUpKeepsApart(s', s.watch.call);
  }

  lemma StepKeepsLatchApart(s: State, a: Action)
    requires WatchSparesLatch(s) && TimersAgree(s) && IdsFit(s)
    ensures WatchSparesLatch(Step(s, a)) && IdsFit(Step(s, a))
  {
    hide GiveUp, OnWatchdog, FirstSending;
    if a.DeviceError? {
      GiveUpKeepsApart(s, a.call);
    } else if a.Fires? && a.id.Watchdog? && a.id in s.env.heap {
      OnWatchdogKeepsApart(s.(env := Unqueue(s.env, a.id)), a.infoOk, a.statOk, a.schedOk);
    }
  }

  lemma {:induction false} TimersOfEveryRun(s: State, actions: seq<Action>)
    requires TimersAgree(s) && WatchSparesLatch(s) && IdsFit(s)
    ensures TimersAgree(Run(s, actions)) && WatchSparesLatch(Run(s, actions))
    decreases |actions|
  {
    if actions != [] {
      StepKeepsTimers(s, actions[0]);
      StepKeepsLatchApart(s, actions[0]);
      TimersOfEveryRun(Step(s, actions[0]), actions[1..]);
    }
  }
}
