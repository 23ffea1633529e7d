/** When exactly the video watchdog gives up, over every sequence of counter readings. */
module WatchdogRuns {
  import opened Options
  import opened Calls

  /** One watchdog interval: how the call's media stand when the timer fires, whether the
      library answers the counter query, and how late the timer is.  The library knows the
      call, and takes the timer back. */
  datatype Window = Window(media: seq<Media>, statOk: bool, late: nat) {
    predicate Sends() { FirstSending(media) < |media| }
    function Read(): Option<nat> { Reading(media, statOk) }
  }

  /** The counters move, three seconds pass at least, the watchdog fires and can be
      rescheduled. */
  function Pass(s: State, c: int, w: Window): State {
    Step(Step(Step(s, Traffic(c, w.media)), Tick(WATCHDOG_MSEC + w.late)), Fires(Watchdog, true, w.statOk, true))
  }

  function Passes(s: State, c: int, ws: seq<Window>): State
    decreases |ws|
  {
    if ws == [] then s else Passes(Pass(s, c, ws[0]), c, ws[1..])
  }

  /** The highest counter read in the first `n` windows. */
  function Highest(ws: seq<Window>, n: nat): nat
    requires n <= |ws|
  {
    if n == 0 then 0
    else
      var h := Highest(ws, n - 1);
      if Rises(ws[n - 1].Read(), h) then ws[n - 1].Read().value else h
  }

  /** Window `i` shows no packet beyond those seen before, and either something had been
      sent by then or this is not the first window. */
  predicate Stalled(ws: seq<Window>, i: nat)
    requires i < |ws|
  {
    !Rises(ws[i].Read(), Highest(ws, i)) && (Highest(ws, i) > 0 || i > 0)
  }

  /** The watchdog has just been armed for an established call whose video it may give up. */
  predicate JustArmed(s: State, c: int) {
    && s.watch == Timer(true, c) && s.seen == 0 && s.stalls == 0
    && c in s.env.calls && s.env.calls[c].state.Confirmed? && c != s.latch
    && Watchdog in s.env.heap && s.env.heap[Watchdog] == s.env.now + WATCHDOG_MSEC
  }

  /** Still watching after `n` windows: what it remembers is what the counters showed, and
      the next window lasts three seconds from now. */
  predicate Watching(s: State, c: int, ws: seq<Window>, n: nat)
    requires n <= |ws|
  {
    && s.watch == Timer(true, c) && s.seen == Highest(ws, n)
    && s.stalls == (if n == 1 && Highest(ws, 1) == 0 then 1 else 0)
    && (n > 1 ==> Highest(ws, n) > 0)
    && c in s.env.calls && s.env.calls[c].state.Confirmed? && c != s.latch
    && Watchdog in s.env.heap && s.env.heap[Watchdog] == s.env.now + WATCHDOG_MSEC
  }

  /** Given up: the removal has been asked for, once, and nothing is armed any more. */
  predicate GaveUp(s: State, c: int, removals: nat) {
    && !s.watch.scheduled && Watchdog !in s.env.heap && s.latch == c
    && c in s.env.calls && s.env.calls[c].removals == removals
  }

  lemma PassWhileWatching(s: State, c: int, ws: seq<Window>, n: nat)
    requires n < |ws| && Watching(s, c, ws, n) && ws[n].Sends()
    ensures var r := Pass(s, c, ws[n]);
            if Stalled(ws, n) then GaveUp(r, c, s.env.calls[c].removals + 1)
            else Watching(r, c, ws, n + 1) && r.env.calls[c].removals == s.env.calls[c].removals
  {
    hide FirstSending, Reading, GiveUp;
    var s1 := Step(Step(s, Traffic(c, ws[n].media)), Tick(WATCHDOG_MSEC + ws[n].late));
    assert s1.env.heap == s.env.heap && s1.env.heap[Watchdog] <= s1.env.now;
    var s2 := s1.(env := Unqueue(s1.env, Watchdog));
    assert Pass(s, c, ws[n]) == OnWatchdog(s2, true, ws[n].statOk, true);
    GiveUpIs(s2.(watch := s2.watch.(scheduled := false), stalls := s2.stalls + 1), c);
  }

  lemma GiveUpIs(s: State, c: int)
    requires c != s.latch && c in s.env.calls && !s.watch.scheduled && Watchdog !in s.env.heap
    ensures GaveUp(GiveUp(s, c), c, s.env.calls[c].removals + 1)
  {
  }

  lemma PassAfterwards(s: State, c: int, w: Window, removals: nat)
    requires GaveUp(s, c, removals)
    ensures GaveUp(Pass(s, c, w), c, removals)
  {
  }

  predicate AllSend(ws: seq<Window>) {
    forall i | 0 <= i < |ws| :: ws[i].Sends()
  }

  /** Some window up to now was a stall. */
  predicate Fails(ws: seq<Window>, n: nat)
    requires n <= |ws|
  {
    exists i :: 0 <= i < n && Stalled(ws, i)
  }

  lemma {:induction false} PassesAppend(s: State, c: int, ws: seq<Window>, w: Window)
    ensures Passes(s, c, ws + [w]) == Pass(Passes(s, c, ws), c, w)
    decreases |ws|
  {
    if ws == [] {
      assert ([] + [w])[1..] == [];
    } else {
      assert (ws + [w])[1..] == ws[1..] + [w];
      PassesAppend(Pass(s, c, ws[0]), c, ws[1..], w);
    }
  }

  lemma FailsOneMore(ws: seq<Window>, n: nat)
    requires 0 < n <= |ws|
    ensures Fails(ws, n) <==> Fails(ws, n - 1) || Stalled(ws, n - 1)
  {
  }

  /** The watchdog gives up at exactly the first stalled window: with no increase once
      something had been sent, or the second window if nothing ever was.  Before that it
      stays armed and removes nothing; afterwards it stays off and removes nothing more. */
  lemma {:induction false} GivesUpExactly(s: State, c: int, ws: seq<Window>, n: nat)
    requires n <= |ws| && JustArmed(s, c) && AllSend(ws)
    ensures var r := Passes(s, c, ws[..n]);
            if Fails(ws, n) then GaveUp(r, c, s.env.calls[c].removals + 1)
            else Watching(r, c, ws, n) && r.env.calls[c].removals == s.env.calls[c].removals
    decreases n
  {
    if n == 0 {
      assert ws[..0] == [];
    } else {
      hide Pass, Stalled, FirstSending, Reading;
      var r := Passes(s, c, ws[..n - 1]);
      GivesUpExactly(s, c, ws, n - 1);
      assert ws[..n] == ws[..n - 1] + [ws[n - 1]];
      PassesAppend(s, c, ws[..n - 1], ws[n - 1]);
      FailsOneMore(ws, n);
      if Fails(ws, n - 1) {
        PassAfterwards(r, c, ws[n - 1], s.env.calls[c].removals + 1);
      } else {
        PassWhileWatching(r, c, ws, n - 1);
      }
    }
  }

  /** Never while every window shows new packets: the watchdog is still armed, the call not
      given up, and nothing was removed. */
  lemma {:induction false} NeverWhileRising(s: State, c: int, ws: seq<Window>)
    requires JustArmed(s, c) && AllSend(ws)
    requires forall i | 0 <= i < |ws| :: Rises(ws[i].Read(), Highest(ws, i))
    ensures var r := Passes(s, c, ws);
            && r.watch == Timer(true, c) && r.latch != c
            && Watchdog in r.env.heap && r.env.heap[Watchdog] == r.env.now + WATCHDOG_MSEC
            && c in r.env.calls && r.env.calls[c].removals == s.env.calls[c].removals
  {
    hide Passes, Rises, Highest;
    assert ws[..|ws|] == ws;
    GivesUpExactly(s, c, ws, |ws|);
  }

  /** And never late: once a window after the first shows no new packets the call has been
      given up, however the windows before it and after it look. */
  lemma NeverLate(s: State, c: int, ws: seq<Window>, i: nat)
    requires JustArmed(s, c) && AllSend(ws)
    requires 0 < i < |ws| && !Rises(ws[i].Read(), Highest(ws, i))
    ensures GaveUp(Passes(s, c, ws), c, s.env.calls[c].removals + 1)
  {
    hide Passes, Rises, Highest;
    assert ws[..|ws|] == ws;
    assert Stalled(ws, i);
    GivesUpExactly(s, c, ws, |ws|);
  }

  /** The counter that is read is that of the stream that should be sending exactly when
      no active video stream that does not send comes before it. */
  lemma ReadsTheSendingStream(media: seq<Media>)
    requires FirstSending(media) < |media|
    ensures FirstActive(media) <= FirstSending(media)
    ensures FirstActive(media) == FirstSending(media) <==> media[FirstActive(media)].encoding
  {
    var i := FirstSending(media);
    assert media[i].IsVideo();
  }

  /** Negotiating a sending stream arms the watchdog, afresh, exactly when the call's video
      was not given up; that starts such a run if the call is established, and otherwise
      the timer lapses unless the call is established before it is due. */
  lemma ArmingStartsARun(s: State, c: int, media: seq<Media>, reportOk: bool, infoOk: bool, statOk: bool, schedOk: bool)
    requires TimersAgree(s) && c in s.env.calls && FirstSending(media) < |media|
    ensures var r := Step(s, MediaChange(c, media, true, reportOk));
            && (if c == s.latch then !r.watch.scheduled && Watchdog !in r.env.heap
                else r.watch == Timer(true, c) && r.seen == 0 && r.stalls == 0 && Watchdog in r.env.heap
                     && r.env.heap[Watchdog] == s.env.now + WATCHDOG_MSEC)
            && (JustArmed(r, c) <==> c != s.latch && s.env.calls[c].state.Confirmed?)
            && (!s.env.calls[c].state.Confirmed? ==>
                  var later := Step(Step(r, Tick(WATCHDOG_MSEC)), Fires(Watchdog, infoOk, statOk, schedOk));
                  !later.watch.scheduled && Watchdog !in later.env.heap && later.latch == s.latch)
  {
    var s' := s.(env := SetCall(s.env, c, s.env.calls[c].(media := media)));
    var armed := ArmWatch(s', c, media, true);
    var r := Step(s, MediaChange(c, media, true, reportOk));
    assert r == ArmReport(armed, c, reportOk);
    ReportLeavesWatch(armed, c, reportOk);
    if !s.env.calls[c].state.Confirmed? {
      Lapses(r, c, infoOk, statOk, schedOk);
    }
  }

  lemma ReportLeavesWatch(s: State, c: int, ok: bool)
    ensures var r := ArmReport(s, c, ok);
            && r.watch == s.watch && r.latch == s.latch && r.seen == s.seen && r.stalls == s.stalls
            && r.env.calls == s.env.calls && r.env.now == s.env.now
            && (Watchdog in r.env.heap <==> Watchdog in s.env.heap)
            && (Watchdog in s.env.heap ==> r.env.heap[Watchdog] == s.env.heap[Watchdog])
  {
  }

  /** A watchdog that fires for a call not established is not armed again. */
  lemma Lapses(s: State, c: int, infoOk: bool, statOk: bool, schedOk: bool)
    requires c in s.env.calls && !s.env.calls[c].state.Confirmed?
    requires if Watchdog in s.env.heap then s.watch.call == c && s.env.heap[Watchdog] <= s.env.now + WATCHDOG_MSEC
             else !s.watch.scheduled
    ensures var r := Step(Step(s, Tick(WATCHDOG_MSEC)), Fires(Watchdog, infoOk, statOk, schedOk));
            !r.watch.scheduled && Watchdog !in r.env.heap && r.latch == s.latch
  {
  }

  /** With at most one active video stream, which is what the module answers offers with,
      the counter read is that of the stream that sends. */
  lemma OneStreamIsRead(media: seq<Media>)
    requires FirstSending(media) < |media|
    requires forall i, j | 0 <= i < |media| && 0 <= j < |media| && media[i].IsVideo() && media[j].IsVideo() :: i == j
    ensures Reading(media, true) == Some(media[FirstSending(media)].tx)
  {
    ReadsTheSendingStream(media);
  }

  /** In a library that activates two, a stream that sends all the time is given up on, if an
      idle one precedes it: a call is set up, established, and negotiates both. */
  lemma WrongStreamGivesUp(c: int, a: nat, b: nat)
    requires c >= 0 && 0 < a < b
    ensures var idle := Media(Video, true, false, 0);
            var up := Step(Step(Start(), Dial(Some(c))), StateChange(c, Confirmed, true));
            var s := Step(up, MediaChange(c, [idle, Media(Video, true, true, 0)], true, true));
            var ws := [Window([idle, Media(Video, true, true, a)], true, 0),
                       Window([idle, Media(Video, true, true, b)], true, 0)];
            GaveUp(Passes(s, c, ws), c, 1)
  {
    var idle := Media(Video, true, false, 0);
    var up := Step(Step(Start(), Dial(Some(c))), StateChange(c, Confirmed, true));
    assert up.env.calls == map[c := Call(Confirmed, [], 0, 0, 0, 0)] && up.latch != c && up.env.heap == map[];
    var media := [idle, Media(Video, true, true, 0)];
    assert media[1].IsSending();
    var s := Step(up, MediaChange(c, media, true, true));
    ArmingStartsARun(up, c, media, true, true, true, true);
    assert s.env.calls == map[c := Call(Confirmed, media, 0, 0, 0, 0)];
    IdleStreamFirst(s, c, a, b);
  }

  lemma IdleStreamFirst(s: State, c: int, a: nat, b: nat)
    requires JustArmed(s, c) && 0 < a < b
    ensures var idle := Media(Video, true, false, 0);
            var ws := [Window([idle, Media(Video, true, true, a)], true, 0),
                       Window([idle, Media(Video, true, true, b)], true, 0)];
            GaveUp(Passes(s, c, ws), c, s.env.calls[c].removals + 1)
  {
    var idle := Media(Video, true, false, 0);
    var ws := [Window([idle, Media(Video, true, true, a)], true, 0),
               Window([idle, Media(Video, true, true, b)], true, 0)];
    assert forall i | 0 <= i < 2 :: FirstSending(ws[i].media, 1) == 1 && FirstSending(ws[i].media) == 1;
    assert ws[0].Read() == Some(0) && ws[1].Read() == Some(0);
    assert Highest(ws, 1) == 0 && Stalled(ws, 1);
    assert Fails(ws, 2) && ws[..2] == ws;
    GivesUpExactly(s, c, ws, 2);
  }
}
