# pjsocky: a verified model of the control channel and of call supervision

pjsocky is a SIP call daemon driven over a Unix socket by newline-delimited JSON. The SIP work is
done by pjsua-lib. This project models the two parts of pjsocky's own code that hold state, and
proves what they keep.

**The control channel.**

| file | models |
|---|---|
| `Lines.dfy` | newline framing as a law about byte streams, and reading in arbitrary chunks |
| `LineWindow.dfy` | the fixed 8192-byte window: fill at the end, cut at the front, in place |
| `Sending.dfy` | partial sends under a deadline |
| `Json.dfy`, `JsonMeaning.dfy` | JSON values, their printings, and compaction in place |
| `Messages.dfy` | value to wire to line to value |
| `Dispatch.dfy`, `Connection.dfy` | one line to one outcome; the request loop of a connection |
| `Writers.dfy` | server thread and callback threads sharing one connection under one lock |
| `Session.dfy` | both in one step system: what a client reads of what the server thread says, among the events |
| `Server.dfy` | the select loop over a whole run: sockets, pools, and the connections served one after the other |

**Call and account supervision.**

| file | models |
|---|---|
| `Calls.dfy` | the call module as a state machine over the library's call table and timer heap |
| `CallModule.dfy` | the static variables and the callbacks that update them, over whole histories |
| `CallRuns.dfy`, `WatchdogRuns.dfy`, `Coverage.dfy` | what every run keeps, and exactly which steps let go of it |
| `CallEffects.dfy` | what each entry point means for the runs after it |
| `Account.dfy` | the account slot, the registration flag, the capture device selection |
| `VideoSize.dfy` | the `WxH` and frame rate parsers |
| `Pjsua.dfy`, `Options.dfy` | the library's invalid ids; optional values |

Bytes are modelled as `char`; every statement holds for all characters, the 256 byte values among
them. What is not pjsocky's own code is a parameter ranged over by every statement: how many bytes
a send or a receive moves, when the clock advances, which library calls fail, what the parser
makes of a line, what a command handler answers, in which order callbacks arrive. In the step
systems (`Writers`, `Session`, `Calls`) an action that is not enabled changes nothing, so a run is any
sequence of actions.

## Assumptions

- The clock advances by at least a millisecond between one refused send and the next, and
  `select()` waits no longer than it is told to.
- The JSON printer, when it succeeds, adds whitespace only around tokens, escapes quotes,
  backslashes and control characters as sections 2 and 7 of RFC 8259 require, and reports a length
  below the scratch size.
- A callback, and a timer's leaving the heap together with its callback, is one atomic step.
  Setting up an outgoing call and storing its id is one step too.
- The library may call back on the server thread before a command returns, as it does when it
  dials. The events pushed then are part of what a handler does, ahead of its response; what the
  callback does to the call module is a step of its own, after the command's.
- Texts given to the size and frame rate parsers contain no NUL character, and an unsigned long
  holds more than 8192.
- The library gives a new call an id that is free and not negative, reports a call's state to
  `on_call_state` before the id is free again, and knows no account or device by its invalid id.

## What the code does not promise

Where a stronger statement is false of the code, the exact condition is proved instead, with a
concrete run that shows the failure unless the condition itself does.

- `docs/PROTOCOL.md` rejects lines "longer than 8192 bytes"; the code rejects a line of exactly
  8192 bytes as well (`Lines.GetsThroughIff`).
- The comment on `send_all` measures the deadline "across the whole message"; a line and its
  newline are sent under a deadline each. One deadline covers both exactly when the line did not
  have to wait, or failed, or its newline is not refused with time left
  (`Sending.OneDeadlineIff`). Otherwise a message can wait for two timeouts less two milliseconds
  (`Sending.OneMessageTwoDeadlines`), which is never exceeded (`Sending.WriteLineBounded`) and is
  longer than one timeout from three milliseconds on (`Sending.LongerThanTheTimeoutIff`).
- `docs/PROTOCOL.md` and a comment in `open_conn` say nothing can precede `hello`; that holds of
  every run exactly when there is no callback thread (`Writers.HelloLeadsIff`). With one, an event
  can come first (`Writers.EventMayPrecedeGreeting`), and `hello` goes on leading exactly until one
  does (`Writers.StepKeepsHello`). No response can (`Writers.GreetingLeads`).
- A push that fails half-way leaves the connection open, and the next message is read as part of
  the torn one (`Writers.FailedPushCorruptsTheNext`); the wire is well-formed exactly when no
  write to it failed half-way (`Writers.WiresOfEveryRun`).
- `dispatch.h` says the caller should close the connection on a line without a usable id; the
  server reports it and carries on, as `docs/PROTOCOL.md` has it (`Connection.OneOutcomePerLine`).
- `docs/PROTOCOL.md` has an unanswered call rejected after the ring timeout. There is one ring
  timer, and a call that arrives later takes it: the first is then never rejected
  (`CallEffects.LaterArrivalTakesTheTimer`). A call that goes on ringing is rejected exactly once
  if no other took the timer before and the callback could get its details, and not at all
  otherwise (`CallEffects.UnansweredIsRejected`).
- A comment has the watchdog "armed while a call has a sending video stream", and another the media
  report running "for the length of every established call". Armed in early media, either can lapse
  before the call is established, which then goes unwatched or unreported, with one call and every
  callback delivered (`Coverage.EarlyMediaLeavesUnwatched`, `Coverage.EarlyMediaLeavesUnreported`).
  `Coverage.StepKeepsWatch` and `Coverage.StepKeepsReport` give exactly the steps that leave a call
  uncovered.
- A dial that fails while a call is up makes the daemon forget that call, although there never was
  more than one (`CallRuns.FailedDialForgetsTheCall`); `CallRuns.StepKeepsTrack` gives exactly the
  steps that lose track.
- A device error that arrives after its call has ended is charged to the next call with the same
  id, whose video is then never watched (`CallRuns.LateErrorBlindsTheNextCall`), and with two
  calls up one call's video can be removed twice (`CallRuns.TwoCallsRemoveTwice`);
  `CallRuns.StepKeepsRemovals` gives exactly the steps that break the account of removals.
- The watchdog reads the counter of the first active video stream, which is the one that sends
  exactly if no idle one precedes it (`WatchdogRuns.ReadsTheSendingStream`). With at most one active
  video stream, which is all that this module asks the library for when it answers an offer, that is
  so (`WatchdogRuns.OneStreamIsRead`). A library that activates two makes it give up on a stream that
  sends all the time (`WatchdogRuns.WrongStreamGivesUp`).
- `device.set_video` succeeds even when the account's stored device could not be updated; the two
  then agree exactly as the contract of `Account.Slot.SetVideoCapture` says.

## Model

| member | source | states |
|---|---|---|
| Lines.RecvCount | src/proto/framing.c:117-131 | a receive never overfills the window, and takes nothing only if nothing is there or no room is left |
| Lines.CutIsUnique | src/proto/framing.c:134-166 | a stream has one reading: lines of at most 8191 bytes, then a short tail or 8192 bytes without a newline |
| Lines.GetsThroughIff | src/proto/framing.c:141-150 | a line is handed out iff it has at most 8191 bytes; otherwise framing stops there |
| Lines.CutAfterLines | src/proto/framing.c:150-166 | lines that fit always get through, in order, whatever follows them |
| Lines.CutResumes | src/proto/framing.c:95-166 | cutting can be resumed from the unfinished tail with the bytes received next |
| Lines.CutStopsAtTooBig | src/proto/framing.c:141-148 | after an oversized line nothing that follows is ever read as a message |
| Lines.ReadInStep | src/proto/framing.c:95-166 | after any receives of any sizes, exactly the lines of the bytes consumed have been handed out |
| Lines.ChunkingIndependence | src/proto/framing.c:95-166 | two runs over one stream that read it all, or stop, deliver the same lines and end alike, whatever the chunks |
| Lines.ReadingFinishes | src/proto/server.c:306-343 | every wake-up with bytes waiting makes progress, so reading never stalls |
| LineWindow.Window.constructor | src/proto/framing.c:10-17 | a new window holds nothing |
| LineWindow.Window.Fill | src/proto/framing.c:95-132 | moves the unread bytes to the front and appends exactly what was received; which status each arrival gives |
| LineWindow.Window.FindInWindow | src/proto/framing.c:138-139 | finds the first newline of the window |
| LineWindow.Window.ExtractLine | src/proto/framing.c:134-166 | hands out a place in the buffer, changes only the line's own newline byte, and leaves a window behind it |
| Sending.SendRunKeeps | src/proto/framing.c:45-90 | from any point of the loop: bytes sent and clock only grow, waiting is paid for by the deadline, done iff all is sent |
| Sending.SendAllMeetsDeadline | src/proto/framing.c:37-93 | success iff everything is on the wire; every wait, set to the remaining time, is to end at the deadline, and all of them together last less than the timeout |
| Sending.StopsExactly | src/proto/framing.c:45-92 | gives up at the first attempt that does not go on, for the reason reported, or with the deadline over and not before; an interrupted wait goes on |
| Sending.WillingTakesAll | src/proto/framing.c:45-54 | a kernel that always takes something gets everything, in no time, and in one attempt if it takes it all at once |
| Sending.WriteLineBounded | src/proto/framing.c:168-179 | success iff the line and its newline are on the wire; all waits together last at most two timeouts less two milliseconds |
| Sending.OneDeadlineIff | src/proto/framing.c:28-36 | no wait of a line ends after the line's own deadline iff the text failed or did not wait, or the newline is not refused with time left |
| Sending.OneMessageTwoDeadlines | src/proto/framing.c:168-179 | for every timeout from 2 ms on, a one-byte message can wait for two timeouts less two milliseconds and still succeed |
| Sending.LongerThanTheTimeoutIff | src/proto/framing.c:59-89 | a message can wait longer than the timeout and succeed iff the timeout is at least 3 ms |
| Sending.Socket.SendBuffer | src/proto/framing.c:37-93 | the loop over partial sends puts exactly the accounted prefix of the buffer on the wire, and takes the accounted time |
| Sending.Socket.WriteOneLine | src/proto/framing.c:168-179 | appends a prefix of the line and newline to the wire, all of it iff it reports success; clock and kernel are as accounted |
| Json.CompactInPlace | src/proto/framing.c:189-223 | two indices over one buffer give the scan of the original text and leave the rest of the buffer alone |
| Json.ScanTwice | src/proto/framing.c:189-223 | compacting is idempotent on every text, from any scanner state |
| Json.CompactionYieldsRendering | src/proto/framing.c:181-223 | every printing of a value compacts to its whitespace-free rendering |
| Json.RenderingIsOneLine | src/proto/framing.c:181-188 | that rendering contains no newline |
| JsonMeaning.TextUnique | src/proto/framing.c:181-188 | a rendering, followed by a delimiter or nothing, determines the value |
| JsonMeaning.CompactionPreservesMeaning | src/proto/framing.c:181-223 | two printings compact to the same bytes iff they print the same value |
| Messages.WriteJson | src/proto/framing.c:225-241 | puts a prefix of the compacted line on the wire, nothing when the printer fails, and reports which; clock and kernel are as accounted |
| Messages.SendMessages | src/proto/server.c:287-298 | messages written one after the other until one fails put on the wire what `Messages.EndToEnd` is about |
| Messages.MessageFits | src/proto/framing.c:234-238 | a message printed below the scratch size compacts to a line every reader accepts |
| Messages.SentIsWire | src/proto/framing.c:168-241 | until the first failure the wire is the whole messages, and then a beginning of the one that failed, nothing if the printer refused it |
| Messages.StopsAtFirstFailure | src/proto/framing.c:225-241 | messages are written up to the first that cannot be printed or whose line the kernel does not take whole, no further and no less |
| Messages.EverythingGetsOut | src/proto/framing.c:95-241 | over a kernel that always takes something the reader gets every message that can be printed |
| Messages.EndToEnd | src/proto/framing.c:95-241 | for all values, printings and refusals to print, splits of the sends and of the receives: the reader gets exactly the renderings written whole, in order |
| Messages.ReaderRecoversValues | src/proto/framing.c:181-188 | equal lines carry equal values |
| Dispatch.FindMember | src/proto/jsonutil.c:5-19 | returns the member of that name that no other precedes, and nothing iff there is none |
| Dispatch.FindCommand | src/proto/dispatch.c:584-593 | the table search returns the first entry of that name, or the table's length |
| Dispatch.EveryCommandReachable | src/proto/dispatch.c:561-582 | no table entry is shadowed by another |
| Dispatch.DispatchLine | src/proto/dispatch.c:640-713 | the dispatcher gives the response, and leaves the state, that the request protocol defines |
| Dispatch.ResponseEnvelope | src/proto/dispatch.c:656-713 | a response exists iff the line has a string id, echoes it, and has a result iff ok and an error iff not |
| Dispatch.ErrorCodes | src/proto/dispatch.c:627-697 | which error code is sent, iff which condition holds of the request and of the handler's status |
| Dispatch.HandlerDecides | src/proto/dispatch.c:676-713 | a request that reaches its handler gets the handler's events, its result or its failure with its message, and leaves the state the handler left |
| Dispatch.OnlyRequestsAct | src/proto/dispatch.c:656-676 | a line without a usable id or a known command changes nothing |
| Connection.OneOutcomePerLine | src/proto/server.c:261-299 | each line gets, right after what the lines before it got, the events of its own handler and then one response with its id and the handler's result or failure, or one bad_request event alone |
| Connection.AnswersAreSteady | src/proto/server.c:321-342 | answers already given do not depend on the lines that follow |
| Connection.TranscriptShape | src/proto/server.c:228-343 | a transcript has one hello, at its beginning, and one complaint about length, at its end, iff a line was oversized |
| Connection.StreamArrives | src/proto/server.c:306-343 | enough wake-ups bring a whole stream across |
| Connection.Conn.constructor | src/proto/server.c:228-240 | a connection starts greeted and with every line received answered |
| Connection.Conn.HandleLine | src/proto/server.c:270-299 | says the events of the line's handler and then its one answer; only a response that fails to go out drops the connection |
| Connection.Conn.NextLine | src/proto/server.c:325-327 | a line handed out leaves all earlier ones intact in the buffer |
| Connection.Conn.Drain | src/proto/server.c:321-342 | answers every complete line in order and stops drained, oversized or on a lost response |
| Connection.Conn.Serve | src/proto/server.c:359-404 | over any number of wake-ups, however they split the stream: what is said is the stream's transcript, up to a lost response; kept iff there is none and no line is oversized |
| Connection.Conn.HandleConnInput | src/proto/server.c:306-343 | the transcript is that of the bytes consumed, which are those of the arrivals; kept iff the peer is there, no line is oversized and no response was lost, now and ever before; all lines handed out survive until the next fill |
| Writers.WiresOfEveryRun | src/proto/events.c:53-120 | in every interleaving a wire is whole messages in lock order and at most the lock holder's unfinished one, iff no write to it failed half-way |
| Writers.SendersAreSafe | src/proto/events.c:43-120 | whoever sends is alone, holds the lock, and writes to the open socket of the registered connection |
| Writers.GreetingLeads | src/proto/server.c:230-240 | at most one hello, and before it no response and no event of a command, on every connection whose hello did not fail |
| Writers.NothingReachesFinished | src/proto/server.c:250-259 | once unregistered, a socket's wire never changes again in any run |
| Writers.ClosedIsFinished | src/proto/server.c:252-258 | a closed or just unregistered socket is in that position |
| Writers.RefusalIsElsewhere | src/proto/server.c:161-205 | refusing happens only beside a connection and leaves its wire alone |
| Writers.RefusalIsANotice | src/proto/server.c:176-204 | in every run a refused client is sent the beginning of its notice and nothing else, and all of it can be sent, and the socket closed, with nothing else touched |
| Writers.ClosingCompletes | src/proto/server.c:250-259 | dropping a connection unregisters it, closes its socket and changes nothing else |
| Writers.WriteGoesOut | src/proto/events.c:62-73 | with the lock free, a thread that waits to write can put its whole message on wire and log and let go |
| Writers.ReaderSeesLog | src/proto/events.c:113-119 | the reader of a wire gets exactly the messages written whole, in lock order, iff no write to it failed half-way |
| Writers.OneSocketPerMessage | src/proto/server.c:228-230 | from a message's first byte to its last the framing object stays the same open connection's, whatever runs in between |
| Writers.HelloLeadsIff | src/proto/server.c:232-238 | hello comes first on every greeted connection of every run iff there are no callback threads |
| Writers.StepKeepsHello | src/proto/events.c:92-113 | hello leads after a step as before it iff the step is not a callback thread's completing a push on a connection with nothing written yet |
| Writers.HelloLeadsInRun | src/proto/server.c:230-240 | hello leads at the end of every run without such a step |
| Writers.EventMayPrecedeGreeting | src/proto/server.c:230-238 | with any number of callback threads, a run in which an event precedes hello |
| Writers.FailedPushCorruptsTheNext | src/proto/events.c:113-119 | a run in which a torn event and the next one are read as one line |
| Session.StepServerPart | src/proto/events.c:53-120 | a step adds to the server thread's part of a log exactly the message the server thread has just got out whole |
| Session.StepKeepsFit | src/proto/server.c:261-343 | whatever any thread does, the server thread's messages are the first of its connection's transcript, in order, one at a time, nothing follows a lost response, and its part of the log is what got out |
| Session.SpeakGoesOn | src/proto/server.c:228-240 | a server thread that is free can always begin the next message of the transcript, hello exactly on a connection not yet greeted |
| Session.MessageGetsOut | src/proto/server.c:287-299 | the message that is due can be written whole, leaving the server thread free |
| Session.TranscriptGetsOut | src/proto/server.c:321-343 | whatever the client sends next, a run gets out all that its transcript then holds |
| Session.ClientSeesTranscript | src/proto/server.c:261-299 | over every interleaving, the lines a client reads are, events of callback threads apart, the transcript of what it sent so far, less what failed; nothing after a lost response |
| Server.Loop.constructor | src/proto/server.c:361-365 | the loop starts with no connection, nothing registered and nothing held |
| Server.Loop.CloseConn | src/proto/server.c:250-259 | gives back the socket and the pool, each once, with nothing registered, and keeps the daemon's state |
| Server.Loop.OpenConn | src/proto/server.c:207-242 | serves the socket iff it could be set up, and otherwise closes it; registered iff active |
| Server.Loop.RefuseConn | src/proto/server.c:169-205 | closes the newcomer and keeps the connection being served |
| Server.Loop.ConnReady | src/proto/server.c:398-404 | the arrival is handled, and the connection served on iff that does not drop it: peer gone, line oversized or response lost |
| Server.Loop.ServeReady | src/proto/server.c:398-404 | a connection that is served and ready gets its input, and nothing else does |
| Server.Loop.TakeArrival | src/proto/server.c:406-421 | a socket that arrives is refused iff a connection is still served, and otherwise served iff it can be set up |
| Server.Loop.Pass | src/proto/server.c:367-422 | first the connection, then the arrival; goes on iff select and accept worked |
| Server.Loop.Run | src/proto/server.c:359-428 | every pass was run, until one failed or the end; every socket was closed once, every pool released once, nothing is registered; every connection got the input of the passes while it was served, said the transcript of that up to a lost response and nothing else, was dropped by the first arrival that drops it or closed at the end, and found the daemon's state as the one before left it |
| Server.EnoughWakeups | src/proto/server.c:306-343 | a connection that got a wake-up for every byte of its client's stream said the whole transcript of the stream, up to a lost response |
| Calls.StepKeepsTimers | src/call.c:187-213 | in any state, any action keeps each flag equal to its entry's presence in the heap and re-initialises no queued entry |
| Calls.TimersOfEveryRun | src/call.c:500-709 | the same, and that the armed watchdog is not the given-up call's, over every run |
| Calls.StepKeepsLatchApart | src/call.c:521-531 | no action arms the watchdog for the call whose video was given up |
| CallRuns.StepKeepsRing | src/call.c:177-213 | a ring timer names a ringing call with its own due time, a 480 hits such a call only when due; broken exactly by that call moving on unnoticed |
| CallRuns.RingOfEveryRun | src/call.c:423-429 | the same over every run without lost callbacks |
| CallRuns.StepKeepsCurrentLive | src/call.c:433-435 | a valid current-call id names a live call |
| CallRuns.StepKeepsTrack | src/call.c:278-281 | the current call is exactly the live one after a step iff the step is not one of those that lose track |
| CallRuns.TrackOfEveryRun | src/call.c:922 | runs without such steps end tracking the call |
| CallRuns.HangupAllReachesTheCall | src/call.c:296-304 | while tracked, exactly the live calls are asked to hang up |
| CallRuns.FailedDialForgetsTheCall | src/call.c:278-282 | a run in which a failed dial leaves a live call out of reach |
| CallRuns.StepKeepsArmedLive | src/call.c:438-439 | armed watchdog and report belong to live calls, broken exactly by an unnoticed end |
| CallRuns.StepKeepsRemovals | src/call.c:521-553 | removals asked for a call are one while the latch holds it plus one per time it was displaced, broken exactly by the two ways to strand the latch |
| CallRuns.GiveUpIsOneShot | src/call.c:508-553 | over every single-call run a call's video is removed at most once, and exactly when the latch names the call |
| CallRuns.TwoCallsRemoveTwice | src/call.c:527-530 | a run with two calls in which one call's video is removed twice |
| CallRuns.LateErrorBlindsTheNextCall | src/call.c:867-883 | a run in which a late device error keeps the next call's video from being watched |
| CallRuns.EveryRun | src/call.c:187-213 | from the start: what holds in every run, in those with no lost callback, in those with one call at a time, and in those that never lose track |
| CallEffects.TimeoutChangeIsForLater | src/call.c:177-180 | over every run without arrivals, setting the ring timeout first or last comes to the same |
| CallEffects.ArrivalArms | src/call.c:922-943 | an arriving call becomes the current one and takes the ring timer iff there is a timeout and it can be looked up, due when the timeout has passed |
| CallEffects.TimeoutRejects | src/call.c:177-213 | from setting the timeout to the rejection: a call that arrives later, rings that long and is not deprived of the timer is rejected exactly once, and never with no timeout |
| CallEffects.StepRejects | src/call.c:195-213 | the only rejection any step makes is of the call the due ring timer is armed for, if it rings and can be looked up |
| CallEffects.OnlyRingingIsRejected | src/call.c:203-209 | in no run, lost callbacks included, is a call rejected that is not ringing |
| CallEffects.RingingCallKeepsItsTimeout | src/call.c:930-943 | whatever is set and whoever arrives meanwhile, a call's timer and its rejection go by the timeout in force when it arrived |
| CallEffects.UnansweredIsRejected | src/call.c:195-213 | over every run, a call that goes on ringing until its time is up has been rejected exactly once if no arrival took the timer and it could be looked up when the timer fired, and otherwise not at all |
| CallEffects.AnsweredIsLeftAlone | src/call.c:420-429 | a call that was answered or ended is never rejected afterwards, in any run without a new arrival under its id |
| CallEffects.LaterArrivalTakesTheTimer | src/call.c:930-936 | a call ringing when an arrival takes the timer is never rejected, in any run without a new arrival under its id |
| CallEffects.CancelledNeverFires | src/call.c:500-506 | after cancelling any of the three timers every run goes as if it never fired, until it is armed again; the others are left alone |
| CallEffects.WaitsInRun | src/call.c:581-582 | watchdog and report do nothing before their delay is over, whatever re-arms them |
| CallEffects.NeverWithinAWindow | src/call.c:609-610 | in no run without a device error is video given up within three seconds of being negotiated or of the watchdog's letting it be |
| CallEffects.RepeatedErrorsCostNothing | src/call.c:867-884 | any number of device errors of a call come to the same as one |
| CallEffects.EndOfCallStartsOver | src/call.c:431-440 | the end of the only call leaves no timer, and no current or given-up call iff those were that one |
| WatchdogRuns.PassWhileWatching | src/call.c:596-610 | one window gives up iff it is stalled, and otherwise remembers the highest counter seen and starts a whole new window |
| WatchdogRuns.GivesUpExactly | src/call.c:577-611 | over every sequence of readings the watchdog gives up at exactly the first stalled window, once |
| WatchdogRuns.NeverWhileRising | src/call.c:596-601 | after windows that all show new packets the call is still watched, and nothing was removed |
| WatchdogRuns.NeverLate | src/call.c:602-606 | once a window after the first shows no new packets the video has been removed, once, whatever the other windows show |
| WatchdogRuns.ArmingStartsARun | src/call.c:687-709 | negotiating a sending video stream arms a fresh watchdog iff the call was not given up; it counts iff the call is established, and otherwise lapses when due |
| WatchdogRuns.ReadsTheSendingStream | src/call.c:342-354 | the counter read is the sending stream's iff no other active video stream precedes it |
| WatchdogRuns.OneStreamIsRead | src/call.c:826-829 | with at most one active video stream, the counter read is the sending stream's |
| WatchdogRuns.WrongStreamGivesUp | src/call.c:593-603 | with two active video streams, a run from the start in which one that sends all the time is given up on |
| Coverage.StepKeepsWatch | src/call.c:41-45 | every established, sending call not given up stays watched after a step iff the step is not one of those listed |
| Coverage.StepKeepsReport | src/call.c:55-57 | every established call stays reported on after a step iff the step is not one of those listed |
| Coverage.ReportGoesOn | src/call.c:663-664 | the report of an established call fires every five seconds, over any number of intervals |
| Coverage.CoverageOfEveryRun | src/call.c:785-804 | runs without such steps end with both |
| Coverage.EarlyMediaLeavesUnwatched | src/call.c:589-594 | a run with one call and every callback delivered that leaves it unwatched |
| Coverage.EarlyMediaLeavesUnreported | src/call.c:639-642 | the same history leaves it unreported |
| CallModule.Supervisor.FindSendingVideo | src/call.c:482-498 | finds the active video stream meant to send that no other precedes, iff there is one |
| CallModule.Supervisor.GetTxPackets | src/call.c:328-357 | reads the counter of the active video stream that no other precedes, and fails iff there is none or the query fails |
| CallModule.Supervisor.Perform | src/call.c:187-947 | callback by callback the module steps as `Calls` does, so that what is proved of every step there is true of it |
| CallModule.Supervisor.RunAll | src/call.c:187-947 | a whole history steps as a run of `Calls` does, so that what is proved of every run is true of the module |
| CallModule.Supervisor.History | src/call.c:187-947 | every history ends with flags and heap in agreement and no queued timer re-initialised; with timers, rejections and current call in order if no callback was lost; one removal per call with one call at a time; the live call tracked if no step lost it |
| CallModule.Supervisor.Dial | src/call.c:231-286 | reaches the library iff an account exists and is registered; then the call placed is the current one, or none is |
| CallModule.Supervisor.StatusGet | src/proto/dispatch.c:87-117 | fails iff there is an account without details; while the call is tracked, in_call iff an account and a live call both exist; when the other states are reported |
| Account.HundredsAre2xx | src/account.c:219 | dividing the status as C does singles out 200 to 299 |
| Account.TraceGrows | src/account.c:78-88 | how each event changes whether an account exists and was last registered |
| Account.Slot.constructor | src/account.c:75-88 | no account, not registered |
| Account.Slot.ResolveDefault | src/account.c:23-73 | the selection, else the first device that can capture, else none |
| Account.Slot.Configure | src/account.c:100-150 | adds the account only to an empty slot, not registered, with the selected device or else the first that can capture |
| Account.Slot.SetRegistration | src/account.c:152-166 | asking changes nothing, and needs an account |
| Account.Slot.Remove | src/account.c:168-191 | succeeds iff an account exists, its last completed callback was not a 2xx REGISTER, and the library agrees |
| Account.Slot.OnRegState | src/account.c:208-223 | the flag stays true iff the account's last completed callback was a 2xx REGISTER |
| Account.Slot.MayDialWhenRegistered | src/call.c:238-239 | a dial gets through iff the account exists and was last registered |
| Account.Slot.SetVideoCapture | src/device.c:76-151 | accepts exactly devices that can capture; afterwards selection and account agree iff the update went through, was not needed, or changed nothing |
| VideoSize.StrToUl | src/main.c:275-277 | takes all digits there are and clamps their value to the largest unsigned long, of any width |
| VideoSize.ParseSize | src/main.c:267-290 | accepts exactly digits, x or X, digits with both values in 1..8192, and returns them |
| VideoSize.ParseFps | src/main.c:292-304 | accepts exactly a whole number in 1..240 |
| VideoSize.PrintedSizesParse | src/main.c:267-290 | the printed form of every legal size means that size |

## Left out

- pjsua and pjmedia: SIP signalling, RTP, codecs and devices are the environment.
- The command handlers: each is an arbitrary function of the request, its ordinal on the connection and the daemon's state; only `status.get` is modelled.
- JSON parsing and number formatting: the parser is an arbitrary function from lines to elements.
- `events.c` as a sequential object: it appears as the step system `Writers`, in which its interleavings are the point.
- The event and error-event pools inside `events.c` other than the one of the greeting: they are released in the call that creates them.
- Socket creation, permissions, signals, logging, environment variables, name servers and applying the video format to the codecs: input and output only.
- `src/im.c`, `src/null_video_dev.c`, `src/proto/version.c`: field copying and library vtables.
- `on_call_rx_offer`, the capture device change on a live call and the audio bridge connections: they change no state of this module. A far end can therefore offer video again after it was given up.
- WatchdogRuns.GivesUpExactly: is about intervals in which the call can be looked up and the timer rescheduled; what happens otherwise is `Coverage.StepKeepsWatch`.
- Concurrent callbacks racing inside one callback, and a timer dequeued before its cancellation: steps are atomic.
- Packet counters wrap at 32 bits: a wrapped counter reads as one that did not rise, and the watchdog's statements are about the values read.
- Server.Loop.Run: takes from outside whether each write of the server thread succeeds; what the writes put on the wire is `Messages` and `Writers`.
- Session.ClientSeesTranscript: how a message becomes a text, and the daemon's state when a connection is taken up, are parameters; that each connection finds the state the one before left is `Server.Loop.Run`.
- Connection.Conn.Serve: reads one stream; wake-ups that bring nothing or fail are in `Connection.Conn.HandleConnInput`.
- Messages.EndToEnd: covers a writer that stops at its first failed write, as the server does for responses. Events go on after a failed push; `Writers.ReaderSeesLog` covers them while no write has failed half-way, and `Writers.FailedPushCorruptsTheNext` shows that nothing more holds.
