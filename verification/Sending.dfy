/** Writing to a non-blocking socket: partial sends under a deadline. */
module Sending {

  /** How the wait for writability ends. */
  datatype Wake = Writable | Interrupted | Expired | SelectFailed

  /** What the kernel makes of one send(): it takes up to `n` bytes (none at all if
      `n` is 0), refuses for want of room, or fails.  On a refusal the clock is read
      `lag + 1` milliseconds after it was last known, and the wait then lasts `slept`
      milliseconds, or until its own limit if that comes first or it is what ends it. */
  datatype Attempt = Took(n: nat) | Full(lag: nat, slept: nat, wake: Wake) | SendFailed

  /** The kernel's behaviour over the attempts to come. */
  type Kernel = nat -> Attempt

  datatype Status = Success | ClosedByPeer | TimedOut | IoError

  /** When a wait began, and when it is to end at the latest. */
  datatype Wait = Wait(begin: nat, limit: nat)

  /** `sent` bytes reached the wire, with these waits on the way; `waited` is the time
      spent in them. */
  datatype Outcome = Outcome(status: Status, sent: nat, clock: nat, attempts: nat, waited: nat, waits: seq<Wait>)

  /** What send_all is called with: how much to send, until when, starting when. */
  datatype Job = Job(total: nat, timeout: nat, start: nat)

  function Min(a: nat, b: nat): nat { if a < b then a else b }

  /** One pass of send_all's loop: it returns, or goes round again. */
  datatype Turn = Return(o: Outcome) | Again(o: Outcome)

  function Try(kernel: Kernel, job: Job, o: Outcome): Turn
    requires o.sent < job.total
  {
    var next := o.(attempts := o.attempts + 1);
    match kernel(o.attempts)
    case SendFailed => Return(next.(status := IoError))
    case Took(n) =>
      if n == 0 then Return(next.(status := ClosedByPeer))
      else Again(next.(sent := o.sent + Min(n, job.total - o.sent)))
    case Full(lag, slept, wake) =>
      var now := o.clock + lag + 1;
      var remaining := job.timeout - (now - job.start);
      if remaining <= 0 then Return(next.(status := TimedOut, clock := now))
      else
        var nap := if wake.Expired? then remaining else Min(slept, remaining);
        var wait := Wait(now, now + remaining);
        var woken := next.(clock := now + nap, waited := o.waited + nap, waits := o.waits + [wait]);
        match wake
        case Expired => Return(woken.(status := TimedOut))
        case SelectFailed => Return(woken.(status := IoError))
        case Writable => Again(woken)
        case Interrupted => Again(woken)
  }

  /** Milliseconds left of the job's deadline. */
  function Left(job: Job, clock: nat): nat {
    if job.start + job.timeout > clock then job.start + job.timeout - clock else 0
  }

  /** The run of send_all that has put `o.sent` bytes on the wire so far.  It ends because
      every pass that goes round again sends a byte or uses up time. */
  function SendRun(kernel: Kernel, job: Job, o: Outcome): Outcome
    requires o.sent <= job.total
    decreases job.total - o.sent, Left(job, o.clock)
  {
    if o.sent == job.total then o.(status := Success)
    else
      match Try(kernel, job, o)
      case Return(r) => r
      case Again(r) => SendRun(kernel, job, r)
  }

  /** Nothing sent yet, with the kernel's attempts and the clock where they are. */
  function Begin(clock: nat, attempts: nat): Outcome {
    Outcome(Success, 0, clock, attempts, 0, [])
  }

  function SendAll(kernel: Kernel, total: nat, timeout: nat, clock: nat, attempts: nat): Outcome {
    SendRun(kernel, Job(total, timeout, clock), Begin(clock, attempts))
  }

  /** A line goes out as two send_all calls, each with a deadline of its own. */
  function WriteLine(kernel: Kernel, line: string, timeout: nat, clock: nat, attempts: nat): Outcome {
    var a := SendAll(kernel, |line|, timeout, clock, attempts);
    if a.status != Success then a
    else
      var b := SendAll(kernel, 1, timeout, a.clock, a.attempts);
      Outcome(b.status, a.sent + b.sent, b.clock, b.attempts, a.waited + b.waited, a.waits + b.waits)
  }

  // ---- What a run of send_all keeps ----------------------------------------------------

  /** Every wait was set to end exactly at the job's deadline. */
  predicate AtDeadline(job: Job, o: Outcome) {
    forall w | w in o.waits :: w.begin < w.limit == job.start + job.timeout
  }

  /** From one state of a run to a later one.  Time spent waiting is paid for by the
      deadline, and each wait costs at least a millisecond more than it lasts. */
  predicate Kept(o: Outcome, r: Outcome, job: Job) {
    && o.sent <= r.sent <= job.total
    && o.clock <= r.clock && o.attempts <= r.attempts
    && o.waits <= r.waits && o.waited <= r.waited
    && r.waited + Left(job, r.clock) + (|r.waits| - |o.waits|) <= o.waited + Left(job, o.clock)
    && (r.waits == o.waits ==> r.waited == o.waited)
    && (r.waits != o.waits ==> o.clock < r.clock)
    && (AtDeadline(job, o) ==> AtDeadline(job, r))
  }

  lemma TryKeeps(kernel: Kernel, job: Job, o: Outcome)
    requires o.sent < job.total && job.start <= o.clock
    ensures var t := Try(kernel, job, o);
            && Kept(o, t.o, job)
            && (t.Return? ==> t.o.status != Success && t.o.sent == o.sent)
            && (t.Again? ==> (t.o.clock == o.clock <==> t.o.waits == o.waits))
  {
  }

  lemma {:induction false} SendRunKeeps(kernel: Kernel, job: Job, o: Outcome)
    requires o.sent <= job.total && job.start <= o.clock
    ensures var r := SendRun(kernel, job, o);
            && Kept(o, r, job)
            && (r.status == Success <==> r.sent == job.total)
            && (r.status == Success ==> (r.clock == o.clock <==> r.waits == o.waits))
    decreases job.total - o.sent, Left(job, o.clock)
  {
    if o.sent < job.total {
      TryKeeps(kernel, job, o);
      var t := Try(kernel, job, o);
      if t.Again? {
        SendRunKeeps(kernel, job, t.o);
      }
    }
  }

  /** One less, but never below nothing. */
  function Pred(n: nat): nat { if n == 0 then 0 else n - 1 }

  /** send_all: everything on success and a proper prefix otherwise; every wait is set to
      end at the deadline, and all of them together take less than one timeout. */
  lemma SendAllMeetsDeadline(kernel: Kernel, total: nat, timeout: nat, clock: nat, attempts: nat)
    ensures var r := SendAll(kernel, total, timeout, clock, attempts);
            && r.sent <= total
            && (r.status == Success <==> r.sent == total)
            && r.clock >= clock
            && (forall w | w in r.waits :: w.limit == clock + timeout)
            && (r.status == Success ==> (r.clock == clock <==> r.waits == []))
            && r.waited <= Pred(timeout)
  {
    SendRunKeeps(kernel, Job(total, timeout, clock), Begin(clock, attempts));
  }

  // ---- When it stops -------------------------------------------------------------------

  /** The kernel took something, or there will be room, or the wait was interrupted. */
  predicate GoesOn(attempt: Attempt) {
    match attempt
    case Took(n) => n > 0
    case Full(_, _, wake) => wake.Writable? || wake.Interrupted?
    case SendFailed => false
  }

  /** What a failed attempt is reported as: a send or a wait that failed, a peer that is
      gone, or the deadline, which is then over and not before. */
  predicate Explains(attempt: Attempt, job: Job, r: Outcome) {
    match r.status
    case Success => false
    case ClosedByPeer => attempt == Took(0)
    case IoError => attempt.SendFailed? || (attempt.Full? && attempt.wake.SelectFailed?)
    case TimedOut => attempt.Full? && r.clock >= job.start + job.timeout
  }

  /** send_all gives up at the first attempt that does not go on, for the reason it reports,
      or when the deadline is over, and at nothing else: an interrupted wait goes on. */
  lemma {:induction false} StopsExactly(kernel: Kernel, job: Job, o: Outcome)
    requires o.sent <= job.total && job.start <= o.clock
    ensures var r := SendRun(kernel, job, o);
            && r.attempts >= o.attempts
            && (forall i | o.attempts <= i < r.attempts - 1 :: GoesOn(kernel(i)))
            && (if r.status.Success? then r.attempts > o.attempts ==> GoesOn(kernel(r.attempts - 1))
                else r.attempts > o.attempts && Explains(kernel(r.attempts - 1), job, r)
                     && (GoesOn(kernel(r.attempts - 1)) ==> r.status.TimedOut?))
    decreases job.total - o.sent, Left(job, o.clock)
  {
    if o.sent < job.total {
      TryAdvances(kernel, job, o);
      var t := Try(kernel, job, o);
      if t.Again? {
        StopsExactly(kernel, job, t.o);
      }
    }
  }

  /** A kernel that always takes at least a byte. */
  ghost predicate Willing(kernel: Kernel) {
    forall i: nat :: kernel(i).Took? && kernel(i).n > 0
  }

  /** Then everything is sent, and no time is spent; in one attempt, if the kernel takes it
      all at once. */
  lemma WillingTakesAll(kernel: Kernel, total: nat, timeout: nat, clock: nat, attempts: nat)
    requires Willing(kernel)
    ensures var r := SendAll(kernel, total, timeout, clock, attempts);
            && r.status == Success && r.sent == total && r.clock == clock && r.waits == []
            && (total > 0 && kernel(attempts).n >= total ==> r.attempts == attempts + 1)
  {
    WillingRun(kernel, Job(total, timeout, clock), Begin(clock, attempts));
    SendAllMeetsDeadline(kernel, total, timeout, clock, attempts);
    if total > 0 {
      var job, o := Job(total, timeout, clock), Begin(clock, attempts);
      SendRunTurns(kernel, job, o);
      SendRunTurns(kernel, job, Try(kernel, job, o).o);
    }
  }

  lemma {:induction false} WillingRun(kernel: Kernel, job: Job, o: Outcome)
    requires Willing(kernel) && o.sent <= job.total
    ensures var r := SendRun(kernel, job, o);
            r.status == Success && r.clock == o.clock && r.waits == o.waits
    decreases job.total - o.sent
  {
    if o.sent < job.total {
      assert kernel(o.attempts).Took?;
      WillingRun(kernel, job, Try(kernel, job, o).o);
    }
  }

  // ---- Whole lines -----------------------------------------------------------------------

  /** A line is complete iff it succeeds, and waits less than two timeouts. */
  lemma WriteLineBounded(kernel: Kernel, line: string, timeout: nat, clock: nat, attempts: nat)
    ensures var r := WriteLine(kernel, line, timeout, clock, attempts);
            && r.sent <= |line| + 1
            && (r.status == Success <==> r.sent == |line| + 1)
            && r.clock >= clock
            && r.waited <= 2 * Pred(timeout)
  {
    SendAllMeetsDeadline(kernel, |line|, timeout, clock, attempts);
    var a := SendAll(kernel, |line|, timeout, clock, attempts);
    SendAllMeetsDeadline(kernel, 1, timeout, a.clock, a.attempts);
  }

  lemma WillingTakesLine(kernel: Kernel, line: string, timeout: nat, clock: nat, attempts: nat)
    requires Willing(kernel)
    ensures WriteLine(kernel, line, timeout, clock, attempts).status == Success
  {
    WillingTakesAll(kernel, |line|, timeout, clock, attempts);
    var a := SendAll(kernel, |line|, timeout, clock, attempts);
    WillingTakesAll(kernel, 1, timeout, a.clock, a.attempts);
  }

  /** The newline is refused at first, with time left to wait. */
  predicate NewlineWaits(attempt: Attempt, timeout: nat) {
    attempt.Full? && attempt.lag + 1 < timeout
  }

  /** The deadline covers the whole message exactly when the text did not have to wait, or
      failed, or the newline does not: otherwise the newline's wait may last longer. */
  lemma OneDeadlineIff(kernel: Kernel, line: string, timeout: nat, clock: nat, attempts: nat)
    ensures var r := WriteLine(kernel, line, timeout, clock, attempts);
            var a := SendAll(kernel, |line|, timeout, clock, attempts);
            (forall w | w in r.waits :: w.limit <= clock + timeout)
              <==> a.status != Success || a.waits == [] || !NewlineWaits(kernel(a.attempts), timeout)
  {
    SendAllMeetsDeadline(kernel, |line|, timeout, clock, attempts);
    var a := SendAll(kernel, |line|, timeout, clock, attempts);
    if a.status == Success {
      SendAllMeetsDeadline(kernel, 1, timeout, a.clock, a.attempts);
      var b := SendAll(kernel, 1, timeout, a.clock, a.attempts);
      NewlineWaitsIff(kernel, timeout, a.clock, a.attempts);
      assert forall w | w in b.waits :: w in a.waits + b.waits;
      if a.waits != [] && b.waits != [] {
        assert b.waits[0] in b.waits;
      }
    }
  }

  lemma NewlineWaitsIff(kernel: Kernel, timeout: nat, clock: nat, attempts: nat)
    ensures SendAll(kernel, 1, timeout, clock, attempts).waits != [] <==> NewlineWaits(kernel(attempts), timeout)
  {
    var job, o := Job(1, timeout, clock), Begin(clock, attempts);
    TryKeeps(kernel, job, o);
    var t := Try(kernel, job, o);
    if t.Again? {
      SendRunKeeps(kernel, job, t.o);
    }
  }

  /** A kernel that is full on every other attempt for as long as it can be. */
  function Stalling(timeout: nat): Kernel {
    (i: nat) => if i % 2 == 0 then Full(0, timeout, Writable) else Took(i + 1)
  }

  /** The bound on a line's waits is attained: a one-byte message can wait for two
      deadlines, less the millisecond each refusal took, and still succeed. */
  lemma OneMessageTwoDeadlines(timeout: nat, c: char)
    requires timeout >= 2
    ensures var r := WriteLine(Stalling(timeout), [c], timeout, 0, 0);
            r.status == Success && r.waited == 2 * Pred(timeout)
  {
    StallOnce(timeout, 0, 0);
    StallOnce(timeout, timeout, 2);
  }

  lemma StallOnce(timeout: nat, clock: nat, attempts: nat)
    requires timeout >= 2 && attempts % 2 == 0
    ensures var r := SendAll(Stalling(timeout), 1, timeout, clock, attempts);
            && r.status == Success && r.sent == 1
            && r.clock == clock + timeout && r.attempts == attempts + 2
            && r.waited == timeout - 1
  {
    var k, job := Stalling(timeout), Job(1, timeout, clock);
    var o := Begin(clock, attempts);
    var woken := Try(k, job, o).o;
    var done := woken.(sent := 1, attempts := attempts + 2);
    assert Try(k, job, woken) == Again(done);
    assert SendRun(k, job, done) == done;
    assert SendRun(k, job, o) == SendRun(k, job, woken) == done;
  }

  /** A message can wait longer than one timeout and still succeed exactly when the timeout
      is at least three milliseconds. */
  lemma LongerThanTheTimeoutIff(timeout: nat, c: char)
    ensures (exists kernel: Kernel ::
              var r := WriteLine(kernel, [c], timeout, 0, 0); r.status == Success && r.waited > timeout)
            <==> timeout >= 3
  {
    if timeout >= 3 {
      OneMessageTwoDeadlines(timeout, c);
    } else {
      forall kernel: Kernel
        ensures WriteLine(kernel, [c], timeout, 0, 0).waited <= timeout
      {
        WriteLineBounded(kernel, [c], timeout, 0, 0);
      }
    }
  }

  lemma SendRunTurns(kernel: Kernel, job: Job, o: Outcome)
    requires o.sent <= job.total
    ensures SendRun(kernel, job, o)
         == if o.sent == job.total then o.(status := Success)
            else var t := Try(kernel, job, o); if t.Return? then t.o else SendRun(kernel, job, t.o)
  {
  }

  /** A socket as the sender sees it: an accumulating wire, a clock, a kernel. */
  class Socket {
    const kernel: Kernel
    var wire: string
    var clock: nat
    var attempts: nat

    constructor (kernel: Kernel)
      ensures this.kernel == kernel && wire == "" && clock == 0 && attempts == 0
    {
      this.kernel := kernel;
      wire, clock, attempts := "", 0, 0;
    }

    /** One pass of the loop: sends what the kernel takes of `rest`, or waits for room. */
    method SendOnce(rest: string, job: Job, ghost o: Outcome) returns (taken: nat, again: bool, status: Status)
      requires rest != "" && o.sent + |rest| == job.total && o.clock == clock && o.attempts == attempts
      modifies this
      ensures var t := Try(kernel, job, o);
              && (again <==> t.Again?) && (t.Return? ==> status == t.o.status)
              && taken == t.o.sent - o.sent <= |rest|
              && clock == t.o.clock && attempts == t.o.attempts
              && wire == old(wire) + rest[..taken]
    {
      taken, again, status := 0, false, Success;
      var attempt := kernel(attempts);
      attempts := attempts + 1;
      assert wire == wire + rest[..0];
      match attempt
      case SendFailed =>
        status := IoError;
      case Took(n) =>
        if n == 0 {
          status := ClosedByPeer;
        } else {
          taken, again := Min(n, |rest|), true;
          wire := wire + rest[..taken];
        }
      case Full(lag, slept, wake) =>
        clock := clock + lag + 1;
        var remaining := job.timeout - (clock - job.start);
        if remaining <= 0 {
          status := TimedOut;
        } else {
          clock := clock + if wake.Expired? then remaining else Min(slept, remaining);
          again := wake == Writable || wake == Interrupted;
          status := if wake == SelectFailed then IoError else TimedOut;
        }
    }

    /** The same within the buffer being sent, and what it means for the rest of the run. */
    method SendMore(data: string, sent: nat, job: Job, ghost o: Outcome)
      returns (sent': nat, again: bool, status: Status, ghost o': Outcome)
      requires sent < |data| == job.total && job.start <= clock
      requires o.sent == sent && o.clock == clock && o.attempts == attempts
      modifies this
      ensures sent <= sent' <= |data| && wire == old(wire) + data[sent..sent']
      ensures o'.sent == sent' && o'.clock == clock && o'.attempts == attempts && job.start <= clock
      ensures again ==> SendRun(kernel, job, o') == SendRun(kernel, job, o)
      ensures again ==> sent' > sent || Left(job, clock) < Left(job, old(clock))
      ensures !again ==> SendRun(kernel, job, o) == o' && status == o'.status
    {
      hide SendRun, Try, Left;
      SendRunTurns(kernel, job, o);
      TryAdvances(kernel, job, o);
      o' := Try(kernel, job, o).o;
      var taken;
      taken, again, status := SendOnce(data[sent..], job, o);
      sent' := sent + taken;
      assert data[sent..][..taken] == data[sent..sent'];
    }

    method SendBuffer(data: string, timeout: nat) returns (status: Status)
      modifies this
      ensures var r := SendAll(kernel, |data|, timeout, old(clock), old(attempts));
              && r.sent <= |data|
              && status == r.status
              && wire == old(wire) + data[..r.sent]
              && clock == r.clock && attempts == r.attempts
    {
      var job := Job(|data|, timeout, clock);
      ghost var o := Begin(clock, attempts);
      hide SendRun, Left;
      var sent, again := 0, true;
      while sent < |data|
        invariant o.sent == sent <= |data| && o.clock == clock && o.attempts == attempts
        invariant job.start <= clock
        invariant SendRun(kernel, job, o) == SendAll(kernel, |data|, timeout, old(clock), old(attempts))
        invariant wire == old(wire) + data[..sent]
        decreases |data| - sent, Left(job, clock)
      {
        ghost var before := sent;
        sent, again, status, o := SendMore(data, sent, job, o);
        assert data[..before] + data[before..sent] == data[..sent];
        if !again {
          return;
        }
      }
      SendRunTurns(kernel, job, o);
      return Success;
    }

    /** The line and then its newline; the caller sees a failure of either. */
    method WriteOneLine(line: string, timeout: nat) returns (status: Status)
      modifies this
      ensures var r := WriteLine(kernel, line, timeout, old(clock), old(attempts));
              && r.sent <= |line| + 1
              && status == r.status
              && wire == old(wire) + (line + "\n")[..r.sent]
              && clock == r.clock && attempts == r.attempts
      ensures status == Success <==> wire == old(wire) + line + "\n"
    {
      WriteLineBounded(kernel, line, timeout, clock, attempts);
      SendAllMeetsDeadline(kernel, |line|, timeout, clock, attempts);
      status := SendBuffer(line, timeout);
      if status != Success {
        assert (line + "\n")[..|wire| - |old(wire)|] == line[..|wire| - |old(wire)|];
        return;
      }
      assert wire == old(wire) + line;
      SendAllMeetsDeadline(kernel, 1, timeout, clock, attempts);
      status := SendBuffer("\n", timeout);
    }
  }

  /** A pass that goes round again has sent something or used up time. */
  lemma TryAdvances(kernel: Kernel, job: Job, o: Outcome)
    requires o.sent < job.total && job.start <= o.clock
    ensures var t := Try(kernel, job, o);
            && o.sent <= t.o.sent <= job.total && o.clock <= t.o.clock
            && (t.Again? ==> t.o.sent > o.sent || Left(job, t.o.clock) < Left(job, o.clock))
            && (t.Return? ==> t.o.sent == o.sent)
  {
  }
}
