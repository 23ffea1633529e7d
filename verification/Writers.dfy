/** The server thread and any number of callback threads writing to the control
    connection under one lock, as a step system.  Thread 0 is the server. */
module Writers {
  import opened Lines

  /** What the server thread writes: the greeting, answers, and the events of callbacks that
      the library runs on it inside a command; and what a callback thread pushes. */
  datatype Kind = Greeting | Answer | Inner | Push
  datatype Msg = Msg(kind: Kind, text: string)

  /** What a thread takes the lock for. */
  datatype Op = Register | Unregister | Write(msg: Msg)

  /** A thread outside the lock, waiting for it, having just got it, part-way through
      sending a message and its newline, or about to let go. */
  datatype Pc = Outside | Waiting(op: Op) | Holding(op: Op) | Sending(msg: Msg, sent: nat) | Leaving

  /** Where the server thread is with the (single) active connection, by socket number. */
  datatype Phase =
    | NoConn
    | Opening(sock: nat)                                  // framing initialised, not registered yet
    | Registered(sock: nat)                               // before the greeting
    | Live(sock: nat)
    | Refusing(sock: nat, other: nat, notice: string, sent: nat)
    | Closing(sock: nat)                                  // about to unregister
    | Unregistered(sock: nat)                             // about to close the socket

  datatype State = State(
    pcs: seq<Pc>,
    lock: int,                     // the holder, or -1
    registered: bool,              // is the framing pointer set?
    framingSock: nat,              // the socket the framing object was last initialised with
    phase: Phase,
    open: set<nat>,
    wires: seq<string>,            // every socket ever accepted, and what was put on it
    logs: seq<seq<Msg>>,           // the messages written whole, in lock order
    torn: set<nat>,                // a write failed after some of its bytes were out
    ungreeted: set<nat>,           // the greeting failed
    refused: set<nat>)             // turned away, and written to directly

  function Start(pushers: nat): State {
    State(seq(pushers + 1, _ => Outside), -1, false, 0, NoConn, {}, [], [], {}, {}, {})
  }

  datatype Action =
    | Accept(usable: bool)                 // usable: non-blocking mode and pool succeeded
    | Greet(text: string)
    | Say(thread: nat, text: string)       // the server answers, or a callback pushes
    | SayInner(text: string)               // a callback pushes on the server thread
    | Acquire(thread: nat)
    | Act(thread: nat)                     // the step that looks at the framing pointer
    | SendSome(thread: nat, n: nat)
    | SendFails(thread: nat)
    | Release(thread: nat)
    | Refuse(notice: string)
    | RefuseSome(n: nat)
    | RefuseEnds
    | Drop
    | CloseSocket

  function Line(m: Msg): string { m.text + "\n" }

  /** How much of a line one send may take: the text and the newline are sent apart. */
  function Portion(text: string, sent: nat, n: nat): nat
    requires sent <= |text|
  {
    if sent == |text| then 1
    else if n == 0 then 1
    else if sent + n > |text| then |text| - sent else n
  }

  predicate Idle(s: State, t: nat) {
    t < |s.pcs| && s.pcs[t] == Outside
  }

  function Goto(s: State, t: nat, pc: Pc): State
    requires t < |s.pcs|
  {
    s.(pcs := s.pcs[t := pc])
  }

  function Put(s: State, sock: nat, bytes: string): State
    requires sock < |s.wires|
  {
    s.(wires := s.wires[sock := s.wires[sock] + bytes])
  }

  /** One step of the named action; an action that is not enabled changes nothing. */
  function Step(s: State, a: Action): State {
    match a
    case Accept(usable) =>
      if s.phase.NoConn? && Idle(s, 0) then
        var sock := |s.wires|;
        var s' := s.(wires := s.wires + [""], logs := s.logs + [[]]);
        if usable then
          Goto(s', 0, Waiting(Register)).(phase := Opening(sock), framingSock := sock, open := s.open + {sock})
        else s'
      else s
    case Greet(text) =>
      if s.phase.Registered? && Idle(s, 0) && NewlineFree(text) then
        Goto(s, 0, Waiting(Write(Msg(Greeting, text)))).(phase := Live(s.phase.sock))
      else s
    case Say(t, text) =>
      if Idle(s, t) && NewlineFree(text) && (t == 0 ==> s.phase.Live?) then
        Goto(s, t, Waiting(Write(Msg(if t == 0 then Answer else Push, text))))
      else s
    case SayInner(text) =>
      if Idle(s, 0) && NewlineFree(text) && s.phase.Live? then Goto(s, 0, Waiting(Write(Msg(Inner, text))))
      else s
    case Acquire(t) =>
      if t < |s.pcs| && s.pcs[t].Waiting? && s.lock == -1 then Goto(s, t, Holding(s.pcs[t].op)).(lock := t)
      else s
    case Act(t) =>
      if t < |s.pcs| && s.pcs[t].Holding? then
        match s.pcs[t].op
        case Register =>
          var s' := Goto(s, t, Leaving).(registered := true);
          if s.phase.Opening? then s'.(phase := Registered(s.phase.sock)) else s'
        case Unregister =>
          var s' := Goto(s, t, Leaving).(registered := false);
          if s.phase.Closing? then s'.(phase := Unregistered(s.phase.sock)) else s'
        case Write(m) => Goto(s, t, if s.registered then Sending(m, 0) else Leaving)
      else s
    case SendSome(t, n) =>
      if t < |s.pcs| && s.pcs[t].Sending? && s.framingSock < |s.wires| then
        var Sending(m, k) := s.pcs[t];
        if k > |m.text| then s
        else
          var n' := Portion(m.text, k, n);
          var s' := Put(s, s.framingSock, Line(m)[k..k + n']);
          if k + n' <= |m.text| then Goto(s', t, Sending(m, k + n'))
          else if s.framingSock < |s.logs| then
            Goto(s', t, Leaving).(logs := s.logs[s.framingSock := s.logs[s.framingSock] + [m]])
          else s
      else s
    case SendFails(t) =>
      if t < |s.pcs| && s.pcs[t].Sending? then
        var Sending(m, k) := s.pcs[t];
        Goto(s, t, Leaving).(
          torn := if k > 0 then s.torn + {s.framingSock} else s.torn,
          ungreeted := if m.kind == Greeting then s.ungreeted + {s.framingSock} else s.ungreeted)
      else s
    case Release(t) =>
      if t < |s.pcs| && s.pcs[t] == Leaving then Goto(s, t, Outside).(lock := -1)
      else s
    case Refuse(notice) =>
      if s.phase.Live? && Idle(s, 0) then
        var sock := |s.wires|;
        s.(wires := s.wires + [""], logs := s.logs + [[]], open := s.open + {sock}, refused := s.refused + {sock},
           phase := Refusing(s.phase.sock, sock, notice, 0))
      else s
    case RefuseSome(n) =>
      if s.phase.Refusing? && s.phase.other < |s.wires| && s.phase.sent + n <= |s.phase.notice| + 1 then
        var p := s.phase;
        Put(s, p.other, (p.notice + "\n")[p.sent..p.sent + n]).(phase := p.(sent := p.sent + n))
      else s
    case RefuseEnds =>
      if s.phase.Refusing? then s.(open := s.open - {s.phase.other}, phase := Live(s.phase.sock))
      else s
    case Drop =>
      if s.phase.Live? && Idle(s, 0) then Goto(s, 0, Waiting(Unregister)).(phase := Closing(s.phase.sock))
      else s
    case CloseSocket =>
      if s.phase.Unregistered? && Idle(s, 0) then s.(open := s.open - {s.phase.sock}, phase := NoConn)
      else s
  }

  function Run(s: State, actions: seq<Action>): State
    decreases |actions|
  {
    if actions == [] then s else Run(Step(s, actions[0]), actions[1..])
  }

  // ---- Invariant -----------------------------------------------------------------------

  predicate InLock(pc: Pc) {
    pc.Holding? || pc.Sending? || pc.Leaving?
  }

  /** The lock is held by the one thread that is past acquiring it. */
  predicate Exclusive(s: State) {
    && |s.pcs| > 0 && |s.logs| == |s.wires|
    && -1 <= s.lock < |s.pcs|
    && forall t | 0 <= t < |s.pcs| :: InLock(s.pcs[t]) <==> s.lock == t
  }

  /** Callback threads only ever write. */
  predicate OpFits(s: State, t: int, op: Op) {
    match op
    case Register => t == 0 && s.phase.Opening?
    case Unregister => t == 0 && s.phase.Closing?
    case Write(m) =>
      && NewlineFree(m.text)
      && (t == 0 ==> s.phase.Live?)
      && (m.kind.Push? <==> t != 0)
  }

  predicate PcFits(s: State, t: int, pc: Pc) {
    match pc
    case Outside => t == 0 ==> !s.phase.Opening? && !s.phase.Closing?
    case Waiting(op) => OpFits(s, t, op)
    case Holding(op) => OpFits(s, t, op)
    case Sending(m, k) => OpFits(s, t, Write(m)) && k <= |m.text| && s.registered
    case Leaving => t == 0 ==> s.phase.Registered? || s.phase.Live? || s.phase.Unregistered?
  }

  predicate ThreadsFit(s: State) {
    forall t | 0 <= t < |s.pcs| :: PcFits(s, t, s.pcs[t])
  }

  /** The framing pointer is set exactly while the connection of the current phase is open
      and initialised. */
  predicate ConnectionFits(s: State) {
    && (s.registered <==> s.phase.Registered? || s.phase.Live? || s.phase.Refusing? || s.phase.Closing?)
    && (!s.phase.NoConn? ==> s.framingSock == s.phase.sock < |s.wires| && s.phase.sock in s.open)
    && (!s.phase.NoConn? ==> s.phase.sock !in s.refused)
    && (s.phase.Refusing? ==>
          s.phase.other < |s.wires| && s.phase.other in s.refused && s.phase.other in s.open)
    && (forall c | c in s.refused :: c < |s.wires|)
    && (forall c | c in s.torn :: c < |s.wires|)
    && (forall c | c in s.ungreeted :: c < |s.wires|)
    && (forall c | c in s.open :: c < |s.wires|)
    && (forall c | c in s.open :: !s.phase.NoConn? && (c == s.phase.sock || (s.phase.Refusing? && c == s.phase.other)))
    && (s.phase.Refusing? ==> Idle(s, 0))
  }

  predicate Discipline(s: State) {
    Exclusive(s) && ThreadsFit(s) && ConnectionFits(s)
  }

  lemma StepKeepsExclusive(s: State, a: Action)
    requires Discipline(s)
    ensures Exclusive(Step(s, a))
  {
    hide PcFits, Portion, NewlineFree;
  }

  /** Actions that leave the connection as it is. */
  predicate Stays(a: Action) {
    a.Say? || a.SayInner? || a.Acquire? || a.SendSome? || a.Release?
  }

  lemma StayingKeepsThreads(s: State, a: Action)
    requires Discipline(s) && Stays(a)
    ensures ThreadsFit(Step(s, a))
  {
    hide NewlineFree, Line, ConnectionFits;
  }

  /** Threads past acquiring the lock are one at most, so that the others only wait. */
  lemma MovingKeepsThreads(s: State, a: Action)
    requires Discipline(s) && !Stays(a)
    ensures ThreadsFit(Step(s, a))
  {
    hide NewlineFree, Line, Portion;
  }

  lemma StepKeepsThreads(s: State, a: Action)
    requires Discipline(s)
    ensures ThreadsFit(Step(s, a))
  {
    hide Step, Discipline, ThreadsFit;
    if Stays(a) {
      StayingKeepsThreads(s, a);
    } else {
      MovingKeepsThreads(s, a);
    }
  }

  lemma StayingKeepsConnection(s: State, a: Action)
    requires Discipline(s) && Stays(a)
    ensures ConnectionFits(Step(s, a))
  {
    hide Portion, NewlineFree, Line;
  }

  lemma StepKeepsConnection(s: State, a: Action)
    requires Discipline(s)
    ensures ConnectionFits(Step(s, a))
  {
    hide Portion, NewlineFree, Line;
    if Stays(a) {
      hide Step;
      StayingKeepsConnection(s, a);
    } else {
      var s' := Step(s, a);
      assert forall c | c in s'.open :: c in s.open || c == |s.wires|;
      assert forall c | c in s'.refused :: c in s.refused || c == |s.wires|;
      assert forall c | c in s'.torn :: c in s.torn || c == s.framingSock;
      assert forall c | c in s'.ungreeted :: c in s.ungreeted || c == s.framingSock;
    }
  }

  // ---- What is on the wires ------------------------------------------------------------

  /** The bytes of a log of whole messages. */
  function LogWire(log: seq<Msg>): string {
    if log == [] then "" else LogWire(log[..|log| - 1]) + Line(log[|log| - 1])
  }

  /** The unfinished message the lock holder has put on a socket so far. */
  function Partial(s: State, c: nat): string
    requires Discipline(s)
  {
    if s.lock >= 0 && s.pcs[s.lock].Sending? && c == s.framingSock then
      Line(s.pcs[s.lock].msg)[..s.pcs[s.lock].sent]
    else ""
  }

  /** Whole messages in lock order, then at most one unfinished one, the lock holder's. */
  predicate WellFormed(s: State, c: nat)
    requires Discipline(s) && c < |s.wires|
  {
    s.wires[c] == LogWire(s.logs[c]) + Partial(s, c)
  }

  /** A wire is well-formed unless a write to it failed half-way; then it has bytes too
      many for its log. */
  predicate WireFits(s: State, c: nat)
    requires Discipline(s) && c < |s.wires|
  {
    if c in s.torn then |s.wires[c]| > |LogWire(s.logs[c])| + |Partial(s, c)| else WellFormed(s, c)
  }

  predicate WiresFit(s: State)
    requires Discipline(s)
  {
    forall c | 0 <= c < |s.wires| && c !in s.refused :: WireFits(s, c)
  }

  lemma StepKeepsDiscipline(s: State, a: Action)
    requires Discipline(s)
    ensures Discipline(Step(s, a))
  {
    hide Step, PcFits;
    StepKeepsExclusive(s, a);
    StepKeepsThreads(s, a);
    StepKeepsConnection(s, a);
  }

  lemma LogWireGrows(log: seq<Msg>, m: Msg)
    ensures LogWire(log + [m]) == LogWire(log) + Line(m)
  {
    assert (log + [m])[..|log|] == log;
  }

  /** The effect of a send on the sender, the wire and the log. */
  predicate Sent(s: State, s': State, t: nat, m: Msg, k: nat, k': nat)
    requires t < |s.pcs| && s.framingSock < |s.wires| == |s.logs| && k <= k' <= |Line(m)|
  {
    var f := s.framingSock;
    && s'.lock == s.lock && s'.framingSock == f && s'.torn == s.torn && s'.refused == s.refused
    && s'.pcs == s.pcs[t := if k' == |Line(m)| then Leaving else Sending(m, k')]
    && s'.wires == s.wires[f := s.wires[f] + Line(m)[k..k']]
    && s'.logs == if k' == |Line(m)| then s.logs[f := s.logs[f] + [m]] else s.logs
  }

  lemma SendIs(s: State, t: nat, n: nat) returns (k': nat)
    requires Discipline(s)
    ensures Discipline(Step(s, SendSome(t, n)))
    ensures Step(s, SendSome(t, n)) != s ==>
              && t < |s.pcs| && s.pcs[t].Sending? && s.lock == t && s.framingSock < |s.wires|
              && s.pcs[t].sent <= k' <= |Line(s.pcs[t].msg)|
              && Sent(s, Step(s, SendSome(t, n)), t, s.pcs[t].msg, s.pcs[t].sent, k')
  {
    StepKeepsDiscipline(s, SendSome(t, n));
    k' := 0;
    if t < |s.pcs| && s.pcs[t].Sending? && s.pcs[t].sent <= |s.pcs[t].msg.text| {
      k' := s.pcs[t].sent + Portion(s.pcs[t].msg.text, s.pcs[t].sent, n);
    }
  }

  /** A message sent to its end goes from the wire's unfinished part to its log. */
  lemma WholeKeepsFit(s: State, s': State, t: nat, m: Msg, k: nat)
    requires Discipline(s) && Discipline(s') && t < |s.pcs| && s.framingSock < |s.wires| && k <= |Line(m)|
    requires s.lock == t && s.pcs[t] == Sending(m, k) && Sent(s, s', t, m, k, |Line(m)|)
    requires WireFits(s, s.framingSock)
    ensures WireFits(s', s.framingSock)
  {
    var f := s.framingSock;
    hide ThreadsFit, ConnectionFits, LogWire, Line;
    var line, log, before := Line(m), LogWire(s.logs[f]), s.wires[f];
    assert Partial(s, f) == line[..k];
    assert line[k..|line|] == line[k..] && line[..k] + line[k..] == line;
    LogWireGrows(s.logs[f], m);
    assert LogWire(s'.logs[f]) == log + line && Partial(s', f) == "" && s'.wires[f] == before + line[k..];
    assert before == log + line[..k] ==> before + line[k..] == log + line;
  }

  /** A message sent in part only makes the wire's unfinished part longer. */
  lemma PartKeepsFit(s: State, s': State, t: nat, m: Msg, k: nat, k': nat)
    requires Discipline(s) && Discipline(s') && t < |s.pcs| && s.framingSock < |s.wires| && k <= k' < |Line(m)|
    requires s.lock == t && s.pcs[t] == Sending(m, k) && Sent(s, s', t, m, k, k')
    requires WireFits(s, s.framingSock)
    ensures WireFits(s', s.framingSock)
  {
    var f := s.framingSock;
    hide ThreadsFit, ConnectionFits, LogWire, Line;
    var line, log, before := Line(m), LogWire(s.logs[f]), s.wires[f];
    assert Partial(s, f) == line[..k] && Partial(s', f) == line[..k'] && LogWire(s'.logs[f]) == log;
    assert line[..k] + line[k..k'] == line[..k'] && s'.wires[f] == before + line[k..k'];
    assert before == log + line[..k] ==> before + line[k..k'] == log + line[..k'];
  }

  lemma SendKeepsWires(s: State, t: nat, n: nat, c: nat)
    requires Discipline(s) && c < |s.wires| && c !in s.refused && WireFits(s, c)
    ensures Discipline(Step(s, SendSome(t, n))) && WireFits(Step(s, SendSome(t, n)), c)
  {
    hide Step, ThreadsFit, ConnectionFits, LogWire;
    var k' := SendIs(s, t, n);
    var s' := Step(s, SendSome(t, n));
    if s' != s {
      if c == s.framingSock {
        var m := s.pcs[t].msg;
        if k' == |Line(m)| {
          WholeKeepsFit(s, s', t, m, s.pcs[t].sent);
        } else {
          PartKeepsFit(s, s', t, m, s.pcs[t].sent, k');
        }
      } else {
        assert s'.wires[c] == s.wires[c] && s'.logs[c] == s.logs[c];
      }
    }
  }

  lemma StepLeavesWire(s: State, a: Action, c: nat)
    requires Discipline(s) && c < |s.wires| && c !in s.refused && !a.SendSome?
    ensures var s' := Step(s, a); c < |s'.wires| == |s'.logs| && s'.wires[c] == s.wires[c] && s'.logs[c] == s.logs[c]
  {
    hide PcFits, ThreadsFit;
  }

  /** Nobody's unfinished message changes, except by being abandoned. */
  lemma StepLeavesPartial(s: State, a: Action, c: nat)
    requires Discipline(s) && Discipline(Step(s, a)) && c < |s.wires| && !a.SendSome?
    ensures var s' := Step(s, a);
            || (Partial(s', c) == Partial(s, c) && (c in s'.torn <==> c in s.torn))
            || (Partial(s', c) == "" && (c in s'.torn <==> c in s.torn || Partial(s, c) != ""))
  {
    hide NewlineFree;
    if a.SendFails? && a.thread < |s.pcs| && s.pcs[a.thread].Sending? {
      assert s.lock == a.thread;
      assert |Partial(s, s.framingSock)| == s.pcs[a.thread].sent;
    }
  }

  lemma OtherStepsKeepWires(s: State, a: Action, c: nat)
    requires Discipline(s) && c < |s.wires| && c !in s.refused && WireFits(s, c)
    requires !a.SendSome?
    ensures Discipline(Step(s, a)) && WireFits(Step(s, a), c)
  {
    StepKeepsDiscipline(s, a);
    hide Step, ThreadsFit, ConnectionFits, LogWire;
    StepLeavesWire(s, a, c);
    StepLeavesPartial(s, a, c);
  }

  lemma FreshSocketFits(s: State, a: Action)
    requires Discipline(s) && Discipline(Step(s, a)) && |s.wires| < |Step(s, a).wires|
    ensures |Step(s, a).wires| == |s.wires| + 1
    ensures |s.wires| !in Step(s, a).refused ==> WireFits(Step(s, a), |s.wires|)
  {
    hide Line;
  }

  lemma StepKeepsWires(s: State, a: Action)
    requires Discipline(s) && WiresFit(s)
    ensures Discipline(Step(s, a)) && WiresFit(Step(s, a))
  {
    StepKeepsDiscipline(s, a);
    var s' := Step(s, a);
    RefusedStay(s, a);
    hide Step, ThreadsFit, ConnectionFits, WireFits;
    forall c | 0 <= c < |s'.wires| && c !in s'.refused
      ensures WireFits(s', c)
    {
      if c < |s.wires| {
        assert WireFits(s, c);
        if a.SendSome? {
          SendKeepsWires(s, a.thread, a.n, c);
        } else {
          OtherStepsKeepWires(s, a, c);
        }
      } else {
        FreshSocketFits(s, a);
      }
    }
  }

  lemma RefusedStay(s: State, a: Action)
    ensures s.refused <= Step(s, a).refused
  {
  }

  // ---- The greeting ----------------------------------------------------------------------

  predicate Greeted(log: seq<Msg>) {
    exists i :: 0 <= i < |log| && log[i].kind == Greeting
  }

  /** At most one greeting, and no answer before it, nor anything pushed inside a command. */
  predicate Ordered(log: seq<Msg>) {
    forall j | 0 <= j < |log| ::
      && (log[j].kind.Answer? || log[j].kind.Inner? ==> Greeted(log[..j]))
      && (log[j].kind == Greeting ==> !Greeted(log[..j]))
  }

  /** The message the server thread is about to write or writing, if any. */
  function Pending(pc: Pc): seq<Msg> {
    match pc
    case Waiting(Write(m)) => [m]
    case Holding(Write(m)) => [m]
    case Sending(m, _) => [m]
    case _ => []
  }

  predicate GreetingDue(s: State)
    requires |s.pcs| > 0
  {
    Pending(s.pcs[0]) != [] && Pending(s.pcs[0])[0].kind == Greeting
  }

  predicate GreetingFits(s: State)
    requires Discipline(s)
  {
    && (forall c | 0 <= c < |s.logs| && c !in s.ungreeted :: Ordered(s.logs[c]))
    && (GreetingDue(s) || s.phase.Opening? || s.phase.Registered? ==>
          !Greeted(s.logs[s.phase.sock]) && s.phase.sock !in s.ungreeted)
    && (s.phase.Live? || s.phase.Refusing? || s.phase.Closing? ==>
          GreetingDue(s) || s.phase.sock in s.ungreeted || Greeted(s.logs[s.phase.sock]))
  }

  lemma OrderedGrows(log: seq<Msg>, m: Msg)
    requires Ordered(log)
    requires m.kind.Answer? || m.kind.Inner? ==> Greeted(log)
    requires m.kind == Greeting ==> !Greeted(log)
    ensures Ordered(log + [m])
    ensures Greeted(log + [m]) <==> Greeted(log) || m.kind == Greeting
  {
    var log' := log + [m];
    assert log'[|log|] == m;
    if Greeted(log) {
      var i :| 0 <= i < |log| && log[i].kind == Greeting;
      assert log'[i] == log[i];
    }
    forall j | 0 <= j < |log'|
      ensures log'[j].kind.Answer? || log'[j].kind.Inner? ==> Greeted(log'[..j])
      ensures log'[j].kind == Greeting ==> !Greeted(log'[..j])
    {
      assert log'[..j] == log[..j];
      if j == |log| {
        assert log[..j] == log;
      }
    }
  }

  lemma SendKeepsGreeting(s: State, t: nat, n: nat)
    requires Discipline(s) && GreetingFits(s)
    ensures Discipline(Step(s, SendSome(t, n))) && GreetingFits(Step(s, SendSome(t, n)))
  {
    StepKeepsDiscipline(s, SendSome(t, n));
    var s' := Step(s, SendSome(t, n));
    hide Ordered, Greeted;
    if t < |s.pcs| && s.pcs[t].Sending? {
      var m, f := s.pcs[t].msg, s.framingSock;
      if f !in s.ungreeted {
        OrderedGrows(s.logs[f], m);
      }
      assert s'.logs == s.logs || s'.logs == s.logs[f := s.logs[f] + [m]];
    }
  }

  lemma OthersLeaveLogs(s: State, a: Action)
    requires Discipline(s) && !a.SendSome?
    ensures var s' := Step(s, a);
            && (s'.logs == s.logs || s'.logs == s.logs + [[]])
            && (forall c | 0 <= c < |s.logs| :: s'.logs[c] == s.logs[c])
            && s.ungreeted <= s'.ungreeted
  {
    hide PcFits;
  }

  lemma OthersKeepGreeting(s: State, a: Action)
    requires Discipline(s) && GreetingFits(s) && !a.SendSome?
    ensures Discipline(Step(s, a)) && GreetingFits(Step(s, a))
  {
    hide Ordered, Greeted, NewlineFree, Line, Portion;
    StepKeepsDiscipline(s, a);
    OthersLeaveLogs(s, a);
    EmptyLog();
  }

  lemma StepKeepsGreeting(s: State, a: Action)
    requires Discipline(s) && GreetingFits(s)
    ensures Discipline(Step(s, a)) && GreetingFits(Step(s, a))
  {
    hide Step, Discipline, GreetingFits;
    if a.SendSome? {
      SendKeepsGreeting(s, a.thread, a.n);
    } else {
      OthersKeepGreeting(s, a);
    }
  }

  lemma EmptyLog()
    ensures Ordered([]) && !Greeted([])
  {
  }

  // ---- Every run -------------------------------------------------------------------------

  predicate Good(s: State) {
    Discipline(s) && WiresFit(s) && GreetingFits(s)
  }

  lemma {:induction false} RunIsGood(s: State, actions: seq<Action>)
    requires Good(s)
    ensures Good(Run(s, actions))
    decreases |actions|
  {
    if actions != [] {
      StepKeepsWires(s, actions[0]);
      StepKeepsGreeting(s, actions[0]);
      RunIsGood(Step(s, actions[0]), actions[1..]);
    }
  }

  lemma RunFromStart(pushers: nat, actions: seq<Action>)
    ensures Good(Run(Start(pushers), actions))
  {
    RunIsGood(Start(pushers), actions);
  }

  /** In every interleaving of the server with any number of callback threads, with sends
      split anywhere: a connection's wire is whole messages in lock order and then at most
      one unfinished message, the lock holder's, exactly as long as no write to it failed
      half-way. */
  lemma WiresOfEveryRun(pushers: nat, actions: seq<Action>, c: nat)
    ensures var s := Run(Start(pushers), actions);
            Discipline(s) && (c < |s.wires| && c !in s.refused ==> (WellFormed(s, c) <==> c !in s.torn))
  {
    RunFromStart(pushers, actions);
  }

  /** In every run, whoever is sending holds the lock alone and writes to the open socket
      of the registered, fully initialised connection. */
  lemma SendersAreSafe(pushers: nat, actions: seq<Action>, t: nat, u: nat)
    ensures var s := Run(Start(pushers), actions);
            t < |s.pcs| && s.pcs[t].Sending? ==>
              && s.registered && s.framingSock in s.open
              && !s.phase.NoConn? && !s.phase.Opening? && !s.phase.Unregistered?
              && s.framingSock == s.phase.sock
              && (u < |s.pcs| && s.pcs[u].Sending? ==> u == t)
  {
    RunFromStart(pushers, actions);
  }

  /** Answers come after the greeting, and there is at most one, on every connection whose
      greeting did not fail. */
  lemma GreetingLeads(pushers: nat, actions: seq<Action>, c: nat)
    ensures var s := Run(Start(pushers), actions);
            c < |s.logs| && c !in s.ungreeted ==> Ordered(s.logs[c])
  {
    RunFromStart(pushers, actions);
  }

  /** A socket nobody can write to any more: unregistered and not being refused. */
  predicate Finished(s: State, c: nat) {
    && c < |s.wires| == |s.logs|
    && (!s.phase.NoConn? && !s.phase.Unregistered? ==> s.phase.sock != c)
    && (s.phase.Refusing? ==> s.phase.other != c)
  }

  /** A closed socket is such a one, and so is one just unregistered. */
  lemma ClosedIsFinished(s: State, c: nat)
    requires Discipline(s) && c < |s.wires|
    requires c !in s.open || s.phase == Unregistered(c)
    ensures Finished(s, c)
  {
  }

  lemma {:induction false} NothingReachesFinished(s: State, actions: seq<Action>, c: nat)
    requires Good(s) && Finished(s, c)
    ensures var r := Run(s, actions); Finished(r, c) && r.wires[c] == s.wires[c] && r.logs[c] == s.logs[c]
    decreases |actions|
  {
    if actions != [] {
      var s' := Step(s, actions[0]);
      RunIsGood(s, [actions[0]]);
      assert Run(s, [actions[0]]) == Run(s', []) == s';
      FinishedStep(s, actions[0], c);
      NothingReachesFinished(s', actions[1..], c);
    }
  }

  lemma FinishedStep(s: State, a: Action, c: nat)
    requires Discipline(s) && Finished(s, c)
    ensures var r := Step(s, a); Finished(r, c) && r.wires[c] == s.wires[c] && r.logs[c] == s.logs[c]
  {
  }

  /** Refusing a second client never touches the connection being served. */
  lemma RefusalIsElsewhere(s: State, a: Action)
    requires Discipline(s) && (a.Refuse? || a.RefuseSome? || a.RefuseEnds?)
    ensures Step(s, a) != s ==> !s.phase.NoConn?
    ensures !s.phase.NoConn? ==> Step(s, a).wires[s.phase.sock] == s.wires[s.phase.sock]
                                 && Step(s, a).logs[s.phase.sock] == s.logs[s.phase.sock]
  {
  }

  // ---- Reading it back ---------------------------------------------------------------------

  function Texts(log: seq<Msg>): (r: seq<string>)
    ensures |r| == |log|
  {
    if log == [] then [] else Texts(log[..|log| - 1]) + [log[|log| - 1].text]
  }

  lemma {:induction false} LogWireIsWire(log: seq<Msg>)
    ensures LogWire(log) == Wire(Texts(log))
  {
    if log != [] {
      var n := |log| - 1;
      var text := log[n].text;
      LogWireIsWire(log[..n]);
      assert [text][1..] == [];
      assert Wire([text]) == Line(log[n]);
      hide Wire, Line;
      WireAppend(Texts(log[..n]), [text]);
    }
  }

  lemma {:induction false} TextsFit(log: seq<Msg>)
    requires forall m: Msg | m in log :: Fits(m.text)
    ensures forall l | l in Texts(log) :: Fits(l)
  {
    if log != [] {
      TextsFit(log[..|log| - 1]);
    }
  }

  /** A wire whose messages a reader accepts, the one being sent included. */
  predicate Readable(s: State, c: nat)
    requires Discipline(s)
  {
    && c < |s.wires| && c !in s.refused
    && (forall m: Msg | m in s.logs[c] :: Fits(m.text)) && Fits(Partial(s, c))
  }

  lemma WireIsRead(s: State, c: nat)
    requires Good(s) && Readable(s, c)
    ensures CutLines(s.wires[c]) == Cut(Texts(s.logs[c]), Partial(s, c), false) <==> c !in s.torn
  {
    hide CutLines, PcFits, Ordered, Greeted;
    LogWireIsWire(s.logs[c]);
    TextsFit(s.logs[c]);
    var w, p := Wire(Texts(s.logs[c])), Partial(s, c);
    assert (w + p)[|w|..] == p;
    CutIsUnique(s.wires[c], Cut(Texts(s.logs[c]), p, false));
  }

  /** What a reader of the wire gets is exactly the messages written whole, in lock order,
      and the tail it is left with is the message still being sent: exactly as long as no
      write to the wire failed half-way. */
  lemma ReaderSeesLog(pushers: nat, actions: seq<Action>, c: nat)
    ensures var s := Run(Start(pushers), actions);
            && Discipline(s)
            && (Readable(s, c) ==>
                  (CutLines(s.wires[c]) == Cut(Texts(s.logs[c]), Partial(s, c), false) <==> c !in s.torn))
  {
    hide CutLines, Step, PcFits, Readable;
    RunFromStart(pushers, actions);
    if Readable(Run(Start(pushers), actions), c) {
      WireIsRead(Run(Start(pushers), actions), c);
    }
  }

  // ---- One socket per message ----------------------------------------------------------------

  /** The thread goes on sending what it is sending, over the whole run. */
  predicate SendsThroughout(s: State, actions: seq<Action>, t: nat)
    decreases |actions|
  {
    && t < |s.pcs| && s.pcs[t].Sending?
    && (actions == [] || SendsThroughout(Step(s, actions[0]), actions[1..], t))
  }

  /** The framing object is initialised for another socket only while it is not registered. */
  lemma StepKeepsSocket(s: State, a: Action)
    requires Discipline(s) && s.registered
    ensures Step(s, a).framingSock == s.framingSock
  {
  }

  /** The bytes of one message never go to two sockets: while a message is being sent, the
      framing object stays the same open, registered connection's, whatever else happens. */
  lemma {:induction false} OneSocketPerMessage(s: State, actions: seq<Action>, t: nat)
    requires Discipline(s) && SendsThroughout(s, actions, t)
    ensures var r := Run(s, actions);
            && r.framingSock == s.framingSock && r.framingSock in r.open && r.registered
            && !r.phase.NoConn? && r.phase.sock == s.phase.sock
    decreases |actions|
  {
    assert PcFits(s, t, s.pcs[t]);
    if actions != [] {
      hide Step, PcFits;
      StepKeepsDiscipline(s, actions[0]);
      StepKeepsSocket(s, actions[0]);
      OneSocketPerMessage(Step(s, actions[0]), actions[1..], t);
    }
  }

  // ---- Getting things done -------------------------------------------------------------------

  /** With the lock free, a thread that waits to write can write its message and let go. */
  lemma WriteGoesOut(s: State, t: nat)
    requires Discipline(s) && s.lock == -1 && s.registered
    requires t < |s.pcs| && s.pcs[t].Waiting? && s.pcs[t].op.Write?
    ensures var m, f := s.pcs[t].op.msg, s.framingSock;
            && f < |s.wires| == |s.logs|
            && Run(s, Writing(t, |m.text|)) == s.(pcs := s.pcs[t := Outside],
                                                   wires := s.wires[f := s.wires[f] + Line(m)],
                                                   logs := s.logs[f := s.logs[f] + [m]])
  {
    var m, f := s.pcs[t].op.msg, s.framingSock;
    var s1 := Step(s, Acquire(t));
    assert s1 == Goto(s, t, Holding(Write(m))).(lock := t);
    var s2 := Step(s1, Act(t));
    assert s2 == Goto(s, t, Sending(m, 0)).(lock := t);
    var s3 := Step(s2, SendSome(t, |m.text|));
    var s4 := Step(s3, SendSome(t, 1));
    SendsAll(s2, t, m);
    assert Step(s4, Release(t)).pcs == s.pcs[t := Outside];
    RunFive(s, Writing(t, |m.text|));
  }

  /** The steps by which a thread writes a text of this length. */
  function Writing(t: nat, length: nat): seq<Action> {
    [Acquire(t), Act(t), SendSome(t, length), SendSome(t, 1), Release(t)]
  }

  lemma SendsAll(s: State, t: nat, m: Msg)
    requires t < |s.pcs| && s.pcs[t] == Sending(m, 0) && s.framingSock < |s.wires| == |s.logs|
    ensures var f := s.framingSock;
            var r := Step(Step(s, SendSome(t, |m.text|)), SendSome(t, 1));
            r == Goto(s, t, Leaving).(wires := s.wires[f := s.wires[f] + Line(m)], logs := s.logs[f := s.logs[f] + [m]])
  {
    var f, s1 := s.framingSock, Step(s, SendSome(t, |m.text|));
    if m.text == "" {
      assert Line(m)[0..1] == Line(m);
    } else {
      assert Line(m)[0..|m.text|] == m.text;
      assert s1.pcs[t] == Sending(m, |m.text|) && s1.wires == s.wires[f := s.wires[f] + m.text];
      assert Line(m)[|m.text|..|m.text| + 1] == "\n";
      assert s.wires[f] + m.text + "\n" == s.wires[f] + Line(m);
      assert s1.pcs[t := Leaving] == s.pcs[t := Leaving];
    }
  }

  lemma RunFive(s: State, actions: seq<Action>)
    requires |actions| == 5
    ensures var r := Step(Step(Step(Step(s, actions[0]), actions[1]), actions[2]), actions[3]);
            Run(s, actions) == Step(r, actions[4])
  {
    hide Step;
    RunFour(s, actions);
    RunOne(Step(Step(Step(Step(s, actions[0]), actions[1]), actions[2]), actions[3]), actions[4..]);
    assert actions[4..][1..] == [];
  }

  /** What a client being turned away has been sent is the beginning of its notice. */
  predicate RefusalFits(s: State) {
    s.phase.Refusing? ==>
      && s.phase.other < |s.wires| && s.phase.sent <= |s.phase.notice| + 1
      && s.wires[s.phase.other] == (s.phase.notice + "\n")[..s.phase.sent]
  }

  lemma StepKeepsRefusal(s: State, a: Action)
    requires Discipline(s) && RefusalFits(s)
    ensures RefusalFits(Step(s, a))
  {
    hide PcFits, NewlineFree, Line;
    if a.RefuseSome? && s.phase.Refusing? && s.phase.sent + a.n <= |s.phase.notice| + 1 {
      var line := s.phase.notice + "\n";
      assert line[..s.phase.sent] + line[s.phase.sent..s.phase.sent + a.n] == line[..s.phase.sent + a.n];
    }
  }

  lemma {:induction false} RefusalInRun(s: State, actions: seq<Action>)
    requires Discipline(s) && RefusalFits(s)
    ensures RefusalFits(Run(s, actions))
    decreases |actions|
  {
    hide Step, Discipline, RefusalFits;
    if actions != [] {
      StepKeepsRefusal(s, actions[0]);
      StepKeepsDiscipline(s, actions[0]);
      RefusalInRun(Step(s, actions[0]), actions[1..]);
    }
  }

  /** A second client is sent its notice and a newline and nothing else, at most, in every
      run; and if it is sent all of it the wire it is left with is exactly that, closed,
      beside a connection that is served on. */
  lemma RefusalIsANotice(pushers: nat, actions: seq<Action>, notice: string)
    ensures var s := Run(Start(pushers), actions);
            RefusalFits(s) && (s.phase.Live? && Idle(s, 0) ==> RefusalCompletes(s, notice))
  {
    hide Run, RefusalCompletes;
    RunFromStart(pushers, actions);
    RefusalInRun(Start(pushers), actions);
    var s := Run(Start(pushers), actions);
    if s.phase.Live? && Idle(s, 0) {
      RefusalCanComplete(s, notice);
    }
  }

  /** Sending all of the notice leaves exactly that on the wire, which is then closed, and
      nothing else is touched. */
  predicate RefusalCompletes(s: State, notice: string) {
    var r := Step(Step(Step(s, Refuse(notice)), RefuseSome(|notice| + 1)), RefuseEnds);
    && r.wires == s.wires + [notice + "\n"] && r.logs == s.logs + [[]]
    && |s.wires| in r.refused && |s.wires| !in r.open
    && r.phase == s.phase && r.pcs == s.pcs
  }

  lemma RefusalCanComplete(s: State, notice: string)
    requires s.phase.Live? && Idle(s, 0)
    ensures RefusalCompletes(s, notice)
  {
    var other := |s.wires|;
    var s1 := Step(s, Refuse(notice));
    assert s1.wires == s.wires + [""] && s1.phase == Refusing(s.phase.sock, other, notice, 0);
    var s2 := Step(s1, RefuseSome(|notice| + 1));
    assert (notice + "\n")[0..|notice| + 1] == notice + "\n" && "" + (notice + "\n") == notice + "\n";
    assert s2.wires == s.wires + [notice + "\n"];
  }

  /** A connection that is dropped is unregistered and closed, with its log as it was. */
  lemma ClosingCompletes(s: State)
    requires Discipline(s) && s.phase.Live? && Idle(s, 0) && s.lock == -1
    ensures var r := Run(s, [Drop, Acquire(0), Act(0), Release(0), CloseSocket]);
            r == s.(phase := NoConn, registered := false, open := s.open - {s.phase.sock})
  {
    var c := s.phase.sock;
    hide Discipline;
    var s1 := Step(s, Drop);
    assert s1 == Goto(s, 0, Waiting(Unregister)).(phase := Closing(c));
    var s2 := Step(s1, Acquire(0));
    assert s2 == Goto(s, 0, Holding(Unregister)).(phase := Closing(c), lock := 0);
    var s3 := Step(s2, Act(0));
    assert s3 == Goto(s, 0, Leaving).(phase := Unregistered(c), lock := 0, registered := false);
    var s4 := Step(s3, Release(0));
    assert s4 == s.(phase := Unregistered(c), registered := false);
    RunFive(s, [Drop, Acquire(0), Act(0), Release(0), CloseSocket]);
  }

  // ---- What the code does not promise --------------------------------------------------------

  /** A connection registered but not yet greeted. */
  function JustRegistered(pushers: nat): State {
    Step(Step(Step(Step(Start(pushers), Accept(true)), Acquire(0)), Act(0)), Release(0))
  }

  /** A callback thread about to send `text`. */
  function Sends(s: State, text: string): State {
    Step(Step(Step(s, Say(1, text)), Acquire(1)), Act(1))
  }

  /** The same, sent in one piece. */
  function Pushed(s: State, text: string): State {
    Step(Step(Step(Sends(s, text), SendSome(1, |text|)), SendSome(1, 1)), Release(1))
  }

  /** The first connection, to which nothing was written before and no one is writing. */
  predicate Untouched(s: State) {
    |s.pcs| > 1 && Idle(s, 1) && s.lock == -1 && s.registered && s.framingSock == 0 && |s.wires| == |s.logs| == 1
  }

  lemma JustRegisteredIs(pushers: nat)
    requires pushers > 0
    ensures var s := JustRegistered(pushers);
            && Untouched(s) && s.phase == Registered(0) && s.wires == [""] && s.logs == [[]]
            && s.ungreeted == {} && s.refused == {}
  {
    var s0 := Start(pushers);
    var s1 := Step(s0, Accept(true));
    assert s1.pcs == s0.pcs[0 := Waiting(Register)];
    var s2 := Step(s1, Acquire(0));
    assert s2.pcs == s0.pcs[0 := Holding(Register)];
    var s3 := Step(s2, Act(0));
    assert s3.pcs == s0.pcs[0 := Leaving];
  }

  lemma SendsIs(s: State, text: string)
    requires Untouched(s) && NewlineFree(text)
    ensures Sends(s, text) == Goto(s, 1, Sending(Msg(Push, text), 0)).(lock := 1)
  {
    var m := Msg(Push, text);
    var s1 := Step(s, Say(1, text));
    assert s1 == Goto(s, 1, Waiting(Write(m)));
    var s2 := Step(s1, Acquire(1));
    assert s2.pcs == s.pcs[1 := Holding(Write(m))];
    assert Step(s2, Act(1)).pcs == s.pcs[1 := Sending(m, 0)];
  }

  lemma PushedIs(s: State, text: string)
    requires Untouched(s) && NewlineFree(text) && text != ""
    ensures Pushed(s, text) == s.(wires := [s.wires[0] + text + "\n"], logs := [s.logs[0] + [Msg(Push, text)]])
  {
    var m := Msg(Push, text);
    SendsIs(s, text);
    var s1 := Step(Sends(s, text), SendSome(1, |text|));
    assert Line(m)[0..|text|] == text;
    assert s1.pcs == s.pcs[1 := Sending(m, |text|)] && s1.wires == [s.wires[0] + text];
    var s2 := Step(s1, SendSome(1, 1));
    assert Line(m)[|text|..|text| + 1] == "\n";
    assert s2.pcs == s.pcs[1 := Leaving] && s2.wires == [s.wires[0] + text + "\n"];
    assert Step(s2, Release(1)).pcs == s.pcs;
  }

  /** An event can reach the client before the greeting. */
  lemma EventMayPrecedeGreeting(pushers: nat)
    requires pushers > 0
    ensures var s: State := Pushed(JustRegistered(pushers), "e");
            && s.phase == Registered(0) && s.logs == [[Msg(Push, "e")]] && s.wires == ["e\n"]
            && s.ungreeted == {} && s.refused == {}
  {
    hide JustRegistered, Pushed;
    JustRegisteredIs(pushers);
    PushedIs(JustRegistered(pushers), "e");
    assert [] + [Msg(Push, "e")] == [Msg(Push, "e")];
    assert "" + "e" + "\n" == "e\n";
  }

  /** The greeting is the first message of every connection it did not fail on. */
  predicate HelloLeads(s: State) {
    forall c | 0 <= c < |s.logs| && c !in s.ungreeted && s.logs[c] != [] :: s.logs[c][0].kind == Greeting
  }

  /** A callback thread completes its push on a connection with nothing on its log yet,
      and whose greeting has not failed. */
  predicate PushesFirst(s: State, a: Action) {
    && a.SendSome? && a.thread < |s.pcs| && s.pcs[a.thread].Sending?
    && s.pcs[a.thread].msg.kind.Push? && s.pcs[a.thread].sent == |s.pcs[a.thread].msg.text|
    && s.framingSock < |s.logs| && s.framingSock !in s.ungreeted && s.logs[s.framingSock] == []
  }

  /** The greeting goes on leading exactly if the step is not such a push. */
  lemma StepKeepsHello(s: State, a: Action)
    requires Discipline(s) && GreetingFits(s) && HelloLeads(s)
    ensures HelloLeads(Step(s, a)) <==> !PushesFirst(s, a)
  {
    if a.SendSome? {
      SendKeepsHello(s, a.thread, a.n);
    } else {
      OthersLeaveLogs(s, a);
    }
  }

  lemma SendKeepsHello(s: State, t: nat, n: nat)
    requires Discipline(s) && GreetingFits(s) && HelloLeads(s)
    ensures HelloLeads(Step(s, SendSome(t, n))) <==> !PushesFirst(s, SendSome(t, n))
  {
    SendKeepsGreeting(s, t, n);
    var s', f := Step(s, SendSome(t, n)), s.framingSock;
    if t < |s.pcs| && s.pcs[t].Sending? {
      assert PcFits(s, t, s.pcs[t]);
      var m, k := s.pcs[t].msg, s.pcs[t].sent;
      assert s'.ungreeted == s.ungreeted;
      if k == |m.text| {
        assert s'.logs == s.logs[f := s.logs[f] + [m]];
        hide Step, Discipline, GreetingFits;
        if s.logs[f] != [] {
          assert s'.logs[f][0] == s.logs[f][0];
        } else if f !in s.ungreeted {
          assert s'.logs[f] == [m];
          FirstIsNoAnswer(s', f, m);
        }
      } else {
        assert s'.logs == s.logs;
      }
    }
  }

  lemma FirstIsNoAnswer(s: State, c: nat, m: Msg)
    requires Discipline(s) && GreetingFits(s) && c < |s.logs| && c !in s.ungreeted && s.logs[c] == [m]
    ensures m.kind.Greeting? || m.kind.Push?
  {
    hide Discipline;
    assert Ordered(s.logs[c]) && !Greeted(s.logs[c][..0]);
  }

  predicate NoPushFirst(s: State, actions: seq<Action>)
    decreases |actions|
  {
    actions == [] || (!PushesFirst(s, actions[0]) && NoPushFirst(Step(s, actions[0]), actions[1..]))
  }

  /** Whatever the callback threads do otherwise, the greeting leads in every run in which
      none of them gets in first. */
  lemma {:induction false} HelloLeadsInRun(s: State, actions: seq<Action>)
    requires Discipline(s) && GreetingFits(s) && HelloLeads(s) && NoPushFirst(s, actions)
    ensures HelloLeads(Run(s, actions))
    decreases |actions|
  {
    hide Step, Discipline, GreetingFits, HelloLeads, PushesFirst;
    if actions != [] {
      StepKeepsHello(s, actions[0]);
      StepKeepsGreeting(s, actions[0]);
      HelloLeadsInRun(Step(s, actions[0]), actions[1..]);
    }
  }

  predicate NothingPushed(s: State) {
    forall c | 0 <= c < |s.logs| :: forall m | m in s.logs[c] :: m.kind != Push
  }

  lemma StepPushesNothing(s: State, a: Action)
    requires Discipline(s) && |s.pcs| == 1 && NothingPushed(s)
    ensures |Step(s, a).pcs| == 1 && NothingPushed(Step(s, a))
  {
    hide PcFits;
    if a.SendSome? && a.thread == 0 && s.pcs[0].Sending? {
      SenderIsServer(s);
      var m, s' := s.pcs[0].msg, Step(s, a);
      assert s'.logs == s.logs || s'.logs == s.logs[s.framingSock := s.logs[s.framingSock] + [m]];
    } else {
      assert Step(s, a).logs == s.logs || Step(s, a).logs == s.logs + [[]];
    }
  }

  lemma SenderIsServer(s: State)
    requires ThreadsFit(s) && |s.pcs| > 0 && s.pcs[0].Sending?
    ensures s.pcs[0].msg.kind != Push
  {
    assert PcFits(s, 0, s.pcs[0]);
  }

  lemma {:induction false} NothingPushedInRun(s: State, actions: seq<Action>)
    requires Discipline(s) && |s.pcs| == 1 && NothingPushed(s)
    ensures NothingPushed(Run(s, actions))
    decreases |actions|
  {
    hide Step, Discipline, NothingPushed;
    if actions != [] {
      StepKeepsDiscipline(s, actions[0]);
      StepPushesNothing(s, actions[0]);
      NothingPushedInRun(Step(s, actions[0]), actions[1..]);
    }
  }

  /** The greeting comes first, as promised, in every run exactly when there is no callback
      thread to push events. */
  lemma HelloLeadsIff(pushers: nat)
    ensures (forall actions: seq<Action> :: HelloLeads(Run(Start(pushers), actions))) <==> pushers == 0
  {
    hide Run, Start, HelloLeads;
    if pushers == 0 {
      forall actions: seq<Action>
        ensures HelloLeads(Run(Start(pushers), actions))
      {
        HelloLeadsAlone(actions);
      }
    } else {
      var actions := PushLeads(pushers);
    }
  }

  lemma HelloLeadsAlone(actions: seq<Action>)
    ensures HelloLeads(Run(Start(0), actions))
  {
    hide Run, Step;
    RunFromStart(0, actions);
    NothingPushedInRun(Start(0), actions);
    LeadsUnlessPushed(Run(Start(0), actions));
  }

  lemma PushLeads(pushers: nat) returns (actions: seq<Action>)
    requires pushers > 0
    ensures !HelloLeads(Run(Start(pushers), actions))
  {
    hide Run, Pushed, JustRegistered;
    actions := [Accept(true), Acquire(0), Act(0), Release(0), Say(1, "e"), Acquire(1), Act(1),
                SendSome(1, 1), SendSome(1, 1), Release(1)];
    RunIsPushed(pushers, actions);
    EventMayPrecedeGreeting(pushers);
    assert Run(Start(pushers), actions).logs[0] == [Msg(Push, "e")];
  }

  lemma LeadsUnlessPushed(s: State)
    requires Discipline(s) && GreetingFits(s) && NothingPushed(s)
    ensures HelloLeads(s)
  {
    hide Discipline;
    forall c | 0 <= c < |s.logs| && c !in s.ungreeted && s.logs[c] != []
      ensures s.logs[c][0].kind == Greeting
    {
      assert s.logs[c][0] in s.logs[c];
      assert Ordered(s.logs[c]);
      assert !Greeted(s.logs[c][..0]);
    }
  }

  lemma RunIsPushed(pushers: nat, actions: seq<Action>)
    requires actions == [Accept(true), Acquire(0), Act(0), Release(0), Say(1, "e"), Acquire(1), Act(1),
                         SendSome(1, 1), SendSome(1, 1), Release(1)]
    ensures Run(Start(pushers), actions) == Pushed(JustRegistered(pushers), "e")
  {
    hide Step;
    RunFour(Start(pushers), actions);
    RunFour(Step(Step(Step(Step(Start(pushers), actions[0]), actions[1]), actions[2]), actions[3]), actions[4..]);
    var s := Sends(JustRegistered(pushers), "e");
    RunOne(Step(s, SendSome(1, 1)), actions[8..]);
    RunOne(Step(Step(s, SendSome(1, 1)), SendSome(1, 1)), actions[9..]);
    assert actions[8..][1..] == actions[9..] && actions[9..][1..] == [] && actions[4..][4..] == actions[8..];
  }

  lemma RunOne(s: State, actions: seq<Action>)
    requires actions != []
    ensures Run(s, actions) == Run(Step(s, actions[0]), actions[1..])
  {
  }

  lemma RunFour(s: State, actions: seq<Action>)
    requires |actions| >= 4
    ensures var r := Step(Step(Step(Step(s, actions[0]), actions[1]), actions[2]), actions[3]);
            Run(s, actions) == Run(r, actions[4..])
  {
    hide Step;
    assert actions[1..][1..] == actions[2..] && actions[2..][1..] == actions[3..] && actions[3..][1..] == actions[4..];
    RunOne(s, actions);
    RunOne(Step(s, actions[0]), actions[1..]);
    RunOne(Step(Step(s, actions[0]), actions[1]), actions[2..]);
    RunOne(Step(Step(Step(s, actions[0]), actions[1]), actions[2]), actions[3..]);
  }

  /** A push that fails half-way leaves the connection open, and the next one is read as
      part of the first. */
  lemma FailedPushCorruptsTheNext(pushers: nat)
    requires pushers > 0
    ensures var failed := FailedPush(JustRegistered(pushers), "ab");
            Pushed(failed, "cd").wires == ["acd\n"] && Pushed(failed, "cd").logs == [[Msg(Push, "cd")]]
  {
    hide JustRegistered, Pushed, FailedPush;
    JustRegisteredIs(pushers);
    FailedPushIs(JustRegistered(pushers), "ab");
    var failed := FailedPush(JustRegistered(pushers), "ab");
    PushedIs(failed, "cd");
    assert [] + [Msg(Push, "cd")] == [Msg(Push, "cd")];
    assert "ab"[..1] + "cd" + "\n" == "acd\n";
  }

  /** A push of which one byte gets through. */
  function FailedPush(s: State, text: string): State {
    Step(Step(Step(Sends(s, text), SendSome(1, 1)), SendFails(1)), Release(1))
  }

  lemma FailedPushIs(s: State, text: string)
    requires Untouched(s) && s.wires == [""] && s.logs == [[]] && NewlineFree(text) && |text| > 1
    ensures var r := FailedPush(s, text); Untouched(r) && r.wires == [text[..1]] && r.logs == [[]]
  {
    hide Sends;
    var m := Msg(Push, text);
    SendsIs(s, text);
    var s1 := Step(Sends(s, text), SendSome(1, 1));
    assert Line(m)[0..1] == text[..1];
    assert "" + text[..1] == text[..1];
    assert s1.pcs[1] == Sending(m, 1) && s1.wires == [text[..1]];
    var s2 := Step(s1, SendFails(1));
    assert s2.pcs[1] == Leaving && s2.wires == s1.wires && s2.logs == s.logs;
  }
}
