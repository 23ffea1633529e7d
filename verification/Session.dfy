/** The control connection as its client sees it: the server thread, saying what Connection
    has it say, among the callback threads of Writers, in one step system. */
module Session {
  import opened Lines
  import opened Connection
  import Dispatch
  import Writers

  // ---- The server thread's part of a wire -----------------------------------------------------

  /** A message the server thread is done with: written whole, or not. */
  datatype Attempt = Attempt(text: string, whole: bool)

  /** What one step adds to the server thread's attempts on socket `c`. */
  function Finishes(net: Writers.State, a: Writers.Action, c: nat): seq<Attempt> {
    var net' := Writers.Step(net, a);
    if net.pcs == [] || net'.pcs == [] || !net.pcs[0].Sending? || net'.pcs[0].Sending? || net.framingSock != c then []
    else [Attempt(net.pcs[0].msg.text, a.SendSome?)]
  }

  function Whole(attempts: seq<Attempt>): seq<string> {
    if attempts == [] then []
    else
      var n := |attempts| - 1;
      Whole(attempts[..n]) + if attempts[n].whole then [attempts[n].text] else []
  }

  /** Lines that are not events of the callback threads. */
  function Unpushed(lines: seq<string>, log: seq<Writers.Msg>): seq<string>
    requires |lines| == |log|
  {
    if log == [] then []
    else
      var n := |log| - 1;
      Unpushed(lines[..n], log[..n]) + if log[n].kind.Push? then [] else [lines[n]]
  }

  function ServerPart(log: seq<Writers.Msg>): seq<string> {
    Unpushed(Writers.Texts(log), log)
  }

  function LogOf(net: Writers.State, c: nat): seq<Writers.Msg> {
    if c < |net.logs| then net.logs[c] else []
  }

  lemma ServerPartGrows(log: seq<Writers.Msg>, m: Writers.Msg)
    ensures ServerPart(log + [m]) == ServerPart(log) + if m.kind.Push? then [] else [m.text]
  {
    assert (log + [m])[..|log|] == log;
    assert Writers.Texts(log + [m])[..|log|] == Writers.Texts(log);
  }

  lemma WholeIs(attempts: seq<Attempt>, more: seq<Attempt>)
    ensures more == [] ==> Whole(attempts + more) == Whole(attempts)
    ensures |more| == 1 ==>
              Whole(attempts + more) == Whole(attempts) + if more[0].whole then [more[0].text] else []
  {
    if more == [] {
      assert attempts + more == attempts;
    } else if |more| == 1 {
      assert (attempts + more)[..|attempts|] == attempts;
    }
  }

  /** Only the server thread's finishing a message touches its part of a log. */
  lemma StepServerPart(net: Writers.State, a: Writers.Action, c: nat)
    requires Writers.Discipline(net)
    ensures ServerPart(LogOf(Writers.Step(net, a), c)) == ServerPart(LogOf(net, c)) + Whole(Finishes(net, a, c))
  {
    if a.SendSome? {
      SendServerPart(net, a.thread, a.n, c);
    } else {
      hide ServerPart;
      Writers.OthersLeaveLogs(net, a);
      WholeIs([], Finishes(net, a, c));
      assert ServerPart(LogOf(net, c)) + [] == ServerPart(LogOf(net, c));
    }
  }

  lemma SendServerPart(net: Writers.State, t: nat, n: nat, c: nat)
    requires Writers.Discipline(net)
    ensures var a := Writers.SendSome(t, n);
            ServerPart(LogOf(Writers.Step(net, a), c)) == ServerPart(LogOf(net, c)) + Whole(Finishes(net, a, c))
  {
    hide ServerPart, Writers.Step, Writers.ThreadsFit, Writers.ConnectionFits, Whole, LogOf;
    var a := Writers.SendSome(t, n);
    var k' := Writers.SendIs(net, t, n);
    var net' := Writers.Step(net, a);
    WholeIs([], Finishes(net, a, c));
    NoneWhole();
    assert [] + Finishes(net, a, c) == Finishes(net, a, c);
    assert ServerPart(LogOf(net, c)) + [] == ServerPart(LogOf(net, c));
    if net' != net {
      var m := net.pcs[t].msg;
      SenderKind(net, t);
      assert LogOf(net, c) + [] == LogOf(net, c);
      assert Writers.InLock(net.pcs[0]) <==> t == 0;
      LogAfterSend(net, net', t, m, net.pcs[t].sent, k', c);
      if k' == |Writers.Line(m)| && c == net.framingSock {
        ServerPartGrows(LogOf(net, c), m);
      }
    }
  }

  lemma NoneWhole()
    ensures Whole([]) == []
  {
  }

  lemma SenderKind(net: Writers.State, t: nat)
    requires Writers.ThreadsFit(net) && t < |net.pcs| && net.pcs[t].Sending?
    ensures net.pcs[t].msg.kind.Push? <==> t != 0
  {
    assert Writers.PcFits(net, t, net.pcs[t]);
  }

  lemma LogAfterSend(net: Writers.State, net': Writers.State, t: nat, m: Writers.Msg, k: nat, k': nat, c: nat)
    requires t < |net.pcs| && net.framingSock < |net.wires| == |net.logs| && k <= k' <= |Writers.Line(m)|
    requires Writers.Sent(net, net', t, m, k, k')
    ensures LogOf(net', c) == LogOf(net, c) + if k' == |Writers.Line(m)| && c == net.framingSock then [m] else []
  {
  }

  // ---- One step system ------------------------------------------------------------------------

  /** What the server thread runs: the request protocol, the daemon's state when each socket
      is taken up, and the text of each message. */
  datatype Daemon<!W> = Daemon(protocol: Dispatch.Protocol<W>, worlds: nat -> W, render: Out -> string)

  /** One connection: what was received on it, how many messages of its transcript the server
      thread has begun to write, and what became of those it is done with. */
  datatype Talk = Talk(input: string, begun: nat, attempts: seq<Attempt>)

  datatype State = State(net: Writers.State, talks: seq<Talk>)

  function Start(pushers: nat): State {
    State(Writers.Start(pushers), [])
  }

  /** What any thread does but choose the server thread's next message; bytes that arrive;
      and that choice, which the transcript makes. */
  datatype Action = Net(a: Writers.Action) | Receive(bytes: string) | Speak

  predicate Chooses(a: Writers.Action) {
    a.Greet? || a.SayInner? || (a.Say? && a.thread == 0)
  }

  function Script<W>(d: Daemon<W>, t: Talk, c: nat): seq<Out> {
    Transcript(d.protocol, t.input, d.worlds(c))
  }

  function Utter(o: Out, text: string): Writers.Action {
    match o
    case Hello => Writers.Greet(text)
    case Pushed(_) => Writers.SayInner(text)
    case Response(_) => Writers.Say(0, text)
    case BadRequestEvent(_) => Writers.Say(0, text)
  }

  /** A response that did not get out whole: the server thread says nothing more. */
  predicate Lost(script: seq<Out>, attempts: seq<Attempt>) {
    exists k :: 0 <= k < |attempts| && k < |script| && script[k].Response? && !attempts[k].whole
  }

  function Noted(s: State, a: Writers.Action, c: nat): Talk {
    if c < |s.talks| then s.talks[c].(attempts := s.talks[c].attempts + Finishes(s.net, a, c)) else Talk("", 0, [])
  }

  function NetStep(s: State, a: Writers.Action): State {
    var net' := Writers.Step(s.net, a);
    State(net', seq(|net'.wires|, c requires 0 <= c < |net'.wires| => Noted(s, a, c)))
  }

  function Step<W>(d: Daemon<W>, s: State, a: Action): State {
    match a
    case Net(a) => if Chooses(a) then s else NetStep(s, a)
    case Receive(bytes) =>
      if !s.net.phase.Live? || s.net.phase.sock >= |s.talks| then s
      else
        var c := s.net.phase.sock;
        s.(talks := s.talks[c := s.talks[c].(input := s.talks[c].input + bytes)])
    case Speak =>
      if s.net.phase.NoConn? || s.net.phase.sock >= |s.talks| then s
      else
        var c := s.net.phase.sock;
        var t := s.talks[c];
        var script := Script(d, t, c);
        if t.begun >= |script| || Lost(script, t.attempts) then s
        else
          var net' := Writers.Step(s.net, Utter(script[t.begun], d.render(script[t.begun])));
          if net' == s.net then s else State(net', s.talks[c := t.(begun := t.begun + 1)])
  }

  function Run<W>(d: Daemon<W>, s: State, actions: seq<Action>): State
    decreases |actions|
  {
    if actions == [] then s else Run(d, Step(d, s, actions[0]), actions[1..])
  }

  // ---- What every run keeps -------------------------------------------------------------------

  /** The text the server thread has begun to write on socket `c` and is not done with. */
  function PendingOn(net: Writers.State, c: nat): seq<string> {
    if net.phase.Live? && net.phase.sock == c && net.pcs != [] && Writers.Pending(net.pcs[0]) != [] then
      [Writers.Pending(net.pcs[0])[0].text]
    else []
  }

  /** The greeting has been begun exactly on a connection that is past being registered. */
  predicate GreetedWhenLive(net: Writers.State, begun: nat, c: nat) {
    && ((net.phase.Opening? || net.phase.Registered?) && net.phase.sock == c ==> begun == 0)
    && ((net.phase.Live? || net.phase.Refusing?) && net.phase.sock == c ==> begun > 0)
  }

  /** The messages begun are the first ones of the transcript, in order, the last of them
      perhaps still under way; nothing was begun after a lost response; and the server
      thread's part of the log is what got out whole. */
  predicate TalkFits<W>(d: Daemon<W>, net: Writers.State, t: Talk, c: nat) {
    var script, n, pending := Script(d, t, c), |t.attempts|, PendingOn(net, c);
    && n + |pending| == t.begun <= |script|
    && (forall k | 0 <= k < n :: t.attempts[k].text == d.render(script[k]))
    && (pending != [] ==> pending[0] == d.render(script[n]))
    && (forall k | 0 <= k < n :: script[k].Response? && !t.attempts[k].whole ==> t.begun == k + 1)
    && ServerPart(LogOf(net, c)) == Whole(t.attempts)
    && GreetedWhenLive(net, t.begun, c)
  }

  predicate Fit<W>(d: Daemon<W>, s: State) {
    && Writers.Good(s.net) && |s.talks| == |s.net.wires|
    && forall c | 0 <= c < |s.talks| :: TalkFits(d, s.net, s.talks[c], c)
  }

  /** A step that chooses nothing either leaves the message under way alone or is done
      with it. */
  lemma NetKeepsPending(net: Writers.State, a: Writers.Action, c: nat)
    requires Writers.Discipline(net) && !Chooses(a)
    ensures var done, pending := Finishes(net, a, c), PendingOn(net, c);
            if done == [] then PendingOn(Writers.Step(net, a), c) == pending
            else PendingOn(Writers.Step(net, a), c) == [] && pending == [done[0].text]
    ensures c < |net.wires| ==>
              forall begun: nat | GreetedWhenLive(net, begun, c) :: GreetedWhenLive(Writers.Step(net, a), begun, c)
  {
    assert Writers.PcFits(net, 0, net.pcs[0]);
    hide NewlineFree, Writers.Portion;
  }

  lemma StepIsGood(net: Writers.State, a: Writers.Action)
    requires Writers.Good(net)
    ensures Writers.Good(Writers.Step(net, a))
  {
    hide Writers.Step, Writers.Discipline, Writers.WiresFit, Writers.GreetingFits;
    Writers.StepKeepsWires(net, a);
    Writers.StepKeepsGreeting(net, a);
  }

  lemma NetKeepsTalk<W>(d: Daemon<W>, s: State, a: Writers.Action, c: nat)
    requires Writers.Discipline(s.net) && !Chooses(a) && c < |s.talks| == |s.net.wires|
    requires TalkFits(d, s.net, s.talks[c], c)
    ensures TalkFits(d, Writers.Step(s.net, a), Noted(s, a, c), c)
  {
    hide Writers.Step, Writers.Discipline, Transcript, ServerPart, LogOf, PendingOn, Finishes, Whole, GreetedWhenLive;
    var done := Finishes(s.net, a, c);
    NetKeepsPending(s.net, a, c);
    StepServerPart(s.net, a, c);
    WholeIs(s.talks[c].attempts, done);
    WholeIs([], done);
    NoneWhole();
    assert [] + done == done;
    assert Whole(s.talks[c].attempts) + [] == Whole(s.talks[c].attempts);
    AtMostOneDone(s.net, a, c);
  }

  lemma AtMostOneDone(net: Writers.State, a: Writers.Action, c: nat)
    ensures |Finishes(net, a, c)| <= 1
  {
  }

  lemma NewSocketUnspoken(net: Writers.State, a: Writers.Action, c: nat)
    requires Writers.Discipline(net) && !Chooses(a) && |net.wires| <= c < |Writers.Step(net, a).wires|
    ensures var net' := Writers.Step(net, a);
            LogOf(net', c) == [] && PendingOn(net', c) == [] && GreetedWhenLive(net', 0, c)
  {
    hide Writers.ThreadsFit, Writers.Portion, Writers.Line;
  }

  lemma NewSocketFits<W>(d: Daemon<W>, net: Writers.State, a: Writers.Action, c: nat)
    requires Writers.Discipline(net) && !Chooses(a) && |net.wires| <= c < |Writers.Step(net, a).wires|
    ensures TalkFits(d, Writers.Step(net, a), Talk("", 0, []), c)
  {
    hide Transcript, Finishes, Writers.PcFits, Writers.WellFormed;
    NewSocketUnspoken(net, a, c);
  }

  lemma NetKeepsFit<W>(d: Daemon<W>, s: State, a: Writers.Action)
    requires Fit(d, s) && !Chooses(a)
    ensures Fit(d, NetStep(s, a))
  {
    StepIsGood(s.net, a);
    var s' := NetStep(s, a);
    hide Writers.Step, TalkFits, Writers.Good;
    GoodIsDisciplined(s.net);
    forall c | 0 <= c < |s'.talks|
      ensures TalkFits(d, s'.net, s'.talks[c], c)
    {
      if c < |s.talks| {
        NetKeepsTalk(d, s, a, c);
      } else {
        NewSocketFits(d, s.net, a, c);
      }
    }
  }

  lemma GoodIsDisciplined(net: Writers.State)
    requires Writers.Good(net)
    ensures Writers.Discipline(net)
  {
  }

  /** What is received only adds to the transcript. */
  lemma ReceiveKeepsTalk<W>(d: Daemon<W>, net: Writers.State, t: Talk, c: nat, bytes: string)
    requires TalkFits(d, net, t, c)
    ensures TalkFits(d, net, t.(input := t.input + bytes), c)
  {
    hide Transcript, ServerPart, PendingOn, Whole;
    TranscriptGrows(d.protocol, t.input, bytes, d.worlds(c));
  }

  /** Beginning a message: it is the next of the transcript, and nothing else changes. */
  lemma SpeakKeepsTalk<W>(d: Daemon<W>, net: Writers.State, t: Talk, c: nat)
    requires Writers.Discipline(net) && !net.phase.NoConn? && net.phase.sock == c && TalkFits(d, net, t, c)
    requires t.begun < |Script(d, t, c)| && !Lost(Script(d, t, c), t.attempts)
    ensures var o := Script(d, t, c)[t.begun];
            var net' := Writers.Step(net, Utter(o, d.render(o)));
            net' != net ==> TalkFits(d, net', t.(begun := t.begun + 1), c)
  {
    hide Transcript, ServerPart, Whole;
    var o := Script(d, t, c)[t.begun];
    UtterIs(net, o, d.render(o));
  }

  lemma UtterIs(net: Writers.State, o: Out, text: string)
    requires Writers.Discipline(net)
    ensures var net' := Writers.Step(net, Utter(o, text));
            net' != net ==>
              && net'.logs == net.logs && net'.wires == net.wires && !net.phase.NoConn?
              && net'.phase == Writers.Live(net.phase.sock)
              && (forall c :: PendingOn(net, c) == [])
              && (forall c :: PendingOn(net', c) == if c == net.phase.sock then [text] else [])
  {
  }

  lemma OthersUnspoken<W>(d: Daemon<W>, net: Writers.State, net': Writers.State, t: Talk, c: nat)
    requires TalkFits(d, net, t, c) && net'.logs == net.logs && PendingOn(net', c) == PendingOn(net, c)
    requires net'.phase.Live? && net'.phase.sock != c
    ensures TalkFits(d, net', t, c)
  {
  }

  lemma SpeakKeepsFit<W>(d: Daemon<W>, s: State)
    requires Fit(d, s)
    ensures Fit(d, Step(d, s, Speak))
  {
    var s' := Step(d, s, Speak);
    if s' != s {
      var c := s.net.phase.sock;
      var script := Script(d, s.talks[c], c);
      var o := script[s.talks[c].begun];
      StepIsGood(s.net, Utter(o, d.render(o)));
      GoodIsDisciplined(s.net);
      UtterIs(s.net, o, d.render(o));
      SpeakKeepsTalk(d, s.net, s.talks[c], c);
      hide Step, TalkFits, Writers.Good, Writers.Step, Script;
      forall e | 0 <= e < |s'.talks|
        ensures TalkFits(d, s'.net, s'.talks[e], e)
      {
        if e != c {
          OthersUnspoken(d, s.net, s'.net, s.talks[e], e);
        }
      }
    }
  }

  lemma ReceiveKeepsFit<W>(d: Daemon<W>, s: State, bytes: string)
    requires Fit(d, s)
    ensures Fit(d, Step(d, s, Receive(bytes)))
  {
    hide TalkFits, Writers.Good;
    if s.net.phase.Live? && s.net.phase.sock < |s.talks| {
      var c := s.net.phase.sock;
      ReceiveKeepsTalk(d, s.net, s.talks[c], c, bytes);
    }
  }

  lemma StepKeepsFit<W>(d: Daemon<W>, s: State, a: Action)
    requires Fit(d, s)
    ensures Fit(d, Step(d, s, a))
  {
    hide Fit, NetStep;
    match a
    case Net(b) =>
      if !Chooses(b) {
        NetKeepsFit(d, s, b);
      }
    case Receive(bytes) => ReceiveKeepsFit(d, s, bytes);
    case Speak => SpeakKeepsFit(d, s);
  }

  lemma {:induction false} FitInRun<W>(d: Daemon<W>, s: State, actions: seq<Action>)
    requires Fit(d, s)
    ensures Fit(d, Run(d, s, actions))
    decreases |actions|
  {
    hide Step, Fit;
    if actions != [] {
      StepKeepsFit(d, s, actions[0]);
      FitInRun(d, Step(d, s, actions[0]), actions[1..]);
    }
  }

  lemma StartFits<W>(d: Daemon<W>, pushers: nat)
    ensures Fit(d, Start(pushers))
  {
    Writers.RunFromStart(pushers, []);
  }

  // ---- Getting the transcript out --------------------------------------------------------------

  /** The server thread has its connection, is free to say something, and has the lock for
      the asking. */
  predicate Free(s: State, c: nat) {
    && (s.net.phase.Registered? || s.net.phase.Live?) && s.net.phase.sock == c < |s.talks|
    && Writers.Idle(s.net, 0) && s.net.lock == -1
  }

  function KindOf(o: Out): Writers.Kind {
    match o
    case Hello => Writers.Greeting
    case Pushed(_) => Writers.Inner
    case Response(_) => Writers.Answer
    case BadRequestEvent(_) => Writers.Answer
  }

  lemma UtterEnabled(net: Writers.State, o: Out, text: string)
    requires Writers.Idle(net, 0) && NewlineFree(text)
    requires if o.Hello? then net.phase.Registered? else net.phase.Live?
    ensures var net' := Writers.Step(net, Utter(o, text));
            && net' == Writers.Goto(net, 0, Writers.Waiting(Writers.Write(Writers.Msg(KindOf(o), text)))).(
                         phase := Writers.Live(net.phase.sock))
            && net' != net
  {
  }

  /** A message is due, and can be said. */
  predicate Due<W>(d: Daemon<W>, t: Talk, c: nat) {
    var script := Script(d, t, c);
    t.begun < |script| && !Lost(script, t.attempts) && NewlineFree(d.render(script[t.begun]))
  }

  /** The next message of the transcript, hello exactly on a connection not yet greeted, can
      always be begun by a server thread that is free. */
  lemma SpeakGoesOn<W>(d: Daemon<W>, s: State, c: nat)
    requires Fit(d, s) && Free(s, c) && Due(d, s.talks[c], c)
    ensures var t := s.talks[c];
            var o := Script(d, t, c)[t.begun];
            var m := Writers.Msg(KindOf(o), d.render(o));
            && Step(d, s, Speak).net
               == Writers.Goto(s.net, 0, Writers.Waiting(Writers.Write(m))).(phase := Writers.Live(c))
            && Step(d, s, Speak).talks == s.talks[c := t.(begun := t.begun + 1)]
  {
    hide Script, Lost, Writers.Step, Fit, NewlineFree;
    var t := s.talks[c];
    var script := Script(d, t, c);
    ScriptGreets(d, t, c);
    GreetsFirst(d, s, c);
    UtterEnabled(s.net, script[t.begun], d.render(script[t.begun]));
  }

  lemma GreetsFirst<W>(d: Daemon<W>, s: State, c: nat)
    requires Fit(d, s) && Free(s, c)
    ensures s.net.phase.Registered? <==> s.talks[c].begun == 0
  {
    hide Script, Writers.Good, ServerPart;
    assert TalkFits(d, s.net, s.talks[c], c);
  }

  lemma LiveIsRegistered(net: Writers.State)
    requires Writers.Good(net) && net.phase.Live?
    ensures Writers.Discipline(net) && net.registered && net.framingSock == net.phase.sock < |net.wires| == |net.logs|
  {
    hide Writers.ThreadsFit, Writers.WiresFit, Writers.GreetingFits;
  }

  lemma FitIsGood<W>(d: Daemon<W>, s: State)
    requires Fit(d, s)
    ensures Writers.Good(s.net) && |s.talks| == |s.net.wires|
  {
  }

  lemma ScriptGreets<W>(d: Daemon<W>, t: Talk, c: nat)
    ensures forall k | 0 <= k < |Script(d, t, c)| :: Script(d, t, c)[k].Hello? <==> k == 0
  {
    TranscriptShape(d.protocol, t.input, d.worlds(c));
  }

  lemma NetLeavesTalk(s: State, a: Writers.Action, c: nat)
    requires c < |s.talks| <= |Writers.Step(s.net, a).wires|
    ensures var t, t' := s.talks[c], NetStep(s, a).talks[c];
            t'.input == t.input && t'.begun == t.begun && t.attempts <= t'.attempts
  {
  }

  function Nets(actions: seq<Writers.Action>): seq<Action> {
    seq(|actions|, k requires 0 <= k < |actions| => Net(actions[k]))
  }

  /** Steps of the threads alone. */
  lemma {:induction false} NetRun<W>(d: Daemon<W>, s: State, actions: seq<Writers.Action>, c: nat)
    requires Fit(d, s) && c < |s.talks| && forall a | a in actions :: !Chooses(a)
    ensures var r := Run(d, s, Nets(actions));
            && r.net == Writers.Run(s.net, actions) && c < |r.talks|
            && r.talks[c].input == s.talks[c].input && r.talks[c].begun == s.talks[c].begun
            && s.talks[c].attempts <= r.talks[c].attempts
    decreases |actions|
  {
    if actions != [] {
      var a := actions[0];
      assert a in actions && Nets(actions)[0] == Net(a) && Nets(actions)[1..] == Nets(actions[1..]);
      StepKeepsFit(d, s, Net(a));
      SocketsStay(s.net, a);
      NetLeavesTalk(s, a, c);
      hide Fit, Writers.Step, Chooses;
      NetRun(d, NetStep(s, a), actions[1..], c);
    }
  }

  lemma SocketsStay(net: Writers.State, a: Writers.Action)
    ensures |net.wires| <= |Writers.Step(net, a).wires|
  {
  }

  /** The message that is due gets out, in six steps, with everyone else standing by. */
  lemma MessageGetsOut<W>(d: Daemon<W>, s: State, c: nat) returns (actions: seq<Action>)
    requires Fit(d, s) && Free(s, c) && Due(d, s.talks[c], c)
    ensures OneGotOut(d, s, Run(d, s, actions), c)
  {
    hide Fit, Script, Lost, NewlineFree, Step, Writers.Good, Writers.Discipline, Writers.Step, Writers.Run, Run;
    var t := s.talks[c];
    var o := Script(d, t, c)[t.begun];
    var m := Writers.Msg(KindOf(o), d.render(o));
    SpeakGoesOn(d, s, c);
    StepKeepsFit(d, s, Speak);
    var s1 := Step(d, s, Speak);
    FitIsGood(d, s1);
    LiveIsRegistered(s1.net);
    Writers.WriteGoesOut(s1.net, 0);
    var writing := Writers.Writing(0, |m.text|);
    assert forall a | a in writing :: !Chooses(a);
    NetRun(d, s1, writing, c);
    FitInRun(d, s1, Nets(writing));
    var r := Run(d, s1, Nets(writing));
    actions := [Speak] + Nets(writing);
    RunFirst(d, s, Speak, Nets(writing));
    FitIsGood(d, r);
    WholeWhenIdle(d, s, r, c, m);
  }

  lemma IdleTalk<W>(d: Daemon<W>, s: State, c: nat)
    requires Fit(d, s) && c < |s.talks| && s.net.pcs != [] && s.net.pcs[0].Outside?
    ensures |s.talks[c].attempts| == s.talks[c].begun && ServerPart(LogOf(s.net, c)) == Whole(s.talks[c].attempts)
  {
    hide Script, Writers.Good, ServerPart, LogOf, Whole, GreetedWhenLive;
    assert TalkFits(d, s.net, s.talks[c], c);
  }

  /** A log that has grown by the message begun means that it was written whole. */
  lemma WholeWhenIdle<W>(d: Daemon<W>, s: State, r: State, c: nat, m: Writers.Msg)
    requires Fit(d, s) && Fit(d, r) && c < |s.talks| && c < |r.talks| && !m.kind.Push?
    requires s.net.pcs != [] && s.net.pcs[0].Outside? && r.net.pcs != [] && r.net.pcs[0].Outside?
    requires LogOf(r.net, c) == LogOf(s.net, c) + [m]
    requires s.talks[c].attempts <= r.talks[c].attempts && r.talks[c].begun == s.talks[c].begun + 1
    ensures |r.talks[c].attempts| == r.talks[c].begun && |s.talks[c].attempts| == s.talks[c].begun
    ensures r.talks[c].attempts[s.talks[c].begun].whole
  {
    hide Fit, ServerPart, LogOf, Whole;
    IdleTalk(d, s, c);
    IdleTalk(d, r, c);
    ServerPartGrows(LogOf(s.net, c), m);
    var a, b := s.talks[c].attempts, r.talks[c].attempts;
    assert b == a + [b[|a|]];
    WholeIs(a, [b[|a|]]);
  }

  /** Every message of the script can be said on one line. */
  predicate Sayable<W>(d: Daemon<W>, t: Talk, c: nat) {
    forall o | o in Script(d, t, c) :: NewlineFree(d.render(o))
  }

  lemma FreeIsDone<W>(d: Daemon<W>, s: State, c: nat)
    requires Fit(d, s) && Free(s, c)
    ensures |s.talks[c].attempts| == s.talks[c].begun <= |Script(d, s.talks[c], c)|
  {
    assert TalkFits(d, s.net, s.talks[c], c);
  }

  lemma SameScript<W>(d: Daemon<W>, t: Talk, t': Talk, c: nat)
    requires t'.input == t.input
    ensures Script(d, t', c) == Script(d, t, c)
  {
  }

  lemma StillNotLost(script: seq<Out>, a: seq<Attempt>, b: seq<Attempt>)
    requires !Lost(script, a) && a <= b && |b| == |a| + 1 && b[|a|].whole
    ensures !Lost(script, b)
  {
  }

  /** One message got out whole on socket `c`, and the server thread is free again. */
  predicate OneGotOut<W>(d: Daemon<W>, s: State, r: State, c: nat) {
    && c < |s.talks| && Fit(d, r) && Free(r, c) && r.net.phase.Live?
    && var a, b := s.talks[c], r.talks[c];
       && b.input == a.input && b.begun == a.begun + 1 == |b.attempts|
       && a.attempts <= b.attempts && |a.attempts| == a.begun && b.attempts[a.begun].whole
  }

  /** The whole script got out, all of it that was still to be said without a failure. */
  predicate AllGotOut<W>(d: Daemon<W>, s: State, r: State, c: nat) {
    && c < |s.talks| && Fit(d, r) && Free(r, c)
    && var a, b := s.talks[c], r.talks[c];
       && b.input == a.input && |b.attempts| == |Script(d, b, c)| && a.attempts <= b.attempts
       && forall k | |a.attempts| <= k < |b.attempts| :: b.attempts[k].whole
  }

  lemma OneThenAll<W>(d: Daemon<W>, s: State, s1: State, r: State, c: nat)
    requires OneGotOut(d, s, s1, c) && AllGotOut(d, s1, r, c)
    ensures AllGotOut(d, s, r, c)
  {
    hide Fit, Transcript;
    var a, b := s.talks[c].attempts, r.talks[c].attempts;
    assert b[|a|] == s1.talks[c].attempts[|a|];
  }

  lemma OneLeavesRest<W>(d: Daemon<W>, s: State, s1: State, c: nat)
    requires OneGotOut(d, s, s1, c) && Sayable(d, s.talks[c], c)
    requires !Lost(Script(d, s.talks[c], c), s.talks[c].attempts)
    ensures var t, t' := s.talks[c], s1.talks[c];
            && Script(d, t', c) == Script(d, t, c) && Sayable(d, t', c) && !Lost(Script(d, t', c), t'.attempts)
  {
    hide Fit, Transcript;
    SameScript(d, s.talks[c], s1.talks[c], c);
    StillNotLost(Script(d, s.talks[c], c), s.talks[c].attempts, s1.talks[c].attempts);
  }

  /** The rest of a transcript gets out. */
  lemma {:induction false} RestGetsOut<W>(d: Daemon<W>, s: State, c: nat) returns (actions: seq<Action>)
    requires Fit(d, s) && Free(s, c) && Sayable(d, s.talks[c], c)
    requires !Lost(Script(d, s.talks[c], c), s.talks[c].attempts)
    ensures AllGotOut(d, s, Run(d, s, actions), c)
    decreases |Script(d, s.talks[c], c)| - s.talks[c].begun
  {
    var t := s.talks[c];
    var script := Script(d, t, c);
    FreeIsDone(d, s, c);
    RunNothing(d, s);
    if t.begun == |script| {
      hide Fit, Script, Step, Lost, Run, NewlineFree;
      actions := [];
    } else {
      assert Due(d, t, c) by { assert script[t.begun] in script; }
      hide Fit, Script, Step, Lost, Run, Sayable, AllGotOut, Due;
      var first := MessageGetsOut(d, s, c);
      var s1 := Run(d, s, first);
      OneLeavesRest(d, s, s1, c);
      var rest := RestGetsOut(d, s1, c);
      RunAppend(d, s, first, rest);
      OneThenAll(d, s, s1, Run(d, s1, rest), c);
      actions := first + rest;
    }
  }

  lemma RunFirst<W>(d: Daemon<W>, s: State, a: Action, actions: seq<Action>)
    ensures Run(d, s, [a] + actions) == Run(d, Step(d, s, a), actions)
  {
    hide Step;
    assert ([a] + actions)[1..] == actions;
  }

  lemma RunNothing<W>(d: Daemon<W>, s: State)
    ensures Run(d, s, []) == s
  {
  }

  lemma {:induction false} RunAppend<W>(d: Daemon<W>, s: State, a: seq<Action>, b: seq<Action>)
    ensures Run(d, s, a + b) == Run(d, Run(d, s, a), b)
    decreases |a|
  {
    hide Step;
    if a == [] {
      assert a + b == b;
    } else {
      assert (a + b)[1..] == a[1..] + b;
      RunAppend(d, Step(d, s, a[0]), a[1..], b);
    }
  }

  /** Whatever the client sends next, a run exists in which it gets all that its connection's
      transcript then holds, whatever was written before and unless a response was lost. */
  lemma TranscriptGetsOut<W>(d: Daemon<W>, s: State, c: nat, bytes: string) returns (actions: seq<Action>)
    requires Fit(d, s) && Free(s, c) && s.net.phase.Live?
    requires var t := s.talks[c].(input := s.talks[c].input + bytes);
             Sayable(d, t, c) && !Lost(Script(d, t, c), t.attempts)
    ensures var r := Run(d, s, actions);
            && Fit(d, r) && r.talks != [] && c < |r.talks|
            && var script := Transcript(d.protocol, s.talks[c].input + bytes, d.worlds(c));
               && |r.talks[c].attempts| == |script| && s.talks[c].attempts <= r.talks[c].attempts
               && (forall k | |s.talks[c].attempts| <= k < |script| :: r.talks[c].attempts[k].whole)
               && (forall k | 0 <= k < |script| :: r.talks[c].attempts[k].text == d.render(script[k]))
  {
    hide Transcript;
    var s1 := Step(d, s, Receive(bytes));
    StepKeepsFit(d, s, Receive(bytes));
    var rest := RestGetsOut(d, s1, c);
    actions := [Receive(bytes)] + rest;
    assert actions[1..] == rest;
    var r := Run(d, s1, rest);
    assert Run(d, s, actions) == r;
    assert TalkFits(d, r.net, r.talks[c], c);
  }

  // ---- What the client reads ------------------------------------------------------------------

  /** The messages of a transcript that got out whole. */
  function Heard(script: seq<Out>, attempts: seq<Attempt>, render: Out -> string): seq<string>
    requires |attempts| <= |script|
  {
    if attempts == [] then []
    else
      var n := |attempts| - 1;
      Heard(script, attempts[..n], render) + if attempts[n].whole then [render(script[n])] else []
  }

  function Texts(said: seq<Out>, render: Out -> string): seq<string> {
    seq(|said|, k requires 0 <= k < |said| => render(said[k]))
  }

  lemma {:induction false} WholeIsHeard(script: seq<Out>, attempts: seq<Attempt>, render: Out -> string)
    requires |attempts| <= |script| && forall k | 0 <= k < |attempts| :: attempts[k].text == render(script[k])
    ensures Whole(attempts) == Heard(script, attempts, render)
  {
    if attempts != [] {
      WholeIsHeard(script, attempts[..|attempts| - 1], render);
    }
  }

  lemma {:induction false} AllHeard(script: seq<Out>, attempts: seq<Attempt>, render: Out -> string)
    requires |attempts| <= |script| && forall k | 0 <= k < |attempts| :: attempts[k].whole
    ensures Heard(script, attempts, render) == Texts(script[..|attempts|], render)
  {
    if attempts != [] {
      AllHeard(script, attempts[..|attempts| - 1], render);
    }
  }

  /** What a client gets, over every interleaving of the server thread with any number of
      callback threads: the lines it reads are, events of the callback threads apart, the
      messages of the transcript of what it sent that got out whole, in order, the events
      of its own commands among them; if no write has failed, a prefix of the transcript;
      and nothing comes after a response that was lost.  This holds of every wire no write
      to which failed half-way. */
  lemma ClientSeesTranscript<W>(d: Daemon<W>, pushers: nat, actions: seq<Action>, c: nat)
    ensures var s := Run(d, Start(pushers), actions);
            && Writers.Discipline(s.net)
            && (Writers.Readable(s.net, c) && c !in s.net.torn ==>
                  && c < |s.talks| && |s.talks[c].attempts| <= |Script(d, s.talks[c], c)|
                  && var lines, attempts := CutLines(s.net.wires[c]).lines, s.talks[c].attempts;
                     var script := Script(d, s.talks[c], c);
                     && |lines| == |s.net.logs[c]|
                     && Unpushed(lines, s.net.logs[c]) == Heard(script, attempts, d.render)
                     && ((forall k | 0 <= k < |attempts| :: attempts[k].whole) ==>
                           Unpushed(lines, s.net.logs[c]) == Texts(script[..|attempts|], d.render))
                     && (forall k | 0 <= k < |attempts| :: script[k].Response? && !attempts[k].whole ==>
                           k == |attempts| - 1))
  {
    hide CutLines, Run, Step, Transcript, Heard, Whole, Unpushed, Writers.Partial;
    StartFits(d, pushers);
    FitInRun(d, Start(pushers), actions);
    var s := Run(d, Start(pushers), actions);
    if Writers.Readable(s.net, c) && c !in s.net.torn {
      Writers.WireIsRead(s.net, c);
      assert TalkFits(d, s.net, s.talks[c], c);
      var script, attempts := Script(d, s.talks[c], c), s.talks[c].attempts;
      WholeIsHeard(script, attempts, d.render);
      if forall k | 0 <= k < |attempts| :: attempts[k].whole {
        AllHeard(script, attempts, d.render);
      }
    }
  }
}
