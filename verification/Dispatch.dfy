/** One request line to exactly one outcome. */
module Dispatch {
  import opened Options

  /** A parsed JSON element. */
  datatype Elem =
    | Null
    | Flag(isTrue: bool)
    | Number(num: real)
    | Str(str: string)
    | List(elems: seq<Elem>)
    | Obj(members: seq<(string, Elem)>)

  /** Index of the first member of that name, from the `i`-th on, or their number. */
  function MemberIndex(members: seq<(string, Elem)>, name: string, i: nat := 0): (k: nat)
    requires i <= |members|
    ensures i <= k <= |members|
    ensures k < |members| ==> members[k].0 == name
    ensures forall j | i <= j < k :: members[j].0 != name
    decreases |members| - i
  {
    if i == |members| || members[i].0 == name then i else MemberIndex(members, name, i + 1)
  }

  /** The first member of that name, if the element is an object that has one. */
  function Find(e: Elem, name: string): Option<Elem> {
    if !e.Obj? then None
    else
      var k := MemberIndex(e.members, name);
      if k < |e.members| then Some(e.members[k].1) else None
  }

  method FindMember(e: Elem, name: string) returns (r: Option<Elem>)
    ensures r == Find(e, name)
    ensures r.None? <==> e.Obj? ==> forall k | 0 <= k < |e.members| :: e.members[k].0 != name
    ensures r.Some? ==> e.Obj? && exists k :: 0 <= k < |e.members| && e.members[k] == (name, r.value)
                                              && forall j | 0 <= j < k :: e.members[j].0 != name
  {
    if !e.Obj? {
      return None;
    }
    var i := 0;
    while i < |e.members|
      invariant i <= |e.members|
      invariant forall j | 0 <= j < i :: e.members[j].0 != name
    {
      if e.members[i].0 == name {
        assert e.members[i] == (name, e.members[i].1);
        return Some(e.members[i].1);
      }
      i := i + 1;
    }
    return None;
  }

  const COMMANDS: seq<string> := [
    "ping", "version.get", "status.get",
    "account.configure", "account.register", "account.unregister", "account.remove",
    "device.list_audio", "device.list_video", "device.set_audio", "device.set_video",
    "call.dial", "call.hangup", "call.hangup_all", "call.get_info", "call.answer",
    "config.set_ring_timeout", "config.get_ring_timeout",
    "im.send", "im.typing"]

  /** Index of a command in the table, or its length. */
  method FindCommand(name: string) returns (i: nat)
    ensures i == CommandIndex(name)
  {
    i := 0;
    while i < |COMMANDS|
      invariant i <= |COMMANDS| && name !in COMMANDS[..i]
      invariant IndexFrom(name, i) == CommandIndex(name)
    {
      if name == COMMANDS[i] {
        return;
      }
      i := i + 1;
    }
  }

  function CommandIndex(name: string): (i: nat)
    ensures i <= |COMMANDS|
    ensures i < |COMMANDS| ==> COMMANDS[i] == name
    ensures name !in COMMANDS[..i]
  {
    IndexFrom(name, 0)
  }

  function IndexFrom(name: string, k: nat): (i: nat)
    requires k <= |COMMANDS| && name !in COMMANDS[..k]
    ensures k <= i <= |COMMANDS|
    ensures i < |COMMANDS| ==> COMMANDS[i] == name
    ensures name !in COMMANDS[..i]
    decreases |COMMANDS| - k
  {
    if k == |COMMANDS| || COMMANDS[k] == name then k else IndexFrom(name, k + 1)
  }

  lemma NamesDiffer(i: nat, k: nat)
    requires i < |COMMANDS| && k < |COMMANDS| && COMMANDS[i] == COMMANDS[k]
    ensures i == k
  {
  }

  /** The table has no shadowed entry: every command is found under its own name. */
  lemma EveryCommandReachable(k: nat)
    requires k < |COMMANDS|
    ensures CommandIndex(COMMANDS[k]) == k
  {
    var i := CommandIndex(COMMANDS[k]);
    NamesDiffer(i, k);
  }

  datatype Code = BadRequest | UnknownCommand | InvalidState | InvalidParams | PjsuaError

  datatype Failure = AlreadyExists | InvalidOperation | InvalidArgument | Other(status: int)

  function ErrorCode(f: Failure): Code {
    match f
    case AlreadyExists => InvalidState
    case InvalidOperation => InvalidState
    case InvalidArgument => InvalidParams
    case Other(_) => PjsuaError
  }

  function CodeText(c: Code): string {
    match c
    case BadRequest => "bad_request"
    case UnknownCommand => "unknown_command"
    case InvalidState => "invalid_state"
    case InvalidParams => "invalid_params"
    case PjsuaError => "pjsua_error"
  }

  datatype Reply = Done(result: Elem) | Refused(why: Failure, message: string)

  /** What a handler does: the library may call back before it returns, on the same thread,
      and events are then pushed ahead of the reply. */
  datatype Handled<W> = Handled(events: seq<Elem>, reply: Reply, after: W)

  /** The parser, and what the command handlers do.  `ordinal` is the request's place on
      its connection: a handler may answer differently each time, which leaves room for
      whatever the telephony callbacks did in between. */
  datatype Protocol<!W> = Protocol(
    parse: string -> Option<Elem>,
    handle: (nat, nat, Option<Elem>, W) -> Handled<W>)

  /** What comes of a line: the events pushed while its handler ran, the response, or None
      when no id ties it to a request, and the state left behind. */
  datatype Outcome<W> = Outcome(events: seq<Elem>, response: Option<Elem>, after: W)

  function FailureBody(code: Code, message: string): Elem {
    Obj([("code", Str(CodeText(code))), ("message", Str(message))])
  }

  function Failed(id: string, code: Code, message: string): Elem {
    Obj([("id", Str(id)), ("ok", Flag(false)), ("error", FailureBody(code, message))])
  }

  function Succeeded(id: string, result: Elem): Elem {
    Obj([("id", Str(id)), ("ok", Flag(true)), ("result", result)])
  }

  function Respond<W>(p: Protocol<W>, ordinal: nat, line: string, w: W): Outcome<W> {
    var request := p.parse(line);
    if request.None? || !request.value.Obj? then Outcome([], None, w)
    else
      var id := Find(request.value, "id");
      if id.None? || !id.value.Str? then Outcome([], None, w)
      else
        var cmd := Find(request.value, "cmd");
        if cmd.None? || !cmd.value.Str? then
          Outcome([], Some(Failed(id.value.str, BadRequest, "missing or invalid \"cmd\"")), w)
        else
          var i := CommandIndex(cmd.value.str);
          if i == |COMMANDS| then Outcome([], Some(Failed(id.value.str, UnknownCommand, "no such command")), w)
          else
            var Handled(events, reply, after) := p.handle(ordinal, i, Find(request.value, "params"), w);
            match reply
            case Done(result) => Outcome(events, Some(Succeeded(id.value.str, result)), after)
            case Refused(why, message) => Outcome(events, Some(Failed(id.value.str, ErrorCode(why), message)), after)
  }

  method DispatchLine<W>(p: Protocol<W>, ordinal: nat, line: string, w: W) returns (o: Outcome<W>)
    ensures o == Respond(p, ordinal, line, w)
  {
    var request := p.parse(line);
    if request.None? || !request.value.Obj? {
      return Outcome([], None, w);
    }
    var id := FindMember(request.value, "id");
    if id.None? || !id.value.Str? {
      return Outcome([], None, w);
    }
    var cmd := FindMember(request.value, "cmd");
    if cmd.None? || !cmd.value.Str? {
      return Outcome([], Some(Failed(id.value.str, BadRequest, "missing or invalid \"cmd\"")), w);
    }
    var i := FindCommand(cmd.value.str);
    if i == |COMMANDS| {
      return Outcome([], Some(Failed(id.value.str, UnknownCommand, "no such command")), w);
    }
    var params := FindMember(request.value, "params");
    var Handled(events, reply, after) := p.handle(ordinal, i, params, w);
    match reply
    case Done(result) => return Outcome(events, Some(Succeeded(id.value.str, result)), after);
    case Refused(why, message) => return Outcome(events, Some(Failed(id.value.str, ErrorCode(why), message)), after);
  }

  /** The id a line can be answered under. */
  function UsableId<W>(p: Protocol<W>, line: string): Option<string> {
    var request := p.parse(line);
    if request.None? then None
    else
      var id := Find(request.value, "id");
      if id.None? || !id.value.Str? then None else Some(id.value.str)
  }

  /** The command a line names, as an index into the table. */
  function KnownCommand<W>(p: Protocol<W>, line: string): Option<nat> {
    var request := p.parse(line);
    if request.None? then None
    else
      var cmd := Find(request.value, "cmd");
      if cmd.None? || !cmd.value.Str? || CommandIndex(cmd.value.str) == |COMMANDS| then None
      else Some(CommandIndex(cmd.value.str))
  }

  /** A response is a response: it exists exactly when the line has a string id, echoes
      that id, says whether it worked, and carries a result exactly when it did and an
      error exactly when it did not. */
  lemma ResponseEnvelope<W>(p: Protocol<W>, ordinal: nat, line: string, w: W)
    ensures var r := Respond(p, ordinal, line, w).response; var id := UsableId(p, line);
            && (r.Some? <==> id.Some?)
            && (r.Some? ==>
                  && Find(r.value, "id") == Some(Str(id.value))
                  && Find(r.value, "ok").Some? && Find(r.value, "ok").value.Flag?
                  && (Find(r.value, "result").Some? <==> Find(r.value, "ok") == Some(Flag(true)))
                  && (Find(r.value, "error").Some? <==> Find(r.value, "ok") == Some(Flag(false))))
  {
    hide MemberIndex, CommandIndex;
    var r := Respond(p, ordinal, line, w).response;
    if r.Some? {
      var m := r.value.members;
      assert m == [("id", m[0].1), ("ok", m[1].1), (m[2].0, m[2].1)];
      assert r.value == Obj([("id", m[0].1), ("ok", m[1].1), (m[2].0, m[2].1)]);
      ThreeMembers(m[0].1, m[1].1, m[2].0, m[2].1);
    }
  }

  /** The members of a response, found by name. */
  lemma ThreeMembers(id: Elem, ok: Elem, last: string, body: Elem)
    requires last == "result" || last == "error"
    ensures var r := Obj([("id", id), ("ok", ok), (last, body)]);
            && Find(r, "id") == Some(id) && Find(r, "ok") == Some(ok)
            && (Find(r, "result").Some? <==> last == "result") && (Find(r, "error").Some? <==> last == "error")
            && Find(r, last) == Some(body)
  {
    var m := [("id", id), ("ok", ok), (last, body)];
    assert "id"[0] == 'i' && "ok"[0] == 'o' && "result"[0] == 'r' && "error"[0] == 'e';
    assert m[0].0 == "id" && m[1].0 == "ok" && m[2].0 == last;
    assert MemberIndex(m, "id") == 0 && MemberIndex(m, "ok") == 1 && MemberIndex(m, last) == 2;
  }

  /** What a request that reaches its handler comes to is the handler's doing: its events,
      the state it leaves, its result, or its failure with its own message. */
  lemma HandlerDecides<W>(p: Protocol<W>, ordinal: nat, line: string, w: W)
    requires UsableId(p, line).Some? && KnownCommand(p, line).Some?
    ensures var params := Find(p.parse(line).value, "params");
            var h := p.handle(ordinal, KnownCommand(p, line).value, params, w);
            var o := Respond(p, ordinal, line, w);
            && o.events == h.events && o.after == h.after && o.response.Some?
            && Find(o.response.value, "ok") == Some(Flag(h.reply.Done?))
            && if h.reply.Done? then Find(o.response.value, "result") == Some(h.reply.result)
               else
                 var error := Find(o.response.value, "error");
                 && error.Some? && Find(error.value, "code") == Some(Str(CodeText(ErrorCode(h.reply.why))))
                 && Find(error.value, "message") == Some(Str(h.reply.message))
  {
    var params := Find(p.parse(line).value, "params");
    var h := p.handle(ordinal, KnownCommand(p, line).value, params, w);
    var id := UsableId(p, line).value;
    hide Find, CommandIndex, ErrorCode, CodeText;
    match h.reply
    case Done(result) => ThreeMembers(Str(id), Flag(true), "result", result);
    case Refused(why, message) =>
      var error := FailureBody(ErrorCode(why), message);
      ThreeMembers(Str(id), Flag(false), "error", error);
      BodyMembers(ErrorCode(why), message);
  }

  lemma BodyMembers(c: Code, message: string)
    ensures Find(FailureBody(c, message), "code") == Some(Str(CodeText(c)))
    ensures Find(FailureBody(c, message), "message") == Some(Str(message))
  {
    var m := FailureBody(c, message).members;
    assert "code"[0] == 'c' && "message"[0] == 'm';
    assert m[0].0 == "code" && m[1].0 == "message";
    assert MemberIndex(m, "code") == 0 && MemberIndex(m, "message") == 1;
  }

  /** A handler runs only for a request with a usable id and a known command: every other
      line, however broken, leaves the daemon's state as it was and pushes no event. */
  lemma OnlyRequestsAct<W>(p: Protocol<W>, ordinal: nat, line: string, w: W)
    requires UsableId(p, line).None? || KnownCommand(p, line).None?
    ensures Respond(p, ordinal, line, w).after == w && Respond(p, ordinal, line, w).events == []
  {
  }

  /** The code of an error response, if it is one. */
  function CodeOf(response: Elem): Option<string> {
    var error := Find(response, "error");
    if error.None? then None
    else
      var code := Find(error.value, "code");
      if code.None? || !code.value.Str? then None else Some(code.value.str)
  }

  /** Which error a request with a usable id is answered with, and when. */
  lemma ErrorCodes<W>(p: Protocol<W>, ordinal: nat, line: string, w: W)
    requires UsableId(p, line).Some?
    ensures var r := Respond(p, ordinal, line, w).response; var cmd := Find(p.parse(line).value, "cmd");
            var named := cmd.Some? && cmd.value.Str?;
            && r.Some?
            && (CodeOf(r.value) == Some("bad_request") <==> !named)
            && (CodeOf(r.value) == Some("unknown_command") <==> named && cmd.value.str !in COMMANDS)
            && (named && cmd.value.str in COMMANDS ==>
                  var params := Find(p.parse(line).value, "params");
                  var reply := p.handle(ordinal, CommandIndex(cmd.value.str), params, w).reply;
                  && (CodeOf(r.value) == Some("invalid_state") <==>
                        reply.Refused? && (reply.why.AlreadyExists? || reply.why.InvalidOperation?))
                  && (CodeOf(r.value) == Some("invalid_params") <==> reply.Refused? && reply.why.InvalidArgument?)
                  && (CodeOf(r.value) == Some("pjsua_error") <==> reply.Refused? && reply.why.Other?))
  {
    var request := p.parse(line).value;
    assert request.Obj?;
    hide CodeOf, CodeText, Failed, Succeeded, Find, CommandIndex;
    var id, cmd := Find(request, "id").value.str, Find(request, "cmd");
    CodesDiffer();
    CodeOfFailed(id, BadRequest, "missing or invalid \"cmd\"");
    CodeOfFailed(id, UnknownCommand, "no such command");
    if cmd.Some? && cmd.value.Str? {
      var i := CommandIndex(cmd.value.str);
      CommandIndexFinds(cmd.value.str);
      if i < |COMMANDS| {
        match p.handle(ordinal, i, Find(request, "params"), w).reply
        case Done(result) => CodeOfSucceeded(id, result);
        case Refused(why, message) => CodeOfFailed(id, ErrorCode(why), message);
      }
    }
  }

  lemma CommandIndexFinds(name: string)
    ensures CommandIndex(name) < |COMMANDS| <==> name in COMMANDS
  {
    assert COMMANDS[..|COMMANDS|] == COMMANDS;
  }

  lemma CodeOfFailed(id: string, c: Code, m: string)
    ensures CodeOf(Failed(id, c, m)) == Some(CodeText(c))
  {
    var e := Failed(id, c, m);
    assert "id"[0] == 'i' && "ok"[0] == 'o' && "error"[0] == 'e';
    assert e.members[0].0 == "id" && e.members[1].0 == "ok" && e.members[2].0 == "error";
    assert MemberIndex(e.members, "error") == 2;
  }

  lemma CodeOfSucceeded(id: string, result: Elem)
    ensures CodeOf(Succeeded(id, result)) == None
  {
    var e := Succeeded(id, result);
    assert "id"[0] == 'i' && "ok"[0] == 'o' && "result"[0] == 'r' && "error"[0] == 'e';
    assert MemberIndex(e.members, "error") == 3;
  }

  lemma CodesDiffer()
    ensures forall c, d :: CodeText(c) == CodeText(d) ==> c == d
    ensures "bad_request" == CodeText(BadRequest) && "unknown_command" == CodeText(UnknownCommand)
    ensures "invalid_state" == CodeText(InvalidState) && "invalid_params" == CodeText(InvalidParams)
    ensures "pjsua_error" == CodeText(PjsuaError)
  {
    assert "bad_request"[0] == 'b' && "unknown_command"[0] == 'u' && "pjsua_error"[0] == 'p';
    assert "invalid_state"[8] == 's' && "invalid_params"[8] == 'p';
    assert "invalid_state"[0] == 'i' && "invalid_params"[0] == 'i';
  }
}
