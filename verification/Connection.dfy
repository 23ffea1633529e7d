/** The request loop of one control connection: what the server thread says in return for
    what it was sent. */
module Connection {
  import opened Options
  import opened Lines
  import opened LineWindow
  import opened Dispatch

  /** What the server thread writes: the greeting, responses, error events, and the events
      of callbacks that the library runs on it while it handles a request. */
  datatype Out = Hello | Response(elem: Elem) | BadRequestEvent(message: string) | Pushed(event: Elem)

  const UNUSABLE := BadRequestEvent("not a JSON object with a string \"id\"")
  const TOO_LONG := BadRequestEvent("line exceeds maximum length")

  function Pushes(events: seq<Elem>): (r: seq<Out>)
    ensures |r| == |events| && forall k | 0 <= k < |r| :: r[k] == Pushed(events[k])
  {
    seq(|events|, k requires 0 <= k < |events| => Pushed(events[k]))
  }

  /** What the `ordinal`-th line gets: the events of its handler, and then the one message
      that answers it. */
  function Answer<W>(p: Protocol<W>, ordinal: nat, line: string, w: W): (r: seq<Out>)
    ensures r != []
  {
    var o := Respond(p, ordinal, line, w);
    Pushes(o.events) + [if o.response.Some? then Response(o.response.value) else UNUSABLE]
  }

  function StateAfter<W>(p: Protocol<W>, lines: seq<string>, w: W): W {
    if lines == [] then w
    else
      var n := |lines| - 1;
      Respond(p, n, lines[n], StateAfter(p, lines[..n], w)).after
  }

  /** What all lines get, in request order. */
  function Answers<W>(p: Protocol<W>, lines: seq<string>, w: W): seq<Out> {
    if lines == [] then []
    else
      var n := |lines| - 1;
      Answers(p, lines[..n], w) + Answer(p, n, lines[n], StateAfter(p, lines[..n], w))
  }

  /** Everything the server thread says on a connection that carried `stream`. */
  function Transcript<W>(p: Protocol<W>, stream: string, w: W): seq<Out> {
    var c := CutLines(stream);
    [Hello] + Answers(p, c.lines, w) + if c.tooBig then [TOO_LONG] else []
  }

  lemma AnswersOneMore<W>(p: Protocol<W>, lines: seq<string>, line: string, w: W)
    ensures Answers(p, lines + [line], w)
         == Answers(p, lines, w) + Answer(p, |lines|, line, StateAfter(p, lines, w))
    ensures StateAfter(p, lines + [line], w) == Respond(p, |lines|, line, StateAfter(p, lines, w)).after
  {
    assert (lines + [line])[..|lines|] == lines;
  }

  lemma {:induction false} AnswersAreSteady<W>(p: Protocol<W>, lines: seq<string>, more: seq<string>, w: W)
    ensures Answers(p, lines, w) <= Answers(p, lines + more, w)
    decreases |more|
  {
    hide Answers, Answer, StateAfter, Respond;
    if more == [] {
      assert lines + more == lines;
    } else {
      var n := |more| - 1;
      AnswersAreSteady(p, lines, more[..n], w);
      AnswersOneMore(p, lines + more[..n], more[n], w);
      assert lines + more == lines + more[..n] + [more[n]];
    }
  }

  lemma AnswerEnds<W>(p: Protocol<W>, ordinal: nat, line: string, w: W)
    ensures var id, block := UsableId(p, line), Answer(p, ordinal, line, w);
            var last := block[|block| - 1];
            && (forall i | 0 <= i < |block| - 1 :: block[i].Pushed?)
            && (if id.Some? then last.Response? && Find(last.elem, "id") == Some(Str(id.value))
                else block == [UNUSABLE])
            && (Acted(p, line) ==> HandlerAnswers(p, ordinal, line, w, block))
  {
    ResponseEnvelope(p, ordinal, line, w);
    if UsableId(p, line).None? {
      OnlyRequestsAct(p, ordinal, line, w);
    } else if KnownCommand(p, line).Some? {
      HandlerDecides(p, ordinal, line, w);
    }
    hide Respond, UsableId, KnownCommand, Find;
  }

  /** The line names a command, and can be answered. */
  predicate Acted<W>(p: Protocol<W>, line: string) {
    UsableId(p, line).Some? && KnownCommand(p, line).Some?
  }

  /** The block is what the line's handler pushed, and then its result, or its failure. */
  predicate HandlerAnswers<W>(p: Protocol<W>, ordinal: nat, line: string, w: W, block: seq<Out>)
    requires Acted(p, line)
  {
    var h := p.handle(ordinal, KnownCommand(p, line).value, Find(p.parse(line).value, "params"), w);
    && |block| == |h.events| + 1 && block[..|h.events|] == Pushes(h.events)
    && var last := block[|h.events|];
       && last.Response?
       && if h.reply.Done? then Find(last.elem, "result") == Some(h.reply.result)
          else Find(last.elem, "result").None? && Find(last.elem, "error").Some?
  }

  /** What each line gets, whatever surrounds it: directly after what the lines before it
      got, the events of its own handler, and then one response echoing its id when it has
      one, with the handler's result if it succeeded; and otherwise one bad_request event. */
  lemma OneOutcomePerLine<W>(p: Protocol<W>, lines: seq<string>, w: W, k: nat)
    requires k < |lines|
    ensures var id := UsableId(p, lines[k]);
            var before, block := Answers(p, lines[..k], w), Answer(p, k, lines[k], StateAfter(p, lines[..k], w));
            var last := block[|block| - 1];
            && before + block <= Answers(p, lines, w)
            && (k == |lines| - 1 ==> before + block == Answers(p, lines, w))
            && (forall i | 0 <= i < |block| - 1 :: block[i].Pushed?)
            && (if id.Some? then last.Response? && Find(last.elem, "id") == Some(Str(id.value))
                else block == [UNUSABLE])
            && (Acted(p, lines[k]) ==> HandlerAnswers(p, k, lines[k], StateAfter(p, lines[..k], w), block))
  {
    hide Respond, UsableId, KnownCommand, Find, Answer, HandlerAnswers, Acted;
    var w' := StateAfter(p, lines[..k], w);
    AnswerEnds(p, k, lines[k], w');
    AnswersOneMore(p, lines[..k], lines[k], w);
    assert lines[..k] + [lines[k]] == lines[..k + 1];
    AnswersPrefix(p, lines, k + 1, w);
    assert lines[..|lines|] == lines;
  }

  lemma AnswersPrefix<W>(p: Protocol<W>, lines: seq<string>, n: nat, w: W)
    requires n <= |lines|
    ensures Answers(p, lines[..n], w) <= Answers(p, lines, w)
  {
    AnswersAreSteady(p, lines[..n], lines[n..], w);
    assert lines[..n] + lines[n..] == lines;
  }

  /** Whether the connection ends, in terms of what was said on the way. */
  lemma DropsIff<W>(p: Protocol<W>, w: W, writes: nat -> bool, inputs: seq<Arrival>, before: seq<Out>, said: seq<Out>)
    requires inputs != [] && before <= said <= Transcript(p, Fed(inputs), w) && !LostIn(before, writes)
    requires said == Transcript(p, Fed(inputs), w) || LostSince(said, writes, |before|)
    ensures LostSince(said, writes, |before|) <==> LostIn(said, writes)
    ensures var last := inputs[|inputs| - 1];
            Drops(p, w, writes, inputs) <==>
              (|| last.Broken?
               || (last.Readable? && last.waiting == "")
               || CutLines(Fed(inputs)).tooBig
               || LostSince(said, writes, |before|))
  {
    hide CutLines, Transcript, Fed;
  }

  /** A response from the `from`-th message on cannot be written. */
  ghost predicate LostSince(said: seq<Out>, writes: nat -> bool, from: nat) {
    exists k :: from <= k < |said| && said[k].Response? && !writes(k)
  }

  /** What has been said when these of a stream's lines are answered. */
  lemma PartTold<W>(p: Protocol<W>, stream: string, done: seq<string>, w: W)
    requires done <= CutLines(stream).lines
    ensures var c, said := CutLines(stream), [Hello] + Answers(p, done, w);
            && c.lines[..|done|] == done
            && said <= Transcript(p, stream, w)
            && (done == c.lines ==> Transcript(p, stream, w) == said + if c.tooBig then [TOO_LONG] else [])
  {
    hide CutLines, Answers;
    AnswersPrefix(p, CutLines(stream).lines, |done|, w);
  }

  /** A transcript is greeted once, at its beginning, and complains once, at its end, exactly
      if a line was oversized. */
  lemma TranscriptShape<W>(p: Protocol<W>, stream: string, w: W)
    ensures var t := Transcript(p, stream, w);
            && (forall k | 0 <= k < |t| :: t[k].Hello? <==> k == 0)
            && (forall k | 0 <= k < |t| :: t[k] == TOO_LONG <==> k == |t| - 1 && CutLines(stream).tooBig)
  {
    hide CutLines, Answers;
    NoneInAnswers(p, CutLines(stream).lines, w);
  }

  lemma {:induction false} NoneInAnswers<W>(p: Protocol<W>, lines: seq<string>, w: W)
    ensures Hello !in Answers(p, lines, w) && TOO_LONG !in Answers(p, lines, w)
  {
    if lines != [] {
      hide Respond;
      assert UNUSABLE.message[0] == 'n' && TOO_LONG.message[0] == 'l';
      NoneInAnswers(p, lines[..|lines| - 1], w);
    }
  }

  /** More bytes never change what was said before them. */
  lemma TranscriptGrows<W>(p: Protocol<W>, a: string, b: string, w: W)
    ensures Transcript(p, a, w) <= Transcript(p, a + b, w)
    ensures CutLines(a).tooBig ==> CutLines(a + b).tooBig && Transcript(p, a, w) == Transcript(p, a + b, w)
  {
    hide CutLines, Answers;
    var c, d := CutLines(a), CutLines(a + b);
    if c.tooBig {
      CutStopsAtTooBig(a, b);
    } else {
      CutGrows(a, b);
      AnswersAreSteady(p, c.lines, d.lines[|c.lines|..], w);
      assert c.lines + d.lines[|c.lines|..] == d.lines;
    }
  }

  // ---- What arrives ---------------------------------------------------------------------

  /** How much of a stream is held back as an unfinished line. */
  function Held(consumed: string): (n: nat)
    ensures n <= MAX_LINE
  {
    CutIsACut(consumed);
    |CutLines(consumed).rest|
  }

  /** How many bytes one more arrival brings. */
  function Taken(consumed: string, arrival: Arrival): (n: nat)
    ensures arrival.Readable? ==> n <= |arrival.waiting|
  {
    if arrival.Readable? then RecvCount(Held(consumed), |arrival.waiting|, arrival.want) else 0
  }

  function Fetched(consumed: string, arrival: Arrival): string {
    if arrival.Readable? then arrival.waiting[..Taken(consumed, arrival)] else ""
  }

  lemma FetchedIs(consumed: string, arrival: Arrival)
    ensures Fetched(consumed, arrival)
         == if Taken(consumed, arrival) > 0 then arrival.waiting[..Taken(consumed, arrival)] else ""
  {
  }

  /** All the bytes these arrivals brought. */
  function Fed(inputs: seq<Arrival>): string {
    if inputs == [] then ""
    else
      var before := Fed(inputs[..|inputs| - 1]);
      before + Fetched(before, inputs[|inputs| - 1])
  }

  lemma FedOneMore(inputs: seq<Arrival>, arrival: Arrival)
    ensures Fed(inputs + [arrival]) == Fed(inputs) + Fetched(Fed(inputs), arrival)
  {
    assert (inputs + [arrival])[..|inputs|] == inputs;
  }

  /** Some response among these messages cannot be written. */
  ghost predicate LostIn(said: seq<Out>, writes: nat -> bool) {
    exists k :: 0 <= k < |said| && said[k].Response? && !writes(k)
  }

  /** The last of these arrivals ends the connection: the peer is gone, a line is oversized,
      or a response is lost. */
  ghost predicate Drops<W>(p: Protocol<W>, w: W, writes: nat -> bool, inputs: seq<Arrival>) {
    && inputs != []
    && var last := inputs[|inputs| - 1];
       || last.Broken?
       || (last.Readable? && last.waiting == "")
       || CutLines(Fed(inputs)).tooBig
       || LostIn(Transcript(p, Fed(inputs), w), writes)
  }

  /** None of them did. */
  ghost predicate AllKept<W>(p: Protocol<W>, w: W, writes: nat -> bool, inputs: seq<Arrival>) {
    forall n | 0 <= n <= |inputs| :: !Drops(p, w, writes, inputs[..n])
  }

  lemma KeptOneMore<W>(p: Protocol<W>, w: W, writes: nat -> bool, inputs: seq<Arrival>, arrival: Arrival)
    ensures AllKept(p, w, writes, inputs + [arrival]) <==>
              AllKept(p, w, writes, inputs) && !Drops(p, w, writes, inputs + [arrival])
  {
    hide Drops;
    var more := inputs + [arrival];
    assert forall n | 0 <= n <= |inputs| :: more[..n] == inputs[..n];
    assert more[..|more|] == more;
  }

  /** The arrivals are those of a peer that sends `stream`: each time, all that it has not got
      across yet is waiting, of which the kernel hands out a part, or nothing for now; when
      it has got everything across it is gone. */
  ghost predicate Sends(inputs: seq<Arrival>, stream: string) {
    forall i | 0 <= i < |inputs| ::
      && Fed(inputs[..i]) <= stream
      && (inputs[i].WouldBlock?
          || (inputs[i].Readable? && inputs[i].waiting == stream[|Fed(inputs[..i])|..]))
  }

  function Readables(inputs: seq<Arrival>): nat {
    if inputs == [] then 0
    else Readables(inputs[..|inputs| - 1]) + if inputs[|inputs| - 1].Readable? then 1 else 0
  }

  /** Enough wake-ups bring the whole stream across, if no line is oversized on the way. */
  lemma {:induction false} StreamArrives(inputs: seq<Arrival>, stream: string)
    requires Sends(inputs, stream)
    requires forall n | 0 <= n < |inputs| :: !CutLines(Fed(inputs[..n])).tooBig
    ensures Fed(inputs) <= stream && (Fed(inputs) == stream || Readables(inputs) <= |Fed(inputs)|)
  {
    hide CutLines, Fed, Fetched;
    if inputs == [] {
      FedNothing();
    } else {
      var n := |inputs| - 1;
      var before, last := inputs[..n], inputs[n];
      assert inputs == before + [last];
      assert forall i | 0 <= i < n :: before[..i] == inputs[..i];
      StreamArrives(before, stream);
      FedOneMore(before, last);
      OneArrives(Fed(before), last, stream);
    }
  }

  lemma FedNothing()
    ensures Fed([]) == ""
  {
  }

  lemma OneArrives(before: string, last: Arrival, stream: string)
    requires before <= stream && !CutLines(before).tooBig
    requires last.WouldBlock? || (last.Readable? && last.waiting == stream[|before|..])
    ensures before + Fetched(before, last) <= stream
    ensures last.Readable? && before != stream ==> |Fetched(before, last)| > 0
    ensures before == stream ==> before + Fetched(before, last) == stream
  {
    hide CutLines;
    CutIsACut(before);
    if last.Readable? {
      assert stream == before + last.waiting;
    }
  }

  /** One front line of a window, cut off. */
  lemma CutFront(p: string)
    requires |p| <= MAX_LINE
    ensures var i := FindNewline(p);
            && (i < |p| ==> Fits(p[..i]) && CutLines(p) == Lines.After([p[..i]], CutLines(p[i + 1..])))
            && (i == |p| < MAX_LINE ==> CutLines(p) == Cut([], p, false))
            && (i == |p| == MAX_LINE ==> CutLines(p) == Cut([], "", true))
  {
  }

  /** Places of the lines handed out since the last fill: all in front of what is still to
      come, and each still holding its line. */
  ghost predicate Intact(bytes: seq<char>, places: seq<(nat, nat)>, lines: seq<string>, limit: nat) {
    && |places| == |lines|
    && limit <= |bytes|
    && forall k | 0 <= k < |places| ::
         && places[k].0 + places[k].1 < limit
         && bytes[places[k].0..places[k].0 + places[k].1] == lines[k]
  }

  lemma IntactNothing(bytes: seq<char>, lines: seq<string>)
    requires lines == []
    ensures Intact(bytes, [], lines, 0)
  {
  }

  lemma IntactGrows(bytes: seq<char>, places: seq<(nat, nat)>, lines: seq<string>, limit: nat, limit': nat)
    requires Intact(bytes, places, lines, limit) && limit' == |bytes|
    ensures limit <= limit' && Intact(bytes, places, lines, limit')
  {
  }

  lemma OneMoreIntact(bytes: seq<char>, bytes': seq<char>, places: seq<(nat, nat)>, lines: seq<string>, limit: nat,
                      offset: nat, line: string)
    requires Intact(bytes, places, lines, limit) && |bytes'| == |bytes|
    requires limit <= offset && offset + |line| < |bytes| && bytes'[..offset] == bytes[..offset]
    requires bytes'[offset..offset + |line|] == line
    ensures Intact(bytes', places + [(offset, |line|)], lines + [line], offset + |line| + 1)
  {
    forall k | 0 <= k < |places|
      ensures bytes'[places[k].0..places[k].0 + places[k].1] == lines[k]
    {
      var a, b := places[k].0, places[k].0 + places[k].1;
      assert bytes'[a..b] == bytes'[..offset][a..b] == bytes[..offset][a..b] == bytes[a..b];
    }
  }

  lemma SlicesAround(bytes: seq<char>, start: nat, len: nat, i: nat)
    requires i < len && start + len < |bytes|
    ensures var p, bytes' := bytes[start..start + len], bytes[start + i := '\0'];
            && bytes'[..start] == bytes[..start]
            && bytes'[start..start + i] == p[..i]
            && bytes'[start + i + 1..start + len] == p[i + 1..]
  {
  }

  /** What extraction leaves of a window: the line in its place behind the ones before
      it, and a window whose cut continues the old one. */
  lemma LineTaken(bytes: seq<char>, start: nat, len: nat, places: seq<(nat, nat)>, lines: seq<string>, limit: nat)
    requires start + len <= MAX_LINE < |bytes| && (len > 0 ==> limit <= start)
    requires Intact(bytes, places, lines, limit)
    ensures var p := bytes[start..start + len]; var i := LineAt(bytes, start, len);
            if i < len then
              var bytes' := bytes[start + i := '\0'];
              var line := bytes'[start..start + i];
              && Intact(bytes', places + [(start, i)], lines + [line], start + i + 1)
              && CutLines(p) == Lines.After([line], CutLines(bytes'[start + i + 1..start + len]))
            else CutLines(p) == if len == MAX_LINE then Cut([], "", true) else Cut([], p, false)
  {
    hide CutLines, Fits, FindNewline, Intact;
    var p, i := bytes[start..start + len], LineAt(bytes, start, len);
    CutFront(p);
    if i < len {
      var bytes' := bytes[start + i := '\0'];
      SlicesAround(bytes, start, len, i);
      var line := bytes'[start..start + i];
      OneMoreIntact(bytes, bytes', places, lines, limit, start, line);
    }
  }

  class Conn<!W> {
    const protocol: Protocol<W>
    /** Whether the server thread's k-th write on this connection succeeds. */
    const writes: nat -> bool
    const window: Window
    ghost const world0: W
    var world: W
    /** The messages written, or attempted, so far. */
    var said: seq<Out>
    /** Lines answered so far. */
    var answered: nat
    /** What has arrived, and the bytes that brought. */
    ghost var inputs: seq<Arrival>
    ghost var consumed: string

    /** Open and between wake-ups: every complete line received has been answered. */
    ghost predicate UpToDate()
      reads this, window, window.buf
    {
      && window.Valid()
      && (var c := CutLines(consumed);
          && c == Cut(c.lines, window.Pending(), false)
          && |c.rest| < MAX_LINE
          && answered == |c.lines|
          && said == Transcript(protocol, consumed, world0)
          && world == StateAfter(protocol, c.lines, world0))
      && !LostIn(said, writes)
      && consumed == Fed(inputs) && AllKept(protocol, world0, writes, inputs)
    }

    /** At any time, kept or dropped: nothing but the transcript has been said, and the
        daemon's state is that left by the requests answered. */
    ghost predicate Truthful()
      reads this
    {
      && said <= Transcript(protocol, consumed, world0)
      && (said == Transcript(protocol, consumed, world0) || LostIn(said, writes))
      && answered <= |CutLines(consumed).lines|
      && world == StateAfter(protocol, CutLines(consumed).lines[..answered], world0)
      && consumed == Fed(inputs)
      && (inputs != [] ==> AllKept(protocol, world0, writes, inputs[..|inputs| - 1]))
    }

    /** A new connection: registered, and greeted before anything else is said. */
    constructor (protocol: Protocol<W>, writes: nat -> bool, world: W)
      ensures UpToDate() && fresh(window) && fresh(window.buf)
      ensures this.protocol == protocol && this.writes == writes && world0 == world == this.world
      ensures consumed == "" && said == [Hello] && inputs == []
    {
      this.protocol, this.writes := protocol, writes;
      this.world0, this.world := world, world;
      said, answered, consumed, inputs := [Hello], 0, "", [];
      window := new Window();
    }

    /** A response the server thread could not get out. */
    ghost predicate ResponseLost(from: nat)
      reads this
    {
      LostSince(said, writes, from)
    }

    lemma GreetedIsTruthful()
      requires UpToDate()
      ensures Truthful()
    {
      hide CutLines, Transcript, Drops, Fed, LostIn;
      var lines := CutLines(consumed).lines;
      assert lines[..|lines|] == lines;
      if inputs != [] {
        var n := |inputs| - 1;
        assert inputs == inputs[..n] + [inputs[n]];
        KeptOneMore(protocol, world0, writes, inputs[..n], inputs[n]);
      }
    }

    /** Dispatches a line and writes what comes of it, the events of its handler first.  A
        failed response drops the connection; a failed event does not. */
    method HandleLine(line: string) returns (keep: bool)
      modifies this`world, this`said, this`answered
      ensures said == old(said) + Answer(protocol, old(answered), line, old(world))
      ensures world == Respond(protocol, old(answered), line, old(world)).after
      ensures answered == old(answered) + 1
      ensures keep <==> !ResponseLost(|old(said)|)
    {
      var o := DispatchLine(protocol, answered, line, world);
      world, answered := o.after, answered + 1;
      said := said + Pushes(o.events);
      keep := o.response.None? || writes(|said|);
      said := said + [if o.response.Some? then Response(o.response.value) else UNUSABLE];
    }

    /** A readable wake-up: fill once, then answer every complete line.  Absent lost
        responses the connection's transcript is exactly that of the bytes consumed; the
        connection is dropped for a peer that is gone, an oversized line or a lost
        response, and for nothing else.  `places` are the lines handed out on the way. */
    method HandleConnInput(arrival: Arrival) returns (keep: bool, taken: nat, ghost places: seq<(nat, nat)>)
      requires UpToDate()
      modifies this`world, this`said, this`answered, this`consumed, this`inputs, window, window.buf
      ensures inputs == old(inputs) + [arrival] && old(said) <= said
      ensures keep <==> !Drops(protocol, world0, writes, inputs)
      ensures taken == if arrival.Readable? then RecvCount(old(window.len), |arrival.waiting|, arrival.want) else 0
      ensures consumed == old(consumed) + if taken > 0 then arrival.waiting[..taken] else ""
      ensures keep ==> UpToDate()
      ensures keep <==> !(|| arrival.Broken?
                          || (arrival.Readable? && arrival.waiting == "")
                          || CutLines(consumed).tooBig
                          || ResponseLost(|old(said)|))
      ensures Truthful()
      ensures said == Transcript(protocol, consumed, world0) || ResponseLost(|old(said)|)
      ensures var known := |CutLines(old(consumed)).lines|;
              && known <= answered <= |CutLines(consumed).lines|
              && Intact(window.buf[..], places, CutLines(consumed).lines[known..answered], window.buf.Length)
    {
      hide CutLines, Answers, StateAfter, Respond, Transcript, Intact, Fed, AllKept, LostIn, Drops, Fetched;
      ghost var known := CutLines(consumed).lines;
      PartTold(protocol, consumed, known, world0);
      FetchedIs(consumed, arrival);
      var status;
      places := [];
      status, taken := window.Fill(arrival);
      ghost var chunk := if taken > 0 then arrival.waiting[..taken] else "";
      CutResumes(consumed, chunk);
      FedOneMore(inputs, arrival);
      KeptOneMore(protocol, world0, writes, inputs, arrival);
      assert chunk == Fetched(consumed, arrival);
      consumed, inputs := consumed + chunk, inputs + [arrival];
      assert inputs[..|inputs| - 1] == old(inputs);
      if status != Filled {
        assert consumed == old(consumed);
        IntactNothing(window.buf[..], known[|known|..]);
        IntactGrows(window.buf[..], places, known[|known|..], 0, window.buf.Length);
        keep := status == FillPending;
        DropsIff(protocol, world0, writes, inputs, said, said);
        return;
      }
      ghost var done, lost;
      keep, done, lost, places := Drain(known);
      PartTold(protocol, consumed, done, world0);
      DropsIff(protocol, world0, writes, inputs, old(said), said);
    }

    /** Wake-ups until the stream that was sent is read, or the connection is dropped;
        `wants` is how much the kernel hands out each time.  However it splits the stream:
        what is said is the transcript of the stream, up to a lost response if there is one,
        and the connection is kept iff there is none and no line is oversized. */
    method Serve(stream: string, wants: seq<nat>) returns (keep: bool)
      requires UpToDate()
      modifies this`world, this`said, this`answered, this`consumed, this`inputs, window, window.buf
      ensures keep ==> UpToDate()
      ensures old(consumed) <= consumed <= old(consumed) + stream
      ensures said <= Transcript(protocol, old(consumed) + stream, world0)
      ensures |wants| >= |stream| ==>
                && (said == Transcript(protocol, old(consumed) + stream, world0) || ResponseLost(|old(said)|))
                && (keep <==> !CutLines(old(consumed) + stream).tooBig && !ResponseLost(|old(said)|))
    {
      hide CutLines, Answers, StateAfter, Transcript, Fed, AllKept, Drops, LostIn;
      ghost var before := consumed;
      var i, at := 0, 0;
      keep := true;
      while i < |wants| && keep && at < |stream|
        invariant i <= |wants| && at <= |stream| && (i <= at || at == |stream| || !keep)
        invariant consumed == before + stream[..at] && |old(said)| <= |said|
        invariant said <= Transcript(protocol, consumed, world0)
        invariant keep ==> UpToDate() && said == Transcript(protocol, consumed, world0) && !ResponseLost(|old(said)|)
        invariant !keep ==> CutLines(consumed).tooBig || ResponseLost(|old(said)|)
        invariant !keep ==> said == Transcript(protocol, consumed, world0) || ResponseLost(|old(said)|)
      {
        ghost var said0 := said;
        ghost var read := consumed;
        var rest := stream[at..];
        var taken;
        ghost var places;
        keep, taken, places := HandleConnInput(Readable(rest, wants[i]));
        assert stream[..at] + rest[..taken] == stream[..at + taken];
        at, i := at + taken, i + 1;
        TranscriptGrows(protocol, read, rest[..taken], world0);
      }
      TranscriptGrows(protocol, consumed, stream[at..], world0);
      assert consumed + stream[at..] == before + stream;
      assert at == |stream| ==> consumed + stream[at..] == consumed;
    }

    /** Extracts one line; `places` hold the `lines` extracted before it since the fill. */
    method NextLine(ghost places: seq<(nat, nat)>, ghost lines: seq<string>, ghost limit: nat)
      returns (r: Extract, line: string, ghost places': seq<(nat, nat)>, ghost limit': nat)
      requires window.Valid() && (window.len > 0 ==> limit <= window.start)
      requires Intact(window.buf[..], places, lines, limit)
      modifies window, window.buf
      ensures window.Valid() && (window.len > 0 ==> limit' <= window.start)
      ensures r.Line? ==> window.len < old(window.len)
      ensures limit' <= window.buf.Length
      ensures Intact(window.buf[..], places', lines + (if r.Line? then [line] else []), limit')
      ensures match r
              case Line(_, _) => CutLines(old(window.Pending())) == Lines.After([line], CutLines(window.Pending()))
              case TooBig => CutLines(old(window.Pending())) == Cut([], "", true)
              case ExtractPending => window.Pending() == old(window.Pending())
                                     && CutLines(window.Pending()) == Cut([], window.Pending(), false)
                                     && window.len < MAX_LINE
    {
      hide CutLines, Intact, LineAt, FindNewline;
      IntactGrows(window.buf[..], places, lines, limit, window.buf.Length);
      ghost var bytes, start, len := window.buf[..], window.start, window.len;
      assert window.Pending() == bytes[start..start + len];
      LineTaken(bytes, start, len, places, lines, limit);
      r := window.ExtractLine();
      line, places', limit' := "", places, limit;
      assert lines + [] == lines;
      if r.Line? {
        line := window.buf[..][r.offset..r.offset + r.length];
        places', limit' := places + [(r.offset, r.length)], r.offset + r.length + 1;
        assert window.Pending() == window.buf[..][start + r.length + 1..start + len];
      }
    }

    /** Draining, with the `done` lines answered, `known` of them before this wake-up: what
        is still in the window continues their cut. */
    ghost predicate Draining(known: seq<string>, done: seq<string>, places: seq<(nat, nat)>, limit: nat)
      reads this, window, window.buf
    {
      && window.Valid() && limit <= window.buf.Length && (window.len > 0 ==> limit <= window.start)
      && known <= done && Said(done)
      && CutLines(consumed) == Lines.After(done, CutLines(window.Pending()))
      && Intact(window.buf[..], places, done[|known|..], limit)
    }

    /** One pass of the drain loop: a line is answered, or an oversized one reported, or
        there is none. */
    method DrainOnce(ghost known: seq<string>, ghost done: seq<string>, ghost places: seq<(nat, nat)>, ghost limit: nat)
      returns (r: Extract, keep: bool, ghost done': seq<string>, ghost places': seq<(nat, nat)>, ghost limit': nat)
      requires Draining(known, done, places, limit)
      modifies this`world, this`said, this`answered, window, window.buf
      ensures window.Valid() && known <= done' && answered == |done'| && world == StateAfter(protocol, done', world0)
      ensures Intact(window.buf[..], places', done'[|known|..], limit') && limit' <= window.buf.Length
      ensures r.Line? ==> |done'| == |done| + 1 && Draining(known, done', places', limit')
      ensures r.Line? ==> window.len < old(window.len) && old(said) <= said
      ensures r.Line? ==> (keep <==> !ResponseLost(|old(said)|))
      ensures !r.Line? ==> done' == done && CutLines(consumed).lines == done
      ensures !r.Line? ==> old(said) <= said
      ensures r.TooBig? ==> !keep && CutLines(consumed).tooBig && said == old(said) + [TOO_LONG]
      ensures r.ExtractPending? ==>
                keep && said == old(said) && Said(done)
                && CutLines(consumed) == Cut(done, window.Pending(), false) && window.len < MAX_LINE
    {
      hide CutLines, Answers, StateAfter, Respond, FindNewline, Answer, Intact;
      assert done + [] == done;
      var line;
      r, line, places', limit' := NextLine(places, done[|known|..], limit);
      assert (done + [line])[|known|..] == done[|known|..] + [line];
      assert done[|known|..] + [] == done[|known|..];
      done' := done;
      match r
      case ExtractPending =>
        keep := true;
      case TooBig =>
        said := said + [TOO_LONG];
        keep := false;
      case Line(_, _) =>
        AnswersOneMore(protocol, done, line, world0);
        keep := HandleLine(line);
        done' := done + [line];
    }

    /** The drain loop: answers the lines buffered so far, `known` having been answered
        before.  It stops with the window drained, refused, or after a lost response. */
    method Drain(ghost known: seq<string>) returns (keep: bool, ghost done: seq<string>, ghost lost: bool,
                                                    ghost places: seq<(nat, nat)>)
      requires window.Valid() && Said(known)
      requires CutLines(consumed) == Lines.After(known, CutLines(window.Pending()))
      modifies this`world, this`said, this`answered, window, window.buf
      ensures window.Valid() && answered == |done|
      ensures known <= done <= CutLines(consumed).lines
      ensures lost <==> ResponseLost(|old(said)|)
      ensures lost ==> !keep && Said(done)
      ensures !lost ==> keep == !CutLines(consumed).tooBig && done == CutLines(consumed).lines
      ensures !lost && keep ==> Said(done) && CutLines(consumed).rest == window.Pending() && window.len < MAX_LINE
      ensures !lost && !keep ==> said == [Hello] + Answers(protocol, done, world0) + [TOO_LONG]
      ensures old(said) <= said
      ensures world == StateAfter(protocol, done, world0)
      ensures Intact(window.buf[..], places, done[|known|..], window.buf.Length)
    {
      hide CutLines, Answers, StateAfter, Respond, FindNewline, Answer, Intact;
      done, places := known, [];
      IntactNothing(window.buf[..], known[|known|..]);
      ghost var limit: nat := 0;
      while true
        invariant Draining(known, done, places, limit)
        invariant old(said) <= said && !ResponseLost(|old(said)|)
        decreases window.len
      {
        var r;
        r, keep, done, places, limit := DrainOnce(known, done, places, limit);
        lost := r.Line? && !keep;
        if !r.Line? || !keep {
          IntactGrows(window.buf[..], places, done[|known|..], limit, window.buf.Length);
          return;
        }
      }
    }

    /** The lines answered so far are exactly these. */
    ghost predicate Said(lines: seq<string>)
      reads this
    {
      && answered == |lines|
      && said == [Hello] + Answers(protocol, lines, world0)
      && world == StateAfter(protocol, lines, world0)
    }
  }
}
