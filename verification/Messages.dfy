/** From JSON values to the wire and back: printing, in-place compaction, partial sends,
    partial receives and line cutting put together. */
module Messages {
  import opened Lines
  import opened Sending
  import opened Json
  import JsonMeaning

  /** What the library's printer left in the scratch buffer; it fails when the text would
      not stay below the scratch size. */
  datatype Printed = Text(text: string) | PrintFailed

  datatype WriteResult = Wrote(status: Status) | NotPrinted

  /** Prints, compacts in place, and writes one line. */
  method WriteJson(socket: Socket, printed: Printed, scratch: array<char>, timeout: nat) returns (r: WriteResult)
    modifies socket, scratch
    ensures printed.PrintFailed? || |printed.text| >= scratch.Length ==>
              && r == NotPrinted && socket.wire == old(socket.wire)
              && socket.clock == old(socket.clock) && socket.attempts == old(socket.attempts)
    ensures printed.Text? && |printed.text| < scratch.Length ==>
              var line := Compact(printed.text);
              var o := WriteLine(socket.kernel, line, timeout, old(socket.clock), old(socket.attempts));
              && o.sent <= |line| + 1
              && r == Wrote(o.status)
              && socket.wire == old(socket.wire) + (line + "\n")[..o.sent]
              && socket.clock == o.clock && socket.attempts == o.attempts
  {
    if printed.PrintFailed? || |printed.text| >= scratch.Length {
      return NotPrinted;
    }
    var size := |printed.text|;
    forall i | 0 <= i < size {
      scratch[i] := printed.text[i];
    }
    assert scratch[..size] == printed.text;
    var n := CompactInPlace(scratch, size);
    var status := socket.WriteOneLine(scratch[..n], timeout);
    r := Wrote(status);
  }

  /** One message to send: a value, and what the printer made of it.  The printer may fail,
      or need more room than the scratch buffer has. */
  datatype Message = Message(value: Value, printed: Printed, lead: string, gaps: seq<string>) {
    ghost predicate Valid() {
      ValidValue(value) && (printed.Text? ==> Prints(printed.text, value, lead, gaps))
    }
    predicate Fitted() {
      printed.Text? && |printed.text| < MAX_LINE
    }
  }

  /** What became of one message: its bytes on the wire, whether that is all of it, and the
      clock and the kernel's attempts afterwards. */
  datatype Written = Written(bytes: string, whole: bool, clock: nat, attempts: nat)

  function SendOne(kernel: Kernel, m: Message, timeout: nat, clock: nat, attempts: nat): Written {
    if !m.Fitted() then Written("", false, clock, attempts)
    else
      var line := Compact(m.printed.text);
      var o := WriteLine(kernel, line, timeout, clock, attempts);
      WriteLineBounded(kernel, line, timeout, clock, attempts);
      Written((line + "\n")[..o.sent], o.status == Success, o.clock, o.attempts)
  }

  /** Messages written one after the other until one cannot be printed or sent: the wire,
      and how many of them were written whole. */
  datatype Transfer = Transfer(wire: string, whole: nat)

  function Send(kernel: Kernel, messages: seq<Message>, timeout: nat, clock: nat, attempts: nat): (r: Transfer)
    ensures r.whole <= |messages|
    decreases |messages|
  {
    if messages == [] then Transfer("", 0)
    else
      var w := SendOne(kernel, messages[0], timeout, clock, attempts);
      if !w.whole then Transfer(w.bytes, 0)
      else
        var more := Send(kernel, messages[1..], timeout, w.clock, w.attempts);
        Transfer(w.bytes + more.wire, 1 + more.whole)
  }

  method WriteMessage(socket: Socket, m: Message, scratch: array<char>, timeout: nat) returns (whole: bool)
    requires scratch.Length == MAX_LINE
    modifies socket, scratch
    ensures var w := SendOne(socket.kernel, m, timeout, old(socket.clock), old(socket.attempts));
            && whole == w.whole && socket.wire == old(socket.wire) + w.bytes
            && socket.clock == w.clock && socket.attempts == w.attempts
  {
    hide Compact, WriteLine;
    var r := WriteJson(socket, m.printed, scratch, timeout);
    whole := r == Wrote(Success);
    assert socket.wire + "" == socket.wire;
  }

  /** The writer of Send: one message after the other, until one is not written whole. */
  method SendMessages(socket: Socket, messages: seq<Message>, scratch: array<char>, timeout: nat) returns (whole: nat)
    requires scratch.Length == MAX_LINE
    modifies socket, scratch
    ensures var r := Send(socket.kernel, messages, timeout, old(socket.clock), old(socket.attempts));
            whole == r.whole && socket.wire == old(socket.wire) + r.wire
  {
    hide SendOne;
    ghost var all := Send(socket.kernel, messages, timeout, socket.clock, socket.attempts);
    whole := 0;
    while whole < |messages|
      invariant whole <= |messages|
      invariant var more := Send(socket.kernel, messages[whole..], timeout, socket.clock, socket.attempts);
                && whole + more.whole == all.whole
                && socket.wire + more.wire == old(socket.wire) + all.wire
    {
      assert messages[whole..][1..] == messages[whole + 1..];
      var ok := WriteMessage(socket, messages[whole], scratch, timeout);
      if !ok {
        return;
      }
      whole := whole + 1;
    }
    assert socket.wire + "" == socket.wire;
  }

  function Renderings(messages: seq<Message>): (r: seq<string>)
    ensures |r| == |messages|
  {
    seq(|messages|, i requires 0 <= i < |messages| => Render(messages[i].value))
  }

  /** A whitespace-free text is no longer than the text it came from. */
  lemma {:induction false} ScanShrinks(s: string, inString: bool, escaped: bool)
    ensures |Scan(s, inString, escaped)| <= |s|
  {
    if s != "" {
      if inString {
        ScanShrinks(s[1..], escaped || s[0] != '"', !escaped && s[0] == '\\');
      } else {
        ScanShrinks(s[1..], s[0] == '"', escaped);
      }
    }
  }

  /** The daemon never writes a line its own framing would refuse: a message printed below
      the scratch size compacts to a line that fits. */
  lemma MessageFits(m: Message)
    requires m.Valid() && m.Fitted()
    ensures Compact(m.printed.text) == Render(m.value) && Fits(Render(m.value))
  {
    CompactionYieldsRendering(m.printed.text, m.value, m.lead, m.gaps);
    RenderingIsOneLine(m.value);
    ScanShrinks(m.printed.text, false, false);
  }

  /** What one message leaves on the wire: its line, or a beginning of it, or nothing if it
      could not be printed. */
  lemma OneIsWire(kernel: Kernel, m: Message, timeout: nat, clock: nat, attempts: nat)
    requires m.Valid()
    ensures var w := SendOne(kernel, m, timeout, clock, attempts);
            if w.whole then m.Fitted() && w.bytes == Render(m.value) + "\n"
            else Fits(w.bytes) && (!m.Fitted() ==> w.bytes == "")
  {
    hide Compact, Render, WriteLine;
    if m.Fitted() {
      MessageFits(m);
      var line := Render(m.value);
      var o := WriteLine(kernel, line, timeout, clock, attempts);
      WriteLineBounded(kernel, line, timeout, clock, attempts);
      if o.status == Success {
        assert (line + "\n")[..o.sent] == line + "\n";
      } else {
        assert (line + "\n")[..o.sent] == line[..o.sent];
        PrefixFits(line, o.sent);
      }
    }
  }

  lemma {:induction false} SentIsWire(kernel: Kernel, messages: seq<Message>, timeout: nat, clock: nat, attempts: nat)
    requires forall m: Message | m in messages :: m.Valid()
    ensures var r := Send(kernel, messages, timeout, clock, attempts);
            var whole := Wire(Renderings(messages)[..r.whole]);
            && whole <= r.wire
            && Fits(r.wire[|whole|..])
            && (forall i | 0 <= i < r.whole :: messages[i].Fitted())
            && (r.whole == |messages| || !messages[r.whole].Fitted() ==> r.wire == whole)
    decreases |messages|
  {
    hide Render, SendOne, Fits;
    var r := Send(kernel, messages, timeout, clock, attempts);
    assert Renderings(messages)[..0] == [] && r.wire[0..] == r.wire;
    if messages == [] {
      NothingFits();
    } else {
      var w := SendOne(kernel, messages[0], timeout, clock, attempts);
      OneIsWire(kernel, messages[0], timeout, clock, attempts);
      if w.whole {
        var more := Send(kernel, messages[1..], timeout, w.clock, w.attempts);
        SentIsWire(kernel, messages[1..], timeout, w.clock, w.attempts);
        var line, rest := Render(messages[0].value), Renderings(messages[1..])[..more.whole];
        assert Renderings(messages)[..r.whole] == [line] + rest;
        OneLineFirst(line, rest, more.wire);
      }
    }
  }

  /** The clock and the kernel's attempts after the lines of the first `k` messages. */
  function TimeAt(kernel: Kernel, messages: seq<Message>, k: nat, timeout: nat, clock: nat, attempts: nat): (nat, nat)
    requires k <= |messages|
  {
    if k == 0 then (clock, attempts)
    else
      var (clock', attempts') := TimeAt(kernel, messages, k - 1, timeout, clock, attempts);
      var o := WriteLine(kernel, Render(messages[k - 1].value), timeout, clock', attempts');
      (o.clock, o.attempts)
  }

  /** Message `k` can be printed, and the kernel takes its line and newline when its turn
      comes. */
  predicate GetsOut(kernel: Kernel, messages: seq<Message>, k: nat, timeout: nat, clock: nat, attempts: nat)
    requires k < |messages|
  {
    && messages[k].Fitted()
    && var (clock', attempts') := TimeAt(kernel, messages, k, timeout, clock, attempts);
       WriteLine(kernel, Render(messages[k].value), timeout, clock', attempts').status == Success
  }

  lemma OneGetsOut(kernel: Kernel, m: Message, timeout: nat, clock: nat, attempts: nat)
    requires m.Valid()
    ensures var w := SendOne(kernel, m, timeout, clock, attempts);
            var o := WriteLine(kernel, Render(m.value), timeout, clock, attempts);
            && (w.whole <==> m.Fitted() && o.status == Success)
            && (w.whole ==> w.clock == o.clock && w.attempts == o.attempts)
  {
    hide Compact, Render, WriteLine;
    if m.Fitted() {
      MessageFits(m);
    }
  }

  lemma {:induction false} TimeAtLater(kernel: Kernel, messages: seq<Message>, k: nat, timeout: nat, clock: nat,
                                       attempts: nat)
    requires 0 < k <= |messages|
    ensures var o := WriteLine(kernel, Render(messages[0].value), timeout, clock, attempts);
            var later := TimeAt(kernel, messages[1..], k - 1, timeout, o.clock, o.attempts);
            TimeAt(kernel, messages, k, timeout, clock, attempts) == later
  {
    hide Render, WriteLine;
    if k > 1 {
      TimeAtLater(kernel, messages, k - 1, timeout, clock, attempts);
    }
  }

  /** Messages are written up to the first that does not get out, and no further and no
      less. */
  lemma {:induction false} StopsAtFirstFailure(kernel: Kernel, messages: seq<Message>, timeout: nat, clock: nat,
                                               attempts: nat)
    requires forall m: Message | m in messages :: m.Valid()
    ensures var r := Send(kernel, messages, timeout, clock, attempts);
            && (forall k | 0 <= k < r.whole :: GetsOut(kernel, messages, k, timeout, clock, attempts))
            && (r.whole < |messages| ==> !GetsOut(kernel, messages, r.whole, timeout, clock, attempts))
    decreases |messages|
  {
    hide Render, WriteLine, SendOne;
    if messages != [] {
      var r := Send(kernel, messages, timeout, clock, attempts);
      var w := SendOne(kernel, messages[0], timeout, clock, attempts);
      OneGetsOut(kernel, messages[0], timeout, clock, attempts);
      if w.whole {
        StopsAtFirstFailure(kernel, messages[1..], timeout, w.clock, w.attempts);
        var more := Send(kernel, messages[1..], timeout, w.clock, w.attempts);
        forall k | 0 < k < |messages|
          ensures GetsOut(kernel, messages, k, timeout, clock, attempts)
             <==> GetsOut(kernel, messages[1..], k - 1, timeout, w.clock, w.attempts)
        {
          TimeAtLater(kernel, messages, k, timeout, clock, attempts);
        }
        forall k | 0 <= k < r.whole
          ensures GetsOut(kernel, messages, k, timeout, clock, attempts)
        {
          if k > 0 {
            assert GetsOut(kernel, messages[1..], k - 1, timeout, w.clock, w.attempts);
          }
        }
      }
    }
  }

  /** Over a kernel that always takes something, everything that can be printed gets out,
      and the reader gets all of it. */
  lemma EverythingGetsOut(kernel: Kernel, messages: seq<Message>, timeout: nat, clock: nat, attempts: nat,
                          wants: seq<nat>)
    requires forall m: Message | m in messages :: m.Valid() && m.Fitted()
    requires Willing(kernel) && |wants| >= |Send(kernel, messages, timeout, clock, attempts).wire|
    ensures var r := Send(kernel, messages, timeout, clock, attempts);
            && r.whole == |messages| && r.wire == Wire(Renderings(messages))
            && Read(Unread(r.wire), wants).cut == Cut(Renderings(messages), "", false)
  {
    hide Send, Read, Render, WriteLine, TimeAt;
    var r := Send(kernel, messages, timeout, clock, attempts);
    StopsAtFirstFailure(kernel, messages, timeout, clock, attempts);
    if r.whole < |messages| {
      var (clock', attempts') := TimeAt(kernel, messages, r.whole, timeout, clock, attempts);
      WillingTakesLine(kernel, Render(messages[r.whole].value), timeout, clock', attempts');
      assert false;
    }
    SentIsWire(kernel, messages, timeout, clock, attempts);
    EndToEnd(kernel, messages, timeout, clock, attempts, wants);
    assert Renderings(messages)[..|messages|] == Renderings(messages);
  }

  lemma NothingFits()
    ensures Fits("")
  {
  }

  lemma PrefixFits(line: string, n: nat)
    requires Fits(line) && n <= |line|
    ensures Fits(line[..n])
  {
  }

  lemma OneLineFirst(line: string, rest: seq<string>, wire: string)
    requires Wire(rest) <= wire
    ensures Wire([line] + rest) == line + "\n" + Wire(rest)
    ensures Wire([line] + rest) <= line + "\n" + wire
    ensures (line + "\n" + wire)[|Wire([line] + rest)|..] == wire[|Wire(rest)|..]
    ensures wire == Wire(rest) ==> line + "\n" + wire == Wire([line] + rest)
  {
    assert ([line] + rest)[1..] == rest;
  }

  /** End to end: for all values, printings, kernels on the sending side and splits on the
      receiving side, the reader extracts exactly the renderings of the messages written
      whole, in order, and holds no more than the beginning of the one that failed: nothing,
      if that one could not be printed. */
  lemma EndToEnd(kernel: Kernel, messages: seq<Message>, timeout: nat, clock: nat, attempts: nat, wants: seq<nat>)
    requires forall m: Message | m in messages :: m.Valid()
    requires |wants| >= |Send(kernel, messages, timeout, clock, attempts).wire|
    ensures var sent := Send(kernel, messages, timeout, clock, attempts);
            var end := Read(Unread(sent.wire), wants);
            && end.unread == ""
            && !end.cut.tooBig
            && end.cut.lines == Renderings(messages)[..sent.whole]
            && (forall i | 0 <= i < sent.whole :: messages[i].Fitted())
            && (sent.whole == |messages| || !messages[sent.whole].Fitted() ==> end.cut.rest == "")
  {
    hide Send, Read, Renderings;
    var sent := Send(kernel, messages, timeout, clock, attempts);
    var lines := Renderings(messages)[..sent.whole];
    SentIsWire(kernel, messages, timeout, clock, attempts);
    WholeFit(messages, sent.whole);
    var tail := sent.wire[|Wire(lines)|..];
    assert IsCut(sent.wire, Cut(lines, tail, false));
    CutIsUnique(sent.wire, Cut(lines, tail, false));
    ReadingFinishes(Unread(sent.wire), wants);
    ChunkingIndependence(sent.wire, wants);
  }

  lemma WholeFit(messages: seq<Message>, n: nat)
    requires n <= |messages| && forall m: Message | m in messages :: m.Valid()
    requires forall i | 0 <= i < n :: messages[i].Fitted()
    ensures forall l | l in Renderings(messages)[..n] :: Fits(l)
  {
    forall i | 0 <= i < n
      ensures Fits(Renderings(messages)[i])
    {
      MessageFits(messages[i]);
    }
  }

  /** What the reader got is what was meant: equal lines carry equal values. */
  lemma ReaderRecoversValues(sent: seq<Message>, other: seq<Message>)
    requires forall m: Message | m in sent + other :: ValidValue(m.value)
    ensures Renderings(sent) == Renderings(other) <==>
            |sent| == |other| && forall i | 0 <= i < |sent| :: sent[i].value == other[i].value
  {
    if Renderings(sent) == Renderings(other) {
      forall i | 0 <= i < |sent|
        ensures sent[i].value == other[i].value
      {
        var a, b := sent[i], other[i];
        assert a in sent + other && b in sent + other;
        assert Renderings(sent)[i] == Renderings(other)[i];
        JsonMeaning.RenderingUnique(a.value, b.value);
      }
    } else if |sent| == |other| {
      var i :| 0 <= i < |sent| && Renderings(sent)[i] != Renderings(other)[i];
    }
  }
}
