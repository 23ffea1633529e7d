/** Newline-delimited framing as a law about byte streams: what a stream of bytes
    means as lines, independent of any buffer.  Bytes are modelled as `char`. */
module Lines {

  const MAX_LINE: nat := 8192

  /** The lines of a stream, the unfinished tail, and whether framing was given up. */
  datatype Cut = Cut(lines: seq<string>, rest: string, tooBig: bool)

  /** Offset of the first newline, or |s| when there is none. */
  function FindNewline(s: string): (i: nat)
    ensures i <= |s|
    ensures i < |s| ==> s[i] == '\n'
    ensures forall k | 0 <= k < i :: s[k] != '\n'
  {
    if s == "" || s[0] == '\n' then 0 else 1 + FindNewline(s[1..])
  }

  predicate NewlineFree(s: string) {
    forall k | 0 <= k < |s| :: s[k] != '\n'
  }

  /** A line the reader can ever hand out. */
  predicate Fits(line: string) {
    NewlineFree(line) && |line| < MAX_LINE
  }

  /** Cutting a whole stream at once: the reference the chunked reader is held to. */
  function CutLines(s: string): Cut
    decreases |s|
  {
    var i := FindNewline(s);
    if i < |s| && i < MAX_LINE then
      var r := CutLines(s[i + 1..]);
      Cut([s[..i]] + r.lines, r.rest, r.tooBig)
    else if |s| >= MAX_LINE then Cut([], "", true)
    else Cut([], s, false)
  }

  /** The cut of a stream that starts with these lines and goes on as cut by `c`. */
  function After(lines: seq<string>, c: Cut): Cut {
    Cut(lines + c.lines, c.rest, c.tooBig)
  }

  /** What a writer puts on the wire for these lines. */
  function Wire(lines: seq<string>): string {
    if lines == [] then "" else lines[0] + "\n" + Wire(lines[1..])
  }

  lemma FindNewlineIs(s: string, i: nat)
    requires i <= |s| && (i < |s| ==> s[i] == '\n') && NewlineFree(s[..i])
    ensures FindNewline(s) == i
  {
  }

  lemma {:induction false} WireAppend(a: seq<string>, b: seq<string>)
    ensures Wire(a + b) == Wire(a) + Wire(b)
  {
    if a == [] {
      assert a + b == b;
    } else {
      assert (a + b)[1..] == a[1..] + b;
      WireAppend(a[1..], b);
    }
  }

  lemma CutOneLine(line: string, s: string)
    requires Fits(line)
    ensures CutLines(line + "\n" + s) == After([line], CutLines(s))
  {
    var t := line + "\n" + s;
    assert t[..|line|] == line && t[|line| + 1..] == s;
    FindNewlineIs(t, |line|);
  }

  /** Which lines get through: those of at most 8191 bytes, and no others. */
  lemma GetsThroughIff(line: string, s: string)
    requires NewlineFree(line)
    ensures |line| < MAX_LINE <==> CutLines(line + "\n" + s) == After([line], CutLines(s))
    ensures |line| >= MAX_LINE <==> CutLines(line + "\n" + s) == Cut([], "", true)
  {
    if |line| < MAX_LINE {
      CutOneLine(line, s);
    } else {
      FindNewlineIs(line + "\n" + s, |line|);
    }
  }

  lemma AfterNothing(c: Cut)
    ensures After([], c) == c
  {
  }

  lemma AfterFirst(lines: seq<string>, c: Cut)
    requires lines != []
    ensures After([lines[0]], After(lines[1..], c)) == After(lines, c)
  {
  }

  lemma WireFirst(lines: seq<string>, tail: string)
    requires lines != []
    ensures Wire(lines) + tail == lines[0] + "\n" + (Wire(lines[1..]) + tail)
  {
  }

  /** Every line of up to 8191 bytes gets through, whatever surrounds it: the lines
      written come out in order, and what follows them is cut as if it stood alone. */
  lemma {:induction false} CutAfterLines(lines: seq<string>, tail: string)
    requires forall l | l in lines :: Fits(l)
    ensures CutLines(Wire(lines) + tail) == After(lines, CutLines(tail))
  {
    if lines == [] {
      assert Wire(lines) + tail == tail;
      AfterNothing(CutLines(tail));
    } else {
      CutAfterLines(lines[1..], tail);
      WireFirst(lines, tail);
      CutOneLine(lines[0], Wire(lines[1..]) + tail);
      AfterFirst(lines, CutLines(tail));
    }
  }

  /** The declarative reading of a cut: lines that fit, then either a short tail
      without a newline, or 8192 bytes without one, where framing stops. */
  ghost predicate IsCut(s: string, c: Cut) {
    && (forall l | l in c.lines :: Fits(l))
    && Wire(c.lines) <= s
    && var tail := s[|Wire(c.lines)|..];
       if c.tooBig then c.rest == "" && |tail| >= MAX_LINE && NewlineFree(tail[..MAX_LINE])
       else c.rest == tail && Fits(tail)
  }

  /** CutLines is the one and only cut of a stream. */
  lemma CutIsUnique(s: string, c: Cut)
    ensures IsCut(s, c) <==> c == CutLines(s)
  {
    CutIsACut(s);
    if IsCut(s, c) {
      var tail := s[|Wire(c.lines)|..];
      assert s == Wire(c.lines) + tail;
      CutAfterLines(c.lines, tail);
      if c.tooBig {
        assert forall k | 0 <= k < MAX_LINE :: tail[k] == tail[..MAX_LINE][k];
      } else {
        FindNewlineIs(tail, |tail|);
      }
      assert c.lines + [] == c.lines;
    }
  }

  lemma {:induction false} CutIsACut(s: string)
    ensures IsCut(s, CutLines(s))
    decreases |s|
  {
    var i := FindNewline(s);
    if i < |s| && i < MAX_LINE {
      CutIsACut(s[i + 1..]);
      IsCutAfterLine(s[..i], s[i + 1..], CutLines(s[i + 1..]));
      assert s == s[..i] + "\n" + s[i + 1..];
    } else {
      assert s[0..] == s;
    }
  }

  lemma IsCutAfterLine(line: string, s: string, c: Cut)
    requires Fits(line) && IsCut(s, c)
    ensures IsCut(line + "\n" + s, After([line], c))
  {
    var t := line + "\n" + s;
    assert ([line] + c.lines)[1..] == c.lines;
    assert Wire([line] + c.lines) == line + "\n" + Wire(c.lines);
    assert t[|line| + 1..] == s;
    assert t[|line| + 1 + |Wire(c.lines)|..] == s[|Wire(c.lines)|..];
  }

  /** Once framing is given up, nothing that follows changes the outcome. */
  lemma {:induction false} CutStopsAtTooBig(a: string, b: string)
    requires CutLines(a).tooBig
    ensures CutLines(a + b) == CutLines(a)
  {
    CutIsACut(a);
    var c := CutLines(a);
    var w := |Wire(c.lines)|;
    assert (a + b)[w..] == a[w..] + b;
    assert (a[w..] + b)[..MAX_LINE] == a[w..][..MAX_LINE];
    CutIsUnique(a + b, c);
  }

  /** Cutting can be resumed from the unfinished tail: the law behind chunked reading. */
  lemma CutResumes(a: string, b: string)
    requires !CutLines(a).tooBig
    ensures CutLines(a + b) == After(CutLines(a).lines, CutLines(CutLines(a).rest + b))
  {
    hide CutLines;
    var c := CutLines(a);
    CutIsACut(a);
    CutAfterLines(c.lines, c.rest + b);
    assert a + b == Wire(c.lines) + (c.rest + b);
  }

  /** A cut is always of a prefix: more bytes only ever add lines. */
  lemma CutGrows(a: string, b: string)
    ensures CutLines(a).lines <= CutLines(a + b).lines
  {
    hide CutLines;
    if CutLines(a).tooBig {
      CutStopsAtTooBig(a, b);
    } else {
      CutResumes(a, b);
    }
  }

  /** How many of `available` bytes one recv() takes when `held` are already buffered;
      `want` is the kernel's choice, so quantifying over it covers every split. */
  function RecvCount(held: nat, available: nat, want: nat): (n: nat)
    requires held <= MAX_LINE
    ensures n <= available && held + n <= MAX_LINE
    ensures n == 0 <==> available == 0 || held == MAX_LINE
  {
    var room := MAX_LINE - held;
    var most := if available < room then available else room;
    if want == 0 && most > 0 then 1 else if want < most then want else most
  }

  /** Fill-then-drain over one connection: each element of `wants` is one readable
      wake-up.  `unread` is what the kernel still holds. */
  datatype Reading = Reading(cut: Cut, unread: string)

  function WakeUp(r: Reading, want: nat): (r': Reading)
    requires !r.cut.tooBig && |r.cut.rest| < MAX_LINE
    ensures !r'.cut.tooBig ==> |r'.cut.rest| < MAX_LINE
  {
    var n := RecvCount(|r.cut.rest|, |r.unread|, want);
    CutIsACut(r.cut.rest + r.unread[..n]);
    Reading(After(r.cut.lines, CutLines(r.cut.rest + r.unread[..n])), r.unread[n..])
  }

  function Read(r: Reading, wants: seq<nat>): Reading
    requires !r.cut.tooBig ==> |r.cut.rest| < MAX_LINE
    ensures !Read(r, wants).cut.tooBig ==> |Read(r, wants).cut.rest| < MAX_LINE
    decreases |wants|
  {
    if wants == [] || r.cut.tooBig then r
    else
      Read(WakeUp(r, wants[0]), wants[1..])
  }

  /** The reader's position in a stream: what it has not read yet is a suffix, and what
      it has handed out and holds is the cut of everything before. */
  ghost predicate InStep(r: Reading, stream: string) {
    && |r.unread| <= |stream|
    && var took := |stream| - |r.unread|;
       r.unread == stream[took..] && r.cut == CutLines(stream[..took])
  }

  lemma WakeUpInStep(r: Reading, stream: string, want: nat)
    requires InStep(r, stream) && !r.cut.tooBig && |r.cut.rest| < MAX_LINE
    ensures InStep(WakeUp(r, want), stream)
  {
    hide CutLines;
    var took := |stream| - |r.unread|;
    var n := RecvCount(|r.cut.rest|, |r.unread|, want);
    CutResumes(stream[..took], r.unread[..n]);
    assert stream[..took] + r.unread[..n] == stream[..took + n];
  }

  /** Every run of wake-ups, however the kernel splits the stream, has handed out
      exactly the lines of the bytes consumed so far. */
  lemma {:induction false} ReadInStep(r: Reading, stream: string, wants: seq<nat>)
    requires InStep(r, stream) && (!r.cut.tooBig ==> |r.cut.rest| < MAX_LINE)
    ensures InStep(Read(r, wants), stream)
    decreases |wants|
  {
    if wants == [] || r.cut.tooBig {
    } else {
      WakeUpInStep(r, stream, wants[0]);
      ReadInStep(WakeUp(r, wants[0]), stream, wants[1..]);
    }
  }

  /** A connection nothing has been read from yet. */
  function Unread(stream: string): Reading {
    Reading(Cut([], "", false), stream)
  }

  /** Chunking does not matter: any run that has read everything, or has stopped at an
      oversized line, delivered the cut of the whole stream. */
  lemma ChunkingIndependence(stream: string, wants: seq<nat>)
    ensures var end := Read(Unread(stream), wants);
            && end.cut.lines <= CutLines(stream).lines
            && (end.cut.tooBig || end.unread == "" ==> end.cut == CutLines(stream))
  {
    ReadInStep(Unread(stream), stream, wants);
    InStepIsPrefix(Read(Unread(stream), wants), stream);
  }

  lemma InStepIsPrefix(r: Reading, stream: string)
    requires InStep(r, stream)
    ensures r.cut.lines <= CutLines(stream).lines
    ensures r.cut.tooBig || r.unread == "" ==> r.cut == CutLines(stream)
  {
    hide CutLines;
    var took := |stream| - |r.unread|;
    var seen := stream[..took];
    assert stream == seen + r.unread;
    CutGrows(seen, r.unread);
    if r.cut.tooBig {
      CutStopsAtTooBig(seen, r.unread);
    } else if r.unread == "" {
      assert stream == seen;
    }
  }

  /** And no run can stall: each wake-up with bytes pending consumes at least one. */
  lemma {:induction false} ReadingFinishes(r: Reading, wants: seq<nat>)
    requires !r.cut.tooBig ==> |r.cut.rest| < MAX_LINE
    requires |wants| >= |r.unread|
    ensures Read(r, wants).cut.tooBig || Read(r, wants).unread == ""
    decreases |wants|
  {
    if wants == [] || r.cut.tooBig {
    } else {
      ReadingFinishes(WakeUp(r, wants[0]), wants[1..]);
    }
  }
}
