/** The server's select loop over a whole run: sockets, pools, and the connections served
    one after the other. */
module Server {
  import opened Options
  import opened Lines
  import opened LineWindow
  import opened Connection
  import Dispatch

  /** What becomes of a newly accepted socket: whether it can be made non-blocking, and
      whether the pool for serving or refusing it, and the one for greeting it, exist. */
  datatype Accepted = AcceptFailed | NewSocket(nonBlocking: bool, pool: bool, eventPool: bool)

  /** One pass of the loop.  `input` is what the connection's socket has, when it is ready;
      it is ignored while no connection is served. */
  datatype Wake = Interrupted | SelectFailed | Nothing | Ready(input: Option<Arrival>, arrival: Option<Accepted>)

  /** The life of the accepted sockets, numbered in the order they were accepted.  Abandoned
      are those that could not be set up. */
  datatype Event =
    | Served(sock: nat)
    | Abandoned(sock: nat)
    | Refused(sock: nat, during: nat)
    | Input(sock: nat, arrival: Arrival)
    | Closed(sock: nat)

  /** Served and not closed since. */
  predicate LiveIn(trace: seq<Event>, sock: nat) {
    Served(sock) in trace && Closed(sock) !in trace
  }

  /** One connection at a time, and a refusal only ever while another one is live. */
  ghost predicate OneAtATime(trace: seq<Event>) {
    && (forall i | 0 <= i < |trace| && trace[i].Served? ::
          forall s: nat :: !LiveIn(trace[..i], s))
    && (forall i | 0 <= i < |trace| && trace[i].Refused? ::
          LiveIn(trace[..i], trace[i].during) && trace[i].during != trace[i].sock)
  }

  lemma OneMoreEvent(trace: seq<Event>, e: Event)
    requires OneAtATime(trace)
    requires e.Served? ==> forall s: nat :: !LiveIn(trace, s)
    requires e.Refused? ==> LiveIn(trace, e.during) && e.during != e.sock
    ensures OneAtATime(trace + [e])
    ensures forall s: nat :: LiveIn(trace + [e], s) <==>
              (LiveIn(trace, s) || (e == Served(s) && Closed(s) !in trace)) && e != Closed(s)
  {
    var t := trace + [e];
    assert forall x :: x in t <==> x in trace || x == e;
    forall i | 0 <= i < |t|
      ensures t[i].Served? ==> forall s: nat :: !LiveIn(t[..i], s)
      ensures t[i].Refused? ==> LiveIn(t[..i], t[i].during) && t[i].during != t[i].sock
    {
      if i < |trace| {
        assert t[..i] == trace[..i];
      } else {
        assert t[..i] == trace;
      }
    }
  }

  /** This is the live socket, if there is one. */
  ghost predicate Lives(trace: seq<Event>, live: Option<nat>) {
    forall s: nat :: LiveIn(trace, s) <==> live == Some(s)
  }

  /** Who is live after one more event, and that it is still one at a time. */
  lemma OneMoreLives(trace: seq<Event>, e: Event, live: Option<nat>, live': Option<nat>)
    requires OneAtATime(trace) && Lives(trace, live)
    requires match e
             case Served(s) => live == None && live' == Some(s) && Closed(s) !in trace
             case Refused(s, during) => live == live' == Some(during) && s != during
             case Closed(s) => live == Some(s) && live' == None
             case _ => live' == live
    ensures OneAtATime(trace + [e]) && Lives(trace + [e], live')
  {
    OneMoreEvent(trace, e);
    hide LiveIn, OneAtATime;
  }

  /** The sockets served, in order. */
  function ServedIn(trace: seq<Event>): seq<nat> {
    if trace == [] then []
    else
      var n := |trace| - 1;
      ServedIn(trace[..n]) + if trace[n].Served? then [trace[n].sock] else []
  }

  /** How many sockets were accepted. */
  function Arrived(trace: seq<Event>): nat {
    if trace == [] then 0
    else
      var n := |trace| - 1;
      Arrived(trace[..n]) + if trace[n].Served? || trace[n].Abandoned? || trace[n].Refused? then 1 else 0
  }

  /** What arrived on the connections served, in order. */
  function InputsIn(trace: seq<Event>): seq<(nat, Arrival)> {
    if trace == [] then []
    else
      var n := |trace| - 1;
      InputsIn(trace[..n]) + if trace[n].Input? then [(trace[n].sock, trace[n].arrival)] else []
  }

  lemma TraceGrows(trace: seq<Event>, e: Event)
    ensures Arrived(trace + [e]) == Arrived(trace) + if e.Served? || e.Abandoned? || e.Refused? then 1 else 0
    ensures InputsIn(trace + [e]) == InputsIn(trace) + if e.Input? then [(e.sock, e.arrival)] else []
    ensures ServedIn(trace + [e]) == ServedIn(trace) + if e.Served? then [e.sock] else []
  {
    assert (trace + [e])[..|trace|] == trace;
  }

  // ---- What a pass does ----------------------------------------------------------------------

  /** The connection being served, if there is one and it is ready, gets its input, and may
      be closed on that. */
  ghost predicate InputTold(before: seq<Event>, input: Option<Arrival>, after: seq<Event>) {
    if input.None? then after == before
    else
      && (forall s: nat | LiveIn(before, s) ::
            || after == before + [Input(s, input.value)]
            || after == before + [Input(s, input.value), Closed(s)])
      && ((forall s: nat :: !LiveIn(before, s)) ==> after == before)
  }

  /** A socket that arrives is refused if a connection is being served, and otherwise served
      if it can be set up. */
  ghost predicate ArrivalTold(before: seq<Event>, arrival: Option<Accepted>, after: seq<Event>) {
    if arrival.None? || arrival.value.AcceptFailed? then after == before
    else
      var n := Arrived(before);
      && (forall s: nat | LiveIn(before, s) :: after == before + [Refused(n, s)])
      && ((forall s: nat :: !LiveIn(before, s)) ==>
            after == before + [if arrival.value.nonBlocking && arrival.value.pool then Served(n) else Abandoned(n)])
  }

  lemma InputIsTold(before: seq<Event>, input: Option<Arrival>, live: Option<nat>, after: seq<Event>)
    requires Lives(before, live)
    requires if live.None? || input.None? then after == before
             else || after == before + [Input(live.value, input.value)]
                  || after == before + [Input(live.value, input.value), Closed(live.value)]
    ensures InputTold(before, input, after)
  {
    hide LiveIn;
  }

  lemma ArrivalIsTold(before: seq<Event>, arrival: Option<Accepted>, live: Option<nat>, after: seq<Event>)
    requires Lives(before, live)
    requires if arrival.None? || arrival.value.AcceptFailed? then after == before
             else if live.Some? then after == before + [Refused(Arrived(before), live.value)]
             else
               var n := Arrived(before);
               after == before + [if arrival.value.nonBlocking && arrival.value.pool then Served(n) else Abandoned(n)]
    ensures ArrivalTold(before, arrival, after)
  {
    hide LiveIn, Arrived;
  }

  lemma EndIsTold(before: seq<Event>, live: Option<nat>, after: seq<Event>)
    requires Lives(before, live)
    requires after == before + if live.Some? then [Closed(live.value)] else []
    ensures EndTold(before, after)
  {
    hide LiveIn;
    assert before + [] == before;
  }

  /** First the connection, then the arrival: one that comes while the connection ends is
      served. */
  ghost predicate PassTold(before: seq<Event>, w: Wake, after: seq<Event>) {
    if !w.Ready? then after == before
    else exists between :: InputTold(before, w.input, between) && ArrivalTold(between, w.arrival, after)
  }

  predicate Fails(w: Wake) {
    w.SelectFailed? || (w.Ready? && w.arrival == Some(AcceptFailed))
  }

  /** The end of the loop closes the connection being served. */
  ghost predicate EndTold(before: seq<Event>, after: seq<Event>) {
    && (forall s: nat | LiveIn(before, s) :: after == before + [Closed(s)])
    && ((forall s: nat :: !LiveIn(before, s)) ==> after == before)
  }

  /** How often `x` occurs. */
  function Times(s: seq<nat>, x: nat): nat {
    if s == [] then 0 else Times(s[..|s| - 1], x) + if s[|s| - 1] == x then 1 else 0
  }

  lemma TimesOneMore(s: seq<nat>, y: nat)
    ensures forall x: nat :: Times(s + [y], x) == Times(s, x) + if x == y then 1 else 0
  {
    assert (s + [y])[..|s|] == s;
  }

  /** Everything numbered below `made` has been given back exactly once, except `held`. */
  ghost predicate Balanced(made: nat, returned: seq<nat>, held: int) {
    && (forall x: nat :: Times(returned, x) == if x < made && x != held then 1 else 0)
    && held < made
  }

  lemma Returns(made: nat, returned: seq<nat>, held: int, x: nat)
    requires Balanced(made, returned, held)
    requires x == made || x == held
    ensures x == made ==> Balanced(made + 1, returned + [x], held)
    ensures x == held ==> Balanced(made, returned + [x], -1)
  {
    TimesOneMore(returned, x);
  }

  const NOBODY: int := -1

  /** A connection that is over: its socket, the daemon's state before and after it, what
      arrived on it, the bytes that brought, what was said, how many lines were answered, and
      whether it ended by itself or with the loop. */
  datatype Talk<W> = Talk(sock: nat, before: W, inputs: seq<Arrival>, consumed: string, said: seq<Out>,
                          answered: nat, after: W, dropped: bool) {
    /** All its transcript was said, up to a lost response, and nothing else; nothing but its
        requests had an effect; and it was dropped by the first arrival that drops it. */
    ghost predicate Told(p: Dispatch.Protocol<W>, writes: nat -> bool) {
      && consumed == Fed(inputs)
      && said <= Transcript(p, consumed, before)
      && (said == Transcript(p, consumed, before) || LostIn(said, writes))
      && answered <= |CutLines(consumed).lines|
      && after == StateAfter(p, CutLines(consumed).lines[..answered], before)
      && (inputs != [] ==> AllKept(p, before, writes, inputs[..|inputs| - 1]))
      && (dropped <==> Drops(p, before, writes, inputs))
    }
  }

  /** A connection whose peer sent `stream`, and that got a wake-up for every byte of it, or
      met an oversized line, said the whole transcript of the stream, up to a lost response. */
  lemma EnoughWakeups<W>(t: Talk<W>, p: Dispatch.Protocol<W>, writes: nat -> bool, stream: string)
    requires t.Told(p, writes) && Sends(t.inputs, stream)
    requires Readables(t.inputs) >= |stream| || CutLines(t.consumed).tooBig
    ensures t.said == Transcript(p, stream, t.before) || LostIn(t.said, writes)
  {
    hide CutLines, Transcript, Fed, StateAfter, LostIn, Sends, AllKept, Drops, Readables;
    forall n | 0 <= n < |t.inputs|
      ensures !CutLines(Fed(t.inputs[..n])).tooBig
    {
      KeptIsNotTooBig(p, t.before, writes, t.inputs, n);
    }
    StreamArrives(t.inputs, stream);
    if |t.consumed| == |stream| {
      assert t.consumed == stream;
    }
    assert stream == t.consumed + stream[|t.consumed|..];
    TranscriptGrows(p, t.consumed, stream[|t.consumed|..], t.before);
  }

  lemma KeptIsNotTooBig<W>(p: Dispatch.Protocol<W>, w: W, writes: nat -> bool, inputs: seq<Arrival>, n: nat)
    requires n < |inputs| && AllKept(p, w, writes, inputs[..|inputs| - 1])
    ensures !CutLines(Fed(inputs[..n])).tooBig
  {
    hide CutLines, Transcript, LostIn;
    if n == 0 {
      NothingIsShort();
    } else {
      assert inputs[..|inputs| - 1][..n] == inputs[..n];
      hide Fed;
      assert !Drops(p, w, writes, inputs[..n]);
    }
  }

  lemma NothingIsShort()
    ensures Fed([]) == "" && !CutLines("").tooBig
  {
  }

  /** Each connection finds the daemon's state as the one before left it. */
  ghost predicate Chained<W(!new)>(talks: seq<Talk<W>>, from: W, to: W) {
    if talks == [] then from == to
    else
      var n := |talks| - 1;
      talks[n].after == to && Chained(talks[..n], from, talks[n].before)
  }

  /** The sockets of these connections. */
  function Sockets<W>(talks: seq<Talk<W>>): seq<nat> {
    seq(|talks|, i requires 0 <= i < |talks| => talks[i].sock)
  }

  /** What arrived on these connections, in order. */
  function Heard<W>(talks: seq<Talk<W>>): seq<(nat, Arrival)> {
    if talks == [] then []
    else
      var n := |talks| - 1;
      Heard(talks[..n]) + Tagged(talks[n].sock, talks[n].inputs)
  }

  function Tagged(sock: nat, inputs: seq<Arrival>): seq<(nat, Arrival)> {
    seq(|inputs|, i requires 0 <= i < |inputs| => (sock, inputs[i]))
  }

  lemma TaggedGrows(sock: nat, inputs: seq<Arrival>, arrival: Arrival)
    ensures Tagged(sock, inputs + [arrival]) == Tagged(sock, inputs) + [(sock, arrival)]
  {
  }

  lemma HeardGrows<W>(talks: seq<Talk<W>>, t: Talk<W>)
    ensures Heard(talks + [t]) == Heard(talks) + Tagged(t.sock, t.inputs)
  {
    assert (talks + [t])[..|talks|] == talks;
  }

  lemma ChainGrows<W(!new)>(talks: seq<Talk<W>>, t: Talk<W>, from: W)
    requires Chained(talks, from, t.before)
    ensures Chained(talks + [t], from, t.after)
  {
    assert (talks + [t])[..|talks|] == talks;
  }

  class Loop<!W(!new)> {
    const protocol: Dispatch.Protocol<W>
    /** Whether the k-th write of the server thread on a socket succeeds. */
    const writes: nat -> nat -> bool
    ghost const world0: W
    /** The daemon's state, which the connection has while one is served. */
    var world: W
    /** The connection being served. */
    var active: bool
    var conn: Conn?<W>
    var sock: nat
    var pool: nat
    /** The socket of the registered framing object, if one is registered. */
    var registered: int
    /** Sockets accepted and closed, pools created and released. */
    var accepted: nat
    var closed: seq<nat>
    var created: nat
    var released: seq<nat>
    var trace: seq<Event>
    ghost var talks: seq<Talk<W>>

    ghost function Footprint(): set<object>
      reads this
    {
      if conn == null then {} else {conn, conn.window, conn.window.buf}
    }

    /** Sockets, pools and the registration are accounted for. */
    ghost predicate Balances()
      reads this`registered, this`active, this`sock, this`pool
      reads this`accepted, this`closed, this`created, this`released, this`trace
    {
      && registered == (if active then sock else NOBODY)
      && Balanced(accepted, closed, if active then sock else -1)
      && Balanced(created, released, if active then pool else -1)
      && OneAtATime(trace)
      && Lives(trace, if active then Some(sock) else None)
      && (forall e | e in trace :: e.sock < accepted)
      && accepted == Arrived(trace)
    }

    /** Every connection so far told the truth, the one being served included. */
    ghost predicate Tells()
      reads this, Footprint()
    {
      && (active <==> conn != null)
      && (conn != null ==> conn.protocol == protocol && conn.writes == writes(sock) && conn.Truthful())
      && (forall t | t in talks :: t.Told(protocol, writes(t.sock)))
      && Chained(talks, world0, if conn != null then conn.world0 else world)
      && ServedIn(trace) == Sockets(talks) + (if conn != null then [sock] else [])
      && InputsIn(trace) == Heard(talks) + (if conn != null then Tagged(sock, conn.inputs) else [])
    }

    /** Between passes of the loop. */
    ghost predicate Valid()
      reads this, Footprint()
    {
      Balances() && Tells() && (conn != null ==> conn.UpToDate())
    }

    constructor (protocol: Dispatch.Protocol<W>, writes: nat -> nat -> bool, world: W)
      ensures Valid() && !active && accepted == 0
      ensures this.protocol == protocol && world0 == world && talks == []
    {
      this.protocol, this.writes, this.world0, this.world := protocol, writes, world, world;
      active, conn, sock, pool, registered := false, null, 0, 0, NOBODY;
      accepted, closed, created, released, trace := 0, [], 0, [], [];
      talks := [];
    }

    /** Gives back what the connection holds. */
    method Settle()
      requires Balances() && active
      modifies this`registered, this`released, this`closed, this`trace, this`active
      ensures Balances() && !active && trace == old(trace) + [Closed(sock)]
    {
      assert sock < accepted;
      hide Balanced, OneAtATime, Arrived, Lives;
      registered := NOBODY;
      Returns(created, released, pool, pool);
      released := released + [pool];
      Returns(accepted, closed, sock, sock);
      closed := closed + [sock];
      OneMoreLives(trace, Closed(sock), Some(sock), None);
      TraceGrows(trace, Closed(sock));
      trace := trace + [Closed(sock)];
      active := false;
    }

    /** The daemon's state outlives the connection, whose talk is on record. */
    method Detach(ghost dropped: bool)
      requires !active && conn != null && conn.protocol == protocol && conn.writes == writes(sock) && conn.Truthful()
      requires dropped <==> Drops(protocol, conn.world0, writes(sock), conn.inputs)
      requires Chained(talks, world0, conn.world0) && forall t | t in talks :: t.Told(protocol, writes(t.sock))
      requires ServedIn(trace) == Sockets(talks) + [sock]
      requires InputsIn(trace) == Heard(talks) + Tagged(sock, conn.inputs)
      modifies this`world, this`conn, this`talks
      ensures Tells() && conn == null && world == old(conn.world)
      ensures |talks| == |old(talks)| + 1 && talks[..|old(talks)|] == old(talks)
      ensures talks[|old(talks)|].dropped == dropped
    {
      hide Chained, Transcript, CutLines, StateAfter, ServedIn, InputsIn, Heard, Tagged, Fed, Drops, AllKept, LostIn;
      ghost var t := Talk(sock, conn.world0, conn.inputs, conn.consumed, conn.said, conn.answered, conn.world, dropped);
      ChainGrows(talks, t, world0);
      HeardGrows(talks, t);
      assert Sockets(talks + [t]) == Sockets(talks) + [sock];
      talks := talks + [t];
      world, conn := conn.world, null;
    }

    method CloseConn(ghost dropped: bool)
      requires Balances() && Tells() && active
      requires dropped <==> Drops(protocol, conn.world0, writes(sock), conn.inputs)
      modifies this
      ensures Valid() && !active && world == old(conn.world)
      ensures accepted == old(accepted) && created == old(created)
      ensures trace == old(trace) + [Closed(old(sock))]
      ensures |talks| == |old(talks)| + 1 && talks[..|old(talks)|] == old(talks)
      ensures talks[|old(talks)|].dropped == dropped
    {
      hide Balances, Chained, Transcript, CutLines, StateAfter, ServedIn, InputsIn, Arrived, Heard, Tagged, Fed, Drops,
           AllKept, LostIn, Sockets;
      TraceGrows(trace, Closed(sock));
      Settle();
      Detach(dropped);
    }

    /** A socket that is not served, because it cannot be set up or another one is. */
    method TurnAway(e: Event)
      requires Balances()
      requires if active then e == Refused(accepted, sock) && sock < accepted else e == Abandoned(accepted)
      modifies this`accepted, this`closed, this`trace
      ensures Balances() && accepted == old(accepted) + 1 && trace == old(trace) + [e]
    {
      hide OneAtATime, Balanced, Lives, Arrived;
      Returns(accepted, closed, if active then sock else -1, accepted);
      OneMoreLives(trace, e, if active then Some(sock) else None, if active then Some(sock) else None);
      TraceGrows(trace, e);
      accepted, closed, trace := accepted + 1, closed + [accepted], trace + [e];
    }

    /** A pool used and released on the spot, for a pushed event or a refusal. */
    method BorrowPool()
      requires Balances()
      modifies this`created, this`released
      ensures Balances()
    {
      Returns(created, released, if active then pool else -1, created);
      created, released := created + 1, released + [created];
    }

    /** The arrived socket becomes the one served, with a pool of its own. */
    method TakeUp()
      requires Balances() && !active
      modifies this`pool, this`created, this`sock, this`accepted, this`registered, this`trace, this`active
      ensures Balances() && active && sock == old(accepted) && accepted == sock + 1
      ensures trace == old(trace) + [Served(sock)]
    {
      hide OneAtATime, Lives, Arrived;
      assert Closed(accepted) !in trace;
      OneMoreLives(trace, Served(accepted), None, Some(accepted));
      TraceGrows(trace, Served(accepted));
      trace := trace + [Served(accepted)];
      pool, created := created, created + 1;
      sock, accepted := accepted, accepted + 1;
      registered := sock;
      active := true;
    }

    method OpenConn(a: Accepted)
      requires Valid() && !active && a.NewSocket?
      modifies this
      ensures Valid() && fresh(Footprint()) && accepted == old(accepted) + 1
      ensures active <==> a.nonBlocking && a.pool
      ensures conn != null ==> conn.world0 == conn.world == old(world) && conn.said == [Hello] && conn.inputs == []
      ensures trace == old(trace) + [if active then Served(old(accepted)) else Abandoned(old(accepted))]
      ensures talks == old(talks)
    {
      hide Balances, Chained, Transcript, CutLines, StateAfter, ServedIn, InputsIn, Arrived, Heard, Fed, Drops, AllKept,
           LostIn, Sockets;
      if !a.nonBlocking || !a.pool {
        TraceGrows(trace, Abandoned(accepted));
        TurnAway(Abandoned(accepted));
        return;
      }
      TraceGrows(trace, Served(accepted));
      TakeUp();
      Attach();
      if a.eventPool {
        BorrowPool();
      }
    }

    /** The connection taken up begins where the one before left the daemon. */
    method Attach()
      requires active && conn == null && Chained(talks, world0, world)
      requires forall t | t in talks :: t.Told(protocol, writes(t.sock))
      requires ServedIn(trace) == Sockets(talks) + [sock] && InputsIn(trace) == Heard(talks)
      modifies this`conn
      ensures conn != null && fresh(Footprint()) && Tells() && conn.UpToDate()
      ensures conn.world0 == conn.world == world && conn.said == [Hello] && conn.inputs == []
    {
      hide Chained, Transcript, CutLines, StateAfter, ServedIn, InputsIn, Heard, Fed, Drops, AllKept, LostIn, Sockets;
      conn := new Conn(protocol, writes(sock), world);
      conn.GreetedIsTruthful();
      assert Heard(talks) + Tagged(sock, []) == Heard(talks);
    }

    /** The connection being served is left alone. */
    method RefuseConn(a: Accepted)
      requires Valid() && active && a.NewSocket?
      modifies this`accepted, this`closed, this`created, this`released, this`trace
      ensures Valid() && accepted == old(accepted) + 1
      ensures trace == old(trace) + [Refused(old(accepted), sock)]
    {
      hide Balances, Chained, Transcript, CutLines, StateAfter, ServedIn, InputsIn, Arrived, Heard, Fed, Drops, AllKept;
      if a.pool {
        BorrowPool();
      }
      TraceGrows(trace, Refused(accepted, sock));
      LiveIsOlder();
      TurnAway(Refused(accepted, sock));
    }

    /** What arrives is on record. */
    method Note(arrival: Arrival)
      requires Balances() && active
      modifies this`trace
      ensures Balances() && trace == old(trace) + [Input(sock, arrival)]
    {
      assert sock < accepted;
      hide Balanced, OneAtATime, Arrived, Lives;
      OneMoreLives(trace, Input(sock, arrival), Some(sock), Some(sock));
      TraceGrows(trace, Input(sock, arrival));
      trace := trace + [Input(sock, arrival)];
    }

    /** The connection is readable: it is served on iff handling its input keeps it. */
    method ConnReady(arrival: Arrival)
      requires Valid() && active
      modifies this, Footprint()
      ensures Valid() && Footprint() <= old(Footprint())
      ensures old(conn).inputs == old(conn.inputs) + [arrival] && old(conn).consumed == Fed(old(conn).inputs)
      ensures active <==> !Drops(protocol, old(conn).world0, writes(old(sock)), old(conn).inputs)
      ensures trace == old(trace)
                     + if active then [Input(old(sock), arrival)] else [Input(old(sock), arrival), Closed(old(sock))]
      ensures if active then talks == old(talks) && conn == old(conn)
              else |talks| == |old(talks)| + 1 && talks[..|old(talks)|] == old(talks) && talks[|old(talks)|].dropped
    {
      hide Balances, Chained, Transcript, CutLines, StateAfter, ServedIn, InputsIn, Arrived, Heard, Tagged, Fed, Drops,
           AllKept, LostIn;
      var keep, taken;
      ghost var places;
      TaggedGrows(sock, conn.inputs, arrival);
      keep, taken, places := conn.HandleConnInput(arrival);
      TraceGrows(trace, Input(sock, arrival));
      Note(arrival);
      if !keep {
        CloseConn(true);
        assert trace == old(trace) + [Input(old(sock), arrival), Closed(old(sock))];
      } else {
        conn.GreetedIsTruthful();
      }
    }

    /** First the connection, if it is ready. */
    method ServeReady(input: Option<Arrival>)
      requires Valid()
      modifies this, Footprint()
      ensures Valid() && Footprint() <= old(Footprint()) && InputTold(old(trace), input, trace)
      ensures |old(talks)| <= |talks| && talks[..|old(talks)|] == old(talks)
      ensures forall i | |old(talks)| <= i < |talks| :: talks[i].dropped
    {
      hide Valid, InputTold, LiveIn, Drops, Transcript, CutLines;
      OneLives();
      if active && input.Some? {
        ConnReady(input.value);
      }
      InputIsTold(old(trace), input, if old(active) then Some(old(sock)) else None, trace);
    }

    /** Then the socket that arrives, if one does. */
    method TakeArrival(arrival: Option<Accepted>)
      requires Valid()
      modifies this
      ensures Valid() && fresh(Footprint() - old(Footprint())) && ArrivalTold(old(trace), arrival, trace)
      ensures talks == old(talks)
    {
      hide Valid, ArrivalTold, LiveIn, Arrived, Transcript, CutLines;
      OneLives();
      if arrival.Some? && arrival.value.NewSocket? {
        if active {
          RefuseConn(arrival.value);
        } else {
          OpenConn(arrival.value);
        }
      }
      ArrivalIsTold(old(trace), arrival, if old(active) then Some(old(sock)) else None, trace);
    }

    /** One pass of the loop; it goes on unless select() or accept() fails. */
    method Pass(w: Wake) returns (go: bool)
      requires Valid()
      modifies this, Footprint()
      ensures Valid() && fresh(Footprint() - old(Footprint()))
      ensures go <==> !Fails(w)
      ensures PassTold(old(trace), w, trace)
      ensures |old(talks)| <= |talks| && talks[..|old(talks)|] == old(talks)
      ensures forall i | |old(talks)| <= i < |talks| :: talks[i].dropped
    {
      hide Valid, InputTold, ArrivalTold;
      if !w.Ready? {
        return !w.SelectFailed?;
      }
      ServeReady(w.input);
      TakeArrival(w.arrival);
      return !(w.arrival.Some? && w.arrival.value.AcceptFailed?);
    }

    lemma LiveIsOlder()
      requires Balances() && active
      ensures sock < accepted
    {
    }

    /** The connection being served is the live one. */
    lemma OneLives()
      requires Valid()
      ensures forall s: nat :: LiveIn(trace, s) <==> active && s == sock
      ensures accepted == Arrived(trace)
      ensures active <==> conn != null
    {
      hide Balanced, OneAtATime, Chained, Transcript, CutLines, StateAfter, LiveIn, Drops, Fed, AllKept, LostIn;
    }

    /** Runs until asked to stop, which is the end of `wakes`, or until select() or accept()
        fails.  However it ends, every socket accepted has been closed once, every pool
        created has been released once, and nothing is registered any more; connections were
        served one at a time, each getting the input of the passes while it was, each saying
        its transcript up to a lost response and nothing else, each ended by the first
        arrival that ends it or with the loop, and each finding the daemon's state as the
        one before had left it.  `heads` are the traces at which the passes began. */
    method Run(wakes: seq<Wake>) returns (ok: bool, ghost heads: seq<seq<Event>>)
      requires Valid() && !active
      modifies this
      ensures Valid() && !active && registered == NOBODY
      ensures forall s: nat :: Times(closed, s) == if s < accepted then 1 else 0
      ensures forall p: nat :: Times(released, p) == if p < created then 1 else 0
      ensures OneAtATime(trace) && accepted == Arrived(trace)
      ensures 0 < |heads| <= |wakes| + 1 && heads[0] == old(trace)
      ensures forall i | 0 <= i < |heads| - 1 :: PassTold(heads[i], wakes[i], heads[i + 1])
      ensures forall i | 0 <= i < |heads| - 1 :: Fails(wakes[i]) <==> !ok && i == |heads| - 2
      ensures if ok then |heads| == |wakes| + 1 else |heads| > 1
      ensures EndTold(heads[|heads| - 1], trace)
      ensures Sockets(talks) == ServedIn(trace) && Heard(talks) == InputsIn(trace)
      ensures forall t | t in talks :: t.Told(protocol, writes(t.sock))
      ensures |old(talks)| <= |talks| && talks[..|old(talks)|] == old(talks)
      ensures forall i | |old(talks)| <= i < |talks| - 1 :: talks[i].dropped
      ensures Chained(talks, world0, world)
    {
      hide Valid, OneAtATime, LiveIn, Chained, Transcript, CutLines, StateAfter, ServedIn, Sockets, Times, InputsIn,
           Arrived, Heard, Tagged, Fed, Drops, AllKept, LostIn, PassTold, EndTold, Fails;
      OneLives();
      var i := 0;
      ok, heads := true, [trace];
      while i < |wakes| && ok
        invariant i <= |wakes| && Valid() && fresh(Footprint())
        invariant |heads| == i + 1 && heads[0] == old(trace) && heads[i] == trace
        invariant forall k | 0 <= k < i :: PassTold(heads[k], wakes[k], heads[k + 1])
        invariant forall k | 0 <= k < i :: Fails(wakes[k]) <==> !ok && k == i - 1
        invariant ok || i > 0
        invariant |old(talks)| <= |talks| && talks[..|old(talks)|] == old(talks)
        invariant forall k | |old(talks)| <= k < |talks| :: talks[k].dropped
      {
        ghost var before := talks;
        ok := Pass(wakes[i]);
        i, heads := i + 1, heads + [trace];
        OneLives();
        assert talks[..|old(talks)|] == talks[..|before|][..|old(talks)|];
        assert forall k | 0 <= k < |before| :: talks[k] == talks[..|before|][k];
      }
      OneLives();
      ghost var live := if active then Some(sock) else None;
      if active {
        NotDropped();
        CloseConn(false);
      }
      assert heads[i] + [] == heads[i];
      EndIsTold(heads[i], live, trace);
      AllAccounted();
    }

    /** With no connection being served, nothing is held, and all is told. */
    lemma AllAccounted()
      requires Valid() && !active
      ensures registered == NOBODY
      ensures forall s: nat :: Times(closed, s) == if s < accepted then 1 else 0
      ensures forall p: nat :: Times(released, p) == if p < created then 1 else 0
      ensures OneAtATime(trace) && accepted == Arrived(trace)
      ensures Sockets(talks) == ServedIn(trace) && Heard(talks) == InputsIn(trace)
      ensures forall t | t in talks :: t.Told(protocol, writes(t.sock))
      ensures Chained(talks, world0, world)
    {
      hide OneAtATime, LiveIn, Chained, Transcript, CutLines, StateAfter, ServedIn, Sockets, Times, InputsIn,
           Arrived, Heard, Tagged, Fed, Drops, AllKept, LostIn;
    }

    /** A connection that is up to date has not been dropped. */
    lemma NotDropped()
      requires Valid() && active
      ensures conn != null && Balances() && Tells() && !Drops(protocol, conn.world0, writes(sock), conn.inputs)
    {
      hide Drops, Transcript, CutLines, Fed, Balances;
      assert conn.inputs[..|conn.inputs|] == conn.inputs;
    }
  }
}
