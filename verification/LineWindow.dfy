/** The connection's byte window: a fixed buffer addressed by `start` and `len`, filled
    at its end by recv() and cut into lines at its front without moving memory. */
module LineWindow {
  import opened Lines

  /** What one recv() on the non-blocking socket meets: bytes waiting (of which the kernel
      hands out `want`, see RecvCount), nothing after all, or an error.  Bytes waiting
      but none there is the peer having closed. */
  datatype Arrival = Readable(waiting: string, want: nat) | WouldBlock | Broken

  datatype FillStatus = Filled | FillPending | Eof | RecvError

  datatype Extract = Line(offset: nat, length: nat) | ExtractPending | TooBig

  class Window {
    const buf: array<char>
    var start: nat
    var len: nat

    ghost predicate Valid()
      reads this
    {
      && buf.Length == MAX_LINE + 1
      && start + len <= MAX_LINE
      && (len == 0 ==> start == 0)
    }

    /** The bytes received and not yet handed out. */
    ghost function Pending(): string
      requires Valid()
      reads this, buf
    {
      buf[start..start + len]
    }

    constructor ()
      ensures Valid() && fresh(buf) && Pending() == ""
    {
      buf := new char[MAX_LINE + 1];
      start, len := 0, 0;
    }

    /** Reclaims the space of extracted lines. */
    method Reclaim()
      requires Valid()
      modifies this`start, buf
      ensures Valid() && start == 0 && Pending() == old(Pending())
    {
      if start > 0 {
        forall i | 0 <= i < len {
          buf[i] := buf[start + i];
        }
        start := 0;
      }
      assert buf[..len] == old(Pending());
    }

    /** What the kernel hands out goes to the end of the window. */
    method Receive(waiting: string, want: nat) returns (taken: nat)
      requires Valid() && start == 0
      modifies this`len, buf
      ensures Valid() && taken == RecvCount(old(len), |waiting|, want)
      ensures Pending() == old(Pending()) + waiting[..taken]
    {
      taken := RecvCount(len, |waiting|, want);
      forall i | 0 <= i < taken {
        buf[len + i] := waiting[i];
      }
      assert buf[..len] == old(Pending());
      assert buf[len..len + taken] == waiting[..taken];
      len := len + taken;
    }

    /** Reclaims, and receives once at the end. */
    method Fill(arrival: Arrival) returns (status: FillStatus, taken: nat)
      requires Valid()
      modifies this`start, this`len, buf
      ensures Valid() && start == 0
      ensures taken == if arrival.Readable? then RecvCount(old(len), |arrival.waiting|, arrival.want) else 0
      ensures Pending() == old(Pending()) + if taken > 0 then arrival.waiting[..taken] else ""
      ensures old(len) == MAX_LINE ==> status == Filled
      ensures old(len) < MAX_LINE ==>
                status == match arrival
                          case WouldBlock => FillPending
                          case Broken => RecvError
                          case Readable(waiting, _) => if waiting == "" then Eof else Filled
    {
      taken := 0;
      Reclaim();
      assert buf[..len] == old(Pending());
      if len == MAX_LINE {
        return Filled, 0;
      }
      match arrival
      case WouldBlock =>
        status := FillPending;
      case Broken =>
        status := RecvError;
      case Readable(waiting, want) =>
        taken := Receive(waiting, want);
        status := if taken == 0 then Eof else Filled;
    }

    /** Offset of the first newline in the window, or its length when there is none. */
    method FindInWindow() returns (i: nat)
      requires Valid()
      ensures i == LineAt(buf[..], start, len) <= len
    {
      i := 0;
      while i < len && buf[start + i] != '\n'
        invariant i <= len
        invariant NewlineFree(Pending()[..i])
      {
        assert Pending()[i] == buf[start + i];
        i := i + 1;
      }
      FindNewlineIs(Pending(), i);
      assert Pending() == buf[..][start..start + len];
    }

    /** Hands out the next line as a place in the buffer.  Only the line's own newline byte
        is overwritten, and the window left behind starts after it. */
    method ExtractLine() returns (r: Extract)
      requires Valid()
      modifies this`start, this`len, buf
      ensures Valid()
      ensures LineAt(old(buf[..]), old(start), old(len)) < old(len) ==>
                var i := LineAt(old(buf[..]), old(start), old(len));
                && r == Line(old(start), i)
                && buf[..] == old(buf[..])[old(start) + i := '\0']
                && len == old(len) - i - 1
                && start == if len == 0 then 0 else old(start) + i + 1
      ensures LineAt(old(buf[..]), old(start), old(len)) == old(len) ==>
                && buf[..] == old(buf[..])
                && if old(len) == MAX_LINE then r == TooBig && len == 0
                   else r == ExtractPending && start == old(start) && len == old(len)
    {
      var i := FindInWindow();
      if i == len {
        if len >= MAX_LINE {
          start, len := 0, 0;
          return TooBig;
        }
        return ExtractPending;
      }
      r := Line(start, i);
      buf[start + i] := '\0';
      start, len := start + i + 1, len - i - 1;
      if len == 0 {
        start := 0;
      }
    }
  }

  /** Length of the line at the front of a window, or the window's length. */
  function LineAt(bytes: string, start: nat, len: nat): (i: nat)
    requires start + len <= |bytes|
    ensures i <= len
  {
    FindNewline(bytes[start..start + len])
  }
}
