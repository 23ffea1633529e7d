/** The one account slot, its registration flag, and the video capture selection that must
    agree with the device stored in the account. */
module Account {
  import opened Options
  import opened Pjsua

  datatype Status = Success | Exists | InvalidOp | InvalidArg | LibraryError

  /** What has happened to the slot: an account added, a registration callback completed
      for an account the library knows, the account removed, or a request that changes
      nothing by itself. */
  datatype Event = Configured(id: int) | Completed(id: int, renew: bool, code: int) | Removed | Requested

  datatype Device = Device(id: int, captures: bool)

  /** A successful REGISTER, as opposed to a failed one or a successful un-REGISTER. */
  predicate IsRegistered2xx(e: Event) {
    e.Completed? && e.renew && 200 <= e.code <= 299
  }

  /** C's division truncates, Dafny's does not: for a status the test is the same. */
  function TruncatedHundreds(code: int): int {
    if code < 0 then -(-code / 100) else code / 100
  }

  lemma HundredsAre2xx(code: int)
    ensures TruncatedHundreds(code) == 2 <==> 200 <= code <= 299
  {
  }

  /** An account was configured and not removed since. */
  ghost predicate HasAccount(trace: seq<Event>, id: int) {
    exists i :: 0 <= i < |trace| && trace[i] == Configured(id)
                && forall j | i < j < |trace| :: !trace[j].Removed? && !trace[j].Configured?
  }

  /** And the last registration callback to complete since was a 2xx REGISTER. */
  ghost predicate LastRegistered(trace: seq<Event>) {
    exists k :: 0 <= k < |trace| && IsRegistered2xx(trace[k])
                && forall j | k < j < |trace| :: trace[j].Requested?
  }

  lemma TraceGrows(trace: seq<Event>, e: Event)
    ensures var t := trace + [e];
            && (forall id :: HasAccount(t, id) <==>
                  e == Configured(id) || (HasAccount(trace, id) && !e.Removed? && !e.Configured?))
            && (LastRegistered(t) <==> IsRegistered2xx(e) || (LastRegistered(trace) && e.Requested?))
  {
    var t, n := trace + [e], |trace|;
    assert t[n] == e;
    forall id
      ensures HasAccount(t, id) <==> e == Configured(id) || (HasAccount(trace, id) && !e.Removed? && !e.Configured?)
    {
      if HasAccount(trace, id) && !e.Removed? && !e.Configured? {
        var i :| 0 <= i < n && trace[i] == Configured(id)
                 && forall j | i < j < n :: !trace[j].Removed? && !trace[j].Configured?;
        assert t[i] == Configured(id);
      }
      if HasAccount(t, id) && e != Configured(id) {
        var i :| 0 <= i < |t| && t[i] == Configured(id)
                 && forall j | i < j < |t| :: !t[j].Removed? && !t[j].Configured?;
        assert trace[i] == Configured(id) && forall j | i < j < n :: trace[j] == t[j];
      }
    }
    if LastRegistered(trace) && e.Requested? {
      var k :| 0 <= k < n && IsRegistered2xx(trace[k]) && forall j | k < j < n :: trace[j].Requested?;
      assert IsRegistered2xx(t[k]);
    }
    if LastRegistered(t) && !IsRegistered2xx(e) {
      var k :| 0 <= k < |t| && IsRegistered2xx(t[k]) && forall j | k < j < |t| :: t[j].Requested?;
      assert IsRegistered2xx(trace[k]) && forall j | k < j < n :: trace[j] == t[j];
    }
  }

  /** The capture device of a new account: the selection if there is one, and otherwise the
      first listed device that can capture, or none. */
  ghost predicate IsDefault(selection: int, listed: Option<seq<Device>>, dev: int) {
    if selection != INVALID_DEV then dev == selection
    else if listed.Some? && exists d | d in listed.value :: d.captures then
      exists i :: 0 <= i < |listed.value| && listed.value[i].captures && dev == listed.value[i].id
                  && forall j | 0 <= j < i :: !listed.value[j].captures
    else dev == INVALID_DEV
  }

  class Slot {
    var accId: int
    var registered: bool
    /** The capture device chosen with device.set_video. */
    var selection: int
    /** The library's accounts and the capture device stored in each. */
    var accounts: map<int, int>
    ghost var trace: seq<Event>

    /** The id is that of the one account there is, and the flag says that this account's
        last completed registration callback was a 2xx REGISTER. */
    ghost predicate Valid()
      reads this
    {
      && (forall id :: HasAccount(trace, id) <==> accId != INVALID_ID && id == accId)
      && (registered <==> LastRegistered(trace))
      && (registered ==> accId != INVALID_ID)
      && accounts.Keys == if accId == INVALID_ID then {} else {accId}
    }

    /** The selection, if there is one, is what the account will capture from. */
    predicate Agrees()
      reads this
      requires accId != INVALID_ID ==> accId in accounts
    {
      accId != INVALID_ID && selection != INVALID_DEV ==> accounts[accId] == selection
    }

    constructor ()
      ensures Valid() && accId == INVALID_ID && !registered && selection == INVALID_DEV
    {
      accId, registered, selection, accounts, trace := INVALID_ID, false, INVALID_DEV, map[], [];
    }

    /** The selection if there is one, and otherwise the first device that can capture. */
    method ResolveDefault(listed: Option<seq<Device>>) returns (dev: int)
      ensures IsDefault(selection, listed, dev)
    {
      if selection != INVALID_DEV {
        return selection;
      }
      if listed.None? {
        return INVALID_DEV;
      }
      var i := 0;
      while i < |listed.value|
        invariant i <= |listed.value|
        invariant forall j | 0 <= j < i :: !listed.value[j].captures
      {
        if listed.value[i].captures {
          return listed.value[i].id;
        }
        i := i + 1;
      }
      return INVALID_DEV;
    }

    /** `added` is the id the library gives the account, or None when it refuses. */
    method Configure(listed: Option<seq<Device>>, added: Option<int>) returns (status: Status)
      requires Valid()
      requires added.Some? ==> added.value >= 0
      modifies this
      ensures Valid() && selection == old(selection)
      ensures status == if old(accId) != INVALID_ID then Exists else if added.None? then LibraryError else Success
      ensures status != Success ==> trace == old(trace) && accId == old(accId) && accounts == old(accounts)
      ensures status == Success ==> trace == old(trace) + [Configured(added.value)] && Agrees()
      ensures status == Success ==> accId in accounts && IsDefault(selection, listed, accounts[accId])
    {
      if accId != INVALID_ID {
        return Exists;
      }
      registered := false;
      var dev := ResolveDefault(listed);
      if added.None? {
        return LibraryError;
      }
      accId := added.value;
      accounts := accounts[accId := dev];
      TraceGrows(trace, Configured(accId));
      trace := trace + [Configured(accId)];
      return Success;
    }

    /** REGISTER or un-REGISTER: only asks; the outcome arrives as a callback. */
    method SetRegistration(accepted: bool) returns (status: Status)
      requires Valid()
      modifies this`trace
      ensures Valid() && trace == old(trace) + [Requested]
      ensures status == if accId == INVALID_ID then InvalidOp else if accepted then Success else LibraryError
    {
      TraceGrows(trace, Requested);
      trace := trace + [Requested];
      if accId == INVALID_ID {
        return InvalidOp;
      }
      return if accepted then Success else LibraryError;
    }

    /** Refused, with nothing changed, without an account and while registered. */
    method Remove(deleted: bool) returns (status: Status)
      requires Valid()
      modifies this
      ensures Valid() && selection == old(selection)
      ensures status == Success <==>
                (exists id :: HasAccount(old(trace), id)) && !LastRegistered(old(trace)) && deleted
      ensures status == Success ==> trace == old(trace) + [Removed] && accId == INVALID_ID
      ensures status != Success ==>
                trace == old(trace) && accId == old(accId) && registered == old(registered) && accounts == old(accounts)
    {
      assert accId != INVALID_ID ==> HasAccount(trace, accId);
      if accId == INVALID_ID || registered {
        return InvalidOp;
      }
      if !deleted {
        return LibraryError;
      }
      accounts := accounts - {accId};
      accId, registered := INVALID_ID, false;
      TraceGrows(trace, Removed);
      trace := trace + [Removed];
      return Success;
    }

    /** A callback for an account the library no longer knows is dropped. */
    method OnRegState(id: int, renew: bool, code: int)
      requires Valid()
      modifies this
      ensures Valid() && accId == old(accId) && accounts == old(accounts) && selection == old(selection)
      ensures trace == old(trace) + if id in accounts then [Completed(id, renew, code)] else []
    {
      if id !in accounts {
        assert trace + [] == trace;
        return;
      }
      HundredsAre2xx(code);
      registered := renew && TruncatedHundreds(code) == 2;
      TraceGrows(trace, Completed(id, renew, code));
      trace := trace + [Completed(id, renew, code)];
    }

    /** Whether a dial gets as far as the library. */
    predicate MayDial()
      reads this
    {
      accId != INVALID_ID && registered
    }

    lemma MayDialWhenRegistered()
      requires Valid()
      ensures MayDial() <==> LastRegistered(trace) && exists id :: HasAccount(trace, id)
    {
      assert accId != INVALID_ID ==> HasAccount(trace, accId);
    }

    /** Selects the capture device, and updates the account's stored one on the way.  Only
        a device that can capture is accepted; a failed update is not reported. */
    method SetVideoCapture(id: int, known: Option<bool>, fetched: bool, modified: bool) returns (status: Status)
      requires Valid()
      requires id == INVALID_DEV ==> known.None?
      modifies this
      ensures Valid() && trace == old(trace) && accId == old(accId) && registered == old(registered)
      ensures status == if known == Some(true) then Success else InvalidArg
      ensures status != Success ==> selection == old(selection) && accounts == old(accounts)
      ensures status == Success ==> selection == id
      ensures status == Success ==>
                (Agrees() <==> accId == INVALID_ID || (fetched && modified) || old(accounts)[accId] == id)
    {
      if known != Some(true) {
        return InvalidArg;
      }
      selection := id;
      if accId != INVALID_ID {
        if fetched && modified {
          accounts := accounts[accId := id];
        }
      }
      return Success;
    }
  }
}
