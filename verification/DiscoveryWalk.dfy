/** The discovery walk with its mutable state: each method makes the move of the same name. */
module DiscoveryWalks {
  import opened Options
  import opened Discovery

  /** The object identifies the attempt: only the holder of the current one can end it. */
  class DiscoveryRequest {
    ghost const number: nat
    const rundownID: string
    var scope: string
    var session: string
    var messageID: string
    var native: bool
    var replying: bool
    var expired: bool

    constructor (ghost number: nat, rundownID: string)
      ensures Value() == Fresh(number, rundownID) && this.number == number
    {
      this.number, this.rundownID := number, rundownID;
      scope, session, messageID := "", "", "";
      native, replying, expired := false, false, false;
    }

    ghost function Value(): Attempt
      reads this
    {
      Attempt(number, rundownID, scope, session, messageID, native, replying, expired)
    }
  }

  lemma {:induction false} KeepJoins(s: seq<string>, t: seq<string>, wanted: set<string>)
    ensures Keep(s + t, wanted) == Keep(s, wanted) + Keep(t, wanted - set x | x in s)
  {
    if s == [] {
      assert s + t == t && wanted - (set x | x in s) == wanted;
    } else {
      var rest := if s[0] in wanted then wanted - {s[0]} else wanted;
      KeepJoins(s[1..], t, rest);
      assert (s + t)[1..] == s[1..] + t && s == [s[0]] + s[1..];
      assert rest - (set x | x in s[1..]) == wanted - set x | x in s;
    }
  }

  /** Appends the listed identifiers, and takes them off the list. */
  method AppendListed(queue: seq<string>, ids: seq<string>, listed: set<string>)
    returns (all: seq<string>, left: set<string>)
    ensures all == queue + Keep(ids, listed) && left == listed - set x | x in ids
  {
    all, left := queue, listed;
    assert ids[0..] == ids;
    for i := 0 to |ids|
      invariant all + Keep(ids[i..], left) == queue + Keep(ids, listed)
      invariant left == listed - set x | x in ids[..i]
    {
      assert ids[i..][0] == ids[i] && ids[i..][1..] == ids[i + 1..] && ids[..i + 1] == ids[..i] + [ids[i]];
      ghost var tail := Keep(ids[i..], left);
      if ids[i] in left {
        assert all + tail == all + [ids[i]] + Keep(ids[i + 1..], left - {ids[i]});
        all, left := all + [ids[i]], left - {ids[i]};
      }
    }
    assert ids[..|ids|] == ids && ids[|ids|..] == [];
  }

  /** The queue after a catalogue was read, and how much of it did not fit. */
  method Renew(limits: Limits, pending: seq<string>, ids: seq<string>, inFlight: string)
    returns (queue: seq<string>, dropped: nat)
    ensures queue == Truncated(Keep(pending + ids, Listed(ids, inFlight)), limits.max)
    ensures dropped == |Keep(pending + ids, Listed(ids, inFlight))| - |queue|
  {
    var listed: set<string> := {};
    for i := 0 to |ids|
      invariant listed == set id | id in ids[..i] && id != "" && id != inFlight
    {
      if ids[i] != "" && ids[i] != inFlight { listed := listed + {ids[i]}; }
      assert ids[..i + 1] == ids[..i] + [ids[i]];
    }
    assert ids[..|ids|] == ids && listed == Listed(ids, inFlight);
    KeepJoins(pending, ids, listed);
    var left;
    queue, left := AppendListed([], pending, listed);
    queue, left := AppendListed(queue, ids, left);
    dropped := 0;
    if |queue| > limits.max {
      dropped := |queue| - limits.max;
      queue := queue[..limits.max];
    }
  }

  class DiscoveryWalk {
    const limits: Limits
    var pending: seq<string>
    var inFlight: string
    var cataloguePending: bool
    var catalogueInFlight: bool
    var request: DiscoveryRequest?
    var deadline: int
    // Whether the file is still written, and what it holds.
    var durable: bool
    var saved: Saved
    // Every attempt there ever was.
    ghost var made: seq<DiscoveryRequest>

    ghost predicate Valid()
      reads this
    {
      && (forall i | 0 <= i < |made| :: made[i].number == i)
      && (request != null ==> request in made)
    }

    ghost function Value(): Walk
      reads this, request
    {
      Walk(pending, inFlight, cataloguePending, catalogueInFlight,
           if request == null then None else Some(request.Value()), deadline, |made|, saved, durable)
    }

    constructor (limits: Limits)
      ensures Valid() && Value() == IDLE && this.limits == limits && fresh(this)
    {
      this.limits := limits;
      pending, inFlight, cataloguePending, catalogueInFlight := [], "", false, false;
      request, deadline, durable, saved, made := null, 0, true, Saved([], false), [];
    }

    /** A new process over the same file. */
    method Reopen(usable: bool)
      requires Valid()
      modifies this
      ensures Valid() && Value() == Restarted(limits, old(Value()), usable)
    {
      pending, inFlight, cataloguePending, catalogueInFlight, request, deadline := [], "", false, false, null, 0;
      durable := usable;
      if !usable { return; }
      pending := if |saved.pending| > limits.max then saved.pending[..limits.max] else saved.pending;
      cataloguePending := saved.catalogue;
    }

    method Persist(write: bool)
      requires Valid()
      modifies `saved, `durable
      ensures Valid() && Value() == Discovery.Persist(old(Value()), write)
    {
      if !durable { return; }
      if write {
        var all := if inFlight != "" then [inFlight] + pending else pending;
        saved := Saved(all, cataloguePending || catalogueInFlight);
      } else {
        durable := false;
      }
    }

    /** Starts an attempt. */
    method Attempt(rundownID: string)
      requires Valid()
      modifies `request, `made
      ensures Valid() && fresh(request) && made == old(made) + [request]
      ensures request.Value() == Fresh(|old(made)|, rundownID)
    {
      request := new DiscoveryRequest(|made|, rundownID);
      made := made + [request];
    }

    /** Takes the one slot. */
    method Reserve(rundownID: string, now: int)
      requires Valid()
      modifies `request, `made, `deadline
      ensures Valid() && fresh(request)
      ensures Value() == old(Value()).(request := Some(Fresh(old(|made|), rundownID)), attempts := old(|made|) + 1,
        deadline := now + limits.timeout)
    {
      Attempt(rundownID);
      deadline := now + limits.timeout;
    }

    method Take(now: int, write: bool) returns (next: Option<string>)
      requires Valid()
      modifies this
      ensures Valid() && (request == old(request) || fresh(request))
      ensures Move(Value(), next) == Discovery.Take(limits, old(Value()), now, write)
    {
      if inFlight != "" || catalogueInFlight { return None; }
      if cataloguePending {
        cataloguePending, catalogueInFlight := false, true;
        Reserve("", now);
        Persist(write);
        return Some("");
      }
      if |pending| == 0 { return None; }
      next := Some(pending[0]);
      pending, inFlight := pending[1..], pending[0];
      Reserve(inFlight, now);
      Persist(write);
    }

    method TakeOrPersist(now: int, write: bool) returns (next: Option<string>)
      requires Valid()
      modifies this
      ensures Valid() && (request == old(request) || fresh(request))
      ensures Move(Value(), next) == Discovery.TakeOrPersist(limits, old(Value()), now, write)
    {
      next := Take(now, write);
      if next.None? { Persist(write); }
    }

    /** Seeds the walk from a catalogue. */
    method Begin(ids: seq<string>, now: int, write: bool) returns (next: Option<string>, dropped: nat)
      requires Valid()
      modifies this
      ensures Valid() && Move(Value(), next) == Discovery.Begin(limits, old(Value()), ids, now, write)
      ensures dropped == |Keep(old(pending) + ids, Listed(ids, old(inFlight)))| - |Renewed(limits, old(Value()), ids)|
    {
      cataloguePending := false;
      if catalogueInFlight { catalogueInFlight, request := false, null; }
      pending, dropped := Renew(limits, pending, ids, inFlight);
      next := TakeOrPersist(now, write);
    }

    method RequestCatalogue(now: int, write: bool) returns (next: Option<string>)
      requires Valid()
      modifies this
      ensures Valid() && Move(Value(), next) == Discovery.RequestCatalogue(limits, old(Value()), now, write)
    {
      if catalogueInFlight { return if request != null && request.expired then Some("") else None; }
      cataloguePending := true;
      next := TakeOrPersist(now, write);
    }

    /** Binds the reserved slot before anything is written to the peer. */
    method RegisterRequest(rundownID: string, scope: string, session: string, messageID: string, native: bool, now: int)
      returns (bound: DiscoveryRequest?)
      requires Valid()
      modifies this, request
      ensures Valid() && Value() == Register(limits, old(Value()), rundownID, scope, session, messageID, native, now)
      ensures bound == if Registers(old(Value()), rundownID, scope, session, messageID, native) then request else null
    {
      if scope == "" || session == "" || (!native && messageID == "") { return null; }
      if request == null || request.rundownID != rundownID { return null; }
      ReopenExpired(session);
      if request.session != "" { return null; }
      Bind(scope, session, messageID, native, now);
      bound := request;
    }

    /** A native attempt that expired is made again for another session. */
    method ReopenExpired(session: string)
      requires Valid() && request != null
      modifies `request, `made
      ensures Valid() && request != null && (request == old(request) || fresh(request))
      ensures Value() == Reopened(old(Value()), session)
    {
      if request.expired && request.native && request.session != session { Attempt(request.rundownID); }
    }

    method Bind(scope: string, session: string, messageID: string, native: bool, now: int)
      requires Valid() && request != null
      modifies `deadline, request
      ensures Valid() && request == old(request)
      ensures Value() == old(Value()).(deadline := now + limits.timeout, request := Some(
        old(Value()).request.value.(scope := scope, session := session, messageID := messageID, native := native)))
    {
      request.scope, request.session, request.messageID, request.native := scope, session, messageID, native;
      deadline := now + limits.timeout;
    }

    /** Claims the answer; the slot does not time out while it is applied. */
    method ClaimRequest(rundownID: string, scope: string, session: string, messageID: string, now: int)
      returns (claimed: DiscoveryRequest?)
      requires Valid()
      modifies request
      ensures Valid() && Value() == Claim(old(Value()), rundownID, scope, session, messageID, now)
      ensures claimed == if Claims(old(Value()), rundownID, scope, session, messageID, now) then request else null
    {
      if request == null || request.rundownID != rundownID || request.session == "" || request.scope != scope
         || request.session != session || request.expired || request.replying || now >= deadline
         || (!request.native && request.messageID != messageID) {
        return null;
      }
      request.replying := true;
      claimed := request;
    }

    method ReleaseRequest(handle: DiscoveryRequest)
      requires Valid() && handle in made
      modifies request
      ensures Valid() && Value() == Release(old(Value()), handle.number)
      ensures handle != old(request) ==> Value() == old(Value())
    {
      if request == handle { handle.replying := false; }
    }

    method FailedRequest(handle: DiscoveryRequest, now: int, write: bool) returns (failed: bool)
      requires Valid() && handle in made
      modifies this, request
      ensures Valid() && Value() == Failed(old(Value()), handle.number, now, write)
      ensures failed == old(handle == request && !handle.replying)
      ensures handle != old(request) ==> Value() == old(Value())
    {
      if request != handle || handle.replying { return false; }
      if handle.native {
        handle.expired := true;
        deadline := now;
      } else {
        if catalogueInFlight {
          catalogueInFlight, cataloguePending := false, true;
        } else {
          pending, inFlight := [inFlight] + pending, "";
        }
        request := null;
      }
      Persist(write);
      failed := true;
    }

    method EnqueueUrgent(id: string, now: int, write: bool) returns (next: Option<string>)
      requires Valid()
      modifies this
      ensures Valid() && Move(Value(), next) == Discovery.EnqueueUrgent(limits, old(Value()), id, now, write)
    {
      if id == "" || inFlight == id { return None; }
      for i := 0 to |pending|
        invariant id !in pending[..i]
      {
        if pending[i] == id { return None; }
        assert pending[..i + 1] == pending[..i] + [pending[i]];
      }
      assert pending[..|pending|] == pending;
      if |pending| >= limits.max { return None; }
      pending := [id] + pending;
      next := Take(now, write);
    }

    method Resolved(id: string, now: int, write: bool) returns (next: Option<string>)
      requires Valid()
      modifies this
      ensures Valid() && Move(Value(), next) == Discovery.Resolved(limits, old(Value()), id, now, write)
    {
      if id == "" || inFlight != id { return None; }
      inFlight, request := "", null;
      next := TakeOrPersist(now, write);
    }

    method Nudge(now: int, write: bool) returns (next: Option<string>)
      requires Valid()
      modifies this, request
      ensures Valid() && Move(Value(), next) == Discovery.Nudge(limits, old(Value()), now, write)
    {
      if inFlight == "" && !catalogueInFlight {
        next := Take(now, write);
        return;
      }
      if (request != null && request.replying) || now < deadline { return None; }
      if request != null && request.native {
        request.expired := true;
        return Some(inFlight);
      }
      inFlight, request := "", null;
      if catalogueInFlight { catalogueInFlight, cataloguePending := false, true; }
      next := TakeOrPersist(now, write);
    }
  }
}
