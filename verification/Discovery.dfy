/** The discovery walk as a value: one request outstanding at a time, a bounded queue behind it,
    and a file that survives a restart. */
module Discovery {
  import opened Options

  datatype Limits = Limits(timeout: nat, max: nat)

  /** One attempt at a request. Its number stands for the identity of the attempt: a handle is
      worth something only while it names the current one. An empty rundown asks for the catalogue. */
  datatype Attempt = Attempt(
    number: nat, rundownID: string, scope: string, session: string, messageID: string,
    native: bool, replying: bool, expired: bool)

  datatype Saved = Saved(pending: seq<string>, catalogue: bool)

  datatype Walk = Walk(
    pending: seq<string>, inFlight: string, cataloguePending: bool, catalogueInFlight: bool,
    request: Option<Attempt>, deadline: int, attempts: nat, saved: Saved, durable: bool)

  /** A move of the walk, and what to request now: an empty identifier asks for the catalogue. */
  datatype Move = Move(walk: Walk, next: Option<string>)

  const IDLE := Walk([], "", false, false, None, 0, 0, Saved([], false), true)

  function Fresh(number: nat, rundownID: string): Attempt {
    Attempt(number, rundownID, "", "", "", false, false, false)
  }

  // ---- The moves ----

  function Queued(w: Walk): seq<string> {
    if w.inFlight != "" then [w.inFlight] + w.pending else w.pending
  }

  function Persist(w: Walk, write: bool): Walk {
    if !w.durable then w
    else if write then w.(saved := Saved(Queued(w), w.cataloguePending || w.catalogueInFlight))
    else w.(durable := false)
  }

  predicate IsOutstanding(w: Walk) {
    w.inFlight != "" || w.catalogueInFlight
  }

  function Take(l: Limits, w: Walk, now: int, write: bool): Move {
    if IsOutstanding(w) then Move(w, None)
    else if w.cataloguePending then
      Move(Persist(w.(cataloguePending := false, catalogueInFlight := true, request := Some(Fresh(w.attempts, "")),
                      attempts := w.attempts + 1, deadline := now + l.timeout), write), Some(""))
    else if w.pending == [] then Move(w, None)
    else
      Move(Persist(w.(pending := w.pending[1..], inFlight := w.pending[0],
                      request := Some(Fresh(w.attempts, w.pending[0])),
                      attempts := w.attempts + 1, deadline := now + l.timeout), write), Some(w.pending[0]))
  }

  /** Takes the next request, and saves either way. */
  function TakeOrPersist(l: Limits, w: Walk, now: int, write: bool): Move {
    var m := Take(l, w, now, write);
    if m.next.None? then Move(Persist(w, write), None) else m
  }

  /** The identifiers of `s` that are wanted, each where it comes first. */
  function Keep(s: seq<string>, wanted: set<string>): seq<string> {
    if s == [] then []
    else if s[0] in wanted then [s[0]] + Keep(s[1..], wanted - {s[0]})
    else Keep(s[1..], wanted)
  }

  function Listed(ids: seq<string>, inFlight: string): set<string> {
    set id | id in ids && id != "" && id != inFlight
  }

  function Truncated(s: seq<string>, max: nat): seq<string> {
    if |s| > max then s[..max] else s
  }

  /** The queue after a catalogue was read: unfinished work first, then what is new in it. */
  function Renewed(l: Limits, w: Walk, ids: seq<string>): seq<string> {
    Truncated(Keep(w.pending + ids, Listed(ids, w.inFlight)), l.max)
  }

  function Begin(l: Limits, w: Walk, ids: seq<string>, now: int, write: bool): Move {
    TakeOrPersist(l,
      w.(cataloguePending := false, catalogueInFlight := false,
         request := if w.catalogueInFlight then None else w.request, pending := Renewed(l, w, ids)), now, write)
  }

  function RequestCatalogue(l: Limits, w: Walk, now: int, write: bool): Move {
    if w.catalogueInFlight then Move(w, if w.request.Some? && w.request.value.expired then Some("") else None)
    else TakeOrPersist(l, w.(cataloguePending := true), now, write)
  }

  function Current(w: Walk, rundownID: string): Option<Attempt> {
    if w.request.Some? && w.request.value.rundownID == rundownID then w.request else None
  }

  /** Registering needs a new session once a native attempt expired; that is a new attempt. */
  function Reopened(w: Walk, session: string): Walk {
    match w.request
    case None => w
    case Some(a) =>
      if a.expired && a.native && a.session != session
      then w.(request := Some(Fresh(w.attempts, a.rundownID)), attempts := w.attempts + 1)
      else w
  }

  function Register(l: Limits, w: Walk, rundownID: string, scope: string, session: string, messageID: string,
      native: bool, now: int): Walk {
    if scope == "" || session == "" || (!native && messageID == "") || Current(w, rundownID).None? then w
    else
      var v := Reopened(w, session);
      if v.request.None? || v.request.value.session != "" then v
      else
        var bound := v.request.value.(scope := scope, session := session, messageID := messageID, native := native);
        v.(request := Some(bound), deadline := now + l.timeout)
  }

  /** The registration took the slot. */
  predicate Registers(w: Walk, rundownID: string, scope: string, session: string, messageID: string, native: bool) {
    && scope != "" && session != "" && (native || messageID != "") && Current(w, rundownID).Some?
    && Reopened(w, session).request.Some? && Reopened(w, session).request.value.session == ""
  }

  predicate Claims(w: Walk, rundownID: string, scope: string, session: string, messageID: string, now: int) {
    match Current(w, rundownID)
    case None => false
    case Some(a) =>
      && a.session != "" && a.scope == scope && a.session == session && !a.expired && !a.replying
      && now < w.deadline && (a.native || a.messageID == messageID)
  }

  function Claim(w: Walk, rundownID: string, scope: string, session: string, messageID: string, now: int): Walk {
    if !Claims(w, rundownID, scope, session, messageID, now) then w
    else w.(request := Some(w.request.value.(replying := true)))
  }

  predicate IsCurrent(w: Walk, number: nat) {
    w.request.Some? && w.request.value.number == number
  }

  function Release(w: Walk, number: nat): Walk {
    if !IsCurrent(w, number) then w else w.(request := Some(w.request.value.(replying := false)))
  }

  function Failed(w: Walk, number: nat, now: int, write: bool): Walk {
    if !IsCurrent(w, number) || w.request.value.replying then w
    else if w.request.value.native then
      Persist(w.(request := Some(w.request.value.(expired := true)), deadline := now), write)
    else if w.catalogueInFlight then
      Persist(w.(catalogueInFlight := false, cataloguePending := true, request := None), write)
    else Persist(w.(pending := [w.inFlight] + w.pending, inFlight := "", request := None), write)
  }

  /** Waiting work is not saved while another request is outstanding. */
  function EnqueueUrgent(l: Limits, w: Walk, id: string, now: int, write: bool): Move {
    if id == "" || w.inFlight == id || id in w.pending || |w.pending| >= l.max then Move(w, None)
    else Take(l, w.(pending := [id] + w.pending), now, write)
  }

  function Resolved(l: Limits, w: Walk, id: string, now: int, write: bool): Move {
    if id == "" || w.inFlight != id then Move(w, None)
    else TakeOrPersist(l, w.(inFlight := "", request := None), now, write)
  }

  /** The outstanding request has outlived its deadline, and is not being applied. */
  predicate IsOverdue(w: Walk, now: int) {
    IsOutstanding(w) && !(w.request.Some? && w.request.value.replying) && w.deadline <= now
  }

  function Nudge(l: Limits, w: Walk, now: int, write: bool): Move {
    if !IsOutstanding(w) then Take(l, w, now, write)
    else if !IsOverdue(w, now) then Move(w, None)
    else if w.request.Some? && w.request.value.native then
      Move(w.(request := Some(w.request.value.(expired := true))), Some(w.inFlight))
    else
      TakeOrPersist(l, w.(inFlight := "", request := None, catalogueInFlight := false,
                          cataloguePending := w.cataloguePending || w.catalogueInFlight), now, write)
  }

  /** A new process over the same file, or without one when its directory cannot be used. Attempts
      go on being numbered. */
  function Restarted(l: Limits, w: Walk, usable: bool): Walk {
    if usable then
      Walk(Truncated(w.saved.pending, l.max), "", w.saved.catalogue, false, None, 0, w.attempts, w.saved, true)
    else Walk([], "", false, false, None, 0, w.attempts, w.saved, false)
  }

  // ---- Any move ----

  datatype Event =
    | BeginEvent(ids: seq<string>)
    | CatalogueEvent
    | RegisterEvent(rundownID: string, scope: string, session: string, messageID: string, native: bool)
    | ClaimEvent(rundownID: string, scope: string, session: string, messageID: string)
    | ReleaseEvent(number: nat)
    | FailedEvent(number: nat)
    | UrgentEvent(id: string)
    | ResolvedEvent(id: string)
    | NudgeEvent
    | RestartEvent

  /** An event, when it happens, and whether the file can be used in it. */
  datatype Tick = Tick(event: Event, now: int, write: bool)

  function Step(l: Limits, w: Walk, t: Tick): Walk {
    match t.event
    case BeginEvent(ids) => Begin(l, w, ids, t.now, t.write).walk
    case CatalogueEvent => RequestCatalogue(l, w, t.now, t.write).walk
    case RegisterEvent(rundownID, scope, session, messageID, native) =>
      Register(l, w, rundownID, scope, session, messageID, native, t.now)
    case ClaimEvent(rundownID, scope, session, messageID) => Claim(w, rundownID, scope, session, messageID, t.now)
    case ReleaseEvent(number) => Release(w, number)
    case FailedEvent(number) => Failed(w, number, t.now, t.write)
    case UrgentEvent(id) => EnqueueUrgent(l, w, id, t.now, t.write).walk
    case ResolvedEvent(id) => Resolved(l, w, id, t.now, t.write).walk
    case NudgeEvent => Nudge(l, w, t.now, t.write).walk
    case RestartEvent => Restarted(l, w, t.write)
  }

  // ---- What holds of every reachable walk ----

  predicate Distinct(s: seq<string>) {
    forall i, j | 0 <= i < j < |s| :: s[i] != s[j]
  }

  /** Identifiers waiting or outstanding, each once. */
  ghost predicate QueueHolds(l: Limits, w: Walk) {
    Distinct(Queued(w)) && "" !in w.pending && |Queued(w)| <= l.max + 1
  }

  /** At most one request is outstanding, and the attempt is about it. */
  ghost predicate RequestHolds(w: Walk) {
    && !(w.inFlight != "" && w.catalogueInFlight)
    && (w.request.Some? <==> IsOutstanding(w))
    && (w.request.Some? ==> AttemptHolds(w, w.request.value))
  }

  ghost predicate AttemptHolds(w: Walk, a: Attempt) {
    && a.rundownID == w.inFlight && a.number < w.attempts
    && !(a.replying && a.expired) && (a.expired ==> a.native)
    && (a.replying || a.expired || a.native ==> a.session != "")
    && (a.session == "" ==> a.scope == "" && a.messageID == "")
  }

  /** The file holds the queue, all but some urgent work at its front that waits behind another
      request. Right after a restart it may hold one identifier more than the bound lets in. */
  ghost predicate SavedHolds(l: Limits, w: Walk, unsaved: nat) {
    && unsaved <= |w.pending| && (unsaved > 0 ==> IsOutstanding(w))
    && w.saved.catalogue == (w.cataloguePending || w.catalogueInFlight)
    && (w.saved.pending == (if w.inFlight != "" then [w.inFlight] else []) + w.pending[unsaved..] ||
        (!IsOutstanding(w) && w.pending == Truncated(w.saved.pending, l.max) && |w.pending| == l.max))
  }

  ghost predicate FileHolds(l: Limits, w: Walk) {
    && Distinct(w.saved.pending) && "" !in w.saved.pending && |w.saved.pending| <= l.max + 1
    && (w.durable ==> exists unsaved: nat :: SavedHolds(l, w, unsaved))
  }

  ghost predicate Holds(l: Limits, w: Walk) {
    QueueHolds(l, w) && RequestHolds(w) && FileHolds(l, w)
  }

  /** Everything but what the file holds. */
  ghost predicate Sound(l: Limits, w: Walk) {
    && QueueHolds(l, w) && RequestHolds(w)
    && Distinct(w.saved.pending) && "" !in w.saved.pending && |w.saved.pending| <= l.max + 1
  }

  lemma {:induction false} KeepIs(s: seq<string>, wanted: set<string>)
    ensures var k := Keep(s, wanted);
      Distinct(k) && (forall x :: x in k <==> x in wanted && x in s) && |k| <= |s|
  {
    if s != [] {
      KeepIs(s[1..], if s[0] in wanted then wanted - {s[0]} else wanted);
      assert s == [s[0]] + s[1..];
    }
  }

  lemma RenewedIs(l: Limits, w: Walk, ids: seq<string>)
    ensures var q := Renewed(l, w, ids);
      Distinct(q) && "" !in q && w.inFlight !in q && |q| <= l.max && forall x | x in q :: x in ids
  {
    var k, q := Keep(w.pending + ids, Listed(ids, w.inFlight)), Renewed(l, w, ids);
    KeepIs(w.pending + ids, Listed(ids, w.inFlight));
    forall i | 0 <= i < |q| ensures q[i] == k[i] && q[i] in k {}
  }

  lemma DropsOutstanding(l: Limits, w: Walk)
    requires QueueHolds(l, w)
    ensures Distinct(w.pending) && |w.pending| <= l.max + 1 && w.inFlight !in w.pending
  {
    var q := Queued(w);
    if w.inFlight != "" {
      forall i | 0 <= i < |w.pending| ensures q[i + 1] == w.pending[i] != q[0] {}
    }
  }

  lemma AddsUrgent(l: Limits, w: Walk, id: string)
    requires QueueHolds(l, w) && id != "" && w.inFlight != id && id !in w.pending && |w.pending| < l.max
    ensures QueueHolds(l, w.(pending := [id] + w.pending))
  {
    DropsOutstanding(l, w);
    var q := Queued(w.(pending := [id] + w.pending));
    assert q == (if w.inFlight != "" then [w.inFlight] else []) + [id] + w.pending;
  }

  lemma PersistHolds(l: Limits, w: Walk, write: bool)
    requires Sound(l, w)
    ensures Holds(l, Persist(w, write))
  {
    var v := Persist(w, write);
    if w.durable && write {
      assert w.pending[0..] == w.pending;
      assert SavedHolds(l, v, 0);
    }
  }

  lemma TakeHolds(l: Limits, w: Walk, now: int, write: bool)
    requires Sound(l, w) && Take(l, w, now, write).next.Some?
    ensures Holds(l, Take(l, w, now, write).walk)
  {
    if w.cataloguePending {
      PersistHolds(l, w.(cataloguePending := false, catalogueInFlight := true, request := Some(Fresh(w.attempts, "")),
        attempts := w.attempts + 1, deadline := now + l.timeout), write);
    } else {
      var v := w.(pending := w.pending[1..], inFlight := w.pending[0], request := Some(Fresh(w.attempts, w.pending[0])),
        attempts := w.attempts + 1, deadline := now + l.timeout);
      assert Queued(v) == w.pending;
      PersistHolds(l, v, write);
    }
  }

  lemma TakeOrPersistHolds(l: Limits, w: Walk, now: int, write: bool)
    requires Sound(l, w)
    ensures Holds(l, TakeOrPersist(l, w, now, write).walk)
  {
    if Take(l, w, now, write).next.None? { PersistHolds(l, w, write); } else { TakeHolds(l, w, now, write); }
  }

  lemma UrgentHolds(l: Limits, w: Walk, id: string, now: int, write: bool)
    requires Holds(l, w)
    ensures Holds(l, EnqueueUrgent(l, w, id, now, write).walk)
  {
    if id != "" && w.inFlight != id && id !in w.pending && |w.pending| < l.max {
      var v := w.(pending := [id] + w.pending);
      AddsUrgent(l, w, id);
      if !IsOutstanding(w) {
        TakeHolds(l, v, now, write);
      } else if w.durable {
        var unsaved: nat :| SavedHolds(l, w, unsaved);
        UnsavedGrows(l, w, id, unsaved);
      }
    }
  }

  lemma UnsavedGrows(l: Limits, w: Walk, id: string, unsaved: nat)
    requires SavedHolds(l, w, unsaved) && IsOutstanding(w)
    ensures SavedHolds(l, w.(pending := [id] + w.pending), unsaved + 1)
  {
    assert ([id] + w.pending)[unsaved + 1..] == w.pending[unsaved..];
  }

  lemma FailedHolds(l: Limits, w: Walk, number: nat, now: int, write: bool)
    requires Holds(l, w)
    ensures Holds(l, Failed(w, number, now, write))
  {
    if IsCurrent(w, number) && !w.request.value.replying {
      if w.request.value.native {
        PersistHolds(l, w.(request := Some(w.request.value.(expired := true)), deadline := now), write);
      } else if w.catalogueInFlight {
        PersistHolds(l, w.(catalogueInFlight := false, cataloguePending := true, request := None), write);
      } else {
        PersistHolds(l, w.(pending := [w.inFlight] + w.pending, inFlight := "", request := None), write);
      }
    }
  }

  lemma NudgeHolds(l: Limits, w: Walk, now: int, write: bool)
    requires Holds(l, w)
    ensures Holds(l, Nudge(l, w, now, write).walk)
  {
    if !IsOutstanding(w) {
      if Take(l, w, now, write).next.Some? { TakeHolds(l, w, now, write); }
    } else if IsOverdue(w, now) {
      if w.request.value.native {
        SameFile(l, w, w.(request := Some(w.request.value.(expired := true))));
      } else {
        DropsOutstanding(l, w);
        TakeOrPersistHolds(l, w.(inFlight := "", request := None, catalogueInFlight := false,
          cataloguePending := w.cataloguePending || w.catalogueInFlight), now, write);
      }
    }
  }

  /** What the file holds does not depend on the attempt. */
  lemma SameFile(l: Limits, w: Walk, v: Walk)
    requires Holds(l, w) && RequestHolds(v) &&
      v == w.(request := v.request, deadline := v.deadline, attempts := v.attempts)
    ensures Holds(l, v)
  {
    if w.durable {
      var unsaved: nat :| SavedHolds(l, w, unsaved);
      assert SavedHolds(l, v, unsaved);
    }
  }

  lemma RestartHolds(l: Limits, w: Walk, usable: bool)
    requires Holds(l, w)
    ensures Holds(l, Restarted(l, w, usable))
  {
    if usable {
      var v := Restarted(l, w, usable);
      assert v.pending[0..] == v.pending && [] + v.pending == v.pending;
      assert SavedHolds(l, v, 0);
    }
  }

  lemma BeginHolds(l: Limits, w: Walk, ids: seq<string>, now: int, write: bool)
    requires Holds(l, w)
    ensures Holds(l, Begin(l, w, ids, now, write).walk)
  {
    RenewedIs(l, w, ids);
    TakeOrPersistHolds(l, w.(cataloguePending := false, catalogueInFlight := false,
      request := if w.catalogueInFlight then None else w.request, pending := Renewed(l, w, ids)), now, write);
  }

  lemma ResolvedHolds(l: Limits, w: Walk, id: string, now: int, write: bool)
    requires Holds(l, w)
    ensures Holds(l, Resolved(l, w, id, now, write).walk)
  {
    if id != "" && w.inFlight == id {
      DropsOutstanding(l, w);
      TakeOrPersistHolds(l, w.(inFlight := "", request := None), now, write);
    }
  }

  lemma CatalogueHolds(l: Limits, w: Walk, now: int, write: bool)
    requires Holds(l, w)
    ensures Holds(l, RequestCatalogue(l, w, now, write).walk)
  {
    if !w.catalogueInFlight { TakeOrPersistHolds(l, w.(cataloguePending := true), now, write); }
  }

  lemma RegisterHolds(l: Limits, w: Walk, rundownID: string, scope: string, session: string, messageID: string,
      native: bool, now: int)
    requires Holds(l, w)
    ensures Holds(l, Register(l, w, rundownID, scope, session, messageID, native, now))
  {
    SameFile(l, w, Register(l, w, rundownID, scope, session, messageID, native, now));
  }

  lemma ClaimHolds(l: Limits, w: Walk, rundownID: string, scope: string, session: string, messageID: string, now: int)
    requires Holds(l, w)
    ensures Holds(l, Claim(w, rundownID, scope, session, messageID, now))
  {
    SameFile(l, w, Claim(w, rundownID, scope, session, messageID, now));
  }

  lemma ReleaseHolds(l: Limits, w: Walk, number: nat)
    requires Holds(l, w)
    ensures Holds(l, Release(w, number))
  {
    SameFile(l, w, Release(w, number));
  }

  /** Main result: every move keeps at most one request outstanding, the queue distinct and bounded,
      and the file in step. */
  lemma StepHolds(l: Limits, w: Walk, t: Tick)
    requires Holds(l, w)
    ensures Holds(l, Step(l, w, t))
  {
    var e := t.event;
    if e.BeginEvent? {
      BeginHolds(l, w, e.ids, t.now, t.write);
    } else if e.CatalogueEvent? {
      CatalogueHolds(l, w, t.now, t.write);
    } else if e.RegisterEvent? {
      RegisterHolds(l, w, e.rundownID, e.scope, e.session, e.messageID, e.native, t.now);
    } else if e.ClaimEvent? {
      ClaimHolds(l, w, e.rundownID, e.scope, e.session, e.messageID, t.now);
    } else if e.ReleaseEvent? {
      ReleaseHolds(l, w, e.number);
    } else if e.FailedEvent? {
      FailedHolds(l, w, e.number, t.now, t.write);
    } else if e.UrgentEvent? {
      UrgentHolds(l, w, e.id, t.now, t.write);
    } else if e.ResolvedEvent? {
      ResolvedHolds(l, w, e.id, t.now, t.write);
    } else if e.NudgeEvent? {
      NudgeHolds(l, w, t.now, t.write);
    } else {
      RestartHolds(l, w, t.write);
    }
  }
}
