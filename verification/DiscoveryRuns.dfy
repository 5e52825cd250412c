/** What holds over whole runs of the discovery walk, restarts included. */
module DiscoveryRuns {
  import opened Options
  import opened Discovery
  import opened Rising

  ghost predicate IsRun(l: Limits, ts: seq<Tick>, ws: seq<Walk>) {
    && |ws| == |ts| + 1 && ws[0] == IDLE
    && forall i | 0 <= i < |ts| :: IsMove(l, ws[i], ts[i], ws[i + 1])
  }

  ghost predicate IsMove(l: Limits, w: Walk, t: Tick, v: Walk) {
    v == Step(l, w, t)
  }

  /** Main result: at every point of every run at most one request is outstanding, identifiers are
      distinct and nonempty, and queue and request together stay within one more than the bound. */
  lemma {:induction false} RunHolds(l: Limits, ts: seq<Tick>, ws: seq<Walk>, n: nat)
    requires IsRun(l, ts, ws) && n < |ws|
    ensures Holds(l, ws[n])
  {
    if n == 0 {
      assert SavedHolds(l, IDLE, 0);
    } else {
      RunHolds(l, ts, ws, n - 1);
      assert IsMove(l, ws[n - 1], ts[n - 1], ws[n]);
      StepHolds(l, ws[n - 1], ts[n - 1]);
    }
  }

  // ---- How an identifier leaves ----

  /** The catalogue no longer lists it, or lists too much before it. */
  ghost predicate Omits(l: Limits, w: Walk, ids: seq<string>, id: string) {
    && id in w.pending
    && (id in ids ==> exists i | l.max <= i < |Keep(w.pending + ids, Listed(ids, w.inFlight))| ::
          Keep(w.pending + ids, Listed(ids, w.inFlight))[i] == id)
  }

  /** How many urgent identifiers at the front of the queue were never written, while another
      request was outstanding. */
  function Unsaved(w: Walk): nat {
    if IsOutstanding(w) && |Queued(w)| > |w.saved.pending| then |Queued(w)| - |w.saved.pending| else 0
  }

  /** The file in step does not give it back: urgent work never written, or one too many. */
  ghost predicate FileLacks(l: Limits, w: Walk, id: string) {
    || id in Truncated(w.pending, Unsaved(w))
    || (|w.saved.pending| > l.max && id == w.saved.pending[l.max])
  }

  /** What a restart loses: everything when the directory cannot be used, what the file in step does
      not give back, and, once a save had failed, what the file as it was left does not have. */
  ghost predicate Loses(l: Limits, w: Walk, usable: bool, id: string) {
    if !usable then true
    else if w.durable then FileLacks(l, w, id)
    else id !in Truncated(w.saved.pending, l.max)
  }

  ghost predicate LeavesBy(l: Limits, w: Walk, t: Tick, id: string) {
    match t.event
    case ResolvedEvent(r) => r == id == w.inFlight
    case BeginEvent(ids) => Omits(l, w, ids, id)
    case NudgeEvent => id == w.inFlight && IsOverdue(w, t.now) && w.request.Some? && !w.request.value.native
    case RestartEvent => Loses(l, w, t.write, id)
    case _ => false
  }

  /** Taking moves the front of the queue into flight. */
  lemma TakeKeeps(l: Limits, w: Walk, now: int, write: bool)
    requires "" !in w.pending
    ensures Queued(Take(l, w, now, write).walk) == Queued(w)
    ensures Queued(TakeOrPersist(l, w, now, write).walk) == Queued(w)
  {
    var v := Take(l, w, now, write).walk;
    if Take(l, w, now, write).next.Some? && !w.cataloguePending {
      assert v.pending == w.pending[1..] && w.pending[0] in w.pending;
    }
  }

  lemma BeginLeaves(l: Limits, w: Walk, ids: seq<string>, now: int, write: bool, id: string)
    requires Holds(l, w) && id in Queued(w)
    ensures id !in Queued(Begin(l, w, ids, now, write).walk) <==> Omits(l, w, ids, id)
  {
    var k, q := Keep(w.pending + ids, Listed(ids, w.inFlight)), Renewed(l, w, ids);
    var v := w.(cataloguePending := false, catalogueInFlight := false,
      request := if w.catalogueInFlight then None else w.request, pending := q);
    RenewedIs(l, w, ids);
    TakeKeeps(l, v, now, write);
    DropsOutstanding(l, w);
    if id in w.pending {
      KeepIs(w.pending + ids, Listed(ids, w.inFlight));
      CutKeepsFront(k, l.max, id);
      assert id in Queued(v) <==> id in q;
    }
  }

  /** Of distinct identifiers, a cut loses exactly those at or behind the bound. */
  lemma CutKeepsFront(s: seq<string>, max: nat, id: string)
    requires Distinct(s)
    ensures id in Truncated(s, max) <==> id in s && !exists i | max <= i < |s| :: s[i] == id
  {
    var t := Truncated(s, max);
    assert forall j | 0 <= j < |t| :: t[j] == s[j];
    if id in s {
      var i :| 0 <= i < |s| && s[i] == id;
      if i < |t| { assert t[i] == id; }
    }
  }

  lemma Apart(s: seq<string>, t: seq<string>, x: string)
    requires Distinct(s + t) && x in s
    ensures x !in t
  {
    var i :| 0 <= i < |s| && s[i] == x;
    forall j | 0 <= j < |t| ensures t[j] != x {
      assert (s + t)[i] == s[i] && (s + t)[|s| + j] == t[j];
    }
  }

  /** A queue saved without `unsaved` of its waiting identifiers lacks exactly those. */
  lemma SavedRest(front: seq<string>, pending: seq<string>, unsaved: nat, id: string)
    requires unsaved <= |pending| && Distinct(front + pending) && id in front + pending
    ensures id in front + pending[unsaved..] <==> id !in pending[..unsaved]
  {
    var urgent, rest := pending[..unsaved], pending[unsaved..];
    assert pending == urgent + rest;
    assert front + pending == (front + urgent) + rest;
    if id in urgent {
      Apart(front + urgent, rest, id);
      if id in front { Apart(front, pending, id); }
    }
  }

  /** The file holds the queue but for the unsaved front. */
  lemma StepLacks(l: Limits, w: Walk, unsaved: nat, id: string)
    requires QueueHolds(l, w) && SavedHolds(l, w, unsaved) && id in Queued(w)
    requires w.saved.pending == (if w.inFlight != "" then [w.inFlight] else []) + w.pending[unsaved..]
    ensures unsaved == Unsaved(w) && (id in w.saved.pending <==> id !in Truncated(w.pending, Unsaved(w)))
  {
    var front := if w.inFlight != "" then [w.inFlight] else [];
    assert Queued(w) == front + w.pending;
    SavedRest(front, w.pending, unsaved, id);
    assert Truncated(w.pending, unsaved) == w.pending[..unsaved];
  }

  /** Right after a restart the queue is the file, cut to the bound. */
  lemma CutLacks(l: Limits, w: Walk, id: string)
    requires !IsOutstanding(w) && w.pending == Truncated(w.saved.pending, l.max) && id in Queued(w)
    requires Distinct(w.saved.pending)
    ensures !FileLacks(l, w, id)
  {
    CutKeepsFront(w.saved.pending, l.max, id);
  }

  /** A file of at most one identifier too many gives back all but that one. */
  lemma CutLosesLast(s: seq<string>, max: nat, id: string)
    requires Distinct(s) && |s| <= max + 1
    ensures id !in Truncated(s, max) <==> id !in s || (|s| > max && id == s[max])
  {
    CutKeepsFront(s, max, id);
  }

  lemma InStepLacks(l: Limits, w: Walk, unsaved: nat, id: string)
    requires QueueHolds(l, w) && SavedHolds(l, w, unsaved) && id in Queued(w)
    requires Distinct(w.saved.pending) && |w.saved.pending| <= l.max + 1
    ensures id !in Truncated(w.saved.pending, l.max) <==> FileLacks(l, w, id)
  {
    if w.saved.pending == (if w.inFlight != "" then [w.inFlight] else []) + w.pending[unsaved..] {
      StepLacks(l, w, unsaved, id);
      CutLosesLast(w.saved.pending, l.max, id);
    } else {
      CutLacks(l, w, id);
    }
  }

  /** Main result: exactly what a restart loses of the queue. */
  lemma RestartLeaves(l: Limits, w: Walk, usable: bool, id: string)
    requires Holds(l, w) && id in Queued(w)
    ensures id !in Queued(Restarted(l, w, usable)) <==> Loses(l, w, usable, id)
  {
    if usable && w.durable {
      var unsaved: nat :| SavedHolds(l, w, unsaved);
      InStepLacks(l, w, unsaved, id);
    }
  }

  lemma NudgeLeaves(l: Limits, w: Walk, now: int, write: bool, id: string)
    requires Holds(l, w) && id in Queued(w)
    ensures id !in Queued(Nudge(l, w, now, write).walk) <==> LeavesBy(l, w, Tick(NudgeEvent, now, write), id)
  {
    DropsOutstanding(l, w);
    if !IsOutstanding(w) {
      TakeKeeps(l, w, now, write);
    } else if IsOverdue(w, now) && !w.request.value.native {
      TakeKeeps(l, w.(inFlight := "", request := None, catalogueInFlight := false,
        cataloguePending := w.cataloguePending || w.catalogueInFlight), now, write);
    }
  }

  lemma UrgentKeeps(l: Limits, w: Walk, urgent: string, now: int, write: bool, id: string)
    requires Holds(l, w) && id in Queued(w)
    ensures id in Queued(EnqueueUrgent(l, w, urgent, now, write).walk)
  {
    if urgent != "" && w.inFlight != urgent && urgent !in w.pending && |w.pending| < l.max {
      var v := w.(pending := [urgent] + w.pending);
      TakeKeeps(l, v, now, write);
      assert id == w.inFlight || id in w.pending;
    }
  }

  lemma ResolvedLeaves(l: Limits, w: Walk, r: string, now: int, write: bool, id: string)
    requires Holds(l, w) && id in Queued(w)
    ensures id !in Queued(Resolved(l, w, r, now, write).walk) <==> r == id == w.inFlight
  {
    DropsOutstanding(l, w);
    TakeKeeps(l, w.(inFlight := "", request := None), now, write);
  }

  lemma RegisterKeeps(l: Limits, w: Walk, rundownID: string, scope: string, session: string, messageID: string,
      native: bool, now: int)
    ensures Queued(Register(l, w, rundownID, scope, session, messageID, native, now)) == Queued(w)
  {}

  lemma FailedKeeps(w: Walk, number: nat, now: int, write: bool)
    requires RequestHolds(w)
    ensures Queued(Failed(w, number, now, write)) == Queued(w)
  {}

  /** Main result: exactly when one move takes an identifier out of the queue. */
  lemma ExitStep(l: Limits, w: Walk, t: Tick, id: string)
    requires Holds(l, w) && id in Queued(w)
    ensures id !in Queued(Step(l, w, t)) <==> LeavesBy(l, w, t, id)
  {
    var e := t.event;
    if e.BeginEvent? {
      BeginLeaves(l, w, e.ids, t.now, t.write, id);
    } else if e.CatalogueEvent? {
      TakeKeeps(l, w.(cataloguePending := true), t.now, t.write);
    } else if e.RegisterEvent? {
      RegisterKeeps(l, w, e.rundownID, e.scope, e.session, e.messageID, e.native, t.now);
    } else if e.FailedEvent? {
      FailedKeeps(w, e.number, t.now, t.write);
    } else if e.UrgentEvent? {
      UrgentKeeps(l, w, e.id, t.now, t.write, id);
    } else if e.ResolvedEvent? {
      ResolvedLeaves(l, w, e.id, t.now, t.write, id);
    } else if e.NudgeEvent? {
      NudgeLeaves(l, w, t.now, t.write, id);
    } else if e.RestartEvent? {
      RestartLeaves(l, w, t.write, id);
    }
  }

  lemma ExitMove(l: Limits, ts: seq<Tick>, ws: seq<Walk>, k: nat, id: string)
    requires IsRun(l, ts, ws) && k < |ts| && id in Queued(ws[k]) && id !in Queued(ws[k + 1])
    ensures LeavesBy(l, ws[k], ts[k], id)
  {
    RunHolds(l, ts, ws, k);
    assert IsMove(l, ws[k], ts[k], ws[k + 1]);
    ExitStep(l, ws[k], ts[k], id);
  }

  /** Main result: an identifier that waits leaves only by being resolved, by a catalogue that
      omits it or overflows, by its own timeout, or with the file. */
  lemma IdentifierLeavesBy(l: Limits, ts: seq<Tick>, ws: seq<Walk>, i: nat, j: nat, id: string) returns (k: nat)
    requires IsRun(l, ts, ws) && i <= j < |ws| && id in Queued(ws[i]) && id !in Queued(ws[j])
    ensures i <= k < j && LeavesBy(l, ws[k], ts[k], id)
  {
    k := EndsAlong(seq(|ws|, n requires 0 <= n < |ws| => id in Queued(ws[n])), i, j);
    ExitMove(l, ts, ws, k, id);
  }

  // ---- Two runs that lose urgent work ----

  const ONE := Limits(10, 1)
  const ASKED := Step(ONE, IDLE, Tick(BeginEvent(["a"]), 0, true))
  const URGED := Step(ONE, ASKED, Tick(UrgentEvent("b"), 0, true))
  const RETURNED := Step(ONE, URGED, Tick(FailedEvent(0), 0, true))

  /** Every write succeeds. Urgent work behind a request reaches no file: a restart loses it. */
  lemma UnsavedUrgentIsLost() returns (ts: seq<Tick>, ws: seq<Walk>)
    ensures IsRun(ONE, ts, ws) && (forall t | t in ts :: t.write)
    ensures |ts| == 3 && ts[2].event == RestartEvent && ws[2].durable && ws[2].saved.pending == ["a"]
    ensures "b" in Queued(ws[2]) && "b" !in Queued(ws[3])
  {
    ts := [Tick(BeginEvent(["a"]), 0, true), Tick(UrgentEvent("b"), 0, true), Tick(RestartEvent, 0, true)];
    ws := [IDLE, ASKED, URGED, Step(ONE, URGED, ts[2])];
    AskedIs();
    UrgedIs();
  }

  /** Every write succeeds. The request goes back in front of the urgent work, the file has one
      identifier more than the bound, and a restart loses the last. */
  lemma OneTooManyIsLost() returns (ts: seq<Tick>, ws: seq<Walk>)
    ensures IsRun(ONE, ts, ws) && (forall t | t in ts :: t.write)
    ensures |ts| == 4 && ts[3].event == RestartEvent && ws[3].durable
    ensures |ws[3].saved.pending| == ONE.max + 1
    ensures "b" in Queued(ws[3]) && "b" !in Queued(ws[4])
  {
    ts := [Tick(BeginEvent(["a"]), 0, true), Tick(UrgentEvent("b"), 0, true),
      Tick(FailedEvent(0), 0, true), Tick(RestartEvent, 0, true)];
    ws := [IDLE, ASKED, URGED, RETURNED, Step(ONE, RETURNED, ts[3])];
    AskedIs();
    UrgedIs();
  }

  lemma AskedIs()
    ensures ASKED.inFlight == "a" && ASKED.pending == [] && ASKED.saved == Saved(["a"], false)
    ensures ASKED.request == Some(Fresh(0, "a")) && ASKED.durable && !ASKED.catalogueInFlight && !ASKED.cataloguePending
  {
    var ids, wanted := ["a"], Listed(["a"], "");
    assert [] + ids == ids && "a" in wanted;
    assert Keep(ids, wanted) == ["a"] + Keep(ids[1..], wanted - {"a"}) == ["a"];
    assert Renewed(ONE, IDLE, ids) == ["a"];
  }

  lemma UrgedIs()
    ensures URGED == ASKED.(pending := ["b"])
  {
    AskedIs();
  }

  // ---- Attempts ----

  /** An attempt goes on under its number, or a new one has a number never used. */
  ghost predicate NumbersOn(w: Walk, v: Walk) {
    && w.attempts <= v.attempts
    && (v.request.Some? ==> v.request.value.number >= w.attempts || IsCurrent(w, v.request.value.number))
  }

  /** The attempt is bound as it was; once expired it stays so. */
  ghost predicate SameBinding(w: Walk, v: Walk) {
    v.request.Some? && v.request.value.session != "" ==>
      && var b := v.request.value;
      && w.request.Some?
      && w.request.value == b.(replying := w.request.value.replying, expired := w.request.value.expired)
      && (w.request.value.expired ==> b.expired) && (!b.expired ==> v.deadline == w.deadline)
  }

  /** The event has just bound the attempt. */
  ghost predicate Binds(l: Limits, w: Walk, t: Tick, v: Walk) {
    && v.request.Some?
    && var b := v.request.value;
    && t.event == RegisterEvent(b.rundownID, b.scope, b.session, b.messageID, b.native)
    && Registers(w, b.rundownID, b.scope, b.session, b.messageID, b.native) && v.deadline == t.now + l.timeout
  }

  /** An attempt goes on as it is bound, is bound just now, or is a new one. */
  ghost predicate AttemptRule(l: Limits, w: Walk, t: Tick, v: Walk) {
    NumbersOn(w, v) && (Binds(l, w, t, v) || SameBinding(w, v))
  }

  lemma TakeRule(l: Limits, w: Walk, v: Walk, t: Tick)
    requires v.attempts == w.attempts && v.deadline == w.deadline && (v.request == w.request || v.request == None)
    ensures AttemptRule(l, w, t, Take(l, v, t.now, t.write).walk) &&
      AttemptRule(l, w, t, TakeOrPersist(l, v, t.now, t.write).walk)
  {}

  lemma BeginRule(l: Limits, w: Walk, ids: seq<string>, t: Tick)
    ensures AttemptRule(l, w, t, Begin(l, w, ids, t.now, t.write).walk)
  {
    TakeRule(l, w, w.(cataloguePending := false, catalogueInFlight := false,
      request := if w.catalogueInFlight then None else w.request, pending := Renewed(l, w, ids)), t);
  }

  lemma NudgeRule(l: Limits, w: Walk, t: Tick)
    ensures AttemptRule(l, w, t, Nudge(l, w, t.now, t.write).walk)
  {
    TakeRule(l, w, w, t);
    TakeRule(l, w, w.(inFlight := "", request := None, catalogueInFlight := false,
      cataloguePending := w.cataloguePending || w.catalogueInFlight), t);
  }

  lemma RegisterRule(l: Limits, w: Walk, t: Tick)
    requires Holds(l, w) && t.event.RegisterEvent?
    ensures AttemptRule(l, w, t, Step(l, w, t))
  {}

  lemma FailedRule(l: Limits, w: Walk, number: nat, t: Tick)
    ensures AttemptRule(l, w, t, Failed(w, number, t.now, t.write))
  {}

  lemma ClaimRule(l: Limits, w: Walk, rundownID: string, scope: string, session: string, messageID: string, t: Tick)
    ensures AttemptRule(l, w, t, Claim(w, rundownID, scope, session, messageID, t.now))
  {}

  lemma CatalogueRule(l: Limits, w: Walk, t: Tick)
    ensures AttemptRule(l, w, t, RequestCatalogue(l, w, t.now, t.write).walk)
  {
    TakeRule(l, w, w.(cataloguePending := true), t);
  }

  lemma UrgentRule(l: Limits, w: Walk, id: string, t: Tick)
    ensures AttemptRule(l, w, t, EnqueueUrgent(l, w, id, t.now, t.write).walk)
  {
    TakeRule(l, w, w.(pending := [id] + w.pending), t);
  }

  lemma ResolvedRule(l: Limits, w: Walk, id: string, t: Tick)
    ensures AttemptRule(l, w, t, Resolved(l, w, id, t.now, t.write).walk)
  {
    TakeRule(l, w, w.(inFlight := "", request := None), t);
  }

  lemma AttemptStep(l: Limits, w: Walk, t: Tick)
    requires Holds(l, w)
    ensures AttemptRule(l, w, t, Step(l, w, t))
  {
    var e := t.event;
    if e.BeginEvent? {
      BeginRule(l, w, e.ids, t);
    } else if e.CatalogueEvent? {
      CatalogueRule(l, w, t);
    } else if e.RegisterEvent? {
      RegisterRule(l, w, t);
    } else if e.ClaimEvent? {
      ClaimRule(l, w, e.rundownID, e.scope, e.session, e.messageID, t);
    } else if e.FailedEvent? {
      FailedRule(l, w, e.number, t);
    } else if e.UrgentEvent? {
      UrgentRule(l, w, e.id, t);
    } else if e.ResolvedEvent? {
      ResolvedRule(l, w, e.id, t);
    } else if e.NudgeEvent? {
      NudgeRule(l, w, t);
    }
  }

  /** Every move of a run obeys the rule of attempts. */
  lemma RunRule(l: Limits, ts: seq<Tick>, ws: seq<Walk>, n: nat)
    requires IsRun(l, ts, ws) && n < |ts|
    ensures AttemptRule(l, ws[n], ts[n], ws[n + 1])
  {
    RunHolds(l, ts, ws, n);
    assert IsMove(l, ws[n], ts[n], ws[n + 1]);
    AttemptStep(l, ws[n], ts[n]);
  }

  /** Attempt `number` was made and is over. */
  ghost predicate IsOver(w: Walk, number: nat) {
    number < w.attempts && !IsCurrent(w, number)
  }

  lemma NumberGoesOn(l: Limits, ts: seq<Tick>, ws: seq<Walk>, n: nat, number: nat)
    requires IsRun(l, ts, ws) && n < |ts|
    ensures IsOver(ws[n], number) ==> IsOver(ws[n + 1], number)
  {
    RunRule(l, ts, ws, n);
  }

  lemma NumbersGoOn(l: Limits, ts: seq<Tick>, ws: seq<Walk>, j: nat, k: nat, number: nat)
    requires IsRun(l, ts, ws) && j <= k < |ws| && IsOver(ws[j], number)
    ensures IsOver(ws[k], number)
  {
    var v := seq(|ws|, n requires 0 <= n < |ws| => IsOver(ws[n], number));
    forall n | j <= n < k ensures v[n] ==> v[n + 1] { NumberGoesOn(l, ts, ws, n, number); }
    KeptAlong(v, j, k);
  }

  /** Main result: the handle of an attempt that was superseded never changes anything again. */
  lemma StaleHandle(l: Limits, ts: seq<Tick>, ws: seq<Walk>, i: nat, j: nat, k: nat, number: nat, now: int, write: bool)
    requires IsRun(l, ts, ws) && i <= j <= k < |ws| && IsCurrent(ws[i], number) && !IsCurrent(ws[j], number)
    ensures Release(ws[k], number) == ws[k] && Failed(ws[k], number, now, write) == ws[k]
  {
    RunHolds(l, ts, ws, i);
    AttemptsGrow(l, ts, ws, i, j);
    NumbersGoOn(l, ts, ws, j, k, number);
  }

  lemma AttemptsGrow(l: Limits, ts: seq<Tick>, ws: seq<Walk>, i: nat, j: nat)
    requires IsRun(l, ts, ws) && i <= j < |ws|
    ensures ws[i].attempts <= ws[j].attempts
  {
    var v := seq(|ws|, n requires 0 <= n < |ws| => ws[n].attempts);
    forall n | 0 <= n < |v| - 1 ensures v[n] <= v[n + 1] { AttemptGrows(l, ts, ws, n); }
    RisesAlong(v, i, j);
  }

  lemma AttemptGrows(l: Limits, ts: seq<Tick>, ws: seq<Walk>, n: nat)
    requires IsRun(l, ts, ws) && n < |ts|
    ensures ws[n].attempts <= ws[n + 1].attempts
  {
    RunRule(l, ts, ws, n);
  }

  /** While an answer is being applied, its attempt is not expired, registered again or cancelled:
      it ends by its own release, by its identifier being resolved, by the catalogue it asked
      for, or with the process. */
  lemma ClaimedIsKept(l: Limits, w: Walk, t: Tick)
    requires Holds(l, w) && w.request.Some? && w.request.value.replying
    ensures var v := Step(l, w, t);
      (v.request == w.request && v.deadline == w.deadline) ||
      match t.event
      case ReleaseEvent(number) => number == w.request.value.number
      case ResolvedEvent(id) => id == w.inFlight != ""
      case BeginEvent(_) => w.catalogueInFlight
      case RestartEvent => true
      case _ => false
  {}

  /** Registration `r` bound the current attempt, and its deadline stands unless it expired. */
  ghost predicate BoundBy(l: Limits, ts: seq<Tick>, ws: seq<Walk>, r: int, w: Walk) {
    && 0 <= r < |ts| && r + 1 < |ws| && w.request.Some?
    && var a := w.request.value;
      && ts[r].event == RegisterEvent(a.rundownID, a.scope, a.session, a.messageID, a.native)
      && Registers(ws[r], a.rundownID, a.scope, a.session, a.messageID, a.native)
      && IsCurrent(ws[r + 1], a.number)
      && (!a.expired ==> w.deadline == ts[r].now + l.timeout)
  }

  /** The attempt after a move was bound by it or by whatever bound the attempt before it. */
  lemma BoundOn(l: Limits, ts: seq<Tick>, ws: seq<Walk>, n: nat)
    requires IsRun(l, ts, ws) && n < |ts| && IsBound(ws[n + 1])
    ensures BoundBy(l, ts, ws, n, ws[n + 1]) ||
      (IsBound(ws[n]) && forall r | BoundBy(l, ts, ws, r, ws[n]) :: BoundBy(l, ts, ws, r, ws[n + 1]))
  {
    RunRule(l, ts, ws, n);
  }

  ghost predicate IsBound(w: Walk) {
    w.request.Some? && w.request.value.session != ""
  }

  lemma {:induction false} WasBound(l: Limits, ts: seq<Tick>, ws: seq<Walk>, n: nat) returns (r: nat)
    requires IsRun(l, ts, ws) && n < |ws| && IsBound(ws[n])
    ensures r < n && BoundBy(l, ts, ws, r, ws[n])
  {
    assert n > 0;
    BoundOn(l, ts, ws, n - 1);
    if BoundBy(l, ts, ws, n - 1, ws[n]) {
      r := n - 1;
    } else {
      r := WasBound(l, ts, ws, n - 1);
    }
  }

  /** The event at `n` claims the answer of attempt `number`. */
  ghost predicate ClaimsAt(ts: seq<Tick>, ws: seq<Walk>, n: nat, number: nat) {
    && n < |ts| && n < |ws| && ts[n].event.ClaimEvent? && IsCurrent(ws[n], number)
    && var e := ts[n].event; Claims(ws[n], e.rundownID, e.scope, e.session, e.messageID, ts[n].now)
  }

  /** Main result: an answer is claimed only for the rundown, scope, session and, except on a native
      connection, identifier that its attempt was registered with, before its deadline. */
  lemma ClaimMatchesRegistration(l: Limits, ts: seq<Tick>, ws: seq<Walk>, n: nat, number: nat) returns (r: nat)
    requires IsRun(l, ts, ws) && ClaimsAt(ts, ws, n, number)
    ensures r < n && ts[r].event.RegisterEvent? && IsCurrent(ws[r + 1], number)
    ensures ts[r].event.rundownID == ts[n].event.rundownID && ts[r].event.scope == ts[n].event.scope
    ensures ts[r].event.session == ts[n].event.session
    ensures ts[r].event.native || ts[r].event.messageID == ts[n].event.messageID
    ensures ts[n].now < ts[r].now + l.timeout
  {
    r := WasBound(l, ts, ws, n);
  }

  /** Main result: an answer is claimed once, until the claim is released. */
  lemma ClaimedOnce(l: Limits, ts: seq<Tick>, ws: seq<Walk>, i: nat, j: nat, number: nat) returns (k: nat)
    requires IsRun(l, ts, ws) && i < j && ClaimsAt(ts, ws, i, number) && ClaimsAt(ts, ws, j, number)
    ensures i < k < j && ts[k].event == ReleaseEvent(number)
  {
    ClaimedAfter(l, ts, ws, i, number);
    k := ReleasedBetween(l, ts, ws, i + 1, j, number);
  }

  lemma ClaimedAfter(l: Limits, ts: seq<Tick>, ws: seq<Walk>, i: nat, number: nat)
    requires IsRun(l, ts, ws) && ClaimsAt(ts, ws, i, number)
    ensures IsCurrent(ws[i + 1], number) && ws[i + 1].request.value.replying && number < ws[i + 1].attempts
  {
    RunHolds(l, ts, ws, i);
    assert IsMove(l, ws[i], ts[i], ws[i + 1]);
  }

  /** Attempt `number` is being answered. */
  ghost predicate IsAnswered(w: Walk, number: nat) {
    IsCurrent(w, number) && w.request.value.replying
  }

  lemma AnswerEnds(l: Limits, ts: seq<Tick>, ws: seq<Walk>, n: nat, number: nat)
    requires IsRun(l, ts, ws) && n < |ts| && IsAnswered(ws[n], number) && !IsAnswered(ws[n + 1], number)
    ensures ts[n].event == ReleaseEvent(number) || IsOver(ws[n + 1], number)
  {
    RunHolds(l, ts, ws, n);
    assert IsMove(l, ws[n], ts[n], ws[n + 1]);
    ClaimedIsKept(l, ws[n], ts[n]);
    RunRule(l, ts, ws, n);
  }

  /** An attempt that is being answered at `i` and is not at `j` was released in between. */
  lemma ReleasedBetween(l: Limits, ts: seq<Tick>, ws: seq<Walk>, i: nat, j: nat, number: nat) returns (k: nat)
    requires IsRun(l, ts, ws) && i <= j < |ws| && IsAnswered(ws[i], number)
    requires IsCurrent(ws[j], number) && !IsAnswered(ws[j], number)
    ensures i <= k < j && ts[k].event == ReleaseEvent(number)
  {
    k := EndsAlong(seq(|ws|, n requires 0 <= n < |ws| => IsAnswered(ws[n], number)), i, j);
    AnswerEnds(l, ts, ws, k, number);
    if IsOver(ws[k + 1], number) { NumbersGoOn(l, ts, ws, k + 1, j, number); }
  }

  /** On a native connection an attempt that expired is registered again only over a new session,
      and then as a new attempt. */
  lemma ExpiredNeedsNewSession(l: Limits, w: Walk, rundownID: string, scope: string, session: string,
      messageID: string, native: bool, now: int)
    requires Holds(l, w) && w.request.Some? && w.request.value.expired
    ensures Registers(w, rundownID, scope, session, messageID, native) ==>
      session != w.request.value.session &&
      IsCurrent(Register(l, w, rundownID, scope, session, messageID, native, now), w.attempts)
    ensures session == w.request.value.session ==>
      Register(l, w, rundownID, scope, session, messageID, native, now) == w
  {}
}
