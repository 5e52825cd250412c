/** The running source: connections, messages, retries, delivery and restarts over one store. */
module CommittedSources {
  import opened Options
  import opened Repositories
  import opened Rundown
  import opened Source
  import opened SourceInvariant
  import opened SourceRuns
  import opened SourceLedger
  import opened Staging
  import opened Durable
  import SourceStaging

  // ---- One revision, loop by loop ----

  method Assess(state: State) returns (complete: bool, problem: string)
    ensures complete == (state.rosterFresh && AllFresh(state.stories)) && problem == Problem(state)
  {
    complete, problem := state.rosterFresh, if state.rosterFresh then "" else "fresh_roster_required";
    ghost var ambiguous, stale := false, false;
    for i := 0 to |state.stories|
      invariant ambiguous <==> exists s | s in state.stories[..i] :: s.ambiguous
      invariant stale <==> exists s | s in state.stories[..i] :: !s.isFresh
      invariant complete == (state.rosterFresh && !ambiguous && !stale)
      invariant problem == if ambiguous then "anonymous_cue_identity_unresolved"
        else if !state.rosterFresh then "fresh_roster_required"
        else if stale then "fresh_story_bodies_required" else ""
    {
      var story := state.stories[i];
      assert state.stories[..i + 1] == state.stories[..i] + [story];
      ambiguous, stale := ambiguous || story.ambiguous, stale || !story.isFresh;
      if !story.isFresh || story.ambiguous {
        complete := false;
        if problem == "" { problem := "fresh_story_bodies_required"; }
        if story.ambiguous { problem := "anonymous_cue_identity_unresolved"; }
      }
    }
    assert state.stories[..|state.stories|] == state.stories;
  }

  method PublishStories(stories: seq<HeldStory>, display: string -> string) returns (published: seq<PublishedStory>)
    ensures published == PublishedStories(stories, display)
  {
    published := [];
    for i := 0 to |stories|
      invariant |published| == i
      invariant forall k | 0 <= k < i ::
        published[k] == PublishedStory(stories[k].id, display(stories[k].id), stories[k].occurrences)
    {
      published := published + [PublishedStory(stories[i].id, display(stories[i].id), stories[i].occurrences)];
    }
  }

  method ReviseCheckpoint(setup: Setup, cp: Checkpoint, state: State) returns (ok: bool, next: Checkpoint)
    ensures Revise(setup, cp, state) == if ok then Some(next) else None
  {
    next := cp;
    ok := false;
    if cp.revision >= MAX_REVISION { return; }
    var complete, problem := Assess(state);
    var stories: seq<PublishedStory> := [];
    if complete && state.active {
      var display := (id: string) => "";
      if setup.extended {
        var shown := setup.display(state);
        if shown.None? { return; }
        display := shown.value;
      }
      stories := PublishStories(state.stories, display);
    }
    var body := Published(cp.revision + 1, state.active, complete, state.metadata, stories);
    if !setup.fits(body) {
      problem := "source_projection_outside_limits";
      body := Published(cp.revision + 1, state.active, false, None, []);
      if !setup.fits(body) { return; }
    }
    ok := true;
    next := cp.(revision := cp.revision + 1, state := state.(problem := problem), pending := Some(body));
  }

  method MarkStale(state: State) returns (next: State)
    ensures next == Invalidated(state)
  {
    var stories := state.stories;
    for i := 0 to |stories|
      invariant |stories| == |state.stories|
      invariant forall k | 0 <= k < |stories| ::
        stories[k] == if k < i then state.stories[k].(isFresh := false) else state.stories[k]
    {
      stories := stories[i := stories[i].(isFresh := false)];
    }
    next := state.(rosterFresh := false, stories := stories);
  }

  /** The receipt retained under this key. */
  method FindReceipt(receipts: seq<Receipt>, key: ReceiptKey) returns (found: Option<Receipt>)
    ensures found.Some? ==> found.value in receipts && KeyOf(found.value) == key
    ensures found.None? ==> !HasReceipt(receipts, key)
  {
    for i := 0 to |receipts|
      invariant forall k | 0 <= k < i :: KeyOf(receipts[k]) != key
    {
      if KeyOf(receipts[i]) == key { return Some(receipts[i]); }
    }
    found := None;
  }

  // ---- Deciding about a message ----

  const OUTSIDE := "NACK: message is outside the committed source binding"
  const UNVALIDATED := "NACK: source connection has not been validated"
  const UNAVAILABLE := "NACK: committed source storage is unavailable"
  const HALTED := "NACK: source is halted; automatic recovery is unsupported"

  predicate InBinding(setup: Setup, input: Input, m: Message) {
    && input.transport == setup.transport && input.ncsID == setup.ncsID
    && 0 < |input.scope| <= 512 && |input.messageID| <= 0x40_0000
    && input.session != "" && 0 < |input.content| <= 0x60_0000
    && RundownOf(m) in {setup.ro, ""}
  }

  predicate IsOwner(sessions: map<string, nat>, owners: map<string, string>, scope: string, session: string) {
    session in sessions && scope in owners && owners[scope] == session
  }

  /** Ownership without what some sessions own. */
  function NotOwnedBy(owners: map<string, string>, gone: set<string>): map<string, string> {
    map s | s in owners && owners[s] !in gone :: owners[s]
  }

  lemma OneMoreGone(owners: map<string, string>, gone: set<string>, session: string)
    ensures NotOwnedBy(NotOwnedBy(owners, gone), {session}) == NotOwnedBy(owners, gone + {session})
    ensures (exists s :: s in owners && owners[s] in gone + {session}) <==>
      (exists s :: s in owners && owners[s] in gone) ||
      (exists s :: s in NotOwnedBy(owners, gone) && NotOwnedBy(owners, gone)[s] == session)
  {
    if s :| s in owners && owners[s] in gone + {session} && owners[s] !in gone {
      assert s in NotOwnedBy(owners, gone);
    }
  }

  /** What a caller is told. `Refused` asks for recovery; `Failed` means that nothing about the
      message is known to be saved. */
  datatype SourceResult =
    | TurnedAway(reply: string)
    | Replayed(reply: string)
    | Applied(reply: string)
    | Refused(reply: string)
    | Failed(reply: string)

  /** The message was answered before, and is the same message. */
  ghost predicate IsReplay(setup: Setup, receipts: seq<Receipt>, input: Input, m: Message) {
    input.messageID != "" && exists r | r in receipts ::
      KeyOf(r) == KeyFor(input, m) && r.hash == setup.hash(input.content)
  }

  /** Its identifier was used before, for another content. */
  ghost predicate IsConflict(setup: Setup, receipts: seq<Receipt>, input: Input, m: Message) {
    input.messageID != "" && exists r | r in receipts ::
      KeyOf(r) == KeyFor(input, m) && r.hash != setup.hash(input.content)
  }

  lemma OneReceiptPerKey(receipts: seq<Receipt>, a: Receipt, b: Receipt)
    requires DistinctKeys(receipts) && a in receipts && b in receipts && KeyOf(a) == KeyOf(b)
    ensures a == b
  {
    var i :| 0 <= i < |receipts| && receipts[i] == a;
    var j :| 0 <= j < |receipts| && receipts[j] == b;
    assert i == j;
  }

  /** An earlier commit answered this request, for this content, with exactly these bytes. */
  ghost predicate WasAnswered(setup: Setup, ks: seq<Commit>, input: Input, m: Message, reply: string) {
    exists j | 0 <= j < |ks| ::
      && IsRequest(ks[j]) && KeyFor(ks[j].input, ks[j].message) == KeyFor(input, m)
      && setup.hash(ks[j].input.content) == setup.hash(input.content)
      && reply == ReceiptOf(setup, ks[j]).response
  }

  lemma ReplayWasAnswered(setup: Setup, ks: seq<Commit>, cs: seq<Committed>, input: Input, m: Message, r: Receipt)
    requires IsSetup(setup) && IsHistory(setup, ks, cs) && r in cs[|ks|].cp.receipts
    requires KeyOf(r) == KeyFor(input, m) && r.hash == setup.hash(input.content)
    ensures WasAnswered(setup, ks, input, m, r.response)
  {
    var j := ReceiptIsAnswer(setup, ks, cs, |ks|, r);
    assert IsStep(setup, cs[j], ks[j], cs[j + 1]);
    StepReceipts(setup, cs[j], ks[j], cs[j + 1]);
  }

  /** What the receiver made of one delivery. */
  datatype Answer = Receipted | Conflicting | Unusable

  /** Every acceptance in the history was of a body the receiver returned a receipt for. */
  ghost predicate AcceptsReceipted(ks: seq<Commit>, receipted: set<Published>) {
    forall i | 0 <= i < |ks| && ks[i].Accept? :: ks[i].body in receipted
  }

  ghost predicate WasCommitted(cs: seq<Committed>, body: Option<Published>) {
    body.Some? ==> exists n | 0 <= n < |cs| :: cs[n].cp.pending == body
  }

  lemma StillCommitted(cs: seq<Committed>, next: Committed, body: Option<Published>)
    requires WasCommitted(cs, body)
    ensures WasCommitted(cs + [next], body)
  {
    if body.Some? {
      var n :| 0 <= n < |cs| && cs[n].cp.pending == body;
      assert (cs + [next])[n].cp.pending == body;
    }
  }

  /** Two committed bodies of one revision are one body. */
  lemma SameRevisionSameBody(setup: Setup, ks: seq<Commit>, cs: seq<Committed>, a: Option<Published>,
      b: Option<Published>)
    requires IsSetup(setup) && IsHistory(setup, ks, cs) && WasCommitted(cs, a) && WasCommitted(cs, b)
    requires a.Some? && b.Some? && a.value.revision == b.value.revision
    ensures a == b
  {
    var i :| 0 <= i < |cs| && cs[i].cp.pending == a;
    var j :| 0 <= j < |cs| && cs[j].cp.pending == b;
    HistoryHolds(setup, ks, cs, i);
    HistoryHolds(setup, ks, cs, j);
    if i <= j { RevisionNamesBody(setup, ks, cs, i, j); } else { RevisionNamesBody(setup, ks, cs, j, i); }
  }

  /** A body of the latest revision is the latest body. */
  lemma LatestBody(setup: Setup, ks: seq<Commit>, cs: seq<Committed>, body: Option<Published>)
    requires IsSetup(setup) && IsHistory(setup, ks, cs) && WasCommitted(cs, body)
    ensures WasCommitted(cs, cs[|ks|].cp.pending)
    ensures body.Some? && body.value.revision == cs[|ks|].cp.revision && cs[|ks|].cp.pending.Some? ==>
      body == cs[|ks|].cp.pending
  {
    var last := cs[|ks|].cp.pending;
    assert WasCommitted(cs, last);
    HistoryHolds(setup, ks, cs, |ks|);
    if body.Some? && last.Some? && body.value.revision == cs[|ks|].cp.revision {
      SameRevisionSameBody(setup, ks, cs, body, last);
    }
  }

  /** The commit that refuses a message. */
  ghost function RefusalOf(input: Input, m: Message, conflict: bool): Commit {
    if conflict then Conflict else Commit.Refuse(input, m)
  }

  class CommittedSource {
    const store: Store
    const chunked: bool
    var sessions: map<string, nat>
    var owners: map<string, string>
    // The body being delivered, and the one the resumable transfer was built for.
    var flight: Option<Published>
    var transfer: Option<Published>
    // Whether it was opened: otherwise nobody has it.
    var up: bool
    // Bodies the receiver returned a receipt for.
    ghost var receipted: set<Published>

    ghost predicate Valid()
      reads this, store
    {
      && store.Valid()
      && AcceptsReceipted(store.ks, receipted)
      && WasCommitted(store.cs, flight) && WasCommitted(store.cs, transfer)
      && (chunked && flight.Some? ==> transfer == flight)
      && (forall scope | scope in owners :: owners[scope] in sessions)
    }

    /** A source over an open store, provisioned or started: nothing retained is taken for fresh. */
    constructor (store: Store, chunked: bool, ghost receipted: set<Published>)
      requires store.Valid() && AcceptsReceipted(store.ks, receipted)
      modifies store
      ensures Valid() && this.store == store && this.chunked == chunked && this.receipted == receipted
      ensures sessions == map[] && owners == map[] && flight == None && transfer == None
      ensures Opened(old(store.ks))
      ensures !Extends(old(store.ks), Commit.Invalidate) ==>
        Stopped(old(store.ks), Commit.Invalidate, old(store.repos), old(store.cp))
    {
      this.store, this.chunked, this.receipted, up := store, chunked, receipted, false;
      sessions, owners, flight, transfer := map[], map[], None, None;
      new;
      Open();
    }

    /** It is up when what was retained lost its freshness, or is halted and may be kept as it is. */
    ghost predicate Opened(ks: seq<Commit>)
      reads this`up, store
    {
      up <==> Extends(ks, Commit.Invalidate) || (store.setup.extended && !store.degraded && store.cp.state.halted)
    }

    method Open()
      requires Valid()
      modifies this`up, store
      ensures Valid() && Opened(old(store.ks))
      ensures !Extends(old(store.ks), Commit.Invalidate) ==>
        Stopped(old(store.ks), Commit.Invalidate, old(store.repos), old(store.cp))
      ensures up ==> !store.degraded && (store.cp.state.halted || !store.cp.state.rosterFresh)
    {
      up := Revoke();
      if !up { up := store.setup.extended && !store.degraded && store.cp.state.halted; }
    }

    /** Commits one step. */
    method Put(repos: Repos, cp: Checkpoint, ghost k: Commit) returns (ok: bool)
      requires Valid() && !store.degraded && Admitted(store.setup, store.Last(), k)
      requires Stage(store.setup, store.Last(), k) == Some(Committed(repos, cp))
      requires k.Accept? ==> k.body in receipted
      modifies store
      ensures Valid() && ok == Extends(old(store.ks), k)
      ensures ok ==> store.repos == repos && store.cp == cp
      ensures !ok ==> Stopped(old(store.ks), k, old(store.repos), old(store.cp))
      ensures ok || store.degraded <==> ValidCheckpoint(store.setup, cp)
    {
      ghost var next, cs := Committed(repos, cp), store.cs;
      StillCommitted(cs, next, flight);
      StillCommitted(cs, next, transfer);
      ok := store.Commit(repos, cp, k);
    }

    /** The history has grown by exactly this commit, and the source goes on. */
    ghost predicate Extends(ks: seq<Commit>, k: Commit)
      reads store
    {
      !store.degraded && store.ks == ks + [k]
    }

    /** Nothing was committed, or it is not known whether it was and nothing more is until a restart. */
    ghost predicate Stopped(ks: seq<Commit>, k: Commit, repos: Repos, cp: Checkpoint)
      reads store
    {
      store.repos == repos && store.cp == cp && (store.ks == ks || (store.degraded && store.ks == ks + [k]))
    }

    /** Takes freshness away from everything that is retained. */
    method Revoke() returns (ok: bool)
      requires Valid()
      modifies store
      ensures Valid() && ok == Extends(old(store.ks), Commit.Invalidate)
      ensures !ok ==> Stopped(old(store.ks), Commit.Invalidate, old(store.repos), old(store.cp))
      ensures ok ==> !store.cp.state.rosterFresh
      ensures (ok || store.degraded) <==>
        old(store.degraded || Next(store.setup, store.Last(), Commit.Invalidate).Some?)
    {
      if store.degraded || store.cp.state.halted { return false; }
      var state := MarkStale(store.cp.state);
      var revised, next := ReviseCheckpoint(store.setup, store.cp, state);
      if !revised { return false; }
      ok := Put(store.repos, next, Commit.Invalidate);
    }

    // ---- Connections ----

    predicate IsLive(session: string, now: nat)
      reads this`sessions, store
    {
      session in sessions && now - sessions[session] <= store.setup.timeout
    }

    method ReleaseSession(session: string) returns (released: bool)
      modifies this`owners
      ensures owners == NotOwnedBy(old(owners), {session})
      ensures released <==> exists s :: s in old(owners) && old(owners)[s] == session
    {
      released := false;
      var todo := owners.Keys;
      ghost var was := owners;
      while todo != {}
        invariant todo <= was.Keys
        invariant owners == map s | s in was && (s in todo || was[s] != session) :: was[s]
        invariant released <==> exists s :: s in was && s !in todo && was[s] == session
        decreases todo
      {
        var scope :| scope in todo;
        if owners[scope] == session {
          owners := owners - {scope};
          released := true;
        }
        todo := todo - {scope};
      }
    }

    /** A validated connection. One that is new, or was silent too long, owns its scope only after
        everything retained has been taken for stale. */
    method Observe(input: Input, now: nat) returns (ok: bool)
      requires Valid() && up
      modifies this`sessions, this`owners, store
      ensures Valid() && flight == old(flight) && transfer == old(transfer) && receipted == old(receipted)
      ensures Extends(old(store.ks), Commit.Invalidate) ||
        Stopped(old(store.ks), Commit.Invalidate, old(store.repos), old(store.cp))
      ensures !ok ==> sessions == old(sessions) && owners == old(owners)
      ensures ok && input.transport == store.setup.transport && input.ncsID == store.setup.ncsID ==>
        IsOwner(sessions, owners, input.scope, input.session) && sessions[input.session] == now &&
        (store.ks == old(store.ks) && store.degraded == old(store.degraded) ==>
          old(IsLive(input.session, now) && IsOwner(sessions, owners, input.scope, input.session)))
      ensures input.transport != store.setup.transport ==> ok && unchanged(store)
      ensures (input.ncsID == store.setup.ncsID && input.session != "" &&
        old(IsLive(input.session, now) && IsOwner(sessions, owners, input.scope, input.session))) ==>
        ok && unchanged(store)
      ensures (input.transport == store.setup.transport && input.ncsID == store.setup.ncsID && input.session != "" &&
        input.session !in old(sessions)) ==> ok == Extends(old(store.ks), Commit.Invalidate)
      ensures (input.transport == store.setup.transport && input.ncsID != store.setup.ncsID && input.session != "" &&
        old(IsOwner(sessions, owners, input.scope, input.session))) ==> ok == Extends(old(store.ks), Commit.Invalidate)
    {
      ok := true;
      if input.transport != store.setup.transport { return; }
      var owns := input.scope in owners && owners[input.scope] == input.session;
      if input.ncsID != store.setup.ncsID {
        if input.session != "" && owns { ok := Revoke(); }
        return;
      }
      if input.session == "" || (input.session in sessions && !owns) { return false; }
      if !IsLive(input.session, now) {
        ok := Revoke();
        if !ok { return; }
        owners := owners[input.scope := input.session];
        sessions := sessions[input.session := now];
      } else {
        sessions := sessions[input.session := now];
      }
    }

    /** Liveness renews an unexpired owner's session and nothing else. */
    method RefreshSession(session: string, now: nat)
      requires Valid() && up
      modifies this`sessions
      ensures Valid()
      ensures sessions == if old(IsLive(session, now) && exists s :: s in owners && owners[s] == session)
        then old(sessions)[session := now] else old(sessions)
    {
      if !IsLive(session, now) { return; }
      var todo := owners.Keys;
      while todo != {}
        invariant todo <= owners.Keys && sessions == old(sessions)
        invariant forall s | s in owners && s !in todo :: owners[s] != session
        decreases todo
      {
        var scope :| scope in todo;
        if owners[scope] == session {
          sessions := sessions[session := now];
          return;
        }
        todo := todo - {scope};
      }
    }

    method Disconnected(session: string)
      requires Valid() && up
      modifies this`sessions, this`owners, store
      ensures Valid() && sessions == old(sessions) - {session}
      ensures session in old(sessions) ==>
        owners == NotOwnedBy(old(owners), {session})
      ensures session !in old(sessions) ==> owners == old(owners)
      ensures Extends(old(store.ks), Commit.Invalidate) ||
        Stopped(old(store.ks), Commit.Invalidate, old(store.repos), old(store.cp))
      ensures session in old(sessions) && (exists s :: s in old(owners) && old(owners)[s] == session) ==>
        (old(Next(store.setup, store.Last(), Commit.Invalidate).Some?) ==>
          Extends(old(store.ks), Commit.Invalidate) || store.degraded)
    {
      if session !in sessions { return; }
      var released := ReleaseSession(session);
      sessions := sessions - {session};
      if released { var _ := Revoke(); }
    }

    method Uncertain(session: string)
      requires Valid() && up
      modifies store
      ensures Valid()
      ensures Extends(old(store.ks), Commit.Invalidate) ||
        Stopped(old(store.ks), Commit.Invalidate, old(store.repos), old(store.cp))
      ensures store.ks != old(store.ks) ==> exists s :: s in owners && owners[s] == session
      ensures (exists s :: s in owners && owners[s] == session) ==>
        (old(Next(store.setup, store.Last(), Commit.Invalidate).Some?) ==>
          Extends(old(store.ks), Commit.Invalidate) || store.degraded)
    {
      var todo := owners.Keys;
      while todo != {}
        invariant todo <= owners.Keys
        invariant Valid() && unchanged(store)
        invariant forall s | s in owners && s !in todo :: owners[s] != session
        decreases todo
      {
        var scope :| scope in todo;
        if owners[scope] == session {
          var _ := Revoke();
          return;
        }
        todo := todo - {scope};
      }
    }

    /** Drops the sessions that were silent too long, and what they own. */
    method Expire(now: nat) returns (expired: bool)
      requires forall scope | scope in owners :: owners[scope] in sessions
      modifies this`sessions, this`owners
      ensures var gone := set s | s in old(sessions) && !old(IsLive(s, now));
        && sessions == old(sessions) - gone && owners == NotOwnedBy(old(owners), gone)
        && (expired <==> exists s :: s in old(owners) && old(owners)[s] in gone)
    {
      expired := false;
      var todo := sessions.Keys;
      ghost var seen, held, gone: set<string> := sessions, owners, {};
      while todo != {}
        invariant todo <= seen.Keys && gone == set s | s in seen && s !in todo && !old(IsLive(s, now))
        invariant sessions == seen - gone && owners == NotOwnedBy(held, gone)
        invariant expired <==> exists s :: s in held && held[s] in gone
        decreases todo
      {
        var session :| session in todo;
        if now - sessions[session] > store.setup.timeout {
          sessions := sessions - {session};
          var released := ReleaseSession(session);
          OneMoreGone(held, gone, session);
          expired := expired || released;
          gone := gone + {session};
        }
        todo := todo - {session};
      }
    }

    // ---- Delivery ----

    /** Gives up coverage that timed out. */
    method DropExpired(now: nat) returns (ok: bool)
      requires Valid()
      modifies this`sessions, this`owners, store
      ensures Valid() && forall s | s in owners :: IsLive(owners[s], now)
      ensures Extends(old(store.ks), Commit.Invalidate) ||
        Stopped(old(store.ks), Commit.Invalidate, old(store.repos), old(store.cp))
      ensures ok && owners != old(owners) ==> Extends(old(store.ks), Commit.Invalidate)
    {
      var expired := Expire(now);
      ok := true;
      if expired { ok := Revoke(); }
    }

    /** Chooses what to deliver: the body of the latest revision, once coverage that timed out has
        been given up. A transfer that is under way is kept while its revision is current. */
    method PublishBegin(now: nat) returns (ok: bool)
      requires Valid() && up
      modifies this`sessions, this`owners, this`flight, this`transfer, store
      ensures Valid() && receipted == old(receipted) && forall s | s in owners :: IsLive(owners[s], now)
      ensures Extends(old(store.ks), Commit.Invalidate) ||
        Stopped(old(store.ks), Commit.Invalidate, old(store.repos), old(store.cp))
      ensures ok && owners != old(owners) ==> Extends(old(store.ks), Commit.Invalidate)
      ensures ok ==> !store.degraded && !store.cp.state.halted && flight == store.cp.pending && flight.Some?
      ensures !ok ==> flight == None && transfer == old(transfer)
    {
      flight := None;
      ok := DropExpired(now);
      if !ok || store.degraded || store.cp.state.halted || store.cp.pending.None? { return false; }
      LatestBody(store.setup, store.ks, store.cs, transfer);
      if transfer.None? || transfer.value.revision != store.cp.revision { transfer := store.cp.pending; }
      flight := store.cp.pending;
    }

    /** What the receiver answered, however much was committed in between. Only the body that is
        still the latest can become the accepted one; a conflict halts the source for good. */
    method PublishReply(answer: Answer) returns (ok: bool)
      requires Valid() && up && flight.Some?
      modifies this`flight, this`receipted, store
      ensures Valid() && flight == None && sessions == old(sessions) && owners == old(owners)
      ensures receipted == if answer.Receipted? then old(receipted) + {old(flight.value)} else old(receipted)
      ensures answer.Receipted? ==>
        (Extends(old(store.ks), Commit.Accept(old(flight.value))) ||
          Stopped(old(store.ks), Commit.Accept(old(flight.value)), old(store.repos), old(store.cp)))
      ensures answer.Conflicting? ==> ok == Extends(old(store.ks), Commit.Halt) && (ok ==> store.cp.state.halted)
      ensures answer.Unusable? ==> store.ks == old(store.ks) && store.cp == old(store.cp)
      ensures ok && answer.Receipted? && old(store.cp.pending == flight) ==> store.cp.accepted == store.cp.revision
      ensures old(store.cp.pending != flight) ==> store.cp.accepted == old(store.cp.accepted)
      ensures store.cp.accepted != old(store.cp.accepted) ==> answer.Receipted? && store.cp.pending == old(flight)
    {
      ok := false;
      // What was actually sent is the transfer's document when the receiver takes it in parts.
      var sent := if chunked then transfer.value else flight.value;
      var body := flight.value;
      flight := None;
      if answer.Unusable? { return; }
      if answer.Conflicting? {
        if store.degraded { return; }
        var halted := store.cp.state.(halted := true, problem := "receiver_revision_conflict");
        ok := Put(store.repos, store.cp.(state := halted), Commit.Halt);
        return;
      }
      receipted := receipted + {sent};
      if store.degraded { return; }
      if store.cp.pending != Some(body) || store.cp.accepted == store.cp.revision { return true; }
      ok := Put(store.repos, store.cp.(accepted := store.cp.revision), Commit.Accept(body));
    }

    /** A new process over the same file. Nothing retained is taken for fresh. */
    method Restart()
      requires Valid()
      modifies this, store
      ensures Valid() && sessions == map[] && owners == map[] && flight == None && transfer == None
      ensures receipted == old(receipted) && Opened(old(store.ks))
      ensures store.ks == old(store.ks) || store.ks == old(store.ks) + [Commit.Invalidate]
      ensures up ==> !store.degraded && (store.cp.state.halted || !store.cp.state.rosterFresh)
      ensures store.setup.extended && store.cp.state.halted && !store.degraded ==> up
    {
      sessions, owners, flight, transfer := map[], map[], None, None;
      store.Reopen();
      Open();
    }

    // ---- Messages ----

    /** The message is about this rundown and comes over the connection that owns its scope. */
    predicate IsAdmissible(input: Input, m: Message)
      reads this`sessions, this`owners, store
    {
      && InBinding(store.setup, input, m) && IsOwner(sessions, owners, input.scope, input.session)
      && !store.degraded && !store.cp.state.halted
    }

    /** Stages one message in detached repositories and commits it with its positive receipt. */
    method TryApply(input: Input, m: Message) returns (ok: bool)
      requires Valid() && !store.degraded && !store.cp.state.halted && RundownOf(m) in {store.setup.ro, ""}
      modifies store
      ensures Valid() && ok == Extends(old(store.ks), Commit.Apply(input, m))
      ensures !ok ==> Stopped(old(store.ks), Commit.Apply(input, m), old(store.repos), old(store.cp))
      ensures old(Next(store.setup, store.Last(), Commit.Apply(input, m))).Some? <==> ok || store.degraded
    {
      HistoryHolds(store.setup, store.ks, store.cs, |store.cs| - 1);
      var staged := store.Detach();
      var applied, state := SourceStaging.ApplyMessage(store.setup, staged, store.cp.state, m, input.content);
      if !applied { return false; }
      var revised, next := ReviseCheckpoint(store.setup, store.cp, state);
      if !revised { return false; }
      var reply := ReplyFor(store.setup, m, OK_STATUS);
      ok := Put(staged.State(), Remember(next, input, store.setup.hash(input.content), reply), Commit.Apply(input, m));
    }

    /** Commits the old content, no longer fresh; a refused request leaves its negative receipt. */
    method Refuse(input: Input, m: Message, conflict: bool) returns (ok: bool)
      requires Valid() && !store.degraded && !store.cp.state.halted && RundownOf(m) in {store.setup.ro, ""}
      modifies store
      ensures Valid()
      ensures ok == Extends(old(store.ks), RefusalOf(input, m, conflict))
      ensures !ok ==> Stopped(old(store.ks), RefusalOf(input, m, conflict), old(store.repos), old(store.cp))
      ensures (ok || store.degraded) <==> old(Next(store.setup, store.Last(), RefusalOf(input, m, conflict)).Some?)
      ensures ok ==> store.repos == old(store.repos) && !store.cp.state.rosterFresh
      ensures ok && conflict ==> store.cp.receipts == old(store.cp.receipts)
    {
      var state := MarkStale(store.cp.state);
      var revised, next := ReviseCheckpoint(store.setup, store.cp, state);
      if !revised { return false; }
      ok := PutRefusal(input, m, conflict, next);
    }

    method PutRefusal(input: Input, m: Message, conflict: bool, revised: Checkpoint) returns (ok: bool)
      requires Valid() && !store.degraded && !store.cp.state.halted && RundownOf(m) in {store.setup.ro, ""}
      requires Revise(store.setup, store.cp, Invalidated(store.cp.state)) == Some(revised)
      modifies store
      ensures Valid() && ok == Extends(old(store.ks), RefusalOf(input, m, conflict))
      ensures !ok ==> Stopped(old(store.ks), RefusalOf(input, m, conflict), old(store.repos), old(store.cp))
      ensures (ok || store.degraded) <==> old(Next(store.setup, store.Last(), RefusalOf(input, m, conflict)).Some?)
      ensures ok ==> store.repos == old(store.repos) && store.cp.state == revised.state
      ensures ok && conflict ==> store.cp == revised
    {
      var next := revised;
      if !conflict {
        next := Remember(next, input, store.setup.hash(input.content), ReplyFor(store.setup, m, REFUSED_STATUS));
      }
      ok := Put(store.repos, next, RefusalOf(input, m, conflict));
    }

    /** Keeps the refusal of a message for a rundown that is not enrolled. */
    method RetainRefusal(input: Input, m: Message) returns (ok: bool)
      requires Valid() && up && !store.degraded && !store.cp.state.halted && RundownOf(m) in {store.setup.ro, ""}
      modifies store
      ensures Valid() && ok == Extends(old(store.ks), Commit.Retain(input, m))
      ensures !ok ==> Stopped(old(store.ks), Commit.Retain(input, m), old(store.repos), old(store.cp))
      ensures ok ==> store.repos == old(store.repos) && store.cp.state == old(store.cp.state)
    {
      var reply := ReplyFor(store.setup, m, UNENROLLED_STATUS);
      ok := Put(store.repos, Remember(store.cp, input, store.setup.hash(input.content), reply),
        Commit.Retain(input, m));
    }

    /** Applies a message at most once. */
    method Apply(input: Input, m: Message) returns (r: SourceResult)
      requires Valid() && up
      modifies store
      ensures Valid()
      ensures r.TurnedAway? <==> !old(IsAdmissible(input, m))
      ensures r.TurnedAway? ==>
        exists s | s in {OUTSIDE, UNVALIDATED, UNAVAILABLE, HALTED} :: r.reply == ReplyFor(store.setup, m, s)
      ensures r.TurnedAway? || r.Replayed? ==> unchanged(store)
      ensures r.Replayed? <==> old(IsAdmissible(input, m) && IsReplay(store.setup, store.cp.receipts, input, m))
      ensures r.Replayed? ==> WasAnswered(store.setup, store.ks, input, m, r.reply)
      ensures r.Applied? ==>
        r.reply == ReplyFor(store.setup, m, OK_STATUS) && Extends(old(store.ks), Commit.Apply(input, m))
      ensures r.Refused? ==> r.reply == ReplyFor(store.setup, m, REFUSED_STATUS) && store.repos == old(store.repos)
      ensures r.Refused? ==>
        Extends(old(store.ks),
          if old(IsConflict(store.setup, store.cp.receipts, input, m)) then Conflict else Commit.Refuse(input, m))
      ensures r.Refused? && !old(IsConflict(store.setup, store.cp.receipts, input, m)) ==>
        old(Next(store.setup, store.Last(), Commit.Apply(input, m))).None?
      ensures r.Applied? ==> !old(IsConflict(store.setup, store.cp.receipts, input, m))
      ensures r.Failed? ==>
        store.repos == old(store.repos) && store.cp == old(store.cp) && (store.ks == old(store.ks) || store.degraded)
      ensures r.Failed? ==> store.degraded || old(Next(store.setup, store.Last(),
        if IsConflict(store.setup, store.cp.receipts, input, m) then Conflict else Commit.Refuse(input, m)).None?)
    {
      if !InBinding(store.setup, input, m) { return TurnedAway(ReplyFor(store.setup, m, OUTSIDE)); }
      if !IsOwner(sessions, owners, input.scope, input.session) {
        return TurnedAway(ReplyFor(store.setup, m, UNVALIDATED));
      }
      if store.degraded { return TurnedAway(ReplyFor(store.setup, m, UNAVAILABLE)); }
      if store.cp.state.halted { return TurnedAway(ReplyFor(store.setup, m, HALTED)); }
      var conflict := false;
      if input.messageID != "" {
        HistoryHolds(store.setup, store.ks, store.cs, |store.cs| - 1);
        var found := FindReceipt(store.cp.receipts, KeyFor(input, m));
        if found.Some? {
          if found.value.hash == store.setup.hash(input.content) {
            ReplayWasAnswered(store.setup, store.ks, store.cs, input, m, found.value);
            return Replayed(found.value.response);
          }
          conflict := true;
        }
        Sorted(input, m, found);
      }
      var ok := false;
      if !conflict {
        ok := TryApply(input, m);
        if ok { return Applied(ReplyFor(store.setup, m, OK_STATUS)); }
      }
      var reply := ReplyFor(store.setup, m, REFUSED_STATUS);
      if store.degraded { return Failed(reply); }
      ok := Refuse(input, m, conflict);
      r := if ok then SourceResult.Refused(reply) else Failed(reply);
    }

    /** The receipt found decides whether the message is new, known or in conflict. */
    lemma Sorted(input: Input, m: Message, found: Option<Receipt>)
      requires DistinctKeys(store.cp.receipts) && input.messageID != ""
      requires found.Some? ==> found.value in store.cp.receipts && KeyOf(found.value) == KeyFor(input, m)
      requires found.None? ==> !HasReceipt(store.cp.receipts, KeyFor(input, m))
      ensures IsReplay(store.setup, store.cp.receipts, input, m) <==>
        found.Some? && found.value.hash == store.setup.hash(input.content)
      ensures IsConflict(store.setup, store.cp.receipts, input, m) <==>
        found.Some? && found.value.hash != store.setup.hash(input.content)
    {
      forall r | r in store.cp.receipts && KeyOf(r) == KeyFor(input, m) ensures Some(r) == found {
        var i :| 0 <= i < |store.cp.receipts| && store.cp.receipts[i] == r;
        OneReceiptPerKey(store.cp.receipts, r, found.value);
      }
    }
  }
}
