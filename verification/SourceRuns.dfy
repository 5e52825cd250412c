/** What holds over whole histories of a source's checkpoint, across any number of restarts. */
module SourceRuns {
  import opened Options
  import opened Repositories
  import opened Rundown
  import opened Bodies
  import opened Source
  import opened SourceInvariant

  /** `cs` are the checkpoints that commits `ks` lead through, from the initialized one. */
  ghost predicate IsHistory(setup: Setup, ks: seq<Commit>, cs: seq<Committed>) {
    && |cs| == |ks| + 1 && cs[0] == START
    && forall i | 0 <= i < |ks| :: IsStep(setup, cs[i], ks[i], cs[i + 1])
  }

  ghost predicate IsStep(setup: Setup, c: Committed, k: Commit, next: Committed) {
    Admitted(setup, c, k) && Next(setup, c, k) == Some(next)
  }

  lemma {:induction false} HistoryHolds(setup: Setup, ks: seq<Commit>, cs: seq<Committed>, n: nat)
    requires IsSetup(setup) && IsHistory(setup, ks, cs) && n < |cs|
    ensures Holds(setup, cs[n])
  {
    if n == 0 {
      StartHolds(setup);
    } else {
      HistoryHolds(setup, ks, cs, n - 1);
      assert IsStep(setup, cs[n - 1], ks[n - 1], cs[n]);
      CommitHolds(setup, cs[n - 1], ks[n - 1]);
    }
  }

  // ---- The retained content ----

  /** Main result: in every committed state the repository's sorted listing is the source's story
      list, and restoring a snapshot of the repositories loses nothing. */
  lemma ListingIsStoryList(setup: Setup, ks: seq<Commit>, cs: seq<Committed>, n: nat, s: seq<Story>, snap: Snapshot)
    requires IsSetup(setup) && IsHistory(setup, ks, cs) && n < |cs|
    requires IsStoryListing(cs[n].repos, setup.ro, s) && Restore(snap) == Some(Reachable(cs[n].repos))
    ensures |s| == |cs[n].cp.state.stories|
    ensures forall i | 0 <= i < |s| :: s[i].rawID == cs[n].cp.state.stories[i].id && s[i].order == i + 1
    ensures Closed(cs[n].repos) && Restore(snap) == Some(cs[n].repos)
  {
    HistoryHolds(setup, ks, cs, n);
    var ids := StoryIdsOf(cs[n].cp.state.stories);
    MirrorListing(cs[n].repos, setup.ro, cs[n].cp.state.active, ids, s);
    MirrorIsClosed(cs[n].repos, setup.ro, cs[n].cp.state.active, ids);
    SnapshotIsLossless(cs[n].repos, snap);
  }

  /** Main result: the stored items of a fresh story, in listing order, are its item occurrences. */
  lemma FreshStoryListsItsItems(setup: Setup, ks: seq<Commit>, cs: seq<Committed>, n: nat, i: nat, s: seq<Item>)
    requires IsSetup(setup) && IsHistory(setup, ks, cs) && n < |cs|
    requires i < |cs[n].cp.state.stories| && cs[n].cp.state.stories[i].isFresh
    requires IsItemListing(cs[n].repos, StoryKey(setup.ro, cs[n].cp.state.stories[i].id), s)
    ensures var names := ItemNames(cs[n].cp.state.stories[i].occurrences);
      |s| == |names| && forall j | 0 <= j < |s| :: s[j].rawID == names[j]
  {
    HistoryHolds(setup, ks, cs, n);
    assert StoryHolds(setup, Effect(cs[n].repos, cs[n].cp.state), cs[n].cp.state.stories[i]);
    CarriedListing(cs[n].repos, StoryKey(setup.ro, cs[n].cp.state.stories[i].id),
      cs[n].cp.state.stories[i].occurrences, s);
  }

  // ---- Completeness is earned ----

  /** Commits that take freshness away or replace what it is about. */
  predicate IsLoss(k: Commit) {
    match k
    case Apply(_, m) => m.RosterMessage? || m.DeleteMessage?
    case Halt => false
    case Accept(_) => false
    case Retain(_, _) => false
    case _ => true
  }

  predicate IsBodyOf(k: Commit, story: string) {
    k.Apply? && k.message.BodyMessage? && k.message.story == story
  }

  ghost predicate HasBodyAfter(ks: seq<Commit>, j: int, story: string) {
    exists i | j < i < |ks| :: 0 <= i && IsBodyOf(ks[i], story)
  }

  /** Commit `j` applied the roster the state has, nothing was lost since, and every fresh story
      had a body applied since. */
  ghost predicate EarnedFrom(ks: seq<Commit>, j: nat, state: State) {
    && j < |ks| && ks[j].Apply? && ks[j].message.RosterMessage?
    && StoryIds(ks[j].message.roster.stories) == StoryIdsOf(state.stories)
    && (forall i | j < i < |ks| :: !IsLoss(ks[i]))
    && (forall s | 0 <= s < |state.stories| && state.stories[s].isFresh :: HasBodyAfter(ks, j, state.stories[s].id))
  }

  ghost predicate Earned(ks: seq<Commit>, state: State) {
    state.rosterFresh && state.active ==> exists j: nat :: EarnedFrom(ks, j, state)
  }

  lemma BodyStillAfter(ks: seq<Commit>, k: Commit, j: int, story: string)
    requires HasBodyAfter(ks, j, story)
    ensures HasBodyAfter(ks + [k], j, story)
  {
    var i :| j < i < |ks| && 0 <= i && IsBodyOf(ks[i], story);
    assert IsBodyOf((ks + [k])[i], story);
  }

  /** A commit that loses nothing keeps what was earned. */
  lemma EarnedStays(ks: seq<Commit>, k: Commit, j: nat, state: State, state': State)
    requires EarnedFrom(ks, j, state) && !IsLoss(k) && StoryIdsOf(state'.stories) == StoryIdsOf(state.stories)
    requires forall s | 0 <= s < |state'.stories| && state'.stories[s].isFresh ::
      state.stories[s].isFresh || IsBodyOf(k, state'.stories[s].id)
    ensures EarnedFrom(ks + [k], j, state')
  {
    forall s | 0 <= s < |state'.stories| && state'.stories[s].isFresh
      ensures HasBodyAfter(ks + [k], j, state'.stories[s].id)
    {
      assert StoryIdsOf(state'.stories)[s] == StoryIdsOf(state.stories)[s];
      if state.stories[s].isFresh {
        BodyStillAfter(ks, k, j, state.stories[s].id);
      } else {
        assert IsBodyOf((ks + [k])[|ks|], state'.stories[s].id);
      }
    }
  }

  lemma RosterEarns(setup: Setup, ks: seq<Commit>, k: Commit, e: Effect)
    requires k.Apply? && k.message.RosterMessage? && EffectHolds(setup, e) && RundownOf(k.message) in {setup.ro, ""}
    requires ApplyMessage(setup, e, k.message, k.input.content).Some?
    ensures EarnedFrom(ks + [k], |ks|, ApplyMessage(setup, e, k.message, k.input.content).value.state)
  {
    var stories := WithMetadata(e.state, k.message).value.stories;
    var infos := k.message.roster.stories;
    var next := ApplyMessage(setup, e, k.message, k.input.content).value.state;
    forall i | 0 <= i < |infos|
      ensures HeldAgain(stories, infos[i].id).id == infos[i].id && !HeldAgain(stories, infos[i].id).isFresh {
      HeldAgainHolds(setup, e, infos[i].id);
    }
    assert StoryIdsOf(next.stories) == StoryIds(infos);
  }

  /** What revising leaves of the state it is given. */
  lemma RevisedState(setup: Setup, cp: Checkpoint, state: State)
    requires Revise(setup, cp, state).Some?
    ensures Revise(setup, cp, state).value.state.(problem := "") == state.(problem := "")
  {}

  /** Losses other than a roster leave no active rundown fresh. */
  lemma LossIsNotFresh(setup: Setup, c: Committed, k: Commit, next: Committed)
    requires IsStep(setup, c, k, next) && IsLoss(k) && !(k.Apply? && k.message.RosterMessage?)
    ensures !(next.cp.state.rosterFresh && next.cp.state.active)
  {
    if k.Apply? {
      RevisedState(setup, c.cp,
        ApplyMessage(setup, Effect(c.repos, c.cp.state), k.message, k.input.content).value.state);
    } else {
      RevisedState(setup, c.cp, Invalidated(c.cp.state));
    }
  }

  lemma MessageKeepsStories(setup: Setup, e: Effect, m: Message, raw: string)
    requires ApplyMessage(setup, e, m, raw).Some? && !m.RosterMessage? && !m.DeleteMessage?
    ensures var state := ApplyMessage(setup, e, m, raw).value.state;
      && state.active == e.state.active && state.rosterFresh == e.state.rosterFresh
      && StoryIdsOf(state.stories) == StoryIdsOf(e.state.stories)
      && forall s | 0 <= s < |state.stories| && state.stories[s].isFresh ::
        e.state.stories[s].isFresh || (m.BodyMessage? && m.story == state.stories[s].id)
  {
    var state := ApplyMessage(setup, e, m, raw).value.state;
    assert |state.stories| == |e.state.stories|;
    assert StoryIdsOf(state.stories) == StoryIdsOf(e.state.stories);
  }

  /** Commits that lose nothing keep the stories, and freshen only the one they bring. */
  lemma KeepsStories(setup: Setup, c: Committed, k: Commit, next: Committed)
    requires IsStep(setup, c, k, next) && !IsLoss(k)
    ensures var state, state' := c.cp.state, next.cp.state;
      && state'.active == state.active && state'.rosterFresh == state.rosterFresh
      && StoryIdsOf(state'.stories) == StoryIdsOf(state.stories)
      && forall s | 0 <= s < |state'.stories| && state'.stories[s].isFresh ::
        state.stories[s].isFresh || IsBodyOf(k, state'.stories[s].id)
  {
    if k.Apply? {
      var e := Effect(c.repos, c.cp.state);
      MessageKeepsStories(setup, e, k.message, k.input.content);
      RevisedState(setup, c.cp, ApplyMessage(setup, e, k.message, k.input.content).value.state);
    }
  }

  lemma RosterStep(setup: Setup, ks: seq<Commit>, c: Committed, k: Commit, next: Committed)
    requires Holds(setup, c) && IsStep(setup, c, k, next) && k.Apply? && k.message.RosterMessage?
    ensures EarnedFrom(ks + [k], |ks|, next.cp.state)
  {
    var e := Effect(c.repos, c.cp.state);
    RosterEarns(setup, ks, k, e);
    RevisedState(setup, c.cp, ApplyMessage(setup, e, k.message, k.input.content).value.state);
  }

  lemma EarnedStep(setup: Setup, ks: seq<Commit>, c: Committed, k: Commit, next: Committed)
    requires Holds(setup, c) && Earned(ks, c.cp.state) && IsStep(setup, c, k, next)
    ensures Earned(ks + [k], next.cp.state)
  {
    if k.Apply? && k.message.RosterMessage? {
      RosterStep(setup, ks, c, k, next);
    } else if IsLoss(k) {
      LossIsNotFresh(setup, c, k, next);
    } else if next.cp.state.rosterFresh && next.cp.state.active {
      KeepsStories(setup, c, k, next);
      var j: nat :| EarnedFrom(ks, j, c.cp.state);
      EarnedStays(ks, k, j, c.cp.state, next.cp.state);
    }
  }

  lemma {:induction false} HistoryEarns(setup: Setup, ks: seq<Commit>, cs: seq<Committed>, n: nat)
    requires IsSetup(setup) && IsHistory(setup, ks, cs) && n < |cs|
    ensures Earned(ks[..n], cs[n].cp.state)
  {
    if n > 0 {
      HistoryEarns(setup, ks, cs, n - 1);
      HistoryHolds(setup, ks, cs, n - 1);
      assert IsStep(setup, cs[n - 1], ks[n - 1], cs[n]);
      EarnedStep(setup, ks[..n - 1], cs[n - 1], ks[n - 1], cs[n]);
      assert ks[..n] == ks[..n - 1] + [ks[n - 1]];
    }
  }

  function PublishedIds(body: Published): seq<string> {
    seq(|body.stories|, i requires 0 <= i < |body.stories| => body.stories[i].id)
  }

  /** Main result: a published body that says active and complete was earned. Since the last loss
      a roster was applied, and after it a body for every one of its stories; and it publishes
      exactly what is retained. */
  lemma CompleteIsEarned(setup: Setup, ks: seq<Commit>, cs: seq<Committed>, n: nat) returns (j: nat)
    requires IsSetup(setup) && IsHistory(setup, ks, cs) && n < |cs|
    requires cs[n].cp.pending.Some? && cs[n].cp.pending.value.complete && cs[n].cp.pending.value.active
    ensures j < n && ks[j].Apply? && ks[j].message.RosterMessage?
    ensures forall i | j < i < n :: !IsLoss(ks[i])
    ensures forall s | s in ks[j].message.roster.stories :: HasBodyAfter(ks[..n], j, s.id)
    ensures PublishedIds(cs[n].cp.pending.value) == StoryIds(ks[j].message.roster.stories)
  {
    HistoryHolds(setup, ks, cs, n);
    HistoryEarns(setup, ks, cs, n);
    j :| EarnedFrom(ks[..n], j, cs[n].cp.state);
    assert forall i | 0 <= i < n :: ks[..n][i] == ks[i];
    EarnedForAll(ks[..n], j, cs[n].cp.state);
    PublishesItsStories(cs[n].cp);
  }

  lemma EarnedForAll(ks: seq<Commit>, j: nat, state: State)
    requires EarnedFrom(ks, j, state) && AllFresh(state.stories)
    ensures forall s | s in ks[j].message.roster.stories :: HasBodyAfter(ks, j, s.id)
  {
    var infos := ks[j].message.roster.stories;
    forall s | s in infos ensures HasBodyAfter(ks, j, s.id) {
      var i :| 0 <= i < |infos| && infos[i] == s;
      assert StoryIds(infos)[i] == StoryIdsOf(state.stories)[i];
      assert state.stories[i] in state.stories;
    }
  }

  lemma PublishesItsStories(cp: Checkpoint)
    requires PublishesTruth(cp) && cp.pending.Some? && cp.pending.value.complete && cp.pending.value.active
    ensures PublishedIds(cp.pending.value) == StoryIdsOf(cp.state.stories)
  {}
}
