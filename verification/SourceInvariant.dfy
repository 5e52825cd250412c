/** What every committed state of a source satisfies, and that every commit keeps it. */
module SourceInvariant {
  import opened Options
  import opened Repositories
  import opened Rundown
  import opened Bodies
  import opened Source
  import Cues

  // ---- The retained state and the repositories ----

  /** Every cue carries a number that the counter has passed. */
  ghost predicate NumbersBelow(body: seq<Occurrence>, last: nat) {
    forall i | 0 <= i < |body| && body[i].kind == Cues.Cue :: HasNumber(body[i].id, last)
  }

  ghost predicate HasNumber(id: string, last: nat) {
    exists n | 0 < n <= last :: id == Cues.CueName(n)
  }

  /** A held story: distinct identities, and the items of a fresh one are stored as its body has them. */
  ghost predicate StoryHolds(setup: Setup, e: Effect, s: HeldStory) {
    && Cues.Settled(s.occurrences)
    && NumbersBelow(s.occurrences, e.state.nextCue)
    && (s.isFresh ==>
      e.state.active && e.state.rosterFresh && Carries(e.repos.items, StoryKey(setup.ro, s.id), s.occurrences))
  }

  ghost predicate EffectHolds(setup: Setup, e: Effect) {
    && Mirrors(e.repos, setup.ro, e.state.active, StoryIdsOf(e.state.stories))
    && forall i | 0 <= i < |e.state.stories| :: StoryHolds(setup, e, e.state.stories[i])
  }

  lemma NumbersStayBelow(body: seq<Occurrence>, last: nat, last': nat)
    requires NumbersBelow(body, last) && last <= last'
    ensures NumbersBelow(body, last')
  {
    forall i | 0 <= i < |body| && body[i].kind == Cues.Cue ensures HasNumber(body[i].id, last') {
      var n :| 0 < n <= last && body[i].id == Cues.CueName(n);
    }
  }

  // ---- Rosters ----

  lemma HeldAgainHolds(setup: Setup, e: Effect, id: string)
    requires forall i | 0 <= i < |e.state.stories| :: StoryHolds(setup, e, e.state.stories[i])
    ensures var h := HeldAgain(e.state.stories, id);
      h.id == id && !h.isFresh && Cues.Settled(h.occurrences) && NumbersBelow(h.occurrences, e.state.nextCue)
  {
    var found := FindStory(e.state.stories, id);
    if found.Some? { assert StoryHolds(setup, e, e.state.stories[found.value]); }
  }

  lemma RosterHolds(setup: Setup, e: Effect, roster: Roster, raw: string)
    requires EffectHolds(setup, e) && roster.id in {setup.ro, ""} && ApplyRoster(setup, e, roster, raw).Some?
    ensures EffectHolds(setup, ApplyRoster(setup, e, roster, raw).value)
  {
    assert roster.id == setup.ro by { assert ValidRoster(roster); }
    var ids := StoryIdsOf(e.state.stories);
    ReplacedOrderIsMirrored(e.repos, setup.ro, e.state.active, ids, roster);
    var next := ApplyRoster(setup, e, roster, raw).value;
    forall i | 0 <= i < |roster.stories|
      ensures HeldAgain(e.state.stories, roster.stories[i].id).id == roster.stories[i].id {
      HeldAgainHolds(setup, e, roster.stories[i].id);
    }
    assert StoryIdsOf(next.state.stories) == StoryIds(roster.stories);
    OrdersDoNotMatter(ReplaceRunningOrder(e.repos, roster).value, next.repos, setup.ro, StoryIds(roster.stories));
    forall i | 0 <= i < |next.state.stories| ensures StoryHolds(setup, next, next.state.stories[i]) {
      HeldAgainHolds(setup, e, roster.stories[i].id);
    }
  }

  /** Running-order fields play no part in the mirror. */
  lemma OrdersDoNotMatter(r: Repos, s: Repos, ro: string, ids: seq<string>)
    requires Mirrors(r, ro, true, ids) && s == r.(orders := s.orders)
    requires s.orders.Keys == r.orders.Keys && s.orders[ro].id == ro
    ensures Mirrors(s, ro, true, ids)
  {
    forall i | 0 <= i < |ids| ensures IsMirrored(s, ro, ids[i], i) { assert IsMirrored(r, ro, ids[i], i); }
  }

  // ---- Bodies ----

  lemma FreshBodyHolds(setup: Setup, e: Effect, m: Message, raw: string)
    requires EffectHolds(setup, e) && m.BodyMessage? && m.ro in {setup.ro, ""} && ApplyBody(e, m, raw).Some?
    ensures EffectHolds(setup, ApplyBody(e, m, raw).value)
  {
    assert m.ro == setup.ro;
    var i := FindStory(e.state.stories, m.story).value;
    var next := ApplyBody(e, m, raw).value;
    var ids := StoryIdsOf(e.state.stories);
    assert ids[i] == m.story && StoryHolds(setup, e, e.state.stories[i]);
    assert StoryIdsOf(next.state.stories) == ids;
    StoredBodyMirrors(e.repos, setup.ro, ids, i, m.slug, m.elements.value);
    forall j | 0 <= j < |ids| ensures StoryHolds(setup, next, next.state.stories[j]) {
      if j == i { FreshStoryHolds(setup, e, m, raw, i); } else { OtherStoryHolds(setup, e, m, raw, i, j); }
    }
  }

  lemma FreshStoryHolds(setup: Setup, e: Effect, m: Message, raw: string, i: nat)
    requires EffectHolds(setup, e) && m.BodyMessage? && m.ro == setup.ro && ApplyBody(e, m, raw).Some?
    requires FindStory(e.state.stories, m.story) == Some(i)
    ensures var next := ApplyBody(e, m, raw).value; StoryHolds(setup, next, next.state.stories[i])
  {
    assert StoryHolds(setup, e, e.state.stories[i]);
    BodyIdentitiesHold(e.state, i, m.elements.value);
    NewBodyIsCarried(setup, e, i, m.elements.value);
  }

  lemma OtherStoryHolds(setup: Setup, e: Effect, m: Message, raw: string, i: nat, j: nat)
    requires EffectHolds(setup, e) && m.BodyMessage? && m.ro == setup.ro && ApplyBody(e, m, raw).Some?
    requires FindStory(e.state.stories, m.story) == Some(i) && j < |e.state.stories| && j != i
    ensures var next := ApplyBody(e, m, raw).value; StoryHolds(setup, next, next.state.stories[j])
  {
    assert StoryHolds(setup, e, e.state.stories[i]) && StoryHolds(setup, e, e.state.stories[j]);
    BodyIdentitiesHold(e.state, i, m.elements.value);
    NumbersStayBelow(e.state.stories[j].occurrences, e.state.nextCue,
      BodyIdentities(e.state, i, m.elements.value).value.last);
    OtherStoryIsCarried(setup, e, i, j, m.elements.value);
  }

  lemma NewBodyIsCarried(setup: Setup, e: Effect, i: nat, elements: seq<Element>)
    requires EffectHolds(setup, e) && i < |e.state.stories| && DistinctItems(elements) &&
      BodyIdentities(e.state, i, elements).Some?
    ensures var key := StoryKey(setup.ro, e.state.stories[i].id);
      Carries(BodyItems(e.repos.items, key, elements), key, BodyIdentities(e.state, i, elements).value.body)
  {
    var key := StoryKey(setup.ro, e.state.stories[i].id);
    assert StoryHolds(setup, e, e.state.stories[i]);
    BodyIdentitiesHold(e.state, i, elements);
    StoredBodyIsCarried(e.repos.stories, e.repos.items, key, elements);
    CarriesNamed(BodyItems(e.repos.items, key, elements), key, ParsedBody(elements),
      BodyIdentities(e.state, i, elements).value.body);
  }

  lemma BodyIdentitiesHold(state: State, i: nat, elements: seq<Element>)
    requires i < |state.stories| && DistinctItems(elements) && BodyIdentities(state, i, elements).Some?
    requires Cues.Settled(state.stories[i].occurrences) && NumbersBelow(state.stories[i].occurrences, state.nextCue)
    ensures var named := BodyIdentities(state, i, elements).value; var parsed := ParsedBody(elements);
      && Cues.Settled(named.body) && NumbersBelow(named.body, named.last) && state.nextCue <= named.last
      && |named.body| == |parsed|
      && (forall k | 0 <= k < |parsed| :: named.body[k].kind == parsed[k].kind)
      && (forall k | 0 <= k < |parsed| && parsed[k].kind == Cues.MosItem :: named.body[k] == parsed[k])
  {
    var named, parsed, held := BodyIdentities(state, i, elements).value, ParsedBody(elements), state.stories[i];
    DistinctItemsParse(elements);
    var numbers := Cues.IdentitiesAreSettled(state.nextCue, held.ambiguous, held.occurrences, parsed);
    forall k | 0 <= k < |parsed|
      ensures named.body[k].kind == parsed[k].kind
      ensures named.body[k].kind == Cues.Cue ==> HasNumber(named.body[k].id, named.last)
    {
      assert named.body[k].(id := "").kind == parsed[k].kind;
      if parsed[k].kind == Cues.Cue && Cues.KeepsNumber(held.occurrences, parsed[k], named.body[k].id) {
        var j :| 0 <= j < |held.occurrences| && held.occurrences[j].kind == Cues.Cue &&
          held.occurrences[j].id == named.body[k].id;
        assert HasNumber(held.occurrences[j].id, state.nextCue);
        var n :| 0 < n <= state.nextCue && held.occurrences[j].id == Cues.CueName(n);
      }
    }
  }

  lemma CarriesNamed(items: map<string, Item>, story: string, parsed: seq<Occurrence>, named: seq<Occurrence>)
    requires Carries(items, story, parsed) && |named| == |parsed|
    requires forall k | 0 <= k < |parsed| :: named[k].kind == parsed[k].kind
    requires forall k | 0 <= k < |parsed| && parsed[k].kind == Cues.MosItem :: named[k] == parsed[k]
    ensures Carries(items, story, named)
  {
    forall k | 0 <= k < |named| && named[k].kind == Cues.MosItem ensures IsCarried(items, story, named[k].id, k) {
      assert IsCarried(items, story, parsed[k].id, k);
    }
    forall k | k in items && items[k].storyID == story ensures IsOccurring(k, story, named) {
      var j :| 0 <= j < |parsed| && parsed[j].kind == Cues.MosItem && k == ItemKey(story, parsed[j].id);
      assert named[j].kind == Cues.MosItem && k == ItemKey(story, named[j].id);
    }
  }

  lemma StoredBodyMirrors(r: Repos, ro: string, ids: seq<string>, i: nat, slug: string, elements: seq<Element>)
    requires Mirrors(r, ro, true, ids) && i < |ids| && DistinctItems(elements)
    requires StoreBody(r, ro, ids[i], slug, elements).Some?
    ensures Mirrors(StoreBody(r, ro, ids[i], slug, elements).value, ro, true, ids)
  {
    var s, key := StoreBody(r, ro, ids[i], slug, elements).value, StoryKey(ro, ids[i]);
    assert IsMirrored(r, ro, ids[i], i);
    forall j | 0 <= j < |ids| ensures IsMirrored(s, ro, ids[j], j) {
      assert IsMirrored(r, ro, ids[j], j);
      if j != i && StoryKey(ro, ids[j]) == key { StoryKeyInjective(ro, ids[j], ro, ids[i]); }
    }
    assert s.stories.Keys == r.stories.Keys;
    StoredBodyIsOwned(r.stories, r.items, key, elements);
    SameKeysOwn(r.stories, s.stories, s.items);
  }

  lemma SameKeysOwn(stories: map<string, Story>, stories': map<string, Story>, items: map<string, Item>)
    requires AllOwned(stories, items) && stories.Keys == stories'.Keys
    ensures AllOwned(stories', items)
  {
    forall k | k in items ensures IsOwned(stories', k, items[k]) { assert IsOwned(stories, k, items[k]); }
  }

  /** A story is carried by its own items alone. */
  lemma CarriedByOwnItems(items: map<string, Item>, items': map<string, Item>, story: string, changed: string,
      body: seq<Occurrence>)
    requires Carries(items, story, body) && story != changed
    requires WithoutItemsOf(items', changed) == WithoutItemsOf(items, changed)
    ensures Carries(items', story, body)
  {
    var same := WithoutItemsOf(items, changed);
    forall k | 0 <= k < |body| && body[k].kind == Cues.MosItem ensures IsCarried(items', story, body[k].id, k) {
      assert IsCarried(items, story, body[k].id, k);
      assert ItemKey(story, body[k].id) in WithoutItemsOf(items', changed);
    }
    forall k | k in items' && items'[k].storyID == story ensures IsOccurring(k, story, body) {
      assert k in WithoutItemsOf(items', changed) && k in same;
    }
  }

  lemma OtherStoryIsCarried(setup: Setup, e: Effect, i: nat, j: nat, elements: seq<Element>)
    requires EffectHolds(setup, e) && DistinctItems(elements)
    requires i < |e.state.stories| && j < |e.state.stories| && i != j
    ensures var s := e.state.stories[j]; var key := StoryKey(setup.ro, e.state.stories[i].id);
      s.isFresh ==> Carries(BodyItems(e.repos.items, key, elements), StoryKey(setup.ro, s.id), s.occurrences)
  {
    var s, key := e.state.stories[j], StoryKey(setup.ro, e.state.stories[i].id);
    var ids := StoryIdsOf(e.state.stories);
    assert StoryHolds(setup, e, s) && ids[i] != ids[j];
    if s.isFresh {
      if StoryKey(setup.ro, s.id) == key { StoryKeyInjective(setup.ro, s.id, setup.ro, e.state.stories[i].id); }
      OtherItemsStay(e.repos.stories, e.repos.items, key, elements);
      CarriedByOwnItems(e.repos.items, BodyItems(e.repos.items, key, elements), StoryKey(setup.ro, s.id), key,
        s.occurrences);
    }
  }

  // ---- Status reports ----

  lemma StatusHolds(setup: Setup, e: Effect, m: Message)
    requires EffectHolds(setup, e) && m.StatusMessage? && m.ro in {setup.ro, ""} && setup.ro != "" &&
      ApplyStatus(e.repos, m).Some?
    ensures EffectHolds(setup, Effect(ApplyStatus(e.repos, m).value, e.state))
  {
    var s := ApplyStatus(e.repos, m).value;
    if m.storyID.None? {
      OrderFieldHolds(setup, e, s);
    } else if m.itemID.None? {
      StoryStatusHolds(setup, e, s, NamedStory(e.repos, m.ro, m.storyID.value).value, m.status);
    } else {
      var story := NamedStory(e.repos, m.ro, m.storyID.value).value;
      ItemStatusHolds(setup, e, s, NamedItem(e.repos, story, m.itemID.value).value, m.status);
    }
  }

  lemma StoryStatusMirrors(r: Repos, s: Repos, ro: string, active: bool, ids: seq<string>, key: string, status: string)
    requires Mirrors(r, ro, active, ids) && key in r.stories
    requires s == r.(stories := r.stories[key := r.stories[key].(status := status)])
    ensures Mirrors(s, ro, active, ids)
  {
    assert s.stories.Keys == r.stories.Keys;
    forall i | 0 <= i < |ids| ensures IsMirrored(s, ro, ids[i], i) { assert IsMirrored(r, ro, ids[i], i); }
    SameKeysOwn(r.stories, s.stories, s.items);
  }

  lemma StoryStatusHolds(setup: Setup, e: Effect, s: Repos, key: string, status: string)
    requires EffectHolds(setup, e) && key in e.repos.stories
    requires s == e.repos.(stories := e.repos.stories[key := e.repos.stories[key].(status := status)])
    ensures EffectHolds(setup, Effect(s, e.state))
  {
    StoryStatusMirrors(e.repos, s, setup.ro, e.state.active, StoryIdsOf(e.state.stories), key, status);
    forall i | 0 <= i < |e.state.stories| ensures StoryHolds(setup, Effect(s, e.state), e.state.stories[i]) {
      assert StoryHolds(setup, e, e.state.stories[i]);
    }
  }

  lemma ItemStatusHolds(setup: Setup, e: Effect, s: Repos, key: string, status: string)
    requires EffectHolds(setup, e) && key in e.repos.items
    requires s == e.repos.(items := e.repos.items[key := e.repos.items[key].(status := status)])
    ensures EffectHolds(setup, Effect(s, e.state))
  {
    SameShapeMirrors(e.repos, s, setup.ro, e.state.active, StoryIdsOf(e.state.stories));
    forall i | 0 <= i < |e.state.stories| ensures StoryHolds(setup, Effect(s, e.state), e.state.stories[i]) {
      assert StoryHolds(setup, e, e.state.stories[i]);
      if e.state.stories[i].isFresh {
        SameShapeCarries(e.repos.items, s.items, StoryKey(setup.ro, e.state.stories[i].id),
          e.state.stories[i].occurrences);
      }
    }
  }

  lemma SameShapeMirrors(r: Repos, s: Repos, ro: string, active: bool, ids: seq<string>)
    requires Mirrors(r, ro, active, ids) && s == r.(items := s.items) && s.items.Keys == r.items.Keys
    requires forall k | k in r.items :: s.items[k] == r.items[k].(status := s.items[k].status)
    ensures Mirrors(s, ro, active, ids)
  {
    forall i | 0 <= i < |ids| ensures IsMirrored(s, ro, ids[i], i) { assert IsMirrored(r, ro, ids[i], i); }
    forall k | k in s.items ensures IsOwned(s.stories, k, s.items[k]) { assert IsOwned(r.stories, k, r.items[k]); }
  }

  lemma SameShapeCarries(items: map<string, Item>, items': map<string, Item>, story: string, body: seq<Occurrence>)
    requires Carries(items, story, body) && items.Keys == items'.Keys
    requires forall k | k in items :: items'[k] == items[k].(status := items'[k].status)
    ensures Carries(items', story, body)
  {
    forall k | 0 <= k < |body| && body[k].kind == Cues.MosItem ensures IsCarried(items', story, body[k].id, k) {
      assert IsCarried(items, story, body[k].id, k);
    }
    forall k | k in items' && items'[k].storyID == story ensures IsOccurring(k, story, body) {
      assert items[k].storyID == story;
    }
  }

  // ---- Any message ----

  lemma StateFieldsHold(setup: Setup, e: Effect, state: State)
    requires EffectHolds(setup, e)
    requires state == e.state.(metadata := state.metadata, problem := state.problem, halted := state.halted)
    ensures EffectHolds(setup, Effect(e.repos, state))
  {
    forall i | 0 <= i < |state.stories| ensures StoryHolds(setup, Effect(e.repos, state), state.stories[i]) {
      assert StoryHolds(setup, e, e.state.stories[i]);
    }
  }

  lemma InvalidatedHolds(setup: Setup, e: Effect)
    requires EffectHolds(setup, e)
    ensures EffectHolds(setup, Effect(e.repos, Invalidated(e.state)))
  {
    var state := Invalidated(e.state);
    assert StoryIdsOf(state.stories) == StoryIdsOf(e.state.stories);
    forall i | 0 <= i < |state.stories| ensures StoryHolds(setup, Effect(e.repos, state), state.stories[i]) {
      assert StoryHolds(setup, e, e.state.stories[i]);
    }
  }

  lemma OrderFieldHolds(setup: Setup, e: Effect, repos: Repos)
    requires EffectHolds(setup, e) && setup.ro in e.repos.orders
    requires setup.ro in repos.orders && repos.orders[setup.ro].id == setup.ro
    requires repos == e.repos.(orders := e.repos.orders[setup.ro := repos.orders[setup.ro]])
    ensures EffectHolds(setup, Effect(repos, e.state))
  {
    OrdersDoNotMatter(e.repos, repos, setup.ro, StoryIdsOf(e.state.stories));
    forall i | 0 <= i < |e.state.stories| ensures StoryHolds(setup, Effect(repos, e.state), e.state.stories[i]) {
      assert StoryHolds(setup, e, e.state.stories[i]);
    }
  }

  lemma MessageHolds(setup: Setup, e: Effect, m: Message, raw: string)
    requires !Blank(setup.ro) && EffectHolds(setup, e) && RundownOf(m) in {setup.ro, ""}
    requires ApplyMessage(setup, e, m, raw).Some?
    ensures EffectHolds(setup, ApplyMessage(setup, e, m, raw).value)
  {
    var state := WithMetadata(e.state, m).value;
    var e' := Effect(e.repos, state);
    StateFieldsHold(setup, e, state);
    match m
    case RosterMessage(_, roster, _) => RosterHolds(setup, e', roster, raw);
    case DeleteMessage(ro) =>
      DeletedOrderIsMirrored(e.repos, setup.ro, e.state.active, StoryIdsOf(e.state.stories));
    case BodyMessage(_, _, _, _, _) => FreshBodyHolds(setup, e', m, raw);
    case ReadyMessage(ro, air) =>
      OrderFieldHolds(setup, e', ApplyMessage(setup, e, m, raw).value.repos);
    case MetadataMessage(ro, slug, _) =>
      OrderFieldHolds(setup, e', ApplyMessage(setup, e, m, raw).value.repos);
    case StatusMessage(_, _, _, _) => StatusHolds(setup, e', m);
  }

  // ---- Any commit ----

  /** What is published as complete is what is retained, and all of it is fresh. */
  ghost predicate PublishesTruth(cp: Checkpoint) {
    cp.pending.Some? && cp.pending.value.complete ==>
      var body := cp.pending.value;
      && cp.state.rosterFresh && AllFresh(cp.state.stories) && body.active == cp.state.active
      && (body.active ==> |body.stories| == |cp.state.stories|)
      && (body.active ==> forall i | 0 <= i < |body.stories| ::
        body.stories[i].id == cp.state.stories[i].id && body.stories[i].occurrences == cp.state.stories[i].occurrences)
  }

  /** What every committed checkpoint satisfies. */
  ghost predicate Holds(setup: Setup, c: Committed) {
    && EffectHolds(setup, Effect(c.repos, c.cp.state))
    && ValidCheckpoint(setup, c.cp)
    && PublishesTruth(c.cp)
  }

  /** What the source checks before it commits: the message is about this rundown, and nothing but
      a halt or an acceptance is committed to a halted source. A store that is not enrolled is never
      published, so it is never halted. */
  ghost predicate Admitted(setup: Setup, c: Committed, k: Commit) {
    match k
    case Apply(_, m) => RundownOf(m) in {setup.ro, ""} && !c.cp.state.halted
    case Refuse(_, m) => RundownOf(m) in {setup.ro, ""} && !c.cp.state.halted
    case Retain(_, m) => RundownOf(m) in {setup.ro, ""} && !c.cp.state.halted
    case Conflict => !c.cp.state.halted
    case _ => true
  }

  lemma StartHolds(setup: Setup)
    ensures Holds(setup, START)
  {}

  lemma RevisedHolds(setup: Setup, cp: Checkpoint, repos: Repos, state: State)
    requires EffectHolds(setup, Effect(repos, state)) && Revise(setup, cp, state).Some?
    ensures var next := Revise(setup, cp, state).value;
      && EffectHolds(setup, Effect(repos, next.state)) && PublishesTruth(next)
      && next.revision == cp.revision + 1 && next.accepted == cp.accepted && next.receipts == cp.receipts
      && next.pending.Some? && next.pending.value.revision == next.revision
      && next.state == state.(problem := next.state.problem)
  {
    StateFieldsHold(setup, Effect(repos, state), Revise(setup, cp, state).value.state);
  }

  /** Every commit keeps what every checkpoint satisfies. */
  lemma CommitHolds(setup: Setup, c: Committed, k: Commit)
    requires IsSetup(setup) && Holds(setup, c) && Admitted(setup, c, k) && Next(setup, c, k).Some?
    ensures Holds(setup, Next(setup, c, k).value)
  {
    var e := Effect(c.repos, c.cp.state);
    InvalidatedHolds(setup, e);
    match k
    case Apply(input, m) =>
      MessageHolds(setup, e, m, input.content);
      var applied := ApplyMessage(setup, e, m, input.content).value;
      RevisedHolds(setup, c.cp, applied.repos, applied.state);
    case Halt => StateFieldsHold(setup, e, Next(setup, c, k).value.cp.state);
    case Accept(_) =>
    case Retain(_, _) =>
    case _ => RevisedHolds(setup, c.cp, c.repos, Invalidated(c.cp.state));
  }
}
