/** Applying one message to detached repositories, step by step. */
module SourceStaging {
  import opened Options
  import opened Repositories
  import opened Rundown
  import opened Bodies
  import opened Source
  import opened SourceInvariant
  import opened Staging
  import Cues
  import CueSlots

  lemma {:induction false} FirstIsFound(stories: seq<HeldStory>, id: string, j: nat)
    requires j < |stories| && stories[j].id == id && forall k | 0 <= k < j :: stories[k].id != id
    ensures FindStory(stories, id) == Some(j)
  {
    if j > 0 { FirstIsFound(stories[1..], id, j - 1); }
  }

  method IndexOf(stories: seq<HeldStory>, id: string) returns (found: Option<nat>)
    ensures found == FindStory(stories, id)
  {
    for j := 0 to |stories|
      invariant forall k | 0 <= k < j :: stories[k].id != id
    {
      if stories[j].id == id {
        FirstIsFound(stories, id, j);
        return Some(j);
      }
    }
    found := None;
  }

  predicate SourcesOk(items: seq<ItemInfo>) {
    forall i | i in items :: i.sourceOk
  }

  method CheckSources(items: seq<ItemInfo>) returns (ok: bool)
    ensures ok == SourcesOk(items)
  {
    for i := 0 to |items|
      invariant forall k | 0 <= k < i :: items[k].sourceOk
    {
      if !items[i].sourceOk { return false; }
    }
    ok := true;
  }

  /** The stories of a new roster, with what is already held of them. */
  method HoldStories(stories: seq<HeldStory>, roster: Roster) returns (ok: bool, held: seq<HeldStory>)
    ensures ok == RosterAccepted(roster)
    ensures ok ==> held == HeldStories(stories, roster.stories)
  {
    var infos := roster.stories;
    var seen: set<string> := {};
    held := [];
    for i := 0 to |infos|
      invariant seen == set k | 0 <= k < i :: infos[k].id
      invariant forall k, l | 0 <= k < l < i :: infos[k].id != infos[l].id
      invariant forall k | 0 <= k < i :: infos[k].id != "" && SourcesOk(infos[k].items)
      invariant |held| == i && forall k | 0 <= k < i :: held[k] == HeldAgain(stories, infos[k].id)
    {
      if infos[i].id == "" { assert infos[i] in infos; return false, held; }
      if infos[i].id in seen { return false, held; }
      var sources := CheckSources(infos[i].items);
      if !sources { assert infos[i] in infos; return false, held; }
      seen := seen + {infos[i].id};
      var found := IndexOf(stories, infos[i].id);
      match found
      case Some(j) => held := held + [stories[j].(isFresh := false)];
      case None => held := held + [HeldStory(infos[i].id, false, false, [], "")];
    }
    ok := true;
  }

  method ApplyRoster(setup: Setup, staged: Staged, state: State, roster: Roster, raw: string)
    returns (ok: bool, next: State)
    requires EffectHolds(setup, Effect(staged.State(), state))
    modifies staged
    ensures Source.ApplyRoster(setup, old(Effect(staged.State(), state)), roster, raw) ==
      if ok then Some(Effect(staged.State(), next)) else None
  {
    next := state;
    var accepted, stories := HoldStories(state.stories, roster);
    if !accepted { return false, next; }
    MirrorIsClosed(staged.State(), setup.ro, state.active, StoryIdsOf(state.stories));
    ok := staged.ReplaceRunningOrder(roster);
    if !ok { return; }
    ok := roster.id in staged.orders;
    if !ok { return; }
    staged.orders := staged.orders[roster.id := staged.orders[roster.id].(mosID := setup.mosID)];
    next := state.(active := true, rosterFresh := true, stories := stories, rawRoster := raw);
  }

  lemma ParsesOneMore(elements: seq<Element>, i: nat)
    requires i < |elements| && DistinctItems(elements[..i])
    ensures var ids, e := Cues.Ids(ParsedBody(elements[..i])), elements[i];
      && ParsedBody(elements[..i + 1]) == ParsedBody(elements[..i]) + [ParsedOccurrence(e)]
      && Cues.Ids(ParsedBody(elements[..i + 1])) == ids + (if ParsedOccurrence(e).id != "" then {e.info.id} else {})
      && (DistinctItems(elements[..i + 1]) <==> (e.ItemElement? ==> e.info.id != "" && e.info.id !in ids))
  {
    var init, e := elements[..i], elements[i];
    assert elements[..i + 1] == init + [e];
    ParsedAppend(init, e);
    NamesAppend(ParsedBody(init), ParsedOccurrence(e));
    DistinctAppend(init, e);
  }

  lemma ParsedAppend(init: seq<Element>, e: Element)
    ensures ParsedBody(init + [e]) == ParsedBody(init) + [ParsedOccurrence(e)]
  {}

  /** The names of a parsed body are those of its items. */
  lemma NamesAreItems(init: seq<Element>, id: string)
    requires DistinctItems(init)
    ensures id in Cues.Ids(ParsedBody(init)) <==>
      exists k | 0 <= k < |init| :: init[k].ItemElement? && init[k].info.id == id
  {
    var parsed := ParsedBody(init);
    if k :| 0 <= k < |init| && init[k].ItemElement? && init[k].info.id == id { assert parsed[k].id == id; }
    if id in Cues.Ids(parsed) {
      var k :| 0 <= k < |parsed| && parsed[k].id == id && id != "";
      assert init[k].ItemElement?;
    }
  }

  lemma DistinctAppend(init: seq<Element>, e: Element)
    requires DistinctItems(init)
    ensures DistinctItems(init + [e]) <==>
      (e.ItemElement? ==> e.info.id != "" && e.info.id !in Cues.Ids(ParsedBody(init)))
  {
    if e.ItemElement? { NamesAreItems(init, e.info.id); }
    var all := init + [e];
    assert all[|init|] == e && forall k | 0 <= k < |init| :: all[k] == init[k];
  }

  lemma NamesAppend(s: seq<Occurrence>, x: Occurrence)
    ensures Cues.Ids(s + [x]) == Cues.Ids(s) + if x.id != "" then {x.id} else {}
  {
    assert (s + [x])[|s|] == x && forall i | 0 <= i < |s| :: (s + [x])[i] == s[i];
  }

  /** The occurrences of a parsed body, and the names its items use. */
  method ParseBody(elements: seq<Element>) returns (ok: bool, parsed: array<Occurrence>, ids: set<string>)
    ensures ok == DistinctItems(elements) && fresh(parsed)
    ensures ok ==> parsed[..] == ParsedBody(elements) && ids == Cues.Ids(ParsedBody(elements))
  {
    parsed := new Occurrence[|elements|](i => Cues.Occurrence("", Cues.Cue, "", "", "", ""));
    ids := {};
    for i := 0 to |elements|
      invariant DistinctItems(elements[..i]) && parsed[..i] == ParsedBody(elements[..i]) &&
        ids == Cues.Ids(ParsedBody(elements[..i]))
    {
      ParsesOneMore(elements, i);
      if elements[i].ItemElement? {
        if elements[i].info.id == "" || elements[i].info.id in ids {
          PrefixRefuses(elements, i + 1);
          return false, parsed, ids;
        }
        ids := ids + {elements[i].info.id};
      }
      parsed[i] := ParsedOccurrence(elements[i]);
      assert parsed[..i + 1] == parsed[..i] + [parsed[i]];
    }
    ok := true;
    assert elements[..|elements|] == elements && parsed[..|elements|] == parsed[..];
  }

  lemma PrefixRefuses(elements: seq<Element>, n: nat)
    requires n <= |elements| && !DistinctItems(elements[..n])
    ensures !DistinctItems(elements)
  {
    assert forall k | 0 <= k < n :: elements[..n][k] == elements[k];
  }

  /** The names of a body's items and of the cues that kept theirs. */
  method TakenNames(ids: set<string>, slots: array<Occurrence>) returns (taken: set<string>)
    ensures taken == ids + Cues.Ids(slots[..])
  {
    taken := ids;
    for k := 0 to slots.Length
      invariant taken == ids + set j | 0 <= j < k && slots[j].id != "" :: slots[j].id
    {
      if slots[k].id != "" { taken := taken + {slots[k].id}; }
    }
  }

  /** Gives the parsed body its identities: kept where the story had them, new elsewhere. */
  method NameBody(state: State, i: nat, elements: seq<Element>, parsed: array<Occurrence>, ids: set<string>)
    returns (ok: bool, last: nat)
    requires i < |state.stories| && parsed[..] == ParsedBody(elements) && ids == Cues.Ids(ParsedBody(elements))
    modifies parsed
    ensures ok == BodyIdentities(state, i, elements).Some?
    ensures ok ==> BodyIdentities(state, i, elements) == Some(Cues.Allocation(last, parsed[..]))
  {
    if !state.stories[i].ambiguous { CueSlots.RetainCueIds(state.stories[i].occurrences, parsed); }
    var taken := TakenNames(ids, parsed);
    ok, last := CueSlots.AllocateCueIds(state.nextCue, taken, parsed);
  }

  method ApplyBody(setup: Setup, staged: Staged, state: State, m: Message, raw: string) returns (ok: bool, next: State)
    requires EffectHolds(setup, Effect(staged.State(), state)) && m.BodyMessage?
    modifies staged
    ensures Source.ApplyBody(old(Effect(staged.State(), state)), m, raw) ==
      if ok then Some(Effect(staged.State(), next)) else None
  {
    next := state;
    ok := false;
    if !state.active || !state.rosterFresh || !m.explicit { return; }
    var found := IndexOf(state.stories, m.story);
    if found.None? || m.elements.None? { return; }
    var i, elements := found.value, m.elements.value;
    var distinct, parsed, ids := ParseBody(elements);
    if !distinct { return; }
    var named, last := NameBody(state, i, elements, parsed, ids);
    if !named { return; }
    MirrorIsClosed(staged.State(), setup.ro, state.active, StoryIdsOf(state.stories));
    ok := staged.StoreBody(m.ro, m.story, m.slug, elements);
    if !ok { return; }
    var story := state.stories[i].(isFresh := true, ambiguous := false, occurrences := parsed[..], raw := raw);
    next := state.(nextCue := last, stories := state.stories[i := story]);
  }

  /** The first listed story that bears the name; stories stored under their composite keys can only
      bear it as a key. */
  method ScanStories(listing: seq<Story>, wire: string) returns (key: Option<string>)
    requires forall x | x in listing :: x.rawID != wire
    ensures key == if exists x | x in listing :: x.id == wire then Some(wire) else None
  {
    for i := 0 to |listing|
      invariant forall j | 0 <= j < i :: listing[j].id != wire
    {
      assert listing[i] in listing;
      if listing[i].rawID == wire || listing[i].id == wire { return Some(listing[i].id); }
    }
    key := None;
  }

  method ScanItems(listing: seq<Item>, wire: string) returns (key: Option<string>)
    requires forall x | x in listing :: x.rawID != wire
    ensures key == if exists x | x in listing :: x.id == wire then Some(wire) else None
  {
    for i := 0 to |listing|
      invariant forall j | 0 <= j < i :: listing[j].id != wire
    {
      assert listing[i] in listing;
      if listing[i].rawID == wire || listing[i].id == wire { return Some(listing[i].id); }
    }
    key := None;
  }

  lemma StoryUnderItsKey(setup: Setup, e: Effect, x: Story)
    requires EffectHolds(setup, e) && x.id in e.repos.stories && e.repos.stories[x.id] == x
    ensures x.id == StoryKey(x.runningOrderID, x.rawID)
  {
    var ids := StoryIdsOf(e.state.stories);
    var i :| 0 <= i < |ids| && x.id == StoryKey(setup.ro, ids[i]);
    assert IsMirrored(e.repos, setup.ro, ids[i], i);
  }

  lemma ListedStories(setup: Setup, e: Effect, ro: string, wire: string, listing: seq<Story>)
    requires EffectHolds(setup, e) && StoryKey(ro, wire) !in e.repos.stories && IsStoryListing(e.repos, ro, listing)
    ensures forall x | x in listing :: x.rawID != wire
    ensures (exists x | x in listing :: x.id == wire) <==>
      wire in e.repos.stories && e.repos.stories[wire].runningOrderID == ro
  {
    forall x | x in listing ensures x.rawID != wire { StoryUnderItsKey(setup, e, x); }
    MirrorIsClosed(e.repos, setup.ro, e.state.active, StoryIdsOf(e.state.stories));
  }

  lemma ListedItems(setup: Setup, e: Effect, story: string, wire: string, listing: seq<Item>)
    requires EffectHolds(setup, e) && ItemKey(story, wire) !in e.repos.items && IsItemListing(e.repos, story, listing)
    ensures forall x | x in listing :: x.rawID != wire
    ensures (exists x | x in listing :: x.id == wire) <==> wire in e.repos.items && e.repos.items[wire].storyID == story
  {
    forall x | x in listing ensures x.rawID != wire { assert IsOwned(e.repos.stories, x.id, x); }
    MirrorIsClosed(e.repos, setup.ro, e.state.active, StoryIdsOf(e.state.stories));
  }

  /** Scans the listing when nothing is stored under the composite key. */
  method ResolveStory(setup: Setup, staged: Staged, ghost e: Effect, ro: string, wire: string)
    returns (key: Option<string>)
    requires EffectHolds(setup, e) && staged.State() == e.repos
    ensures key == NamedStory(e.repos, ro, wire) && (key.Some? ==> key.value in staged.stories)
  {
    if wire == "" { return None; }
    if StoryKey(ro, wire) in staged.stories { return Some(StoryKey(ro, wire)); }
    MirrorIsClosed(e.repos, setup.ro, e.state.active, StoryIdsOf(e.state.stories));
    var listing := List(StoryPlace, (x: Story) => x.runningOrderID == ro, staged.stories);
    ListedStories(setup, e, ro, wire, listing);
    key := ScanStories(listing, wire);
  }

  method ResolveItem(setup: Setup, staged: Staged, ghost e: Effect, story: string, wire: string)
    returns (key: Option<string>)
    requires EffectHolds(setup, e) && staged.State() == e.repos
    ensures key == NamedItem(e.repos, story, wire) && (key.Some? ==> key.value in staged.items)
  {
    if wire == "" { return None; }
    if ItemKey(story, wire) in staged.items { return Some(ItemKey(story, wire)); }
    MirrorIsClosed(e.repos, setup.ro, e.state.active, StoryIdsOf(e.state.stories));
    var listing := List(ItemPlace, (x: Item) => x.storyID == story, staged.items);
    ListedItems(setup, e, story, wire, listing);
    key := ScanItems(listing, wire);
  }

  method ApplyStatus(setup: Setup, staged: Staged, held: State, m: Message) returns (ok: bool)
    requires EffectHolds(setup, Effect(staged.State(), held)) && m.StatusMessage?
    modifies staged
    ensures Source.ApplyStatus(old(staged.State()), m) == if ok then Some(staged.State()) else None
  {
    if m.storyID.None? {
      if m.ro !in staged.orders { return false; }
      staged.orders := staged.orders[m.ro := staged.orders[m.ro].(status := m.status)];
      return true;
    }
    ghost var e := Effect(staged.State(), held);
    var story := ResolveStory(setup, staged, e, m.ro, m.storyID.value);
    if story.None? { return false; }
    if m.itemID.None? {
      if m.ro !in staged.orders { return false; }
      staged.stories := staged.stories[story.value := staged.stories[story.value].(status := m.status)];
      return true;
    }
    var item := ResolveItem(setup, staged, e, story.value, m.itemID.value);
    if item.None? { return false; }
    staged.items := staged.items[item.value := staged.items[item.value].(status := m.status)];
    ok := true;
  }

  /** Applies a message to detached repositories and a copy of the retained state. */
  method ApplyMessage(setup: Setup, staged: Staged, held: State, m: Message, raw: string)
    returns (ok: bool, next: State)
    requires EffectHolds(setup, Effect(staged.State(), held))
    modifies staged
    ensures Source.ApplyMessage(setup, old(Effect(staged.State(), held)), m, raw) ==
      if ok then Some(Effect(staged.State(), next)) else None
  {
    next := held;
    if m.RosterMessage? || m.MetadataMessage? {
      if m.metadata.None? { return false, next; }
      next := next.(metadata := m.metadata);
    }
    StateFieldsHold(setup, Effect(staged.State(), held), next);
    match m
    case RosterMessage(_, roster, _) => ok, next := ApplyRoster(setup, staged, next, roster, raw);
    case DeleteMessage(ro) =>
      MirrorIsClosed(staged.State(), setup.ro, held.active, StoryIdsOf(held.stories));
      ok := staged.DeleteRunningOrder(ro);
      next := next.(active := false, rosterFresh := true, stories := [], rawRoster := raw, metadata := Some([]));
    case BodyMessage(_, _, _, _, _) => ok, next := ApplyBody(setup, staged, next, m, raw);
    case ReadyMessage(ro, air) =>
      ok := ro in staged.orders;
      if ok { staged.orders := staged.orders[ro := staged.orders[ro].(air := air)]; }
    case MetadataMessage(ro, slug, _) =>
      ok := ro in staged.orders;
      if ok && slug != "" { staged.orders := staged.orders[ro := staged.orders[ro].(slug := slug)]; }
    case StatusMessage(_, _, _, _) => ok := ApplyStatus(setup, staged, next, m);
    case OtherMessage(_) => ok := false;
  }
}
