/** The effects of running-order messages on the repositories. */
module Rundown {
  import opened Options
  import opened Repositories
  import opened Text

  // ---- Parsed messages ----

  datatype ItemInfo = ItemInfo(
    id: string, slug: string, summary: string, objectID: string, mosID: string, sourceOk: bool)

  datatype StoryInfo = StoryInfo(id: string, slug: string, items: seq<ItemInfo>)

  datatype Roster = Roster(id: string, slug: string, stories: seq<StoryInfo>)

  const PENDING := "PENDING"

  predicate Blank(s: string) {
    forall i | 0 <= i < |s| :: IsSpace(s[i])
  }

  predicate ValidItem(i: ItemInfo) {
    !Blank(i.id) && !Blank(i.objectID) && !Blank(i.mosID)
  }

  predicate ValidRoster(roster: Roster) {
    && !Blank(roster.id) && !Blank(roster.slug)
    && forall s | s in roster.stories :: !Blank(s.id) && forall i | i in s.items :: ValidItem(i)
  }

  // ---- Effects as functions ----

  /** A running order without its stories and their items. */
  function ClearOrder(r: Repos, ro: string): Repos {
    r.(stories := map k | k in r.stories && r.stories[k].runningOrderID != ro :: r.stories[k],
       items := map k | k in r.items && !HeldIn(r, ro, r.items[k].storyID) :: r.items[k])
  }

  predicate HeldIn(r: Repos, ro: string, story: string) {
    story in r.stories && r.stories[story].runningOrderID == ro
  }

  /** An item as a message creates it, or as it updates one already held: an omitted summary
      does not erase the held one. */
  function StoredItem(held: Option<Item>, story: string, info: ItemInfo, order: int): Item {
    match held
    case None => Item(ItemKey(story, info.id), info.id, story, order, info.slug, info.summary, info.objectID, PENDING)
    case Some(old_) =>
      old_.(rawID := info.id, storyID := story, order := order, slug := info.slug, objectID := info.objectID,
            summary := if info.summary == "" then old_.summary else info.summary)
  }

  function StoreItem(items: map<string, Item>, story: string, info: ItemInfo, order: int): map<string, Item> {
    var key := ItemKey(story, info.id);
    items[key := StoredItem(if key in items then Some(items[key]) else None, story, info, order)]
  }

  function StoreItems(items: map<string, Item>, story: string, infos: seq<ItemInfo>): map<string, Item> {
    if infos == [] then items
    else
      var n := |infos| - 1;
      StoreItem(StoreItems(items, story, infos[..n]), story, infos[n], n + 1)
  }

  function AddStory(r: Repos, ro: string, info: StoryInfo, order: int): Option<Repos> {
    var key := StoryKey(ro, info.id);
    if key in r.stories then None
    else Some(r.(stories := r.stories[key := Story(key, info.id, ro, order, info.slug, [], PENDING)],
                 items := StoreItems(r.items, key, info.items)))
  }

  function AddStories(r: Repos, ro: string, infos: seq<StoryInfo>): Option<Repos> {
    if infos == [] then Some(r)
    else
      var n := |infos| - 1;
      match AddStories(r, ro, infos[..n])
      case None => None
      case Some(before) => AddStory(before, ro, infos[n], n + 1)
  }

  function PutOrder(r: Repos, roster: Roster): Repos {
    r.(orders := r.orders[roster.id :=
      if roster.id in r.orders then r.orders[roster.id].(slug := roster.slug)
      else RunningOrder(roster.id, "", roster.slug, PENDING, "")])
  }

  /** A whole running order replaced; nothing when the message is invalid. */
  function ReplaceRunningOrder(r: Repos, roster: Roster): Option<Repos> {
    if !ValidRoster(roster) then None
    else AddStories(PutOrder(ClearOrder(r, roster.id), roster), roster.id, roster.stories)
  }

  function DeleteRunningOrder(r: Repos, ro: string): Option<Repos> {
    if Blank(ro) then None
    else
      var cleared := ClearOrder(r, ro);
      Some(cleared.(orders := cleared.orders - {ro}))
  }

  // ---- The repositories as a mirror of the source's story list ----

  /** The repositories hold exactly the listed stories of one running order, numbered in order,
      and items only of those stories, each under its own key. */
  ghost predicate Mirrors(r: Repos, ro: string, active: bool, ids: seq<string>) {
    && r.orders.Keys == (if active then {ro} else {})
    && (active ==> r.orders[ro].id == ro)
    && (!active ==> ids == [])
    && MirrorsStories(r, ro, ids)
  }

  ghost predicate MirrorsStories(r: Repos, ro: string, ids: seq<string>) {
    && (forall i, j | 0 <= i < j < |ids| :: ids[i] != ids[j])
    && (forall k | k in r.stories :: exists i | 0 <= i < |ids| :: k == StoryKey(ro, ids[i]))
    && (forall i | 0 <= i < |ids| :: IsMirrored(r, ro, ids[i], i))
    && AllOwned(r.stories, r.items)
  }

  ghost predicate IsMirrored(r: Repos, ro: string, id: string, i: nat) {
    var key := StoryKey(ro, id);
    && key in r.stories
    && r.stories[key].id == key && r.stories[key].rawID == id
    && r.stories[key].runningOrderID == ro && r.stories[key].order == i + 1
  }

  /** Every item is stored under its own key and belongs to a held story. */
  ghost predicate AllOwned(stories: map<string, Story>, items: map<string, Item>) {
    forall k | k in items :: IsOwned(stories, k, items[k])
  }

  ghost predicate IsOwned(stories: map<string, Story>, k: string, item: Item) {
    item.id == k == ItemKey(item.storyID, item.rawID) && item.storyID in stories
  }

  lemma MirrorIsClosed(r: Repos, ro: string, active: bool, ids: seq<string>)
    requires Mirrors(r, ro, active, ids)
    ensures Closed(r) && Keyed(r)
  {
    forall k | k in r.stories
      ensures r.stories[k].runningOrderID in r.orders && r.stories[k].id == k
    {
      var i :| 0 <= i < |ids| && k == StoryKey(ro, ids[i]);
      assert IsMirrored(r, ro, ids[i], i);
    }
    forall k | k in r.items
      ensures r.items[k].storyID in r.stories && r.items[k].id == k { assert IsOwned(r.stories, k, r.items[k]); }
  }

  /** The sorted listing of the repository is the story list. */
  lemma MirrorListing(r: Repos, ro: string, active: bool, ids: seq<string>, s: seq<Story>)
    requires Mirrors(r, ro, active, ids) && IsStoryListing(r, ro, s)
    ensures |s| == |ids| && forall i | 0 <= i < |s| :: s[i].rawID == ids[i] && s[i].order == i + 1
  {
    forall i | 0 <= i < |ids| ensures IsMirrored(r, ro, ids[i], i) {}
    var t := seq(|ids|, i requires 0 <= i < |ids| => r.stories[StoryKey(ro, ids[i])]);
    forall x | x in t ensures x.runningOrderID == ro && x.id in r.stories && r.stories[x.id] == x {
      var i :| 0 <= i < |t| && t[i] == x;
      assert IsMirrored(r, ro, ids[i], i);
    }
    forall k | k in r.stories ensures r.stories[k] in t {
      var i :| 0 <= i < |ids| && k == StoryKey(ro, ids[i]);
      assert t[i] == r.stories[k];
    }
    forall i, j | 0 <= i < j < |t| ensures Before(StoryPlace(t[i]), StoryPlace(t[j])) {
      assert IsMirrored(r, ro, ids[i], i) && IsMirrored(r, ro, ids[j], j);
    }
    ListingUnique(StoryPlace, (x: Story) => x.runningOrderID == ro, r.stories, s, t);
    forall i | 0 <= i < |s| ensures s[i].rawID == ids[i] && s[i].order == i + 1 {
      assert IsMirrored(r, ro, ids[i], i);
    }
  }

  lemma ClearedMirrorIsEmpty(r: Repos, ro: string, active: bool, ids: seq<string>)
    requires Mirrors(r, ro, active, ids)
    ensures ClearOrder(r, ro).stories == map[] && ClearOrder(r, ro).items == map[]
  {
    forall k | k in r.stories ensures r.stories[k].runningOrderID == ro {
      var i :| 0 <= i < |ids| && k == StoryKey(ro, ids[i]);
      assert IsMirrored(r, ro, ids[i], i);
    }
    forall k | k in r.items ensures HeldIn(r, ro, r.items[k].storyID) { assert IsOwned(r.stories, k, r.items[k]); }
  }

  // ---- Storing items keeps ownership ----

  lemma {:induction false} StoredItemsAreOwned(stories: map<string, Story>, items: map<string, Item>, story: string,
      infos: seq<ItemInfo>)
    requires story in stories && AllOwned(stories, items)
    ensures AllOwned(stories, StoreItems(items, story, infos))
  {
    if infos != [] {
      var n := |infos| - 1;
      StoredItemsAreOwned(stories, items, story, infos[..n]);
      var before, after := StoreItems(items, story, infos[..n]), StoreItems(items, story, infos);
      forall k | k in after ensures IsOwned(stories, k, after[k]) {
        if k in before { assert IsOwned(stories, k, before[k]); }
      }
    }
  }

  lemma AddedStoryIsMirrored(r: Repos, ro: string, ids: seq<string>, info: StoryInfo)
    requires MirrorsStories(r, ro, ids) && info.id !in ids
    ensures var added := AddStory(r, ro, info, |ids| + 1);
      added.Some? && MirrorsStories(added.value, ro, ids + [info.id]) && added.value.orders == r.orders
  {
    var key := StoryKey(ro, info.id);
    if key in r.stories {
      var i :| 0 <= i < |ids| && key == StoryKey(ro, ids[i]);
      StoryKeyInjective(ro, info.id, ro, ids[i]);
    }
    var added := AddStory(r, ro, info, |ids| + 1).value;
    forall k | k in r.items ensures IsOwned(added.stories, k, r.items[k]) { assert IsOwned(r.stories, k, r.items[k]); }
    StoredItemsAreOwned(added.stories, r.items, key, info.items);
    var ids' := ids + [info.id];
    forall i | 0 <= i < |ids'| ensures IsMirrored(added, ro, ids'[i], i) {
      if i < |ids| { assert IsMirrored(r, ro, ids[i], i); }
    }
    forall k | k in added.stories ensures exists i | 0 <= i < |ids'| :: k == StoryKey(ro, ids'[i]) {
      if k == key {
        assert k == StoryKey(ro, ids'[|ids|]);
      } else {
        var i :| 0 <= i < |ids| && k == StoryKey(ro, ids[i]);
        assert k == StoryKey(ro, ids'[i]);
      }
    }
  }

  function StoryIds(infos: seq<StoryInfo>): seq<string> {
    seq(|infos|, i requires 0 <= i < |infos| => infos[i].id)
  }

  lemma {:induction false} AddedStoriesAreMirrored(r: Repos, ro: string, infos: seq<StoryInfo>)
    requires r.stories == map[] && r.items == map[]
    requires forall i, j | 0 <= i < j < |infos| :: infos[i].id != infos[j].id
    ensures var added := AddStories(r, ro, infos);
      added.Some? && MirrorsStories(added.value, ro, StoryIds(infos)) && added.value.orders == r.orders
  {
    if infos != [] {
      var n := |infos| - 1;
      AddedStoriesAreMirrored(r, ro, infos[..n]);
      var ids := StoryIds(infos[..n]);
      assert StoryIds(infos) == ids + [infos[n].id];
      AddedStoryIsMirrored(AddStories(r, ro, infos[..n]).value, ro, ids, infos[n]);
    }
  }

  /** A roster of distinct stories always goes in, and leaves a mirror of itself. */
  lemma ReplacedOrderIsMirrored(r: Repos, ro: string, active: bool, ids: seq<string>, roster: Roster)
    requires Mirrors(r, ro, active, ids) && roster.id == ro && ValidRoster(roster)
    requires forall i, j | 0 <= i < j < |roster.stories| :: roster.stories[i].id != roster.stories[j].id
    ensures var replaced := ReplaceRunningOrder(r, roster);
      replaced.Some? && Mirrors(replaced.value, ro, true, StoryIds(roster.stories))
  {
    ClearedMirrorIsEmpty(r, ro, active, ids);
    AddedStoriesAreMirrored(PutOrder(ClearOrder(r, ro), roster), ro, roster.stories);
  }

  lemma DeletedOrderIsMirrored(r: Repos, ro: string, active: bool, ids: seq<string>)
    requires Mirrors(r, ro, active, ids) && !Blank(ro)
    ensures Mirrors(DeleteRunningOrder(r, ro).value, ro, false, [])
  {
    ClearedMirrorIsEmpty(r, ro, active, ids);
  }
}
