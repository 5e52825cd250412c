/** What a roster says is what is stored: every story and every item, with its fields and place. */
module RosterContent {
  import opened Options
  import opened Repositories
  import opened Rundown
  import opened Bodies

  ghost predicate DistinctInfos(infos: seq<ItemInfo>) {
    forall i, j | 0 <= i < j < |infos| :: infos[i].id != infos[j].id
  }

  ghost predicate IsItemStored(items: map<string, Item>, story: string, infos: seq<ItemInfo>, j: nat)
    requires j < |infos|
  {
    var key, info := ItemKey(story, infos[j].id), infos[j];
    key in items && items[key] == Item(key, info.id, story, j + 1, info.slug, info.summary, info.objectID, PENDING)
  }

  ghost predicate IsStoryStored(r: Repos, ro: string, infos: seq<StoryInfo>, i: nat)
    requires i < |infos|
  {
    var key, info := StoryKey(ro, infos[i].id), infos[i];
    && key in r.stories && r.stories[key] == Story(key, info.id, ro, i + 1, info.slug, [], PENDING)
    && forall j | 0 <= j < |info.items| :: IsItemStored(r.items, key, info.items, j)
  }

  lemma {:induction false} ItemsAreStored(items: map<string, Item>, story: string, infos: seq<ItemInfo>)
    requires DistinctInfos(infos) && forall i | 0 <= i < |infos| :: ItemKey(story, infos[i].id) !in items
    ensures forall j | 0 <= j < |infos| :: IsItemStored(StoreItems(items, story, infos), story, infos, j)
  {
    if infos != [] {
      var n := |infos| - 1;
      var init, last := infos[..n], infos[n];
      forall i | 0 <= i < n ensures init[i] == infos[i] {}
      ItemsAreStored(items, story, init);
      NewKey(items, story, init, last.id);
      forall j | 0 <= j < n ensures IsItemStored(StoreItems(items, story, infos), story, infos, j) {
        assert IsItemStored(StoreItems(items, story, init), story, init, j);
      }
    }
  }

  /** Storing one story leaves what is stored of another. */
  lemma OtherStoryStays(r: Repos, ro: string, infos: seq<StoryInfo>, i: nat, info: StoryInfo, order: int)
    requires i < |infos| && IsStoryStored(r, ro, infos, i) && AddStory(r, ro, info, order).Some?
    requires forall j | 0 <= j < |info.items| :: ItemKey(StoryKey(ro, info.id), info.items[j].id) !in r.items
    ensures IsStoryStored(AddStory(r, ro, info, order).value, ro, infos, i)
  {
    var next, key := AddStory(r, ro, info, order).value, StoryKey(ro, infos[i].id);
    StoreItemsKeys(r.items, StoryKey(ro, info.id), info.items);
    forall j | 0 <= j < |infos[i].items| ensures IsItemStored(next.items, key, infos[i].items, j) {
      assert IsItemStored(r.items, key, infos[i].items, j);
    }
  }

  /** No item is stored under the key of a story that is not held. */
  lemma NoItemsYet(r: Repos, story: string, infos: seq<ItemInfo>)
    requires AllOwned(r.stories, r.items) && story !in r.stories
    ensures forall j | 0 <= j < |infos| :: ItemKey(story, infos[j].id) !in r.items
  {
    forall j | 0 <= j < |infos| ensures ItemKey(story, infos[j].id) !in r.items {
      var k := ItemKey(story, infos[j].id);
      if k in r.items {
        assert IsOwned(r.stories, k, r.items[k]);
        ItemKeyInjective(story, infos[j].id, r.items[k].storyID, r.items[k].rawID);
      }
    }
  }

  lemma NewStoryIsStored(r: Repos, ro: string, infos: seq<StoryInfo>, n: nat)
    requires n < |infos| && AllOwned(r.stories, r.items) && StoryKey(ro, infos[n].id) !in r.stories &&
      DistinctInfos(infos[n].items)
    ensures IsStoryStored(AddStory(r, ro, infos[n], n + 1).value, ro, infos, n)
  {
    NoItemsYet(r, StoryKey(ro, infos[n].id), infos[n].items);
    ItemsAreStored(r.items, StoryKey(ro, infos[n].id), infos[n].items);
  }

  lemma StoryOfPrefix(r: Repos, ro: string, infos: seq<StoryInfo>, n: nat, i: nat)
    requires i < n <= |infos| && IsStoryStored(r, ro, infos[..n], i)
    ensures IsStoryStored(r, ro, infos, i)
  {
    assert infos[..n][i] == infos[i];
  }

  lemma LastStoryIsStored(before: Repos, ro: string, infos: seq<StoryInfo>, init: seq<StoryInfo>, n: nat)
    requires n + 1 == |infos| && init == infos[..n]
    requires AllOwned(before.stories, before.items) && DistinctInfos(infos[n].items)
    requires StoryKey(ro, infos[n].id) !in before.stories
    requires forall i | 0 <= i < n :: IsStoryStored(before, ro, init, i)
    ensures var next := AddStory(before, ro, infos[n], n + 1);
      next.Some? && forall i | 0 <= i < |infos| :: IsStoryStored(next.value, ro, infos, i)
  {
    var last := infos[n];
    NewStoryIsStored(before, ro, infos, n);
    NoItemsYet(before, StoryKey(ro, last.id), last.items);
    var next := AddStory(before, ro, last, n + 1).value;
    forall i | 0 <= i < n ensures IsStoryStored(next, ro, infos, i) {
      StoryOfPrefix(before, ro, infos, n, i);
      OtherStoryStays(before, ro, infos, i, last, n + 1);
    }
  }

  lemma {:induction false} StoriesAreStored(r: Repos, ro: string, infos: seq<StoryInfo>)
    requires r.stories == map[] && r.items == map[]
    requires forall i, j | 0 <= i < j < |infos| :: infos[i].id != infos[j].id
    requires forall i | 0 <= i < |infos| :: DistinctInfos(infos[i].items)
    ensures AddStories(r, ro, infos).Some?
    ensures forall i | 0 <= i < |infos| :: IsStoryStored(AddStories(r, ro, infos).value, ro, infos, i)
  {
    AddedStoriesAreMirrored(r, ro, infos);
    if infos != [] {
      var n := |infos| - 1;
      var init, last := infos[..n], infos[n];
      forall i | 0 <= i < n ensures init[i] == infos[i] {}
      StoriesAreStored(r, ro, init);
      AddedStoriesAreMirrored(r, ro, init);
      LastStoryIsStored(AddStories(r, ro, init).value, ro, infos, init, n);
      assert AddStories(r, ro, infos) == AddStory(AddStories(r, ro, init).value, ro, last, n + 1);
    }
  }

  /** Main result: a roster is stored as it is: the slug of the running order, each story with its
      slug at its place, and each item of it with its fields at its place. */
  lemma RosterIsStored(r: Repos, ro: string, active: bool, ids: seq<string>, roster: Roster)
    requires Mirrors(r, ro, active, ids) && roster.id == ro && ValidRoster(roster)
    requires forall i, j | 0 <= i < j < |roster.stories| :: roster.stories[i].id != roster.stories[j].id
    requires forall i | 0 <= i < |roster.stories| :: DistinctInfos(roster.stories[i].items)
    ensures ReplaceRunningOrder(r, roster).Some?
    ensures var next := ReplaceRunningOrder(r, roster).value;
      && ro in next.orders && next.orders[ro].slug == roster.slug && next.orders.Keys == {ro}
      && forall i | 0 <= i < |roster.stories| :: IsStoryStored(next, ro, roster.stories, i)
  {
    ClearedMirrorIsEmpty(r, ro, active, ids);
    var put := PutOrder(ClearOrder(r, ro), roster);
    StoriesAreStored(put, ro, roster.stories);
    AddedStoriesAreMirrored(put, ro, roster.stories);
  }
}
