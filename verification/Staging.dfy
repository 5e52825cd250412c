/** Detached repositories, and the loops that apply running-order messages to them. */
module Staging {
  import opened Options
  import opened Repositories
  import opened Rundown
  import opened Bodies

  class Staged {
    var orders: map<string, RunningOrder>
    var stories: map<string, Story>
    var items: map<string, Item>

    constructor (r: Repos)
      ensures State() == r
    {
      orders, stories, items := r.orders, r.stories, r.items;
    }

    function State(): Repos
      reads this
    {
      Repos(orders, stories, items)
    }

    /** Deletes a story's items one by one. */
    method DeleteItemsOf(story: string)
      requires Keyed(State())
      modifies this`items
      ensures items == WithoutItemsOf(old(items), story)
    {
      ghost var was := items;
      var listed := List(ItemPlace, (x: Item) => x.storyID == story, items);
      for i := 0 to |listed|
        invariant items == was - (set x | x in listed[..i] :: x.id)
      {
        items := items - {listed[i].id};
        assert listed[..i + 1] == listed[..i] + [listed[i]];
      }
      assert listed[..|listed|] == listed;
      assert forall x | x in listed :: x.storyID == story && x.id in was && was[x.id] == x;
      assert forall k | k in was && was[k].storyID == story :: was[k] in listed && was[k].id == k;
    }

    /** Deletes a running order's stories, each after its items. */
    method ClearOrder(ro: string)
      requires Keyed(State())
      modifies this`stories, this`items
      ensures State() == Rundown.ClearOrder(old(State()), ro)
    {
      ghost var was := State();
      var listed := List(StoryPlace, (x: Story) => x.runningOrderID == ro, stories);
      ghost var gone: set<string> := {};
      for i := 0 to |listed|
        invariant gone == set x | x in listed[..i] :: x.id
        invariant State() == Without(was, gone)
      {
        WithoutOneMore(was, gone, listed[i].id);
        DeleteItemsOf(listed[i].id);
        stories := stories - {listed[i].id};
        assert listed[..i + 1] == listed[..i] + [listed[i]];
        gone := gone + {listed[i].id};
      }
      assert listed[..|listed|] == listed;
      ClearedIsWithout(was, ro, listed);
    }

    method PutOrder(roster: Roster)
      modifies this`orders
      ensures State() == Rundown.PutOrder(old(State()), roster)
    {
      if roster.id in orders {
        orders := orders[roster.id := orders[roster.id].(slug := roster.slug)];
      } else {
        orders := orders[roster.id := RunningOrder(roster.id, "", roster.slug, PENDING, "")];
      }
    }

    /** Creates or updates a story's items in order. */
    method StoreItems(story: string, infos: seq<ItemInfo>)
      modifies this`items
      ensures items == Rundown.StoreItems(old(items), story, infos)
    {
      ghost var was := items;
      for i := 0 to |infos|
        invariant items == Rundown.StoreItems(was, story, infos[..i])
      {
        assert infos[..i + 1][..i] == infos[..i];
        var key := ItemKey(story, infos[i].id);
        var held := if key in items then Some(items[key]) else None;
        items := items[key := StoredItem(held, story, infos[i], i + 1)];
      }
      assert infos[..|infos|] == infos;
    }

    method AddStories(ro: string, infos: seq<StoryInfo>) returns (ok: bool)
      modifies this`stories, this`items
      ensures Rundown.AddStories(old(State()), ro, infos) == if ok then Some(State()) else None
    {
      ghost var was := State();
      for i := 0 to |infos|
        invariant Rundown.AddStories(was, ro, infos[..i]) == Some(State())
      {
        assert infos[..i + 1][..i] == infos[..i];
        var key := StoryKey(ro, infos[i].id);
        if key in stories {
          AddingStops(was, ro, infos, i + 1);
          return false;
        }
        stories := stories[key := Story(key, infos[i].id, ro, i + 1, infos[i].slug, [], PENDING)];
        StoreItems(key, infos[i].items);
      }
      assert infos[..|infos|] == infos;
      ok := true;
    }

    method ReplaceRunningOrder(roster: Roster) returns (ok: bool)
      requires Keyed(State())
      modifies this
      ensures Rundown.ReplaceRunningOrder(old(State()), roster) == if ok then Some(State()) else None
    {
      if !ValidRoster(roster) { return false; }
      ClearOrder(roster.id);
      PutOrder(roster);
      ok := AddStories(roster.id, roster.stories);
    }

    method DeleteRunningOrder(ro: string) returns (ok: bool)
      requires Keyed(State())
      modifies this
      ensures Rundown.DeleteRunningOrder(old(State()), ro) == if ok then Some(State()) else None
    {
      if Blank(ro) { return false; }
      ClearOrder(ro);
      orders := orders - {ro};
      ok := true;
    }

    /** Gives a story's stored items the positions of the body, dropping those it does not name. */
    method Renumber(story: string, order: map<string, int>)
      requires WellKeyed(ItemPlace, items)
      modifies this`items
      ensures items == Renumbered(old(items), story, order)
    {
      ghost var was := items;
      var listed := List(ItemPlace, (x: Item) => x.storyID == story, items);
      for i := 0 to |listed|
        invariant items == Partly(was, story, order, listed[..i])
      {
        assert listed[..i + 1] == listed[..i] + [listed[i]];
        var x := listed[i];
        ListedOnce(was, story, listed, i);
        if x.rawID !in order {
          items := items - {x.id};
        } else {
          items := items[x.id := x.(order := order[x.rawID])];
        }
        PartlyStep(was, story, order, listed[..i], x);
      }
      assert listed[..|listed|] == listed;
      PartlyIsWhole(was, story, order, listed);
    }

    /** Stores a body: the story's items again from nothing, at their positions, and its cues. */
    method StoreBody(ro: string, story: string, slug: string, elements: seq<Element>) returns (ok: bool)
      requires Keyed(State()) && AllOwned(stories, items) && DistinctItems(elements)
      modifies this
      ensures Bodies.StoreBody(old(State()), ro, story, slug, elements) == if ok then Some(State()) else None
    {
      ghost var was := State();
      var key := StoryKey(ro, story);
      DeleteItemsOf(key);
      if Blank(ro) || Blank(story) || ro !in orders { return false; }
      var held := BodyStory(State(), ro, story, slug, elements);
      StoreItems(key, Infos(elements));
      stories := stories[key := held];
      StoredAreKeyed(was, key, elements);
      Renumber(key, Positions(elements));
      ok := true;
    }
  }

  /** The repositories without some stories and their items. */
  function Without(r: Repos, gone: set<string>): Repos {
    Repos(r.orders, r.stories - gone, map k | k in r.items && r.items[k].storyID !in gone :: r.items[k])
  }

  lemma WithoutOneMore(r: Repos, gone: set<string>, story: string)
    requires Keyed(r)
    ensures Keyed(Without(r, gone))
    ensures Without(r, gone + {story}).items == WithoutItemsOf(Without(r, gone).items, story)
    ensures Without(r, gone + {story}).stories == Without(r, gone).stories - {story}
  {}

  lemma ClearedIsWithout(r: Repos, ro: string, listed: seq<Story>)
    requires Keyed(r) && IsStoryListing(r, ro, listed)
    ensures Without(r, set x | x in listed :: x.id) == Rundown.ClearOrder(r, ro)
  {
    var gone := set x | x in listed :: x.id;
    forall k ensures k in gone <==> HeldIn(r, ro, k) {
      if HeldIn(r, ro, k) { assert r.stories[k] in listed && r.stories[k].id == k; }
    }
    assert Without(r, gone).stories == Rundown.ClearOrder(r, ro).stories;
    assert Without(r, gone).items == Rundown.ClearOrder(r, ro).items;
  }

  lemma {:induction false} AddingStops(r: Repos, ro: string, infos: seq<StoryInfo>, n: nat)
    requires n <= |infos| && Rundown.AddStories(r, ro, infos[..n]) == None
    ensures Rundown.AddStories(r, ro, infos) == None
    decreases |infos| - n
  {
    if n < |infos| {
      assert infos[..n + 1][..n] == infos[..n];
      AddingStops(r, ro, infos, n + 1);
    } else {
      assert infos[..n] == infos;
    }
  }

  /** The items with those of `done` already renumbered or dropped. */
  function Partly(items: map<string, Item>, story: string, order: map<string, int>,
      done: seq<Item>): map<string, Item> {
    map k | k in items && (items[k] in done ==> items[k].rawID in order) ::
      if items[k] in done then items[k].(order := order[items[k].rawID]) else items[k]
  }

  lemma ListedOnce(items: map<string, Item>, story: string, listed: seq<Item>, i: nat)
    requires WellKeyed(ItemPlace, items) && IsListing(ItemPlace, (x: Item) => x.storyID == story, items, listed) &&
      i < |listed|
    ensures listed[i] !in listed[..i] && listed[i].id in items && items[listed[i].id] == listed[i]
    ensures forall k | k in items && items[k] == listed[i] :: k == listed[i].id
  {
    assert listed[i] in listed;
    if listed[i] in listed[..i] {
      var j :| 0 <= j < i && listed[j] == listed[i];
      BeforeIsOrder(ItemPlace(listed[i]), ItemPlace(listed[j]), ItemPlace(listed[i]));
    }
  }

  lemma PartlyStep(items: map<string, Item>, story: string, order: map<string, int>, done: seq<Item>, x: Item)
    requires WellKeyed(ItemPlace, items) && x.id in items && items[x.id] == x && x !in done
    ensures Partly(items, story, order, done + [x]) ==
      if x.rawID in order then Partly(items, story, order, done)[x.id := x.(order := order[x.rawID])]
      else Partly(items, story, order, done) - {x.id}
  {
    assert forall k | k in items && items[k] == x :: k == x.id;
  }

  lemma PartlyIsWhole(items: map<string, Item>, story: string, order: map<string, int>, listed: seq<Item>)
    requires WellKeyed(ItemPlace, items) && IsListing(ItemPlace, (x: Item) => x.storyID == story, items, listed)
    ensures Partly(items, story, order, listed) == Renumbered(items, story, order)
  {
    forall k | k in items ensures items[k] in listed <==> items[k].storyID == story {}
  }

  lemma StoredAreKeyed(r: Repos, story: string, elements: seq<Element>)
    requires Keyed(r) && AllOwned(r.stories, r.items) && DistinctItems(elements)
    ensures WellKeyed(ItemPlace, RankedItems(r.items, story, elements))
  {
    RankedItemsAt(r.stories, r.items, story, elements);
    var s := RankedItems(r.items, story, elements);
    forall k | k in s ensures s[k].id == k {
      if IsNewItem(k, story, elements) {
        var i :| 0 <= i < |Infos(elements)| && k == ItemKey(story, Infos(elements)[i].id);
        assert IsRanked(s, story, Infos(elements)[i]);
      }
    }
  }
}
