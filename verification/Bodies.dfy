/** A story body in the repositories: its items stored again from nothing, each at the position
    it has among items and cues. */
module Bodies {
  import opened Options
  import opened Repositories
  import opened Rundown
  import Cues

  type Occurrence = Cues.Occurrence

  /** One parsed element of a body, in body order. */
  datatype Element =
    | ItemElement(info: ItemInfo, payload: string)
    | CueElement(cueType: string, verb: string, target: string, payload: string)

  function ParsedOccurrence(e: Element): Occurrence {
    match e
    case ItemElement(info, payload) => Cues.Occurrence(info.id, Cues.MosItem, "", "", "", payload)
    case CueElement(cueType, verb, target, payload) => Cues.Occurrence("", Cues.Cue, cueType, verb, target, payload)
  }

  function ParsedBody(elements: seq<Element>): seq<Occurrence> {
    seq(|elements|, i requires 0 <= i < |elements| => ParsedOccurrence(elements[i]))
  }

  /** Items are named and no name repeats. */
  predicate DistinctItems(elements: seq<Element>) {
    && (forall i | 0 <= i < |elements| :: elements[i].ItemElement? ==> elements[i].info.id != "")
    && (forall i, j | 0 <= i < j < |elements| && elements[i].ItemElement? && elements[j].ItemElement? ::
      elements[i].info.id != elements[j].info.id)
  }

  lemma DistinctItemsParse(elements: seq<Element>)
    requires DistinctItems(elements)
    ensures Cues.Parsed(ParsedBody(elements))
  {}

  // ---- Effects as functions ----

  /** An item with no slug of its own is shown by its summary. */
  function Shown(info: ItemInfo): ItemInfo {
    if info.slug == "" then info.(slug := info.summary) else info
  }

  function Infos(elements: seq<Element>): seq<ItemInfo> {
    if elements == [] then []
    else
      var n := |elements| - 1;
      Infos(elements[..n]) + if elements[n].ItemElement? then [Shown(elements[n].info)] else []
  }

  function CueTexts(elements: seq<Element>): seq<string> {
    if elements == [] then []
    else
      var n := |elements| - 1;
      CueTexts(elements[..n]) + if elements[n].CueElement? then [elements[n].payload] else []
  }

  /** Position of each item among all elements, from one. */
  function Positions(elements: seq<Element>): map<string, int> {
    if elements == [] then map[]
    else
      var n := |elements| - 1;
      if elements[n].ItemElement? then Positions(elements[..n])[elements[n].info.id := n + 1]
      else Positions(elements[..n])
  }

  function WithoutItemsOf(items: map<string, Item>, story: string): map<string, Item> {
    map k | k in items && items[k].storyID != story :: items[k]
  }

  /** Gives a story's items their positions and drops those that have none. */
  function Renumbered(items: map<string, Item>, story: string, order: map<string, int>): map<string, Item> {
    map k | k in items && (items[k].storyID == story ==> items[k].rawID in order) ::
      if items[k].storyID == story then items[k].(order := order[items[k].rawID]) else items[k]
  }

  function BodyItems(items: map<string, Item>, story: string, elements: seq<Element>): map<string, Item> {
    Renumbered(StoreItems(WithoutItemsOf(items, story), story, Infos(elements)), story, Positions(elements))
  }

  function BodyStory(r: Repos, ro: string, story: string, slug: string, elements: seq<Element>): Story {
    var key := StoryKey(ro, story);
    if key in r.stories then
      var held := r.stories[key];
      held.(rawID := story, runningOrderID := ro, slug := if slug == "" then held.slug else slug,
        cues := CueTexts(elements))
    else
      Story(key, story, ro, 0, slug, CueTexts(elements), PENDING)
  }

  function StoreBody(r: Repos, ro: string, story: string, slug: string, elements: seq<Element>): Option<Repos> {
    if Blank(ro) || Blank(story) || ro !in r.orders then None
    else
      var key := StoryKey(ro, story);
      Some(r.(stories := r.stories[key := BodyStory(r, ro, story, slug, elements)],
              items := BodyItems(r.items, key, elements)))
  }

  // ---- What a stored body is ----

  /** The story's items are exactly the item occurrences of the body, at their positions. */
  ghost predicate Carries(items: map<string, Item>, story: string, body: seq<Occurrence>) {
    && (forall i | 0 <= i < |body| && body[i].kind == Cues.MosItem :: IsCarried(items, story, body[i].id, i))
    && (forall k | k in items && items[k].storyID == story :: IsOccurring(k, story, body))
  }

  ghost predicate IsCarried(items: map<string, Item>, story: string, id: string, i: nat) {
    var k := ItemKey(story, id);
    k in items && items[k].id == k && items[k].storyID == story && items[k].rawID == id && items[k].order == i + 1
  }

  ghost predicate IsOccurring(k: string, story: string, body: seq<Occurrence>) {
    exists i | 0 <= i < |body| :: body[i].kind == Cues.MosItem && k == ItemKey(story, body[i].id)
  }

  function ItemNames(body: seq<Occurrence>): seq<string> {
    if body == [] then []
    else
      var n := |body| - 1;
      ItemNames(body[..n]) + if body[n].kind == Cues.MosItem then [body[n].id] else []
  }

  /** Storing new items adds entries under their keys, and only there. */
  lemma {:induction false} StoreItemsKeys(items: map<string, Item>, story: string, infos: seq<ItemInfo>)
    requires forall i | 0 <= i < |infos| :: ItemKey(story, infos[i].id) !in items
    ensures var r := StoreItems(items, story, infos);
      && (forall k | k in items :: k in r && r[k] == items[k])
      && (forall k | k in r :: k in items || exists i | 0 <= i < |infos| :: k == ItemKey(story, infos[i].id))
  {
    if infos != [] {
      var n := |infos| - 1;
      var init := infos[..n];
      forall i | 0 <= i < n ensures init[i] == infos[i] {}
      StoreItemsKeys(items, story, init);
      forall k | k in StoreItems(items, story, init) && k !in items
        ensures exists i | 0 <= i < |infos| :: k == ItemKey(story, infos[i].id) {
        var i :| 0 <= i < |init| && k == ItemKey(story, init[i].id);
        assert k == ItemKey(story, infos[i].id);
      }
    }
  }

  lemma StoredIsRanked(before: map<string, Item>, story: string, last: ItemInfo, order: int, info: ItemInfo)
    requires ItemKey(story, last.id) !in before && (info == last || IsRanked(before, story, info))
    ensures IsRanked(StoreItem(before, story, last, order), story, info)
  {}

  lemma NewKey(items: map<string, Item>, story: string, infos: seq<ItemInfo>, id: string)
    requires forall i | 0 <= i < |infos| :: infos[i].id != id && ItemKey(story, infos[i].id) !in items
    requires ItemKey(story, id) !in items
    ensures ItemKey(story, id) !in StoreItems(items, story, infos)
  {
    StoreItemsKeys(items, story, infos);
    forall i | 0 <= i < |infos| ensures ItemKey(story, infos[i].id) != ItemKey(story, id) {
      if ItemKey(story, infos[i].id) == ItemKey(story, id) { ItemKeyInjective(story, infos[i].id, story, id); }
    }
  }

  /** Storing distinct new items ranks them in order. */
  lemma {:induction false} StoreItemsRanked(items: map<string, Item>, story: string, infos: seq<ItemInfo>)
    requires forall i, j | 0 <= i < j < |infos| :: infos[i].id != infos[j].id
    requires forall i | 0 <= i < |infos| :: ItemKey(story, infos[i].id) !in items
    ensures forall i | 0 <= i < |infos| :: IsRanked(StoreItems(items, story, infos), story, infos[i])
  {
    if infos != [] {
      var n := |infos| - 1;
      var init := infos[..n];
      forall i | 0 <= i < n ensures init[i] == infos[i] {}
      StoreItemsRanked(items, story, init);
      NewKey(items, story, init, infos[n].id);
      var before := StoreItems(items, story, init);
      forall i | 0 <= i < |infos| ensures IsRanked(StoreItem(before, story, infos[n], n + 1), story, infos[i]) {
        if i < n { assert IsRanked(before, story, init[i]); }
        StoredIsRanked(before, story, infos[n], n + 1, infos[i]);
      }
    }
  }

  /** Storing distinct new items adds one entry each, ranked in order. */
  lemma StoreItemsAt(items: map<string, Item>, story: string, infos: seq<ItemInfo>)
    requires forall i, j | 0 <= i < j < |infos| :: infos[i].id != infos[j].id
    requires forall i | 0 <= i < |infos| :: ItemKey(story, infos[i].id) !in items
    ensures var r := StoreItems(items, story, infos);
      && (forall k | k in items :: k in r && r[k] == items[k])
      && (forall i | 0 <= i < |infos| :: IsRanked(r, story, infos[i]))
      && (forall k | k in r :: k in items || exists i | 0 <= i < |infos| :: k == ItemKey(story, infos[i].id))
  {
    StoreItemsKeys(items, story, infos);
    StoreItemsRanked(items, story, infos);
  }

  lemma {:induction false} InfosAt(elements: seq<Element>)
    ensures forall i | 0 <= i < |elements| && elements[i].ItemElement? :: Shown(elements[i].info) in Infos(elements)
    ensures forall x | x in Infos(elements) ::
      exists i | 0 <= i < |elements| :: elements[i].ItemElement? && Shown(elements[i].info) == x
  {
    if elements != [] {
      var n := |elements| - 1;
      InfosAt(elements[..n]);
      assert forall i | 0 <= i < n :: elements[..n][i] == elements[i];
    }
  }

  lemma {:induction false} InfosDistinct(elements: seq<Element>)
    requires DistinctItems(elements)
    ensures forall i, j | 0 <= i < j < |Infos(elements)| :: Infos(elements)[i].id != Infos(elements)[j].id
  {
    if elements != [] {
      var n := |elements| - 1;
      InfosDistinct(elements[..n]);
      InfosAt(elements[..n]);
      assert forall i | 0 <= i < n :: elements[..n][i] == elements[i];
      forall i | 0 <= i < |Infos(elements[..n])| && elements[n].ItemElement?
        ensures Infos(elements[..n])[i].id != elements[n].info.id
      {
        assert Infos(elements[..n])[i] in Infos(elements[..n]);
      }
    }
  }

  lemma {:induction false} PositionsAt(elements: seq<Element>)
    requires DistinctItems(elements)
    ensures forall i | 0 <= i < |elements| && elements[i].ItemElement? ::
      elements[i].info.id in Positions(elements) && Positions(elements)[elements[i].info.id] == i + 1
    ensures forall id | id in Positions(elements) ::
      exists i | 0 <= i < |elements| :: elements[i].ItemElement? && elements[i].info.id == id
  {
    if elements != [] {
      var n := |elements| - 1;
      PositionsAt(elements[..n]);
      assert forall i | 0 <= i < n :: elements[..n][i] == elements[i];
    }
  }

  /** The stored items before they are renumbered. */
  function RankedItems(items: map<string, Item>, story: string, elements: seq<Element>): map<string, Item> {
    StoreItems(WithoutItemsOf(items, story), story, Infos(elements))
  }

  lemma RankedItemsAt(stories: map<string, Story>, items: map<string, Item>, story: string, elements: seq<Element>)
    requires AllOwned(stories, items) && DistinctItems(elements)
    ensures var r := RankedItems(items, story, elements);
      && (forall k | k in items && items[k].storyID != story :: k in r && r[k] == items[k])
      && (forall i | 0 <= i < |Infos(elements)| :: IsRanked(r, story, Infos(elements)[i]))
      && (forall k | k in r :: 
        (k in items && items[k].storyID != story && r[k] == items[k]) || IsNewItem(k, story, elements))
  {
    var cleared, infos := WithoutItemsOf(items, story), Infos(elements);
    InfosDistinct(elements);
    forall i | 0 <= i < |infos| ensures ItemKey(story, infos[i].id) !in cleared {
      var k := ItemKey(story, infos[i].id);
      if k in cleared {
        assert IsOwned(stories, k, items[k]);
        ItemKeyInjective(story, infos[i].id, items[k].storyID, items[k].rawID);
      }
    }
    StoreItemsAt(cleared, story, infos);
  }

  ghost predicate IsRanked(items: map<string, Item>, story: string, info: ItemInfo) {
    var k := ItemKey(story, info.id);
    k in items && items[k].id == k && items[k].storyID == story && items[k].rawID == info.id
  }

  ghost predicate IsNewItem(k: string, story: string, elements: seq<Element>) {
    exists i | 0 <= i < |Infos(elements)| :: k == ItemKey(story, Infos(elements)[i].id)
  }

  lemma ItemIsCarried(stories: map<string, Story>, items: map<string, Item>, story: string, elements: seq<Element>,
      i: nat)
    requires AllOwned(stories, items) && DistinctItems(elements)
    requires i < |elements| && elements[i].ItemElement?
    ensures IsCarried(BodyItems(items, story, elements), story, elements[i].info.id, i)
  {
    RankedItemsAt(stories, items, story, elements);
    InfosAt(elements);
    PositionsAt(elements);
    var x := Shown(elements[i].info);
    assert x in Infos(elements);
    var j :| 0 <= j < |Infos(elements)| && Infos(elements)[j] == x;
    assert IsRanked(RankedItems(items, story, elements), story, Infos(elements)[j]);
  }

  lemma ItemOccurs(stories: map<string, Story>, items: map<string, Item>, story: string, elements: seq<Element>,
      k: string)
    requires AllOwned(stories, items) && DistinctItems(elements)
    requires k in BodyItems(items, story, elements)
    ensures if BodyItems(items, story, elements)[k].storyID == story then IsOccurring(k, story, ParsedBody(elements))
      else k in items && items[k] == BodyItems(items, story, elements)[k]
  {
    RankedItemsAt(stories, items, story, elements);
    InfosAt(elements);
    if IsNewItem(k, story, elements) {
      var j :| 0 <= j < |Infos(elements)| && k == ItemKey(story, Infos(elements)[j].id);
      assert IsRanked(RankedItems(items, story, elements), story, Infos(elements)[j]);
      assert Infos(elements)[j] in Infos(elements);
      var i :| 0 <= i < |elements| && elements[i].ItemElement? && Shown(elements[i].info) == Infos(elements)[j];
      assert ParsedBody(elements)[i].kind == Cues.MosItem && k == ItemKey(story, ParsedBody(elements)[i].id);
    }
  }

  /** Main result on bodies: after storing, the story carries exactly the body. */
  lemma StoredBodyIsCarried(stories: map<string, Story>, items: map<string, Item>, story: string,
      elements: seq<Element>)
    requires AllOwned(stories, items) && DistinctItems(elements)
    ensures Carries(BodyItems(items, story, elements), story, ParsedBody(elements))
  {
    var body, result := ParsedBody(elements), BodyItems(items, story, elements);
    forall i | 0 <= i < |body| && body[i].kind == Cues.MosItem ensures IsCarried(result, story, body[i].id, i) {
      ItemIsCarried(stories, items, story, elements, i);
    }
    forall k | k in result && result[k].storyID == story ensures IsOccurring(k, story, body) {
      ItemOccurs(stories, items, story, elements, k);
    }
  }

  lemma StoredBodyIsOwned(stories: map<string, Story>, items: map<string, Item>, story: string, elements: seq<Element>)
    requires AllOwned(stories, items) && DistinctItems(elements) && story in stories
    ensures AllOwned(stories, BodyItems(items, story, elements))
  {
    var body, result := ParsedBody(elements), BodyItems(items, story, elements);
    forall k | k in result ensures IsOwned(stories, k, result[k]) {
      ItemOccurs(stories, items, story, elements, k);
      if result[k].storyID == story {
        var i :| 0 <= i < |body| && body[i].kind == Cues.MosItem && k == ItemKey(story, body[i].id);
        ItemIsCarried(stories, items, story, elements, i);
      } else {
        assert IsOwned(stories, k, items[k]);
      }
    }
  }

  /** Storing a body touches no other story's items. */
  lemma OtherItemsStay(stories: map<string, Story>, items: map<string, Item>, story: string, elements: seq<Element>)
    requires AllOwned(stories, items) && DistinctItems(elements)
    ensures WithoutItemsOf(BodyItems(items, story, elements), story) == WithoutItemsOf(items, story)
  {
    RankedItemsAt(stories, items, story, elements);
    var result := BodyItems(items, story, elements);
    forall k | k in result && result[k].storyID != story ensures k in items && items[k] == result[k] {
      ItemOccurs(stories, items, story, elements, k);
    }
  }

  // ---- The sorted listing of a carried body ----

  function CarriedItems(items: map<string, Item>, story: string, body: seq<Occurrence>): seq<Item>
    requires forall i | 0 <= i < |body| && body[i].kind == Cues.MosItem :: ItemKey(story, body[i].id) in items
  {
    if body == [] then []
    else
      var n := |body| - 1;
      CarriedItems(items, story, body[..n]) +
      if body[n].kind == Cues.MosItem then [items[ItemKey(story, body[n].id)]] else []
  }

  lemma {:induction false} CarriedItemsAt(items: map<string, Item>, story: string, body: seq<Occurrence>)
    requires forall i | 0 <= i < |body| && body[i].kind == Cues.MosItem :: ItemKey(story, body[i].id) in items
    requires forall i | 0 <= i < |body| && body[i].kind == Cues.MosItem :: IsCarried(items, story, body[i].id, i)
    ensures var s := CarriedItems(items, story, body);
      && Ascending(ItemPlace, s)
      && (forall x | x in s :: x.storyID == story && x.id in items && items[x.id] == x && x.order <= |body|)
      && (forall i | 0 <= i < |body| && body[i].kind == Cues.MosItem :: items[ItemKey(story, body[i].id)] in s)
      && |s| == |ItemNames(body)| && (forall i | 0 <= i < |s| :: s[i].rawID == ItemNames(body)[i])
  {
    if body != [] {
      var n := |body| - 1;
      forall i | 0 <= i < n && body[..n][i].kind == Cues.MosItem ensures IsCarried(items, story, body[..n][i].id, i) {
        assert IsCarried(items, story, body[i].id, i);
      }
      CarriedItemsAt(items, story, body[..n]);
      var t := CarriedItems(items, story, body[..n]);
      if body[n].kind == Cues.MosItem {
        assert IsCarried(items, story, body[n].id, n);
        forall i | 0 <= i < |t| ensures t[i].order < n + 1 { assert t[i] in t; }
      }
      forall i | 0 <= i < |body| && body[i].kind == Cues.MosItem
        ensures items[ItemKey(story, body[i].id)] in CarriedItems(items, story, body)
      {
        if i < n { assert body[..n][i] == body[i]; }
      }
    }
  }

  /** The repository lists a carried story's items exactly as its body names them, in order. */
  lemma CarriedListing(r: Repos, story: string, body: seq<Occurrence>, s: seq<Item>)
    requires Carries(r.items, story, body) && IsItemListing(r, story, s)
    ensures |s| == |ItemNames(body)| && forall i | 0 <= i < |s| :: s[i].rawID == ItemNames(body)[i]
  {
    forall i | 0 <= i < |body| && body[i].kind == Cues.MosItem ensures ItemKey(story, body[i].id) in r.items {
      assert IsCarried(r.items, story, body[i].id, i);
    }
    CarriedItemsAt(r.items, story, body);
    var t := CarriedItems(r.items, story, body);
    forall k | k in r.items && r.items[k].storyID == story ensures r.items[k] in t {
      assert IsOccurring(k, story, body);
    }
    ListingUnique(ItemPlace, (x: Item) => x.storyID == story, r.items, s, t);
  }
}
