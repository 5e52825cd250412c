/** The map-backed repositories: keys, sorted listings, and the snapshot that a checkpoint keeps. */
module Repositories {
  import opened Options
  import opened Text

  // ---- Storage keys ----

  /** Path-segment escaping, for the two characters that keep a composite key unambiguous. */
  function Escape(s: string): string {
    if s == "" then ""
    else (if s[0] == '/' then "%2F" else if s[0] == '%' then "%25" else [s[0]]) + Escape(s[1..])
  }

  function StoryKey(ro: string, story: string): string {
    Escape(ro) + "/" + Escape(story)
  }

  function ItemKey(storyKey: string, item: string): string {
    storyKey + "/" + Escape(item)
  }

  lemma {:induction false} EscapeHasNoSlash(s: string)
    ensures '/' !in Escape(s)
  {
    if s != "" { EscapeHasNoSlash(s[1..]); }
  }

  lemma {:induction false} EscapeInjective(a: string, b: string)
    requires Escape(a) == Escape(b)
    ensures a == b
  {
    if a != "" && b != "" {
      var p, q := Escape(a[1..]), Escape(b[1..]);
      var e, f := Escape([a[0]]), Escape([b[0]]);
      assert Escape("") == "" && [a[0]][1..] == "" && [b[0]][1..] == "";
      assert Escape(a) == e + p && Escape(b) == f + q;
      assert (e + p)[0] == (f + q)[0];
      assert |e| == |f| && (e + p)[..|e|] == e && (f + q)[..|f|] == f;
      assert (e + p)[|e|..] == p && (f + q)[|f|..] == q;
      EscapeInjective(a[1..], b[1..]);
      assert a == [a[0]] + a[1..] && b == [b[0]] + b[1..];
    }
  }

  /** Two slash-free tails behind a slash decide the whole. */
  lemma TailAfterSlash(p: string, s: string, q: string, t: string)
    requires p + "/" + s == q + "/" + t && '/' !in s && '/' !in t
    ensures p == q && s == t
  {
    var x := p + "/" + s;
    assert x[|p|] == '/' && x[|q|] == '/';
    assert forall i | |p| < i < |x| :: x[i] in s;
    assert forall i | |q| < i < |x| :: x[i] in t;
    assert x[..|p|] == p && x[..|q|] == q && x[|p| + 1..] == s && x[|q| + 1..] == t;
  }

  lemma StoryKeyInjective(ro: string, a: string, ro': string, b: string)
    requires StoryKey(ro, a) == StoryKey(ro', b)
    ensures ro == ro' && a == b
  {
    EscapeHasNoSlash(a);
    EscapeHasNoSlash(b);
    TailAfterSlash(Escape(ro), Escape(a), Escape(ro'), Escape(b));
    EscapeInjective(ro, ro');
    EscapeInjective(a, b);
  }

  lemma ItemKeyInjective(story: string, a: string, story': string, b: string)
    requires ItemKey(story, a) == ItemKey(story', b)
    ensures story == story' && a == b
  {
    EscapeHasNoSlash(a);
    EscapeHasNoSlash(b);
    TailAfterSlash(story, Escape(a), story', Escape(b));
    EscapeInjective(a, b);
  }

  // ---- Sorted listings ----

  datatype Place = Place(order: int, id: string)

  predicate Before(a: Place, b: Place) {
    a.order < b.order || (a.order == b.order && Less(a.id, b.id))
  }

  lemma BeforeIsOrder(a: Place, b: Place, c: Place)
    ensures !Before(a, a)
    ensures a == b || Before(a, b) || Before(b, a)
    ensures Before(a, b) && Before(b, c) ==> Before(a, c)
  {
    LessIsIrreflexive(a.id);
    LessIsTotal(a.id, b.id);
    if Less(a.id, b.id) && Less(b.id, c.id) { LessIsTransitive(a.id, b.id, c.id); }
  }

  ghost predicate Ascending<T>(place: T -> Place, s: seq<T>) {
    forall i, j | 0 <= i < j < |s| :: Before(place(s[i]), place(s[j]))
  }

  /** Every entry is stored under its own identifier. */
  ghost predicate WellKeyed<T>(place: T -> Place, data: map<string, T>) {
    forall k | k in data :: place(data[k]).id == k
  }

  /** `s` is the chosen entries in order. */
  ghost predicate IsListing<T>(place: T -> Place, chosen: T -> bool, data: map<string, T>, s: seq<T>) {
    && Ascending(place, s)
    && (forall x | x in s :: chosen(x) && place(x).id in data && data[place(x).id] == x)
    && (forall k | k in data && chosen(data[k]) :: data[k] in s)
  }

  /** There is one listing of a repository. */
  lemma {:induction false} AscendingUnique<T>(place: T -> Place, s: seq<T>, t: seq<T>)
    requires Ascending(place, s) && Ascending(place, t)
    requires forall x :: x in s <==> x in t
    ensures s == t
    decreases |s|
  {
    assert t != [] ==> t[0] in t;
    if s != [] {
      assert s[0] in t;
      assert t[0] in s;
      var i :| 0 <= i < |t| && t[i] == s[0];
      var j :| 0 <= j < |s| && s[j] == t[0];
      BeforeIsOrder(place(s[0]), place(t[0]), place(s[0]));
      assert s[0] == t[0];
      forall x ensures x in s[1..] <==> x in t[1..] {
        BeforeIsOrder(place(s[0]), place(s[0]), place(s[0]));
        if x in s[1..] { assert x in s && x != s[0]; }
        if x in t[1..] { assert x in t && x != t[0]; }
      }
      AscendingUnique(place, s[1..], t[1..]);
      assert s == [s[0]] + s[1..] && t == [t[0]] + t[1..];
    }
  }

  lemma ListingUnique<T>(place: T -> Place, chosen: T -> bool, data: map<string, T>, s: seq<T>, t: seq<T>)
    requires IsListing(place, chosen, data, s) && IsListing(place, chosen, data, t)
    ensures s == t
  {
    AscendingUnique(place, s, t);
  }

  /** Inserts an entry into a sorted listing. */
  method Insert<T>(place: T -> Place, s: seq<T>, x: T) returns (r: seq<T>)
    requires Ascending(place, s) && forall y | y in s :: place(y) != place(x)
    ensures Ascending(place, r) && |r| == |s| + 1
    ensures forall y :: y in r <==> y in s || y == x
  {
    var i := 0;
    while i < |s| && Before(place(s[i]), place(x))
      invariant 0 <= i <= |s| && forall j | 0 <= j < i :: Before(place(s[j]), place(x))
    {
      i := i + 1;
    }
    if i < |s| { assert s[i] in s; }
    Placed(place, s, i, x);
    r := s[..i] + [x] + s[i..];
  }

  lemma Placed<T>(place: T -> Place, s: seq<T>, i: nat, x: T)
    requires Ascending(place, s) && i <= |s|
    requires forall j | 0 <= j < i :: Before(place(s[j]), place(x))
    requires i < |s| ==> !Before(place(s[i]), place(x)) && place(s[i]) != place(x)
    ensures Ascending(place, s[..i] + [x] + s[i..])
    ensures forall y :: y in s[..i] + [x] + s[i..] <==> y in s || y == x
  {
    assert s == s[..i] + s[i..];
    if i < |s| {
      BeforeIsOrder(place(s[i]), place(x), place(x));
      forall j | i <= j < |s| ensures Before(place(x), place(s[j])) {
        BeforeIsOrder(place(x), place(s[i]), place(s[j]));
      }
    }
  }

  /** Lists the chosen entries; the map itself yields them in any order. */
  method List<T>(place: T -> Place, chosen: T -> bool, data: map<string, T>) returns (s: seq<T>)
    requires WellKeyed(place, data)
    ensures IsListing(place, chosen, data, s)
  {
    s := [];
    var todo := data.Keys;
    while todo != {}
      invariant todo <= data.Keys && Ascending(place, s)
      invariant forall x | x in s :: chosen(x) && place(x).id in data.Keys - todo && data[place(x).id] == x
      invariant forall k | k in data.Keys - todo && chosen(data[k]) :: data[k] in s
      decreases todo
    {
      var k :| k in todo;
      todo := todo - {k};
      if chosen(data[k]) {
        s := Insert(place, s, data[k]);
      }
    }
  }

  // ---- Entities ----

  datatype RunningOrder = RunningOrder(id: string, mosID: string, slug: string, status: string, air: string)

  datatype Story = Story(
    id: string, rawID: string, runningOrderID: string, order: int, slug: string, cues: seq<string>, status: string)

  datatype Item = Item(
    id: string, rawID: string, storyID: string, order: int, slug: string, summary: string, objectID: string,
    status: string)

  datatype Repos = Repos(orders: map<string, RunningOrder>, stories: map<string, Story>, items: map<string, Item>)

  const EMPTY := Repos(map[], map[], map[])

  function OrderPlace(ro: RunningOrder): Place { Place(0, ro.id) }

  function StoryPlace(story: Story): Place { Place(story.order, story.id) }

  function ItemPlace(item: Item): Place { Place(item.order, item.id) }

  ghost predicate Keyed(r: Repos) {
    WellKeyed(OrderPlace, r.orders) && WellKeyed(StoryPlace, r.stories) && WellKeyed(ItemPlace, r.items)
  }

  /** Every story belongs to a held running order and every item to a held story. */
  ghost predicate Closed(r: Repos) {
    && (forall k | k in r.stories :: r.stories[k].runningOrderID in r.orders)
    && (forall k | k in r.items :: r.items[k].storyID in r.stories)
  }

  ghost predicate IsStoryListing(r: Repos, ro: string, s: seq<Story>) {
    IsListing(StoryPlace, (x: Story) => x.runningOrderID == ro, r.stories, s)
  }

  ghost predicate IsItemListing(r: Repos, story: string, s: seq<Item>) {
    IsListing(ItemPlace, (x: Item) => x.storyID == story, r.items, s)
  }

  // ---- Snapshots ----

  datatype Snapshot = Snapshot(orders: seq<RunningOrder>, stories: seq<Story>, items: seq<Item>)

  /** Creates entries one after the other; an identifier that is already held is refused. */
  function CreateAll<T>(place: T -> Place, held: map<string, T>, xs: seq<T>): Option<map<string, T>> {
    if xs == [] then Some(held)
    else
      var n := |xs| - 1;
      match CreateAll(place, held, xs[..n])
      case None => None
      case Some(data) => if place(xs[n]).id in data then None else Some(data[place(xs[n]).id := xs[n]])
  }

  function Restore(snap: Snapshot): Option<Repos> {
    match (CreateAll(OrderPlace, map[], snap.orders), CreateAll(StoryPlace, map[], snap.stories),
      CreateAll(ItemPlace, map[], snap.items))
    case (Some(orders), Some(stories), Some(items)) => Some(Repos(orders, stories, items))
    case _ => None
  }

  function Chosen<T>(chosen: T -> bool, data: map<string, T>): map<string, T> {
    map k | k in data && chosen(data[k]) :: data[k]
  }

  lemma {:induction false} CreatesDistinct<T>(place: T -> Place, held: map<string, T>, xs: seq<T>)
    requires forall i, j | 0 <= i < j < |xs| :: place(xs[i]).id != place(xs[j]).id
    requires forall i | 0 <= i < |xs| :: place(xs[i]).id !in held
    ensures var r := CreateAll(place, held, xs);
      && r.Some?
      && (forall k :: k in r.value <==> k in held || exists i | 0 <= i < |xs| :: place(xs[i]).id == k)
      && (forall k | k in held :: r.value[k] == held[k])
      && (forall i | 0 <= i < |xs| :: place(xs[i]).id in r.value && r.value[place(xs[i]).id] == xs[i])
  {
    if xs != [] {
      var n := |xs| - 1;
      CreatesDistinct(place, held, xs[..n]);
      assert forall i | 0 <= i < n :: xs[..n][i] == xs[i];
    }
  }

  /** Creating a listing adds exactly the chosen entries. */
  lemma CreatesListing<T>(place: T -> Place, held: map<string, T>, chosen: T -> bool, data: map<string, T>, s: seq<T>)
    requires WellKeyed(place, data) && IsListing(place, chosen, data, s)
    requires forall k | k in data && chosen(data[k]) :: k !in held
    ensures CreateAll(place, held, s) == Some(held + Chosen(chosen, data))
  {
    ListingIs(place, chosen, data, s);
    CreatesDistinct(place, held, s);
    CreatedIs(place, held, s, Chosen(chosen, data), CreateAll(place, held, s).value);
  }

  /** A listing names exactly the chosen entries, each once. */
  lemma ListingIs<T>(place: T -> Place, chosen: T -> bool, data: map<string, T>, s: seq<T>)
    requires WellKeyed(place, data) && IsListing(place, chosen, data, s)
    ensures forall i, j | 0 <= i < j < |s| :: place(s[i]).id != place(s[j]).id
    ensures forall i | 0 <= i < |s| :: place(s[i]).id in Chosen(chosen, data) && data[place(s[i]).id] == s[i]
    ensures forall k | k in Chosen(chosen, data) :: exists i | 0 <= i < |s| :: place(s[i]).id == k
  {
    forall i, j | 0 <= i < j < |s| ensures place(s[i]).id != place(s[j]).id {
      assert s[i] in s && s[j] in s;
      BeforeIsOrder(place(s[i]), place(s[j]), place(s[i]));
    }
    forall i | 0 <= i < |s| ensures place(s[i]).id in Chosen(chosen, data) && data[place(s[i]).id] == s[i] {
      assert s[i] in s;
    }
    forall k | k in Chosen(chosen, data) ensures exists i | 0 <= i < |s| :: place(s[i]).id == k {
      var i :| 0 <= i < |s| && s[i] == data[k];
    }
  }

  lemma CreatedIs<T>(place: T -> Place, held: map<string, T>, s: seq<T>, more: map<string, T>, made: map<string, T>)
    requires forall k :: k in made <==> k in held || exists i | 0 <= i < |s| :: place(s[i]).id == k
    requires forall k | k in held :: made[k] == held[k] && k !in more
    requires forall i | 0 <= i < |s| :: place(s[i]).id in made && made[place(s[i]).id] == s[i]
    requires forall i | 0 <= i < |s| :: place(s[i]).id in more && more[place(s[i]).id] == s[i]
    requires forall k | k in more :: exists i | 0 <= i < |s| :: place(s[i]).id == k
    ensures made == held + more
  {}

  lemma {:induction false} CreatesInTurn<T>(place: T -> Place, held: map<string, T>, xs: seq<T>, ys: seq<T>)
    ensures CreateAll(place, held, xs + ys) ==
      match CreateAll(place, held, xs) case None => None case Some(data) => CreateAll(place, data, ys)
  {
    if ys == [] {
      assert xs + ys == xs;
    } else {
      var n := |ys| - 1;
      CreatesInTurn(place, held, xs, ys[..n]);
      assert (xs + ys)[..|xs| + n] == xs + ys[..n];
    }
  }

  /** The stories of some running orders, and the items of some stories. */
  function StoriesIn(r: Repos, orders: set<string>): map<string, Story> {
    map k | k in r.stories && r.stories[k].runningOrderID in orders :: r.stories[k]
  }

  function ItemsIn(r: Repos, stories: set<string>): map<string, Item> {
    map k | k in r.items && r.items[k].storyID in stories :: r.items[k]
  }

  /** What a snapshot can hold: stories of held running orders and items of such stories. */
  function Reachable(r: Repos): Repos {
    var stories := StoriesIn(r, r.orders.Keys);
    Repos(r.orders, stories, ItemsIn(r, stories.Keys))
  }

  lemma ReachableIffClosed(r: Repos)
    ensures Reachable(r) == r <==> Closed(r)
  {
    var reached := Reachable(r);
    if reached == r {
      forall k | k in r.stories ensures r.stories[k].runningOrderID in r.orders { assert k in reached.stories; }
      forall k | k in r.items ensures r.items[k].storyID in r.stories { assert k in reached.items; }
    }
  }

  lemma ItemsAppend(r: Repos, done: set<string>, story: string, all: seq<Item>, more: seq<Item>)
    requires Keyed(r) && story !in done && IsItemListing(r, story, more)
    requires CreateAll(ItemPlace, map[], all) == Some(ItemsIn(r, done))
    ensures CreateAll(ItemPlace, map[], all + more) == Some(ItemsIn(r, done + {story}))
  {
    var chosen := (x: Item) => x.storyID == story;
    ListingAppends(ItemPlace, ItemsIn(r, done), chosen, r.items, all, more);
    assert ItemsIn(r, done) + Chosen(chosen, r.items) == ItemsIn(r, done + {story});
  }

  lemma StoriesAppend(r: Repos, done: set<string>, ro: string, all: seq<Story>, more: seq<Story>)
    requires Keyed(r) && ro !in done && IsStoryListing(r, ro, more)
    requires CreateAll(StoryPlace, map[], all) == Some(StoriesIn(r, done))
    ensures CreateAll(StoryPlace, map[], all + more) == Some(StoriesIn(r, done + {ro}))
  {
    var chosen := (x: Story) => x.runningOrderID == ro;
    ListingAppends(StoryPlace, StoriesIn(r, done), chosen, r.stories, all, more);
    assert StoriesIn(r, done) + Chosen(chosen, r.stories) == StoriesIn(r, done + {ro});
  }

  lemma ListingAppends<T>(place: T -> Place, held: map<string, T>, chosen: T -> bool, data: map<string, T>,
      all: seq<T>, more: seq<T>)
    requires CreateAll(place, map[], all) == Some(held)
    requires WellKeyed(place, data) && IsListing(place, chosen, data, more)
    requires held.Keys !! Chosen(chosen, data).Keys
    ensures CreateAll(place, map[], all + more) == Some(held + Chosen(chosen, data))
  {
    CreatesInTurn(place, map[], all, more);
    CreatesListing(place, held, chosen, data, more);
  }

  lemma ListingIdsDiffer(r: Repos, ro: string, s: seq<Story>, i: nat, j: nat)
    requires IsStoryListing(r, ro, s) && i < j < |s|
    ensures s[i].id != s[j].id
  {
    assert s[i] in s && s[j] in s;
    BeforeIsOrder(StoryPlace(s[i]), StoryPlace(s[j]), StoryPlace(s[i]));
  }

  /** Appends one story's items, in listing order. */
  method AppendItems(r: Repos, story: string, items: seq<Item>, ghost done: set<string>) returns (all: seq<Item>)
    requires Keyed(r) && story !in done
    requires CreateAll(ItemPlace, map[], items) == Some(ItemsIn(r, done))
    ensures CreateAll(ItemPlace, map[], all) == Some(ItemsIn(r, done + {story}))
  {
    var more := List(ItemPlace, (x: Item) => x.storyID == story, r.items);
    ItemsAppend(r, done, story, items, more);
    all := items + more;
  }

  function IdsOf(stories: seq<Story>): set<string> {
    set y | y in stories :: y.id
  }

  lemma OneMoreStory(r: Repos, ro: string, stories: seq<Story>, i: nat)
    requires IsStoryListing(r, ro, stories) && i < |stories|
    ensures IdsOf(stories[..i + 1]) == IdsOf(stories[..i]) + {stories[i].id} && stories[i].id !in IdsOf(stories[..i])
  {
    forall j | 0 <= j < i ensures stories[j].id != stories[i].id { ListingIdsDiffer(r, ro, stories, j, i); }
    assert stories[..i + 1] == stories[..i] + [stories[i]];
  }

  /** Items of the stories of one running order, one sorted listing after the other. */
  method ItemsOf(r: Repos, ghost ro: string, stories: seq<Story>, items: seq<Item>, ghost before: set<string>)
    returns (all: seq<Item>)
    requires Keyed(r) && IsStoryListing(r, ro, stories)
    requires IdsOf(stories) !! before
    requires CreateAll(ItemPlace, map[], items) == Some(ItemsIn(r, before))
    ensures CreateAll(ItemPlace, map[], all) == Some(ItemsIn(r, before + IdsOf(stories)))
  {
    all := items;
    ghost var done := before;
    assert before + IdsOf([]) == before;
    for i := 0 to |stories|
      invariant done == before + IdsOf(stories[..i])
      invariant CreateAll(ItemPlace, map[], all) == Some(ItemsIn(r, done))
    {
      OneMoreStory(r, ro, stories, i);
      assert stories[i].id in IdsOf(stories);
      all := AppendItems(r, stories[i].id, all, done);
      done := done + {stories[i].id};
    }
    assert stories[..|stories|] == stories;
  }

  /** Walks the repositories through their listings. Running orders come in any order. */
  method TakeSnapshot(r: Repos) returns (snap: Snapshot)
    requires Keyed(r)
    ensures Restore(snap) == Some(Reachable(r))
  {
    var orders: seq<RunningOrder>, stories: seq<Story>, items: seq<Item> := [], [], [];
    var todo := r.orders.Keys;
    ghost var held: set<string> := {};
    assert r.orders - r.orders.Keys == map[];
    while todo != {}
      invariant todo <= r.orders.Keys && held == StoriesIn(r, r.orders.Keys - todo).Keys
      invariant CreateAll(OrderPlace, map[], orders) == Some(r.orders - todo)
      invariant CreateAll(StoryPlace, map[], stories) == Some(StoriesIn(r, r.orders.Keys - todo))
      invariant CreateAll(ItemPlace, map[], items) == Some(ItemsIn(r, held))
      decreases todo
    {
      var ro :| ro in todo;
      ghost var done := r.orders.Keys - todo;
      orders := AppendOrder(r, ro, orders, todo);
      var more := List(StoryPlace, (x: Story) => x.runningOrderID == ro, r.stories);
      StoriesAppend(r, done, ro, stories, more);
      items := ItemsOf(r, ro, more, items, held);
      stories := stories + more;
      HeldGrows(r, done, ro, more);
      todo := todo - {ro};
      assert r.orders.Keys - todo == done + {ro};
      held := StoriesIn(r, done + {ro}).Keys;
    }
    assert r.orders - {} == r.orders && r.orders.Keys - {} == r.orders.Keys;
    snap := Snapshot(orders, stories, items);
  }

  method AppendOrder(r: Repos, ro: string, orders: seq<RunningOrder>, ghost todo: set<string>)
    returns (all: seq<RunningOrder>)
    requires Keyed(r) && todo <= r.orders.Keys && ro in todo
    requires CreateAll(OrderPlace, map[], orders) == Some(r.orders - todo)
    ensures CreateAll(OrderPlace, map[], all) == Some(r.orders - (todo - {ro}))
  {
    all := orders + [r.orders[ro]];
    assert all[..|orders|] == orders;
    assert (r.orders - todo)[ro := r.orders[ro]] == r.orders - (todo - {ro});
  }

  /** Creates a snapshot's entities one by one, stopping at the first that is refused. */
  method CreateEach<T>(place: T -> Place, xs: seq<T>) returns (ok: bool, data: map<string, T>)
    ensures CreateAll(place, map[], xs) == if ok then Some(data) else None
  {
    data := map[];
    for i := 0 to |xs|
      invariant CreateAll(place, map[], xs[..i]) == Some(data)
    {
      assert xs[..i + 1][..i] == xs[..i];
      if place(xs[i]).id in data {
        RefusalStays(place, xs, i + 1);
        return false, data;
      }
      data := data[place(xs[i]).id := xs[i]];
    }
    assert xs[..|xs|] == xs;
    ok := true;
  }

  lemma {:induction false} RefusalStays<T>(place: T -> Place, xs: seq<T>, n: nat)
    requires n <= |xs| && CreateAll(place, map[], xs[..n]) == None
    ensures CreateAll(place, map[], xs) == None
  {
    CreatesInTurn(place, map[], xs[..n], xs[n..]);
    assert xs == xs[..n] + xs[n..];
  }

  method RestoreSnapshot(snap: Snapshot) returns (r: Option<Repos>)
    ensures r == Restore(snap)
  {
    var ok, orders := CreateEach(OrderPlace, snap.orders);
    if !ok { return None; }
    var stories: map<string, Story>;
    ok, stories := CreateEach(StoryPlace, snap.stories);
    if !ok { return None; }
    var items: map<string, Item>;
    ok, items := CreateEach(ItemPlace, snap.items);
    if !ok { return None; }
    r := Some(Repos(orders, stories, items));
  }

  lemma HeldGrows(r: Repos, done: set<string>, ro: string, more: seq<Story>)
    requires Keyed(r) && IsStoryListing(r, ro, more)
    ensures StoriesIn(r, done + {ro}).Keys == StoriesIn(r, done).Keys + IdsOf(more)
  {
    forall k | k in StoriesIn(r, {ro}) ensures k in IdsOf(more) { assert r.stories[k] in more; }
  }

  /** Main result: restoring what a snapshot took loses nothing, exactly when nothing is orphaned. */
  lemma SnapshotIsLossless(r: Repos, snap: Snapshot)
    requires Restore(snap) == Some(Reachable(r))
    ensures Restore(snap) == Some(r) <==> Closed(r)
  {
    ReachableIffClosed(r);
  }
}
