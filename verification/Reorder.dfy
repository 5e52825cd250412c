/** Moving and swapping stories of a running order. */
module Reorder {
  import opened Options
  import opened Repositories
  import opened Text

  ghost predicate Lists(stories: map<string, Story>, ro: string, s: seq<Story>) {
    IsStoryListing(Repos(map[], stories, map[]), ro, s)
  }

  // ---- Names on the wire ----

  predicate IsNamed(story: Story, wire: string) {
    story.rawID == wire || story.id == wire
  }

  function FirstNamed(s: seq<Story>, wire: string): (r: Option<Story>)
    ensures r.Some? ==> r.value in s && IsNamed(r.value, wire)
    ensures r.None? ==> forall x | x in s :: !IsNamed(x, wire)
  {
    if s == [] then None
    else if IsNamed(s[0], wire) then Some(s[0])
    else FirstNamed(s[1..], wire)
  }

  /** The story a name stands for: the one under its composite key, or else the first listed one
      that bears the name. */
  function Resolved(stories: map<string, Story>, ro: string, listing: seq<Story>, wire: string): Option<Story> {
    if wire == "" then None
    else if StoryKey(ro, wire) in stories then Some(stories[StoryKey(ro, wire)])
    else FirstNamed(listing, wire)
  }

  ghost predicate AllResolve(stories: map<string, Story>, ro: string, listing: seq<Story>, wires: seq<string>) {
    forall i | 0 <= i < |wires| :: Resolved(stories, ro, listing, wires[i]).Some?
  }

  /** The keys of the stories named. */
  function KeysOf(stories: map<string, Story>, ro: string, listing: seq<Story>, wires: seq<string>): set<string> {
    set i | 0 <= i < |wires| && Resolved(stories, ro, listing, wires[i]).Some? ::
      Resolved(stories, ro, listing, wires[i]).value.id
  }

  // ---- The new order ----

  /** The stories inside, or outside, a set of keys, in order. */
  function Sift(s: seq<Story>, keys: set<string>, inside: bool): seq<Story> {
    if s == [] then []
    else
      var n := |s| - 1;
      Sift(s[..n], keys, inside) + if (s[n].id in keys) == inside then [s[n]] else []
  }

  predicate AllSide(s: seq<Story>, keys: set<string>, inside: bool) {
    forall x | x in s :: (x.id in keys) == inside
  }

  function Find(s: seq<Story>, key: string): (i: nat)
    ensures i <= |s| && (i < |s| ==> s[i].id == key) && forall j | 0 <= j < i :: s[j].id != key
  {
    if s == [] then 0
    else if s[0].id == key then 0
    else 1 + Find(s[1..], key)
  }

  function Slot(rest: seq<Story>, target: Option<string>): (i: nat)
    ensures i <= |rest|
  {
    if target.None? then |rest| else Find(rest, target.value)
  }

  /** The moved block, directly before the target or at the end. */
  function Moved(s: seq<Story>, keys: set<string>, target: Option<string>): seq<Story> {
    var rest := Sift(s, keys, false);
    var i := Slot(rest, target);
    rest[..i] + Sift(s, keys, true) + rest[i..]
  }

  function Numbered(s: seq<Story>): seq<Story> {
    seq(|s|, i requires 0 <= i < |s| => s[i].(order := i + 1))
  }

  lemma {:induction false} SiftJoins(s: seq<Story>, t: seq<Story>, keys: set<string>, inside: bool)
    ensures Sift(s + t, keys, inside) == Sift(s, keys, inside) + Sift(t, keys, inside)
  {
    if t == [] {
      assert s + t == s;
    } else {
      var n := |t| - 1;
      assert (s + t)[..|s| + n] == s + t[..n];
      SiftJoins(s, t[..n], keys, inside);
    }
  }

  lemma {:induction false} SiftSides(s: seq<Story>, keys: set<string>, inside: bool)
    ensures AllSide(Sift(s, keys, inside), keys, inside)
  {
    if s != [] { SiftSides(s[..|s| - 1], keys, inside); }
  }

  lemma SiftLast(s: seq<Story>, keys: set<string>, inside: bool)
    requires s != []
    ensures var one := multiset{s[|s| - 1]};
      multiset(Sift(s, keys, inside)) ==
        multiset(Sift(s[..|s| - 1], keys, inside)) + if (s[|s| - 1].id in keys) == inside then one else multiset{}
  {}

  lemma CountsGrow(a: multiset<Story>, b: multiset<Story>, c: multiset<Story>)
    ensures a + c + (b + multiset{}) == (a + b) + c && a + multiset{} + (b + c) == (a + b) + c
  {}

  lemma LastCounts(s: seq<Story>)
    requires s != []
    ensures multiset(s) == multiset(s[..|s| - 1]) + multiset{s[|s| - 1]}
  {
    assert s == s[..|s| - 1] + [s[|s| - 1]];
  }

  /** Sifting splits a listing. */
  lemma {:induction false} SiftCounts(s: seq<Story>, keys: set<string>)
    ensures multiset(Sift(s, keys, true)) + multiset(Sift(s, keys, false)) == multiset(s)
  {
    if s != [] {
      var init := s[..|s| - 1];
      SiftCounts(init, keys);
      SiftLast(s, keys, true);
      SiftLast(s, keys, false);
      LastCounts(s);
      CountsGrow(multiset(Sift(init, keys, true)), multiset(Sift(init, keys, false)), multiset{s[|s| - 1]});
    }
  }

  lemma {:induction false} SiftOfSifted(s: seq<Story>, keys: set<string>, inside: bool)
    requires AllSide(s, keys, inside)
    ensures Sift(s, keys, inside) == s && Sift(s, keys, !inside) == []
  {
    if s != [] {
      var n := |s| - 1;
      assert s == s[..n] + [s[n]];
      SiftOfSifted(s[..n], keys, inside);
    }
  }

  lemma SiftJoinsThree(a: seq<Story>, b: seq<Story>, c: seq<Story>, keys: set<string>, inside: bool)
    ensures Sift(a + b + c, keys, inside) == Sift(a, keys, inside) + Sift(b, keys, inside) + Sift(c, keys, inside)
  {
    SiftJoins(a + b, c, keys, inside);
    SiftJoins(a, b, keys, inside);
  }

  lemma Empties(a: seq<Story>, b: seq<Story>, c: seq<Story>)
    ensures [] + b + [] == b && a + [] + c == a + c
  {}

  lemma BlockSifts(a: seq<Story>, block: seq<Story>, c: seq<Story>, keys: set<string>)
    requires AllSide(a, keys, false) && AllSide(block, keys, true) && AllSide(c, keys, false)
    ensures Sift(a + block + c, keys, true) == block && Sift(a + block + c, keys, false) == a + c
  {
    SiftJoinsThree(a, block, c, keys, true);
    SiftJoinsThree(a, block, c, keys, false);
    SiftOfSifted(block, keys, true);
    SiftOfSifted(a, keys, false);
    SiftOfSifted(c, keys, false);
    Empties(a, block, c);
  }

  lemma BlockPermutes(rest: seq<Story>, block: seq<Story>, i: nat)
    requires i <= |rest|
    ensures multiset(rest[..i] + block + rest[i..]) == multiset(block) + multiset(rest)
  {
    assert rest == rest[..i] + rest[i..];
  }

  lemma BlockAt(rest: seq<Story>, block: seq<Story>, i: nat)
    requires i <= |rest|
    ensures var r := rest[..i] + block + rest[i..];
      i + |block| <= |r| && r[i..i + |block|] == block &&
        (i + |block| < |r| ==> i < |rest| && r[i + |block|] == rest[i])
  {}

  /** Main result: a move keeps the order among the moved stories and among the others. */
  lemma MovedKeepsOrder(s: seq<Story>, keys: set<string>, target: Option<string>)
    ensures Sift(Moved(s, keys, target), keys, true) == Sift(s, keys, true)
    ensures Sift(Moved(s, keys, target), keys, false) == Sift(s, keys, false)
  {
    var rest, block := Sift(s, keys, false), Sift(s, keys, true);
    var i := Slot(rest, target);
    SiftSides(s, keys, true);
    SiftSides(s, keys, false);
    BlockSifts(rest[..i], block, rest[i..], keys);
    assert rest[..i] + rest[i..] == rest;
  }

  /** Main result: a move is a permutation. */
  lemma MovedIsPermutation(s: seq<Story>, keys: set<string>, target: Option<string>)
    ensures multiset(Moved(s, keys, target)) == multiset(s)
  {
    SiftCounts(s, keys);
    BlockPermutes(Sift(s, keys, false), Sift(s, keys, true), Slot(Sift(s, keys, false), target));
  }

  /** Main result: the moved stories stand together directly before the target, or at the end when
      the target is absent or moves itself. */
  lemma MovedIsBlock(s: seq<Story>, keys: set<string>, target: Option<string>) returns (i: nat)
    ensures var r, n := Moved(s, keys, target), |Sift(s, keys, true)|;
      && i + n <= |r| && r[i..i + n] == Sift(s, keys, true)
      && (i + n < |r| ==> target == Some(r[i + n].id))
      && (i + n == |r| ==> target.None? || target.value in keys || forall x | x in s :: x.id != target.value)
  {
    var rest, block := Sift(s, keys, false), Sift(s, keys, true);
    i := Slot(rest, target);
    BlockAt(rest, block, i);
    if i == |rest| && target.Some? && target.value !in keys { NotListed(s, keys, target.value); }
  }

  lemma NotListed(s: seq<Story>, keys: set<string>, target: string)
    requires target !in keys && Find(Sift(s, keys, false), target) == |Sift(s, keys, false)|
    ensures forall x | x in s :: x.id != target
  {
    var rest, block := Sift(s, keys, false), Sift(s, keys, true);
    SiftSides(s, keys, true);
    SiftCounts(s, keys);
    forall x | x in s ensures x.id != target {
      assert x in multiset(s) && x in multiset(block) + multiset(rest);
      assert x in block || x in rest;
    }
  }

  // ---- Storing the new order ----

  /** The first `n` stories of the new order are stored with their numbers. */
  function Renumbered(stories: map<string, Story>, s: seq<Story>): map<string, Story> {
    if s == [] then stories
    else
      var n := |s| - 1;
      Renumbered(stories, s[..n])[s[n].id := s[n].(order := n + 1)]
  }

  ghost predicate DistinctIds(s: seq<Story>) {
    forall i, j | 0 <= i < j < |s| :: s[i].id != s[j].id
  }

  ghost predicate IsNumberedAt(stories: map<string, Story>, s: seq<Story>, i: nat)
    requires i < |s|
  {
    s[i].id in stories && stories[s[i].id] == s[i].(order := i + 1)
  }

  lemma {:induction false} OthersStay(stories: map<string, Story>, s: seq<Story>)
    ensures var r := Renumbered(stories, s);
      && (forall k | k in r && (forall x | x in s :: x.id != k) :: k in stories && r[k] == stories[k])
      && (forall k | k in stories :: k in r)
  {
    if s != [] {
      var n := |s| - 1;
      OthersStay(stories, s[..n]);
      assert s == s[..n] + [s[n]];
    }
  }

  lemma {:induction false} RenumberedAt(stories: map<string, Story>, s: seq<Story>)
    requires DistinctIds(s)
    ensures forall i | 0 <= i < |s| :: IsNumberedAt(Renumbered(stories, s), s, i)
  {
    if s != [] {
      var n := |s| - 1;
      forall i | 0 <= i < n ensures s[..n][i] == s[i] {}
      RenumberedAt(stories, s[..n]);
      forall i | 0 <= i < n ensures IsNumberedAt(Renumbered(stories, s), s, i) {
        assert IsNumberedAt(Renumbered(stories, s[..n]), s[..n], i);
      }
    }
  }

  lemma ListingDistinct(stories: map<string, Story>, ro: string, s: seq<Story>)
    requires Lists(stories, ro, s)
    ensures DistinctIds(s)
  {
    forall i, j | 0 <= i < j < |s| ensures s[i].id != s[j].id {
      ListingIdsDiffer(Repos(map[], stories, map[]), ro, s, i, j);
    }
  }

  lemma PermutationDistinct(s: seq<Story>, r: seq<Story>)
    requires DistinctIds(s) && multiset(s) == multiset(r)
    ensures DistinctIds(r) && |r| == |s| && forall x :: x in r <==> x in s
  {
    assert |multiset(s)| == |s| && |multiset(r)| == |r|;
    forall x ensures x in r <==> x in s { assert x in multiset(r) <==> x in multiset(s); }
    forall i, j | 0 <= i < j < |r| ensures r[i].id != r[j].id {
      assert r[i] in s && r[j] in s;
      TwiceIsTwice(s, r, i, j);
    }
  }

  lemma TwiceIsTwice(s: seq<Story>, r: seq<Story>, i: nat, j: nat)
    requires DistinctIds(s) && multiset(s) == multiset(r) && i < j < |r|
    ensures r[i] != r[j]
  {
    if r[i] == r[j] {
      assert r == r[..i] + [r[i]] + r[i + 1..j] + [r[j]] + r[j + 1..];
      assert multiset(r)[r[i]] >= 2;
      OnceIsOnce(s, r[i]);
    }
  }

  lemma {:induction false} OnceIsOnce(s: seq<Story>, x: Story)
    requires DistinctIds(s)
    ensures multiset(s)[x] <= 1
  {
    if s != [] {
      var n := |s| - 1;
      assert s == s[..n] + [s[n]];
      OnceIsOnce(s[..n], x);
      forall i | 0 <= i < n ensures s[..n][i] != s[n] {}
    }
  }

  lemma RenumberedKeeps(stories: map<string, Story>, ro: string, r: seq<Story>)
    requires WellKeyed(StoryPlace, stories) && DistinctIds(r)
    requires forall x | x in r :: x.runningOrderID == ro && x.id in stories && stories[x.id] == x
    ensures var next := Renumbered(stories, r);
      && next.Keys == stories.Keys && WellKeyed(StoryPlace, next)
      && (forall k | k in stories :: next[k].runningOrderID == stories[k].runningOrderID)
      && (forall k | k in stories && stories[k].runningOrderID != ro :: next[k] == stories[k])
  {
    RenumberedAt(stories, r);
    OthersStay(stories, r);
    var next := Renumbered(stories, r);
    forall k | k in next
      ensures k in stories && next[k].id == k && next[k].runningOrderID == stories[k].runningOrderID
      ensures stories[k].runningOrderID != ro ==> next[k] == stories[k]
    {
      if x :| x in r && x.id == k {
        var i :| 0 <= i < |r| && r[i] == x;
        assert IsNumberedAt(next, r, i);
      }
    }
  }

  lemma NumberedIsListed(stories: map<string, Story>, next: map<string, Story>, ro: string, r: seq<Story>)
    requires next.Keys == stories.Keys && forall k | k in stories :: next[k].runningOrderID == stories[k].runningOrderID
    requires forall x | x in r :: x.runningOrderID == ro && x.id in stories
    requires forall k | k in stories && stories[k].runningOrderID == ro :: stories[k] in r && stories[k].id == k
    requires forall i | 0 <= i < |r| :: IsNumberedAt(next, r, i)
    ensures Lists(next, ro, Numbered(r))
  {
    forall k | k in next && next[k].runningOrderID == ro ensures next[k] in Numbered(r) {
      var i :| 0 <= i < |r| && r[i] == stories[k];
      assert IsNumberedAt(next, r, i) && Numbered(r)[i] == next[k];
    }
    forall x | x in Numbered(r) ensures x.runningOrderID == ro && x.id in next && next[x.id] == x {
      var i :| 0 <= i < |r| && Numbered(r)[i] == x;
      assert r[i] in r && IsNumberedAt(next, r, i);
    }
  }

  /** Main result: after a permutation of a listing is stored with its numbers, it is the listing. */
  lemma RenumberedLists(stories: map<string, Story>, ro: string, s: seq<Story>, r: seq<Story>)
    requires WellKeyed(StoryPlace, stories) && Lists(stories, ro, s) && multiset(s) == multiset(r)
    ensures Lists(Renumbered(stories, r), ro, Numbered(r)) && WellKeyed(StoryPlace, Renumbered(stories, r))
    ensures Renumbered(stories, r).Keys == stories.Keys
    ensures forall k | k in stories && stories[k].runningOrderID != ro :: Renumbered(stories, r)[k] == stories[k]
  {
    ListingDistinct(stories, ro, s);
    PermutationDistinct(s, r);
    RenumberedAt(stories, r);
    RenumberedKeeps(stories, ro, r);
    NumberedIsListed(stories, Renumbered(stories, r), ro, r);
  }

  // ---- Swapping ----

  /** Among stories of the same number, this identifier belongs at place `i`. */
  ghost predicate FitsAt(s: seq<Story>, i: nat, id: string)
    requires i < |s|
  {
    forall n | 0 <= n < |s| && n != i && s[n].order == s[i].order ::
      if n < i then Less(s[n].id, id) else Less(id, s[n].id)
  }

  /** Each fits among the stories that have the other's number, and the numbers differ. */
  ghost predicate CanSwap(s: seq<Story>, i: nat, j: nat)
    requires i < |s| && j < |s|
  {
    i == j || (s[i].order != s[j].order && FitsAt(s, i, s[j].id) && FitsAt(s, j, s[i].id))
  }

  /** Two places exchanged; the numbers stay where they are. */
  function Swapped(s: seq<Story>, i: nat, j: nat): seq<Story>
    requires i < |s| && j < |s|
  {
    s[i := s[j].(order := s[i].order)][j := s[i].(order := s[j].order)]
  }

  function SwapIn(stories: map<string, Story>, a: Story, b: Story): map<string, Story> {
    stories[a.id := a.(order := b.order)][b.id := b.(order := a.order)]
  }

  function Partner(n: nat, i: nat, j: nat): nat {
    if n == i then j else if n == j then i else n
  }

  lemma SwappedAscends(s: seq<Story>, i: nat, j: nat)
    requires Ascending(StoryPlace, s) && i < |s| && j < |s| && CanSwap(s, i, j)
    ensures Ascending(StoryPlace, Swapped(s, i, j))
  {
    var r := Swapped(s, i, j);
    assert i == j ==> r == s;
    forall p, q | 0 <= p < q < |s| ensures Before(StoryPlace(r[p]), StoryPlace(r[q])) {
      assert Before(StoryPlace(s[p]), StoryPlace(s[q]));
    }
  }

  lemma AscendsIfSwapped(s: seq<Story>, i: nat, j: nat)
    requires Ascending(StoryPlace, s) && i < |s| && j < |s| && Ascending(StoryPlace, Swapped(s, i, j))
    ensures CanSwap(s, i, j)
  {
    var r := Swapped(s, i, j);
    if i != j {
      var p, q := if i < j then i else j, if i < j then j else i;
      assert Before(StoryPlace(s[p]), StoryPlace(s[q])) && Before(StoryPlace(r[p]), StoryPlace(r[q]));
      BeforeIsOrder(StoryPlace(s[p]), StoryPlace(s[q]), StoryPlace(s[p]));
      assert s[i].order != s[j].order;
      FitsIfAscending(s, r, i);
      FitsIfAscending(s, r, j);
    }
  }

  lemma FitsIfAscending(s: seq<Story>, r: seq<Story>, i: nat)
    requires i < |s| == |r| && Ascending(StoryPlace, r) && r[i].order == s[i].order
    requires forall n | 0 <= n < |s| && n != i && s[n].order == s[i].order :: r[n] == s[n]
    ensures FitsAt(s, i, r[i].id)
  {
    forall n | 0 <= n < |s| && n != i && s[n].order == s[i].order
      ensures if n < i then Less(s[n].id, r[i].id) else Less(r[i].id, s[n].id) {
      assert if n < i then Before(StoryPlace(r[n]), StoryPlace(r[i])) else Before(StoryPlace(r[i]), StoryPlace(r[n]));
    }
  }

  lemma SwappedAt(stories: map<string, Story>, s: seq<Story>, i: nat, j: nat, n: nat)
    requires DistinctIds(s) && i < |s| && j < |s| && n < |s| && s[n].id in stories && stories[s[n].id] == s[n]
    ensures Swapped(s, i, j)[Partner(n, i, j)] == SwapIn(stories, s[i], s[j])[s[n].id]
    ensures Swapped(s, i, j)[Partner(n, i, j)].id == s[n].id
    ensures Swapped(s, i, j)[Partner(n, i, j)].runningOrderID == s[n].runningOrderID
  {}

  /** Exchanging numbers keeps the stories of the running order. */
  lemma SwappedAreHeld(stories: map<string, Story>, ro: string, s: seq<Story>, i: nat, j: nat)
    requires WellKeyed(StoryPlace, stories) && Lists(stories, ro, s) && i < |s| && j < |s|
    ensures var next, r := SwapIn(stories, s[i], s[j]), Swapped(s, i, j);
      && (forall k | k in next && next[k].runningOrderID == ro :: next[k] in r)
      && forall x | x in r :: x.runningOrderID == ro && x.id in next && next[x.id] == x
  {
    ListingDistinct(stories, ro, s);
    assert s[i] in s && s[j] in s;
    var next, r := SwapIn(stories, s[i], s[j]), Swapped(s, i, j);
    forall k | k in next && next[k].runningOrderID == ro ensures next[k] in r {
      assert stories[k] in s;
      var n :| 0 <= n < |s| && s[n] == stories[k];
      SwappedAt(stories, s, i, j, n);
    }
    forall x | x in r ensures x.runningOrderID == ro && x.id in next && next[x.id] == x {
      var n :| 0 <= n < |r| && r[n] == x;
      assert s[Partner(n, i, j)] in s;
      SwappedAt(stories, s, i, j, Partner(n, i, j));
    }
  }

  /** Main result: exchanging the numbers of two stories exchanges their places in the listing, exactly
      when their numbers differ and each fits among the stories that have the other's. */
  lemma SwapExchangesPlaces(stories: map<string, Story>, ro: string, s: seq<Story>, i: nat, j: nat)
    requires WellKeyed(StoryPlace, stories) && Lists(stories, ro, s) && i < |s| && j < |s|
    ensures Lists(SwapIn(stories, s[i], s[j]), ro, Swapped(s, i, j)) <==> CanSwap(s, i, j)
  {
    SwappedAreHeld(stories, ro, s, i, j);
    if CanSwap(s, i, j) { SwappedAscends(s, i, j); }
    if Ascending(StoryPlace, Swapped(s, i, j)) { AscendsIfSwapped(s, i, j); }
  }

  /** Stories numbered from one, as every roster and every move leaves them, can always be swapped. */
  lemma NumberedCanSwap(s: seq<Story>, i: nat, j: nat)
    requires i < |s| && j < |s| && forall n | 0 <= n < |s| :: s[n].order == n + 1
    ensures CanSwap(s, i, j)
  {}

  // ---- The service ----

  class MOSService {
    var stories: map<string, Story>

    ghost predicate Valid()
      reads this
    {
      WellKeyed(StoryPlace, stories)
    }

    method ListByRunningOrder(ro: string) returns (s: seq<Story>)
      requires Valid()
      ensures Lists(stories, ro, s)
    {
      s := List(StoryPlace, (x: Story) => x.runningOrderID == ro, stories);
    }

    method ResolveStory(ro: string, wire: string) returns (found: Option<Story>)
      requires Valid()
      ensures forall s | Lists(stories, ro, s) :: found == Resolved(stories, ro, s, wire)
    {
      if wire == "" { return None; }
      var key := StoryKey(ro, wire);
      if key in stories { return Some(stories[key]); }
      var listing := ListByRunningOrder(ro);
      found := None;
      for i := 0 to |listing|
        invariant found == None && FirstNamed(listing, wire) == FirstNamed(listing[i..], wire)
      {
        assert listing[i..][0] == listing[i] && listing[i..][1..] == listing[i + 1..];
        if IsNamed(listing[i], wire) {
          found := Some(listing[i]);
          break;
        }
      }
      forall s | Lists(stories, ro, s) ensures s == listing { OneListing(stories, ro, s, listing); }
    }

    /** The keys of the stories named, and how many names stand for none. */
    method ResolveStoryKeys(ro: string, wires: seq<string>) returns (keys: set<string>, missing: nat)
      requires Valid()
      ensures forall s | Lists(stories, ro, s) ::
        keys == KeysOf(stories, ro, s, wires) && (missing == 0 <==> AllResolve(stories, ro, s, wires))
    {
      ghost var listing := ListByRunningOrder(ro);
      keys, missing := {}, 0;
      for i := 0 to |wires|
        invariant keys == KeysOf(stories, ro, listing, wires[..i])
        invariant missing == 0 <==> AllResolve(stories, ro, listing, wires[..i])
      {
        var found := ResolveStory(ro, wires[i]);
        OneMoreName(stories, ro, listing, wires, i);
        if found.None? { missing := missing + 1; } else { keys := keys + {found.value.id}; }
      }
      assert wires[..|wires|] == wires;
      forall s | Lists(stories, ro, s) ensures s == listing { OneListing(stories, ro, s, listing); }
    }

    /** Separates the listing into the stories that move and those that stay. */
    method Partition(listing: seq<Story>, keys: set<string>) returns (moving: seq<Story>, remaining: seq<Story>)
      ensures moving == Sift(listing, keys, true) && remaining == Sift(listing, keys, false)
    {
      moving, remaining := [], [];
      for i := 0 to |listing|
        invariant moving == Sift(listing[..i], keys, true) && remaining == Sift(listing[..i], keys, false)
      {
        assert listing[..i + 1][..i] == listing[..i];
        if listing[i].id in keys { moving := moving + [listing[i]]; } else { remaining := remaining + [listing[i]]; }
      }
      assert listing[..|listing|] == listing;
    }

    method FindTarget(remaining: seq<Story>, key: string) returns (index: nat)
      ensures index == Find(remaining, key)
    {
      index := |remaining|;
      for i := 0 to |remaining|
        invariant index == |remaining| && Find(remaining, key) == i + Find(remaining[i..], key)
      {
        assert remaining[i..][0] == remaining[i] && remaining[i..][1..] == remaining[i + 1..];
        if remaining[i].id == key { return i; }
      }
    }

    method StoreOrder(order: seq<Story>)
      requires forall x | x in order :: x.id in stories
      modifies this
      ensures stories == Renumbered(old(stories), order)
    {
      for i := 0 to |order|
        invariant stories == Renumbered(old(stories), order[..i]) && stories.Keys == old(stories.Keys)
      {
        assert order[..i + 1][..i] == order[..i];
        assert order[i] in order;
        if order[i].id in stories { stories := stories[order[i].id := order[i].(order := i + 1)]; }
      }
      assert order[..|order|] == order;
    }

    /** Moves stories as one block directly before the target; no target moves them to the end. A
        name that stands for no story changes nothing. */
    method MoveStories(ro: string, target: Option<string>, wires: seq<string>) returns (ok: bool)
      requires Valid()
      modifies this
      ensures Valid() && stories.Keys == old(stories.Keys)
      ensures !ok ==> stories == old(stories)
      ensures forall k | k in stories && old(stories)[k].runningOrderID != ro :: stories[k] == old(stories)[k]
      ensures forall s | Lists(old(stories), ro, s) ::
        && (ok <==> (target.Some? && target.value != "" ==> Resolved(old(stories), ro, s, target.value).Some?)
                    && AllResolve(old(stories), ro, s, wires))
        && (ok ==>
          Lists(stories, ro,
            Numbered(Moved(s, KeysOf(old(stories), ro, s, wires), TargetKey(old(stories), ro, s, target)))))
    {
      ghost var was := stories;
      var key: Option<string> := None;
      if target.Some? && target.value != "" {
        var found := ResolveStory(ro, target.value);
        if found.None? { return false; }
        key := Some(found.value.id);
      }
      var listing := ListByRunningOrder(ro);
      var keys, missing := ResolveStoryKeys(ro, wires);
      forall s | Lists(was, ro, s) ensures s == listing { OneListing(was, ro, s, listing); }
      if missing > 0 { return false; }
      var moving, remaining := Partition(listing, keys);
      var index := |remaining|;
      if key.Some? { index := FindTarget(remaining, key.value); }
      var order := remaining[..index] + moving + remaining[index..];
      MovedIsPermutation(listing, keys, key);
      RenumberedLists(was, ro, listing, order);
      PermutationIsHeld(was, ro, listing, order);
      StoreOrder(order);
      ok := true;
    }

    /** Exchanges the numbers of two stories. */
    method SwapStories(ro: string, first: string, second: string) returns (ok: bool)
      requires Valid()
      modifies this
      ensures Valid() && stories.Keys == old(stories.Keys) && (!ok ==> stories == old(stories))
      ensures forall s | Lists(old(stories), ro, s) ::
        && (ok <==> Resolved(old(stories), ro, s, first).Some? && Resolved(old(stories), ro, s, second).Some?)
        && (ok ==> var a, b := Resolved(old(stories), ro, s, first).value, Resolved(old(stories), ro, s, second).value;
              stories == SwapIn(old(stories), a, b))
    {
      var listing := ListByRunningOrder(ro);
      var a := ResolveStory(ro, first);
      if a.None? { return false; }
      var b := ResolveStory(ro, second);
      if b.None? { return false; }
      ResolvedIsHeld(stories, ro, listing, first);
      ResolvedIsHeld(stories, ro, listing, second);
      stories := stories[a.value.id := a.value.(order := b.value.order)];
      stories := stories[b.value.id := b.value.(order := a.value.order)];
      ok := true;
    }
  }

  function TargetKey(stories: map<string, Story>, ro: string, s: seq<Story>, target: Option<string>): Option<string> {
    if target.None? || target.value == "" then None
    else
      match Resolved(stories, ro, s, target.value)
      case None => None
      case Some(x) => Some(x.id)
  }

  lemma OneListing(stories: map<string, Story>, ro: string, s: seq<Story>, t: seq<Story>)
    requires Lists(stories, ro, s) && Lists(stories, ro, t)
    ensures s == t
  {
    ListingUnique(StoryPlace, (x: Story) => x.runningOrderID == ro, stories, s, t);
  }

  lemma OneMoreName(stories: map<string, Story>, ro: string, s: seq<Story>, wires: seq<string>, i: nat)
    requires i < |wires|
    ensures var r := Resolved(stories, ro, s, wires[i]);
      && KeysOf(stories, ro, s, wires[..i + 1]) ==
        KeysOf(stories, ro, s, wires[..i]) + (if r.Some? then {r.value.id} else {})
      && (AllResolve(stories, ro, s, wires[..i + 1]) <==> AllResolve(stories, ro, s, wires[..i]) && r.Some?)
  {
    assert wires[..i + 1] == wires[..i] + [wires[i]];
    assert forall j | 0 <= j < i :: wires[..i + 1][j] == wires[..i][j];
    assert wires[..i + 1][i] == wires[i];
  }

  lemma ResolvedIsHeld(stories: map<string, Story>, ro: string, s: seq<Story>, wire: string)
    requires WellKeyed(StoryPlace, stories) && Lists(stories, ro, s)
    ensures var r := Resolved(stories, ro, s, wire); r.Some? ==> r.value.id in stories && stories[r.value.id] == r.value
  {}

  lemma PermutationIsHeld(stories: map<string, Story>, ro: string, s: seq<Story>, r: seq<Story>)
    requires Lists(stories, ro, s) && multiset(s) == multiset(r)
    ensures forall x | x in r :: x.id in stories
  {
    forall x | x in r ensures x in s { assert x in multiset(r) && x in multiset(s); }
  }
}
