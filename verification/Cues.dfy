/** The identities of a story body: which anonymous cues keep the number they had, and which
    are given a new one. */
module Cues {
  import opened Options
  import opened Text

  const MAX_CUE: nat := 9007199254740991

  datatype Kind = MosItem | Cue

  /** One item or cue of a body. `id` is empty for a cue that has no number yet; `payload` is
      every field that is neither identity nor selector. */
  datatype Occurrence = Occurrence(
    id: string, kind: Kind, cueType: string, verb: string, target: string, payload: string)

  /** What a cue is matched by; its other fields are payload, never identity. */
  datatype CueSelector = CueSelector(cueType: string, verb: string, target: string)

  function Selector(c: Occurrence): CueSelector {
    CueSelector(c.cueType, c.verb, c.target)
  }

  function CueName(n: nat): string {
    "cue:" + Decimal(n)
  }

  lemma CueNameInjective(a: nat, b: nat)
    requires CueName(a) == CueName(b)
    ensures a == b
  {
    assert CueName(a)[4..] == Decimal(a) && CueName(b)[4..] == Decimal(b);
    DecimalInjective(a, b);
  }

  // ---- Retaining numbers ----

  /** A body cut at its items: runs of cues, the last one with no item behind it. */
  datatype Regions = Tail(cues: seq<Occurrence>) | Region(cues: seq<Occurrence>, item: Occurrence, rest: Regions)

  function Cut(s: seq<Occurrence>): Regions {
    if s == [] then Tail([])
    else if s[0].kind == MosItem then Region([], s[0], Cut(s[1..]))
    else
      match Cut(s[1..])
      case Tail(cues) => Tail([s[0]] + cues)
      case Region(cues, item, rest) => Region([s[0]] + cues, item, rest)
  }

  function Join(r: Regions): seq<Occurrence> {
    match r
    case Tail(cues) => cues
    case Region(cues, item, rest) => cues + [item] + Join(rest)
  }

  ghost predicate UniqueSelectors(s: seq<Occurrence>) {
    forall i, j | 0 <= i < j < |s| :: Selector(s[i]) != Selector(s[j])
  }

  /** Two cue runs between the same anchors are the same region: slot by slot the same
      selectors, and either no selector repeats or nothing at all has changed. */
  ghost predicate SameRegion(a: seq<Occurrence>, b: seq<Occurrence>) {
    && |a| == |b|
    && (forall i | 0 <= i < |a| :: a[i].id != "" && Selector(a[i]) == Selector(b[i]))
    && (UniqueSelectors(a) || forall i | 0 <= i < |a| :: a[i] == b[i].(id := a[i].id))
  }

  function WithIds(a: seq<Occurrence>, b: seq<Occurrence>): seq<Occurrence>
    requires |a| == |b|
  {
    seq(|b|, i requires 0 <= i < |b| => b[i].(id := a[i].id))
  }

  ghost function RetainRegion(a: seq<Occurrence>, b: seq<Occurrence>): (r: seq<Occurrence>)
    ensures |r| == |b|
  {
    if SameRegion(a, b) then WithIds(a, b) else b
  }

  /** The two bodies have the same items in the same order. */
  predicate SameAnchors(a: Regions, b: Regions) {
    match (a, b)
    case (Tail(_), Tail(_)) => true
    case (Region(_, x, a'), Region(_, y, b')) => x.id == y.id && SameAnchors(a', b')
    case _ => false
  }

  ghost function RetainRegions(a: Regions, b: Regions): Regions
    requires SameAnchors(a, b)
  {
    match (a, b)
    case (Tail(p), Tail(q)) => Tail(RetainRegion(p, q))
    case (Region(p, x, a'), Region(q, y, b')) => Region(RetainRegion(p, q), y, RetainRegions(a', b'))
  }

  /** The new body with the numbers that its cues keep. */
  ghost function Retain(old_: seq<Occurrence>, next: seq<Occurrence>): seq<Occurrence> {
    if SameAnchors(Cut(old_), Cut(next)) then Join(RetainRegions(Cut(old_), Cut(next))) else next
  }

  /** Runs hold cues, anchors are items. */
  ghost predicate WellCut(r: Regions) {
    && (forall i | 0 <= i < |r.cues| :: r.cues[i].kind == Cue)
    && (r.Region? ==> r.item.kind == MosItem && WellCut(r.rest))
  }

  lemma {:induction false} CutJoins(s: seq<Occurrence>)
    ensures Join(Cut(s)) == s && WellCut(Cut(s))
  {
    if s != [] {
      CutJoins(s[1..]);
      assert s == [s[0]] + s[1..];
    }
  }

  lemma {:induction false} JoinCuts(r: Regions)
    requires WellCut(r)
    ensures Cut(Join(r)) == r
    decreases |Join(r)|
  {
    var s := Join(r);
    if r.cues != [] {
      JoinCuts(r.(cues := r.cues[1..]));
      assert s[1..] == Join(r.(cues := r.cues[1..]));
      assert r.cues == [r.cues[0]] + r.cues[1..];
    } else if r.Region? {
      JoinCuts(r.rest);
      assert s[1..] == Join(r.rest);
    }
  }

  // ---- What retaining means ----

  /** Slot `r` is slot `n` of the new body, with the identity of earlier occurrence `k` if there
      is one; only a like occurrence lends its identity, and items never change. */
  ghost predicate ComesFrom(k: int, old_: seq<Occurrence>, n: Occurrence, r: Occurrence) {
    && -1 <= k < |old_|
    && (k < 0 ==> r == n && n.kind == Cue)
    && (k >= 0 ==> r == n.(id := old_[k].id) && old_[k].kind == n.kind)
    && (k >= 0 && n.kind == Cue ==> Selector(old_[k]) == Selector(n))
    && (n.kind == MosItem ==> r == n)
  }

  ghost predicate Rising(from: seq<int>) {
    forall i, j | 0 <= i < j < |from| && from[i] >= 0 && from[j] >= 0 :: from[i] < from[j]
  }

  /** `from[j]` is the earlier occurrence whose identity slot j has, or -1. The alignment keeps
      order, so no identity is moved past another. */
  ghost predicate IsAlignment(from: seq<int>, old_: seq<Occurrence>, next: seq<Occurrence>, r: seq<Occurrence>) {
    && |from| == |next| == |r|
    && Rising(from)
    && forall j | 0 <= j < |from| :: ComesFrom(from[j], old_, next[j], r[j])
  }

  function Shift(from: seq<int>, offset: nat): seq<int> {
    seq(|from|, i requires 0 <= i < |from| => if from[i] >= 0 then from[i] + offset else -1)
  }

  lemma AlignmentsJoin(
      f: seq<int>, old_: seq<Occurrence>, next: seq<Occurrence>, r: seq<Occurrence>,
      f': seq<int>, old': seq<Occurrence>, next': seq<Occurrence>, r': seq<Occurrence>)
    requires IsAlignment(f, old_, next, r) && IsAlignment(f', old', next', r')
    ensures IsAlignment(f + Shift(f', |old_|), old_ + old', next + next', r + r')
  {
    var g := f + Shift(f', |old_|);
    forall j | 0 <= j < |g| ensures ComesFrom(g[j], old_ + old', (next + next')[j], (r + r')[j]) {
      if j < |f| {
        assert ComesFrom(f[j], old_, next[j], r[j]);
      } else {
        assert ComesFrom(f'[j - |f|], old', next'[j - |f|], r'[j - |f|]);
      }
    }
    forall i, j | 0 <= i < j < |g| && g[i] >= 0 && g[j] >= 0 ensures g[i] < g[j] {
      if i < |f| {
        assert ComesFrom(f[i], old_, next[i], r[i]);
        if j < |f| { assert f[i] < f[j]; }
      }
    }
  }

  lemma RegionAligned(a: seq<Occurrence>, b: seq<Occurrence>) returns (from: seq<int>)
    requires forall i | 0 <= i < |a| :: a[i].kind == Cue
    requires forall i | 0 <= i < |b| :: b[i].kind == Cue
    ensures IsAlignment(from, a, b, RetainRegion(a, b))
  {
    var same := SameRegion(a, b);
    from := seq(|b|, i => if same then i else -1);
  }

  /** Retaining keeps every item and aligns cues in order with the cues whose numbers they keep. */
  lemma {:induction false} Aligned(a: Regions, b: Regions) returns (from: seq<int>)
    requires SameAnchors(a, b) && WellCut(a) && WellCut(b)
    ensures IsAlignment(from, Join(a), Join(b), Join(RetainRegions(a, b)))
  {
    from := RegionAligned(a.cues, b.cues);
    if b.Region? {
      var rest := Aligned(a.rest, b.rest);
      assert ComesFrom(0, [a.item], b.item, b.item);
      AlignmentsJoin(from, a.cues, b.cues, RetainRegion(a.cues, b.cues), [0], [a.item], [b.item], [b.item]);
      from := from + Shift([0], |a.cues|);
      AlignmentsJoin(from, a.cues + [a.item], b.cues + [b.item], RetainRegion(a.cues, b.cues) + [b.item],
        rest, Join(a.rest), Join(b.rest), Join(RetainRegions(a.rest, b.rest)));
      from := from + Shift(rest, |a.cues| + 1);
    }
  }

  lemma RetainedAligned(old_: seq<Occurrence>, next: seq<Occurrence>) returns (from: seq<int>)
    requires SameAnchors(Cut(old_), Cut(next))
    ensures IsAlignment(from, old_, next, Retain(old_, next))
  {
    CutJoins(old_);
    CutJoins(next);
    from := Aligned(Cut(old_), Cut(next));
  }

  ghost predicate Distinct(s: seq<Occurrence>) {
    forall i, j | 0 <= i < j < |s| && s[i].id != "" && s[j].id != "" :: s[i].id != s[j].id
  }

  /** Identities that were distinct stay distinct, and items keep theirs. */
  lemma RetainedAreDistinct(old_: seq<Occurrence>, next: seq<Occurrence>)
    requires Distinct(old_) && Distinct(next)
    requires forall j | 0 <= j < |next| :: next[j].kind == Cue ==> next[j].id == ""
    ensures |Retain(old_, next)| == |next| && Distinct(Retain(old_, next))
    ensures forall j | 0 <= j < |next| && next[j].kind == MosItem :: Retain(old_, next)[j] == next[j]
    ensures forall j | 0 <= j < |next| :: Retain(old_, next)[j].(id := "") == next[j].(id := "")
  {
    if SameAnchors(Cut(old_), Cut(next)) {
      var from := RetainedAligned(old_, next);
      var r := Retain(old_, next);
      forall i, j | 0 <= i < j < |r| && r[i].id != "" && r[j].id != "" ensures r[i].id != r[j].id {
        assert ComesFrom(from[i], old_, next[i], r[i]) && ComesFrom(from[j], old_, next[j], r[j]);
      }
      forall j | 0 <= j < |next|
        ensures r[j].(id := "") == next[j].(id := "") && (next[j].kind == MosItem ==> r[j] == next[j]) {
        assert ComesFrom(from[j], old_, next[j], r[j]);
      }
    }
  }

  /** A body as it is parsed from what was committed: the same, without the cue numbers. */
  function Unnumbered(s: seq<Occurrence>): seq<Occurrence> {
    seq(|s|, i requires 0 <= i < |s| => if s[i].kind == Cue then s[i].(id := "") else s[i])
  }

  function UnnumberedRegions(r: Regions): Regions {
    match r
    case Tail(cues) => Tail(Unnumbered(cues))
    case Region(cues, item, rest) => Region(Unnumbered(cues), item, UnnumberedRegions(rest))
  }

  lemma {:induction false} UnnumberedJoins(r: Regions)
    requires WellCut(r)
    ensures WellCut(UnnumberedRegions(r)) && Join(UnnumberedRegions(r)) == Unnumbered(Join(r))
  {
    if r.Region? { UnnumberedJoins(r.rest); }
  }

  lemma ResentRegion(s: seq<Occurrence>)
    requires forall i | 0 <= i < |s| :: s[i].id != "" && s[i].kind == Cue
    ensures RetainRegion(s, Unnumbered(s)) == s
  {
    assert SameRegion(s, Unnumbered(s)) && WithIds(s, Unnumbered(s)) == s;
  }

  ghost predicate AllNamed(r: Regions) {
    && (forall i | 0 <= i < |r.cues| :: r.cues[i].id != "" && r.cues[i].kind == Cue)
    && (r.Region? ==> AllNamed(r.rest))
  }

  lemma {:induction false} NamedRegions(r: Regions)
    requires WellCut(r) && forall x | x in Join(r) :: x.id != ""
    ensures AllNamed(r)
  {
    assert forall i | 0 <= i < |r.cues| :: r.cues[i] in Join(r);
    if r.Region? {
      assert forall x | x in Join(r.rest) :: x in Join(r);
      NamedRegions(r.rest);
    }
  }

  lemma {:induction false} ResentRegions(r: Regions)
    requires AllNamed(r)
    ensures SameAnchors(r, UnnumberedRegions(r)) && RetainRegions(r, UnnumberedRegions(r)) == r
  {
    ResentRegion(r.cues);
    if r.Region? { ResentRegions(r.rest); }
  }

  lemma ResentBodyKeepsEveryNumber(s: seq<Occurrence>)
    requires forall i | 0 <= i < |s| :: s[i].id != ""
    ensures Retain(s, Unnumbered(s)) == s
  {
    CutJoins(s);
    UnnumberedJoins(Cut(s));
    JoinCuts(UnnumberedRegions(Cut(s)));
    NamedRegions(Cut(s));
    ResentRegions(Cut(s));
  }

  // ---- Allocating numbers ----

  /** The first free number above `last`, if the counter is not exhausted before it. */
  function FirstFree(last: nat, taken: set<string>): Option<nat>
    decreases MAX_CUE - last
  {
    if last >= MAX_CUE then None
    else if CueName(last + 1) in taken then FirstFree(last + 1, taken)
    else Some(last + 1)
  }

  datatype Allocation = Allocation(last: nat, body: seq<Occurrence>)

  /** Numbers the occurrences that still have none, in order. */
  function Allocate(last: nat, taken: set<string>, s: seq<Occurrence>): Option<Allocation>
    decreases |s|
  {
    if s == [] then Some(Allocation(last, []))
    else if s[0].id != "" then
      match Allocate(last, taken, s[1..])
      case None => None
      case Some(rest) => Some(Allocation(rest.last, [s[0]] + rest.body))
    else
      match FirstFree(last, taken)
      case None => None
      case Some(n) =>
        match Allocate(n, taken + {CueName(n)}, s[1..])
        case None => None
        case Some(rest) => Some(Allocation(rest.last, [s[0].(id := CueName(n))] + rest.body))
  }

  function Ids(s: seq<Occurrence>): set<string> {
    set i | 0 <= i < |s| && s[i].id != "" :: s[i].id
  }

  lemma {:induction false} FirstFreeIsFree(last: nat, taken: set<string>)
    ensures var f := FirstFree(last, taken);
      f.Some? ==> last < f.value <= MAX_CUE && CueName(f.value) !in taken
    decreases MAX_CUE - last
  {
    if last < MAX_CUE && CueName(last + 1) in taken { FirstFreeIsFree(last + 1, taken); }
  }

  /** Slot `r` is slot `n`, given number `k` if it had no identity. */
  ghost predicate IsNumbered(last: nat, upTo: nat, taken: set<string>, n: Occurrence, k: nat, r: Occurrence) {
    && (n.id != "" ==> r == n)
    && (n.id == "" ==> r == n.(id := CueName(k)) && last < k <= upTo && r.id !in taken)
  }

  /** Numbers rise along the body. */
  ghost predicate RisingWhereUnnamed(s: seq<Occurrence>, numbers: seq<nat>)
    requires |s| == |numbers|
  {
    forall i, j | 0 <= i < j < |s| && s[i].id == "" && s[j].id == "" :: numbers[i] < numbers[j]
  }

  lemma RisingFromHead(s: seq<Occurrence>, numbers: seq<nat>)
    requires |s| == |numbers| > 0 && RisingWhereUnnamed(s[1..], numbers[1..])
    requires forall i | 0 < i < |s| && s[i].id == "" :: numbers[0] < numbers[i]
    ensures RisingWhereUnnamed(s, numbers)
  {
    forall i, j | 0 <= i < j < |s| && s[i].id == "" && s[j].id == "" ensures numbers[i] < numbers[j] {
      if i > 0 {
        assert s[1..][i - 1].id == "" && s[1..][j - 1].id == "" && numbers[1..][i - 1] < numbers[1..][j - 1];
      }
    }
  }

  /** Every slot that had no identity gets a number in (last, new last], numbers rise along the
      body, and nothing given is taken already. */
  lemma {:induction false} AllocatedNumbers(last: nat, taken: set<string>, s: seq<Occurrence>)
    returns (numbers: seq<nat>)
    requires Allocate(last, taken, s).Some?
    ensures var r := Allocate(last, taken, s).value;
      && |r.body| == |s| == |numbers| && last <= r.last && (last <= MAX_CUE ==> r.last <= MAX_CUE)
      && (forall i | 0 <= i < |s| :: IsNumbered(last, r.last, taken, s[i], numbers[i], r.body[i]))
      && RisingWhereUnnamed(s, numbers)
    decreases |s|
  {
    if s == [] {
      numbers := [];
    } else {
      if s[0].id == "" { FirstFreeIsFree(last, taken); }
      var n := if s[0].id == "" then FirstFree(last, taken).value else last;
      var taken' := if s[0].id == "" then taken + {CueName(n)} else taken;
      var rest := AllocatedNumbers(n, taken', s[1..]);
      numbers := [n] + rest;
      var r := Allocate(last, taken, s).value;
      var tail := Allocate(n, taken', s[1..]).value;
      assert r.last == tail.last && r.body[1..] == tail.body;
      forall i | 0 < i < |s|
        ensures IsNumbered(n, r.last, taken', s[i], numbers[i], r.body[i])
      {
        assert IsNumbered(n, tail.last, taken', s[1..][i - 1], rest[i - 1], tail.body[i - 1]);
      }
      RisingFromHead(s, numbers);
    }
  }

  // ---- A whole body ----

  /** The identities of a new body, given the ones committed before. `ambiguous` marks a story
      whose earlier numbers must not be carried over. */
  ghost function Identify(last: nat, ambiguous: bool, old_: seq<Occurrence>,
      next: seq<Occurrence>): Option<Allocation> {
    var kept := if ambiguous then next else Retain(old_, next);
    Allocate(last, Ids(next) + Ids(kept), kept)
  }

  /** A body as it is committed: every occurrence named, no name twice. */
  ghost predicate Settled(s: seq<Occurrence>) {
    && (forall i | 0 <= i < |s| :: s[i].id != "")
    && (forall i, j | 0 <= i < j < |s| :: s[i].id != s[j].id)
  }

  /** A body as it is parsed: items named and distinct, cues unnamed. */
  ghost predicate Parsed(s: seq<Occurrence>) {
    && (forall i | 0 <= i < |s| :: s[i].id == "" <==> s[i].kind == Cue)
    && Distinct(s)
  }

  /** The name was given to a cue of the earlier body with the same selector. */
  ghost predicate KeepsNumber(old_: seq<Occurrence>, cue: Occurrence, id: string) {
    exists k | 0 <= k < |old_| :: old_[k].kind == Cue && old_[k].id == id && Selector(old_[k]) == Selector(cue)
  }

  lemma KeptNumber(old_: seq<Occurrence>, next: seq<Occurrence>, i: nat)
    requires i < |next| == |Retain(old_, next)| && next[i].id == "" && Retain(old_, next)[i].id != ""
    ensures KeepsNumber(old_, next[i], Retain(old_, next)[i].id) || next[i].kind == MosItem
  {
    if SameAnchors(Cut(old_), Cut(next)) {
      var from := RetainedAligned(old_, next);
      assert ComesFrom(from[i], old_, next[i], Retain(old_, next)[i]);
    }
  }

  /** Main result: whatever the peer names its items, the identities committed are distinct, and
      the numbers given out lie above every number given out before. */
  lemma IdentitiesAreSettled(last: nat, ambiguous: bool, old_: seq<Occurrence>, next: seq<Occurrence>)
    returns (numbers: seq<nat>)
    requires Settled(old_) && Parsed(next) && Identify(last, ambiguous, old_, next).Some?
    ensures var r := Identify(last, ambiguous, old_, next).value;
      && Settled(r.body) && |r.body| == |next| == |numbers| && last <= r.last
      && (forall i | 0 <= i < |next| :: r.body[i].(id := "") == next[i].(id := ""))
      && (forall i | 0 <= i < |next| && next[i].kind == MosItem :: r.body[i] == next[i])
      && (forall i | 0 <= i < |next| && next[i].kind == Cue ::
        || (!ambiguous && KeepsNumber(old_, next[i], r.body[i].id))
        || (r.body[i].id == CueName(numbers[i]) && last < numbers[i] <= r.last))
  {
    var kept := if ambiguous then next else Retain(old_, next);
    RetainedAreDistinct(old_, next);
    numbers := AllocatedNumbers(last, Ids(next) + Ids(kept), kept);
    var r := Identify(last, ambiguous, old_, next).value;
    forall i, j | 0 <= i < j < |next| ensures r.body[i].id != r.body[j].id {
      assert IsNumbered(last, r.last, Ids(next) + Ids(kept), kept[i], numbers[i], r.body[i]);
      assert IsNumbered(last, r.last, Ids(next) + Ids(kept), kept[j], numbers[j], r.body[j]);
      if kept[i].id == "" && kept[j].id == "" {
        if r.body[i].id == r.body[j].id { CueNameInjective(numbers[i], numbers[j]); }
      } else {
        assert kept[i].id != "" ==> kept[i].id in Ids(kept);
        assert kept[j].id != "" ==> kept[j].id in Ids(kept);
      }
    }
    forall i | 0 <= i < |next|
      ensures r.body[i].(id := "") == next[i].(id := "")
      ensures next[i].kind == MosItem ==> r.body[i] == next[i]
      ensures next[i].kind == Cue ==>
        || (!ambiguous && KeepsNumber(old_, next[i], r.body[i].id))
        || (r.body[i].id == CueName(numbers[i]) && last < numbers[i] <= r.last)
    {
      assert IsNumbered(last, r.last, Ids(next) + Ids(kept), kept[i], numbers[i], r.body[i]);
      if kept[i].id != "" && next[i].kind == Cue { KeptNumber(old_, next, i); }
    }
  }

  /** Sending the committed body again changes no identity and gives out no number. */
  lemma ResentBodyIsUnchanged(last: nat, s: seq<Occurrence>)
    requires Settled(s)
    ensures Identify(last, false, s, Unnumbered(s)) == Some(Allocation(last, s))
  {
    ResentBodyKeepsEveryNumber(s);
    var taken := Ids(Unnumbered(s)) + Ids(s);
    NothingToAllocate(last, taken, s);
  }

  lemma {:induction false} NothingToAllocate(last: nat, taken: set<string>, s: seq<Occurrence>)
    requires forall i | 0 <= i < |s| :: s[i].id != ""
    ensures Allocate(last, taken, s) == Some(Allocation(last, s))
  {
    if s != [] {
      NothingToAllocate(last, taken, s[1..]);
      assert s == [s[0]] + s[1..];
    }
  }
}
