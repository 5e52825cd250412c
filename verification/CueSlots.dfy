/** The loops that write identities into the slots of a new body, in place. */
module CueSlots {
  import opened Options
  import opened Cues

  method SameCueRegion(a: seq<Occurrence>, b: seq<Occurrence>) returns (same: bool)
    ensures same <==> SameRegion(a, b)
  {
    if |a| != |b| { return false; }
    var seen: seq<CueSelector> := [];
    var unique, untouched := true, true;
    for i := 0 to |a|
      invariant |seen| == i && forall k | 0 <= k < i :: seen[k] == Selector(a[k])
      invariant forall k | 0 <= k < i :: a[k].id != "" && seen[k] == Selector(b[k])
      invariant unique <==> forall k, l | 0 <= k < l < i :: seen[k] != seen[l]
      invariant untouched <==> forall k | 0 <= k < i :: a[k] == b[k].(id := a[k].id)
    {
      var selector := Selector(a[i]);
      if a[i].id == "" || selector != Selector(b[i]) { return false; }
      if selector in seen { unique := false; }
      seen := seen + [selector];
      untouched := untouched && a[i] == b[i].(id := a[i].id);
    }
    assert UniqueSelectors(a) <==> unique;
    return unique || untouched;
  }

  /** The positions of the items, and of the end, of a body that starts at `base`. */
  function Positions(r: Regions, base: int): (p: seq<int>)
    ensures |p| > 0 && (r.Region? ==> |p| > 1)
  {
    match r
    case Tail(cues) => [base + |cues|]
    case Region(cues, _, rest) => [base + |cues|] + Positions(rest, base + |cues| + 1)
  }

  method Anchors(s: seq<Occurrence>) returns (anchors: seq<int>)
    ensures anchors == [-1] + Positions(Cut(s), 0)
  {
    anchors := [-1];
    assert s[0..] == s;
    for i := 0 to |s|
      invariant [-1] + Positions(Cut(s), 0) == anchors + Positions(Cut(s[i..]), i)
    {
      assert s[i..][0] == s[i] && s[i..][1..] == s[i + 1..];
      if s[i].kind == MosItem { anchors := anchors + [i]; }
    }
    anchors := anchors + [|s|];
  }

  /** `r` is what is left of body `s` behind anchor `k`. */
  ghost predicate IsLeft(s: seq<Occurrence>, anchors: seq<int>, k: int, r: Regions) {
    && 0 <= k < |anchors| && 0 <= anchors[k] + 1 <= |s|
    && anchors[k + 1..] == Positions(r, anchors[k] + 1)
    && s[anchors[k] + 1..] == Join(r)
  }

  lemma NextIsLeft(s: seq<Occurrence>, anchors: seq<int>, k: int, r: Regions)
    requires IsLeft(s, anchors, k, r)
    ensures k + 1 < |anchors| && anchors[k + 1] == anchors[k] + 1 + |r.cues| <= |s|
    ensures s[anchors[k] + 1..anchors[k + 1]] == r.cues
    ensures r.Tail? ==> k + 2 == |anchors| && anchors[k + 1] == |s|
    ensures r.Region? ==> IsLeft(s, anchors, k + 1, r.rest) && s[anchors[k + 1]] == r.item
  {
    var lo := anchors[k] + 1;
    assert anchors[k + 1] == anchors[k + 1..][0] && anchors[k + 2..] == anchors[k + 1..][1..];
    assert s[lo..][..|r.cues|] == r.cues && |s[lo..]| == |s| - lo;
    if r.Region? {
      assert s[lo..][|r.cues|] == r.item && s[lo..][|r.cues| + 1..] == Join(r.rest);
      assert s[lo + |r.cues| + 1..] == s[lo..][|r.cues| + 1..];
    }
  }

  method WriteIds(next: array<Occurrence>, lo: nat, run: seq<Occurrence>)
    requires lo + |run| <= next.Length
    modifies next
    ensures next[..] == old(next[..lo]) + WithIds(run, old(next[lo..lo + |run|])) + old(next[lo + |run|..])
  {
    for j := 0 to |run|
      invariant next[..lo] == old(next[..lo]) && next[lo + j..] == old(next[lo + j..])
      invariant forall k | 0 <= k < j :: next[lo + k] == old(next[lo + k]).(id := run[k].id)
    {
      next[lo + j] := next[lo + j].(id := run[j].id);
    }
    assert next[lo..lo + |run|] == WithIds(run, old(next[lo..lo + |run|]));
    assert next[..] == next[..lo] + next[lo..lo + |run|] + next[lo + |run|..];
  }

  /** Decides one region and writes it. */
  method RetainRun(run: seq<Occurrence>, next: array<Occurrence>, from: nat, to: nat)
    requires from <= to <= next.Length
    modifies next
    ensures next[..] == old(next[..from]) + RetainRegion(run, old(next[from..to])) + old(next[to..])
  {
    var same := SameCueRegion(run, next[from..to]);
    if same { WriteIds(next, from, run); }
    assert next[..] == next[..from] + next[from..to] + next[to..];
  }

  lemma AllIsLeft(s: seq<Occurrence>, anchors: seq<int>)
    requires anchors == [-1] + Positions(Cut(s), 0)
    ensures IsLeft(s, anchors, 0, Cut(s))
  {
    CutJoins(s);
  }

  /** What is left has an item exactly when an anchor follows; it decides with the rest. */
  lemma ItemsDecide(s: seq<Occurrence>, a: seq<int>, t: seq<Occurrence>, b: seq<int>, k: nat, r: Regions, q: Regions)
    requires IsLeft(s, a, k, r) && IsLeft(t, b, k, q) && |a| == |b|
    ensures k + 2 < |a| ==> r.Region? && q.Region? && 0 <= a[k + 1] < |s| && 0 <= b[k + 1] < |t|
    ensures k + 2 < |a| ==> IsLeft(s, a, k + 1, r.rest) && IsLeft(t, b, k + 1, q.rest)
    ensures k + 2 < |a| ==> (SameAnchors(r, q) <==> s[a[k + 1]].id == t[b[k + 1]].id && SameAnchors(r.rest, q.rest))
    ensures k + 1 < |a| && (k + 2 == |a| ==> SameAnchors(r, q))
  {
    NextIsLeft(s, a, k, r);
    NextIsLeft(t, b, k, q);
  }

  /** Compares the items in order. */
  method SameItems(s: seq<Occurrence>, a: seq<int>, t: seq<Occurrence>, b: seq<int>) returns (same: bool)
    requires a == [-1] + Positions(Cut(s), 0) && b == [-1] + Positions(Cut(t), 0)
    ensures same <==> SameAnchors(Cut(s), Cut(t))
    ensures IsLeft(s, a, 0, Cut(s)) && IsLeft(t, b, 0, Cut(t))
  {
    AllIsLeft(s, a);
    AllIsLeft(t, b);
    if |a| != |b| {
      SameAnchorsSameCount(Cut(s), Cut(t), 0, 0);
      return false;
    }
    same := CompareItems(s, a, t, b, Cut(s), Cut(t));
  }

  method CompareItems(s: seq<Occurrence>, a: seq<int>, t: seq<Occurrence>, b: seq<int>, ghost all: Regions,
      ghost others: Regions)
    returns (same: bool)
    requires IsLeft(s, a, 0, all) && IsLeft(t, b, 0, others) && |a| == |b|
    ensures same <==> SameAnchors(all, others)
  {
    ghost var r, q := all, others;
    var k := 0;
    ItemsDecide(s, a, t, b, k, r, q);
    while k + 2 < |a|
      invariant 0 <= k && k + 1 < |a| && IsLeft(s, a, k, r) && IsLeft(t, b, k, q)
      invariant SameAnchors(all, others) <==> SameAnchors(r, q)
    {
      ItemsDecide(s, a, t, b, k, r, q);
      k := k + 1;
      if s[a[k]].id != t[b[k]].id { return false; }
      r, q := r.rest, q.rest;
    }
    ItemsDecide(s, a, t, b, k, r, q);
    same := true;
  }

  lemma {:induction false} SameAnchorsSameCount(r: Regions, q: Regions, i: int, j: int)
    ensures SameAnchors(r, q) ==> |Positions(r, i)| == |Positions(q, j)|
  {
    if r.Region? && q.Region? { SameAnchorsSameCount(r.rest, q.rest, i + |r.cues| + 1, j + |q.cues| + 1); }
  }

  /** `written` is the wanted body up to anchor `k`; `r` and `q` are what is left to compare. */
  ghost predicate Progress(
      old_: seq<Occurrence>, a: seq<int>, was: seq<Occurrence>, b: seq<int>, k: int, r: Regions, q: Regions,
      written: seq<Occurrence>, wanted: seq<Occurrence>)
  {
    && |a| == |b| && 0 <= k < |a|
    && if k + 1 == |a| then written == wanted && |written| == |was|
       else
         && IsLeft(old_, a, k, r) && IsLeft(was, b, k, q) && SameAnchors(r, q)
         && |written| == b[k] + 1
         && wanted == written + Join(RetainRegions(r, q))
  }

  lemma ProgressBegins(old_: seq<Occurrence>, a: seq<int>, was: seq<Occurrence>, b: seq<int>)
    requires IsLeft(old_, a, 0, Cut(old_)) && IsLeft(was, b, 0, Cut(was)) && SameAnchors(Cut(old_), Cut(was))
    requires a == [-1] + Positions(Cut(old_), 0) && b == [-1] + Positions(Cut(was), 0)
    ensures Progress(old_, a, was, b, 0, Cut(old_), Cut(was), [], Retain(old_, was))
  {
    SameAnchorsSameCount(Cut(old_), Cut(was), 0, 0);
    assert [] + Retain(old_, was) == Retain(old_, was);
  }

  function Advance(r: Regions): Regions {
    if r.Region? then r.rest else r
  }

  lemma RegionsSplit(r: Regions, q: Regions)
    requires SameAnchors(r, q)
    ensures r.Region? <==> q.Region?
    ensures q.Region? ==> SameAnchors(r.rest, q.rest)
    ensures q.Region? ==>
      Join(RetainRegions(r, q)) == RetainRegion(r.cues, q.cues) + [q.item] + Join(RetainRegions(r.rest, q.rest))
    ensures q.Tail? ==> Join(RetainRegions(r, q)) == RetainRegion(r.cues, q.cues)
  {}

  lemma ProgressSteps(
      old_: seq<Occurrence>, a: seq<int>, was: seq<Occurrence>, b: seq<int>, k: int, r: Regions, q: Regions,
      written: seq<Occurrence>, wanted: seq<Occurrence>)
    requires Progress(old_, a, was, b, k, r, q, written, wanted) && k + 1 < |a|
    ensures 0 <= a[k] + 1 <= a[k + 1] <= |old_| && old_[a[k] + 1..a[k + 1]] == r.cues
    ensures |written| == b[k] + 1 <= b[k + 1] <= |was| && was[b[k] + 1..b[k + 1]] == q.cues
    ensures Progress(old_, a, was, b, k + 1, Advance(r), Advance(q),
      written + RetainRegion(r.cues, q.cues) + (if q.Region? then [q.item] else []), wanted)
    ensures q.Region? ==> b[k + 1] < |was| && was[b[k + 1]] == q.item
    ensures q.Tail? ==> b[k + 1] == |was|
  {
    NextIsLeft(old_, a, k, r);
    NextIsLeft(was, b, k, q);
    RegionsSplit(r, q);
    if q.Region? {
      Reassociate(written, RetainRegion(r.cues, q.cues), [q.item], Join(RetainRegions(r.rest, q.rest)));
    } else {
      Reassociate(written, RetainRegion(r.cues, q.cues), [], []);
    }
  }

  lemma Reassociate(a: seq<Occurrence>, b: seq<Occurrence>, c: seq<Occurrence>, d: seq<Occurrence>)
    ensures a + (b + c + d) == a + b + c + d && b + [] + [] == b && a + b + [] == a + b
  {}

  /** The array holds what is written so far and, behind it, the body as it came. */
  ghost predicate Shows(now: seq<Occurrence>, written: seq<Occurrence>, was: seq<Occurrence>) {
    |written| <= |was| && now == written + was[|written|..]
  }

  lemma ShowsSlice(now: seq<Occurrence>, written: seq<Occurrence>, was: seq<Occurrence>, from: nat, to: nat)
    requires Shows(now, written, was) && |written| == from <= to <= |was|
    ensures |now| == |was| && now[..from] == written && now[from..to] == was[from..to]
  {}

  lemma ShowsStep(
      before: seq<Occurrence>, after: seq<Occurrence>, written: seq<Occurrence>, was: seq<Occurrence>, to: nat,
      run: seq<Occurrence>, item: seq<Occurrence>)
    requires Shows(before, written, was) && |written| + |run| == to <= |was|
    requires after == before[..|written|] + run + before[to..]
    requires to + |item| <= |was| && item == was[to..to + |item|]
    ensures Shows(after, written + run + item, was)
  {
    assert before[to..] == was[to..] == item + was[to + |item|..];
  }

  /** Writes the numbers that cues keep into the new body. */
  method RetainCueIds(old_: seq<Occurrence>, next: array<Occurrence>)
    modifies next
    ensures next[..] == Retain(old_, old(next[..]))
  {
    ghost var was := next[..];
    var a := Anchors(old_);
    var b := Anchors(next[..]);
    var same := SameItems(old_, a, next[..], b);
    if !same { return; }
    ProgressBegins(old_, a, was, b);
    WriteRegions(old_, a, next, b, Retain(old_, was));
  }

  method WriteRegions(old_: seq<Occurrence>, a: seq<int>, next: array<Occurrence>, b: seq<int>,
      ghost wanted: seq<Occurrence>)
    requires Progress(old_, a, next[..], b, 0, Cut(old_), Cut(next[..]), [], wanted)
    modifies next
    ensures next[..] == wanted
  {
    ghost var was := next[..];
    ghost var r, q := Cut(old_), Cut(was);
    ghost var written: seq<Occurrence> := [];
    var k := 0;
    while k + 1 < |a|
      invariant Progress(old_, a, was, b, k, r, q, written, wanted)
      invariant next.Length == |was| && Shows(next[..], written, was)
      decreases |a| - k
    {
      ProgressSteps(old_, a, was, b, k, r, q, written, wanted);
      WriteNext(old_[a[k] + 1..a[k + 1]], next, b[k] + 1, b[k + 1], was, written, q);
      written := written + RetainRegion(r.cues, q.cues) + if q.Region? then [q.item] else [];
      r, q := Advance(r), Advance(q);
      k := k + 1;
    }
  }

  /** Writes one region behind what is written, up to the item that follows it. */
  method WriteNext(
      run: seq<Occurrence>, next: array<Occurrence>, from: nat, to: nat, ghost was: seq<Occurrence>,
      ghost written: seq<Occurrence>, ghost q: Regions)
    requires Shows(next[..], written, was) && |written| == from <= to <= |was| && was[from..to] == q.cues
    requires q.Region? ==> to < |was| && was[to] == q.item
    modifies next
    ensures Shows(next[..], written + RetainRegion(run, q.cues) + (if q.Region? then [q.item] else []), was)
  {
    ghost var before, item := next[..], if q.Region? then [q.item] else [];
    ShowsSlice(before, written, was, from, to);
    RetainRun(run, next, from, to);
    ShowsStep(before, next[..], written, was, to, RetainRegion(run, q.cues), item);
  }

  /** The search for the next free number. */
  method NextNumber(last: nat, taken: set<string>) returns (ok: bool, n: nat)
    ensures FirstFree(last, taken) == if ok then Some(n) else None
  {
    n := last;
    ok := false;
    while !ok
      invariant FirstFree(last, taken) == if ok then Some(n) else FirstFree(n, taken)
      decreases MAX_CUE - n, !ok
    {
      if n >= MAX_CUE { return; }
      n := n + 1;
      ok := CueName(n) !in taken;
    }
  }

  function Prefixed(p: seq<Occurrence>, rest: Option<Allocation>): Option<Allocation> {
    match rest
    case None => None
    case Some(r) => Some(r.(body := p + r.body))
  }

  /** Numbering a body is numbering its first slot and then the rest. */
  lemma AllocateSplits(p: seq<Occurrence>, last: nat, taken: set<string>, s: seq<Occurrence>, x: Occurrence, n: nat)
    requires s != []
    requires s[0].id == "" ==> FirstFree(last, taken) == Some(n) && x == s[0].(id := CueName(n))
    requires s[0].id != "" ==> n == last && x == s[0]
    ensures Prefixed(p, Allocate(last, taken, s)) ==
      Prefixed(p + [x], Allocate(n, if s[0].id == "" then taken + {CueName(n)} else taken, s[1..]))
  {
    var rest := Allocate(n, if s[0].id == "" then taken + {CueName(n)} else taken, s[1..]);
    if rest.Some? { assert p + ([x] + rest.value.body) == p + [x] + rest.value.body; }
  }

  /** Numbers the slots that still have none; `ids` are the names already in use. */
  method AllocateCueIds(last: nat, ids: set<string>, next: array<Occurrence>) returns (ok: bool, newLast: nat)
    modifies next
    ensures ok == Allocate(last, ids, old(next[..])).Some?
    ensures ok ==> Allocate(last, ids, old(next[..])) == Some(Allocation(newLast, next[..]))
  {
    ghost var was := next[..];
    ghost var wanted := Allocate(last, ids, was);
    newLast := last;
    var taken := ids;
    assert was[0..] == was;
    AllPrefixed(wanted);
    for i := 0 to next.Length
      invariant next[i..] == was[i..]
      invariant wanted == Prefixed(next[..i], Allocate(newLast, taken, was[i..]))
    {
      ghost var start, before := newLast, taken;
      if next[i].id == "" {
        ok, newLast := NextNumber(newLast, taken);
        if !ok { return; }
        next[i] := next[i].(id := CueName(newLast));
        taken := taken + {CueName(newLast)};
      }
      AllocateSplits(next[..i], start, before, was[i..], next[i], newLast);
      assert was[i..][1..] == was[i + 1..];
      assert next[..i + 1] == next[..i] + [next[i]];
    }
    ok := true;
    assert next[..next.Length] + [] == next[..];
  }

  lemma AllPrefixed(o: Option<Allocation>)
    ensures Prefixed([], o) == o
  {
    if o.Some? { assert [] + o.value.body == o.value.body; }
  }
}
