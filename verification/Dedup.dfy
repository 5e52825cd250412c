/** Remembered messages as a value: a bounded queue of entries, and the log it is rebuilt from. */
module Dedup {
  import opened Options

  /** An answered message, or one that is known and not yet answered. */
  datatype Entry = Entry(key: string, hash: string, response: Option<string>)

  /** One line of the log. An empty response was not written. */
  datatype Record = Record(key: string, hash: string, response: string)

  datatype Verdict = NewMessage | Duplicate | ConflictingMessage

  // ---- Keys ----

  const NUL: string := ['\0']

  function Key(scope: string, ncsID: string, messageID: string): string {
    scope + NUL + ncsID + NUL + messageID
  }

  lemma HeadBeforeNul(a: string, s: string, b: string, t: string)
    requires a + NUL + s == b + NUL + t && '\0' !in a && '\0' !in b
    ensures a == b && s == t
  {
    var x := a + NUL + s;
    assert x[|a|] == '\0' && x[|b|] == '\0';
    assert forall i | 0 <= i < |a| :: x[i] in a;
    assert forall i | 0 <= i < |b| :: x[i] in b;
    assert x[..|a|] == a && x[..|b|] == b && x[|a| + 1..] == s && x[|b| + 1..] == t;
  }

  /** Messages of different scopes, senders or identifiers never share a key. */
  lemma KeyInjective(a: string, b: string, c: string, d: string, e: string, f: string)
    requires '\0' !in a && '\0' !in b && '\0' !in d && '\0' !in e && Key(a, b, c) == Key(d, e, f)
    ensures a == d && b == e && c == f
  {
    assert Key(a, b, c) == a + NUL + (b + NUL + c) && Key(d, e, f) == d + NUL + (e + NUL + f);
    HeadBeforeNul(a, b + NUL + c, d, e + NUL + f);
    HeadBeforeNul(b, c, e, f);
  }

  predicate HasNul(a: string, b: string, c: string) {
    '\0' in a || '\0' in b || '\0' in c
  }

  /** Another message has the same key. */
  ghost predicate IsShared(a: string, b: string, c: string) {
    exists d, e, f :: Key(d, e, f) == Key(a, b, c) && !(d == a && e == b && f == c)
  }

  lemma SplitAtNul(s: string) returns (head: string, tail: string)
    requires '\0' in s
    ensures s == head + NUL + tail
  {
    var i :| 0 <= i < |s| && s[i] == '\0';
    head, tail := s[..i], s[i + 1..];
  }

  lemma NulShares(a: string, b: string, c: string)
    requires HasNul(a, b, c)
    ensures IsShared(a, b, c)
  {
    if '\0' in a {
      var head, tail := SplitAtNul(a);
      assert Key(head, tail, b + NUL + c) == Key(a, b, c) && |head| < |a|;
    } else if '\0' in b {
      var head, tail := SplitAtNul(b);
      assert Key(a, head, tail + NUL + c) == Key(a, b, c) && |head| < |b|;
    } else {
      var head, tail := SplitAtNul(c);
      assert Key(a + NUL + b, head, tail) == Key(a, b, c) && |tail| < |c|;
    }
  }

  /** A key without a separator in its parts has its two separators where they were put. */
  lemma NulsOf(a: string, b: string, c: string, n: nat)
    requires n < |Key(a, b, c)|
    ensures n == |a| || n == |a| + 1 + |b| ==> Key(a, b, c)[n] == '\0'
    ensures !HasNul(a, b, c) && Key(a, b, c)[n] == '\0' ==> n == |a| || n == |a| + 1 + |b|
  {
    var k := Key(a, b, c);
    assert k == a + NUL + b + NUL + c;
    if n < |a| { assert k[n] == a[n]; }
    if |a| < n < |a| + 1 + |b| { assert k[n] == b[n - |a| - 1]; }
    if |a| + 1 + |b| < n { assert k[n] == c[n - |a| - |b| - 2]; }
  }

  lemma KeyParts(a: string, b: string, c: string)
    ensures var k := Key(a, b, c);
      |k| == |a| + |b| + |c| + 2 && k[..|a|] == a && k[|a| + 1..|a| + 1 + |b|] == b && k[|a| + |b| + 2..] == c
  {}

  lemma OneKey(a: string, b: string, c: string, d: string, e: string, f: string)
    requires !HasNul(a, b, c) && Key(d, e, f) == Key(a, b, c)
    ensures d == a && e == b && f == c
  {
    KeyParts(a, b, c);
    KeyParts(d, e, f);
    NulsOf(d, e, f, |d|);
    NulsOf(d, e, f, |d| + 1 + |e|);
    NulsOf(a, b, c, |d|);
    NulsOf(a, b, c, |d| + 1 + |e|);
  }

  /** Main result: a message shares its key with another exactly when the separator occurs in its
      scope, its sender or its identifier. None does that an XML document can carry. */
  lemma KeyIsSharedIffNul(a: string, b: string, c: string)
    ensures IsShared(a, b, c) <==> HasNul(a, b, c)
  {
    if HasNul(a, b, c) {
      NulShares(a, b, c);
    } else {
      forall d, e, f | Key(d, e, f) == Key(a, b, c) ensures d == a && e == b && f == c { OneKey(a, b, c, d, e, f); }
    }
  }

  // ---- Entries, oldest first ----

  ghost predicate DistinctKeys(s: seq<Entry>) {
    forall i, j | 0 <= i < j < |s| :: s[i].key != s[j].key
  }

  function Position(s: seq<Entry>, key: string): (r: Option<nat>)
    ensures r.Some? ==> r.value < |s| && s[r.value].key == key
    ensures r.None? ==> forall i | 0 <= i < |s| :: s[i].key != key
  {
    if s == [] then None
    else if s[|s| - 1].key == key then Some(|s| - 1)
    else Position(s[..|s| - 1], key)
  }

  /** The oldest entries make room. */
  function Evicted(capacity: nat, s: seq<Entry>): seq<Entry>
    requires capacity > 0
  {
    if |s| >= capacity then s[|s| - capacity + 1..] else s
  }

  function Insert(capacity: nat, s: seq<Entry>, e: Entry): seq<Entry>
    requires capacity > 0
  {
    Evicted(capacity, s) + [e]
  }

  function Judge(s: seq<Entry>, key: string, hash: string): Verdict {
    match Position(s, key)
    case None => NewMessage
    case Some(i) => if s[i].hash == hash then Duplicate else ConflictingMessage
  }

  function Checked(capacity: nat, s: seq<Entry>, key: string, hash: string): seq<Entry>
    requires capacity > 0
  {
    if Judge(s, key, hash).NewMessage? then Insert(capacity, s, Entry(key, hash, None)) else s
  }

  function Remembered(capacity: nat, s: seq<Entry>, key: string, response: string): seq<Entry>
    requires capacity > 0
  {
    match Position(s, key)
    case None => Insert(capacity, s, Entry(key, "", Some(response)))
    case Some(i) => s[i := s[i].(response := Some(response))]
  }

  /** A record read back: what it leaves out stays as it was. */
  function Restored(capacity: nat, s: seq<Entry>, r: Record): seq<Entry>
    requires capacity > 0
  {
    match Position(s, r.key)
    case None => Insert(capacity, s, Entry(r.key, r.hash, if r.response != "" then Some(r.response) else None))
    case Some(i) =>
      s[i := Entry(
        s[i].key,
        if r.hash != "" then r.hash else s[i].hash,
        if r.response != "" then Some(r.response) else s[i].response)]
  }

  function HashOf(s: seq<Entry>, key: string): string {
    match Position(s, key)
    case None => ""
    case Some(i) => s[i].hash
  }

  // ---- The log ----

  function Replay(capacity: nat, log: seq<Record>): seq<Entry>
    requires capacity > 0
  {
    if log == [] then [] else Restored(capacity, Replay(capacity, log[..|log| - 1]), log[|log| - 1])
  }

  lemma ReplayOneMore(capacity: nat, log: seq<Record>, r: Record)
    requires capacity > 0
    ensures Replay(capacity, log + [r]) == Restored(capacity, Replay(capacity, log), r)
  {
    assert (log + [r])[..|log|] == log;
  }

  function RecordOf(e: Entry): Record {
    Record(e.key, e.hash, if e.response.Some? then e.response.value else "")
  }

  /** The log rewritten from the live entries. */
  function Compacted(s: seq<Entry>): seq<Record> {
    seq(|s|, i requires 0 <= i < |s| => RecordOf(s[i]))
  }

  ghost predicate Bounded(capacity: nat, s: seq<Entry>) {
    DistinctKeys(s) && |s| <= capacity
  }

  ghost predicate Answered(s: seq<Entry>) {
    forall e | e in s :: e.response != Some("")
  }

  lemma PositionIs(s: seq<Entry>, i: nat)
    requires DistinctKeys(s) && i < |s|
    ensures Position(s, s[i].key) == Some(i)
  {}

  /** Entries stay distinct, within the bound and, read back, never answered with nothing. */
  lemma RestoredHolds(capacity: nat, s: seq<Entry>, r: Record)
    requires capacity > 0 && Bounded(capacity, s) && Answered(s)
    ensures Bounded(capacity, Restored(capacity, s, r)) && Answered(Restored(capacity, s, r))
  {}

  lemma {:induction false} ReplayHolds(capacity: nat, log: seq<Record>)
    requires capacity > 0
    ensures Bounded(capacity, Replay(capacity, log)) && Answered(Replay(capacity, log))
  {
    if log != [] {
      ReplayHolds(capacity, log[..|log| - 1]);
      RestoredHolds(capacity, Replay(capacity, log[..|log| - 1]), log[|log| - 1]);
    }
  }

  /** A new message and its record agree. */
  lemma CheckAgrees(capacity: nat, log: seq<Record>, key: string, hash: string)
    requires capacity > 0 && Judge(Replay(capacity, log), key, hash).NewMessage?
    ensures Replay(capacity, log + [Record(key, hash, "")]) == Checked(capacity, Replay(capacity, log), key, hash)
  {
    ReplayOneMore(capacity, log, Record(key, hash, ""));
  }

  /** Main result: an answer and its record agree, exactly when the answer is not empty. */
  lemma RememberAgrees(capacity: nat, log: seq<Record>, key: string, response: string)
    requires capacity > 0
    ensures var s := Replay(capacity, log); var next := Remembered(capacity, s, key, response);
      Replay(capacity, log + [Record(key, HashOf(next, key), response)]) == next <==> response != ""
  {
    var s := Replay(capacity, log);
    var next := Remembered(capacity, s, key, response);
    ReplayHolds(capacity, log);
    RememberedHash(capacity, s, key, response);
    var r := Record(key, HashOf(next, key), response);
    ReplayOneMore(capacity, log, r);
    match Position(s, key)
    case None =>
      assert next[|next| - 1] == Entry(key, "", Some(response));
    case Some(i) =>
      assert next[i].response == Some(response) && s[i].response != Some("");
  }

  lemma RememberedHash(capacity: nat, s: seq<Entry>, key: string, response: string)
    requires capacity > 0 && DistinctKeys(s)
    ensures DistinctKeys(Remembered(capacity, s, key, response))
    ensures HashOf(Remembered(capacity, s, key, response), key) == HashOf(s, key)
  {
    var next := Remembered(capacity, s, key, response);
    match Position(s, key)
    case None => PositionIs(next, |next| - 1);
    case Some(i) => PositionIs(next, i);
  }

  /** Main result: the rewritten log replays to the same entries in the same order. */
  lemma {:induction false} CompactionAgrees(capacity: nat, s: seq<Entry>)
    requires capacity > 0 && Bounded(capacity, s) && Answered(s)
    ensures Replay(capacity, Compacted(s)) == s
  {
    if s != [] {
      var init, last := s[..|s| - 1], s[|s| - 1];
      CompactionAgrees(capacity, init);
      assert Compacted(s)[..|s| - 1] == Compacted(init);
      assert Position(init, last.key).None?;
      assert s == init + [last];
      assert last in s;
    }
  }

  // ---- What the bound means ----

  function InsertAll(capacity: nat, s: seq<Entry>, more: seq<Entry>): seq<Entry>
    requires capacity > 0
  {
    if more == [] then s else Insert(capacity, InsertAll(capacity, s, more[..|more| - 1]), more[|more| - 1])
  }

  /** The newest of some entries, as many as the store holds. */
  function Newest(capacity: nat, s: seq<Entry>): seq<Entry> {
    if |s| <= capacity then s else s[|s| - capacity..]
  }

  lemma InsertsNewest(capacity: nat, s: seq<Entry>, e: Entry)
    requires capacity > 0
    ensures Insert(capacity, Newest(capacity, s), e) == Newest(capacity, s + [e])
  {}

  lemma InsertsLast(capacity: nat, s: seq<Entry>, more: seq<Entry>)
    requires capacity > 0 && more != []
    requires InsertAll(capacity, s, more[..|more| - 1]) == Newest(capacity, s + more[..|more| - 1])
    ensures InsertAll(capacity, s, more) == Newest(capacity, s + more)
  {
    var init, e := more[..|more| - 1], more[|more| - 1];
    InsertsNewest(capacity, s + init, e);
    AppendLast(s, more);
  }

  lemma AppendLast(s: seq<Entry>, more: seq<Entry>)
    requires more != []
    ensures s + more == (s + more[..|more| - 1]) + [more[|more| - 1]]
  {}

  /** Main result: a message is forgotten only after as many newer ones as the store holds. The
      entries are always the newest. */
  lemma {:induction false} NewestAreKept(capacity: nat, s: seq<Entry>, more: seq<Entry>)
    requires capacity > 0 && |s| <= capacity
    ensures InsertAll(capacity, s, more) == Newest(capacity, s + more)
  {
    if more != [] {
      NewestAreKept(capacity, s, more[..|more| - 1]);
      InsertsLast(capacity, s, more);
    } else {
      assert s + more == s;
    }
  }
}
