/** Cutting a byte stream into messages. */
module Framer {
  import opened Options
  import opened Wire

  const MAX_BUFFER: nat := 0x40_0000

  const CLOSE: seq<Byte> := Bytes(CLOSE_TAG)

  datatype WireError = FrameTooLarge | InvalidUnits | EnvelopeRequired

  /** The bytes of the closing tag start at `i`, at any alignment. */
  predicate MatchesAt(b: seq<Byte>, i: int) {
    0 <= i && i + |CLOSE| <= |b| && b[i..i + |CLOSE|] == CLOSE
  }

  predicate ClosesAt(b: seq<Byte>, unit: int) {
    MatchesAt(b, 2 * unit)
  }

  /** The unit at which the first closing tag starts that starts at a whole unit. */
  function FirstClose(b: seq<Byte>, from: nat): (r: Option<nat>)
    ensures r.Some? ==> from <= r.value && ClosesAt(b, r.value) && forall j | from <= j < r.value :: !ClosesAt(b, j)
    ensures r.None? ==> forall j | from <= j :: !ClosesAt(b, j)
    decreases if 2 * from <= |b| then |b| - 2 * from + 1 else 0
  {
    if 2 * from > |b| then None
    else if ClosesAt(b, from) then Some(from)
    else FirstClose(b, from + 1)
  }

  // ---- One message ----

  datatype Step = Frame(text: string, end: nat) | Waiting | Failed(error: WireError)

  /** The root is checked once a message, as soon as it can be read. */
  function RootOf(b: seq<Byte>): Root {
    if HasUnits(b) then RootName(TextOf(b)) else Malformed
  }

  function RootError(b: seq<Byte>, checked: bool): Option<WireError> {
    if checked then None
    else
      match RootOf(b)
      case Malformed => Some(InvalidUnits)
      case Incomplete => None
      case Named(name) => if name == "mos" then None else Some(EnvelopeRequired)
  }

  function Content(b: seq<Byte>): (r: Step)
    ensures r.Frame? ==> 0 < r.end <= |b|
  {
    var close := FirstClose(b, 0);
    if close.None? then Waiting else Cut(b, EndOf(close.value))
  }

  /** Where the message ends whose closing tag starts at this unit. */
  function EndOf(close: nat): nat {
    2 * (close + |CLOSE_TAG|)
  }

  /** The first bytes as a message. */
  function Cut(b: seq<Byte>, size: nat): (r: Step)
    requires 0 < size <= |b|
    ensures r.Frame? ==> r.end == size
    ensures !r.Waiting?
  {
    match Decode(b[..size])
    case None => Failed(InvalidUnits)
    case Some(t) => Frame(t, size)
  }

  function Verdict(b: seq<Byte>, checked: bool): (r: Step)
    ensures r.Frame? ==> 0 < r.end <= |b|
  {
    match RootError(b, checked)
    case Some(e) => Failed(e)
    case None => Content(b)
  }

  /** The root has been read and found right. */
  function CheckedAfter(b: seq<Byte>, checked: bool): bool {
    checked || RootOf(b) == Named("mos")
  }

  datatype Drained = Drained(frames: seq<string>, rest: seq<Byte>, checked: bool, error: Option<WireError>)

  /** Everything that is complete. */
  function Drain(b: seq<Byte>, checked: bool): Drained
    decreases |b|
  {
    match Verdict(b, checked)
    case Frame(t, end) =>
      var d := Drain(b[end..], false);
      d.(frames := [t] + d.frames)
    case Waiting => Drained([], b, CheckedAfter(b, checked), None)
    case Failed(e) => Drained([], b, CheckedAfter(b, checked), Some(e))
  }

  /** Chunk after chunk, each drained before the next. */
  function FeedAll(b: seq<Byte>, checked: bool, chunks: seq<seq<Byte>>): Drained
    decreases |chunks|
  {
    if chunks == [] then Drained([], b, checked, None)
    else if |b| + |chunks[0]| > MAX_BUFFER then Drained([], b, checked, Some(FrameTooLarge))
    else
      var d := Drain(b + chunks[0], checked);
      if d.error.Some? then d
      else
        var more := FeedAll(d.rest, d.checked, chunks[1..]);
        more.(frames := d.frames + more.frames)
  }

  // ---- Valid streams ----

  /** A message whose root is the envelope and which ends with the first closing tag in it. */
  predicate IsMessage(t: string) {
    && IsWireText(t) && RootName(t) == Named("mos")
    && |t| >= |CLOSE_TAG| && Index(t, CLOSE_TAG, 0) == Some(|t| - |CLOSE_TAG|)
  }

  predicate AreMessages(ts: seq<string>) {
    forall t | t in ts :: IsMessage(t)
  }

  function Join(ts: seq<string>): string {
    if ts == [] then "" else ts[0] + Join(ts[1..])
  }

  function JoinChunks(chunks: seq<seq<Byte>>): seq<Byte> {
    if chunks == [] then [] else chunks[0] + JoinChunks(chunks[1..])
  }

  function Received(ts: seq<string>): seq<string> {
    seq(|ts|, i requires 0 <= i < |ts| => Strip(TrimMark(ts[i])))
  }

  lemma {:induction false} JoinIsText(ts: seq<string>)
    requires AreMessages(ts)
    ensures IsWireText(Join(ts))
  {
    if ts != [] {
      assert ts[0] in ts;
      JoinIsText(ts[1..]);
    }
  }

  lemma SameBytes(s: string, t: string)
    requires InPlane(s) && InPlane(t) && Bytes(s) == Bytes(t)
    ensures s == t
  {
    assert 2 * |s| == 2 * |t|;
    forall i | 0 <= i < |s| ensures s[i] == t[i] {
      UnitOf(s, Bytes(s), i);
      UnitOf(t, Bytes(t), i);
    }
  }

  lemma BytesSlice(t: string, i: nat, j: nat)
    requires i <= j <= |t|
    ensures Bytes(t)[2 * i..2 * j] == Bytes(t[i..j])
  {
    assert t == t[..i] + t[i..j] + t[j..];
    BytesJoin(t[..i], t[i..j]);
    BytesJoin(t[..i] + t[i..j], t[j..]);
  }

  lemma OccursIsSlice(s: string, p: string, i: nat)
    requires i + |p| <= |s|
    ensures OccursAt(s, p, i) <==> s[i..i + |p|] == p
  {
    var slice := s[i..i + |p|];
    assert forall k | 0 <= k < |p| :: slice[k] == s[i + k];
    assert OccursAt(s, p, i) ==> slice == p;
  }

  /** At a whole unit, the bytes of the closing tag are the closing tag. */
  lemma CloseIsTag(t: string, b: seq<Byte>, j: nat)
    requires InPlane(t) && b <= Bytes(t) && 2 * j + |CLOSE| <= |b|
    ensures ClosesAt(b, j) <==> OccursAt(t, CLOSE_TAG, j)
  {
    var slice := t[j..j + |CLOSE_TAG|];
    assert b[2 * j..2 * j + |CLOSE|] == Bytes(t)[2 * j..2 * (j + |CLOSE_TAG|)];
    BytesSlice(t, j, j + |CLOSE_TAG|);
    OccursIsSlice(t, CLOSE_TAG, j);
    if Bytes(slice) == CLOSE { SameBytes(slice, CLOSE_TAG); }
  }

  lemma FirstCloseIs(b: seq<Byte>, r: Option<nat>)
    requires r.Some? ==> ClosesAt(b, r.value) && forall j | 0 <= j < r.value :: !ClosesAt(b, j)
    requires r.None? ==> forall j | 0 <= j && 2 * j + |CLOSE| <= |b| :: !ClosesAt(b, j)
    ensures FirstClose(b, 0) == r
  {
    if r.Some? { assert !(r.value < FirstClose(b, 0).value); }
  }

  /** The first closing tag of a message that begins a stream is the message's own. */
  lemma CloseOfFirst(t: string, all: string, b: seq<Byte>)
    requires |t| >= |CLOSE_TAG| && Index(t, CLOSE_TAG, 0) == Some(|t| - |CLOSE_TAG|)
    requires t <= all && InPlane(all) && b <= Bytes(all)
    ensures FirstClose(b, 0) == if |b| < 2 * |t| then None else Some(|t| - |CLOSE_TAG|)
  {
    FirstOccursFirst(t, all, CLOSE_TAG);
    forall j | 0 <= j <= |t| - |CLOSE_TAG| && 2 * j + |CLOSE| <= |b|
      ensures ClosesAt(b, j) <==> j == |t| - |CLOSE_TAG| {
      CloseIsTag(all, b, j);
    }
    FirstCloseIs(b, if |b| < 2 * |t| then None else Some(|t| - |CLOSE_TAG|));
  }

  /** Of a message that begins a stream, the root is not known yet, or is the envelope. */
  lemma RootOfFirst(t: string, more: string, b: seq<Byte>)
    requires IsMessage(t) && IsWireText(t + more) && b <= Bytes(t + more)
    ensures RootOf(b) in {Incomplete, Named("mos")}
  {
    PrefixText(t + more, b);
    RootMonotone(t, t + more);
    RootMonotone((t + more)[..|b| / 2], t + more);
  }

  lemma FirstBytes(t: string, more: string, b: seq<Byte>)
    requires b <= Bytes(t + more) && |b| >= 2 * |t|
    ensures b[..2 * |t|] == Bytes(t) && b[2 * |t|..] <= Bytes(more)
  {
    BytesJoin(t, more);
  }

  lemma RootIsRight(b: seq<Byte>, checked: bool)
    requires RootOf(b) in {Incomplete, Named("mos")}
    ensures RootError(b, checked) == None
  {}

  lemma FirstDecodes(t: string, more: string, b: seq<Byte>)
    requires IsWireText(t) && b <= Bytes(t + more) && |b| >= 2 * |t|
    ensures t != "" ==> Cut(b, 2 * |t|) == Frame(Strip(TrimMark(t)), 2 * |t|)
  {
    FirstBytes(t, more, b);
    BytesDecode(t);
  }

  lemma VerdictOfFirst(t: string, more: string, b: seq<Byte>, checked: bool)
    requires IsMessage(t) && IsWireText(t + more) && b <= Bytes(t + more)
    ensures |b| < 2 * |t| ==> Verdict(b, checked) == Waiting
    ensures |b| >= 2 * |t| ==> Verdict(b, checked) == Frame(Strip(TrimMark(t)), 2 * |t|)
  {
    CloseOfFirst(t, t + more, b);
    RootOfFirst(t, more, b);
    RootIsRight(b, checked);
    if |b| >= 2 * |t| {
      FirstDecodes(t, more, b);
      assert EndOf(|t| - |CLOSE_TAG|) == 2 * |t|;
    }
  }

  lemma VerdictOfNothing(checked: bool)
    ensures Verdict([], checked) == Waiting
  {
    assert TextOf([]) == "";
  }

  /** `k` whole messages were read, and the rest is the beginning of the others. */
  ghost predicate ReadUpTo(d: Drained, b: seq<Byte>, ts: seq<string>, k: nat) {
    && k <= |ts|
    && d.error == None && d.frames == Received(ts[..k])
    && b == Bytes(Join(ts[..k])) + d.rest && d.rest <= Bytes(Join(ts[k..]))
    && (if k < |ts| then |d.rest| < 2 * |ts[k]| else d.rest == [])
  }

  lemma {:induction false} DrainReads(b: seq<Byte>, checked: bool, ts: seq<string>) returns (k: nat)
    requires AreMessages(ts) && b <= Bytes(Join(ts))
    ensures ReadUpTo(Drain(b, checked), b, ts, k)
    decreases |ts|
  {
    k := 0;
    assert ts[0..] == ts && Received(ts[..0]) == [] && Bytes(Join(ts[..0])) + b == b;
    if ts == [] {
      VerdictOfNothing(checked);
    } else {
      assert ts[0] in ts && AreMessages(ts[1..]);
      JoinIsText(ts);
      VerdictOfFirst(ts[0], Join(ts[1..]), b, checked);
      if |b| >= 2 * |ts[0]| {
        FirstBytes(ts[0], Join(ts[1..]), b);
        var n := DrainReads(b[2 * |ts[0]|..], false, ts[1..]);
        ReadOneMore(Drain(b, checked), b, ts, n);
        k := n + 1;
      }
    }
  }

  lemma TakeOneMore(ts: seq<string>, n: nat)
    requires n < |ts|
    ensures ts[..n + 1] == [ts[0]] + ts[1..][..n] && ts[n + 1..] == ts[1..][n..]
  {}

  lemma ReceivedOneMore(first: string, read: seq<string>)
    ensures Received([first] + read) == [Strip(TrimMark(first))] + Received(read)
  {}

  lemma JoinOneMore(first: string, read: seq<string>)
    ensures Bytes(Join([first] + read)) == Bytes(first) + Bytes(Join(read))
  {
    assert ([first] + read)[1..] == read;
    BytesJoin(first, Join(read));
  }

  lemma ThreeParts(b: seq<Byte>, first: seq<Byte>, read: seq<Byte>, rest: seq<Byte>)
    requires |first| <= |b| && b[..|first|] == first && b[|first|..] == read + rest
    ensures b == first + read + rest
  {
    assert b == b[..|first|] + b[|first|..];
  }

  lemma ReadOneMore(d: Drained, b: seq<Byte>, ts: seq<string>, n: nat)
    requires ts != [] && |b| >= 2 * |ts[0]| && b[..2 * |ts[0]|] == Bytes(ts[0])
    requires d.frames != [] && d.frames[0] == Strip(TrimMark(ts[0]))
    requires ReadUpTo(d.(frames := d.frames[1..]), b[2 * |ts[0]|..], ts[1..], n)
    ensures ReadUpTo(d, b, ts, n + 1)
  {
    var first, read := ts[0], ts[1..][..n];
    TakeOneMore(ts, n);
    ReceivedOneMore(first, read);
    JoinOneMore(first, read);
    ThreeParts(b, Bytes(first), Bytes(Join(read)), d.rest);
  }

  lemma {:induction false} JoinSplits(ts: seq<string>, k: nat)
    requires k <= |ts|
    ensures Join(ts) == Join(ts[..k]) + Join(ts[k..])
  {
    if k > 0 {
      JoinSplits(ts[1..], k - 1);
      assert ts[..k][1..] == ts[1..][..k - 1] && ts[1..][k - 1..] == ts[k..];
    } else {
      assert ts[..0] == [] && ts[0..] == ts;
    }
  }

  lemma TailsAgree(a: seq<Byte>, s: seq<Byte>, t: seq<Byte>)
    requires a + s == a + t
    ensures s == t
  {
    assert s == (a + s)[|a|..] && t == (a + t)[|a|..];
  }

  lemma RestOfBytes(a: seq<Byte>, rest: seq<Byte>, later: seq<Byte>, t: seq<Byte>)
    requires (a + rest) + later == a + t
    ensures rest + later == t
  {
    assert (a + rest) + later == a + (rest + later);
    TailsAgree(a, rest + later, t);
  }

  lemma RestIsRest(now: seq<Byte>, later: seq<Byte>, rest: seq<Byte>, ts: seq<string>, k: nat)
    requires k <= |ts| && now + later == Bytes(Join(ts)) && now == Bytes(Join(ts[..k])) + rest
    ensures rest + later == Bytes(Join(ts[k..]))
  {
    JoinSplits(ts, k);
    BytesJoin(Join(ts[..k]), Join(ts[k..]));
    RestOfBytes(Bytes(Join(ts[..k])), rest, later, Bytes(Join(ts[k..])));
  }

  /** A message and a chunk always fit the buffer together. */
  ghost predicate Fits(ts: seq<string>, chunks: seq<seq<Byte>>) {
    forall t, c | t in ts && c in chunks :: 2 * |t| + |c| <= MAX_BUFFER
  }

  /** Main result: however a stream of messages is cut into chunks, odd cuts and misaligned tags
      included, the same messages are read, each whole, and no byte is lost or read twice, as long as
      what is unread fits the buffer. */
  lemma {:induction false} MessagesDoNotDependOnChunks(b: seq<Byte>, checked: bool, chunks: seq<seq<Byte>>,
      ts: seq<string>)
    requires AreMessages(ts) && b + JoinChunks(chunks) == Bytes(Join(ts))
    requires if ts == [] then b == [] else |b| < 2 * |ts[0]|
    ensures var d := FeedAll(b, checked, chunks);
      && (d.error == None ==> d.frames == Received(ts) && d.rest == [])
      && d.error in {None, Some(FrameTooLarge)}
      && (Fits(ts, chunks) ==> d.error == None)
    decreases |chunks|
  {
    if chunks == [] {
      NothingLeft(b, ts);
    } else if |b| + |chunks[0]| > MAX_BUFFER {
      TooLargeDoesNotFit(b, chunks, ts);
    } else {
      var now, later := b + chunks[0], JoinChunks(chunks[1..]);
      assert b + JoinChunks(chunks) == now + later;
      var k := DrainReads(now, checked, ts);
      var d := Drain(now, checked);
      RestIsRest(now, later, d.rest, ts, k);
      assert AreMessages(ts[k..]);
      MessagesDoNotDependOnChunks(d.rest, d.checked, chunks[1..], ts[k..]);
      FeedsOn(b, checked, chunks);
      ReceivedSplits(ts, k);
      FitsOn(ts, chunks, k);
    }
  }

  function FirstSize(ts: seq<string>): nat {
    if ts == [] then 0 else 2 * |ts[0]|
  }

  lemma TooLargeDoesNotFit(b: seq<Byte>, chunks: seq<seq<Byte>>, ts: seq<string>)
    requires chunks != [] && |b| + |chunks[0]| > MAX_BUFFER && b + JoinChunks(chunks) == Bytes(Join(ts))
    requires if ts == [] then b == [] else |b| < 2 * |ts[0]|
    ensures !Fits(ts, chunks)
  {
    var all := JoinChunks(chunks);
    assert all == chunks[0] + JoinChunks(chunks[1..]) && |b| + |all| == 2 * |Join(ts)|;
    assert ts != [] && ts[0] in ts && chunks[0] in chunks;
  }

  lemma FitsOn(ts: seq<string>, chunks: seq<seq<Byte>>, k: nat)
    requires chunks != [] && k <= |ts|
    ensures Fits(ts, chunks) ==> Fits(ts[k..], chunks[1..])
  {
    assert forall c | c in chunks[1..] :: c in chunks;
    assert forall t | t in ts[k..] :: t in ts;
  }

  lemma FeedsOn(b: seq<Byte>, checked: bool, chunks: seq<seq<Byte>>)
    requires chunks != [] && |b| + |chunks[0]| <= MAX_BUFFER && Drain(b + chunks[0], checked).error == None
    ensures var d := Drain(b + chunks[0], checked); var more := FeedAll(d.rest, d.checked, chunks[1..]);
      FeedAll(b, checked, chunks) == Drained(d.frames + more.frames, more.rest, more.checked, more.error)
  {}

  lemma ReceivedSplits(ts: seq<string>, k: nat)
    requires k <= |ts|
    ensures Received(ts) == Received(ts[..k]) + Received(ts[k..])
  {}

  lemma NothingLeft(b: seq<Byte>, ts: seq<string>)
    requires b + [] == Bytes(Join(ts)) && (if ts == [] then b == [] else |b| < 2 * |ts[0]|)
    ensures ts == [] && b == []
  {
    assert |b| == 2 * |Join(ts)| >= FirstSize(ts);
  }

  /** What a sender puts on the wire for a document. */
  function Sent(x: string): string {
    DECLARED + "\n" + Strip(x)
  }

  function SentAll(xs: seq<string>): seq<string> {
    seq(|xs|, i requires 0 <= i < |xs| => Sent(xs[i]))
  }

  lemma SentIsEncoded(x: string)
    requires IsWireText(Sent(x))
    ensures Encode(x) == Some(Bytes(Sent(x))) && Strip(TrimMark(Sent(x))) == "\n" + Strip(x)
  {
    assert InPlane(Sent(x));
    DeclaredStrips(Strip(x));
  }

  lemma AllEncoded(xs: seq<string>)
    requires AreMessages(SentAll(xs))
    ensures forall i | 0 <= i < |xs| ::
      Encode(xs[i]) == Some(Bytes(Sent(xs[i]))) && Received(SentAll(xs))[i] == "\n" + Strip(xs[i])
  {
    forall i | 0 <= i < |xs|
      ensures Encode(xs[i]) == Some(Bytes(Sent(xs[i]))) && Received(SentAll(xs))[i] == "\n" + Strip(xs[i])
    {
      assert SentAll(xs)[i] in SentAll(xs);
      SentIsEncoded(xs[i]);
    }
  }

  lemma StreamIsRead(chunks: seq<seq<Byte>>, ts: seq<string>)
    requires AreMessages(ts) && JoinChunks(chunks) == Bytes(Join(ts)) && Fits(ts, chunks)
    ensures var d := FeedAll([], false, chunks); d.error == None && d.rest == [] && d.frames == Received(ts)
  {
    assert [] + JoinChunks(chunks) == JoinChunks(chunks);
    assert ts != [] ==> ts[0] in ts;
    MessagesDoNotDependOnChunks([], false, chunks, ts);
  }

  /** Main result: documents that are encoded, sent in any cutting, framed and decoded arrive in
      order and without their declarations. */
  lemma EncodedMessagesArrive(xs: seq<string>, chunks: seq<seq<Byte>>)
    requires AreMessages(SentAll(xs)) && JoinChunks(chunks) == Bytes(Join(SentAll(xs))) && Fits(SentAll(xs), chunks)
    ensures forall i | 0 <= i < |xs| :: Encode(xs[i]) == Some(Bytes(Sent(xs[i])))
    ensures var d := FeedAll([], false, chunks);
      && d.error == None && d.rest == [] && |d.frames| == |xs|
      && forall i | 0 <= i < |xs| :: d.frames[i] == "\n" + Strip(xs[i])
  {
    StreamIsRead(chunks, SentAll(xs));
    AllEncoded(xs);
  }

  // ---- The framer ----

  class UCS2BEFramer {
    var buffer: seq<Byte>
    var rootChecked: bool
    var searchFrom: nat

    /** Nothing before `searchFrom` can be the closing tag of the message. */
    ghost predicate Valid()
      reads this
    {
      && (searchFrom == 0 || searchFrom + |CLOSE| <= |buffer| + 1)
      && forall j | 0 <= j && 2 * j < searchFrom :: !ClosesAt(buffer, j)
    }

    constructor ()
      ensures Valid() && buffer == [] && !rootChecked
    {
      buffer, rootChecked, searchFrom := [], false, 0;
    }

    method Append(data: seq<Byte>) returns (ok: bool)
      requires Valid()
      modifies this
      ensures Valid() && rootChecked == old(rootChecked)
      ensures ok <==> old(|buffer|) + |data| <= MAX_BUFFER
      ensures buffer == if ok then old(buffer) + data else old(buffer)
    {
      if |buffer| + |data| > MAX_BUFFER { return false; }
      StillNoClose(buffer, data, searchFrom);
      buffer := buffer + data;
      ok := true;
    }

    /** The first match at any alignment. */
    method Search(from: nat) returns (index: Option<nat>)
      requires from <= |buffer|
      ensures index.Some? ==> from <= index.value && MatchesAt(buffer, index.value)
      ensures forall i | from <= i && (index.Some? ==> i < index.value) :: !MatchesAt(buffer, i)
    {
      for i := from to |buffer|
        invariant forall k | from <= k < i :: !MatchesAt(buffer, k)
      {
        if MatchesAt(buffer, i) { return Some(i); }
      }
      index := None;
    }

    /** The end of the first closing tag at a whole unit. */
    method FindClose() returns (close: Option<nat>)
      requires Valid()
      modifies `searchFrom
      ensures Valid() && close == FirstClose(buffer, 0)
    {
      while true
        invariant Valid()
        decreases |buffer| + 1 - searchFrom
      {
        var index := Search(searchFrom);
        if index.None? {
          searchFrom := if |buffer| + 1 >= |CLOSE| then |buffer| + 1 - |CLOSE| else 0;
          FirstCloseIs(buffer, None);
          return None;
        }
        if index.value % 2 == 0 {
          FirstCloseIs(buffer, Some(index.value / 2));
          return Some(index.value / 2);
        }
        searchFrom := index.value + 1;
      }
    }

    method CheckRoot() returns (error: Option<WireError>)
      requires Valid()
      modifies `rootChecked
      ensures Valid() && error == RootError(buffer, old(rootChecked)) &&
        rootChecked == CheckedAfter(buffer, old(rootChecked))
    {
      if rootChecked { return None; }
      var root := RootOf(buffer);
      match root
      case Malformed => error := Some(InvalidUnits);
      case Incomplete => error := None;
      case Named(name) =>
        rootChecked := name == "mos";
        error := if rootChecked then None else Some(EnvelopeRequired);
    }

    /** The next message, once it is there. */
    method Next() returns (step: Step)
      requires Valid()
      modifies this
      ensures Valid() && step == Verdict(old(buffer), old(rootChecked))
      ensures buffer == if step.Frame? then old(buffer[step.end..]) else old(buffer)
      ensures rootChecked == (!step.Frame? && CheckedAfter(old(buffer), old(rootChecked)))
    {
      var error := CheckRoot();
      if error.Some? { return Failed(error.value); }
      var close := FindClose();
      if close.None? { return Waiting; }
      var end := EndOf(close.value);
      step := Cut(buffer, end);
      if step.Failed? { return; }
      buffer, rootChecked, searchFrom := buffer[end..], false, 0;
    }

    /** Takes in a chunk and reads everything that is complete. */
    method Receive(chunk: seq<Byte>) returns (frames: seq<string>, error: Option<WireError>)
      requires Valid()
      modifies this
      ensures Valid() && Drained(frames, buffer, rootChecked, error) == FeedAll(old(buffer), old(rootChecked), [chunk])
    {
      frames, error := [], None;
      ghost var all := Drain(buffer + chunk, rootChecked);
      FeedsOne(buffer, rootChecked, chunk);
      var ok := Append(chunk);
      if !ok { return [], Some(FrameTooLarge); }
      var more := true;
      assert After([], all) == all;
      while more
        invariant Valid()
        invariant all ==
          if more then After(frames, Drain(buffer, rootChecked)) else Drained(frames, buffer, rootChecked, error)
        decreases more, |buffer|
      {
        DrainStep(buffer, rootChecked, frames);
        var step := Next();
        if step.Frame? {
          frames := frames + [step.text];
        } else {
          more := false;
          error := if step.Failed? then Some(step.error) else None;
        }
      }
    }
  }

  /** What was read before counts too. */
  function After(frames: seq<string>, d: Drained): Drained {
    d.(frames := frames + d.frames)
  }

  lemma DrainStep(b: seq<Byte>, checked: bool, frames: seq<string>)
    ensures After(frames, Drain(b, checked)) == match Verdict(b, checked)
      case Frame(t, end) => After(frames + [t], Drain(b[end..], false))
      case Waiting => Drained(frames, b, CheckedAfter(b, checked), None)
      case Failed(e) => Drained(frames, b, CheckedAfter(b, checked), Some(e))
  {
    assert frames + [] == frames;
    match Verdict(b, checked)
    case Frame(t, end) =>
      assert frames + ([t] + Drain(b[end..], false).frames) == frames + [t] + Drain(b[end..], false).frames;
    case Waiting =>
    case Failed(_) =>
  }

  lemma FeedsOne(b: seq<Byte>, checked: bool, chunk: seq<Byte>)
    ensures FeedAll(b, checked, [chunk]) ==
      if |b| + |chunk| > MAX_BUFFER then Drained([], b, checked, Some(FrameTooLarge)) else Drain(b + chunk, checked)
  {
    var d := Drain(b + chunk, checked);
    assert [chunk][1..] == [] && d.frames + [] == d.frames;
  }

  /** What is known not to be a closing tag stays none when more arrives. */
  lemma StillNoClose(b: seq<Byte>, more: seq<Byte>, from: nat)
    requires from == 0 || from + |CLOSE| <= |b| + 1
    requires forall j | 0 <= j && 2 * j < from :: !ClosesAt(b, j)
    ensures forall j | 0 <= j && 2 * j < from :: !ClosesAt(b + more, j)
  {
    forall j | 0 <= j && 2 * j < from ensures !ClosesAt(b + more, j) {
      assert !ClosesAt(b, j) && 2 * j + |CLOSE| <= |b|;
      assert (b + more)[2 * j..2 * j + |CLOSE|] == b[2 * j..2 * j + |CLOSE|];
    }
  }
}