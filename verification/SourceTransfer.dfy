/** Building the objects of a document and bringing them to a receiver, one request at a time. */
module SourceTransfers {
  import opened Options
  import opened Transfer

  const PART: nat := 32768
  const WINDOW: nat := 256

  // ---- Objects ----

  /** Splits an ordered array into chunks. */
  method Split(c: Coding, rows: seq<Row>) returns (chunks: seq<Body>)
    ensures chunks == Chunks(c, rows)
  {
    chunks := [];
    var left := rows;
    while left != []
      invariant chunks + Chunks(c, left) == Chunks(c, rows)
      decreases |left|
    {
      var n, bytes: nat := 0, 2;
      while n < |left| && (n == 0 || bytes + c.width(left[n]) + 1 <= LIMIT)
        invariant n <= |left| && Fill(c, left, 0, 2) == Fill(c, left, n, bytes)
        decreases |left| - n
      {
        bytes := bytes + c.width(left[n]) + 1;
        n := n + 1;
      }
      ghost var tail := Chunks(c, left);
      assert tail == [Rows(left[..n])] + Chunks(c, left[n..]);
      assert chunks + tail == chunks + [Rows(left[..n])] + Chunks(c, left[n..]);
      chunks := chunks + [Rows(left[..n])];
      left := left[n..];
    }
  }

  method Pack(c: Coding, rows: seq<Row>, large: bool) returns (list: List, chunks: seq<Body>)
    ensures list == Packed(c, rows, large) && chunks == PackedChunks(c, rows, large)
  {
    if !large { return Whole(rows), []; }
    chunks := Split(c, rows);
    list := Parts(Hashes(c, chunks));
  }

  method BuildStories(c: Coding, stories: seq<Story>) returns (objects: seq<Body>, refs: seq<Row>)
    ensures objects == StoryObjects(c, stories) && refs == Refs(c, stories)
  {
    objects, refs := [], [];
    for i := 0 to |stories|
      invariant objects == StoryObjects(c, stories[..i]) && refs == Refs(c, stories[..i])
    {
      assert stories[..i + 1][..i] == stories[..i] && stories[..i + 1][i] == stories[i];
      var list, chunks := Pack(c, stories[i].occurrences, IsLargeStory(c, stories[i]));
      var body := StoryBody(stories[i].fields, list);
      objects := objects + chunks + [body];
      refs := refs + [Ref(stories[i].id, Hash(c, body))];
      assert refs == Refs(c, stories[..i + 1]);
    }
    assert stories[..|stories|] == stories;
  }

  /** Drops repetitions, keeping the first of each. */
  method DropRepeated(all: seq<Body>) returns (objects: seq<Body>)
    ensures objects == Unique(all)
  {
    objects := [];
    for i := 0 to |all|
      invariant objects == Unique(all[..i])
    {
      assert all[..i + 1][..i] == all[..i];
      UniqueIs(all[..i]);
      if all[i] !in objects { objects := objects + [all[i]]; }
    }
    assert all[..|all|] == all;
  }

  method BuildObjects(c: Coding, d: Document) returns (objects: seq<Body>)
    ensures objects == Objects(c, d)
  {
    var stories, rows := [], [];
    if d.RundownDocument? { stories, rows := BuildStories(c, d.stories); } else { rows := d.rundowns; }
    var list, chunks := Pack(c, rows, ArraySize(c, rows) > LIMIT);
    objects := DropRepeated([Manifest(d.RundownDocument?, d.fields, list)] + stories + chunks);
  }

  // ---- Requests ----

  datatype Request =
    | Start
    | Part(hash: string, index: nat, parts: nat, bytes: nat, data: string)
    | Missing(hashes: seq<string>)
    | Commit
    | Heartbeat

  /** `NoAnswer` is every failure that says nothing; receipts may name anything. */
  datatype Reply =
    | NoAnswer
    | RevisionConflict
    | PartsMissing
    | Started(matches: bool, published: bool)
    | PartReceipt(hash: string, stored: bool)
    | MissingReceipt(missing: seq<string>)
    | Receipt(matches: bool)

  datatype Outcome = Complete | Again | Fails | Halts

  function PartCount(bytes: nat): nat {
    (bytes + PART - 1) / PART
  }

  function Slice(s: string, i: nat): string
    requires i * PART <= |s|
  {
    s[i * PART..if (i + 1) * PART < |s| then (i + 1) * PART else |s|]
  }

  function JoinSlices(s: string, n: nat): string
    requires n > 0 ==> (n - 1) * PART <= |s|
  {
    if n == 0 then "" else JoinSlices(s, n - 1) + Slice(s, n - 1)
  }

  lemma {:induction false} SlicesJoinUpTo(s: string, n: nat)
    requires n > 0 ==> (n - 1) * PART <= |s|
    ensures JoinSlices(s, n) == s[..if n * PART < |s| then n * PART else |s|]
  {
    if n > 0 { SlicesJoinUpTo(s, n - 1); }
  }

  /** Main result: the parts of an object, in order, are the object. */
  lemma PartsAreObject(s: string)
    ensures PartCount(|s|) > 0 ==> (PartCount(|s|) - 1) * PART <= |s|
    ensures JoinSlices(s, PartCount(|s|)) == s
  {
    SlicesJoinUpTo(s, PartCount(|s|));
    assert s[..|s|] == s;
  }

  function QueueParts(c: Coding, queue: seq<Body>): nat {
    if queue == [] then 0 else PartCount(|c.render(queue[0])|) + QueueParts(c, queue[1..])
  }

  /** A receiver that answers what it is asked and keeps an object once its last part is in. */
  predicate Cooperates(request: Request, reply: Reply) {
    match request
    case Start => reply.Started? && reply.matches
    case Part(hash, index, parts, _, _) =>
      reply.PartReceipt? && reply.hash == hash && (index + 1 >= parts ==> reply.stored)
    case Missing(hashes) =>
      && reply.MissingReceipt? && (forall h | h in reply.missing :: h in hashes)
      && (forall i, j | 0 <= i < j < |reply.missing| :: reply.missing[i] != reply.missing[j])
    case _ => reply.Receipt? && reply.matches
  }

  class SourceTransfer {
    const c: Coding
    var objects: seq<Body>
    var started: bool
    var published: bool
    var scan: nat
    var part: nat
    var queue: seq<Body>
    // What the receiver is known to hold since the latest start.
    ghost var settled: set<Body>

    ghost predicate Valid()
      reads this
    {
      && IsCoding(c)
      && (forall i, j | 0 <= i < j < |objects| :: objects[i] != objects[j])
      && scan <= |objects| && (forall b | b in queue :: b in objects)
      && (!started ==> scan == 0 && queue == [])
      && (if queue == [] then part == 0 else part * PART < |c.render(queue[0])|)
      && (started ==> forall i | 0 <= i < scan :: objects[i] in settled || objects[i] in queue)
    }

    constructor (c: Coding, d: Document)
      requires IsCoding(c)
      ensures Valid() && !started && objects == Objects(c, d) && this.c == c
    {
      this.c := c;
      var built := BuildObjects(c, d);
      objects := built;
      started, published, scan, part, queue, settled := false, false, 0, 0, [], {};
      UniqueIs(AllObjects(c, d));
    }

    /** The measure of a transfer: a start to make, objects to ask about, parts to bring. */
    function Remaining(): int
      reads this
    {
      QueueParts(c, queue) - part
    }

    ghost predicate Precedes(wasStarted: bool, wasScan: nat, wasRemaining: int)
      reads this
    {
      || (started && !wasStarted)
      || (started == wasStarted && scan > wasScan)
      || (started == wasStarted && scan == wasScan && 0 <= Remaining() < wasRemaining)
    }

    /** The request that is next. */
    function Next(): (r: Request)
      requires Valid()
      reads this
    {
      if !started then Start
      else if !published && queue != [] then
        var bytes := c.render(queue[0]);
        Part(Hash(c, queue[0]), part, PartCount(|bytes|), |bytes|, Slice(bytes, part))
      else if !published && scan < |objects| then Missing(Hashes(c, objects[scan..WindowEnd()]))
      else if published then Heartbeat
      else Commit
    }

    function WindowEnd(): nat
      reads this
    {
      if scan + WINDOW < |objects| then scan + WINDOW else |objects|
    }

    /** Main result: a commit is requested only when every object is known to be held since the latest
        start, and a part lies inside its object. */
    lemma NextIsSafe()
      requires Valid()
      ensures Next().Commit? ==> started && !published && forall b | b in objects :: b in settled
      ensures Next().Part? ==> queue[0] in objects && Next().index < Next().parts && Next().data != ""
      ensures Next().Part? ==>
        Next().data == Slice(c.render(queue[0]), Next().index) && Next().bytes == |c.render(queue[0])|
    {
      if Next().Commit? {
        forall b | b in objects ensures b in settled {
          var i :| 0 <= i < |objects| && objects[i] == b;
        }
      }
    }

    /** Forgets what was brought: the receiver has lost parts. */
    method Reset()
      modifies this
      ensures !started && scan == 0 && part == 0 && queue == []
      ensures objects == old(objects) && published == old(published) && settled == old(settled)
    {
      started, scan, part, queue := false, 0, 0, [];
    }

    method OnStart(matches: bool, isPublished: bool) returns (outcome: Outcome)
      requires Valid() && !started
      modifies `started, `published, `settled
      ensures Valid() && outcome == (if matches then Again else Fails)
      ensures if matches then started && published == isPublished && settled == {}
        else !started && published == old(published) && settled == old(settled)
    {
      if !matches { return Fails; }
      started, published, settled := true, isPublished, {};
      outcome := Again;
    }

    /** One part was answered. The object is done when it is stored; when the last part did not
        complete it, its parts are brought again. */
    method OnPart(hash: string, stored: bool) returns (outcome: Outcome)
      requires Valid() && started && queue != []
      modifies `part, `queue, `settled
      ensures Valid()
      ensures hash != Hash(c, old(queue[0])) ==>
        outcome.Fails? && queue == old(queue) && part == old(part) && settled == old(settled)
      ensures hash == Hash(c, old(queue[0])) ==> outcome.Again?
      ensures settled == old(settled) + if hash == Hash(c, old(queue[0])) && stored then {old(queue[0])} else {}
      ensures hash == Hash(c, old(queue[0])) && stored ==> queue == old(queue[1..]) && part == 0
      ensures hash == Hash(c, old(queue[0])) && !stored ==> queue == old(queue)
      ensures hash == Hash(c, old(queue[0])) && !stored ==>
        part == if old(part + 1) < old(PartCount(|c.render(queue[0])|)) then old(part + 1) else 0
    {
      var size := |c.render(queue[0])|;
      if hash != Hash(c, queue[0]) { return Fails; }
      var end := if (part + 1) * PART < size then (part + 1) * PART else size;
      outcome := Again;
      if end == size && !stored {
        part := 0;
        return;
      }
      part := part + 1;
      if stored {
        settled := settled + {queue[0]};
        part, queue := 0, queue[1..];
      }
    }

    /** Objects named missing are queued. A receipt that names anything else, or anything twice,
        fails with what it named so far left queued. */
    method OnMissing(missing: seq<string>) returns (outcome: Outcome)
      requires Valid() && started && queue == [] && scan < |objects|
      modifies `queue, `scan, `settled
      ensures Valid() && part == old(part)
      ensures outcome.Again? ==> scan == old(WindowEnd())
      ensures settled == old(settled) + if outcome.Again? then
        set b | b in objects[old(scan)..old(WindowEnd())] && Hash(c, b) !in missing else {}
      ensures outcome.Fails? ==> scan == old(scan)
      ensures Cooperates(Missing(Hashes(c, objects[old(scan)..old(WindowEnd())])), MissingReceipt(missing)) <==>
        outcome.Again?
      ensures outcome.Again? || outcome.Fails?
    {
      var end := WindowEnd();
      ghost var window := objects[scan..end];
      var ok, found := Collect(c, objects[scan..end], missing);
      queue := queue + found;
      if !ok { return Fails; }
      settled := settled + set b | b in window && Hash(c, b) !in missing;
      forall i | scan <= i < end ensures objects[i] in settled || objects[i] in queue { assert objects[i] in window; }
      scan := end;
      outcome := Again;
    }

    /** What is known to be held after this answer to this request. */
    ghost function SettledBy(reply: Reply): set<Body>
      requires Valid()
      reads this
    {
      match Next()
      case Start => if reply.Started? && reply.matches then {} else settled
      case Part(hash, _, _, _, _) =>
        if reply.PartReceipt? && reply.hash == hash && reply.stored then settled + {queue[0]} else settled
      case Missing(hashes) =>
        if reply.MissingReceipt? && Accepts(reply) then
          settled + set b | b in objects[scan..WindowEnd()] && Hash(c, b) !in reply.missing
        else settled
      case _ => settled
    }

    /** Names only objects asked about, each once. */
    ghost predicate Accepts(reply: Reply)
      requires Valid() && reply.MissingReceipt? && Next().Missing?
      reads this
    {
      Cooperates(Next(), reply)
    }

    /** One request and its answer, whatever it is. */
    method Step(reply: Reply) returns (outcome: Outcome)
      requires Valid()
      modifies this
      ensures Valid() && objects == old(objects)
      ensures reply.NoAnswer? ==> outcome.Fails? && unchanged(this)
      ensures reply.RevisionConflict? <==> outcome.Halts?
      ensures reply.RevisionConflict? ==> unchanged(this)
      ensures reply.PartsMissing? ==> outcome.Fails? && !started
      ensures outcome.Complete? <==> (old(Next()).Commit? || old(Next()).Heartbeat?) && reply == Receipt(true)
      ensures outcome.Complete? ==> published && started
      ensures settled == old(SettledBy(reply))
      ensures old(Cooperates(Next(), reply)) ==>
        outcome.Complete? || (outcome.Again? && Precedes(old(started), old(scan), old(Remaining())))
    {
      match reply {
        case NoAnswer => return Fails;
        case RevisionConflict => return Halts;
        case PartsMissing => { Reset(); return Fails; }
        case _ =>
      }
      if !started {
        if reply.Started? { outcome := OnStart(reply.matches, reply.published); } else { outcome := Fails; }
      } else if !published && queue != [] {
        if reply.PartReceipt? { outcome := OnPart(reply.hash, reply.stored); } else { outcome := Fails; }
      } else if !published && scan < |objects| {
        if reply.MissingReceipt? { outcome := OnMissing(reply.missing); } else { outcome := Fails; }
      } else if reply.Receipt? && reply.matches {
        published, outcome := true, Complete;
      } else {
        outcome := Fails;
      }
    }

    /** Main result: against a receiver that cooperates, stepping reaches a complete publication. */
    method Deliver(receiver: Request -> Reply)
      requires Valid() && forall request :: Cooperates(request, receiver(request))
      modifies this
      ensures Valid() && published && objects == old(objects)
    {
      var outcome := Again;
      while outcome != Complete
        invariant Valid() && objects == old(objects) && (outcome.Complete? ==> published)
        decreases outcome != Complete, !started, |objects| - scan, Remaining()
      {
        outcome := Step(receiver(Next()));
      }
    }
  }

  /** The objects named missing, up to a name that is not among the objects asked about or repeats. */
  method Collect(c: Coding, window: seq<Body>, missing: seq<string>) returns (ok: bool, found: seq<Body>)
    requires IsCoding(c)
    ensures forall b | b in found :: b in window
    ensures ok ==> forall b | b in window :: Hash(c, b) in missing ==> b in found
    ensures ok <==> Cooperates(Missing(Hashes(c, window)), MissingReceipt(missing))
  {
    found := [];
    var known := KnownOf(c, window);
    for i := 0 to |missing|
      invariant Collected(c, window, missing[..i], known, found)
    {
      if missing[i] !in known {
        NotKnown(c, window, known, missing, i);
        return false, found;
      }
      CollectedStep(c, window, missing, i, known, found);
      found, known := found + [known[missing[i]]], known - {missing[i]};
    }
    assert missing[..|missing|] == missing;
    ok := true;
  }

  /** The names in `done` were found in the window, each once; the rest is still known. */
  ghost predicate Collected(c: Coding, window: seq<Body>, done: seq<string>, known: map<string, Body>,
      found: seq<Body>) {
    && (forall b | b in found :: b in window)
    && (forall h | h in known :: h !in done && known[h] in window && Hash(c, known[h]) == h)
    && (forall b | b in window :: Hash(c, b) in known || (Hash(c, b) in done && b in found))
    && (forall h | h in done :: h in Hashes(c, window))
    && (forall k, l | 0 <= k < l < |done| :: done[k] != done[l])
  }

  lemma CollectedStep(c: Coding, window: seq<Body>, missing: seq<string>, i: nat, known: map<string, Body>,
      found: seq<Body>)
    requires IsCoding(c) && i < |missing| && Collected(c, window, missing[..i], known, found) && missing[i] in known
    ensures Collected(c, window, missing[..i + 1], known - {missing[i]}, found + [known[missing[i]]])
  {
    var h := missing[i];
    assert missing[..i + 1] == missing[..i] + [h];
    NameIsListed(c, window, known[h]);
    forall b | b in window && Hash(c, b) == h ensures b == known[h] {}
  }

  lemma NameIsListed(c: Coding, window: seq<Body>, b: Body)
    requires b in window
    ensures Hash(c, b) in Hashes(c, window)
  {
    var k :| 0 <= k < |window| && window[k] == b;
    assert Hashes(c, window)[k] == Hash(c, b);
  }

  /** The objects of one window by their hash. */
  method KnownOf(c: Coding, window: seq<Body>) returns (known: map<string, Body>)
    ensures forall h | h in known :: known[h] in window && Hash(c, known[h]) == h
    ensures forall b | b in window :: Hash(c, b) in known
  {
    known := map[];
    for i := 0 to |window|
      invariant forall h | h in known :: known[h] in window && Hash(c, known[h]) == h
      invariant forall b | b in window[..i] :: Hash(c, b) in known
    {
      known := known[Hash(c, window[i]) := window[i]];
      assert window[..i + 1] == window[..i] + [window[i]];
    }
    assert window[..|window|] == window;
  }

  /** A name that is not known any more was named twice, or is none of the window. */
  lemma NotKnown(c: Coding, window: seq<Body>, known: map<string, Body>, missing: seq<string>, i: nat)
    requires i < |missing| && missing[i] !in known
    requires forall b | b in window && Hash(c, b) !in missing[..i] :: Hash(c, b) in known
    ensures !Cooperates(Missing(Hashes(c, window)), MissingReceipt(missing))
  {
    if missing[i] in Hashes(c, window) {
      var k :| 0 <= k < |window| && Hashes(c, window)[k] == missing[i];
      assert window[k] in window && missing[i] in missing[..i];
    }
  }
}