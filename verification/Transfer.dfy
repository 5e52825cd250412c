/** A committed document as a set of hashed objects that can be sent one by one. */
module Transfer {
  import opened Options

  const LIMIT: nat := 131072

  /** One row of an ordered array: kept text, or a reference to a story's object. */
  datatype Row = Raw(text: string) | Ref(id: string, hash: string)

  /** An ordered array, or the hashes of the chunks it was split into. */
  datatype List = Whole(rows: seq<Row>) | Parts(hashes: seq<string>)

  datatype Body =
    | Rows(rows: seq<Row>)
    | StoryBody(fields: string, list: List)
    | Manifest(isRundown: bool, fields: string, list: List)

  datatype Story = Story(id: string, fields: string, occurrences: seq<Row>)

  datatype Document =
    | RundownDocument(fields: string, stories: seq<Story>)
    | CatalogueDocument(fields: string, rundowns: seq<Row>)

  /** The exact bytes of a value, the digest of bytes, and the length of one row. */
  datatype Coding = Coding(render: Body -> string, digest: string -> string, width: Row -> nat)

  function Sum(c: Coding, rows: seq<Row>): nat {
    if rows == [] then 0 else Sum(c, rows[..|rows| - 1]) + c.width(rows[|rows| - 1])
  }

  /** Brackets, rows, and commas between them. */
  function ArraySize(c: Coding, rows: seq<Row>): nat {
    2 + Sum(c, rows) + if rows == [] then 0 else |rows| - 1
  }

  /** Distinct values have distinct bytes and distinct bytes distinct digests. */
  ghost predicate IsCoding(c: Coding) {
    && (forall a, b :: c.render(a) == c.render(b) ==> a == b)
    && (forall a, b :: c.digest(a) == c.digest(b) ==> a == b)
    && (forall b :: c.render(b) != "")
    && (forall rows :: |c.render(Rows(rows))| == ArraySize(c, rows))
  }

  function Hash(c: Coding, b: Body): string {
    c.digest(c.render(b))
  }

  function Hashes(c: Coding, bodies: seq<Body>): seq<string> {
    seq(|bodies|, i requires 0 <= i < |bodies| => Hash(c, bodies[i]))
  }

  // ---- Chunks ----

  /** Rows that go into one chunk beyond the first `n`, which take `bytes`. */
  function Fill(c: Coding, rows: seq<Row>, n: nat, bytes: nat): (m: nat)
    requires n <= |rows|
    ensures n <= m <= |rows| && (n == 0 && rows != [] ==> m > 0)
    decreases |rows| - n
  {
    if n < |rows| && (n == 0 || bytes + c.width(rows[n]) + 1 <= LIMIT)
    then Fill(c, rows, n + 1, bytes + c.width(rows[n]) + 1)
    else n
  }

  function Chunks(c: Coding, rows: seq<Row>): seq<Body>
    decreases |rows|
  {
    if rows == [] then []
    else
      var n := Fill(c, rows, 0, 2);
      [Rows(rows[..n])] + Chunks(c, rows[n..])
  }

  function Flatten(chunks: seq<Body>): seq<Row> {
    if chunks == [] then []
    else (if chunks[0].Rows? then chunks[0].rows else []) + Flatten(chunks[1..])
  }

  /** Within the limit, unless one row alone exceeds it. */
  predicate IsChunk(c: Coding, b: Body) {
    b.Rows? && b.rows != [] && (|c.render(b)| <= LIMIT || |b.rows| == 1)
  }

  lemma {:induction false} FillFits(c: Coding, rows: seq<Row>, n: nat, bytes: nat)
    requires n <= |rows| && bytes == 2 + Sum(c, rows[..n]) + n && (n > 1 ==> bytes <= LIMIT)
    ensures var m := Fill(c, rows, n, bytes); m > 1 ==> 2 + Sum(c, rows[..m]) + m <= LIMIT
    decreases |rows| - n
  {
    if n < |rows| && (n == 0 || bytes + c.width(rows[n]) + 1 <= LIMIT) {
      assert rows[..n + 1][..n] == rows[..n];
      FillFits(c, rows, n + 1, bytes + c.width(rows[n]) + 1);
    }
  }

  lemma {:induction false} ChunksFlatten(c: Coding, rows: seq<Row>)
    ensures Flatten(Chunks(c, rows)) == rows
    decreases |rows|
  {
    if rows != [] {
      var n := Fill(c, rows, 0, 2);
      ChunksFlatten(c, rows[n..]);
      assert Chunks(c, rows)[1..] == Chunks(c, rows[n..]);
      assert rows == rows[..n] + rows[n..];
    }
  }

  lemma FirstChunkFits(c: Coding, rows: seq<Row>)
    requires IsCoding(c) && rows != []
    ensures IsChunk(c, Rows(rows[..Fill(c, rows, 0, 2)]))
  {
    var n := Fill(c, rows, 0, 2);
    FillFits(c, rows, 0, 2);
    assert |c.render(Rows(rows[..n]))| == ArraySize(c, rows[..n]);
  }

  lemma {:induction false} ChunksFit(c: Coding, rows: seq<Row>)
    requires IsCoding(c)
    ensures forall b | b in Chunks(c, rows) :: IsChunk(c, b)
    decreases |rows|
  {
    if rows != [] {
      FirstChunkFits(c, rows);
      ChunksFit(c, rows[Fill(c, rows, 0, 2)..]);
    }
  }

  /** Main result: splitting keeps every row in order, and makes only nonempty chunks that fit. */
  lemma ChunksAreRows(c: Coding, rows: seq<Row>)
    requires IsCoding(c)
    ensures Flatten(Chunks(c, rows)) == rows && forall b | b in Chunks(c, rows) :: IsChunk(c, b)
  {
    ChunksFlatten(c, rows);
    ChunksFit(c, rows);
  }

  // ---- Objects of a document ----

  /** An array as it is referred to, and the chunks that takes. */
  function Packed(c: Coding, rows: seq<Row>, large: bool): List {
    if large then Parts(Hashes(c, Chunks(c, rows))) else Whole(rows)
  }

  function PackedChunks(c: Coding, rows: seq<Row>, large: bool): seq<Body> {
    if large then Chunks(c, rows) else []
  }

  predicate IsLargeStory(c: Coding, s: Story) {
    |c.render(StoryBody(s.fields, Whole(s.occurrences)))| > LIMIT
  }

  function StoryObject(c: Coding, s: Story): Body {
    StoryBody(s.fields, Packed(c, s.occurrences, IsLargeStory(c, s)))
  }

  function StoryObjects(c: Coding, stories: seq<Story>): seq<Body> {
    if stories == [] then []
    else
      var n := |stories| - 1;
      StoryObjects(c, stories[..n]) +
      PackedChunks(c, stories[n].occurrences, IsLargeStory(c, stories[n])) + [StoryObject(c, stories[n])]
  }

  function Refs(c: Coding, stories: seq<Story>): seq<Row> {
    seq(|stories|, i requires 0 <= i < |stories| => Ref(stories[i].id, Hash(c, StoryObject(c, stories[i]))))
  }

  function TopRows(c: Coding, d: Document): seq<Row> {
    match d
    case RundownDocument(_, stories) => Refs(c, stories)
    case CatalogueDocument(_, rundowns) => rundowns
  }

  function ManifestOf(c: Coding, d: Document): Body {
    Manifest(d.RundownDocument?, d.fields, Packed(c, TopRows(c, d), ArraySize(c, TopRows(c, d)) > LIMIT))
  }

  /** Every object of a document, before repetitions are dropped. */
  function AllObjects(c: Coding, d: Document): seq<Body> {
    [ManifestOf(c, d)] + (if d.RundownDocument? then StoryObjects(c, d.stories) else [])
      + PackedChunks(c, TopRows(c, d), ArraySize(c, TopRows(c, d)) > LIMIT)
  }

  /** The first of each. */
  function Unique(s: seq<Body>): seq<Body> {
    if s == [] then []
    else
      var n := |s| - 1;
      if s[n] in s[..n] then Unique(s[..n]) else Unique(s[..n]) + [s[n]]
  }

  lemma {:induction false} UniqueIs(s: seq<Body>)
    ensures forall i, j | 0 <= i < j < |Unique(s)| :: Unique(s)[i] != Unique(s)[j]
    ensures forall x :: x in Unique(s) <==> x in s
    ensures s != [] ==> Unique(s) != [] && Unique(s)[0] == s[0]
  {
    if s != [] {
      var n := |s| - 1;
      UniqueIs(s[..n]);
      assert s == s[..n] + [s[n]];
    }
  }

  function Objects(c: Coding, d: Document): seq<Body> {
    Unique(AllObjects(c, d))
  }

  // ---- Rebuilding ----

  function Find(c: Coding, objects: seq<Body>, hash: string): Option<Body> {
    if objects == [] then None
    else if Hash(c, objects[0]) == hash then Some(objects[0])
    else Find(c, objects[1..], hash)
  }

  lemma {:induction false} FindIs(c: Coding, objects: seq<Body>, b: Body)
    requires IsCoding(c) && b in objects
    ensures Find(c, objects, Hash(c, b)) == Some(b)
  {
    if objects[0] != b {
      assert objects == [objects[0]] + objects[1..];
      FindIs(c, objects[1..], b);
    }
  }

  function JoinParts(c: Coding, objects: seq<Body>, hashes: seq<string>): Option<seq<Row>> {
    if hashes == [] then Some([])
    else
      var first := Find(c, objects, hashes[0]);
      var rest := JoinParts(c, objects, hashes[1..]);
      if first.None? || !first.value.Rows? || rest.None? then None else Some(first.value.rows + rest.value)
  }

  function Unpacked(c: Coding, objects: seq<Body>, list: List): Option<seq<Row>> {
    match list
    case Whole(rows) => Some(rows)
    case Parts(hashes) => JoinParts(c, objects, hashes)
  }

  function RebuildStory(c: Coding, objects: seq<Body>, row: Row): Option<Story> {
    if !row.Ref? then None
    else
      var found := Find(c, objects, row.hash);
      if found.None? || !found.value.StoryBody? then None
      else
        var rows := Unpacked(c, objects, found.value.list);
        if rows.None? then None else Some(Story(row.id, found.value.fields, rows.value))
  }

  function RebuildStories(c: Coding, objects: seq<Body>, rows: seq<Row>): Option<seq<Story>> {
    if rows == [] then Some([])
    else
      var n := |rows| - 1;
      var init, last := RebuildStories(c, objects, rows[..n]), RebuildStory(c, objects, rows[n]);
      if init.None? || last.None? then None else Some(init.value + [last.value])
  }

  /** What a receiver that holds these objects reads behind a manifest hash. */
  function Rebuild(c: Coding, objects: seq<Body>, hash: string): Option<Document> {
    var found := Find(c, objects, hash);
    if found.None? || !found.value.Manifest? then None
    else
      var rows := Unpacked(c, objects, found.value.list);
      if rows.None? then None
      else if !found.value.isRundown then Some(CatalogueDocument(found.value.fields, rows.value))
      else
        var stories := RebuildStories(c, objects, rows.value);
        if stories.None? then None else Some(RundownDocument(found.value.fields, stories.value))
  }

  lemma {:induction false} PartsJoin(c: Coding, objects: seq<Body>, chunks: seq<Body>)
    requires IsCoding(c) && forall b | b in chunks :: b in objects && b.Rows?
    ensures JoinParts(c, objects, Hashes(c, chunks)) == Some(Flatten(chunks))
  {
    if chunks != [] {
      assert Hashes(c, chunks)[1..] == Hashes(c, chunks[1..]);
      assert chunks[0] in chunks;
      FindIs(c, objects, chunks[0]);
      PartsJoin(c, objects, chunks[1..]);
    }
  }

  lemma PackedUnpacks(c: Coding, objects: seq<Body>, rows: seq<Row>, large: bool)
    requires IsCoding(c) && forall b | b in PackedChunks(c, rows, large) :: b in objects
    ensures Unpacked(c, objects, Packed(c, rows, large)) == Some(rows)
  {
    if large {
      ChunksAreRows(c, rows);
      PartsJoin(c, objects, Chunks(c, rows));
    }
  }

  ghost predicate AllIn(bodies: seq<Body>, objects: seq<Body>) {
    forall b | b in bodies :: b in objects
  }

  lemma StoryRebuilds(c: Coding, objects: seq<Body>, s: Story)
    requires IsCoding(c) && StoryObject(c, s) in objects
    requires AllIn(PackedChunks(c, s.occurrences, IsLargeStory(c, s)), objects)
    ensures RebuildStory(c, objects, Ref(s.id, Hash(c, StoryObject(c, s)))) == Some(s)
  {
    FindIs(c, objects, StoryObject(c, s));
    PackedUnpacks(c, objects, s.occurrences, IsLargeStory(c, s));
  }

  lemma RebuildsOneMore(c: Coding, objects: seq<Body>, rows: seq<Row>, init: seq<Story>, last: Story)
    requires rows != [] && RebuildStories(c, objects, rows[..|rows| - 1]) == Some(init)
    requires RebuildStory(c, objects, rows[|rows| - 1]) == Some(last)
    ensures RebuildStories(c, objects, rows) == Some(init + [last])
  {}

  lemma RefsOneMore(c: Coding, init: seq<Story>, last: Story)
    ensures Refs(c, init + [last]) == Refs(c, init) + [Ref(last.id, Hash(c, StoryObject(c, last)))]
  {}

  lemma StoryObjectsSplit(c: Coding, objects: seq<Body>, init: seq<Story>, last: Story)
    requires AllIn(StoryObjects(c, init + [last]), objects)
    ensures AllIn(StoryObjects(c, init), objects) && StoryObject(c, last) in objects
    ensures AllIn(PackedChunks(c, last.occurrences, IsLargeStory(c, last)), objects)
  {
    var all, a, chunks, b := StoryObjects(c, init + [last]), StoryObjects(c, init),
      PackedChunks(c, last.occurrences, IsLargeStory(c, last)), StoryObject(c, last);
    assert (init + [last])[..|init|] == init;
    assert all == a + chunks + [b];
    assert forall x | x in a || x in chunks || x == b :: x in all;
  }

  lemma {:induction false} StoriesRebuild(c: Coding, objects: seq<Body>, stories: seq<Story>)
    requires IsCoding(c) && AllIn(StoryObjects(c, stories), objects)
    ensures RebuildStories(c, objects, Refs(c, stories)) == Some(stories)
  {
    if stories != [] {
      var init, last := stories[..|stories| - 1], stories[|stories| - 1];
      assert stories == init + [last];
      StoryObjectsSplit(c, objects, init, last);
      StoriesRebuild(c, objects, init);
      StoryRebuilds(c, objects, last);
      RefsOneMore(c, init, last);
      var refs := Refs(c, stories);
      assert refs[..|refs| - 1] == Refs(c, init);
      RebuildsOneMore(c, objects, refs, init, last);
    }
  }

  /** Whoever holds all objects of a document rebuilds it, whatever else is held. */
  lemma HeldRebuilds(c: Coding, d: Document, held: seq<Body>)
    requires IsCoding(c) && AllIn(Objects(c, d), held)
    ensures Rebuild(c, held, Hash(c, ManifestOf(c, d))) == Some(d)
  {
    UniqueIs(AllObjects(c, d));
    FindIs(c, held, ManifestOf(c, d));
    PackedUnpacks(c, held, TopRows(c, d), ArraySize(c, TopRows(c, d)) > LIMIT);
    if d.RundownDocument? { StoriesRebuild(c, held, d.stories); }
  }

  /** Main result: the objects, with the manifest first and no hash twice, rebuild to the committed
      document. */
  lemma DocumentRebuilds(c: Coding, d: Document)
    requires IsCoding(c)
    ensures var objects := Objects(c, d);
      && objects != [] && objects[0] == ManifestOf(c, d)
      && (forall i, j | 0 <= i < j < |objects| :: Hash(c, objects[i]) != Hash(c, objects[j]))
      && Rebuild(c, objects, Hash(c, objects[0])) == Some(d)
  {
    UniqueIs(AllObjects(c, d));
    HeldRebuilds(c, d, Objects(c, d));
  }

  // ---- Holding less, or something else ----

  lemma {:induction false} FindsStill(c: Coding, held: seq<Body>, more: seq<Body>, hash: string)
    ensures Find(c, held, hash).Some? ==> Find(c, held + more, hash) == Find(c, held, hash)
  {
    if held != [] {
      assert (held + more)[1..] == held[1..] + more;
      FindsStill(c, held[1..], more, hash);
    }
  }

  lemma {:induction false} JoinsStill(c: Coding, held: seq<Body>, more: seq<Body>, hashes: seq<string>)
    ensures JoinParts(c, held, hashes).Some? ==> JoinParts(c, held + more, hashes) == JoinParts(c, held, hashes)
  {
    if hashes != [] {
      FindsStill(c, held, more, hashes[0]);
      JoinsStill(c, held, more, hashes[1..]);
    }
  }

  lemma UnpacksStill(c: Coding, held: seq<Body>, more: seq<Body>, list: List)
    ensures Unpacked(c, held, list).Some? ==> Unpacked(c, held + more, list) == Unpacked(c, held, list)
  {
    if list.Parts? { JoinsStill(c, held, more, list.hashes); }
  }

  lemma StoryRebuildsStill(c: Coding, held: seq<Body>, more: seq<Body>, row: Row)
    ensures RebuildStory(c, held, row).Some? ==> RebuildStory(c, held + more, row) == RebuildStory(c, held, row)
  {
    if RebuildStory(c, held, row).Some? {
      FindsStill(c, held, more, row.hash);
      UnpacksStill(c, held, more, Find(c, held, row.hash).value.list);
    }
  }

  lemma {:induction false} StoriesRebuildStill(c: Coding, held: seq<Body>, more: seq<Body>, rows: seq<Row>)
    ensures RebuildStories(c, held, rows).Some? ==>
      RebuildStories(c, held + more, rows) == RebuildStories(c, held, rows)
  {
    if rows != [] {
      StoriesRebuildStill(c, held, more, rows[..|rows| - 1]);
      StoryRebuildsStill(c, held, more, rows[|rows| - 1]);
    }
  }

  lemma RebuildsStill(c: Coding, held: seq<Body>, more: seq<Body>, hash: string)
    ensures Rebuild(c, held, hash).Some? ==> Rebuild(c, held + more, hash) == Rebuild(c, held, hash)
  {
    if Rebuild(c, held, hash).Some? {
      FindsStill(c, held, more, hash);
      var list := Find(c, held, hash).value.list;
      UnpacksStill(c, held, more, list);
      StoriesRebuildStill(c, held, more, Unpacked(c, held, list).value);
    }
  }

  /** Main result: whatever a receiver holds, behind the manifest hash of a document it rebuilds that
      document or nothing. */
  lemma RebuildsNothingElse(c: Coding, d: Document, held: seq<Body>)
    requires IsCoding(c)
    ensures Rebuild(c, held, Hash(c, ManifestOf(c, d))) in {None, Some(d)}
  {
    var all := held + Objects(c, d);
    assert forall b | b in Objects(c, d) :: b in all;
    HeldRebuilds(c, d, all);
    RebuildsStill(c, held, Objects(c, d), Hash(c, ManifestOf(c, d)));
  }

  /** A manifest hash names one document. */
  lemma ManifestNamesDocument(c: Coding, d: Document, e: Document)
    requires IsCoding(c) && Hash(c, ManifestOf(c, d)) == Hash(c, ManifestOf(c, e))
    ensures d == e
  {
    DocumentRebuilds(c, e);
    RebuildsNothingElse(c, d, Objects(c, e));
  }

  /** Main result: nothing is left to chance about size. Every chunk among the objects fits the limit
      or is a single row, and a story or a manifest lists its rows itself only while it fits. */
  lemma ObjectsAreBounded(c: Coding, d: Document, b: Body)
    requires IsCoding(c) && b in Objects(c, d)
    ensures b.Rows? ==> IsChunk(c, b)
    ensures b.StoryBody? && b.list.Whole? ==> |c.render(b)| <= LIMIT
    ensures b.Manifest? && b.list.Whole? ==> ArraySize(c, b.list.rows) <= LIMIT
  {
    UniqueIs(AllObjects(c, d));
    ChunksAreRows(c, TopRows(c, d));
    if d.RundownDocument? { StoryObjectsAreBounded(c, d.stories); }
  }

  lemma {:induction false} StoryObjectsAreBounded(c: Coding, stories: seq<Story>)
    requires IsCoding(c)
    ensures forall b | b in StoryObjects(c, stories) ::
      (b.Rows? && IsChunk(c, b)) || (b.StoryBody? && (b.list.Whole? ==> |c.render(b)| <= LIMIT))
  {
    if stories != [] {
      var n := |stories| - 1;
      StoryObjectsAreBounded(c, stories[..n]);
      ChunksAreRows(c, stories[n].occurrences);
    }
  }
}
