/** The document that one committed state is saved as, and what a restart makes of it.

    Rows are stored whole, so all that matters of how a row is rendered is that different rows are
    rendered differently. */
module CheckpointDocuments {
  import opened Options
  import opened Text
  import opened Json
  import opened Content
  import opened CheckpointStore
  import opened Repositories
  import opened Rundown
  import opened Source
  import opened SourceRuns

  datatype RowForms = RowForms(
    order: RunningOrder -> Json, story: Story -> Json, item: Item -> Json,
    held: HeldStory -> Json, published: PublishedStory -> Json, receipt: Receipt -> Json)

  /** Different rows are rendered differently. */
  ghost predicate AreForms(f: RowForms) {
    && (forall a, b :: f.order(a) == f.order(b) ==> a == b)
    && (forall a, b :: f.story(a) == f.story(b) ==> a == b)
    && (forall a, b :: f.item(a) == f.item(b) ==> a == b)
    && (forall a, b :: f.held(a) == f.held(b) ==> a == b)
    && (forall a, b :: f.published(a) == f.published(b) ==> a == b)
    && (forall a, b :: f.receipt(a) == f.receipt(b) ==> a == b)
  }

  // ---- The document ----

  function Rows<T>(form: T -> Json, s: seq<T>): Json {
    Arr(seq(|s|, i requires 0 <= i < |s| => form(s[i])))
  }

  function Bool(b: bool): Json {
    if b then True else False
  }

  function Number(n: nat): Json {
    Num(Decimal(n))
  }

  function Quoted(s: string): Json {
    Str(s)
  }

  /** A field that is left out when there is nothing to say. */
  function Optional(key: string, texts: Option<seq<string>>): map<string, Json> {
    if texts.None? then map[] else map[key := Rows(Quoted, texts.value)]
  }

  function StateFields(f: RowForms, s: State): map<string, Json> {
    map["active" := Bool(s.active), "rosterFresh" := Bool(s.rosterFresh), "stories" := Rows(f.held, s.stories),
      "nextCue" := Number(s.nextCue), "halted" := Bool(s.halted), "rawRoster" := Str(s.rawRoster)]
  }

  function StateJson(f: RowForms, s: State): Json {
    var problem := if s.problem == "" then map[] else map["problem" := Str(s.problem)];
    Obj(Optional("metadata", s.metadata) + problem + StateFields(f, s))
  }

  function PublishedJson(f: RowForms, p: Published): Json {
    Obj(Optional("metadata", p.metadata) + map["revision" := Number(p.revision), "active" := Bool(p.active),
      "complete" := Bool(p.complete), "stories" := Rows(f.published, p.stories)])
  }

  function SourceObject(revision: nat, accepted: nat, receipts: Json, state: Json, pending: Option<Json>): Json {
    Obj((if pending.None? then map[] else map["pending" := pending.value]) +
      map["revision" := Number(revision), "state" := state, "acceptedRevision" := Number(accepted),
        "receipts" := receipts])
  }

  function PendingJson(f: RowForms, p: Option<Published>): Option<Json> {
    if p.None? then None else Some(PublishedJson(f, p.value))
  }

  function SourceJson(f: RowForms, cp: Checkpoint): Json {
    SourceObject(cp.revision, cp.accepted, Rows(f.receipt, cp.receipts), StateJson(f, cp.state),
      PendingJson(f, cp.pending))
  }

  function SnapshotJson(f: RowForms, snap: Snapshot): Json {
    Obj(map["runningOrders" := Rows(f.order, snap.orders), "stories" := Rows(f.story, snap.stories),
      "items" := Rows(f.item, snap.items)])
  }

  function Document(f: RowForms, snap: Snapshot, cp: Checkpoint): Json {
    Obj(map["snapshot" := SnapshotJson(f, snap), "source" := SourceJson(f, cp)])
  }

  // ---- Every document is packable ----

  lemma TextsArePackable(texts: seq<string>)
    ensures Packable(Rows(Quoted, texts))
  {
    var rows := Rows(Quoted, texts).rows;
    forall i | 0 <= i < |rows| ensures Inert(rows[i]) { assert rows[i] == Quoted(texts[i]); }
  }

  lemma StateIsPackable(f: RowForms, s: State)
    ensures Packable(StateJson(f, s))
  {
    if s.metadata.Some? { TextsArePackable(s.metadata.value); }
    forall k | k in StateJson(f, s).fields ensures IsRowKey(k) || Packable(StateJson(f, s).fields[k]) {}
  }

  lemma PublishedIsPackable(f: RowForms, p: Published)
    ensures Packable(PublishedJson(f, p))
  {
    if p.metadata.Some? { TextsArePackable(p.metadata.value); }
    forall k | k in PublishedJson(f, p).fields ensures IsRowKey(k) || Packable(PublishedJson(f, p).fields[k]) {}
  }

  lemma SourceIsPackable(revision: nat, accepted: nat, receipts: Json, state: Json, pending: Option<Json>)
    requires Packable(state) && (pending.Some? ==> Packable(pending.value))
    ensures Packable(SourceObject(revision, accepted, receipts, state, pending))
  {
    var fields := SourceObject(revision, accepted, receipts, state, pending).fields;
    forall k | k in fields ensures IsRowKey(k) || Packable(fields[k]) {}
  }

  lemma CheckpointIsPackable(f: RowForms, cp: Checkpoint)
    ensures Packable(SourceJson(f, cp))
  {
    StateIsPackable(f, cp.state);
    if cp.pending.Some? { PublishedIsPackable(f, cp.pending.value); }
    SourceIsPackable(cp.revision, cp.accepted, Rows(f.receipt, cp.receipts), StateJson(f, cp.state),
      PendingJson(f, cp.pending));
  }

  lemma BothArePackable(snapshot: Json, source: Json)
    requires Packable(snapshot) && Packable(source)
    ensures Packable(Obj(map["snapshot" := snapshot, "source" := source]))
  {}

  /** Main result: every document that is saved can be packed and read back. */
  lemma DocumentIsPackable(f: RowForms, snap: Snapshot, cp: Checkpoint)
    ensures Packable(Document(f, snap, cp))
  {
    CheckpointIsPackable(f, cp);
    BothArePackable(SnapshotJson(f, snap), SourceJson(f, cp));
  }

  // ---- A document tells what was saved ----

  lemma RowsSeparate<T>(form: T -> Json, a: seq<T>, b: seq<T>)
    requires forall x, y | x in a && y in b :: form(x) == form(y) ==> x == y
    requires Rows(form, a) == Rows(form, b)
    ensures a == b
  {
    assert |Rows(form, a).rows| == |a| && |Rows(form, b).rows| == |b|;
    forall i | 0 <= i < |a| ensures a[i] == b[i] {
      assert form(a[i]) == Rows(form, a).rows[i] && form(b[i]) == Rows(form, b).rows[i];
    }
  }

  lemma NumbersSeparate(a: nat, b: nat)
    requires Number(a) == Number(b)
    ensures a == b
  {
    DecimalInjective(a, b);
  }

  /** The field of an object, if it has one. */
  function FieldOf(j: Json, key: string): Option<Json> {
    if j.Obj? && key in j.fields then Some(j.fields[key]) else None
  }

  function OptionalRows(texts: Option<seq<string>>): Option<Json> {
    if texts.None? then None else Some(Rows(Quoted, texts.value))
  }

  lemma OptionalsSeparate(a: Option<seq<string>>, b: Option<seq<string>>)
    requires OptionalRows(a) == OptionalRows(b)
    ensures a == b
  {
    if a.Some? { RowsSeparate(Quoted, a.value, b.value); }
  }

  lemma StateHas(f: RowForms, s: State)
    ensures var j := StateJson(f, s);
      && FieldOf(j, "active") == Some(Bool(s.active)) && FieldOf(j, "rosterFresh") == Some(Bool(s.rosterFresh))
      && FieldOf(j, "stories") == Some(Rows(f.held, s.stories)) && FieldOf(j, "nextCue") == Some(Number(s.nextCue))
      && FieldOf(j, "halted") == Some(Bool(s.halted)) && FieldOf(j, "rawRoster") == Some(Str(s.rawRoster))
  {}

  lemma StateHasOptional(f: RowForms, s: State)
    ensures FieldOf(StateJson(f, s), "metadata") == OptionalRows(s.metadata)
    ensures FieldOf(StateJson(f, s), "problem") == if s.problem == "" then None else Some(Str(s.problem))
  {}

  lemma StatesSeparate(f: RowForms, a: State, b: State)
    requires AreForms(f) && StateJson(f, a) == StateJson(f, b)
    ensures a == b
  {
    StateHas(f, a);
    StateHas(f, b);
    StateHasOptional(f, a);
    StateHasOptional(f, b);
    RowsSeparate(f.held, a.stories, b.stories);
    NumbersSeparate(a.nextCue, b.nextCue);
    OptionalsSeparate(a.metadata, b.metadata);
  }

  lemma PublishedHas(f: RowForms, p: Published)
    ensures var j := PublishedJson(f, p);
      && FieldOf(j, "revision") == Some(Number(p.revision)) && FieldOf(j, "active") == Some(Bool(p.active))
      && FieldOf(j, "complete") == Some(Bool(p.complete)) && FieldOf(j, "stories") == Some(Rows(f.published, p.stories))
      && FieldOf(j, "metadata") == OptionalRows(p.metadata)
  {}

  lemma PublishedSeparate(f: RowForms, a: Published, b: Published)
    requires AreForms(f) && PublishedJson(f, a) == PublishedJson(f, b)
    ensures a == b
  {
    PublishedHas(f, a);
    PublishedHas(f, b);
    RowsSeparate(f.published, a.stories, b.stories);
    NumbersSeparate(a.revision, b.revision);
    OptionalsSeparate(a.metadata, b.metadata);
  }

  lemma SourceHas(revision: nat, accepted: nat, receipts: Json, state: Json, pending: Option<Json>)
    ensures var j := SourceObject(revision, accepted, receipts, state, pending);
      && FieldOf(j, "revision") == Some(Number(revision)) && FieldOf(j, "acceptedRevision") == Some(Number(accepted))
      && FieldOf(j, "receipts") == Some(receipts) && FieldOf(j, "state") == Some(state)
      && FieldOf(j, "pending") == pending
  {}

  lemma SourcesSeparate(f: RowForms, a: Checkpoint, b: Checkpoint)
    requires AreForms(f) && SourceJson(f, a) == SourceJson(f, b)
    ensures a == b
  {
    SourceHas(a.revision, a.accepted, Rows(f.receipt, a.receipts), StateJson(f, a.state), PendingJson(f, a.pending));
    SourceHas(b.revision, b.accepted, Rows(f.receipt, b.receipts), StateJson(f, b.state), PendingJson(f, b.pending));
    StatesSeparate(f, a.state, b.state);
    RowsSeparate(f.receipt, a.receipts, b.receipts);
    NumbersSeparate(a.revision, b.revision);
    NumbersSeparate(a.accepted, b.accepted);
    if a.pending.Some? { PublishedSeparate(f, a.pending.value, b.pending.value); }
  }

  lemma SnapshotsSeparate(f: RowForms, a: Snapshot, b: Snapshot)
    requires AreForms(f) && SnapshotJson(f, a) == SnapshotJson(f, b)
    ensures a == b
  {
    var x, y := SnapshotJson(f, a), SnapshotJson(f, b);
    assert FieldOf(x, "runningOrders") == Some(Rows(f.order, a.orders)) &&
      FieldOf(y, "runningOrders") == Some(Rows(f.order, b.orders));
    assert FieldOf(x, "stories") == Some(Rows(f.story, a.stories)) &&
      FieldOf(y, "stories") == Some(Rows(f.story, b.stories));
    assert FieldOf(x, "items") == Some(Rows(f.item, a.items)) && FieldOf(y, "items") == Some(Rows(f.item, b.items));
    RowsSeparate(f.order, a.orders, b.orders);
    RowsSeparate(f.story, a.stories, b.stories);
    RowsSeparate(f.item, a.items, b.items);
  }

  /** Main result: different checkpoints never share a document. */
  lemma DocumentsSeparate(f: RowForms, a: Snapshot, x: Checkpoint, b: Snapshot, y: Checkpoint)
    requires AreForms(f) && Document(f, a, x) == Document(f, b, y)
    ensures a == b && x == y
  {
    var d, e := Document(f, a, x), Document(f, b, y);
    assert FieldOf(d, "snapshot") == Some(SnapshotJson(f, a)) && FieldOf(e, "snapshot") == Some(SnapshotJson(f, b));
    assert FieldOf(d, "source") == Some(SourceJson(f, x)) && FieldOf(e, "source") == Some(SourceJson(f, y));
    SnapshotsSeparate(f, a, b);
    SourcesSeparate(f, x, y);
  }

  // ---- What a restart finds ----

  /** A restart over this directory opens the committed state `c`. */
  ghost predicate Opens(f: RowForms, digest: Json -> string, disk: Disk, c: Committed) {
    exists snap :: Restore(snap) == Some(c.repos) && Read(digest, disk) == Ok(Document(f, snap, c.cp))
  }

  /** There is never more than one. */
  lemma OpensOne(f: RowForms, digest: Json -> string, disk: Disk, a: Committed, b: Committed)
    requires AreForms(f) && Opens(f, digest, disk, a) && Opens(f, digest, disk, b)
    ensures a == b
  {
    var snap :| Restore(snap) == Some(a.repos) && Read(digest, disk) == Ok(Document(f, snap, a.cp));
    var other :| Restore(other) == Some(b.repos) && Read(digest, disk) == Ok(Document(f, other, b.cp));
    DocumentsSeparate(f, snap, a.cp, other, b.cp);
  }

  /** Main result: a commit that is interrupted anywhere while it is saved leaves a directory that
      opens as the state before it or as the state after it, and as nothing else. */
  lemma InterruptedCommitOpens(
      f: RowForms, digest: Json -> string, rank: Json -> nat, large: Json -> bool, before: Disk, after: Disk, ok: bool,
      c: Committed, snap: Snapshot, next: Committed, nextSnap: Snapshot)
    requires IsDigest(digest, rank) && AreForms(f)
    requires Restore(snap) == Some(c.repos) && Restore(nextSnap) == Some(next.repos)
    requires Stores(digest, large, before, Document(f, snap, c.cp))
    requires SaveOutcome(digest, large, before, Document(f, nextSnap, next.cp), ok, after)
    ensures Opens(f, digest, after, next) || (!ok && Opens(f, digest, after, c))
    ensures forall other | Opens(f, digest, after, other) :: other == next || (!ok && other == c)
  {
    DocumentIsPackable(f, snap, c.cp);
    DocumentIsPackable(f, nextSnap, next.cp);
    InterruptedSaveReadsOldOrNew(digest, rank, large, before, Document(f, snap, c.cp), Document(f, nextSnap, next.cp),
      ok, after);
    forall other | Opens(f, digest, after, other) ensures other == next || (!ok && other == c) {
      if Opens(f, digest, after, next) {
        OpensOne(f, digest, after, other, next);
      } else {
        OpensOne(f, digest, after, other, c);
      }
    }
  }

  lemma HistoryIsRestored(setup: Setup, ks: seq<Commit>, cs: seq<Committed>, n: nat, snap: Snapshot)
    requires IsSetup(setup) && IsHistory(setup, ks, cs) && n < |cs| && Restore(snap) == Some(Reachable(cs[n].repos))
    ensures Restore(snap) == Some(cs[n].repos)
  {
    HistoryHolds(setup, ks, cs, n);
    MirrorIsClosed(cs[n].repos, setup.ro, cs[n].cp.state.active, StoryIdsOf(cs[n].cp.state.stories));
    SnapshotIsLossless(cs[n].repos, snap);
  }

  /** Main result: the same of every commit of every history of a source, saved as the snapshot that is
      taken of its repositories. */
  lemma HistoryCommitOpens(
      f: RowForms, digest: Json -> string, rank: Json -> nat, large: Json -> bool, before: Disk, after: Disk, ok: bool,
      setup: Setup, ks: seq<Commit>, cs: seq<Committed>, n: nat, snap: Snapshot, nextSnap: Snapshot)
    requires IsDigest(digest, rank) && AreForms(f)
    requires IsSetup(setup) && IsHistory(setup, ks, cs) && n < |ks|
    requires Restore(snap) == Some(Reachable(cs[n].repos)) && Restore(nextSnap) == Some(Reachable(cs[n + 1].repos))
    requires Stores(digest, large, before, Document(f, snap, cs[n].cp))
    requires SaveOutcome(digest, large, before, Document(f, nextSnap, cs[n + 1].cp), ok, after)
    ensures Opens(f, digest, after, cs[n + 1]) || (!ok && Opens(f, digest, after, cs[n]))
    ensures forall other | Opens(f, digest, after, other) :: other == cs[n + 1] || (!ok && other == cs[n])
  {
    HistoryIsRestored(setup, ks, cs, n, snap);
    HistoryIsRestored(setup, ks, cs, n + 1, nextSnap);
    InterruptedCommitOpens(f, digest, rank, large, before, after, ok, cs[n], snap, cs[n + 1], nextSnap);
  }
}
