/** The directory behind a content-addressed checkpoint, and the save and read that work on it.

    Every file operation may fail, before or after taking effect. A process that stops between
    two operations leaves what it would leave had the next operation failed without effect, so
    what holds after every failing save holds after every crash. */
module CheckpointStore {
  import opened Options
  import opened Json
  import opened Content
  import opened Faults

  datatype Disk = Disk(files: map<string, Json>, root: Option<Json>)

  class Directory {
    var files: map<string, Json>
    var root: Option<Json>
    var turn: nat
    const fate: nat -> Fate

    ghost function State(): Disk
      reads this
    {
      Disk(files, root)
    }

    constructor (fate: nat -> Fate)
      ensures files == map[] && root == None && this.fate == fate
    {
      files, root, turn, this.fate := map[], None, 0, fate;
    }

    /** Atomic replacement of one object file. */
    method WriteObject(id: string, body: Json) returns (ok: bool)
      modifies this
      ensures root == old(root)
      ensures files == old(files)[id := body] || (files == old(files) && !ok)
    {
      var outcome := fate(turn);
      turn := turn + 1;
      if outcome != Lost { files := files[id := body]; }
      ok := outcome == Done;
    }

    /** Atomic replacement of the root. */
    method MoveRoot(next: Json) returns (ok: bool)
      modifies this
      ensures files == old(files)
      ensures root == Some(next) || (root == old(root) && !ok)
      ensures ok == (fate(old(turn)) == Done)
    {
      var outcome := fate(turn);
      turn := turn + 1;
      if outcome != Lost { root := Some(next); }
      ok := outcome == Done;
    }

    method Flush() returns (ok: bool)
      modifies this`turn
    {
      ok := fate(turn) == Done;
      turn := turn + 1;
    }

    /** Unlinking either happens and is reported, or does not happen. */
    method Remove(id: string) returns (ok: bool)
      modifies this
      ensures root == old(root)
      ensures files == if ok then old(files) - {id} else old(files)
      ensures ok == (fate(old(turn)) == Done)
    {
      ok := fate(turn) == Done;
      turn := turn + 1;
      if ok { files := files - {id}; }
    }
  }

  /** Nothing that was in `before` is missing from or different in `after`. */
  ghost predicate Grows(before: map<string, Json>, after: map<string, Json>) {
    forall id | id in before :: id in after && after[id] == before[id]
  }

  /** The disk's root names `doc`, and every object behind `doc` is there under its digest. */
  ghost predicate Stores(digest: Json -> string, large: Json -> bool, disk: Disk, doc: Json) {
    && Pack(digest, large, doc).Ok?
    && disk.root == Some(Root(digest, Pack(digest, large, doc).value))
    && Holds(digest, disk.files, Saved(digest, large, doc))
  }

  /** What a save may leave behind: on failure possibly the old root with nothing removed,
      otherwise the new document complete. */
  ghost predicate SaveOutcome(
      digest: Json -> string, large: Json -> bool, before: Disk, doc: Json, ok: bool, after: Disk) {
    || Stores(digest, large, after, doc)
    || (!ok && after.root == before.root && Grows(before.files, after.files))
  }

  function Read(digest: Json -> string, disk: Disk): Outcome {
    if disk.root.None? then Err else Unpack(digest, disk.files, disk.root.value, {})
  }

  /** A stored document is what a restart reads, exactly when it is packable. */
  lemma StoredReadsBack(digest: Json -> string, rank: Json -> nat, large: Json -> bool, disk: Disk, doc: Json)
    requires IsDigest(digest, rank) && Stores(digest, large, disk, doc)
    ensures Read(digest, disk) == Ok(doc) <==> Packable(doc)
  {
    ReadsBackIffPackable(digest, rank, large, disk.files, doc);
  }

  lemma SaveKeepsOrReplaces(
      digest: Json -> string, large: Json -> bool, before: Disk, old_: Json, doc: Json, ok: bool, after: Disk)
    requires Stores(digest, large, before, old_) && SaveOutcome(digest, large, before, doc, ok, after)
    ensures Stores(digest, large, after, doc) || (!ok && Stores(digest, large, after, old_))
  {}

  /** One save interrupted anywhere leaves a disk that reads as the old or as the new document. */
  lemma InterruptedSaveReadsOldOrNew(
      digest: Json -> string, rank: Json -> nat, large: Json -> bool,
      before: Disk, old_: Json, doc: Json, ok: bool, after: Disk)
    requires IsDigest(digest, rank) && Packable(old_) && Packable(doc)
    requires Stores(digest, large, before, old_) && SaveOutcome(digest, large, before, doc, ok, after)
    ensures Read(digest, after) == Ok(doc) || (!ok && Read(digest, after) == Ok(old_))
  {
    SaveKeepsOrReplaces(digest, large, before, old_, doc, ok, after);
    if Stores(digest, large, after, doc) {
      StoredReadsBack(digest, rank, large, after, doc);
    } else {
      StoredReadsBack(digest, rank, large, after, old_);
    }
  }

  datatype SaveStep = SaveStep(doc: Json, ok: bool, after: Disk)

  /** A run of saves, each starting from the disk the previous one left, with crashes and
      restarts anywhere between and inside them. */
  ghost predicate IsRun(digest: Json -> string, large: Json -> bool, first: Disk, steps: seq<SaveStep>)
    decreases |steps|
  {
    steps != [] ==>
      && SaveOutcome(digest, large, first, steps[0].doc, steps[0].ok, steps[0].after)
      && IsRun(digest, large, steps[0].after, steps[1..])
  }

  function Final(first: Disk, steps: seq<SaveStep>): Disk
    decreases |steps|
  {
    if steps == [] then first else Final(steps[0].after, steps[1..])
  }

  /** The documents a restart may find: the one last saved with success, and those whose save
      was attempted since. */
  function Latest(docs: set<Json>, steps: seq<SaveStep>): set<Json>
    decreases |steps|
  {
    if steps == [] then docs
    else Latest({steps[0].doc} + if steps[0].ok then {} else docs, steps[1..])
  }

  lemma {:induction false} RunStoresALatestDocument(
      digest: Json -> string, large: Json -> bool, first: Disk, doc: Json, docs: set<Json>, steps: seq<SaveStep>)
    returns (last: Json)
    requires Stores(digest, large, first, doc) && doc in docs && IsRun(digest, large, first, steps)
    ensures last in Latest(docs, steps) && Stores(digest, large, Final(first, steps), last)
    decreases |steps|
  {
    if steps == [] {
      last := doc;
    } else {
      var step := steps[0];
      SaveKeepsOrReplaces(digest, large, first, doc, step.doc, step.ok, step.after);
      var next := if Stores(digest, large, step.after, step.doc) then step.doc else doc;
      last := RunStoresALatestDocument(digest, large, step.after, next, {step.doc} + if step.ok then {} else docs,
        steps[1..]);
    }
  }

  lemma {:induction false} LatestWasSaved(docs: set<Json>, steps: seq<SaveStep>)
    requires forall d | d in docs :: Packable(d)
    requires forall i | 0 <= i < |steps| :: Packable(steps[i].doc)
    ensures forall d | d in Latest(docs, steps) :: Packable(d)
    decreases |steps|
  {
    if steps != [] {
      forall i | 0 <= i < |steps| - 1 ensures Packable(steps[1..][i].doc) { assert steps[1..][i] == steps[i + 1]; }
      LatestWasSaved({steps[0].doc} + if steps[0].ok then {} else docs, steps[1..]);
    }
  }

  /** Main result over runs: a restart reads the document of the last save that reported
      success, or of a save attempted since; never a mixture. */
  lemma RunReadsALatestDocument(
      digest: Json -> string, rank: Json -> nat, large: Json -> bool, first: Disk, doc: Json, steps: seq<SaveStep>)
    requires IsDigest(digest, rank) && Stores(digest, large, first, doc) && IsRun(digest, large, first, steps)
    requires Packable(doc) && forall i | 0 <= i < |steps| :: Packable(steps[i].doc)
    ensures Read(digest, Final(first, steps)).Ok? && Read(digest, Final(first, steps)).value in Latest({doc}, steps)
  {
    var last := RunStoresALatestDocument(digest, large, first, doc, {doc}, steps);
    LatestWasSaved({doc}, steps);
    StoredReadsBack(digest, rank, large, Final(first, steps), last);
  }

  function Names(digest: Json -> string, bodies: set<Json>): (names: set<string>)
    ensures forall b | b in bodies :: digest(b) in names
  {
    set b | b in bodies :: digest(b)
  }

  function RowSet(rows: seq<Json>): set<Json> {
    set row | row in rows
  }

  lemma OneMoreRow(rows: seq<Json>, i: nat)
    requires i < |rows|
    ensures RowSet(rows[..i + 1]) == RowSet(rows[..i]) + {rows[i]}
  {
    assert rows[..i + 1] == rows[..i] + [rows[i]];
  }

  class CheckpointContent {
    const dir: Directory
    const digest: Json -> string
    const large: Json -> bool
    /** Names known to be on disk with the right body. */
    var known: set<string>
    /** Names stored by the save in progress. */
    var used: set<string>
    /** Names on the path from the root in the read in progress. */
    var seen: set<string>

    constructor (dir: Directory, digest: Json -> string, large: Json -> bool)
      ensures Valid() && this.dir == dir && this.digest == digest && this.large == large && known == {}
    {
      this.dir, this.digest, this.large := dir, digest, large;
      known, used, seen := {}, {}, {};
    }

    ghost predicate Valid()
      reads this, dir
    {
      forall id | id in known :: id in dir.files && digest(dir.files[id]) == id
    }

    /** Every body is known to be on disk. */
    ghost predicate Kept(bodies: set<Json>)
      reads this, dir
    {
      forall b | b in bodies ::
        digest(b) in known && digest(b) in dir.files && dir.files[digest(b)] == b
    }

    /** Keeps one object on disk and returns the reference that stands for it. */
    method Keep(body: Json, whole: bool) returns (r: Outcome)
      requires Valid() && Injective(digest)
      modifies this`known, this`used, dir
      ensures Valid() && dir.root == old(dir.root) && Grows(old(dir.files), dir.files)
      ensures r.Ok? ==> r.value == Reference(digest(body), whole)
      ensures r.Ok? ==> Kept({body}) && used == old(used) + {digest(body)}
      ensures old(known) <= known
    {
      var id := digest(body);
      used := used + {id};
      if id !in known {
        if id in dir.files {
          if dir.files[id] != body { return Err; }
        } else {
          var ok := dir.WriteObject(id, body);
          if !ok { return Err; }
        }
        known := known + {id};
      }
      r := Ok(Reference(id, whole));
    }

    /** Packs one part, keeping its objects; `external` parts are kept whole. */
    method PackInto(j: Json) returns (r: Outcome)
      requires Valid() && Injective(digest)
      modifies this`known, this`used, dir
      ensures Valid() && dir.root == old(dir.root) && Grows(old(dir.files), dir.files)
      ensures r.Ok? ==> r == Pack(digest, large, j)
      ensures r.Ok? ==> Kept(Bodies(digest, large, j))
      ensures r.Ok? ==> used == old(used) + Names(digest, Bodies(digest, large, j))
      ensures old(known) <= known
      decreases j, 1
    {
      if j.Obj? && REFERENCE !in j.fields {
        r := PackFieldsInto(j);
        if r.Ok? && large(r.value) { r := Keep(r.value, false); }
      } else if j.Obj? {
        r := Keep(j, true);
      } else if large(j) {
        r := Keep(j, false);
      } else {
        r := Ok(j);
      }
    }

    method PackFieldsInto(j: Json) returns (r: Outcome)
      requires Valid() && Injective(digest) && j.Obj?
      modifies this`known, this`used, dir
      ensures Valid() && dir.root == old(dir.root) && Grows(old(dir.files), dir.files)
      ensures r.Ok? ==> forall k | k in j.fields :: PackField(digest, large, k, j.fields[k]).Ok?
      ensures r.Ok? ==> r.value == PackFields(digest, large, j)
      ensures r.Ok? ==> Kept(FieldsBodies(digest, large, j, j.fields.Keys))
      ensures r.Ok? ==> used == old(used) + Names(digest, FieldsBodies(digest, large, j, j.fields.Keys))
      ensures old(known) <= known
      decreases j, 0
    {
      var todo := j.fields.Keys;
      var packed: map<string, Json> := map[];
      while todo != {}
        invariant todo <= j.fields.Keys && packed.Keys == j.fields.Keys - todo
        invariant Valid() && dir.root == old(dir.root) && Grows(old(dir.files), dir.files) && old(known) <= known
        invariant forall k | k in packed :: PackField(digest, large, k, j.fields[k]) == Ok(packed[k])
        invariant Kept(FieldsBodies(digest, large, j, packed.Keys))
        invariant used == old(used) + Names(digest, FieldsBodies(digest, large, j, packed.Keys))
        decreases todo
      {
        var k :| k in todo;
        ghost var before := FieldsBodies(digest, large, j, packed.Keys);
        r := PackFieldInto(k, j.fields[k]);
        if r.Err? { return; }
        todo, packed := todo - {k}, packed[k := r.value];
        assert FieldsBodies(digest, large, j, packed.Keys) == before + FieldBodies(digest, large, k, j.fields[k]);
      }
      assert packed.Keys == j.fields.Keys;
      r := Ok(Obj(packed));
    }

    method PackRowsInto(rows: seq<Json>) returns (r: Outcome)
      requires Valid() && Injective(digest)
      modifies this`known, this`used, dir
      ensures Valid() && dir.root == old(dir.root) && Grows(old(dir.files), dir.files) && old(known) <= known
      ensures r.Ok? ==> r.value == PackRows(digest, rows)
      ensures r.Ok? ==> Kept(set row | row in rows)
      ensures r.Ok? ==> used == old(used) + Names(digest, set row | row in rows)
    {
      var packed: seq<Json> := [];
      ghost var kept: set<Json> := {};
      for i := 0 to |rows|
        invariant Valid() && dir.root == old(dir.root) && Grows(old(dir.files), dir.files) && old(known) <= known
        invariant |packed| == i && forall n | 0 <= n < i :: packed[n] == Reference(digest(rows[n]), true)
        invariant kept == RowSet(rows[..i])
        invariant Kept(kept)
        invariant used == old(used) + Names(digest, kept)
      {
        r := Keep(rows[i], true);
        if r.Err? { return; }
        packed := packed + [r.value];
        OneMoreRow(rows, i);
        kept := kept + {rows[i]};
      }
      assert rows[..|rows|] == rows;
      assert kept == set row | row in rows;
      assert packed == PackRows(digest, rows).rows;
      r := Ok(Arr(packed));
    }

    method PackFieldInto(key: string, j: Json) returns (r: Outcome)
      requires Valid() && Injective(digest)
      modifies this`known, this`used, dir
      ensures Valid() && dir.root == old(dir.root) && Grows(old(dir.files), dir.files)
      ensures r.Ok? ==> r == PackField(digest, large, key, j)
      ensures r.Ok? ==> Kept(FieldBodies(digest, large, key, j))
      ensures r.Ok? ==> used == old(used) + Names(digest, FieldBodies(digest, large, key, j))
      ensures old(known) <= known
      decreases j, 2
    {
      if !IsRowKey(key) {
        r := PackInto(j);
      } else if j.Null? {
        r := Ok(j);
      } else if j.Arr? {
        r := PackRowsInto(j.rows);
      } else {
        r := Err;
      }
    }

    /** Saves a document: objects first, one flush, then the root, then garbage collection. */
    method Save(doc: Json) returns (ok: bool)
      requires Valid() && Injective(digest)
      modifies this, dir
      ensures Valid()
      ensures SaveOutcome(digest, large, old(dir.State()), doc, ok, dir.State())
      ensures forall id | id in old(dir.files) && id !in dir.files ::
        ok && id !in Names(digest, Saved(digest, large, doc))
      ensures ok && (forall n :: dir.fate(n) == Done) ==> known == Names(digest, Saved(digest, large, doc))
    {
      var root := KeepAll(doc);
      if root.Err? { return false; }
      var flushed := dir.Flush();
      if !flushed { return false; }
      ok := dir.MoveRoot(root.value);
      if ok { Collect(Saved(digest, large, doc)); }
    }

    /** Keeps every object behind a document, the packed document itself last. */
    method KeepAll(doc: Json) returns (r: Outcome)
      requires Valid() && Injective(digest)
      modifies this`known, this`used, dir
      ensures Valid() && dir.root == old(dir.root) && Grows(old(dir.files), dir.files) && old(known) <= known
      ensures r.Ok? ==> Pack(digest, large, doc).Ok? && r.value == Root(digest, Pack(digest, large, doc).value)
      ensures r.Ok? ==> Kept(Saved(digest, large, doc)) && used == Names(digest, Saved(digest, large, doc))
    {
      used := {};
      var packed := PackInto(doc);
      if packed.Err? { return Err; }
      r := Keep(packed.value, false);
    }

    /** Removes known objects that the save did not use. */
    method Collect(ghost bodies: set<Json>)
      requires Valid() && used == Names(digest, bodies) && Kept(bodies)
      modifies this`known, dir
      ensures Valid() && Kept(bodies) && dir.root == old(dir.root)
      ensures forall id | id in old(dir.files) && id !in dir.files :: id in old(known) && id !in used
      ensures (forall n :: dir.fate(n) == Done) ==> known == used
    {
      var todo := known;
      while todo != {}
        invariant Valid() && Kept(bodies) && dir.root == old(dir.root)
        invariant todo <= old(known) && known <= old(known) && old(known) * used <= known
        invariant forall id | id in old(dir.files) && id !in dir.files :: id in old(known) && id !in used
        invariant (forall n :: dir.fate(n) == Done) ==> known <= used + todo
        decreases todo
      {
        var id :| id in todo;
        todo := todo - {id};
        if id !in used {
          var gone := dir.Remove(id);
          if gone { known := known - {id}; }
        }
      }
    }

    /** Reads the document behind the root, learning which objects are on disk. */
    method Open() returns (r: Outcome)
      requires Valid()
      modifies this`known, this`seen
      ensures Valid() && r == Read(digest, dir.State()) && old(known) <= known
    {
      seen := {};
      if dir.root == None { return Err; }
      r := Expand(dir.root.value);
    }

    method Expand(j: Json) returns (r: Outcome)
      requires Valid()
      modifies this`known, this`seen
      ensures Valid() && r == Unpack(digest, dir.files, j, old(seen))
      ensures old(known) <= known && (r.Ok? ==> seen == old(seen))
      decreases dir.files.Keys - seen, j, 1
    {
      match j
      case Obj(fields) =>
        if IsReference(fields) {
          r := Follow(fields);
        } else {
          r := ExpandFields(j);
        }
      case Arr(rows) => r := ExpandRows(j);
      case _ => r := Ok(j);
    }

    method Follow(fields: map<string, Json>) returns (r: Outcome)
      requires Valid() && IsReference(fields)
      modifies this`known, this`seen
      ensures Valid() && r == Unpack(digest, dir.files, Obj(fields), old(seen))
      ensures old(known) <= known && (r.Ok? ==> seen == old(seen))
      decreases dir.files.Keys - seen, Obj(fields), 0
    {
      if !fields[REFERENCE].Str? || !IsHex(fields[REFERENCE].text) { return Err; }
      var id := fields[REFERENCE].text;
      if id in seen || id !in dir.files { return Err; }
      ghost var path := seen;
      seen := seen + {id};
      var body := dir.files[id];
      if digest(body) != id { return Err; }
      known := known + {id};
      r := Ok(body);
      if RAW !in fields { r := Expand(body); }
      seen := seen - {id};
      assert r.Ok? ==> seen == path;
    }

    method ExpandFields(j: Json) returns (r: Outcome)
      requires Valid() && j.Obj? && !IsReference(j.fields)
      modifies this`known, this`seen
      ensures Valid() && r == Unpack(digest, dir.files, j, old(seen))
      ensures old(known) <= known && (r.Ok? ==> seen == old(seen))
      decreases dir.files.Keys - seen, j, 0
    {
      var todo := j.fields.Keys;
      var expanded: map<string, Json> := map[];
      while todo != {}
        invariant todo <= j.fields.Keys && expanded.Keys == j.fields.Keys - todo
        invariant Valid() && old(known) <= known && seen == old(seen)
        invariant forall k | k in expanded :: Unpack(digest, dir.files, j.fields[k], seen) == Ok(expanded[k])
        decreases todo
      {
        var k :| k in todo;
        r := Expand(j.fields[k]);
        if r.Err? { return; }
        todo, expanded := todo - {k}, expanded[k := r.value];
      }
      FieldsExpandTo(digest, dir.files, j.fields, seen, expanded);
      r := Ok(Obj(expanded));
    }

    method ExpandRows(j: Json) returns (r: Outcome)
      requires Valid() && j.Arr?
      modifies this`known, this`seen
      ensures Valid() && r == Unpack(digest, dir.files, j, old(seen))
      ensures old(known) <= known && (r.Ok? ==> seen == old(seen))
      decreases dir.files.Keys - seen, j, 0
    {
      var rows := j.rows;
      var expanded: seq<Json> := [];
      for i := 0 to |rows|
        invariant Valid() && old(known) <= known && seen == old(seen)
        invariant |expanded| == i
        invariant forall n | 0 <= n < i :: Unpack(digest, dir.files, rows[n], seen) == Ok(expanded[n])
      {
        r := Expand(rows[i]);
        if r.Err? { return; }
        expanded := expanded + [r.value];
      }
      RowsExpandTo(digest, dir.files, rows, seen, expanded);
      r := Ok(Arr(expanded));
    }
  }
}
