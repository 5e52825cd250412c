/** The published catalogue of a set of sources: which rundowns there are, and whether that is all of
    them. */
module CatalogueListings {
  import opened Options
  import opened Faults

  const MAX_REVISION: nat := 9007199254740991
  const MAX_ROWS := 100
  const MAX_SIZE := 65536

  // ---- Listings ----

  datatype Row = Row(id: string, slug: Option<string>, start: Option<string>)

  datatype Listing = Listing(revision: nat, complete: bool, rows: seq<Row>)

  /** `bulk` is the second protocol version, without limits of its own. `frame` is the length of a
      rendered listing without its revision and its completeness. */
  datatype Setup = Setup(bulk: bool, frame: seq<Row> -> nat)

  function Digits(n: nat): nat {
    if n < 10 then 1 else 1 + Digits(n / 10)
  }

  function Size(setup: Setup, l: Listing): nat {
    setup.frame(l.rows) + Digits(l.revision) + |if l.complete then "true" else "false"|
  }

  predicate IsDisplay(text: Option<string>) {
    text.Some? ==> |text.value| <= 512
  }

  predicate IsRow(row: Row) {
    0 < |row.id| <= 512 && IsDisplay(row.slug) && IsDisplay(row.start)
  }

  function IdsOf(rows: seq<Row>): seq<string> {
    if rows == [] then [] else IdsOf(rows[..|rows| - 1]) + [rows[|rows| - 1].id]
  }

  predicate AreRows(rows: seq<Row>) {
    (forall row | row in rows :: IsRow(row)) && forall i, j | 0 <= i < j < |rows| :: rows[i].id != rows[j].id
  }

  predicate IsPublishable(setup: Setup, l: Listing) {
    && 0 < l.revision <= MAX_REVISION && AreRows(l.rows)
    && (!setup.bulk ==> |l.rows| <= MAX_ROWS && Size(setup, l) <= MAX_SIZE)
  }

  method CheckRows(rows: seq<Row>) returns (ok: bool)
    ensures ok <==> AreRows(rows)
  {
    var seen: set<string> := {};
    for i := 0 to |rows|
      invariant AreRows(rows[..i]) && seen == set row | row in rows[..i] :: row.id
    {
      assert rows[..i + 1] == rows[..i] + [rows[i]];
      if rows[i].id in seen {
        var k :| 0 <= k < i && rows[k].id == rows[i].id;
        return false;
      }
      if !IsRow(rows[i]) { return false; }
      seen := seen + {rows[i].id};
    }
    assert rows[..|rows|] == rows;
    ok := true;
  }

  method Check(setup: Setup, l: Listing) returns (ok: bool)
    ensures ok <==> IsPublishable(setup, l)
  {
    if l.revision == 0 || l.revision > MAX_REVISION || (!setup.bulk && |l.rows| > MAX_ROWS) { return false; }
    ok := CheckRows(l.rows);
    ok := ok && (setup.bulk || Size(setup, l) <= MAX_SIZE);
  }

  // ---- One commit ----

  /** `rewritten`: the store has read the pending listing back, with its fields in another order. */
  datatype Checkpoint = Checkpoint(
    revision: nat, accepted: nat, halted: bool, pending: Option<Listing>, rewritten: bool)

  const UNSTARTED := Checkpoint(0, 0, false, None, false)

  function RowsOf(cp: Checkpoint): seq<Row> {
    if cp.pending.Some? then cp.pending.value.rows else []
  }

  predicate IsComplete(cp: Checkpoint) {
    cp.pending.Some? && cp.pending.value.complete
  }

  /** One more revision unless nothing changes; none if it is refused. */
  function Revise(setup: Setup, cp: Checkpoint, complete: bool, rows: seq<Row>): Option<Checkpoint> {
    var same := Listing(if cp.revision == 0 then 1 else cp.revision, complete, rows);
    var next := Listing(cp.revision + 1, complete, rows);
    if cp.halted || !IsPublishable(setup, same) then None
    else if cp.pending == Some(same) && !cp.rewritten then Some(cp)
    else if !IsPublishable(setup, next) then None
    else Some(cp.(revision := cp.revision + 1, pending := Some(next), rewritten := false))
  }

  /** What a message of a rundown tells about its row. */
  datatype Change = Created | Replaced | Described | Removed

  function Merged(prior: Row, row: Row): Row {
    Row(row.id, if row.slug.None? then prior.slug else row.slug, if row.start.None? then prior.start else row.start)
  }

  function ChangedRow(prior: Row, change: Change, row: Row): seq<Row> {
    if prior.id != row.id then [prior]
    else if change.Removed? then []
    else if change.Described? then [Merged(prior, row)]
    else [row]
  }

  function Changed(rows: seq<Row>, change: Change, row: Row): seq<Row> {
    if rows == [] then []
    else Changed(rows[..|rows| - 1], change, row) + ChangedRow(rows[|rows| - 1], change, row)
  }

  /** What is committed about the catalogue. */
  datatype Step =
    | Listed(rows: seq<Row>)
    | Suspended
    | Updated(change: Change, row: Row)
    | Accepted(body: Listing)
    | Halted
    | Reopened

  function Next(setup: Setup, cp: Checkpoint, step: Step): Option<Checkpoint> {
    match step
    case Listed(rows) =>
      if IsPublishable(setup, Listing(cp.revision + 1, true, rows)) then Revise(setup, cp, true, rows) else None
    case Suspended => Revise(setup, cp, false, RowsOf(cp))
    case Updated(change, row) =>
      if cp.pending.None? then None
      else Revise(setup, cp, IsComplete(cp) && (change.Created? ==> row.id in IdsOf(RowsOf(cp))),
        Changed(RowsOf(cp), change, row))
    case Accepted(body) => Some(if cp.pending == Some(body) then cp.(accepted := cp.revision) else cp)
    case Halted => if cp.revision == 0 then None else Some(cp.(halted := true))
    case Reopened => Some(cp.(rewritten := setup.bulk && cp.pending.Some?))
  }

  /** The catalogue after these commits. */
  function After(setup: Setup, steps: seq<Step>): Option<Checkpoint> {
    if steps == [] then Some(UNSTARTED)
    else
      var before := After(setup, steps[..|steps| - 1]);
      if before.None? then None else Next(setup, before.value, steps[|steps| - 1])
  }

  // ---- What holds of every catalogue ----

  predicate IsCatalogue(setup: Setup, cp: Checkpoint) {
    && cp.accepted <= cp.revision && (cp.revision == 0 <==> cp.pending.None?) && (cp.revision == 0 ==> !cp.halted)
    && (cp.pending.Some? ==> IsPublishable(setup, cp.pending.value) && cp.pending.value.revision == cp.revision)
  }

  lemma StepHolds(setup: Setup, cp: Checkpoint, step: Step)
    requires IsCatalogue(setup, cp) && Next(setup, cp, step).Some?
    ensures IsCatalogue(setup, Next(setup, cp, step).value)
  {}

  /** What is published always has bounded identities, each once, and the checkpoint's own revision. */
  lemma {:induction false} RunHolds(setup: Setup, steps: seq<Step>)
    requires After(setup, steps).Some?
    ensures IsCatalogue(setup, After(setup, steps).value)
  {
    if steps != [] {
      RunHolds(setup, steps[..|steps| - 1]);
      StepHolds(setup, After(setup, steps[..|steps| - 1]).value, steps[|steps| - 1]);
    }
  }

  // ---- Rows ----

  predicate Removes(steps: seq<Step>, id: string) {
    exists step | step in steps :: step.Updated? && step.change.Removed? && step.row.id == id
  }

  /** The identities that were not removed meanwhile, in their order. */
  function Kept(ids: seq<string>, steps: seq<Step>): seq<string> {
    if ids == [] then []
    else Kept(ids[..|ids| - 1], steps) + if Removes(steps, ids[|ids| - 1]) then [] else [ids[|ids| - 1]]
  }

  lemma {:induction false} NothingRemoved(ids: seq<string>)
    ensures Kept(ids, []) == ids
  {
    if ids != [] { NothingRemoved(ids[..|ids| - 1]); }
  }

  lemma RemovesOneMore(steps: seq<Step>, step: Step, id: string)
    ensures Removes(steps + [step], id) <==>
      Removes(steps, id) || (step.Updated? && step.change.Removed? && step.row.id == id)
  {
    assert step in steps + [step];
    if Removes(steps, id) {
      var s :| s in steps && s.Updated? && s.change.Removed? && s.row.id == id;
      assert s in steps + [step];
    }
  }

  /** A commit that removes nothing keeps the rest. */
  lemma {:induction false} KeptStill(ids: seq<string>, steps: seq<Step>, step: Step)
    requires !(step.Updated? && step.change.Removed?)
    ensures Kept(ids, steps + [step]) == Kept(ids, steps)
  {
    if ids != [] {
      RemovesOneMore(steps, step, ids[|ids| - 1]);
      KeptStill(ids[..|ids| - 1], steps, step);
    }
  }

  function Drop(ids: seq<string>, id: string): seq<string> {
    if ids == [] then []
    else Drop(ids[..|ids| - 1], id) + if ids[|ids| - 1] == id then [] else [ids[|ids| - 1]]
  }

  lemma DropLast(ids: seq<string>, last: string, id: string)
    ensures Drop(ids + [last], id) == Drop(ids, id) + if last == id then [] else [last]
  {
    assert (ids + [last])[..|ids|] == ids;
  }

  lemma {:induction false} KeptDrops(ids: seq<string>, steps: seq<Step>, step: Step)
    requires step.Updated? && step.change.Removed?
    ensures Kept(ids, steps + [step]) == Drop(Kept(ids, steps), step.row.id)
  {
    if ids != [] {
      var front, last := ids[..|ids| - 1], ids[|ids| - 1];
      RemovesOneMore(steps, step, last);
      KeptDrops(front, steps, step);
      if Removes(steps, last) {
        assert Kept(front, steps) + [] == Kept(front, steps);
      } else {
        DropLast(Kept(front, steps), last, step.row.id);
      }
    }
  }

  lemma IdsOfMore(rows: seq<Row>, row: Row)
    ensures IdsOf(rows + [row]) == IdsOf(rows) + [row.id]
  {
    assert (rows + [row])[..|rows|] == rows;
  }

  /** A message changes which rundowns there are only by removing its own. */
  lemma {:induction false} ChangedIds(rows: seq<Row>, change: Change, row: Row)
    ensures IdsOf(Changed(rows, change, row)) ==
      if change.Removed? then Drop(IdsOf(rows), row.id) else IdsOf(rows)
  {
    if rows != [] {
      var front, last := rows[..|rows| - 1], rows[|rows| - 1];
      ChangedIds(front, change, row);
      DropLast(IdsOf(front), last.id, row.id);
      if ChangedRow(last, change, row) == [] {
        assert Changed(front, change, row) + [] == Changed(front, change, row);
      } else {
        IdsOfMore(Changed(front, change, row), ChangedRow(last, change, row)[0]);
      }
    }
  }

  lemma ChangedOneMore(rows: seq<Row>, i: nat, change: Change, row: Row)
    requires i < |rows|
    ensures IdsOf(rows[..i + 1]) == IdsOf(rows[..i]) + [rows[i].id]
    ensures Changed(rows[..i + 1], change, row) == Changed(rows[..i], change, row) + ChangedRow(rows[i], change, row)
    ensures ChangedRow(rows[i], change, row) == [] ==>
      Changed(rows[..i + 1], change, row) == Changed(rows[..i], change, row)
  {
    assert rows[..i + 1] == rows[..i] + [rows[i]] && rows[..i + 1][..i] == rows[..i];
  }

  /** The updated rows: the others as they were, and the message's own as it tells. */
  lemma {:induction false} ChangedRows(rows: seq<Row>, change: Change, row: Row, r: Row)
    ensures r in Changed(rows, change, row) <==> exists prior | prior in rows :: r in ChangedRow(prior, change, row)
  {
    if rows != [] {
      var front, last := rows[..|rows| - 1], rows[|rows| - 1];
      ChangedRows(front, change, row, r);
      assert rows == front + [last];
      if r in ChangedRow(last, change, row) { assert last in rows; }
    }
  }

  // ---- Completeness ----

  /** Commit `j` leaves the listing of commit `i` complete. */
  predicate Covers(steps: seq<Step>, i: nat, j: nat)
    requires i < j < |steps| && steps[i].Listed?
  {
    && !steps[j].Suspended? && !steps[j].Listed?
    && (steps[j].Updated? && steps[j].change.Created? ==>
      steps[j].row.id in Kept(IdsOf(steps[i].rows), steps[i + 1..j]))
  }

  /** Commit `i` took the last listing, and since then nothing was suspended or created beside it. */
  predicate IsEnumeration(steps: seq<Step>, i: nat) {
    && i < |steps| && steps[i].Listed?
    && forall j: nat | i < j < |steps| :: Covers(steps, i, j)
  }

  lemma CoversInFront(steps: seq<Step>, i: nat, j: nat)
    requires i < j < |steps| - 1 && steps[i].Listed?
    ensures Covers(steps[..|steps| - 1], i, j) <==> Covers(steps, i, j)
  {
    assert steps[..|steps| - 1][i + 1..j] == steps[i + 1..j];
  }

  lemma EnumerationBefore(steps: seq<Step>, i: nat)
    requires i + 1 < |steps|
    ensures IsEnumeration(steps, i) <==>
      IsEnumeration(steps[..|steps| - 1], i) && Covers(steps, i, |steps| - 1)
  {
    var front := steps[..|steps| - 1];
    if steps[i].Listed? {
      forall j: nat | i < j < |front|
        ensures Covers(front, i, j) <==> Covers(steps, i, j) { CoversInFront(steps, i, j); }
      if IsEnumeration(front, i) && Covers(steps, i, |steps| - 1) {
        forall j: nat | i < j < |steps| ensures Covers(steps, i, j) {
          if j < |front| { assert Covers(front, i, j); }
        }
      }
    }
  }

  /** The rundowns of an enumeration now. */
  function Remaining(steps: seq<Step>, i: nat): seq<string>
    requires i < |steps| && steps[i].Listed?
  {
    Kept(IdsOf(steps[i].rows), steps[i + 1..])
  }

  lemma RevisedIs(setup: Setup, cp: Checkpoint, complete: bool, rows: seq<Row>)
    requires Revise(setup, cp, complete, rows).Some?
    ensures var next := Revise(setup, cp, complete, rows).value; RowsOf(next) == rows && IsComplete(next) == complete
  {}

  lemma SinceListing(steps: seq<Step>, i: nat)
    requires i + 1 < |steps|
    ensures var front := steps[..|steps| - 1];
      front[i + 1..] + [steps[|steps| - 1]] == steps[i + 1..] && front[i + 1..] == steps[i + 1..|steps| - 1]
  {}

  /** An enumeration under way is published as complete, with the rundowns that remain of it. */
  lemma {:induction false} EnumerationIsComplete(setup: Setup, steps: seq<Step>, i: nat)
    requires After(setup, steps).Some? && IsEnumeration(steps, i)
    ensures var cp := After(setup, steps).value; IsComplete(cp) && IdsOf(RowsOf(cp)) == Remaining(steps, i)
  {
    var front, last := steps[..|steps| - 1], steps[|steps| - 1];
    var before := After(setup, front).value;
    if i == |front| {
      RevisedIs(setup, before, true, last.rows);
      NothingRemoved(IdsOf(last.rows));
      assert steps[i + 1..] == [];
    } else {
      EnumerationBefore(steps, i);
      EnumerationIsComplete(setup, front, i);
      SinceListing(steps, i);
      EnumerationGoesOn(setup, before, IdsOf(steps[i].rows), front[i + 1..], last);
    }
  }

  lemma EnumerationGoesOn(setup: Setup, before: Checkpoint, ids: seq<string>, since: seq<Step>, last: Step)
    requires Next(setup, before, last).Some? && IsComplete(before) && IdsOf(RowsOf(before)) == Kept(ids, since)
    requires !last.Suspended? && !last.Listed?
    requires last.Updated? && last.change.Created? ==> last.row.id in Kept(ids, since)
    ensures var cp := Next(setup, before, last).value;
      IsComplete(cp) && IdsOf(RowsOf(cp)) == Kept(ids, since + [last])
  {
    if last.Updated? {
      ChangedIds(RowsOf(before), last.change, last.row);
      if last.change.Removed? { KeptDrops(ids, since, last); } else { KeptStill(ids, since, last); }
    } else {
      KeptStill(ids, since, last);
    }
  }

  /** A commit that leaves the catalogue complete takes a listing, or goes on from a complete one. */
  lemma CompleteGoesOn(setup: Setup, before: Checkpoint, last: Step)
    requires Next(setup, before, last).Some? && IsComplete(Next(setup, before, last).value) && !last.Listed?
    ensures IsComplete(before) && !last.Suspended?
    ensures last.Updated? && last.change.Created? ==> last.row.id in IdsOf(RowsOf(before))
  {}

  lemma {:induction false} CompleteHasEnumeration(setup: Setup, steps: seq<Step>) returns (i: nat)
    requires After(setup, steps).Some? && IsComplete(After(setup, steps).value)
    ensures IsEnumeration(steps, i)
  {
    var front, last := steps[..|steps| - 1], steps[|steps| - 1];
    if last.Listed? { return |front|; }
    CompleteGoesOn(setup, After(setup, front).value, last);
    i := CompleteHasEnumeration(setup, front);
    EnumerationIsComplete(setup, front, i);
    SinceListing(steps, i);
    EnumerationBefore(steps, i);
  }

  /** Main result: the catalogue is published as complete exactly while its last listing stands: no
      suspension was committed since, and no rundown was created that the listing does not have or that
      was removed meanwhile. What is published then is that listing without what was removed. */
  lemma CompleteIffEnumerated(setup: Setup, steps: seq<Step>)
    requires After(setup, steps).Some?
    ensures IsComplete(After(setup, steps).value) <==> exists i: nat :: IsEnumeration(steps, i)
    ensures forall i: nat | IsEnumeration(steps, i) ::
      IdsOf(RowsOf(After(setup, steps).value)) == Remaining(steps, i)
  {
    forall i: nat | IsEnumeration(steps, i)
      ensures IsComplete(After(setup, steps).value)
      ensures IdsOf(RowsOf(After(setup, steps).value)) == Remaining(steps, i) {
      EnumerationIsComplete(setup, steps, i);
    }
    if IsComplete(After(setup, steps).value) { var i := CompleteHasEnumeration(setup, steps); }
  }

  // ---- Suspension ----

  lemma {:induction false} DigitsGrow(n: nat)
    ensures Digits(n) <= Digits(n + 1)
  {
    if n >= 10 {
      if n % 10 == 9 { DigitsGrow(n / 10); }
      assert (n + 1) / 10 == n / 10 || (n + 1) / 10 == n / 10 + 1;
    }
  }

  /** Nothing has to change for a suspension. */
  predicate IsSuspended(cp: Checkpoint) {
    !IsComplete(cp) && !cp.rewritten
  }

  /** There is one more revision, and room for its form that is not complete. */
  predicate HasRoom(setup: Setup, cp: Checkpoint) {
    && cp.revision < MAX_REVISION
    && (setup.bulk || Size(setup, Listing(cp.revision + 1, false, RowsOf(cp))) <= MAX_SIZE)
  }

  /** Main result: a suspension is refused exactly when the catalogue is halted, or it has to change and
      has no revision left or, in the first version, no room for the form that is not complete. */
  lemma SuspendsIff(setup: Setup, cp: Checkpoint)
    requires IsCatalogue(setup, cp) && cp.pending.Some?
    ensures Next(setup, cp, Suspended).Some? <==> !cp.halted && (IsSuspended(cp) || HasRoom(setup, cp))
    ensures Next(setup, cp, Suspended).Some? ==>
      var next := Next(setup, cp, Suspended).value;
      && !IsComplete(next) && RowsOf(next) == RowsOf(cp)
      && next.revision == cp.revision + if IsSuspended(cp) then 0 else 1
  {
    DigitsGrow(cp.revision);
  }

  /** A listing at the size limit is taken and can never be suspended, for the form that is not complete is
      longer: it stays published as complete, and no set can be opened over it again. */
  lemma FullListingStaysComplete(setup: Setup, cp: Checkpoint, rows: seq<Row>)
    requires IsCatalogue(setup, cp) && !cp.halted && !setup.bulk && AreRows(rows) && |rows| <= MAX_ROWS
    requires 0 < cp.revision < MAX_REVISION && RowsOf(cp) != rows
    requires Size(setup, Listing(cp.revision + 1, true, rows)) == MAX_SIZE
    ensures Next(setup, cp, Listed(rows)).Some?
    ensures var full := Next(setup, cp, Listed(rows)).value;
      && IsComplete(full) && Next(setup, full, Suspended).None?
      && Next(setup, full, Reopened).Some? && Next(setup, Next(setup, full, Reopened).value, Suspended).None?
  {
    DigitsGrow(cp.revision);
    DigitsGrow(cp.revision + 1);
  }

  // ---- Revisions ----

  lemma StepRevises(setup: Setup, cp: Checkpoint, step: Step)
    requires Next(setup, cp, step).Some?
    ensures var next := Next(setup, cp, step).value;
      cp.revision <= next.revision && (next.revision == cp.revision ==> next.pending == cp.pending)
  {}

  /** Main result: revisions never go back, and one revision has one body, across restarts too. */
  lemma {:induction false} RevisionHasOneBody(setup: Setup, steps: seq<Step>, k: nat)
    requires After(setup, steps).Some? && k <= |steps|
    ensures After(setup, steps[..k]).Some?
    ensures var was, now := After(setup, steps[..k]).value, After(setup, steps).value;
      was.revision <= now.revision && (was.revision == now.revision ==> was.pending == now.pending)
  {
    if k == |steps| {
      assert steps[..k] == steps;
    } else {
      var front := steps[..|steps| - 1];
      RevisionHasOneBody(setup, front, k);
      assert front[..k] == steps[..k];
      StepRevises(setup, After(setup, front).value, steps[|steps| - 1]);
    }
  }

  /** The receiver's receipt at commit `k` was for the body that was current then. */
  predicate IsAcceptance(setup: Setup, steps: seq<Step>, k: nat, revision: nat) {
    && k < |steps| && steps[k].Accepted? && steps[k].body.revision == revision
    && After(setup, steps[..k]).Some? && After(setup, steps[..k]).value.pending == Some(steps[k].body)
  }

  /** Main result: an accepted revision was accepted by a receipt for the one body of that revision. */
  lemma {:induction false} AcceptedHadReceipt(setup: Setup, steps: seq<Step>) returns (k: nat)
    requires After(setup, steps).Some? && After(setup, steps).value.accepted > 0
    ensures IsAcceptance(setup, steps, k, After(setup, steps).value.accepted)
  {
    var front, last := steps[..|steps| - 1], steps[|steps| - 1];
    var before := After(setup, front).value;
    RunHolds(setup, front);
    if last.Accepted? && before.pending == Some(last.body) { return |front|; }
    k := AcceptedHadReceipt(setup, front);
    assert front[..k] == steps[..k];
  }

  /** Once halted, a catalogue publishes nothing new for good. */
  lemma {:induction false} HaltedIsFrozen(setup: Setup, steps: seq<Step>, k: nat)
    requires After(setup, steps).Some? && k <= |steps|
    requires After(setup, steps[..k]).Some? && After(setup, steps[..k]).value.halted
    ensures var was, now := After(setup, steps[..k]).value, After(setup, steps).value;
      now.halted && now.revision == was.revision && now.pending == was.pending
  {
    if k == |steps| {
      assert steps[..k] == steps;
    } else {
      var front := steps[..|steps| - 1];
      assert front[..k] == steps[..k];
      HaltedIsFrozen(setup, front, k);
    }
  }

  // ---- The catalogue ----

  /** What a commit adds to the history: nothing when it is refused or not written. */
  function Taken(setup: Setup, cp: Checkpoint, degraded: bool, step: Step, fate: Fate): seq<Step> {
    if degraded || Next(setup, cp, step).None? || fate.Lost? then [] else [step]
  }

  /** This body is current, and its receipt is the first. */
  predicate IsNews(cp: Checkpoint, body: Listing) {
    cp.pending == Some(body) && cp.accepted != cp.revision
  }

  predicate IsTaken(setup: Setup, cp: Checkpoint, degraded: bool, step: Step, fate: Fate) {
    !degraded && Next(setup, cp, step).Some? && fate.Done?
  }

  lemma OneMoreStep(setup: Setup, steps: seq<Step>, step: Step)
    requires After(setup, steps).Some?
    ensures After(setup, steps + [step]) == Next(setup, After(setup, steps).value, step)
  {
    assert (steps + [step])[..|steps|] == steps;
  }

  class PublishedCatalogue {
    const setup: Setup
    var cp: Checkpoint
    var degraded: bool
    var up: bool
    // The file, and the commits that are in it.
    ghost var file: Checkpoint
    ghost var steps: seq<Step>

    ghost predicate Valid()
      reads this
    {
      After(setup, steps) == Some(file) && (!degraded ==> cp == file)
    }

    /** A new catalogue, suspended before anything else. */
    constructor (setup: Setup, fate: Fate)
      ensures Valid() && this.setup == setup && steps == Taken(setup, UNSTARTED, false, Suspended, fate)
      ensures up <==> IsTaken(setup, UNSTARTED, false, Suspended, fate)
    {
      this.setup, cp, degraded, up, file, steps := setup, UNSTARTED, false, false, UNSTARTED, [];
      new;
      up := Suspend(fate);
    }

    method Commit(next: Checkpoint, ghost step: Step, fate: Fate) returns (ok: bool)
      requires Valid() && !degraded && Next(setup, cp, step) == Some(next)
      modifies `cp, `degraded, `file, `steps
      ensures Valid() && ok == fate.Done? && degraded == !ok && cp == (if ok then next else old(cp))
      ensures steps == old(steps) + Taken(setup, old(cp), false, step, fate)
    {
      OneMoreStep(setup, steps, step);
      if !fate.Lost? { file, steps := next, steps + [step]; }
      ok := fate.Done?;
      if ok { cp := next; } else { degraded := true; }
    }

    method ReviseWith(complete: bool, rows: seq<Row>) returns (next: Option<Checkpoint>)
      ensures next == Revise(setup, cp, complete, rows)
    {
      if cp.halted { return None; }
      var same := Listing(if cp.revision == 0 then 1 else cp.revision, complete, rows);
      var ok := Check(setup, same);
      if !ok { return None; }
      if cp.pending == Some(same) && !cp.rewritten { return Some(cp); }
      var more := Listing(cp.revision + 1, complete, rows);
      ok := Check(setup, more);
      if !ok { return None; }
      next := Some(cp.(revision := cp.revision + 1, pending := Some(more), rewritten := false));
    }

    /** Coverage was lost. The rows stay. */
    method Suspend(fate: Fate) returns (ok: bool)
      requires Valid()
      modifies `cp, `degraded, `file, `steps
      ensures Valid() && ok == IsTaken(setup, old(cp), old(degraded), Suspended, fate)
      ensures steps == old(steps) + Taken(setup, old(cp), old(degraded), Suspended, fate)
      ensures ok ==> !IsComplete(cp) && RowsOf(cp) == RowsOf(old(cp)) && !degraded
      ensures !ok ==> cp == old(cp)
    {
      if degraded { return false; }
      var next := ReviseWith(false, RowsOf(cp));
      if next.None? { return false; }
      ok := Commit(next.value, Suspended, fate);
    }

    method TakeListing(rows: seq<Row>, fate: Fate) returns (ok: bool)
      requires Valid() && up
      modifies `cp, `degraded, `file, `steps
      ensures Valid() && ok == IsTaken(setup, old(cp), old(degraded), Listed(rows), fate)
      ensures steps == old(steps) + Taken(setup, old(cp), old(degraded), Listed(rows), fate)
      ensures if ok then IsComplete(cp) && RowsOf(cp) == rows else cp == old(cp)
    {
      if degraded { return false; }
      ok := Check(setup, Listing(cp.revision + 1, true, rows));
      if !ok { return; }
      var next := ReviseWith(true, rows);
      if next.None? { return false; }
      ok := Commit(next.value, Listed(rows), fate);
    }

    /** The rows after a message about one of them, and whether there is such a row. */
    method ChangeRows(rows: seq<Row>, change: Change, row: Row) returns (changed: seq<Row>, found: bool)
      ensures changed == Changed(rows, change, row) && (found <==> row.id in IdsOf(rows))
    {
      changed, found := [], false;
      for i := 0 to |rows|
        invariant changed == Changed(rows[..i], change, row) && (found <==> row.id in IdsOf(rows[..i]))
      {
        ChangedOneMore(rows, i, change, row);
        if rows[i].id != row.id {
          changed := changed + [rows[i]];
        } else {
          found := true;
          if !change.Removed? { changed := changed + [if change.Described? then Merged(rows[i], row) else row]; }
        }
      }
      assert rows[..|rows|] == rows;
    }

    /** A message of a member was applied. When its row cannot be published the catalogue is suspended. */
    method Update(change: Change, row: Row, fate: Fate, suspension: Fate) returns (ok: bool)
      requires Valid() && up
      modifies `cp, `degraded, `file, `steps
      ensures Valid() && ok == IsTaken(setup, old(cp), old(degraded), Updated(change, row), fate)
      ensures steps == old(steps) +
        if old(degraded) || Next(setup, old(cp), Updated(change, row)).Some?
        then Taken(setup, old(cp), old(degraded), Updated(change, row), fate)
        else Taken(setup, old(cp), false, Suspended, suspension)
    {
      if degraded { return false; }
      var next: Option<Checkpoint> := None;
      if cp.pending.Some? {
        var rows, found := ChangeRows(RowsOf(cp), change, row);
        next := ReviseWith(IsComplete(cp) && !(change.Created? && !found), rows);
      }
      if next.Some? {
        ok := Commit(next.value, Updated(change, row), fate);
      } else {
        ok := false;
        var _ := Suspend(suspension);
      }
    }

    /** The receiver's receipt for a body that was sent, however much was committed in between. */
    method Accept(body: Listing, fate: Fate) returns (ok: bool)
      requires Valid() && up
      modifies `cp, `degraded, `file, `steps
      ensures Valid() && steps == old(steps) +
        if IsNews(old(cp), body) then Taken(setup, old(cp), old(degraded), Accepted(body), fate) else []
      ensures ok <==> !old(degraded) && (IsNews(old(cp), body) ==> fate.Done?)
      ensures cp == if ok && IsNews(old(cp), body) then old(cp).(accepted := old(cp).revision) else old(cp)
    {
      if degraded { return false; }
      if !IsNews(cp, body) { return true; }
      ok := Commit(cp.(accepted := cp.revision), Accepted(body), fate);
    }

    method Halt(fate: Fate) returns (ok: bool)
      requires Valid() && up
      modifies `cp, `degraded, `file, `steps
      ensures Valid() && ok == IsTaken(setup, old(cp), old(degraded), Halted, fate)
      ensures steps == old(steps) + Taken(setup, old(cp), old(degraded), Halted, fate)
    {
      if degraded || cp.revision == 0 { return false; }
      ok := Commit(cp.(halted := true), Halted, fate);
    }

    /** A new process over the file, suspended before anything else; without that there is no set. */
    method Restart(read: Checkpoint, fate: Fate)
      requires Valid() && read == file
      modifies this
      ensures Valid() && (up ==> !IsComplete(cp) && RowsOf(cp) == RowsOf(old(file)))
      ensures var found := old(file).(rewritten := setup.bulk && old(file).pending.Some?);
        && up == IsTaken(setup, found, false, Suspended, fate)
        && steps == old(steps) + [Reopened] + Taken(setup, found, false, Suspended, fate)
    {
      Open(read);
      up := Suspend(fate);
    }

    method Open(read: Checkpoint)
      requires Valid() && read == file
      modifies `cp, `degraded, `file, `steps
      ensures Valid() && !degraded && steps == old(steps) + [Reopened]
      ensures cp == read.(rewritten := setup.bulk && read.pending.Some?)
    {
      OneMoreStep(setup, steps, Reopened);
      cp, degraded := read.(rewritten := setup.bulk && read.pending.Some?), false;
      file, steps := cp, steps + [Reopened];
    }

    /** Main result: a catalogue in use that is complete is the last listing, less what was removed. */
    lemma CompleteIsEnumerated()
      requires Valid() && !degraded
      ensures IsComplete(cp) <==> exists i: nat :: IsEnumeration(steps, i)
      ensures forall i: nat | IsEnumeration(steps, i) :: IdsOf(RowsOf(cp)) == Remaining(steps, i)
    {
      CompleteIffEnumerated(setup, steps);
    }
  }
}
