/** The inventory of member stores, and enrollment that can be interrupted anywhere. */
module Catalogue {
  import opened Options
  import opened Faults

  /** A member's checkpoint file. */
  datatype Held = Held(revision: nat, content: string)

  const UNSTARTED := Held(0, "")

  datatype Inventory = Inventory(ids: seq<string>, unenrolled: set<string>)

  /** What is on disk: the root directory, the inventory file, and each member's directory and
      staging directory with the checkpoint in it, if there is one. Member directories are named by
      a digest of the identifier, so they are told apart by identifier here. */
  datatype Files = Files(
    root: bool, inventory: Option<Inventory>, paths: map<string, Option<Held>>, stages: map<string, Option<Held>>)

  predicate IsId(id: string) {
    0 < |id| <= 512
  }

  /** Every inventoried member has its checkpoint, everything else that exists was never started, and
      nothing exists before the inventory does. */
  ghost predicate FilesHold(f: Files, limit: nat) {
    && (f.root ==> f.inventory.Some?)
    && (f.inventory.Some? ==> InventoryHolds(f, f.inventory.value, limit))
    && (forall id | id in f.paths && !IsInventoried(f, id) :: f.root && f.paths[id] == Some(UNSTARTED))
    && (forall id | id in f.stages :: f.root && f.stages[id] in {None, Some(UNSTARTED)})
  }

  ghost predicate InventoryHolds(f: Files, inv: Inventory, limit: nat) {
    && |inv.ids| <= limit
    && (forall i, j | 0 <= i < j < |inv.ids| :: inv.ids[i] != inv.ids[j])
    && (forall id | id in inv.ids :: IsId(id) && f.root && id in f.paths && f.paths[id].Some?)
    && (forall id | id in inv.unenrolled :: id in inv.ids)
  }

  predicate IsInventoried(f: Files, id: string) {
    f.inventory.Some? && id in f.inventory.value.ids
  }

  /** No inventoried member is dropped, reinitialized or replaced. */
  ghost predicate KeepsMembers(f: Files, g: Files) {
    f.inventory.Some? ==>
      && g.inventory.Some? && f.inventory.value.ids <= g.inventory.value.ids
      && forall id | id in f.inventory.value.ids :: id in f.paths && id in g.paths && g.paths[id] == f.paths[id]
  }

  /** What is written of a marking is the marking, when only members are marked. */
  function Marked(ids: seq<string>, without: set<string>): (m: set<string>)
    ensures (forall id | id in without :: id in ids) ==> m == without
  {
    set id | id in ids && id in without
  }

  /** Every inventoried member's store holds what the member last committed. */
  ghost predicate KeepsCommits(f: Files, last: map<string, Held>) {
    forall id | IsInventoried(f, id) :: id in last && id in f.paths && f.paths[id] == Some(last[id])
  }

  /** An unstarted store may be entered into the inventory. */
  lemma InventoryGrows(f: Files, limit: nat, ids: seq<string>, unenrolled: set<string>, id: string, marked: set<string>,
      last: map<string, Held>)
    requires FilesHold(f, limit) && f.inventory == Some(Inventory(ids, unenrolled))
    requires f.root && IsId(id) && id !in ids && |ids| < limit && id in f.paths && f.paths[id] == Some(UNSTARTED)
    requires marked <= unenrolled + {id} && id in last && last[id] == UNSTARTED && KeepsCommits(f, last)
    ensures var g := f.(inventory := Some(Inventory(ids + [id], Marked(ids + [id], marked))));
      FilesHold(g, limit) && KeepsMembers(f, g) && KeepsCommits(g, last) && Marked(ids + [id], marked) == marked
  {
    var all := ids + [id];
    assert forall k :: k in all <==> k in ids || k == id;
    assert forall i | 0 <= i < |ids| :: all[i] == ids[i];
    forall k | k in marked ensures k in all {}
  }

  class Catalogue {
    const limit: nat
    const fate: nat -> Fate
    var turn: nat
    var files: Files
    // In memory; not isOpen before the inventory was read.
    var isOpen: bool
    var degraded: bool
    var memberIDs: seq<string>
    var unenrolled: set<string>
    // What each member last committed, or the unstarted checkpoint it began with.
    ghost var last: map<string, Held>

    ghost predicate Valid()
      reads this
    {
      && FilesHold(files, limit)
      && KeepsCommits(files, last)
      && (isOpen && !degraded ==> files.inventory == Some(Inventory(memberIDs, unenrolled)))
      && (isOpen ==> files.inventory.Some? && memberIDs <= files.inventory.value.ids && |memberIDs| <= limit)
    }

    ghost predicate Healthy()
      reads this`turn
    {
      forall n | n >= turn :: fate(n) == Done
    }

    constructor (limit: nat, fate: nat -> Fate)
      ensures Valid() && !isOpen && files == Files(false, None, map[], map[])
    {
      this.limit, this.fate, turn := limit, fate, 0;
      files := Files(false, None, map[], map[]);
      isOpen, degraded, memberIDs, unenrolled, last := false, false, [], {}, map[];
    }

    method Act() returns (outcome: Fate)
      modifies `turn
      ensures turn == old(turn) + 1 && outcome == fate(old(turn))
    {
      outcome := fate(turn);
      turn := turn + 1;
    }

    /** Replaces the inventory file. */
    method SaveMembers(ids: seq<string>, without: set<string>) returns (ok: bool)
      modifies `turn, `files
      ensures old(Healthy()) ==> ok && Healthy()
      ensures files == old(files) || files == old(files).(inventory := Some(Inventory(ids, Marked(ids, without))))
      ensures ok ==> files == old(files).(inventory := Some(Inventory(ids, Marked(ids, without))))
    {
      var marked: set<string> := {};
      for i := 0 to |ids|
        invariant marked == set id | id in ids[..i] && id in without
      {
        if ids[i] in without { marked := marked + {ids[i]}; }
        assert ids[..i + 1] == ids[..i] + [ids[i]];
      }
      assert ids[..|ids|] == ids;
      var outcome := Act();
      if outcome != Lost { files := files.(inventory := Some(Inventory(ids, marked))); }
      ok := outcome == Done;
    }

    /** Opens the checkpoint in a directory. Only a directory without one is initialized, and only
        when that is asked for. */
    method OpenCommitted(held: Option<Held>, initialize: bool) returns (ok: bool, now: Option<Held>)
      modifies `turn
      ensures ok ==> now.Some? && now == if initialize then Some(UNSTARTED) else held
      ensures now == held || (initialize && held.None? && now == Some(UNSTARTED))
      ensures ok <== if initialize then held.None? && old(Healthy()) else held.Some?
      ensures old(Healthy()) ==> Healthy()
    {
      if initialize {
        if held.Some? { return false, held; }
        var outcome := Act();
        return outcome == Done, if outcome != Lost then Some(UNSTARTED) else held;
      }
      return held.Some?, held;
    }

    /** Reopens every inventoried store. A missing checkpoint is an error, never a reason to begin
        again. */
    method OpenMembers() returns (ok: bool)
      requires Valid()
      modifies this
      ensures Valid() && KeepsMembers(old(files), files) && last == old(last)
      ensures files.paths == old(files.paths) && files.stages == old(files.stages) && files.root == old(files.root)
      ensures ok ==> isOpen && !degraded && (old(files.inventory.Some?) ==> files == old(files))
      ensures ok && old(files.inventory.None?) ==> files.inventory == Some(Inventory([], {}))
      ensures old(!isOpen && !degraded && Healthy()) ==> ok && Healthy()
    {
      if degraded || isOpen { return false; }
      if files.inventory.None? {
        if files.root { return false; }
        ok := SaveMembers([], {});
        if !ok { return; }
      }
      ghost var now := files;
      var inv := files.inventory.value;
      if |inv.ids| > limit { return false; }
      for i := 0 to |inv.ids|
        invariant Valid() && !degraded && (old(Healthy()) ==> Healthy()) && files == now && last == old(last)
      {
        var id := inv.ids[i];
        if !IsId(id) || id in inv.ids[..i] || !files.root || id !in files.paths { return false; }
        var reopened, _ := OpenCommitted(files.paths[id], false);
        if !reopened { return false; }
      }
      if !(inv.unenrolled <= set id | id in inv.ids) { return false; }
      isOpen, memberIDs, unenrolled := true, inv.ids, inv.unenrolled;
      ok := true;
    }

    /** A new process over the same files. */
    method Restart()
      requires Valid()
      modifies this
      ensures Valid() && !isOpen && !degraded && files == old(files) && turn == old(turn) && last == old(last)
    {
      isOpen, degraded, memberIDs, unenrolled := false, false, [], {};
    }

    /** A member that takes part commits something. */
    method MemberCommits(id: string, next: Held)
      requires Valid() && isOpen && id in memberIDs
      modifies `files, `last
      ensures Valid() && files == old(files).(paths := old(files.paths)[id := Some(next)])
      ensures last == old(last)[id := next]
    {
      files, last := files.(paths := files.paths[id := Some(next)]), last[id := next];
    }

    /** Whatever was opened, stopped, tried again or committed before, the store of an
        inventoried member holds what that member last committed. */
    lemma MembersKeepCommits(id: string)
      requires Valid() && IsInventoried(files, id)
      ensures id in last && id in files.paths && files.paths[id] == Some(last[id])
    {}

    /** Prepares an unstarted checkpoint in the staging directory; one left there is used again. */
    method Stage(id: string) returns (ok: bool)
      requires Valid() && files.root
      modifies `turn, `files
      ensures Valid() && files == old(files).(stages := files.stages)
      ensures ok ==> id in files.stages && files.stages[id] == Some(UNSTARTED)
      ensures old(Healthy()) ==> ok && Healthy()
    {
      if id !in files.stages {
        var made := Act();
        if made != Lost { files := files.(stages := files.stages[id := None]); }
        if made != Done { return false; }
      }
      var held := files.stages[id];
      var now;
      ok, now := OpenCommitted(held, held.None?);
      files := files.(stages := files.stages[id := now]);
      ok := ok && now.value.revision == 0;
    }

    /** Provides the member's directory: the one that is there, or one staged and moved into place. */
    method Provide(id: string) returns (ok: bool)
      requires Valid() && files.root && !degraded && isOpen && id !in memberIDs
      modifies `turn, `files, `degraded
      ensures Valid() && files.inventory == old(files.inventory) && files.root
      ensures forall k | k != id :: (k in files.paths <==> k in old(files.paths))
      ensures forall k | k != id && k in files.paths :: files.paths[k] == old(files.paths)[k]
      ensures ok ==> !degraded && id in files.paths && files.paths[id] == Some(UNSTARTED)
      ensures old(Healthy()) ==> ok && Healthy()
    {
      if id in files.paths {
        var reopened, now := OpenCommitted(files.paths[id], false);
        return reopened && now.value.revision == 0;
      }
      ok := Stage(id);
      if !ok { return; }
      var moved := Act();
      if moved != Lost { files := files.(paths := files.paths[id := files.stages[id]], stages := files.stages - {id}); }
      if moved != Done { return false; }
      var synced := Act();
      degraded := synced != Done;
      ok := !degraded;
    }

    /** Retains a store for a member, enrolled or only to keep refusals. From wherever an earlier try
        was interrupted, it ends with the member's own checkpoint: the one it had, or an unstarted
        one if it never took part. */
    method RetainMember(id: string, enroll: bool) returns (ok: bool)
      requires Valid()
      modifies this
      ensures Valid() && isOpen == old(isOpen) && KeepsMembers(old(files), files)
      ensures forall k | old(IsInventoried(files, k)) :: k in last && last[k] == old(last)[k]
      ensures ok ==> !degraded && IsInventoried(files, id) && id in files.paths && files.paths[id].Some?
      ensures ok && enroll ==> id !in files.inventory.value.unenrolled
      ensures ok && !old(IsInventoried(files, id)) ==> files.paths[id] == Some(UNSTARTED)
      ensures ok && old(IsInventoried(files, id)) ==> files.paths[id] == old(files.paths)[id]
      ensures old(isOpen && !degraded && Healthy()) && IsId(id) ==>
        (id in old(memberIDs) || old(|memberIDs|) < limit) ==> ok
    {
      if degraded || !isOpen || !IsId(id) { return false; }
      if id in memberIDs {
        ok := true;
        if enroll && id in unenrolled {
          ok := SaveMembers(memberIDs, unenrolled - {id});
          degraded := !ok;
          if ok { unenrolled := unenrolled - {id}; }
        }
        return;
      }
      if |memberIDs| >= limit { return false; }
      if !files.root {
        var made := Act();
        if made != Lost { files := files.(root := true); }
        if made != Done { return false; }
        var synced := Act();
        if synced != Done {
          degraded := true;
          return false;
        }
      }
      ok := Provide(id);
      if !ok { return; }
      ok := Register(id, enroll);
    }

    /** Enters a member into the inventory. */
    method Register(id: string, enroll: bool) returns (ok: bool)
      requires Valid() && !degraded && isOpen && files.root && IsId(id) && id !in memberIDs && |memberIDs| < limit
      requires id in files.paths && files.paths[id] == Some(UNSTARTED)
      modifies this
      ensures Valid() && isOpen && degraded == !ok && files.paths == old(files.paths)
      ensures KeepsMembers(old(files), files) && last == old(last)[id := UNSTARTED]
      ensures ok ==> IsInventoried(files, id) && (enroll ==> id !in files.inventory.value.unenrolled)
      ensures old(Healthy()) ==> ok
    {
      last := last[id := UNSTARTED];
      var ids := memberIDs + [id];
      var marked := if enroll then unenrolled else unenrolled + {id};
      InventoryGrows(files, limit, memberIDs, unenrolled, id, marked, last);
      ok := SaveMembers(ids, marked);
      degraded := !ok;
      if ok { memberIDs, unenrolled := ids, marked; }
    }

    /** Main result: after a stop anywhere, on a disk that works again, opening succeeds and trying
        again finishes, with the checkpoint the member had or an unstarted one. */
    method RetryFinishes(id: string, enroll: bool)
      requires Valid() && Healthy() && IsId(id)
      requires IsInventoried(files, id) || (if files.inventory.Some? then |files.inventory.value.ids| else 0) < limit
      modifies this
      ensures Valid() && isOpen && !degraded && KeepsMembers(old(files), files)
      ensures forall k | old(IsInventoried(files, k)) :: k in last && last[k] == old(last)[k]
      ensures IsInventoried(files, id) && id in files.paths
      ensures files.paths[id] == if old(IsInventoried(files, id)) then old(files.paths)[id] else Some(UNSTARTED)
    {
      Restart();
      var ok := OpenMembers();
      ok := RetainMember(id, enroll);
    }
  }
}
