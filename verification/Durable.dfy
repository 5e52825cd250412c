/** The durable store of one source: repositories and checkpoint in memory, and the one file that
    both are saved in together. */
module Durable {
  import opened Options
  import opened Faults
  import opened Repositories
  import opened Rundown
  import opened Source
  import opened SourceInvariant
  import opened SourceRuns
  import opened SourceLedger
  import opened Staging

  class Store {
    const setup: Setup
    const fate: nat -> Fate
    var turn: nat
    // In memory.
    var repos: Repos
    var cp: Checkpoint
    var degraded: bool
    // In the file.
    var savedRepos: Snapshot
    var savedCp: Checkpoint
    // The commits the file has seen, and the states they led through.
    ghost var ks: seq<Commit>
    ghost var cs: seq<Committed>

    ghost predicate Valid()
      reads this
    {
      && IsSetup(setup)
      && IsHistory(setup, ks, cs)
      && Restore(savedRepos) == Some(Last().repos) && savedCp == Last().cp
      && (!degraded ==> Committed(repos, cp) == Last())
    }

    /** The committed state: what a restart would find. */
    ghost function Last(): Committed
      reads this
      requires |cs| > 0
    {
      cs[|cs| - 1]
    }

    /** The history has grown by one commit. */
    ghost predicate Extended(ks0: seq<Source.Commit>, cs0: seq<Committed>, k: Source.Commit, next: Committed)
      reads this
    {
      ks == ks0 + [k] && cs == cs0 + [next]
    }

    /** Provisions a new source. */
    constructor Initialize(setup: Setup, fate: nat -> Fate)
      requires IsSetup(setup)
      ensures Valid() && !degraded && ks == [] && this.setup == setup && fresh(this)
    {
      this.setup, this.fate, turn := setup, fate, 0;
      repos, cp, degraded := START.repos, START.cp, false;
      savedRepos, savedCp := Snapshot([], [], []), START.cp;
      ks, cs := [], [START];
    }

    /** Opens the file again after a stop at any point. What was committed always opens. */
    method Reopen()
      requires Valid()
      modifies this`repos, this`cp, this`degraded
      ensures Valid() && !degraded && Committed(repos, cp) == Last()
    {
      HistoryHolds(setup, ks, cs, |cs| - 1);
      var restored := RestoreSnapshot(savedRepos);
      degraded := true;
      if ValidCheckpoint(setup, savedCp) && restored.Some? {
        repos, cp, degraded := restored.value, savedCp, false;
      }
    }

    /** A detached copy of the repositories, for one message to work on. */
    method Detach() returns (staged: Staged)
      requires Valid() && !degraded
      ensures fresh(staged) && staged.State() == repos
    {
      HistoryHolds(setup, ks, cs, |cs| - 1);
      MirrorIsClosed(repos, setup.ro, cp.state.active, StoryIdsOf(cp.state.stories));
      var snap := TakeSnapshot(repos);
      SnapshotIsLossless(repos, snap);
      var copy := RestoreSnapshot(snap);
      staged := new Staged(copy.value);
    }

    /** Validates a staged result, saves it in one piece and installs it. A failed save leaves
        memory as it was and stops everything until a restart. */
    method Commit(nextRepos: Repos, nextCp: Checkpoint, ghost k: Source.Commit) returns (ok: bool)
      requires Valid() && !degraded && Admitted(setup, Last(), k)
      requires Stage(setup, Last(), k) == Some(Committed(nextRepos, nextCp))
      modifies this
      ensures Valid()
      ensures ok ==> !degraded && Extended(old(ks), old(cs), k, Committed(nextRepos, nextCp))
      ensures !ok ==> repos == old(repos) && cp == old(cp)
      ensures !ok ==> ((ks == old(ks) && cs == old(cs)) ||
        (degraded && Extended(old(ks), old(cs), k, Committed(nextRepos, nextCp))))
      ensures ok || degraded <==> ValidCheckpoint(setup, nextCp)
    {
      ghost var next := Committed(nextRepos, nextCp);
      StagedStep(setup, ks, cs, k, next);
      if !(cp.revision <= nextCp.revision <= cp.revision + 1) || !ValidCheckpoint(setup, nextCp) { return false; }
      var snap := TakeSnapshot(nextRepos);
      SnapshotIsLossless(nextRepos, snap);
      ok := Save(snap, nextCp, k, next);
      if ok { repos, cp := nextRepos, nextCp; }
    }

    /** Replaces the file. */
    method Save(snap: Snapshot, nextCp: Checkpoint, ghost k: Source.Commit, ghost next: Committed) returns (ok: bool)
      requires Valid() && !degraded && IsHistory(setup, ks + [k], cs + [next])
      requires Restore(snap) == Some(next.repos) && nextCp == next.cp
      modifies `turn, `degraded, `savedRepos, `savedCp, `ks, `cs
      ensures degraded == !ok && IsHistory(setup, ks, cs)
      ensures Restore(savedRepos) == Some(Last().repos) && savedCp == Last().cp
      ensures ok ==> Extended(old(ks), old(cs), k, next)
      ensures (ks == old(ks) && cs == old(cs)) || Extended(old(ks), old(cs), k, next)
    {
      var outcome := fate(turn);
      turn := turn + 1;
      ok := outcome == Done;
      degraded := !ok;
      if outcome != Lost {
        savedRepos, savedCp := snap, nextCp;
        ks, cs := ks + [k], cs + [next];
      }
    }
  }

  /** A staged result either continues the history, or is not a valid checkpoint. */
  lemma StagedStep(setup: Setup, ks: seq<Source.Commit>, cs: seq<Committed>, k: Source.Commit, next: Committed)
    requires IsSetup(setup) && IsHistory(setup, ks, cs) && Admitted(setup, cs[|ks|], k)
    requires Stage(setup, cs[|ks|], k) == Some(next)
    ensures ValidCheckpoint(setup, next.cp) ==> IsHistory(setup, ks + [k], cs + [next])
    ensures ValidCheckpoint(setup, next.cp) ==> Closed(next.repos) && Keyed(next.repos)
    ensures ValidCheckpoint(setup, next.cp) ==> cs[|ks|].cp.revision <= next.cp.revision <= cs[|ks|].cp.revision + 1
  {
    if ValidCheckpoint(setup, next.cp) {
      var c := cs[|ks|];
      HistoryHolds(setup, ks, cs, |ks|);
      StepRevision(setup, c, k, next);
      CommitHolds(setup, c, k);
      MirrorIsClosed(next.repos, setup.ro, next.cp.state.active, StoryIdsOf(next.cp.state.stories));
      HistoryExtends(setup, ks, cs, k, next);
    }
  }

  lemma HistoryExtends(setup: Setup, ks: seq<Source.Commit>, cs: seq<Committed>, k: Source.Commit, next: Committed)
    requires IsHistory(setup, ks, cs) && IsStep(setup, cs[|ks|], k, next)
    ensures IsHistory(setup, ks + [k], cs + [next])
  {
    forall i | 0 <= i < |ks| + 1 ensures IsStep(setup, (cs + [next])[i], (ks + [k])[i], (cs + [next])[i + 1]) {
      if i < |ks| { assert IsStep(setup, cs[i], ks[i], cs[i + 1]); }
    }
  }
}
