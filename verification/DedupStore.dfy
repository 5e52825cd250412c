/** The bounded store in memory, and the one that keeps a log of it. */
module DedupStores {
  import opened Options
  import opened Dedup
  import opened DedupLog

  class MemoryDedupStore {
    const capacity: nat
    var entries: map<string, Entry>
    var order: seq<string>

    ghost predicate Valid()
      reads this
    {
      && 0 < capacity && |order| <= capacity
      && (forall i, j | 0 <= i < j < |order| :: order[i] != order[j])
      && entries.Keys == (set k | k in order)
      && forall k | k in entries :: entries[k].key == k
    }

    /** The entries, oldest first. */
    function Entries(): (s: seq<Entry>)
      requires Valid()
      reads this
      ensures Bounded(capacity, s)
    {
      seq(|order|, i requires 0 <= i < |order| && Valid() reads this => entries[order[i]])
    }

    constructor (capacity: nat)
      requires capacity > 0
      ensures Valid() && this.capacity == capacity && Entries() == []
    {
      this.capacity := capacity;
      entries, order := map[], [];
    }

    /** Looking a key up is looking it up among the entries. */
    lemma LookedUp(key: string)
      requires Valid()
      ensures key in entries <==> Position(Entries(), key).Some?
      ensures key in entries ==> Entries()[Position(Entries(), key).value] == entries[key]
      ensures key in entries ==> order[Position(Entries(), key).value] == key
    {
      if key in entries {
        var i :| 0 <= i < |order| && order[i] == key;
        PositionIs(Entries(), i);
      }
    }

    method Insert(e: Entry)
      requires Valid() && e.key !in entries
      modifies this
      ensures Valid() && Entries() == Dedup.Insert(capacity, old(Entries()), e)
      ensures entries.Keys <= old(entries.Keys) + {e.key}
    {
      ghost var was := Entries();
      while |order| >= capacity
        invariant Valid() && e.key !in entries && entries.Keys <= old(entries.Keys)
        invariant Entries() == was || (|was| == capacity && Entries() == was[1..])
        decreases |order|
      {
        DropOldest();
      }
      PushBack(e);
    }

    method DropOldest()
      requires Valid() && order != []
      modifies this
      ensures Valid() && Entries() == old(Entries())[1..] && entries.Keys <= old(entries.Keys)
    {
      ghost var before := order;
      entries, order := entries - {order[0]}, order[1..];
      forall i | 0 <= i < |order| ensures order[i] == before[i + 1] != before[0] {}
      forall k | k in before && k != before[0] ensures k in order {
        var i :| 0 <= i < |before| && before[i] == k;
        assert order[i - 1] == k;
      }
    }

    method PushBack(e: Entry)
      requires Valid() && e.key !in entries && |order| < capacity
      modifies this
      ensures Valid() && Entries() == old(Entries()) + [e] && entries.Keys == old(entries.Keys) + {e.key}
    {
      entries, order := entries[e.key := e], order + [e.key];
      assert order[|order| - 1] == e.key;
    }

    method Check(key: string, hash: string) returns (verdict: Verdict)
      requires Valid()
      modifies this
      ensures Valid() && verdict == Judge(old(Entries()), key, hash)
      ensures Entries() == Checked(capacity, old(Entries()), key, hash) && entries.Keys <= old(entries.Keys) + {key}
    {
      LookedUp(key);
      if key in entries { return if entries[key].hash == hash then Duplicate else ConflictingMessage; }
      Insert(Entry(key, hash, None));
      verdict := NewMessage;
    }

    /** Replaces the entry of a key that is held. */
    method Update(key: string, e: Entry)
      requires Valid() && key in entries && e.key == key
      modifies this
      ensures Valid() && Position(old(Entries()), key).Some?
      ensures Entries() == old(Entries())[Position(old(Entries()), key).value := e] && entries.Keys == old(entries.Keys)
    {
      LookedUp(key);
      entries := entries[key := e];
    }

    method Remember(key: string, response: string)
      requires Valid()
      modifies this
      ensures Valid() && Entries() == Remembered(capacity, old(Entries()), key, response)
      ensures entries.Keys <= old(entries.Keys) + {key}
    {
      LookedUp(key);
      if key in entries {
        Update(key, entries[key].(response := Some(response)));
      } else {
        Insert(Entry(key, "", Some(response)));
      }
    }

    method Restore(r: Record)
      requires Valid()
      modifies this
      ensures Valid() && Entries() == Restored(capacity, old(Entries()), r)
      ensures entries.Keys <= old(entries.Keys) + {r.key}
    {
      LookedUp(r.key);
      if r.key in entries {
        var e := entries[r.key];
        if r.hash != "" { e := e.(hash := r.hash); }
        if r.response != "" { e := e.(response := Some(r.response)); }
        Update(r.key, e);
      } else {
        Insert(Entry(r.key, r.hash, if r.response != "" then Some(r.response) else None));
      }
    }

    method Response(key: string) returns (response: Option<string>)
      requires Valid()
      ensures response == match Position(Entries(), key) case None => None case Some(i) => Entries()[i].response
    {
      LookedUp(key);
      response := if key in entries then entries[key].response else None;
    }

    method HashFor(key: string) returns (hash: string)
      requires Valid()
      ensures hash == HashOf(Entries(), key)
    {
      LookedUp(key);
      hash := if key in entries then entries[key].hash else "";
    }

    /** The live entries as log records, oldest first. */
    method Snapshot() returns (records: seq<Record>)
      requires Valid()
      ensures records == Compacted(Entries()) && ("" !in entries ==> Named(records))
    {
      records := [];
      for i := 0 to |order|
        invariant |records| == i && forall k | 0 <= k < i :: records[k] == RecordOf(Entries()[k])
      {
        records := records + [RecordOf(entries[order[i]])];
      }
    }
  }

  /** What becomes of one appended line, of which a failure or a crash may leave any beginning, and of
      one rewriting of the log. */
  datatype LineFate = Written | Failed(length: nat)
  datatype RewriteFate = Replaced | Skipped | Unreplaced | ReplacedAndClosed

  /** What is in the file of a line that was not written to its end. */
  function Beginning(r: Record, length: nat): string {
    if length < |Line(r)| then Line(r)[..length] else Line(r)
  }

  /** A line without a record changes nothing. */
  function RestoredFrom(capacity: nat, s: seq<Entry>, line: string): seq<Entry>
    requires capacity > 0
  {
    match Parse(line)
    case None => s
    case Some(r) => Restored(capacity, s, r)
  }

  lemma ReplaysOne(capacity: nat, log: seq<Record>, line: string)
    requires capacity > 0
    ensures Replay(capacity, log + Kept(line)) == RestoredFrom(capacity, Replay(capacity, log), line)
  {
    match Parse(line)
    case None => assert log + [] == log;
    case Some(r) => ReplayOneMore(capacity, log, r);
  }

  lemma ReplaysLine(capacity: nat, lines: seq<string>, i: nat)
    requires capacity > 0 && i < |lines|
    ensures Replay(capacity, Parsed(lines[..i + 1])) ==
      RestoredFrom(capacity, Replay(capacity, Parsed(lines[..i])), lines[i])
  {
    OneMore(lines, i);
    ParsedOneMore(lines[..i], lines[i]);
    ReplaysOne(capacity, Parsed(lines[..i]), lines[i]);
  }

  lemma ParsedIsNamed(line: string)
    ensures Parse(line).Some? ==> Parse(line).value.key != ""
  {}

  lemma KeysAreNamed(scope: string, ncsID: string, messageID: string)
    ensures Key(scope, ncsID, messageID) != ""
  {
    assert '\0' in Key(scope, ncsID, messageID);
  }

  class FileDedupStore {
    var mem: MemoryDedupStore
    const capacity: nat
    // The file, as text.
    var log: string
    var appends: nat
    var degraded: bool

    ghost predicate Valid()
      reads this, mem
    {
      mem.Valid() && mem.capacity == capacity && "" !in mem.entries
    }

    /** Replaying the log gives the entries in memory: keys, hashes, answers and eviction order. */
    ghost predicate Agrees()
      requires mem.Valid() && mem.capacity == capacity
      reads this, mem
    {
      Replay(capacity, Records(log)) == mem.Entries()
    }

    /** The next line will stand on its own. */
    ghost predicate IsReady()
      reads this
    {
      !degraded && IsWhole(log)
    }

    constructor (capacity: nat)
      requires capacity > 0
      ensures Valid() && Agrees() && IsReady() && fresh(mem) && mem.Entries() == []
    {
      this.capacity := capacity;
      mem := new MemoryDedupStore(capacity);
      log, appends, degraded := "", 0, false;
      EmptyHolds();
    }

    /** Takes in one line of the log; one without a record is skipped. */
    method RestoreLine(line: string)
      requires Valid()
      modifies mem
      ensures Valid() && mem.Entries() == RestoredFrom(capacity, old(mem.Entries()), line)
    {
      var parsed := Parse(line);
      ParsedIsNamed(line);
      if parsed.Some? { mem.Restore(parsed.value); }
    }

    /** A new process reads the log, line by line, whatever is in it. What agreed before is there
        again. */
    method Reopen()
      requires Valid()
      modifies this
      ensures Valid() && Agrees() && !degraded && fresh(mem) && log == old(log)
      ensures old(Agrees()) ==> mem.Entries() == old(mem.Entries())
    {
      var lines := Lines(log);
      mem := new MemoryDedupStore(capacity);
      for i := 0 to |lines|
        invariant Valid() && fresh(mem) && log == old(log)
        invariant mem.Entries() == Replay(capacity, Parsed(lines[..i]))
        modifies mem
      {
        ReplaysLine(capacity, lines, i);
        RestoreLine(lines[i]);
      }
      assert lines[..|lines|] == lines;
      appends, degraded := 0, false;
    }

    /** Judges a message and logs a new one. Log and memory keep agreeing as long as the line before
        was ended and this one is. */
    method Check(scope: string, ncsID: string, messageID: string, hash: string, line: LineFate, rewrite: RewriteFate)
      returns (verdict: Verdict)
      requires Valid()
      modifies this, mem
      ensures Valid() && mem == old(mem)
      ensures verdict == Judge(old(mem.Entries()), Key(scope, ncsID, messageID), hash)
      ensures mem.Entries() == Checked(capacity, old(mem.Entries()), Key(scope, ncsID, messageID), hash)
      ensures !verdict.NewMessage? ==> log == old(log) && degraded == old(degraded)
      ensures old(Agrees() && IsReady()) && line.Written? ==> Agrees() && (degraded || IsReady())
    {
      var key := Key(scope, ncsID, messageID);
      KeysAreNamed(scope, ncsID, messageID);
      ghost var records := Records(log);
      ghost var agreed := Agrees();
      verdict := mem.Check(key, hash);
      if verdict.NewMessage? {
        if agreed { CheckAgrees(capacity, records, key, hash); }
        Append(Record(key, hash, ""), line, rewrite);
      }
    }

    /** Logs an answer. Log and memory keep agreeing if it is not empty, the line before was ended and
        this one is. */
    method Remember(scope: string, ncsID: string, messageID: string, response: string, line: LineFate,
        rewrite: RewriteFate)
      requires Valid()
      modifies this, mem
      ensures Valid() && mem == old(mem)
      ensures mem.Entries() == Remembered(capacity, old(mem.Entries()), Key(scope, ncsID, messageID), response)
      ensures old(Agrees() && IsReady()) && line.Written? && response != "" ==> Agrees() && (degraded || IsReady())
    {
      var key := Key(scope, ncsID, messageID);
      KeysAreNamed(scope, ncsID, messageID);
      ghost var records := Records(log);
      ghost var agreed := Agrees();
      mem.Remember(key, response);
      var hash := mem.HashFor(key);
      if agreed { RememberAgrees(capacity, records, key, response); }
      Append(Record(key, hash, response), line, rewrite);
    }

    method Response(scope: string, ncsID: string, messageID: string) returns (response: Option<string>)
      requires Valid()
      ensures response ==
        match Position(mem.Entries(), Key(scope, ncsID, messageID))
        case None => None
        case Some(i) => mem.Entries()[i].response
    {
      response := mem.Response(Key(scope, ncsID, messageID));
    }

    /** Appends the line of what memory has just taken in. A line cut short ends all saving. */
    method Append(r: Record, line: LineFate, rewrite: RewriteFate)
      requires Valid() && r.key != ""
      modifies this
      ensures Valid() && mem == old(mem)
      ensures old(degraded) ==> log == old(log) && degraded
      ensures !old(degraded) && line.Failed? ==> degraded && log == old(log) + Beginning(r, line.length)
      ensures !old(degraded) && line.Written? && old(appends) + 1 < 4 * capacity ==>
        !degraded && log == old(log) + Line(r)
      ensures old(IsReady()) && line.Written? && old(Replay(capacity, Records(log) + [r]) == mem.Entries()) ==>
        Agrees() && (degraded || IsReady())
    {
      if degraded { return; }
      if line.Failed? {
        log, degraded := log + Beginning(r, line.length), true;
        return;
      }
      AfterLine(log, r);
      log, appends := log + Line(r), appends + 1;
      if appends >= 4 * capacity { Compact(rewrite); }
    }

    /** The live entries as a file. */
    method Rewritten() returns (text: string)
      requires Valid()
      ensures IsWhole(text) && |Records(text)| <= capacity
      ensures Answered(mem.Entries()) ==> Replay(capacity, Records(text)) == mem.Entries()
    {
      var records := mem.Snapshot();
      text := RenderAll(records);
      if Answered(mem.Entries()) { CompactionAgrees(capacity, mem.Entries()); }
    }

    /** Rewrites the log from memory. If it was replaced, the log is whole and agrees again, whatever
        stood in it, unless an empty answer is held. */
    method Compact(rewrite: RewriteFate)
      requires Valid() && !degraded
      modifies this
      ensures Valid() && mem == old(mem)
      ensures rewrite.Replaced? || rewrite.ReplacedAndClosed? ==> IsWhole(log) && (Answered(mem.Entries()) ==> Agrees())
      ensures rewrite.Replaced? ==> appends == 0 && !degraded && |Records(log)| <= capacity
      ensures rewrite.Skipped? || rewrite.Unreplaced? ==> log == old(log)
      ensures degraded <==> rewrite.Unreplaced? || rewrite.ReplacedAndClosed?
      ensures old(Agrees()) ==> Agrees()
    {
      if rewrite.Skipped? {
        appends := 0;
        return;
      }
      var text := Rewritten();
      ReplayHolds(capacity, Records(log));
      if !rewrite.Unreplaced? { log := text; }
      if rewrite.Replaced? { appends := 0; } else { degraded := true; }
    }
  }
}
