/** Message identifiers: handed out one by one, reserved on disk in blocks. */
module MessageIds {
  import opened Text
  import opened Rising

  const MAX_ID: nat := 0x7FFF_FFFF
  const BLOCK: nat := 100

  /** The counter in memory, the mark on disk, and how often the counter began again at one. */
  datatype Counter = Counter(next: nat, reservedTo: nat, mark: nat, cycle: nat)

  const UNUSED := Counter(1, 0, 0, 0)

  datatype Id = Id(cycle: nat, value: nat)

  /** A failed write leaves the mark as it was, and the counter goes on without it. */
  function Reserve(c: Counter, upTo: nat, write: bool): Counter {
    if !write then c.(reservedTo := MAX_ID)
    else
      var mark := if upTo > MAX_ID then MAX_ID else upTo;
      c.(reservedTo := mark, mark := mark)
  }

  function Begun(c: Counter): Counter {
    c.(next := 1, reservedTo := 0, cycle := c.cycle + 1)
  }

  /** A new process goes on behind the mark. */
  function Opened(c: Counter, write: bool): Counter {
    var resumed := if c.mark + 1 > MAX_ID then Begun(c) else c.(next := c.mark + 1);
    Reserve(resumed, resumed.next + BLOCK - 1, write)
  }

  /** The identifier that is handed out next. */
  function IdOf(c: Counter): Id {
    if c.next > MAX_ID then Id(c.cycle + 1, 1) else Id(c.cycle, c.next)
  }

  function Issued(c: Counter, write: bool): Counter {
    var b := if c.next > MAX_ID then Begun(c) else c;
    var next := b.(next := b.next + 1);
    if b.next > b.reservedTo then Reserve(next, b.next + BLOCK - 1, write) else next
  }

  // ---- Runs ----

  datatype Event = Open(write: bool) | Next(write: bool)

  function Step(c: Counter, e: Event): Counter {
    if e.Open? then Opened(c, e.write) else Issued(c, e.write)
  }

  ghost predicate IsRun(es: seq<Event>, cs: seq<Counter>) {
    && |cs| == |es| + 1 && cs[0] == UNUSED
    && forall i | 0 <= i < |es| :: cs[i + 1] == Step(cs[i], es[i])
  }

  predicate AllWritten(es: seq<Event>) {
    forall e | e in es :: e.write
  }

  ghost predicate InRange(c: Counter) {
    1 <= c.next <= MAX_ID + 1 && c.mark <= MAX_ID && c.reservedTo <= MAX_ID
  }

  /** The mark covers every value handed out in this cycle. */
  ghost predicate Covered(c: Counter) {
    c.next <= c.mark + 1 || c == UNUSED
  }

  lemma {:induction false} RunInRange(es: seq<Event>, cs: seq<Counter>, n: nat)
    requires IsRun(es, cs) && n < |cs|
    ensures InRange(cs[n])
  {
    if n > 0 { RunInRange(es, cs, n - 1); }
  }

  /** Main result: every identifier is in the permitted range, whatever fails. */
  lemma IdInRange(es: seq<Event>, cs: seq<Counter>, n: nat)
    requires IsRun(es, cs) && n < |cs|
    ensures 1 <= IdOf(cs[n]).value <= MAX_ID
  {
    RunInRange(es, cs, n);
  }

  /** Main result: without storage failures the mark always covers what was handed out. */
  lemma {:induction false} RunCovered(es: seq<Event>, cs: seq<Counter>, n: nat)
    requires IsRun(es, cs) && n < |cs| && AllWritten(es)
    ensures Covered(cs[n]) && (cs[n] == UNUSED || cs[n].reservedTo <= cs[n].mark)
  {
    if n > 0 {
      RunInRange(es, cs, n - 1);
      RunCovered(es, cs, n - 1);
      assert es[n - 1] in es;
    }
  }

  // ---- No identifier twice ----

  function Rank(cycle: nat, value: nat): nat {
    cycle * (MAX_ID + 2) + value
  }

  function Position(c: Counter): nat {
    Rank(c.cycle, c.next)
  }

  lemma CycleRanks(cycle: nat)
    ensures Rank(cycle + 1, 1) == Rank(cycle, MAX_ID + 2) + 1
  {}

  /** What is handed out lies at or behind the counter, and before the next position. */
  lemma IssueAdvances(c: Counter, write: bool)
    requires InRange(c)
    ensures Position(c) <= Rank(IdOf(c).cycle, IdOf(c).value) < Position(Issued(c, write))
  {
    CycleRanks(c.cycle);
  }

  /** Opening goes on at or behind the counter unless the mark is behind it. */
  lemma OpeningAdvances(c: Counter, write: bool)
    requires InRange(c) && c.mark + 1 >= c.next
    ensures Position(c) <= Position(Opened(c, write))
  {
    CycleRanks(c.cycle);
  }

  lemma StepAdvances(c: Counter, e: Event)
    requires InRange(c) && (e.Open? ==> c.mark + 1 >= c.next)
    ensures Position(c) <= Position(Step(c, e))
  {
    if e.Open? { OpeningAdvances(c, e.write); } else { IssueAdvances(c, e.write); }
  }

  /** Event `n` is a restart that finds the mark behind the counter. */
  ghost predicate OpensBehind(es: seq<Event>, cs: seq<Counter>, n: nat)
    requires n < |es| && n < |cs|
  {
    es[n].Open? && cs[n].mark + 1 < cs[n].next
  }

  /** Main result: whatever fails to be written, no identifier is handed out twice as long as no
      restart in between finds the mark behind the counter. The same value comes again only after the
      counter began again at one. */
  lemma NoneTwice(es: seq<Event>, cs: seq<Counter>, i: nat, j: nat)
    requires IsRun(es, cs) && i < j < |es| && es[i].Next? && es[j].Next?
    requires forall n | i < n < j :: !OpensBehind(es, cs, n)
    ensures IdOf(cs[i]) != IdOf(cs[j])
    ensures IdOf(cs[i]).value == IdOf(cs[j]).value ==> IdOf(cs[i]).cycle < IdOf(cs[j]).cycle
  {
    var between := cs[i + 1..j + 1];
    var positions: seq<nat> := seq(|between|, n requires 0 <= n < |between| => Position(between[n]));
    forall n | 0 <= n < |positions| - 1 ensures positions[n] <= positions[n + 1] {
      RunInRange(es, cs, i + 1 + n);
      assert !OpensBehind(es, cs, i + 1 + n);
      StepAdvances(cs[i + 1 + n], es[i + 1 + n]);
    }
    RisesAlong(positions, 0, |positions| - 1);
    RunInRange(es, cs, i);
    RunInRange(es, cs, j);
    IssueAdvances(cs[i], es[i].write);
    IssueAdvances(cs[j], es[j].write);
    RanksOrder(IdOf(cs[i]), IdOf(cs[j]));
  }

  lemma RanksOrder(a: Id, b: Id)
    requires Rank(a.cycle, a.value) < Rank(b.cycle, b.value)
    ensures a != b && (a.value == b.value ==> a.cycle < b.cycle)
  {}

  /** Event `i` hands out value `v` in this cycle. */
  ghost predicate HandsOut(es: seq<Event>, cs: seq<Counter>, i: nat, id: Id) {
    i < |es| && i < |cs| && es[i].Next? && IdOf(cs[i]) == id
  }

  /** Every value the mark does not cover was handed out. */
  lemma {:induction false} UncoveredWasIssued(es: seq<Event>, cs: seq<Counter>, n: nat, v: nat) returns (i: nat)
    requires IsRun(es, cs) && n < |cs| && cs[n].mark < v < cs[n].next
    ensures i < n && HandsOut(es, cs, i, Id(cs[n].cycle, v))
  {
    assert n > 0;
    RunInRange(es, cs, n - 1);
    assert cs[n] == Step(cs[n - 1], es[n - 1]);
    if es[n - 1].Next? && IdOf(cs[n - 1]) == Id(cs[n].cycle, v) {
      i := n - 1;
    } else {
      i := UncoveredWasIssued(es, cs, n - 1, v);
    }
  }

  /** Main result: the first identifier after a restart that finds the mark behind the counter was
      handed out before. */
  lemma BehindRepeats(es: seq<Event>, cs: seq<Counter>, n: nat) returns (i: nat)
    requires IsRun(es, cs) && n + 1 < |es| && OpensBehind(es, cs, n) && es[n + 1].Next?
    ensures i < n && HandsOut(es, cs, i, IdOf(cs[n + 1]))
  {
    RunInRange(es, cs, n);
    assert cs[n + 1] == Step(cs[n], es[n]);
    i := UncoveredWasIssued(es, cs, n, cs[n].mark + 1);
  }

  /** Every process hands out something. */
  ghost predicate IsUsed(es: seq<Event>) {
    forall n | 0 <= n < |es| && es[n].Open? :: n + 1 < |es| && es[n + 1].Next?
  }

  ghost predicate HasRepeat(es: seq<Event>, cs: seq<Counter>) {
    exists i, j | 0 <= i < j < |es| && j < |cs| :: es[i].Next? && es[j].Next? && IdOf(cs[i]) == IdOf(cs[j])
  }

  /** Main result: a run hands out some identifier twice exactly when a restart finds the mark behind. */
  lemma RepeatsExactlyBehind(es: seq<Event>, cs: seq<Counter>)
    requires IsRun(es, cs) && IsUsed(es)
    ensures HasRepeat(es, cs) <==> exists n | 0 <= n < |es| :: OpensBehind(es, cs, n)
  {
    if n: nat :| n < |es| && OpensBehind(es, cs, n) {
      var i := BehindRepeats(es, cs, n);
      assert IdOf(cs[i]) == IdOf(cs[n + 1]) && es[i].Next? && es[n + 1].Next?;
    } else {
      forall i, j | 0 <= i < j < |es| && es[i].Next? && es[j].Next? ensures IdOf(cs[i]) != IdOf(cs[j]) {
        NoneTwice(es, cs, i, j);
      }
    }
  }

  /** Without storage failures no restart finds the mark behind. */
  lemma WrittenIsNeverBehind(es: seq<Event>, cs: seq<Counter>, n: nat)
    requires IsRun(es, cs) && AllWritten(es) && n < |es|
    ensures !OpensBehind(es, cs, n)
  {
    RunCovered(es, cs, n);
  }

  /** With storage failures a value may come twice: two processes that cannot write both begin at one. */
  lemma FailuresRepeat()
    ensures var es := [Open(false), Next(false), Open(false), Next(false)];
      exists cs :: IsRun(es, cs) && IdOf(cs[1]) == IdOf(cs[3])
  {
    var es := [Open(false), Next(false), Open(false), Next(false)];
    var a := Step(UNUSED, es[0]);
    var b := Step(a, es[1]);
    var c := Step(b, es[2]);
    var cs := [UNUSED, a, b, c, Step(c, es[3])];
    assert IsRun(es, cs);
  }

  class Sequence {
    var next: nat
    var reservedTo: nat
    var degraded: bool
    // The file.
    var mark: nat
    ghost var cycle: nat

    ghost function Value(): Counter
      reads this
    {
      Counter(next, reservedTo, mark, cycle)
    }

    constructor ()
      ensures Value() == UNUSED
    {
      next, reservedTo, degraded, mark, cycle := 1, 0, false, 0, 0;
    }

    method ReserveBlock(upTo: nat, write: bool)
      modifies this
      ensures Value() == Reserve(old(Value()), upTo, write) && degraded == !write
    {
      if !write {
        degraded, reservedTo := true, MAX_ID;
        return;
      }
      mark := if upTo > MAX_ID then MAX_ID else upTo;
      reservedTo, degraded := mark, false;
    }

    /** A new process over the same file. */
    method Open(write: bool)
      modifies this
      ensures Value() == Opened(old(Value()), write)
    {
      next := mark + 1;
      if next > MAX_ID {
        next, reservedTo := 1, 0;
        cycle := cycle + 1;
      }
      ReserveBlock(next + BLOCK - 1, write);
    }

    method Next(write: bool) returns (id: string)
      modifies this
      ensures Value() == Issued(old(Value()), write) && id == Decimal(IdOf(old(Value())).value)
    {
      if next > MAX_ID {
        next, reservedTo := 1, 0;
        cycle := cycle + 1;
      }
      var value := next;
      next := next + 1;
      if value > reservedTo { ReserveBlock(value + BLOCK - 1, write); }
      id := Decimal(value);
    }
  }
}
