/** Receipts, revisions and cue numbers over whole histories. */
module SourceLedger {
  import opened Options
  import opened Rundown
  import opened Bodies
  import opened Source
  import opened SourceInvariant
  import opened SourceRuns
  import opened Rising
  import Cues

  // ---- One step ----

  /** A message with an identifier. */
  predicate IsRequest(k: Commit) {
    (k.Apply? || k.Refuse? || k.Retain?) && k.input.messageID != ""
  }

  /** What a message with an identifier leaves behind. */
  predicate Leaves(k: Commit, key: ReceiptKey) {
    IsRequest(k) && KeyFor(k.input, k.message) == key
  }

  function StatusOf(k: Commit): string {
    if k.Apply? then OK_STATUS else if k.Retain? then UNENROLLED_STATUS else REFUSED_STATUS
  }

  /** The receipt that the commit retains. */
  function ReceiptOf(setup: Setup, k: Commit): Receipt
    requires k.Apply? || k.Refuse? || k.Retain?
  {
    Receipt(k.input.scope, k.input.ncsID, k.input.messageID, setup.hash(k.input.content),
      ReplyFor(setup, k.message, StatusOf(k)))
  }

  predicate HasReceipt(receipts: seq<Receipt>, key: ReceiptKey) {
    exists i | 0 <= i < |receipts| :: KeyOf(receipts[i]) == key
  }

  /** The receipts are kept, and one is added exactly for a message with an identifier. */
  ghost predicate LeavesReceipts(setup: Setup, c: Committed, k: Commit, next: Committed) {
    && next.cp.receipts == c.cp.receipts + (if IsRequest(k) then [ReceiptOf(setup, k)] else [])
    && (IsRequest(k) ==> KeyOf(ReceiptOf(setup, k)) == KeyFor(k.input, k.message))
  }

  lemma StepReceipts(setup: Setup, c: Committed, k: Commit, next: Committed)
    requires Answers(setup) && IsStep(setup, c, k, next)
    ensures LeavesReceipts(setup, c, k, next)
  {
    assert setup.ack(OK_STATUS) != "" && setup.ack(REFUSED_STATUS) != "" && setup.ack(UNENROLLED_STATUS) != "";
  }

  /** Every commit but a halt, an acceptance or a retained refusal makes one new revision; none changes the
      body without a new revision, and none lowers what was accepted. */
  lemma StepRevision(setup: Setup, c: Committed, k: Commit, next: Committed)
    requires IsStep(setup, c, k, next)
    ensures if k.Halt? || k.Accept? || k.Retain?
      then next.cp.revision == c.cp.revision && next.cp.pending == c.cp.pending
      else next.cp.revision == c.cp.revision + 1
    ensures c.cp.accepted <= c.cp.revision ==> c.cp.accepted <= next.cp.accepted <= next.cp.revision
    ensures next.cp.accepted != c.cp.accepted ==>
      k.Accept? && c.cp.pending == Some(k.body) && next.cp.accepted == c.cp.revision
    ensures c.cp.state.halted ==> next.cp.state.halted
  {}

  /** A refused, conflicting or invalidating commit takes freshness away and touches nothing else
      that is retained. */
  lemma RefusalOnlyClearsFreshness(setup: Setup, c: Committed, k: Commit, next: Committed)
    requires IsStep(setup, c, k, next) && (k.Refuse? || k.Conflict? || k.Invalidate?)
    ensures next.repos == c.repos && !next.cp.state.rosterFresh
    ensures next.cp.state == Invalidated(c.cp.state).(problem := next.cp.state.problem)
    ensures next.cp.accepted == c.cp.accepted && next.cp.pending.Some? && !next.cp.pending.value.complete
  {
    RevisedState(setup, c.cp, Invalidated(c.cp.state));
  }

  // ---- At most once ----

  lemma ReceiptStays(setup: Setup, c: Committed, k: Commit, next: Committed, key: ReceiptKey)
    requires IsSetup(setup) && IsStep(setup, c, k, next) && HasReceipt(c.cp.receipts, key)
    ensures HasReceipt(next.cp.receipts, key)
  {
    StepReceipts(setup, c, k, next);
    var n :| 0 <= n < |c.cp.receipts| && KeyOf(c.cp.receipts[n]) == key;
    assert next.cp.receipts[n] == c.cp.receipts[n];
  }

  lemma ReceiptsStay(setup: Setup, ks: seq<Commit>, cs: seq<Committed>, i: nat, j: nat, key: ReceiptKey)
    requires IsSetup(setup) && IsHistory(setup, ks, cs) && i <= j < |cs| && HasReceipt(cs[i].cp.receipts, key)
    ensures HasReceipt(cs[j].cp.receipts, key)
  {
    var held: seq<nat> := seq(|cs|, n requires 0 <= n < |cs| => if HasReceipt(cs[n].cp.receipts, key) then 1 else 0);
    forall n | 0 <= n < |cs| - 1 ensures held[n] <= held[n + 1] {
      assert IsStep(setup, cs[n], ks[n], cs[n + 1]);
      if HasReceipt(cs[n].cp.receipts, key) { ReceiptStays(setup, cs[n], ks[n], cs[n + 1], key); }
    }
    RisesAlong(held, i, j);
  }

  lemma LeavesReceipt(setup: Setup, c: Committed, k: Commit, next: Committed, key: ReceiptKey)
    requires IsSetup(setup) && IsStep(setup, c, k, next) && Leaves(k, key)
    ensures HasReceipt(next.cp.receipts, key) && !HasReceipt(c.cp.receipts, key)
  {
    StepReceipts(setup, c, k, next);
    var n := |c.cp.receipts|;
    assert next.cp.receipts[n] == ReceiptOf(setup, k);
    forall i | 0 <= i < n ensures KeyOf(c.cp.receipts[i]) != key {
      assert next.cp.receipts[i] == c.cp.receipts[i];
    }
  }

  /** Main result: a request with an identifier is applied or refused at most once, ever. */
  lemma AtMostOnce(setup: Setup, ks: seq<Commit>, cs: seq<Committed>, i: nat, j: nat, key: ReceiptKey)
    requires IsSetup(setup) && IsHistory(setup, ks, cs) && i < |ks| && j < |ks|
    requires Leaves(ks[i], key) && Leaves(ks[j], key)
    ensures i == j
  {
    var a, b := if i < j then i else j, if i < j then j else i;
    if a < b {
      assert IsStep(setup, cs[a], ks[a], cs[a + 1]) && IsStep(setup, cs[b], ks[b], cs[b + 1]);
      LeavesReceipt(setup, cs[a], ks[a], cs[a + 1], key);
      ReceiptsStay(setup, ks, cs, a + 1, b, key);
      LeavesReceipt(setup, cs[b], ks[b], cs[b + 1], key);
    }
  }

  /** Main result: every retained receipt is the answer that one earlier commit was given, so a
      replay sends those bytes again. */
  lemma {:induction false} ReceiptIsAnswer(setup: Setup, ks: seq<Commit>, cs: seq<Committed>, n: nat, r: Receipt)
    returns (j: nat)
    requires IsSetup(setup) && IsHistory(setup, ks, cs) && n < |cs| && r in cs[n].cp.receipts
    ensures j < n && IsRequest(ks[j]) && r == ReceiptOf(setup, ks[j])
  {
    assert n > 0;
    assert IsStep(setup, cs[n - 1], ks[n - 1], cs[n]);
    StepReceipts(setup, cs[n - 1], ks[n - 1], cs[n]);
    if r in cs[n - 1].cp.receipts {
      j := ReceiptIsAnswer(setup, ks, cs, n - 1, r);
    } else {
      j := n - 1;
    }
  }

  // ---- Accepted revisions ----

  lemma StepAt(setup: Setup, ks: seq<Commit>, cs: seq<Committed>, n: nat)
    requires IsHistory(setup, ks, cs) && n < |ks|
    ensures var c, next := cs[n].cp, cs[n + 1].cp;
      && (if ks[n].Halt? || ks[n].Accept? || ks[n].Retain? then next.revision == c.revision && next.pending == c.pending
          else next.revision == c.revision + 1)
      && (c.accepted <= c.revision ==> c.accepted <= next.accepted <= next.revision)
      && (c.state.halted ==> next.state.halted)
  {
    assert IsStep(setup, cs[n], ks[n], cs[n + 1]);
    StepRevision(setup, cs[n], ks[n], cs[n + 1]);
  }

  lemma {:induction false} AcceptedBounded(setup: Setup, ks: seq<Commit>, cs: seq<Committed>, n: nat)
    requires IsHistory(setup, ks, cs) && n < |cs|
    ensures cs[n].cp.accepted <= cs[n].cp.revision
  {
    if n > 0 {
      AcceptedBounded(setup, ks, cs, n - 1);
      StepAt(setup, ks, cs, n - 1);
    }
  }

  /** Main result: the revision and the accepted revision never decrease, the second never passes
      the first, and a halt is for good. */
  lemma Monotone(setup: Setup, ks: seq<Commit>, cs: seq<Committed>, i: nat, j: nat)
    requires IsHistory(setup, ks, cs) && i <= j < |cs|
    ensures cs[i].cp.revision <= cs[j].cp.revision && cs[i].cp.accepted <= cs[j].cp.accepted <= cs[j].cp.revision
    ensures cs[i].cp.state.halted ==> cs[j].cp.state.halted
  {
    var revisions: seq<nat> := seq(|cs|, n requires 0 <= n < |cs| => cs[n].cp.revision);
    var accepted: seq<nat> := seq(|cs|, n requires 0 <= n < |cs| => cs[n].cp.accepted);
    var halts: seq<nat> := seq(|cs|, n requires 0 <= n < |cs| => if cs[n].cp.state.halted then 1 else 0);
    forall n | 0 <= n < |cs| - 1
      ensures revisions[n] <= revisions[n + 1] && accepted[n] <= accepted[n + 1] && halts[n] <= halts[n + 1]
    {
      AcceptedBounded(setup, ks, cs, n);
      StepAt(setup, ks, cs, n);
    }
    RisesAlong(revisions, i, j);
    RisesAlong(accepted, i, j);
    RisesAlong(halts, i, j);
    AcceptedBounded(setup, ks, cs, j);
  }

  /** A revision names one body, for good. */
  lemma RevisionNamesBody(setup: Setup, ks: seq<Commit>, cs: seq<Committed>, i: nat, j: nat)
    requires IsHistory(setup, ks, cs) && i <= j < |cs| && cs[i].cp.revision == cs[j].cp.revision
    ensures cs[i].cp.pending == cs[j].cp.pending
  {
    var bodies := seq(|cs|, n requires 0 <= n < |cs| => cs[n].cp.pending);
    forall n | i <= n < j ensures bodies[n] == bodies[n + 1] {
      Monotone(setup, ks, cs, i, n);
      Monotone(setup, ks, cs, n + 1, j);
      StepAt(setup, ks, cs, n);
    }
    StaysAlong(bodies, i, j);
  }

  /** Commit `j` accepted `body` while it was the committed body of revision `r`. */
  ghost predicate AcceptedAt(ks: seq<Commit>, cs: seq<Committed>, j: int, r: nat, body: Published) {
    0 <= j < |ks| && j < |cs| && ks[j] == Accept(body) && cs[j].cp.pending == Some(body) && cs[j].cp.revision == r
  }

  /** Main result: an accepted revision was accepted by a commit that named exactly the body
      committed as that revision. */
  lemma {:induction false} AcceptedWasReceipted(setup: Setup, ks: seq<Commit>, cs: seq<Committed>, n: nat)
    returns (j: int, body: Published)
    requires IsHistory(setup, ks, cs) && n < |cs| && cs[n].cp.accepted > 0
    ensures AcceptedAt(ks, cs, j, cs[n].cp.accepted, body) && j < n
    ensures cs[n].cp.accepted == cs[n].cp.revision ==> cs[n].cp.pending == Some(body)
  {
    assert n > 0;
    assert IsStep(setup, cs[n - 1], ks[n - 1], cs[n]);
    StepRevision(setup, cs[n - 1], ks[n - 1], cs[n]);
    if cs[n].cp.accepted != cs[n - 1].cp.accepted {
      j, body := n - 1, ks[n - 1].body;
    } else {
      j, body := AcceptedWasReceipted(setup, ks, cs, n - 1);
    }
    Monotone(setup, ks, cs, j, n);
    if cs[n].cp.accepted == cs[n].cp.revision { RevisionNamesBody(setup, ks, cs, j, n); }
  }

  lemma HaltedStep(setup: Setup, c: Committed, k: Commit, next: Committed)
    requires IsStep(setup, c, k, next) && c.cp.state.halted
    ensures next.repos == c.repos && next.cp.receipts == c.cp.receipts
    ensures next.cp.revision == c.cp.revision && next.cp.pending == c.cp.pending
  {}

  /** Main result: after a halt the retained content, the receipts, the revision and the body
      never change again. */
  lemma HaltedIsFrozen(setup: Setup, ks: seq<Commit>, cs: seq<Committed>, i: nat, j: nat)
    requires IsHistory(setup, ks, cs) && i <= j < |cs| && cs[i].cp.state.halted
    ensures cs[j].cp.revision == cs[i].cp.revision && cs[j].cp.pending == cs[i].cp.pending
    ensures cs[j].repos == cs[i].repos && cs[j].cp.receipts == cs[i].cp.receipts
  {
    var frozen := seq(|cs|, n requires 0 <= n < |cs| => Frozen(cs[n]));
    forall n | i <= n < j ensures frozen[n] == frozen[n + 1] {
      Monotone(setup, ks, cs, i, n);
      assert IsStep(setup, cs[n], ks[n], cs[n + 1]);
      HaltedStep(setup, cs[n], ks[n], cs[n + 1]);
    }
    StaysAlong(frozen, i, j);
  }

  /** A checkpoint without what an acceptance or a halt may set. */
  function Frozen(c: Committed): Committed {
    c.(cp := c.cp.(state := BLANK, accepted := 0))
  }

  // ---- Cue numbers ----

  lemma StepNumbers(setup: Setup, c: Committed, k: Commit, next: Committed)
    requires IsSetup(setup) && Holds(setup, c) && IsStep(setup, c, k, next)
    ensures c.cp.state.nextCue <= next.cp.state.nextCue
  {
    if k.Apply? {
      var e, m := Effect(c.repos, c.cp.state), k.message;
      var applied := ApplyMessage(setup, e, m, k.input.content).value;
      RevisedState(setup, c.cp, applied.state);
      if m.BodyMessage? {
        var i := FindStory(c.cp.state.stories, m.story).value;
        assert StoryHolds(setup, e, c.cp.state.stories[i]);
        BodyIdentitiesHold(c.cp.state, i, m.elements.value);
      }
    } else if !k.Halt? && !k.Accept? && !k.Retain? {
      RevisedState(setup, c.cp, Invalidated(c.cp.state));
    }
  }

  lemma NumbersRise(setup: Setup, ks: seq<Commit>, cs: seq<Committed>, i: nat, j: nat)
    requires IsSetup(setup) && IsHistory(setup, ks, cs) && i <= j < |cs|
    ensures cs[i].cp.state.nextCue <= cs[j].cp.state.nextCue
  {
    var numbers: seq<nat> := seq(|cs|, n requires 0 <= n < |cs| => cs[n].cp.state.nextCue);
    forall n | 0 <= n < |cs| - 1 ensures numbers[n] <= numbers[n + 1] {
      HistoryHolds(setup, ks, cs, n);
      assert IsStep(setup, cs[n], ks[n], cs[n + 1]);
      StepNumbers(setup, cs[n], ks[n], cs[n + 1]);
    }
    RisesAlong(numbers, i, j);
  }

  /** Main result: in every committed body all identities are distinct. */
  lemma IdentitiesAreDistinct(setup: Setup, ks: seq<Commit>, cs: seq<Committed>, n: nat, s: nat)
    requires IsSetup(setup) && IsHistory(setup, ks, cs) && n < |cs| && s < |cs[n].cp.state.stories|
    ensures Cues.Settled(cs[n].cp.state.stories[s].occurrences)
  {
    HistoryHolds(setup, ks, cs, n);
    assert StoryHolds(setup, Effect(cs[n].repos, cs[n].cp.state), cs[n].cp.state.stories[s]);
  }

  /** The body that commit `j` puts into story `s`. */
  ghost predicate PutsBody(cs: seq<Committed>, ks: seq<Commit>, j: nat, s: nat) {
    && j < |ks| && j + 1 < |cs| && ks[j].Apply? && ks[j].message.BodyMessage?
    && FindStory(cs[j].cp.state.stories, ks[j].message.story) == Some(s)
    && s < |cs[j + 1].cp.state.stories|
  }

  /** Main result: a cue of a newly committed body keeps a number that the same story had, or has
      a number that no cue of any story had in any earlier checkpoint. */
  lemma NumbersAreNeverReused(
      setup: Setup, ks: seq<Commit>, cs: seq<Committed>, j: nat, s: nat, x: nat, i: nat, t: nat, y: nat)
    requires IsSetup(setup) && IsHistory(setup, ks, cs) && PutsBody(cs, ks, j, s)
    requires x < |cs[j + 1].cp.state.stories[s].occurrences| &&
      cs[j + 1].cp.state.stories[s].occurrences[x].kind == Cues.Cue
    requires i <= j && t < |cs[i].cp.state.stories| && y < |cs[i].cp.state.stories[t].occurrences|
    requires cs[i].cp.state.stories[t].occurrences[y].kind == Cues.Cue
    requires cs[i].cp.state.stories[t].occurrences[y].id == cs[j + 1].cp.state.stories[s].occurrences[x].id
    ensures exists z | 0 <= z < |cs[j].cp.state.stories[s].occurrences| ::
      cs[j].cp.state.stories[s].occurrences[z].kind == Cues.Cue &&
      cs[j].cp.state.stories[s].occurrences[z].id == cs[j + 1].cp.state.stories[s].occurrences[x].id
  {
    HistoryHolds(setup, ks, cs, i);
    HistoryHolds(setup, ks, cs, j);
    NumbersRise(setup, ks, cs, i, j);
    assert IsStep(setup, cs[j], ks[j], cs[j + 1]);
    var before, m := cs[j].cp.state, ks[j].message;
    assert StoryHolds(setup, Effect(cs[i].repos, cs[i].cp.state), cs[i].cp.state.stories[t]);
    assert StoryHolds(setup, Effect(cs[j].repos, before), before.stories[s]);
    PutBody(setup, cs[j], ks[j], cs[j + 1], s);
    var id := cs[i].cp.state.stories[t].occurrences[y].id;
    assert HasNumber(id, cs[i].cp.state.nextCue);
    NewNumberIsNew(before, s, m.elements.value, x, id, cs[i].cp.state.nextCue);
  }

  lemma PutBody(setup: Setup, c: Committed, k: Commit, next: Committed, s: nat)
    requires IsStep(setup, c, k, next) && k.Apply? && k.message.BodyMessage?
    requires FindStory(c.cp.state.stories, k.message.story) == Some(s)
    ensures k.message.elements.Some? && DistinctItems(k.message.elements.value)
    ensures BodyIdentities(c.cp.state, s, k.message.elements.value).Some?
    ensures s < |next.cp.state.stories|
    ensures var named := BodyIdentities(c.cp.state, s, k.message.elements.value).value;
      next.cp.state.stories[s].occurrences == named.body && next.cp.state.nextCue == named.last
  {
    RevisedState(setup, c.cp, ApplyMessage(setup, Effect(c.repos, c.cp.state), k.message, k.input.content).value.state);
  }

  lemma NewNumberIsNew(state: State, s: nat, elements: seq<Element>, x: nat, id: string, last: nat)
    requires s < |state.stories| && DistinctItems(elements) && BodyIdentities(state, s, elements).Some?
    requires Cues.Settled(state.stories[s].occurrences) && last <= state.nextCue && HasNumber(id, last)
    requires var body := BodyIdentities(state, s, elements).value.body;
      x < |body| && body[x].kind == Cues.Cue && body[x].id == id
    ensures exists z | 0 <= z < |state.stories[s].occurrences| ::
      state.stories[s].occurrences[z].kind == Cues.Cue && state.stories[s].occurrences[z].id == id
  {
    var parsed, held := ParsedBody(elements), state.stories[s];
    DistinctItemsParse(elements);
    var numbers := Cues.IdentitiesAreSettled(state.nextCue, held.ambiguous, held.occurrences, parsed);
    var body := BodyIdentities(state, s, elements).value.body;
    assert body[x].(id := "") == parsed[x].(id := "") && body[x].(id := "").kind == body[x].kind;
    assert parsed[x].(id := "").kind == parsed[x].kind;
    var n :| 0 < n <= last && id == Cues.CueName(n);
    if !Cues.KeepsNumber(held.occurrences, parsed[x], id) {
      Cues.CueNameInjective(n, numbers[x]);
    }
  }

  /** Main result: sending the committed body of a story again changes no identity and gives out
      no number. */
  lemma ResentBodyChangesNothing(setup: Setup, c: Committed, k: Commit, next: Committed, s: nat)
    requires IsSetup(setup) && Holds(setup, c) && IsStep(setup, c, k, next) && k.Apply? && k.message.BodyMessage?
    requires FindStory(c.cp.state.stories, k.message.story) == Some(s) && !c.cp.state.stories[s].ambiguous
    requires k.message.elements.Some? &&
      ParsedBody(k.message.elements.value) == Cues.Unnumbered(c.cp.state.stories[s].occurrences)
    ensures next.cp.state.nextCue == c.cp.state.nextCue
    ensures s < |next.cp.state.stories| && next.cp.state.stories[s].occurrences == c.cp.state.stories[s].occurrences
  {
    assert StoryHolds(setup, Effect(c.repos, c.cp.state), c.cp.state.stories[s]);
    PutBody(setup, c, k, next, s);
    Cues.ResentBodyIsUnchanged(c.cp.state.nextCue, c.cp.state.stories[s].occurrences);
  }
}
