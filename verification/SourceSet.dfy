/** The set of sources behind one peer: one message sequence, one store per rundown, and a
    catalogue of its own. */
module SourceSets {
  import opened Options
  import opened Faults
  import opened Source
  import opened SourceRuns
  import opened SourceLedger

  // ---- Keys across stores ----

  function Keys(receipts: seq<Receipt>): set<ReceiptKey> {
    set r | r in receipts :: KeyOf(r)
  }

  lemma KeyIsHeld(receipts: seq<Receipt>, key: ReceiptKey)
    ensures key in Keys(receipts) <==> HasReceipt(receipts, key)
  {
    if HasReceipt(receipts, key) {
      var i :| 0 <= i < |receipts| && KeyOf(receipts[i]) == key;
      assert receipts[i] in receipts;
    }
  }

  lemma OneMoreKey(receipts: seq<Receipt>, r: Receipt)
    ensures Keys(receipts + [r]) == Keys(receipts) + {KeyOf(r)}
  {
    forall x ensures x in receipts + [r] <==> x in receipts || x == r {}
  }

  /** No receipt key is held by two member stores. */
  ghost predicate KeysApart(members: map<string, Committed>) {
    forall a, b | a in members && b in members && a != b :: Keys(members[a].cp.receipts) !! Keys(members[b].cp.receipts)
  }

  /** No receipt key is held by a member store and by the catalogue. */
  ghost predicate CatalogueApart(members: map<string, Committed>, catalogue: seq<Receipt>) {
    forall a | a in members :: Keys(members[a].cp.receipts) !! Keys(catalogue)
  }

  /** Some other store has a receipt under this key. The catalogue is asked only when the message has
      a store of its own. */
  ghost predicate Crosses(members: map<string, Committed>, catalogue: seq<Receipt>, key: ReceiptKey,
      target: Option<string>) {
    || (exists id | id in members && Some(id) != target :: key in Keys(members[id].cp.receipts))
    || (target.Some? && key in Keys(catalogue))
  }

  function KeysIn(members: map<string, Committed>, id: string): set<ReceiptKey> {
    if id in members then Keys(members[id].cp.receipts) else {}
  }

  /** A key that no other store has keeps the keys apart. */
  lemma StaysApart(members: map<string, Committed>, id: string, next: Committed, key: ReceiptKey)
    requires KeysApart(members) && Keys(next.cp.receipts) == KeysIn(members, id) + {key}
    requires forall k | k in members && k != id :: key !in Keys(members[k].cp.receipts)
    ensures KeysApart(members[id := next])
  {}

  /** A member stays apart from the catalogue exactly when its new key is not there. */
  lemma StaysApartFromCatalogue(members: map<string, Committed>, catalogue: seq<Receipt>, id: string, next: Committed,
      key: ReceiptKey)
    requires CatalogueApart(members, catalogue) && Keys(next.cp.receipts) == KeysIn(members, id) + {key}
    ensures CatalogueApart(members[id := next], catalogue) <==> key !in Keys(catalogue)
  {
    assert members[id := next][id] == next;
  }

  ghost predicate AllSilent(receipts: seq<Receipt>) {
    forall r | r in receipts :: r.response == ""
  }

  /** A member that retains a receipt stays apart from the others, and from the catalogue exactly
      when the key is not there. */
  lemma RequestStaysApart(
      setup: Setup, members: map<string, Committed>, catalogue: seq<Receipt>, id: string, before: Committed,
      k: Commit, next: Committed)
    requires LeavesReceipts(setup, before, k, next) && IsRequest(k) && KeysApart(members)
    requires Keys(before.cp.receipts) == KeysIn(members, id)
    requires forall m | m in members && m != id :: KeyFor(k.input, k.message) !in Keys(members[m].cp.receipts)
    ensures KeysApart(members[id := next])
    ensures CatalogueApart(members, catalogue) ==>
      (CatalogueApart(members[id := next], catalogue) <==> KeyFor(k.input, k.message) !in Keys(catalogue))
  {
    OneMoreKey(before.cp.receipts, ReceiptOf(setup, k));
    StaysApart(members, id, next, KeyFor(k.input, k.message));
    if CatalogueApart(members, catalogue) {
      StaysApartFromCatalogue(members, catalogue, id, next, KeyFor(k.input, k.message));
    }
  }

  /** A member that commits anything else stays apart as it was. */
  lemma OtherStaysApart(
      setup: Setup, members: map<string, Committed>, catalogue: seq<Receipt>, id: string, k: Commit, next: Committed)
    requires id in members && LeavesReceipts(setup, members[id], k, next) && !IsRequest(k) && KeysApart(members)
    ensures KeysApart(members[id := next])
    ensures CatalogueApart(members, catalogue) ==> CatalogueApart(members[id := next], catalogue)
  {
    assert next.cp.receipts == members[id].cp.receipts;
  }

  /** What a member may commit about a message. */
  ghost predicate IsAnswer(k: Commit, input: Input, m: Message) {
    k == Commit.Apply(input, m) || k == Commit.Refuse(input, m) || k == Commit.Conflict
  }

  lemma AnswerIsRequest(setup: Setup, input: Input, m: Message, before: Committed, k: Commit, next: Committed)
    requires LeavesReceipts(setup, before, k, next) && IsAnswer(k, input, m)
    ensures IsRequest(k) <==> next.cp.receipts != before.cp.receipts
    ensures IsRequest(k) ==> k.input == input && k.message == m && input.messageID != ""
  {
    if IsRequest(k) { assert |next.cp.receipts| == |before.cp.receipts| + 1; }
  }

  lemma NotCrossed(members: map<string, Committed>, catalogue: seq<Receipt>, key: ReceiptKey, id: string)
    requires id in members && !Crosses(members, catalogue, key, Some(id))
    ensures key !in Keys(catalogue) && forall m | m in members && m != id :: key !in Keys(members[m].cp.receipts)
    ensures KeysIn(members, id) == Keys(members[id].cp.receipts)
  {}

  /** A store as a new process opens it: its freshness taken away, or as it was when it is halted. */
  ghost predicate IsReopened(setup: Setup, found: Committed, next: Committed) {
    if found.cp.state.halted then next == found else LeavesReceipts(setup, found, Commit.Invalidate, next)
  }

  /** Members that retain the same receipts are as far apart as they were. */
  lemma ReopenedApart(before: map<string, Committed>, after: map<string, Committed>, catalogue: seq<Receipt>)
    requires before.Keys == after.Keys && forall id | id in before :: after[id].cp.receipts == before[id].cp.receipts
    ensures KeysApart(before) ==> KeysApart(after)
    ensures CatalogueApart(before, catalogue) ==> CatalogueApart(after, catalogue)
  {}

  /** The hash that is retained under a key. */
  function FirstHash(receipts: seq<Receipt>, key: ReceiptKey): Option<string> {
    if receipts == [] then None
    else if KeyOf(receipts[0]) == key then Some(receipts[0].hash)
    else FirstHash(receipts[1..], key)
  }

  lemma {:induction false} FirstHashIsHeld(receipts: seq<Receipt>, key: ReceiptKey)
    ensures FirstHash(receipts, key).Some? <==> key in Keys(receipts)
  {
    if receipts != [] {
      FirstHashIsHeld(receipts[1..], key);
      assert receipts == [receipts[0]] + receipts[1..];
      assert receipts[0] in receipts;
    }
  }

  method FindHash(receipts: seq<Receipt>, key: ReceiptKey) returns (found: Option<string>)
    ensures found == FirstHash(receipts, key) && (found.Some? <==> key in Keys(receipts))
  {
    FirstHashIsHeld(receipts, key);
    for i := 0 to |receipts|
      invariant FirstHash(receipts, key) == FirstHash(receipts[i..], key)
    {
      assert receipts[i..][0] == receipts[i] && receipts[i..][1..] == receipts[i + 1..];
      if KeyOf(receipts[i]) == key { return Some(receipts[i].hash); }
    }
    found := None;
  }

  // ---- The set ----

  // What is asked of a member's commits below holds of every step of its source: see StepReceipts.

  /** What routing a message came to. */
  datatype SetResult = Turned | Conflicted | Repeated | Committed | Rejected | Unavailable

  /** An identity that a rundown of the set can have. */
  predicate IsRundownID(id: string) {
    0 < |id| <= 512
  }

  /** A readable listing: bounded identities, each once. */
  predicate IsListing(rows: seq<string>) {
    (forall i | 0 <= i < |rows| :: IsRundownID(rows[i])) && forall i, j | 0 <= i < j < |rows| :: rows[i] != rows[j]
  }

  function Ids(rows: seq<string>): set<string> {
    set id | id in rows
  }

  /** A readable listing that the set has room for. */
  predicate Fits(held: set<string>, rows: Option<seq<string>>, limit: nat) {
    rows.Some? && IsListing(rows.value) && |held + Ids(rows.value)| <= limit
  }

  /** No member has a receipt under the key of a listing. */
  ghost predicate IsNewTo(members: map<string, Committed>, input: Input) {
    input.messageID != "" ==> forall id | id in members ::
      ReceiptKey(input.scope, input.ncsID, input.messageID, true) !in Keys(members[id].cp.receipts)
  }

  /** What a listing enrolls when enrolling fails at one of its rows, or behind them at none. */
  function Reached(held: set<string>, rows: Option<seq<string>>, limit: nat, failsAt: nat): seq<string> {
    if !Fits(held, rows, limit) then []
    else if failsAt < |rows.value| then rows.value[..failsAt]
    else rows.value
  }

  /** What the search for a reused key came to. A store whose last save failed cannot be asked. */
  datatype Search = Clear | Reused | Broken

  // ---- Memory and files ----

  /** The stores of a set. In memory: the members, those that are enrolled, those whose last save
      failed, and the receipts of catalogue listings. In the files: what a new process finds. */
  datatype Stores = Stores(
    members: map<string, Committed>, enrolled: set<string>, degraded: set<string>,
    catalogue: seq<Receipt>, catalogueDegraded: bool,
    files: map<string, Committed>, catalogueFile: seq<Receipt>)

  const NO_STORES := Stores(map[], {}, {}, [], false, map[], [])

  /** No key is held by two member stores, in the files. Files and memory differ at most by a save that
      failed and may have had its effect. */
  ghost predicate StoresHold(s: Stores, limit: nat) {
    && HasShape(s, limit) && KeysApart(s.files) && InStep(s.members, s.degraded, s.files)
    && CatalogueInStep(s.catalogue, s.catalogueDegraded, s.catalogueFile)
  }

  ghost predicate HasShape(s: Stores, limit: nat) {
    && s.enrolled <= s.members.Keys && |s.members.Keys| <= limit && s.degraded <= s.members.Keys
    && s.files.Keys == s.members.Keys && forall id | id in s.members.Keys :: IsRundownID(id)
  }

  ghost predicate InStep(members: map<string, Committed>, degraded: set<string>, files: map<string, Committed>) {
    files.Keys == members.Keys && forall id | id in members :: MemberInStep(members[id], id in degraded, files[id])
  }

  ghost predicate MemberInStep(member: Committed, degraded: bool, file: Committed) {
    if degraded then Keys(member.cp.receipts) <= Keys(file.cp.receipts) else file == member
  }

  ghost predicate CatalogueInStep(catalogue: seq<Receipt>, degraded: bool, file: seq<Receipt>) {
    AllSilent(file) && if degraded then Keys(catalogue) <= Keys(file) else file == catalogue
  }

  /** No key is held by a member store and by the catalogue, in the files. */
  ghost predicate IsApart(s: Stores) {
    CatalogueApart(s.files, s.catalogueFile)
  }

  /** What holds of the files holds in memory. */
  lemma MemoryIsApart(s: Stores, limit: nat)
    requires StoresHold(s, limit)
    ensures KeysApart(s.members) && (IsApart(s) ==> CatalogueApart(s.members, s.catalogue))
  {
    forall id | id in s.members ensures Keys(s.members[id].cp.receipts) <= Keys(s.files[id].cp.receipts) {
      assert MemberInStep(s.members[id], id in s.degraded, s.files[id]);
    }
    forall a, b | a in s.members && b in s.members && a != b
      ensures Keys(s.members[a].cp.receipts) !! Keys(s.members[b].cp.receipts) {
      assert Keys(s.files[a].cp.receipts) !! Keys(s.files[b].cp.receipts);
    }
  }

  /** Every other store could be asked, and none has the key. */
  ghost predicate IsFree(s: Stores, key: ReceiptKey, target: Option<string>) {
    && !Crosses(s.members, s.catalogue, key, target)
    && (forall id | id in s.degraded :: Some(id) == target) && (target.Some? ==> !s.catalogueDegraded)
  }

  /** What is free in memory is free in the files. */
  lemma FreeInFiles(s: Stores, limit: nat, key: ReceiptKey, target: Option<string>)
    requires StoresHold(s, limit) && IsFree(s, key, target)
    ensures FreeBeside(s.files, key, target)
    ensures target.Some? ==> key !in Keys(s.catalogueFile)
  {
    forall m | m in s.files && Some(m) != target ensures key !in Keys(s.files[m].cp.receipts) {
      assert MemberInStep(s.members[m], m in s.degraded, s.files[m]);
    }
  }

  ghost predicate FreeBeside(files: map<string, Committed>, key: ReceiptKey, target: Option<string>) {
    forall m | m in files && Some(m) != target :: key !in Keys(files[m].cp.receipts)
  }

  /** One save of a member. When it fails the member is not used until a restart finds out. */
  function Saved(s: Stores, id: string, next: Committed, fate: Fate): Stores {
    match fate
    case Done => s.(members := s.members[id := next], files := s.files[id := next])
    case Lost => s.(degraded := s.degraded + {id})
    case Unconfirmed => s.(degraded := s.degraded + {id}, files := s.files[id := next])
  }

  ghost predicate CanSave(setup: Setup, s: Stores, id: string, k: Commit, next: Committed) {
    && id in s.members && id !in s.degraded && LeavesReceipts(setup, s.members[id], k, next)
    && (IsRequest(k) ==> FreeBeside(s.files, KeyFor(k.input, k.message), Some(id)))
  }

  /** Main result: whatever becomes of a save, keys stay apart in the files, and apart from the catalogue
      exactly when the new key is not there or was not written. */
  lemma SavedHolds(setup: Setup, s: Stores, limit: nat, id: string, k: Commit, next: Committed, fate: Fate)
    requires StoresHold(s, limit) && CanSave(setup, s, id, k, next)
    ensures StoresHold(Saved(s, id, next, fate), limit)
    ensures IsApart(s) ==> (IsApart(Saved(s, id, next, fate)) <==>
      fate == Lost || !IsRequest(k) || KeyFor(k.input, k.message) !in Keys(s.catalogueFile))
  {
    assert MemberInStep(s.members[id], false, s.files[id]);
    SavedApart(setup, s.files, s.catalogueFile, id, k, next);
    SavedInStep(s, id, next, fate);
    SavedHasShape(s, limit, id, next, fate);
  }

  lemma SavedHasShape(s: Stores, limit: nat, id: string, next: Committed, fate: Fate)
    requires HasShape(s, limit) && id in s.members
    ensures HasShape(Saved(s, id, next, fate), limit)
  {
    assert s.members[id := next].Keys == s.members.Keys && s.files[id := next].Keys == s.files.Keys;
  }

  lemma SavedInStep(s: Stores, id: string, next: Committed, fate: Fate)
    requires InStep(s.members, s.degraded, s.files) && id in s.members && id !in s.degraded
    requires Keys(s.members[id].cp.receipts) <= Keys(next.cp.receipts)
    ensures var t := Saved(s, id, next, fate); InStep(t.members, t.degraded, t.files)
  {
    var t := Saved(s, id, next, fate);
    assert t.members.Keys == s.members.Keys == t.files.Keys;
    forall m | m in t.members ensures MemberInStep(t.members[m], m in t.degraded, t.files[m]) {
      assert MemberInStep(s.members[m], m in s.degraded, s.files[m]);
    }
  }

  /** What one save of a member does to the keys. */
  lemma SavedApart(
      setup: Setup, files: map<string, Committed>, catalogue: seq<Receipt>, id: string, k: Commit, next: Committed)
    requires id in files && LeavesReceipts(setup, files[id], k, next) && KeysApart(files)
    requires IsRequest(k) ==> FreeBeside(files, KeyFor(k.input, k.message), Some(id))
    ensures KeysApart(files[id := next]) && Keys(files[id].cp.receipts) <= Keys(next.cp.receipts)
    ensures CatalogueApart(files, catalogue) ==> (CatalogueApart(files[id := next], catalogue) <==>
      !IsRequest(k) || KeyFor(k.input, k.message) !in Keys(catalogue))
  {
    if IsRequest(k) {
      OneMoreKey(files[id].cp.receipts, ReceiptOf(setup, k));
      RequestStaysApart(setup, files, catalogue, id, files[id], k, next);
    } else {
      OtherStaysApart(setup, files, catalogue, id, k, next);
    }
  }

  /** A save of the catalogue that was tried and not confirmed. */
  predicate Breaks(save: Option<Fate>) {
    save.Some? && save.value != Done
  }

  /** A commit of the catalogue that retains no receipt. */
  function Moved(s: Stores, save: Option<Fate>): Stores {
    s.(catalogueDegraded := s.catalogueDegraded || Breaks(save))
  }

  /** A store without receipts was taken in. */
  function Grown(s: Stores, id: string, first: Committed): Stores {
    s.(members := s.members[id := first], files := s.files[id := first])
  }

  lemma GrownHolds(s: Stores, limit: nat, id: string, first: Committed)
    requires StoresHold(s, limit) && IsRundownID(id) && id !in s.members && |s.members.Keys| < limit
    requires first.cp.receipts == []
    ensures StoresHold(Grown(s, id, first), limit) && (IsApart(s) ==> IsApart(Grown(s, id, first)))
  {
    NoReceiptsApart(s.files, id, first);
    if IsApart(s) { EnlargedApart(s.files, s.files[id := first], s.catalogueFile); }
    GrownHasShape(s, limit, id, first);
    GrownInStep(s, id, first);
  }

  lemma GrownHasShape(s: Stores, limit: nat, id: string, first: Committed)
    requires HasShape(s, limit) && IsRundownID(id) && id !in s.members && |s.members.Keys| < limit
    ensures HasShape(Grown(s, id, first), limit)
  {
    var t := Grown(s, id, first);
    assert t.members.Keys == s.members.Keys + {id} == t.files.Keys;
  }

  lemma GrownInStep(s: Stores, id: string, first: Committed)
    requires InStep(s.members, s.degraded, s.files) && id !in s.members && s.degraded <= s.members.Keys
    ensures var t := Grown(s, id, first); InStep(t.members, t.degraded, t.files)
  {
    var t := Grown(s, id, first);
    forall m | m in t.members ensures MemberInStep(t.members[m], m in t.degraded, t.files[m]) {
      if m != id { assert MemberInStep(s.members[m], m in s.degraded, s.files[m]); }
    }
  }

  /** The receipt of a listing; one without an identifier leaves none. */
  function ListingReceipt(input: Input, hash: string): seq<Receipt> {
    if input.messageID == "" then [] else [Receipt(input.scope, input.ncsID, input.messageID, hash, "")]
  }

  /** A commit of the catalogue that retains the receipt of a listing. */
  function Noted(s: Stores, receipts: seq<Receipt>, save: Option<Fate>): Stores {
    match save
    case None => s
    case Some(Done) => s.(catalogue := s.catalogue + receipts, catalogueFile := s.catalogueFile + receipts)
    case Some(Lost) => s.(catalogueDegraded := true)
    case Some(Unconfirmed) => s.(catalogueDegraded := true, catalogueFile := s.catalogueFile + receipts)
  }

  lemma NotedHolds(s: Stores, limit: nat, input: Input, hash: string, save: Option<Fate>)
    requires StoresHold(s, limit) && !s.catalogueDegraded && IsNewTo(s.files, input)
    ensures var t := Noted(s, ListingReceipt(input, hash), save); StoresHold(t, limit) && (IsApart(s) ==> IsApart(t))
  {
    ListingApart(s.files, s.catalogueFile, input, hash);
    NotedInStep(s.catalogue, s.catalogueFile, input, hash);
  }

  lemma NotedInStep(catalogue: seq<Receipt>, file: seq<Receipt>, input: Input, hash: string)
    requires CatalogueInStep(catalogue, false, file) && AllSilent(file + ListingReceipt(input, hash))
    requires Keys(file) <= Keys(file + ListingReceipt(input, hash))
    ensures var more := file + ListingReceipt(input, hash);
      CatalogueInStep(catalogue, true, file) && CatalogueInStep(more, false, more) &&
        CatalogueInStep(catalogue, true, more)
  {}

  lemma ListingApart(files: map<string, Committed>, catalogue: seq<Receipt>, input: Input, hash: string)
    requires IsNewTo(files, input) && AllSilent(catalogue)
    ensures AllSilent(catalogue + ListingReceipt(input, hash))
    ensures Keys(catalogue) <= Keys(catalogue + ListingReceipt(input, hash))
    ensures CatalogueApart(files, catalogue) ==> CatalogueApart(files, catalogue + ListingReceipt(input, hash))
  {
    if input.messageID == "" {
      assert catalogue + [] == catalogue;
    } else {
      var r := Receipt(input.scope, input.ncsID, input.messageID, hash, "");
      OneMoreKey(catalogue, r);
      if CatalogueApart(files, catalogue) { NewCatalogueKey(files, catalogue, r); }
    }
  }

  /** A new process over the same files. */
  ghost predicate IsRestart(setups: string -> Setup, s: Stores, t: Stores) {
    && t.members.Keys == s.members.Keys && t.files == t.members && t.degraded == {} && t.enrolled == s.enrolled
    && (forall id | id in s.files && id in t.members :: IsReopened(setups(id), s.files[id], t.members[id]))
    && t.catalogue == s.catalogueFile && t.catalogueFile == s.catalogueFile && !t.catalogueDegraded
  }

  /** Main result: keys stay apart across a restart, whatever of the last saves the files turn out to hold. */
  lemma RestartHolds(setups: string -> Setup, s: Stores, limit: nat, t: Stores)
    requires StoresHold(s, limit) && IsRestart(setups, s, t)
    ensures StoresHold(t, limit) && (IsApart(s) ==> IsApart(t))
  {
    forall id | id in s.files ensures t.files[id].cp.receipts == s.files[id].cp.receipts {
      assert IsReopened(setups(id), s.files[id], t.members[id]);
    }
    ReopenedApart(s.files, t.files, s.catalogueFile);
  }

  // ---- What is answered before anything is saved ----

  predicate IsHealthy(s: Stores) {
    s.degraded == {} && !s.catalogueDegraded
  }

  function TargetOf(s: Stores, m: Message): Option<string> {
    if RundownOf(m) in s.members then Some(RundownOf(m)) else None
  }

  /** The answer to a message for a rundown that is not enrolled, when every store can be asked: a
      reused key conflicts, and so does the own key with other content. */
  ghost function EarlyAnswer(s: Stores, input: Input, m: Message, hash: string): Option<SetResult> {
    var id, key := RundownOf(m), KeyFor(input, m);
    if input.messageID == "" then None
    else if Crosses(s.members, s.catalogue, key, TargetOf(s, m)) then Some(Conflicted)
    else if key !in KeysIn(s.members, id) then None
    else if FirstHash(s.members[id].cp.receipts, key) == Some(hash) then Some(Repeated)
    else Some(Conflicted)
  }

  /** What a listing comes to when every store can be asked. */
  ghost function ListingResult(s: Stores, limit: nat, input: Input, hash: string, rows: Option<seq<string>>,
      failsAt: nat, save: Option<Fate>): SetResult {
    var early := EarlyListing(s, input, hash);
    if early.Some? then early.value
    else if EnrollsAll(s.members.Keys, rows, limit, failsAt) && save == Some(Done) then SetResult.Committed
    else Rejected
  }

  function ListingKey(input: Input): ReceiptKey {
    ReceiptKey(input.scope, input.ncsID, input.messageID, true)
  }

  ghost function EarlyListing(s: Stores, input: Input, hash: string): Option<SetResult> {
    var key := ListingKey(input);
    if input.messageID == "" then None
    else if Crosses(s.members, s.catalogue, key, None) then Some(Conflicted)
    else if key !in Keys(s.catalogue) then None
    else if FirstHash(s.catalogue, key) == Some(hash) then Some(Repeated)
    else Some(Conflicted)
  }

  class CommittedSourceSet {
    const setups: string -> Setup
    const limit: nat
    var members: map<string, Source.Committed>
    var enrolled: set<string>
    var degraded: set<string>
    var catalogue: seq<Receipt>
    var catalogueDegraded: bool
    // The files.
    ghost var files: map<string, Source.Committed>
    ghost var catalogueFile: seq<Receipt>

    ghost function State(): Stores
      reads this
    {
      Stores(members, enrolled, degraded, catalogue, catalogueDegraded, files, catalogueFile)
    }

    ghost predicate Valid()
      reads this
    {
      StoresHold(State(), limit)
    }

    /** A set over a new catalogue, without members. */
    constructor (setups: string -> Setup, limit: nat)
      ensures Valid() && this.setups == setups && this.limit == limit && State() == NO_STORES && IsApart(State())
    {
      this.setups, this.limit := setups, limit;
      members, enrolled, degraded, catalogue, catalogueDegraded := map[], {}, {}, [], false;
      files, catalogueFile := map[], [];
    }

    /** A new process over the same files, whatever of the last saves is in them: every member takes
        freshness away before it does anything else, or is halted and stays as it is. */
    method Reopen(reopened: map<string, Source.Committed>, receipts: seq<Receipt>)
      requires Valid() && reopened.Keys == members.Keys && receipts == catalogueFile
      requires forall id | id in members :: IsReopened(setups(id), files[id], reopened[id])
      modifies this
      ensures Valid() && IsRestart(setups, old(State()), State()) && members == reopened
      ensures old(IsApart(State())) ==> IsApart(State())
    {
      ghost var before := State();
      members, degraded, files := reopened, {}, reopened;
      catalogue, catalogueDegraded := receipts, false;
      RestartHolds(setups, before, limit, State());
    }

    /** Looks for the key in every store but the message's own. */
    method CrossReceipt(input: Input, key: ReceiptKey, target: Option<string>) returns (r: Search)
      requires Valid()
      ensures input.messageID == "" ==> r.Clear?
      ensures r.Clear? ==> input.messageID == "" || IsFree(State(), key, target)
      ensures r.Reused? ==> Crosses(members, catalogue, key, target)
      ensures r.Broken? ==> !IsHealthy(State())
    {
      if input.messageID == "" { return Clear; }
      var todo := members.Keys;
      while todo != {}
        invariant todo <= members.Keys
        invariant forall id | id in members && id !in todo && Some(id) != target ::
          id !in degraded && key !in Keys(members[id].cp.receipts)
        decreases todo
      {
        var id :| id in todo;
        if Some(id) != target {
          if id in degraded { return Broken; }
          var found := FindHash(members[id].cp.receipts, key);
          if found.Some? { return Reused; }
        }
        todo := todo - {id};
      }
      if target.Some? {
        if catalogueDegraded { return Broken; }
        var found := FindHash(catalogue, key);
        if found.Some? { return Reused; }
      }
      r := Clear;
    }

    // ---- Saving ----

    method Save(id: string, ghost k: Commit, next: Source.Committed, fate: Fate) returns (ok: bool)
      requires Valid() && CanSave(setups(id), State(), id, k, next)
      modifies `members, `files, `degraded
      ensures Valid() && ok == (fate == Done) && State() == Saved(old(State()), id, next, fate)
      ensures old(IsApart(State())) ==> (IsApart(State()) <==>
        fate == Lost || !IsRequest(k) || KeyFor(k.input, k.message) !in Keys(catalogueFile))
    {
      SavedHolds(setups(id), State(), limit, id, k, next, fate);
      ok := fate == Done;
      Write(id, next, fate);
    }

    method Write(id: string, next: Source.Committed, fate: Fate)
      modifies `members, `files, `degraded
      ensures State() == Saved(old(State()), id, next, fate)
    {
      match fate {
        case Done => members, files := members[id := next], files[id := next];
        case Lost => degraded := degraded + {id};
        case Unconfirmed => degraded, files := degraded + {id}, files[id := next];
      }
    }

    /** A commit of a member that retains no receipt: publishing, and taking freshness away. */
    method MemberMoves(id: string, ghost k: Commit, next: Source.Committed, fate: Fate) returns (ok: bool)
      requires Valid() && CanSave(setups(id), State(), id, k, next) && !IsRequest(k)
      modifies `members, `files, `degraded
      ensures Valid() && ok == (fate == Done) && State() == Saved(old(State()), id, next, fate)
      ensures old(IsApart(State())) ==> IsApart(State())
    {
      ok := Save(id, k, next, fate);
    }

    /** A commit of the catalogue that retains no receipt, refused before it is saved or saved. */
    method CatalogueMoves(save: Option<Fate>) returns (ok: bool)
      requires Valid()
      modifies `catalogueDegraded
      ensures Valid() && ok == (!old(catalogueDegraded) && save == Some(Done))
      ensures State() == if old(catalogueDegraded) then old(State()) else Moved(old(State()), save)
    {
      if catalogueDegraded { return false; }
      ok := save == Some(Done);
      catalogueDegraded := save.Some? && !ok;
    }

    // ---- Routing ----

    /** Routes a message for an enrolled rundown. The member answers as its own source does: it
        tries to commit a step about this message, or commits nothing. */
    method RouteEnrolled(input: Input, m: Message, ghost k: Commit, committed: Option<Source.Committed>, fate: Fate)
      returns (r: SetResult)
      requires Valid() && RundownOf(m) in enrolled
      requires committed.Some? ==> RundownOf(m) !in degraded && IsAnswer(k, input, m)
      requires committed.Some? ==> LeavesReceipts(setups(RundownOf(m)), members[RundownOf(m)], k, committed.value)
      modifies `members, `files, `degraded
      ensures Valid() && (old(IsApart(State())) ==> IsApart(State()))
      ensures r.Committed? ==> committed.Some? && fate == Done
      ensures r.Conflicted? ==> old(Crosses(members, catalogue, KeyFor(input, m), Some(RundownOf(m))))
      ensures r.Conflicted? || r.Repeated? ==> State() == old(State())
      ensures State() != old(State()) ==>
        committed.Some? && State() == Saved(old(State()), RundownOf(m), committed.value, fate)
      ensures old(IsHealthy(State())) && input.messageID != "" ==>
        (r.Conflicted? <==> old(Crosses(members, catalogue, KeyFor(input, m), Some(RundownOf(m)))))
      ensures old(IsHealthy(State())) && r.Unavailable? ==> fate != Done
    {
      var id := RundownOf(m);
      var search := CrossReceipt(input, KeyFor(input, m), Some(id));
      if search.Reused? { return Conflicted; }
      if search.Broken? { return Unavailable; }
      if committed.None? { return Repeated; }
      AnswerCanSave(setups(id), State(), limit, input, m, k, committed.value);
      var ok := Save(id, k, committed.value, fate);
      r := if ok then SetResult.Committed else Unavailable;
    }

    /** Whether a message for a rundown that is not enrolled is answered before its refusal is
        retained. */
    method AnswerUnenrolled(input: Input, m: Message) returns (r: Option<SetResult>)
      requires Valid() && RundownOf(m) !in enrolled
      ensures r.None? ==> input.messageID == "" || IsFree(State(), KeyFor(input, m), TargetOf(State(), m))
      ensures r.None? && input.messageID != "" ==> RundownOf(m) !in degraded
      ensures r.Some? ==> r.value.Conflicted? || r.value.Repeated? || r.value.Unavailable?
      ensures IsHealthy(State()) ==> r == EarlyAnswer(State(), input, m, setups(RundownOf(m)).hash(input.content))
    {
      var id := RundownOf(m);
      var search := CrossReceipt(input, KeyFor(input, m), if id in members then Some(id) else None);
      if search.Reused? { return Some(Conflicted); }
      if search.Broken? { return Some(Unavailable); }
      if id in members && input.messageID != "" {
        if id in degraded { return Some(Unavailable); }
        var found := FindHash(members[id].cp.receipts, KeyFor(input, m));
        if found.Some? { return Some(if found.value == setups(id).hash(input.content) then Repeated else Conflicted); }
      }
      r := None;
    }

    /** Routes a message for a rundown that is not enrolled: the catalogue is suspended, and the refusal
        is retained in a store that takes no part otherwise, made for it when there is none (`first`). */
    method RouteUnenrolled(input: Input, m: Message, first: Source.Committed, next: Source.Committed,
        suspension: Option<Fate>, made: bool, fate: Fate) returns (r: SetResult)
      requires Valid() && RundownOf(m) !in enrolled && first.cp.receipts == []
      requires LeavesReceipts(setups(RundownOf(m)), BaseOf(State(), m, first), Commit.Retain(input, m), next)
      modifies `members, `files, `degraded, `catalogueDegraded
      ensures Valid()
      ensures State() == old(State()) ||
        State() == Retained(old(State()), limit, input, m, first, next, suspension, made, fate)
      ensures old(IsHealthy(State())) ==> (r ==
        RoutedHealthy(old(State()), limit, input, m, setups(RundownOf(m)).hash(input.content), suspension, made, fate))
      ensures r.Committed? ==>
        State() == Retained(old(State()), limit, input, m, first, next, suspension, made, fate)
      ensures r.Committed? ==> RetainResult(old(State()), limit, input, m, suspension, made, fate).Committed?
      ensures old(IsApart(State())) ==>
        IsApart(State()) || (fate != Lost && KeyFor(input, m) in Keys(catalogueFile))
      ensures r.Committed? && old(IsApart(State())) ==>
        (IsApart(State()) <==> KeyFor(input, m) !in Keys(catalogueFile))
      ensures r.Committed? && KeyFor(input, m) in Keys(catalogueFile) ==> old(RundownOf(m) !in members) && Silent(m)
    {
      var answered := AnswerUnenrolled(input, m);
      if answered.Some? { return answered.value; }
      r := SuspendAndRetain(input, m, first, next, suspension, made, fate);
    }

    /** Suspends the catalogue and retains a refusal whose key is free. */
    method SuspendAndRetain(input: Input, m: Message, first: Source.Committed, next: Source.Committed,
        suspension: Option<Fate>, made: bool, fate: Fate) returns (r: SetResult)
      requires Valid() && first.cp.receipts == []
      requires LeavesReceipts(setups(RundownOf(m)), BaseOf(State(), m, first), Commit.Retain(input, m), next)
      requires input.messageID != "" ==>
        RundownOf(m) !in degraded && IsFree(State(), KeyFor(input, m), TargetOf(State(), m))
      modifies `members, `files, `degraded, `catalogueDegraded
      ensures Valid() && State() == Retained(old(State()), limit, input, m, first, next, suspension, made, fate)
      ensures r == RetainResult(old(State()), limit, input, m, suspension, made, fate)
      ensures old(IsApart(State())) ==> (IsApart(State()) <==>
        !Retains(old(State()), limit, input, m, suspension, made) || fate == Lost ||
        KeyFor(input, m) !in Keys(catalogueFile))
      ensures input.messageID != "" && KeyFor(input, m) in Keys(catalogueFile) ==>
        old(RundownOf(m) !in members) && Silent(m)
    {
      var id := RundownOf(m);
      if input.messageID != "" {
        FreeBesideOwn(State(), limit, input, m);
        RetainedShares(State(), limit, input, m);
      }
      var suspended := CatalogueMoves(suspension);
      if !suspended { return Unavailable; }
      if !IsRundownID(id) || input.messageID == "" { return Turned; }
      if id !in members && (|members.Keys| >= limit || !made) { return Unavailable; }
      var ok := RetainRefusal(input, m, first, next, fate);
      r := if ok then SetResult.Committed else Unavailable;
    }

    /** Retains a refusal in the rundown's store, made for it when there is none. */
    method RetainRefusal(input: Input, m: Message, first: Source.Committed, next: Source.Committed, fate: Fate)
      returns (ok: bool)
      requires Valid() && IsRundownID(RundownOf(m)) && input.messageID != "" && RundownOf(m) !in degraded
      requires RundownOf(m) in members || (|members.Keys| < limit && first.cp.receipts == [])
      requires FreeBeside(files, KeyFor(input, m), Some(RundownOf(m)))
      requires LeavesReceipts(setups(RundownOf(m)), BaseOf(State(), m, first), Commit.Retain(input, m), next)
      modifies `members, `files, `degraded
      ensures Valid() && ok == (fate == Done)
      ensures State() == Saved(WithStore(old(State()), RundownOf(m), first), RundownOf(m), next, fate)
      ensures old(IsApart(State())) ==>
        (IsApart(State()) <==> fate == Lost || KeyFor(input, m) !in Keys(catalogueFile))
    {
      if RundownOf(m) !in members { Admit(RundownOf(m), first); }
      ok := Save(RundownOf(m), Commit.Retain(input, m), next, fate);
    }

    /** Takes in a store without receipts. */
    method Admit(id: string, first: Source.Committed)
      requires Valid() && IsRundownID(id) && id !in members && |members.Keys| < limit && first.cp.receipts == []
      modifies `members, `files
      ensures Valid() && State() == Grown(old(State()), id, first)
      ensures old(IsApart(State())) ==> IsApart(State())
    {
      GrownHolds(State(), limit, id, first);
      members, files := members[id := first], files[id := first];
    }

    // ---- Listings ----

    /** Takes in a catalogue listing: enrolls what it names that is new, and keeps its receipt. The
        stores of new members have no receipts yet. A listing that cannot be read or published (`rows`
        is missing), does not fit or fails on the way is rejected, with what it had enrolled by then,
        and its receipt is kept too. */
    method ApplyCatalogue(input: Input, hash: string, rows: Option<seq<string>>, started: map<string, Source.Committed>,
        failsAt: nat, save: Option<Fate>, note: Option<Fate>) returns (r: SetResult)
      requires Valid() && (rows.Some? ==> Startable(members.Keys, rows.value, started))
      modifies `members, `enrolled, `catalogue, `catalogueDegraded, `files, `catalogueFile
      ensures Valid() && (old(IsApart(State())) ==> IsApart(State()))
      ensures old(IsHealthy(State())) ==>
        r == ListingResult(old(State()), limit, input, hash, rows, failsAt, save)
      ensures !r.Committed? && !r.Rejected? ==> State() == old(State())
      ensures r.Committed? || r.Rejected? ==>
        Listed(old(State()), State(), limit, input, hash, rows, failsAt, save, note, r.Committed?)
    {
      var answered := AnswerListing(input, hash);
      if answered.Some? { return answered.value; }
      var committed := TakeListing(input, hash, rows, started, failsAt, save, note);
      r := if committed then SetResult.Committed else Rejected;
    }

    /** Whether a listing is answered before it is looked at: its key is taken, or a store cannot be
        asked. */
    method AnswerListing(input: Input, hash: string) returns (r: Option<SetResult>)
      requires Valid()
      ensures r.None? ==> !catalogueDegraded && IsNewTo(files, input)
      ensures r.Some? ==> r.value.Conflicted? || r.value.Repeated? || r.value.Unavailable?
      ensures IsHealthy(State()) ==> r == EarlyListing(State(), input, hash)
    {
      var key := ListingKey(input);
      var search := CrossReceipt(input, key, None);
      if search.Reused? { return Some(Conflicted); }
      if search.Broken? || catalogueDegraded { return Some(Unavailable); }
      if input.messageID == "" { return None; }
      FreeInFiles(State(), limit, key, None);
      var found := FindHash(catalogue, key);
      r := if found.None? then None else Some(if found.value == hash then Repeated else Conflicted);
    }

    /** Takes in a listing under a key that is new. */
    method TakeListing(input: Input, hash: string, rows: Option<seq<string>>, started: map<string, Source.Committed>,
        failsAt: nat, save: Option<Fate>, note: Option<Fate>) returns (committed: bool)
      requires Valid() && !catalogueDegraded && IsNewTo(files, input)
      requires rows.Some? ==> Startable(members.Keys, rows.value, started)
      modifies `members, `enrolled, `catalogue, `catalogueDegraded, `files, `catalogueFile
      ensures Valid() && (old(IsApart(State())) ==> IsApart(State()))
      ensures committed <==> EnrollsAll(old(members).Keys, rows, limit, failsAt) && save == Some(Done)
      ensures Listed(old(State()), State(), limit, input, hash, rows, failsAt, save, note, committed)
    {
      ghost var before := State();
      var all := EnrollListing(rows, started, failsAt);
      StaysNew(before.files, files, input);
      IsListed(before, State(), limit, input, hash, rows, failsAt, save, note);
      committed := NoteListing(input, hash, if all then save else None, note);
    }

    /** Keeps the receipt of a listing, or of its rejection when the listing was not tried. */
    method NoteListing(input: Input, hash: string, save: Option<Fate>, note: Option<Fate>) returns (committed: bool)
      requires Valid() && !catalogueDegraded && IsNewTo(files, input)
      modifies `catalogue, `catalogueDegraded, `catalogueFile
      ensures Valid() && committed == (save == Some(Done)) && (old(IsApart(State())) ==> IsApart(State()))
      ensures State() == NotedTwice(old(State()), ListingReceipt(input, hash), save, note)
    {
      committed := NoteReceipt(input, hash, save);
      if !committed && !catalogueDegraded { var _ := NoteReceipt(input, hash, note); }
    }

    /** Enrolls what a listing names that is new, as far as that goes. */
    method EnrollListing(rows: Option<seq<string>>, started: map<string, Source.Committed>, failsAt: nat)
      returns (all: bool)
      requires Valid() && (rows.Some? ==> Startable(members.Keys, rows.value, started))
      modifies `members, `enrolled, `files
      ensures Valid() && (old(IsApart(State())) ==> IsApart(State()))
      ensures all <==> EnrollsAll(old(members).Keys, rows, limit, failsAt)
      ensures Enrolls(old(State()), State(), Ids(Reached(old(members).Keys, rows, limit, failsAt)))
    {
      EnrollsNone(State());
      if rows.None? { return false; }
      var readable := CheckListing(rows.value);
      if !readable || |members.Keys + Ids(rows.value)| > limit { return false; }
      all := failsAt >= |rows.value|;
      ReachedFits(members.Keys, rows, limit, failsAt, started);
      EnrollAll(if all then rows.value else rows.value[..failsAt], started);
    }

    method EnrollAll(rows: seq<string>, started: map<string, Source.Committed>)
      requires Valid() && Startable(members.Keys, rows, started) && |members.Keys + Ids(rows)| <= limit
      requires forall id | id in rows :: IsRundownID(id)
      modifies `members, `enrolled, `files
      ensures Valid() && (old(IsApart(State())) ==> IsApart(State()))
      ensures Enrolls(old(State()), State(), Ids(rows))
    {
      EnrollsNone(State());
      for i := 0 to |rows|
        invariant Valid() && (old(IsApart(State())) ==> IsApart(State()))
        invariant Enrolls(old(State()), State(), Ids(rows[..i]))
      {
        EnrollRow(old(State()), rows, i, started);
      }
      assert rows[..|rows|] == rows;
    }

    /** Enrolls one row of a listing that began in `s`. */
    method EnrollRow(ghost s: Stores, rows: seq<string>, i: nat, started: map<string, Source.Committed>)
      requires Valid() && i < |rows| && Enrolls(s, State(), Ids(rows[..i])) && IsRundownID(rows[i])
      requires Startable(s.members.Keys, rows, started) && |s.members.Keys + Ids(rows)| <= limit
      modifies `members, `enrolled, `files
      ensures Valid() && (old(IsApart(State())) ==> IsApart(State()))
      ensures Enrolls(s, State(), Ids(rows[..i + 1]))
    {
      if rows[i] in members {
        EnrollsHeld(s, State(), rows, i);
      } else {
        RoomForRow(s.members.Keys, rows, i, limit);
        EnrollsNew(s, State(), rows, i, started[rows[i]]);
        Admit(rows[i], started[rows[i]]);
      }
      Enroll(rows[i]);
    }

    method Enroll(id: string)
      requires Valid() && id in members
      modifies `enrolled
      ensures Valid() && State() == old(State()).(enrolled := old(enrolled) + {id})
    {
      enrolled := enrolled + {id};
    }

    /** Keeps the receipt of a listing under a key that no store has, if it is saved. */
    method NoteReceipt(input: Input, hash: string, save: Option<Fate>) returns (ok: bool)
      requires Valid() && !catalogueDegraded && IsNewTo(files, input)
      modifies `catalogue, `catalogueDegraded, `catalogueFile
      ensures Valid() && ok == (save == Some(Done)) && (old(IsApart(State())) ==> IsApart(State()))
      ensures State() == Noted(old(State()), ListingReceipt(input, hash), save)
    {
      NotedHolds(State(), limit, input, hash, save);
      ok := save == Some(Done);
      WriteCatalogue(ListingReceipt(input, hash), save);
    }

    method WriteCatalogue(receipts: seq<Receipt>, save: Option<Fate>)
      requires !catalogueDegraded
      modifies `catalogue, `catalogueDegraded, `catalogueFile
      ensures State() == Noted(old(State()), receipts, save)
    {
      if save == Some(Done) || save == Some(Unconfirmed) { catalogueFile := catalogueFile + receipts; }
      if save == Some(Done) { catalogue := catalogue + receipts; }
      catalogueDegraded := save.Some? && save != Some(Done);
    }
  }

  lemma AnswerCanSave(setup: Setup, s: Stores, limit: nat, input: Input, m: Message, k: Commit, next: Committed)
    requires StoresHold(s, limit) && RundownOf(m) in s.members && RundownOf(m) !in s.degraded
    requires IsAnswer(k, input, m) && LeavesReceipts(setup, s.members[RundownOf(m)], k, next)
    requires input.messageID == "" || IsFree(s, KeyFor(input, m), Some(RundownOf(m)))
    ensures CanSave(setup, s, RundownOf(m), k, next)
    ensures IsRequest(k) ==> KeyFor(k.input, k.message) !in Keys(s.catalogueFile)
  {
    AnswerIsRequest(setup, input, m, s.members[RundownOf(m)], k, next);
    if input.messageID != "" { FreeInFiles(s, limit, KeyFor(input, m), Some(RundownOf(m))); }
  }

  /** The store a refusal is retained in. */
  function BaseOf(s: Stores, m: Message, first: Committed): Committed {
    if RundownOf(m) in s.members then s.members[RundownOf(m)] else first
  }

  function WithStore(s: Stores, id: string, first: Committed): Stores {
    if id in s.members then s else Grown(s, id, first)
  }

  /** Nothing stands in the way of retaining a refusal. */
  predicate Retains(s: Stores, limit: nat, input: Input, m: Message, suspension: Option<Fate>, made: bool) {
    && !s.catalogueDegraded && suspension == Some(Done) && IsRundownID(RundownOf(m)) && input.messageID != ""
    && (RundownOf(m) in s.members || (|s.members.Keys| < limit && made))
  }

  /** The stores after a refusal was to be retained. */
  function Retained(s: Stores, limit: nat, input: Input, m: Message, first: Committed, next: Committed,
      suspension: Option<Fate>, made: bool, fate: Fate): Stores {
    if s.catalogueDegraded then s
    else if Breaks(suspension) then Moved(s, suspension)
    else if Retains(s, limit, input, m, suspension, made)
    then Saved(WithStore(s, RundownOf(m), first), RundownOf(m), next, fate)
    else s
  }

  function RetainResult(s: Stores, limit: nat, input: Input, m: Message, suspension: Option<Fate>, made: bool,
      fate: Fate)
      : SetResult {
    if s.catalogueDegraded || suspension != Some(Done) then Unavailable
    else if !IsRundownID(RundownOf(m)) || input.messageID == "" then Turned
    else if Retains(s, limit, input, m, suspension, made) && fate == Done then SetResult.Committed
    else Unavailable
  }

  /** What routing to a rundown that is not enrolled comes to when every store can be asked. */
  ghost function RoutedHealthy(s: Stores, limit: nat, input: Input, m: Message, hash: string, suspension: Option<Fate>,
      made: bool, fate: Fate): SetResult {
    var early := EarlyAnswer(s, input, m, hash);
    if early.Some? then early.value else RetainResult(s, limit, input, m, suspension, made, fate)
  }

  lemma FreeBesideOwn(s: Stores, limit: nat, input: Input, m: Message)
    requires StoresHold(s, limit) && IsFree(s, KeyFor(input, m), TargetOf(s, m))
    ensures FreeBeside(s.files, KeyFor(input, m), Some(RundownOf(m)))
  {
    FreeInFiles(s, limit, KeyFor(input, m), TargetOf(s, m));
  }

  /** A retained refusal shares its key with the catalogue only as an answer to our own request and in a
      store that was made for it. */
  lemma RetainedShares(s: Stores, limit: nat, input: Input, m: Message)
    requires StoresHold(s, limit) && IsFree(s, KeyFor(input, m), TargetOf(s, m))
    ensures KeyFor(input, m) in Keys(s.catalogueFile) ==> RundownOf(m) !in s.members && Silent(m)
  {
    FreeInFiles(s, limit, KeyFor(input, m), TargetOf(s, m));
    if KeyFor(input, m) in Keys(s.catalogueFile) { CatalogueKeysAreSilent(s.catalogueFile, KeyFor(input, m)); }
  }

  /** Every row is enrolled. */
  predicate EnrollsAll(held: set<string>, rows: Option<seq<string>>, limit: nat, failsAt: nat) {
    Fits(held, rows, limit) && failsAt >= |rows.value|
  }

  /** Members without receipts were added, and these are enrolled now. */
  ghost predicate Enrolls(s: Stores, t: Stores, ids: set<string>) {
    && Enlarged(s.members, t.members) && Enlarged(s.files, t.files)
    && t.members.Keys == s.members.Keys + ids && t.enrolled == s.enrolled + ids
    && t.degraded == s.degraded && t.catalogue == s.catalogue && t.catalogueDegraded == s.catalogueDegraded
    && t.catalogueFile == s.catalogueFile
  }

  lemma EnrollsNone(s: Stores)
    ensures Enrolls(s, s, Ids([]))
  {
    assert Ids([]) == {} && s.members.Keys + {} == s.members.Keys && s.enrolled + {} == s.enrolled;
  }

  lemma EnrollsHeld(s: Stores, t: Stores, rows: seq<string>, i: nat)
    requires i < |rows| && Enrolls(s, t, Ids(rows[..i])) && rows[i] in t.members
    ensures Enrolls(s, t.(enrolled := t.enrolled + {rows[i]}), Ids(rows[..i + 1]))
  {
    OneMoreRow(rows, i);
    MoreKeys(s.members.Keys, Ids(rows[..i]), rows[i]);
    MoreKeys(s.enrolled, Ids(rows[..i]), rows[i]);
    assert t.members.Keys + {rows[i]} == t.members.Keys;
  }

  lemma EnrollsNew(s: Stores, t: Stores, rows: seq<string>, i: nat, first: Committed)
    requires i < |rows| && Enrolls(s, t, Ids(rows[..i])) && rows[i] !in t.members && t.files.Keys == t.members.Keys
    requires first.cp.receipts == []
    ensures Enrolls(s, Grown(t, rows[i], first).(enrolled := t.enrolled + {rows[i]}), Ids(rows[..i + 1]))
  {
    OneMoreRow(rows, i);
    MoreKeys(s.members.Keys, Ids(rows[..i]), rows[i]);
    MoreKeys(s.enrolled, Ids(rows[..i]), rows[i]);
    EnlargesOneMore(s.members, t.members, rows[i], first);
    EnlargesOneMore(s.files, t.files, rows[i], first);
  }

  lemma MoreKeys(held: set<string>, more: set<string>, id: string)
    ensures held + (more + {id}) == held + more + {id}
  {}

  lemma EnlargesOneMore(before: map<string, Committed>, after: map<string, Committed>, id: string, first: Committed)
    requires Enlarged(before, after) && id !in after && first.cp.receipts == []
    ensures Enlarged(before, after[id := first]) && after[id := first].Keys == after.Keys + {id}
  {}

  /** What taking in a listing comes to: what was reached is enrolled, and its receipt is retained by the
      commit of the listing or of its rejection. */
  ghost predicate Listed(s: Stores, t: Stores, limit: nat, input: Input, hash: string, rows: Option<seq<string>>,
      failsAt: nat, save: Option<Fate>, note: Option<Fate>, committed: bool) {
    var reached := Ids(Reached(s.members.Keys, rows, limit, failsAt));
    var tried := if EnrollsAll(s.members.Keys, rows, limit, failsAt) then save else None;
    && Enlarged(s.members, t.members) && t.members.Keys == s.members.Keys + reached
    && t.enrolled == s.enrolled + reached && t.degraded == s.degraded && committed == (tried == Some(Done))
    && t.catalogue == s.catalogue + (if IsKept(tried, note) then ListingReceipt(input, hash) else [])
    && (t.catalogueDegraded <==> !committed && (Breaks(tried) || Breaks(note)))
  }

  /** The receipt is retained by the first save, or by the second when the first was not tried. */
  predicate IsKept(save: Option<Fate>, note: Option<Fate>) {
    save == Some(Done) || (!Breaks(save) && note == Some(Done))
  }

  /** The receipt of a listing, and of its rejection when that was not tried and lost. */
  function NotedTwice(s: Stores, receipts: seq<Receipt>, save: Option<Fate>, note: Option<Fate>): Stores {
    var t := Noted(s, receipts, save);
    if save != Some(Done) && !t.catalogueDegraded then Noted(t, receipts, note) else t
  }

  lemma NotedTwiceKeeps(s: Stores, receipts: seq<Receipt>, save: Option<Fate>, note: Option<Fate>)
    requires !s.catalogueDegraded
    ensures var t := NotedTwice(s, receipts, save, note);
      && t.members == s.members && t.enrolled == s.enrolled && t.degraded == s.degraded
      && t.catalogue == s.catalogue + (if IsKept(save, note) then receipts else [])
      && (t.catalogueDegraded <==> save != Some(Done) && (Breaks(save) || Breaks(note)))
  {
    assert s.catalogue + [] == s.catalogue;
  }

  lemma IsListed(s: Stores, t: Stores, limit: nat, input: Input, hash: string, rows: Option<seq<string>>,
      failsAt: nat, save: Option<Fate>, note: Option<Fate>)
    requires Enrolls(s, t, Ids(Reached(s.members.Keys, rows, limit, failsAt))) && !s.catalogueDegraded
    ensures var all := EnrollsAll(s.members.Keys, rows, limit, failsAt);
      Listed(s, NotedTwice(t, ListingReceipt(input, hash), if all then save else None, note), limit, input, hash, rows,
        failsAt, save, note, all && save == Some(Done))
  {
    var all := EnrollsAll(s.members.Keys, rows, limit, failsAt);
    NotedTwiceKeeps(t, ListingReceipt(input, hash), if all then save else None, note);
  }

  lemma OneMoreRow(rows: seq<string>, i: nat)
    requires i < |rows|
    ensures Ids(rows[..i + 1]) == Ids(rows[..i]) + {rows[i]} && rows[i] in rows
  {
    assert rows[..i + 1] == rows[..i] + [rows[i]];
  }

  /** A row that is not held leaves room for itself. */
  lemma RoomForRow(held: set<string>, rows: seq<string>, i: nat, limit: nat)
    requires i < |rows| && |held + Ids(rows)| <= limit && rows[i] !in held + Ids(rows[..i])
    ensures |held + Ids(rows[..i])| < limit
  {
    var before, all := held + Ids(rows[..i]), held + Ids(rows);
    forall id | id in before ensures id in all {}
    Fewer(before + {rows[i]}, all);
  }

  method CheckListing(rows: seq<string>) returns (readable: bool)
    ensures readable <==> IsListing(rows)
  {
    var seen: set<string> := {};
    for i := 0 to |rows|
      invariant seen == Ids(rows[..i]) && IsListing(rows[..i])
    {
      assert rows[..i + 1] == rows[..i] + [rows[i]];
      if !IsRundownID(rows[i]) || rows[i] in seen { return false; }
      seen := seen + {rows[i]};
    }
    assert rows[..|rows|] == rows;
    readable := true;
  }

  /** The new rows have stores that have no receipts. */
  ghost predicate Startable(held: set<string>, rows: seq<string>, started: map<string, Committed>) {
    forall id | id in rows && id !in held :: id in started && started[id].cp.receipts == []
  }

  /** Nothing changed but that members without receipts were added. */
  ghost predicate Enlarged(before: map<string, Committed>, after: map<string, Committed>) {
    && (forall id | id in before :: id in after && after[id] == before[id])
    && (forall id | id in after && id !in before :: after[id].cp.receipts == [])
  }

  lemma NoReceiptsApart(members: map<string, Committed>, id: string, next: Committed)
    requires KeysApart(members) && id !in members && next.cp.receipts == []
    ensures KeysApart(members[id := next])
  {
    assert Keys([]) == {};
  }

  lemma EnlargedApart(before: map<string, Committed>, after: map<string, Committed>, catalogue: seq<Receipt>)
    requires CatalogueApart(before, catalogue) && Enlarged(before, after)
    ensures CatalogueApart(after, catalogue)
  {
    assert Keys([]) == {};
  }

  /** A key of the catalogue that no member has keeps them apart. */
  lemma NewCatalogueKey(members: map<string, Committed>, catalogue: seq<Receipt>, r: Receipt)
    requires CatalogueApart(members, catalogue)
    requires forall id | id in members :: KeyOf(r) !in Keys(members[id].cp.receipts)
    ensures CatalogueApart(members, catalogue + [r])
  {
    OneMoreKey(catalogue, r);
  }

  lemma StaysNew(before: map<string, Committed>, after: map<string, Committed>, input: Input)
    requires IsNewTo(before, input) && Enlarged(before, after)
    ensures IsNewTo(after, input)
  {
    assert Keys([]) == {};
  }

  lemma CatalogueKeysAreSilent(catalogue: seq<Receipt>, key: ReceiptKey)
    requires key in Keys(catalogue) && AllSilent(catalogue)
    ensures key.silent
  {}

  lemma {:induction false} Fewer(s: set<string>, t: set<string>)
    requires s <= t
    ensures |s| <= |t|
  {
    if s != {} {
      var x :| x in s;
      Fewer(s - {x}, t - {x});
    }
  }

  lemma ReachedFits(held: set<string>, rows: Option<seq<string>>, limit: nat, failsAt: nat,
      started: map<string, Committed>)
    requires Fits(held, rows, limit) && Startable(held, rows.value, started)
    ensures var reached := Reached(held, rows, limit, failsAt);
      && |held + Ids(reached)| <= limit && Startable(held, reached, started)
      && forall id | id in reached :: IsRundownID(id)
  {
    PrefixFits(held, rows.value, Reached(held, rows, limit, failsAt), limit);
  }

  lemma PrefixFits(held: set<string>, rows: seq<string>, prefix: seq<string>, limit: nat)
    requires prefix <= rows && |held + Ids(rows)| <= limit
    ensures |held + Ids(prefix)| <= limit && forall id | id in prefix :: id in rows
  {
    forall id | id in prefix ensures id in rows {
      var i :| 0 <= i < |prefix| && prefix[i] == id;
      assert rows[i] == id;
    }
    Fewer(held + Ids(prefix), held + Ids(rows));
  }

  // ---- A key that two stores have ----

  /** A peer that answers twice under one identifier: the catalogue takes a listing under a key, and a
      store that is made for an unknown rundown retains the refusal of a roster under the same key,
      from an empty set and with every write succeeding. `first` is the new store. */
  method ListingSharesKey(setups: string -> Setup, input: Input, hash: string, roster: Message, first: Committed)
    returns (g: CommittedSourceSet)
    requires Silent(roster) && IsRundownID(RundownOf(roster))
    requires Answers(setups(RundownOf(roster))) && setups(RundownOf(roster)).ro == RundownOf(roster)
    requires !first.cp.state.halted
    requires first.cp.revision > 0 && first.cp.receipts == [] && ValidCheckpoint(setups(RundownOf(roster)), first.cp)
    requires ValidReceipt(setups(RundownOf(roster)), Receipt(input.scope, input.ncsID, input.messageID, hash, ""))
    ensures fresh(g) && g.Valid() && g.members.Keys == {RundownOf(roster)} && IsHealthy(g.State())
    ensures !IsApart(g.State())
  {
    g := ListedNothing(setups, input, hash);
    var reply := Receipt(input.scope, input.ncsID, input.messageID, setups(RundownOf(roster)).hash(input.content), "");
    var next := first.(cp := first.cp.(receipts := [reply]));
    RefusalLeaves(setups(RundownOf(roster)), input, roster, first, next);
    var _ := g.RouteUnenrolled(input, roster, first, next, Some(Done), true, Done);
  }

  /** A set whose catalogue took an empty listing. */
  method ListedNothing(setups: string -> Setup, input: Input, hash: string) returns (g: CommittedSourceSet)
    requires input.messageID != ""
    ensures fresh(g) && g.Valid() && g.setups == setups && g.limit == 1 && IsApart(g.State())
    ensures g.State() == NO_STORES.(catalogue := ListingReceipt(input, hash),
      catalogueFile := ListingReceipt(input, hash))
    ensures ListingKey(input) in Keys(g.catalogueFile)
  {
    g := new CommittedSourceSet(setups, 1);
    OneMoreKey([], Receipt(input.scope, input.ncsID, input.messageID, hash, ""));
    assert [] + ListingReceipt(input, hash) == ListingReceipt(input, hash);
    NothingIsListed(input, hash);
    var _ := g.ApplyCatalogue(input, hash, Some([]), map[], 0, Some(Done), Some(Done));
  }

  lemma NothingIsListed(input: Input, hash: string)
    ensures EarlyListing(NO_STORES, input, hash).None? && Fits({}, Some([]), 1)
    ensures Ids(Reached({}, Some([]), 1, 0)) == {}
  {
    assert {} + Ids([]) == {};
  }

  lemma RefusalLeaves(setup: Setup, input: Input, roster: Message, before: Committed, next: Committed)
    requires Silent(roster) && RundownOf(roster) == setup.ro && !before.cp.state.halted && Answers(setup)
    requires before.cp.revision > 0 && before.cp.receipts == [] && ValidCheckpoint(setup, before.cp)
    requires forall hash :: ValidReceipt(setup, Receipt(input.scope, input.ncsID, input.messageID, hash, ""))
    requires next.repos == before.repos && next.cp == before.cp.(receipts :=
      [Receipt(input.scope, input.ncsID, input.messageID, setup.hash(input.content), "")])
    ensures LeavesReceipts(setup, before, Commit.Retain(input, roster), next)
  {
    RetainsRefusal(setup, input, roster, before, next);
    StepReceipts(setup, before, Commit.Retain(input, roster), next);
  }

  lemma RetainsRefusal(setup: Setup, input: Input, roster: Message, before: Committed, next: Committed)
    requires Silent(roster) && RundownOf(roster) == setup.ro && !before.cp.state.halted
    requires before.cp.revision > 0 && before.cp.receipts == [] && ValidCheckpoint(setup, before.cp)
    requires forall hash :: ValidReceipt(setup, Receipt(input.scope, input.ncsID, input.messageID, hash, ""))
    requires next.repos == before.repos && next.cp == before.cp.(receipts :=
      [Receipt(input.scope, input.ncsID, input.messageID, setup.hash(input.content), "")])
    ensures IsStep(setup, before, Commit.Retain(input, roster), next)
  {
    var reply := Receipt(input.scope, input.ncsID, input.messageID, setup.hash(input.content), "");
    assert ValidReceipt(setup, reply);
    assert [] + [reply] == [reply];
  }
}
