/** The committed source as a value: what one message does to the retained state, what is
    published about it, and what one commit does to the checkpoint. */
module Source {
  import opened Options
  import opened Repositories
  import opened Rundown
  import opened Bodies
  import Cues

  const MAX_REVISION: nat := 9007199254740991

  // ---- Retained state ----

  datatype HeldStory = HeldStory(id: string, isFresh: bool, ambiguous: bool, occurrences: seq<Occurrence>, raw: string)

  datatype State = State(
    active: bool, rosterFresh: bool, stories: seq<HeldStory>, nextCue: nat, halted: bool,
    rawRoster: string, metadata: Option<seq<string>>, problem: string)

  const BLANK := State(false, false, [], 0, false, "", None, "")

  datatype PublishedStory = PublishedStory(id: string, display: string, occurrences: seq<Occurrence>)

  /** The body that is sent to the receiver. */
  datatype Published = Published(
    revision: nat, active: bool, complete: bool, metadata: Option<seq<string>>, stories: seq<PublishedStory>)

  datatype Receipt = Receipt(scope: string, ncsID: string, messageID: string, hash: string, response: string)

  datatype Checkpoint = Checkpoint(
    revision: nat, state: State, pending: Option<Published>, accepted: nat, receipts: seq<Receipt>)

  datatype Committed = Committed(repos: Repos, cp: Checkpoint)

  const START := Committed(EMPTY, Checkpoint(0, BLANK, None, 0, []))

  /** Configuration, and the parts decided elsewhere: the receiver's limits, the display fields
      of a story, the rendered acknowledgement, the content hash. */
  datatype Setup = Setup(
    ro: string, mosID: string, ncsID: string, transport: string, timeout: nat, extended: bool,
    fits: Published -> bool, display: State -> Option<string -> string>, ack: string -> string, hash: string -> string)

  /** The rundown has a name, and acknowledgements are nonempty and bounded. */
  ghost predicate IsSetup(setup: Setup) {
    !Blank(setup.ro) && Answers(setup)
  }

  /** Every status is rendered as an answer, and one of bounded length. */
  ghost predicate Answers(setup: Setup) {
    forall status :: 0 < |setup.ack(status)| <= MAX_RESPONSE
  }

  const MAX_RESPONSE: nat := 0x80_0000

  // ---- Messages ----

  datatype RosterKind = Create | Replace | Listing

  datatype Message =
    | RosterMessage(kind: RosterKind, roster: Roster, metadata: Option<seq<string>>)
    | DeleteMessage(ro: string)
    | BodyMessage(ro: string, story: string, slug: string, explicit: bool, elements: Option<seq<Element>>)
    | ReadyMessage(ro: string, air: string)
    | MetadataMessage(ro: string, slug: string, metadata: Option<seq<string>>)
    | StatusMessage(ro: string, storyID: Option<string>, itemID: Option<string>, status: string)
    | OtherMessage(ro: string)

  function RundownOf(m: Message): string {
    if m.RosterMessage? then m.roster.id else m.ro
  }

  /** The answer to our own request: it is retained, but not answered. */
  predicate Silent(m: Message) {
    m.RosterMessage? && m.kind == Listing
  }

  datatype Input = Input(
    transport: string, scope: string, ncsID: string, messageID: string, session: string, content: string)

  // ---- What a message does ----

  datatype Effect = Effect(repos: Repos, state: State)

  function StoryIdsOf(stories: seq<HeldStory>): seq<string> {
    seq(|stories|, i requires 0 <= i < |stories| => stories[i].id)
  }

  /** The first held story with this identifier. */
  function FindStory(stories: seq<HeldStory>, id: string): (r: Option<nat>)
    ensures r.Some? ==> r.value < |stories| && stories[r.value].id == id
    ensures r.None? ==> forall i | 0 <= i < |stories| :: stories[i].id != id
  {
    if stories == [] then None
    else if stories[0].id == id then Some(0)
    else
      match FindStory(stories[1..], id)
      case None => None
      case Some(i) => Some(i + 1)
  }

  /** A story kept across rosters keeps its content but is no longer fresh. */
  function HeldAgain(stories: seq<HeldStory>, id: string): HeldStory {
    match FindStory(stories, id)
    case Some(i) => stories[i].(isFresh := false)
    case None => HeldStory(id, false, false, [], "")
  }

  function HeldStories(stories: seq<HeldStory>, infos: seq<StoryInfo>): seq<HeldStory> {
    seq(|infos|, i requires 0 <= i < |infos| => HeldAgain(stories, infos[i].id))
  }

  predicate RosterAccepted(roster: Roster) {
    && (forall i, j | 0 <= i < j < |roster.stories| :: roster.stories[i].id != roster.stories[j].id)
    && (forall s | s in roster.stories :: s.id != "" && forall i | i in s.items :: i.sourceOk)
  }

  function ApplyRoster(setup: Setup, e: Effect, roster: Roster, raw: string): Option<Effect> {
    if !RosterAccepted(roster) then None
    else
      match ReplaceRunningOrder(e.repos, roster)
      case None => None
      case Some(repos) =>
        if roster.id !in repos.orders then None
        else
          var owned := repos.(orders := repos.orders[roster.id := repos.orders[roster.id].(mosID := setup.mosID)]);
          Some(Effect(owned, e.state.(active := true, rosterFresh := true,
            stories := HeldStories(e.state.stories, roster.stories), rawRoster := raw)))
  }

  /** Identities for a new body, given what is retained. */
  ghost function BodyIdentities(state: State, i: nat, elements: seq<Element>): Option<Cues.Allocation>
    requires i < |state.stories|
  {
    Cues.Identify(state.nextCue, state.stories[i].ambiguous, state.stories[i].occurrences, ParsedBody(elements))
  }

  ghost function ApplyBody(e: Effect, m: Message, raw: string): Option<Effect>
    requires m.BodyMessage?
  {
    if !e.state.active || !e.state.rosterFresh || !m.explicit || m.elements.None? then None
    else
      match FindStory(e.state.stories, m.story)
      case None => None
      case Some(i) =>
        var elements := m.elements.value;
        if !DistinctItems(elements) || BodyIdentities(e.state, i, elements).None? then None
        else
          match StoreBody(e.repos, m.ro, m.story, m.slug, elements)
          case None => None
          case Some(repos) =>
            var named := BodyIdentities(e.state, i, elements).value;
            var story :=
              e.state.stories[i].(isFresh := true, ambiguous := false, occurrences := named.body, raw := raw);
            Some(Effect(repos, e.state.(nextCue := named.last, stories := e.state.stories[i := story])))
  }

  /** The key of the story a name on the wire stands for: the composite key first, then the name
      itself as a key. */
  function NamedStory(r: Repos, ro: string, wire: string): Option<string> {
    if wire == "" then None
    else if StoryKey(ro, wire) in r.stories then Some(StoryKey(ro, wire))
    else if wire in r.stories && r.stories[wire].runningOrderID == ro then Some(wire)
    else None
  }

  function NamedItem(r: Repos, story: string, wire: string): Option<string> {
    if wire == "" then None
    else if ItemKey(story, wire) in r.items then Some(ItemKey(story, wire))
    else if wire in r.items && r.items[wire].storyID == story then Some(wire)
    else None
  }

  /** A status report changes the status of one held entity. */
  function ApplyStatus(r: Repos, m: Message): Option<Repos>
    requires m.StatusMessage?
  {
    if m.storyID.None? then
      if m.ro !in r.orders then None
      else Some(r.(orders := r.orders[m.ro := r.orders[m.ro].(status := m.status)]))
    else
      var story := NamedStory(r, m.ro, m.storyID.value);
      if story.None? || story.value !in r.stories then None
      else if m.itemID.None? then
        if m.ro !in r.orders then None
        else Some(r.(stories := r.stories[story.value := r.stories[story.value].(status := m.status)]))
      else
        var item := NamedItem(r, story.value, m.itemID.value);
        if item.None? || item.value !in r.items then None
        else Some(r.(items := r.items[item.value := r.items[item.value].(status := m.status)]))
  }

  function WithMetadata(state: State, m: Message): Option<State> {
    if m.RosterMessage? || m.MetadataMessage? then
      if m.metadata.None? then None else Some(state.(metadata := m.metadata))
    else Some(state)
  }

  ghost function ApplyMessage(setup: Setup, e: Effect, m: Message, raw: string): Option<Effect> {
    match WithMetadata(e.state, m)
    case None => None
    case Some(state) =>
      match m
      case RosterMessage(_, roster, _) => ApplyRoster(setup, Effect(e.repos, state), roster, raw)
      case DeleteMessage(ro) =>
        (match DeleteRunningOrder(e.repos, ro)
         case None => None
         case Some(repos) => Some(Effect(repos,
           state.(active := false, rosterFresh := true, stories := [], rawRoster := raw, metadata := Some([])))))
      case BodyMessage(_, _, _, _, _) => ApplyBody(Effect(e.repos, state), m, raw)
      case ReadyMessage(ro, air) =>
        if ro !in e.repos.orders then None
        else Some(Effect(e.repos.(orders := e.repos.orders[ro := e.repos.orders[ro].(air := air)]), state))
      case MetadataMessage(ro, slug, _) =>
        if ro !in e.repos.orders then None
        else if slug == "" then Some(Effect(e.repos, state))
        else Some(Effect(e.repos.(orders := e.repos.orders[ro := e.repos.orders[ro].(slug := slug)]), state))
      case StatusMessage(_, _, _, _) =>
        (match ApplyStatus(e.repos, m)
         case None => None
         case Some(repos) => Some(Effect(repos, state)))
      case OtherMessage(_) => None
  }

  // ---- What is published ----

  predicate AllFresh(stories: seq<HeldStory>) {
    forall s | s in stories :: s.isFresh && !s.ambiguous
  }

  function Problem(state: State): string {
    if exists s | s in state.stories :: s.ambiguous then "anonymous_cue_identity_unresolved"
    else if !state.rosterFresh then "fresh_roster_required"
    else if exists s | s in state.stories :: !s.isFresh then "fresh_story_bodies_required"
    else ""
  }

  function PublishedStories(stories: seq<HeldStory>, display: string -> string): seq<PublishedStory> {
    seq(|stories|, i requires 0 <= i < |stories| =>
      PublishedStory(stories[i].id, display(stories[i].id), stories[i].occurrences))
  }

  /** One new revision: the retained state with its problem named, and the body to publish. A
      body outside the receiver's limits is replaced by a visible suspension. */
  function Revise(setup: Setup, cp: Checkpoint, state: State): Option<Checkpoint> {
    if cp.revision >= MAX_REVISION then None
    else
      var complete := state.rosterFresh && AllFresh(state.stories);
      if complete && state.active && setup.extended && setup.display(state).None? then None
      else
        var display :=
          if complete && state.active && setup.extended then setup.display(state).value else (id: string) => "";
        var stories := if complete && state.active then PublishedStories(state.stories, display) else [];
        var full := Published(cp.revision + 1, state.active, complete, state.metadata, stories);
        var suspended := Published(cp.revision + 1, state.active, false, None, []);
        if setup.fits(full) then
          Some(cp.(revision := cp.revision + 1, state := state.(problem := Problem(state)), pending := Some(full)))
        else if setup.fits(suspended) then
          Some(cp.(revision := cp.revision + 1, state := state.(problem := "source_projection_outside_limits"),
            pending := Some(suspended)))
        else None
  }

  function Stale(stories: seq<HeldStory>): seq<HeldStory> {
    seq(|stories|, i requires 0 <= i < |stories| => stories[i].(isFresh := false))
  }

  function Invalidated(state: State): State {
    state.(rosterFresh := false, stories := Stale(state.stories))
  }

  // ---- Receipts ----

  datatype ReceiptKey = ReceiptKey(scope: string, ncsID: string, messageID: string, silent: bool)

  function KeyOf(r: Receipt): ReceiptKey {
    ReceiptKey(r.scope, r.ncsID, r.messageID, r.response == "")
  }

  function KeyFor(input: Input, m: Message): ReceiptKey {
    ReceiptKey(input.scope, input.ncsID, input.messageID, Silent(m))
  }

  function ReplyFor(setup: Setup, m: Message, status: string): string {
    if Silent(m) then "" else setup.ack(status)
  }

  const OK_STATUS := "OK"
  const UNENROLLED_STATUS := "NACK: rundown requires authoritative catalogue enrollment"
  const REFUSED_STATUS := "NACK: committed source requires a fresh roster and complete bodies"

  function Remember(cp: Checkpoint, input: Input, hash: string, reply: string): Checkpoint {
    if input.messageID == "" then cp
    else cp.(receipts := cp.receipts + [Receipt(input.scope, input.ncsID, input.messageID, hash, reply)])
  }

  predicate ValidReceipt(setup: Setup, r: Receipt) {
    && 0 < |r.scope| <= 512 && r.ncsID == setup.ncsID
    && 0 < |r.messageID| <= 0x40_0000 && |r.response| <= MAX_RESPONSE
  }

  predicate DistinctKeys(receipts: seq<Receipt>) {
    forall i, j | 0 <= i < j < |receipts| :: KeyOf(receipts[i]) != KeyOf(receipts[j])
  }

  /** What a checkpoint must satisfy to be saved or opened. */
  predicate ValidCheckpoint(setup: Setup, cp: Checkpoint) {
    && cp.revision <= MAX_REVISION && cp.accepted <= cp.revision
    && if cp.revision == 0 then cp.pending == None && cp.state == BLANK && cp.receipts == []
       else
         && cp.pending.Some? && cp.pending.value.revision == cp.revision
         && DistinctKeys(cp.receipts)
         && forall r | r in cp.receipts :: ValidReceipt(setup, r)
  }

  // ---- Commits ----

  /** Everything that changes a checkpoint. A store that is not enrolled only retains refusals. */
  datatype Commit =
    | Invalidate
    | Apply(input: Input, message: Message)
    | Refuse(input: Input, message: Message)
    | Retain(input: Input, message: Message)
    | Conflict
    | Halt
    | Accept(body: Published)

  /** The staged result of a commit, before it is validated. */
  ghost function Stage(setup: Setup, c: Committed, k: Commit): Option<Committed> {
    var cp := c.cp;
    match k
    case Invalidate =>
      if cp.state.halted then None else Revised(c.repos, Revise(setup, cp, Invalidated(cp.state)))
    case Apply(input, m) =>
      (match ApplyMessage(setup, Effect(c.repos, cp.state), m, input.content)
       case None => None
       case Some(e) =>
         match Revise(setup, cp, e.state)
         case None => None
         case Some(next) =>
           Some(Committed(e.repos, Remember(next, input, setup.hash(input.content), ReplyFor(setup, m, OK_STATUS)))))
    case Refuse(input, m) =>
      (match Revise(setup, cp, Invalidated(cp.state))
       case None => None
       case Some(next) =>
         Some(Committed(c.repos, Remember(next, input, setup.hash(input.content), ReplyFor(setup, m, REFUSED_STATUS)))))
    case Retain(input, m) =>
      Some(c.(cp := Remember(cp, input, setup.hash(input.content), ReplyFor(setup, m, UNENROLLED_STATUS))))
    case Conflict => Revised(c.repos, Revise(setup, cp, Invalidated(cp.state)))
    case Halt =>
      Some(c.(cp := cp.(state := cp.state.(halted := true, problem := "receiver_revision_conflict"))))
    case Accept(body) =>
      Some(if cp.pending == Some(body) then c.(cp := cp.(accepted := cp.revision)) else c)
  }

  function Revised(repos: Repos, cp: Option<Checkpoint>): Option<Committed> {
    match cp
    case None => None
    case Some(next) => Some(Committed(repos, next))
  }

  /** A commit either stages and validates, or changes nothing. */
  ghost function Next(setup: Setup, c: Committed, k: Commit): Option<Committed> {
    match Stage(setup, c, k)
    case None => None
    case Some(next) => if ValidCheckpoint(setup, next.cp) then Some(next) else None
  }
}
