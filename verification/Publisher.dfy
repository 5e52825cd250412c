/** Delivery from end to end: a committed source, the transfer of its body, and what the receiver
    has published when a revision is taken for accepted. */
module Publishers {
  import opened Options
  import opened Source
  import opened SourceLedger
  import opened Durable
  import opened CommittedSources
  import opened SourceTransfers
  import T = Transfer

  /** What a receiver holds, and the document it has published. */
  datatype Receiver = Receiver(held: seq<T.Body>, current: Option<T.Document>)

  /** The receiver has published the document behind this manifest. */
  ghost predicate HasPublished(c: T.Coding, manifest: string, r: Receiver) {
    r.current.Some? && T.Hash(c, T.ManifestOf(c, r.current.value)) == manifest
  }

  /** All that is asked of a receiver. It may lose what it holds at any time and answer nothing or
      nonsense; but it confirms a publication only when it has made it, and publishes only what it
      rebuilds from what it holds. */
  ghost predicate IsHonest(c: T.Coding, manifest: string, request: Request, reply: Reply, after: Receiver) {
    match request
    case Commit => reply == Reply.Receipt(true) ==>
      after.current.Some? && after.current == T.Rebuild(c, after.held, manifest)
    case Heartbeat => reply == Reply.Receipt(true) ==> HasPublished(c, manifest, after)
    case _ => true
  }

  /** Main result: what an honest receiver has published when a commit or a heartbeat completes is the
      document, whatever else it holds or has lost. */
  lemma CompleteIsPublished(c: T.Coding, d: T.Document, request: Request, reply: Reply, after: Receiver)
    requires T.IsCoding(c) && IsHonest(c, T.Hash(c, T.ManifestOf(c, d)), request, reply, after)
    requires (request.Commit? || request.Heartbeat?) && reply == Reply.Receipt(true)
    ensures after.current == Some(d)
  {
    T.RebuildsNothingElse(c, d, after.held);
    if request.Heartbeat? { T.ManifestNamesDocument(c, after.current.value, d); }
  }

  /** Main result: a receiver that keeps what it acknowledged can always publish: a commit is asked for
      only when that is the whole document. */
  lemma AcknowledgedSuffices(transfer: SourceTransfer, d: T.Document, held: seq<T.Body>)
    requires transfer.Valid() && transfer.objects == T.Objects(transfer.c, d) && transfer.Next().Commit?
    requires forall b | b in transfer.settled :: b in held
    ensures T.Rebuild(transfer.c, held, T.Hash(transfer.c, T.ManifestOf(transfer.c, d))) == Some(d)
  {
    transfer.NextIsSafe();
    T.HeldRebuilds(transfer.c, d, held);
  }

  class Publisher {
    const source: CommittedSource
    const c: T.Coding
    /** The document of a body. */
    const form: Published -> T.Document
    var transfer: SourceTransfer?
    // Bodies whose document the receiver had published when it completed their delivery.
    ghost var delivered: set<Published>

    ghost predicate Valid()
      reads this, source, source.store, transfer
    {
      && source.Valid() && source.chunked && T.IsCoding(c)
      && (transfer != null ==> Carries(source.transfer))
      && source.receipted <= delivered
    }

    /** The transfer at hand is of this body. */
    ghost predicate Carries(body: Option<Published>)
      requires transfer != null
      reads this, transfer
    {
      && transfer.Valid() && transfer.c == c
      && body.Some? && transfer.objects == T.Objects(c, form(body.value))
    }

    constructor (source: CommittedSource, c: T.Coding, form: Published -> T.Document)
      requires source.Valid() && source.chunked && T.IsCoding(c)
      ensures Valid() && this.source == source && this.c == c && this.form == form
      ensures transfer == null && delivered == source.receipted
    {
      this.source, this.c, this.form := source, c, form;
      transfer, delivered := null, source.receipted;
    }

    /** Chooses what to deliver. A transfer that is under way goes on while its revision is current. */
    method Begin(now: nat) returns (ok: bool)
      requires Valid() && source.up
      modifies this`transfer, source`sessions, source`owners, source`flight, source`transfer, source.store
      ensures Valid() && (ok ==> transfer != null && source.flight.Some? && source.flight == source.store.cp.pending)
    {
      var was := source.transfer;
      ok := source.PublishBegin(now);
      if ok && (transfer == null || source.transfer != was) {
        transfer := new SourceTransfer(c, form(source.transfer.value));
      }
    }

    /** One request and its answer. */
    method Exchange(reply: Reply, ghost receiver: Receiver) returns (answer: Answer)
      requires Valid() && source.flight.Some? && transfer != null
      requires IsHonest(c, T.Hash(c, T.ManifestOf(c, form(source.flight.value))), transfer.Next(), reply, receiver)
      modifies this`delivered, transfer
      ensures Valid() && answer.Conflicting? == reply.RevisionConflict?
      ensures answer.Receipted? ==> receiver.current == Some(form(source.flight.value))
      ensures delivered == old(delivered) + if answer.Receipted? then {source.flight.value} else {}
    {
      ghost var request := transfer.Next();
      var outcome := transfer.Step(reply);
      if outcome.Complete? {
        CompleteIsPublished(c, form(source.flight.value), request, reply, receiver);
        delivered := delivered + {source.flight.value};
      }
      answer := if outcome.Complete? then Receipted else if outcome.Halts? then Conflicting else Unusable;
    }

    /** One request was answered, however much was committed in between. */
    method Finish(reply: Reply, ghost receiver: Receiver)
      requires Valid() && source.up && source.flight.Some? && transfer != null
      requires IsHonest(c, T.Hash(c, T.ManifestOf(c, form(source.flight.value))), transfer.Next(), reply, receiver)
      modifies this`delivered, transfer, source`flight, source`receipted, source.store
      ensures Valid() && source.flight == None && old(delivered) <= delivered
      ensures source.store.cp.accepted != old(source.store.cp.accepted) ==>
        receiver.current == Some(form(old(source.flight.value))) && source.store.cp.pending == old(source.flight)
    {
      var answer := Exchange(reply, receiver);
      var _ := source.PublishReply(answer);
    }

    /** A new process: the transfer is gone, and what was accepted is not. */
    method Restart()
      requires Valid()
      modifies this`transfer, source, source.store
      ensures Valid() && transfer == null && delivered == old(delivered)
    {
      source.Restart();
      transfer := null;
    }

    /** So every accepted revision is one whose document an honest receiver had published. */
    lemma AcceptedIsDelivered(k: Commit)
      requires Valid() && k in source.store.ks && k.Accept?
      ensures k.body in delivered
    {}
  }
}
