/** What delivery guarantees in every run, whatever the network and restarts do. */
module DeliveryTheorems {
  import opened Basics
  import opened DataModel
  import opened StoreSpec
  import opened StoreInvariant
  import opened Delivery
  import opened DeliveryRuns
  import Runs = StoreRuns

  /** The server holds this stream's sequences 1..n and no others, each bound to the
      evidence of that outbox row, which it also holds. */
  ghost predicate HoldsExactly(j: Journal, db: Db, n: nat)
  {
    && n <= |j.outbox|
    && (forall s: nat :: (j.stream, s) in db.items <==> 1 <= s <= n)
    && (forall s: nat :: 1 <= s <= n ==> Mirrors(j, db, s) && db.items[(j.stream, s)] in db.evidence)
  }

  /** No destination of the server's database, or one whose deliveries end at n. */
  ghost predicate EndsAt(j: Journal, db: Db, n: nat)
  {
    n == 0 || exists d :: d in j.destinations && d.databaseId == db.databaseId && n == End(j, d, db)
  }

  /** The furthest any of the given destinations has got. */
  ghost function Furthest(j: Journal, db: Db, ds: set<DestinationId>): nat
    requires ds <= j.destinations.Keys
  {
    if ds == {} then 0
    else
      var d :| d in ds;
      var rest := Furthest(j, db, ds - {d});
      if d.databaseId == db.databaseId && End(j, d, db) > rest then End(j, d, db) else rest
  }

  lemma {:induction false} FurthestIsMaximum(j: Journal, db: Db, ds: set<DestinationId>)
    requires ds <= j.destinations.Keys
    ensures EndsAt(j, db, Furthest(j, db, ds))
    ensures forall d :: d in ds && d.databaseId == db.databaseId ==> End(j, d, db) <= Furthest(j, db, ds)
  {
    if ds != {} {
      var d :| d in ds && Furthest(j, db, ds) ==
        (var rest := Furthest(j, db, ds - {d});
         if d.databaseId == db.databaseId && End(j, d, db) > rest then End(j, d, db) else rest);
      FurthestIsMaximum(j, db, ds - {d});
      hide End;
      assert ds == (ds - {d}) + {d};
    }
  }

  lemma ItemsHaveEvidence(db: Db, stream: StreamId)
    requires Inv(db)
    ensures forall s: nat :: (stream, s) in db.items ==> db.items[(stream, s)] in db.evidence
  {
    assert db.items.Values <= db.evidence.Keys;
  }

  lemma ServerHoldsPrefix(j: Journal, db: Db)
    requires ServerOk(j, db) && Inv(db)
    ensures exists n: nat :: HoldsExactly(j, db, n) && EndsAt(j, db, n)
  {
    ItemsHaveEvidence(db, j.stream);
    hide Inv, End;
    var n := Furthest(j, db, j.destinations.Keys);
    FurthestIsMaximum(j, db, j.destinations.Keys);
    hide Furthest;
    forall s: nat | 1 <= s <= n
      ensures Mirrors(j, db, s)
    {
      var d :| d in j.destinations && d.databaseId == db.databaseId && n == End(j, d, db);
      assert Reaches(j, db, d);
    }
    forall s: nat
      ensures (j.stream, s) in db.items <==> 1 <= s <= n
    {
      assert 1 <= s <= n ==> Mirrors(j, db, s);
      assert (j.stream, s) in db.items ==> Mirrors(j, db, s) && Explained(j, db, s);
    }
    assert n <= |j.outbox| by {
      if n > 0 {
        assert Mirrors(j, db, n);
      }
    }
    assert HoldsExactly(j, db, n) && EndsAt(j, db, n);
  }

  /** Exactly-once effect. In every run, each server's share of the stream is the image
      of an outbox prefix, ending where some destination's deliveries end. */
  lemma DeliveredExactlyOnce(stream: StreamId, version: nat, ids: set<string>, events: seq<Event>, server: string)
    requires server in Run(stream, version, ids, events).servers
    ensures var sys := Run(stream, version, ids, events);
            exists n: nat :: HoldsExactly(sys.journal, sys.servers[server].db, n) && EndsAt(sys.journal, sys.servers[server].db, n)
  {
    RunsKeepSystemInv(stream, version, ids, events);
    var sys := Run(stream, version, ids, events);
    assert ServerOk(sys.journal, sys.servers[server].db) && Runs.WorldInv(sys.servers[server]);
    hide ServerOk, Inv;
    ServerHoldsPrefix(sys.journal, sys.servers[server].db);
  }

  /** With a single destination bound to the database, the prefix ends at its cursor k
      or at the end of its one request in flight, which starts at k + 1. */
  lemma PrefixEndsAtCursorOrBatch(stream: StreamId, version: nat, ids: set<string>, events: seq<Event>, d: DestinationId)
    requires d in Run(stream, version, ids, events).journal.destinations
    requires d.databaseId in Run(stream, version, ids, events).servers
    requires forall e :: e in Run(stream, version, ids, events).journal.destinations && e.databaseId == d.databaseId ==> e == d
    ensures var j, db := Run(stream, version, ids, events).journal, Run(stream, version, ids, events).servers[d.databaseId].db;
            var k := j.destinations[d];
            || HoldsExactly(j, db, k)
            || (PendingOf(j, d).Some? && j.batches[PendingOf(j, d).value].batch.fromSequence == k + 1 &&
                HoldsExactly(j, db, j.batches[PendingOf(j, d).value].batch.toSequence))
  {
    RunsKeepSystemInv(stream, version, ids, events);
    var sys := Run(stream, version, ids, events);
    var j, db := sys.journal, sys.servers[d.databaseId].db;
    assert ServerOk(j, db) && Runs.WorldInv(sys.servers[d.databaseId]) && db.databaseId == d.databaseId;
    hide Inv, Run;
    OneDestination(j, db, d);
  }

  lemma OneDestination(j: Journal, db: Db, d: DestinationId)
    requires JournalOk(j) && ServerOk(j, db) && Inv(db) && d in j.destinations && d.databaseId == db.databaseId
    requires forall e :: e in j.destinations && e.databaseId == d.databaseId ==> e == d
    ensures HoldsExactly(j, db, End(j, d, db))
    ensures PendingOf(j, d).Some? ==> j.batches[PendingOf(j, d).value].batch.fromSequence == j.destinations[d] + 1
  {
    ItemsHaveEvidence(db, j.stream);
    if PendingOf(j, d).Some? {
      assert SavedOk(j, PendingOf(j, d).value);
    }
    var n := End(j, d, db);
    assert Reaches(j, db, d);
    forall s: nat
      ensures (j.stream, s) in db.items <==> 1 <= s <= n
    {
      assert 1 <= s <= n ==> Mirrors(j, db, s);
      assert (j.stream, s) in db.items ==> Mirrors(j, db, s) && Explained(j, db, s);
    }
    if n > 0 {
      assert Mirrors(j, db, n);
    }
  }

  /** The acknowledged batches of a destination cover each sequence 1..k exactly once and
      carry the outbox rows; at most one other batch exists, and it starts at k + 1. */
  lemma AcknowledgedBatchesTile(stream: StreamId, version: nat, ids: set<string>, events: seq<Event>, d: DestinationId)
    requires d in Run(stream, version, ids, events).journal.destinations
    ensures var j := Run(stream, version, ids, events).journal;
            && Tiled(j, d)
            && (forall id, s: nat :: Acknowledged(j, d, id, s) ==>
                  1 <= s <= j.destinations[d] <= |j.outbox| && s - j.batches[id].batch.fromSequence < |j.batches[id].batch.entries| &&
                  j.batches[id].batch.entries[s - j.batches[id].batch.fromSequence] == Entry(s, j.outbox[s - 1].record))
            && (forall id :: IsPending(j, d, id) ==>
                  PendingOf(j, d) == Some(id) && j.batches[id].batch.fromSequence == j.destinations[d] + 1)
  {
    hide *;
    RunsKeepSystemInv(stream, version, ids, events);
    InvGivesJournal(Run(stream, version, ids, events));
    JournalTiles(Run(stream, version, ids, events).journal, d);
  }

  lemma JournalTiles(j: Journal, d: DestinationId)
    requires JournalOk(j) && d in j.destinations
    ensures Tiled(j, d)
    ensures forall id, s: nat :: Acknowledged(j, d, id, s) ==>
              1 <= s <= j.destinations[d] <= |j.outbox| && s - j.batches[id].batch.fromSequence < |j.batches[id].batch.entries| &&
              j.batches[id].batch.entries[s - j.batches[id].batch.fromSequence] == Entry(s, j.outbox[s - 1].record)
    ensures forall id :: IsPending(j, d, id) ==>
              PendingOf(j, d) == Some(id) && j.batches[id].batch.fromSequence == j.destinations[d] + 1
  {
    forall id, s: nat | Acknowledged(j, d, id, s)
      ensures 1 <= s <= j.destinations[d] <= |j.outbox| && s - j.batches[id].batch.fromSequence < |j.batches[id].batch.entries| &&
              j.batches[id].batch.entries[s - j.batches[id].batch.fromSequence] == Entry(s, j.outbox[s - 1].record)
    {
      assert SavedOk(j, id);
    }
    forall id | IsPending(j, d, id)
      ensures PendingOf(j, d) == Some(id) && j.batches[id].batch.fromSequence == j.destinations[d] + 1
    {
      assert SavedOk(j, id);
    }
  }

  /** However late or often a request of this collector arrives, it is never refused as
      a conflict or as malformed: it is accepted, answered again with the stored receipt,
      refused by a server it is not meant for, or refused by a server that is unreadable
      or has run out of revisions. */
  lemma NoConflictForHonestCollector(stream: StreamId, version: nat, ids: set<string>, events: seq<Event>,
                                     server: string, serverVersion: nat, b: Batch, now: int)
    requires server in Run(stream, version, ids, events).servers && b in Run(stream, version, ids, events).requests
    ensures var db := Run(stream, version, ids, events).servers[server].db;
            var answer := AcceptSpec(db, serverVersion, b, now).1;
            && answer != Err(BatchConflict) && answer != Err(SequenceConflict) && answer != Err(InvalidRequest)
            && (answer == Err(DatabaseMismatch) ==> b.databaseId != server)
            && (answer.Ok? ==> Certifies(b, answer.value.receipt))
            && (answer.Ok? && (b.stream, b.id) in db.batches ==> answer.value.receipt == db.batches[(b.stream, b.id)])
  {
    RunsKeepSystemInv(stream, version, ids, events);
    var sys := Run(stream, version, ids, events);
    var j, db := sys.journal, sys.servers[server].db;
    assert ServerOk(j, db) && RequestOk(j, b) && db.databaseId == server;
    OwnRequest(j, db, serverVersion, b, now);
    AcceptShape(db, serverVersion, b, now);
    assert (b.stream, b.id) in db.batches ==> ReceiptOk(j, db, b.id);
    hide AcceptSpec, SystemInv, JournalOk, ServerOk, Run, Ingest, SequenceClash;
  }

  /** Replies to one request all carry the same receipt. */
  lemma RepliesAgree(stream: StreamId, version: nat, ids: set<string>, events: seq<Event>, a: Receipt, b: Receipt)
    requires a in Run(stream, version, ids, events).replies && b in Run(stream, version, ids, events).replies
    requires a.databaseId == b.databaseId && a.batch == b.batch
    ensures a == b
  {
    RunsKeepSystemInv(stream, version, ids, events);
    var sys := Run(stream, version, ids, events);
    assert ReplyOk(sys, a) && ReplyOk(sys, b);
  }

  lemma ReplyCertifies(sys: System, d: DestinationId, r: Receipt)
    requires SystemInv(sys) && r in sys.replies && PendingOf(sys.journal, d) == Some(r.batch)
    ensures Certifies(sys.journal.batches[r.batch].batch, r) && r.inputRevision <= SAFE_INTEGER
  {
    assert ReplyOk(sys, r);
    assert ServerOk(sys.journal, sys.servers[r.databaseId].db);
    assert ReceiptOk(sys.journal, sys.servers[r.databaseId].db, r.batch);
  }

  /** A reply to the request in flight always acknowledges it, unless the server's clock
      was out of range, and moves the cursor to that request's end. No reply, however
      old, is ever met with an acknowledgement gap. */
  lemma ReplyAcknowledges(stream: StreamId, version: nat, ids: set<string>, events: seq<Event>, d: DestinationId, r: Receipt)
    requires r in Run(stream, version, ids, events).replies
    ensures var sys := Run(stream, version, ids, events);
            var j, j' := sys.journal, Happen(sys, Acking(d, r)).journal;
            && AckSpec(j, d, r).1 != Err(AcknowledgementGap)
            && (PendingOf(j, d) == Some(r.batch) && 0 <= r.acceptedAt <= MAX_TIMESTAMP ==>
                  AckSpec(j, d, r).1.Ok? && d in j.destinations && PendingOf(j', d).None? &&
                  j'.destinations == j.destinations[d := j.destinations[d] + |j.batches[r.batch].batch.entries|])
  {
    RunsKeepSystemInv(stream, version, ids, events);
    hide *;
    Acknowledges(Run(stream, version, ids, events), d, r);
  }

  lemma Acknowledges(sys: System, d: DestinationId, r: Receipt)
    requires SystemInv(sys) && r in sys.replies
    ensures var j, j' := sys.journal, Happen(sys, Acking(d, r)).journal;
            && AckSpec(j, d, r).1 != Err(AcknowledgementGap)
            && (PendingOf(j, d) == Some(r.batch) && 0 <= r.acceptedAt <= MAX_TIMESTAMP ==>
                  AckSpec(j, d, r).1.Ok? && d in j.destinations && PendingOf(j', d).None? &&
                  j'.destinations == j.destinations[d := j.destinations[d] + |j.batches[r.batch].batch.entries|])
  {
    hide SystemInv, AckSpec, JournalOk;
    InvGivesJournal(sys);
    AckMovesCursor(sys.journal, d, r);
    if PendingOf(sys.journal, d) == Some(r.batch) {
      ReplyCertifies(sys, d, r);
      SavedDestination(sys.journal, r.batch);
    }
  }

  lemma SavedDestination(j: Journal, id: BatchId)
    requires JournalOk(j) && id in j.batches
    ensures j.batches[id].destination in j.destinations
  {
    assert SavedOk(j, id);
  }

  /** One undisturbed round trip always makes progress: a prepared request that the
      server answers moves the cursor past at least one more outbox row. */
  lemma RoundTripAdvances(stream: StreamId, version: nat, ids: set<string>, events: seq<Event>,
                          d: DestinationId, batchId: BatchId, serverVersion: nat, now: int)
    requires d.databaseId in Run(stream, version, ids, events).servers
    requires PrepareSpec(Run(stream, version, ids, events).journal, d, batchId).1.Ok?
    requires PrepareSpec(Run(stream, version, ids, events).journal, d, batchId).1.value.Some?
    ensures var sys := Run(stream, version, ids, events);
            var b := PrepareSpec(sys.journal, d, batchId).1.value.value;
            var answer := AcceptSpec(sys.servers[d.databaseId].db, serverVersion, b, now).1;
            answer.Ok? && 0 <= answer.value.receipt.acceptedAt <= MAX_TIMESTAMP ==>
              var sent := Happen(Happen(sys, Preparing(d, batchId)), Sending(d));
              var served := Happen(sent, Serving(d.databaseId, Runs.Accepting(serverVersion, b, now)));
              var acked := Happen(served, Acking(d, answer.value.receipt));
              && acked.journal.destinations == sys.journal.destinations[d := b.toSequence]
              && d in sys.journal.destinations && b.toSequence > sys.journal.destinations[d]
  {
    RunsKeepSystemInv(stream, version, ids, events);
    hide Run;
    RoundTrip(Run(stream, version, ids, events), d, batchId, serverVersion, now);
  }

  lemma Sent(sys: System, d: DestinationId, batchId: BatchId)
    requires SystemInv(sys)
    requires PrepareSpec(sys.journal, d, batchId).1.Ok? && PrepareSpec(sys.journal, d, batchId).1.value.Some?
    ensures var sent := Happen(Happen(sys, Preparing(d, batchId)), Sending(d));
            var b := PrepareSpec(sys.journal, d, batchId).1.value.value;
            && SystemInv(sent) && b in sent.requests && PendingOf(sent.journal, d) == Some(b.id) && sent.servers == sys.servers
            && sent.journal.batches[b.id].batch == b && b.stream == sent.journal.stream && b.databaseId == d.databaseId
            && sent.journal.destinations == sys.journal.destinations
            && d in sys.journal.destinations && b.fromSequence == sys.journal.destinations[d] + 1
            && b.toSequence == sys.journal.destinations[d] + |b.entries| && |b.entries| > 0
  {
    assert JournalOk(sys.journal);
    HappenKeepsInv(sys, Preparing(d, batchId));
    var prepared := Happen(sys, Preparing(d, batchId));
    HappenKeepsInv(prepared, Sending(d));
    PreparedSomething(sys.journal, d, batchId);
    assert JournalOk(prepared.journal);
    assert SavedOk(prepared.journal, PendingOf(prepared.journal, d).value);
    hide PrepareSpec, SystemInv, Extends;
  }

  lemma RoundTrip(sys: System, d: DestinationId, batchId: BatchId, version: nat, now: int)
    requires SystemInv(sys) && d.databaseId in sys.servers
    requires PrepareSpec(sys.journal, d, batchId).1.Ok? && PrepareSpec(sys.journal, d, batchId).1.value.Some?
    ensures var b := PrepareSpec(sys.journal, d, batchId).1.value.value;
            var answer := AcceptSpec(sys.servers[d.databaseId].db, version, b, now).1;
            answer.Ok? && 0 <= answer.value.receipt.acceptedAt <= MAX_TIMESTAMP ==>
              var sent := Happen(Happen(sys, Preparing(d, batchId)), Sending(d));
              var served := Happen(sent, Serving(d.databaseId, Runs.Accepting(version, b, now)));
              var acked := Happen(served, Acking(d, answer.value.receipt));
              && acked.journal.destinations == sys.journal.destinations[d := b.toSequence]
              && d in sys.journal.destinations && b.toSequence > sys.journal.destinations[d]
  {
    hide SystemInv, PrepareSpec, AckSpec, AcceptSpec, Runs.Next;
    Sent(sys, d, batchId);
    var b := PrepareSpec(sys.journal, d, batchId).1.value.value;
    var answer := AcceptSpec(sys.servers[d.databaseId].db, version, b, now).1;
    if answer.Ok? {
      var r := answer.value.receipt;
      var sent := Happen(Happen(sys, Preparing(d, batchId)), Sending(d));
      var event := Serving(d.databaseId, Runs.Accepting(version, b, now));
      assert Ours(event.step, sent.journal.stream);
      var served := Happen(sent, event);
      HappenKeepsInv(sent, event);
      assert served.journal == sent.journal && r in served.replies;
      Answered(sent, d, b, version, now);
      ReplyCertifies(served, d, r);
      InvGivesJournal(served);
      AckMovesCursor(served.journal, d, r);
    }
  }

  lemma InvGivesJournal(sys: System)
    requires SystemInv(sys)
    ensures JournalOk(sys.journal)
  {
  }

  lemma Answered(sys: System, d: DestinationId, b: Batch, version: nat, now: int)
    requires SystemInv(sys) && b in sys.requests && d.databaseId in sys.servers
    requires AcceptSpec(sys.servers[d.databaseId].db, version, b, now).1.Ok?
    ensures AcceptSpec(sys.servers[d.databaseId].db, version, b, now).1.value.receipt.batch == b.id
  {
    assert ServerOk(sys.journal, sys.servers[d.databaseId].db) && RequestOk(sys.journal, b);
    hide AcceptSpec, ServerOk, Runs.WorldInv;
    OwnServerOk(sys.journal, sys.servers[d.databaseId].db, version, b, now);
  }

  // ----- what the evidence held says -----

  // An identity is derived from a record's content. content stands for any part of what
  // identities are derived from, and of for reading it off the identity.

  predicate Derived<K(==)>(content: Evidence -> K, of: EvidenceId -> K, r: Record)
  {
    content(r.evidence) == of(r.id)
  }

  /** Every record that is captured, or accepted from anyone, has a derived identity. */
  predicate DerivedEvent<K(==)>(content: Evidence -> K, of: EvidenceId -> K, event: Event)
  {
    match event
    case Recording(item) => Derived(content, of, item.record)
    case Serving(_, step) => step.Accepting? ==> DerivedEntries(content, of, step.batch.entries)
    case _ => true
  }

  predicate DerivedEntries<K(==)>(content: Evidence -> K, of: EvidenceId -> K, entries: seq<Entry>)
  {
    forall i :: 0 <= i < |entries| ==> Derived(content, of, entries[i].record)
  }

  predicate DerivedEvidence<K(==)>(content: Evidence -> K, of: EvidenceId -> K, evidence: map<EvidenceId, Evidence>)
  {
    forall id :: id in evidence ==> content(evidence[id]) == of(id)
  }

  ghost predicate AllDerived<K>(content: Evidence -> K, of: EvidenceId -> K, sys: System)
  {
    && (forall k :: 0 <= k < |sys.journal.outbox| ==> Derived(content, of, sys.journal.outbox[k].record))
    && (forall id :: id in sys.servers ==> DerivedEvidence(content, of, sys.servers[id].db.evidence))
  }

  lemma AdmittedAreDerived<K>(content: Evidence -> K, of: EvidenceId -> K, evidence: map<EvidenceId, Evidence>, entries: seq<Entry>)
    requires DerivedEvidence(content, of, evidence) && DerivedEntries(content, of, entries)
    ensures DerivedEvidence(content, of, Admit(evidence, entries))
  {
    AdmitAdds(evidence, entries);
    forall id | id in Admit(evidence, entries)
      ensures content(Admit(evidence, entries)[id]) == of(id)
    {
      if id !in evidence {
        var i :| 0 <= i < |entries| && entries[i].record.id == id && entries[i].record.evidence == Admit(evidence, entries)[id];
        assert Derived(content, of, entries[i].record);
      }
    }
  }

  lemma AcceptedEvidence(db: Db, version: nat, b: Batch, now: int)
    ensures AcceptSpec(db, version, b, now).0.evidence == db.evidence ||
            AcceptSpec(db, version, b, now).0.evidence == Admit(db.evidence, b.entries)
  {
    hide ValidBatch, Readable, SequenceClash, ResponseFor, Admit, Bind, Enlist, IngestedDeps, IngestedScopes, NextRevision, NewReceipt;
  }

  lemma PublishedEvidence(db: Db, version: nat, w: Work, p: Projection)
    ensures PublishSpec(db, version, w, p).0.evidence == db.evidence
  {
    hide Readable, ValidProjection, FencePasses, InsertFacts, InsertEstimates, PutOutcomes, MarkProcessed, DropRows,
         DropProvenance, NewProvenance, Settle;
    if PublishSpec(db, version, w, p).1 == Published {
      Runs.SettleKeepsRows(ReplaceRows(db, w, p).value, w);
    }
  }

  lemma RebuiltEvidence(db: Db, version: nat)
    ensures ReprocessSpec(db, version).0.evidence == db.evidence
  {
    Runs.StageIsLocal(db, version);
    hide Stage, Readable;
  }

  lemma FailedEvidence(db: Db, w: Work, now: int)
    ensures FailureSpec(db, w, now).evidence == db.evidence
  {
    hide BackOffRows, Power2;
  }

  /** Only acceptance adds evidence. */
  lemma EvidenceAfter(w: Runs.World, step: Runs.Step)
    ensures Runs.Next(w, step).db.evidence == w.db.evidence ||
            (step.Accepting? && Runs.Next(w, step).db.evidence == Admit(w.db.evidence, step.batch.entries))
  {
    hide AcceptSpec, PublishSpec, ReprocessSpec, FailureSpec, Runs.Within, WorkAt, Admit;
    match step
    case Accepting(version, b, now) => AcceptedEvidence(w.db, version, b, now);
    case Publishing(version, load, p) => PublishedEvidence(w.db, version, load.work, p);
    case Reprocessing(version) => RebuiltEvidence(w.db, version);
    case Failing(work, now) => FailedEvidence(w.db, work, now);
    case _ =>
  }

  lemma HappeningKeepsDerived<K>(content: Evidence -> K, of: EvidenceId -> K, sys: System, event: Event)
    requires AllDerived(content, of, sys) && DerivedEvent(content, of, event)
    ensures AllDerived(content, of, Happen(sys, event))
  {
    if event.Serving? {
      if event.server in sys.servers {
        var w := sys.servers[event.server];
        EvidenceAfter(w, event.step);
        if event.step.Accepting? {
          AdmittedAreDerived(content, of, w.db.evidence, event.step.batch.entries);
        }
      }
      hide Runs.Next, DerivedEvidence, Derived, Replies;
    } else {
      hide PrepareSpec, AckSpec, DerivedEvidence, Derived;
      forall d, id: BatchId
        ensures PrepareSpec(sys.journal, d, id).0.outbox == sys.journal.outbox
      {
        PreparedOutbox(sys.journal, d, id);
      }
      forall d, r
        ensures AckSpec(sys.journal, d, r).0.outbox == sys.journal.outbox
      {
        AckedOutbox(sys.journal, d, r);
      }
    }
  }

  lemma PreparedOutbox(j: Journal, d: DestinationId, id: BatchId)
    ensures PrepareSpec(j, d, id).0.outbox == j.outbox && PrepareSpec(j, d, id).0.stream == j.stream
  {
    hide EncodeNext, NewBatch;
  }

  lemma AckedOutbox(j: Journal, d: DestinationId, r: Receipt)
    ensures AckSpec(j, d, r).0.outbox == j.outbox && AckSpec(j, d, r).0.stream == j.stream
  {
    hide ValidReceipt;
  }

  lemma {:induction false} RunsKeepDerived<K>(content: Evidence -> K, of: EvidenceId -> K,
                                              stream: StreamId, version: nat, ids: set<string>, events: seq<Event>)
    requires forall k :: 0 <= k < |events| ==> DerivedEvent(content, of, events[k])
    ensures AllDerived(content, of, Run(stream, version, ids, events))
  {
    if events != [] {
      var front := events[..|events| - 1];
      RunsKeepDerived(content, of, stream, version, ids, front);
      hide DerivedEvent, AllDerived, Happen;
      HappeningKeepsDerived(content, of, Run(stream, version, ids, front), events[|events| - 1]);
    }
  }

  /** The evidence a server holds for a delivered sequence has the content of that outbox
      row, in all that identities are derived from, whoever delivered it first. */
  lemma DeliveredContentIsRecorded<K>(content: Evidence -> K, of: EvidenceId -> K, stream: StreamId, version: nat,
                                      ids: set<string>, events: seq<Event>, server: string, s: nat)
    requires forall k :: 0 <= k < |events| ==> DerivedEvent(content, of, events[k])
    requires server in Run(stream, version, ids, events).servers
    requires (stream, s) in Run(stream, version, ids, events).servers[server].db.items
    ensures var sys := Run(stream, version, ids, events);
            var db := sys.servers[server].db;
            && 1 <= s <= |sys.journal.outbox| && db.items[(stream, s)] in db.evidence
            && content(db.evidence[db.items[(stream, s)]]) == content(sys.journal.outbox[s - 1].record.evidence)
  {
    var sys := Run(stream, version, ids, events);
    RunsKeepSystemInv(stream, version, ids, events);
    RunsKeepDerived(content, of, stream, version, ids, events);
    StreamStays(stream, version, ids, events);
    hide Run;
    assert Runs.WorldInv(sys.servers[server]) && ServerOk(sys.journal, sys.servers[server].db);
    ItemsHaveEvidence(sys.servers[server].db, stream);
    hide Inv;
    assert Mirrors(sys.journal, sys.servers[server].db, s);
    assert Derived(content, of, sys.journal.outbox[s - 1].record);
  }

  lemma {:induction false} StreamStays(stream: StreamId, version: nat, ids: set<string>, events: seq<Event>)
    ensures Run(stream, version, ids, events).journal.stream == stream
  {
    hide Happen;
    if events != [] {
      StreamStays(stream, version, ids, events[..|events| - 1]);
      HappeningKeepsStream(Run(stream, version, ids, events[..|events| - 1]), events[|events| - 1]);
    }
  }

  lemma HappeningKeepsStream(sys: System, event: Event)
    ensures Happen(sys, event).journal.stream == sys.journal.stream
  {
    if event.Preparing? {
      PreparedOutbox(sys.journal, event.destination, event.batchId);
    } else if event.Acking? {
      AckedOutbox(sys.journal, event.destination, event.receipt);
    }
    hide PrepareSpec, AckSpec, Runs.Next, Replies, Recorded;
  }
}
