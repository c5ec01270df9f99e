/** What a client is told about a batch: one status for each of its records, in
    sequence order, whether the batch was just accepted or had been before. */
module StoreAnswers {
  import opened Basics
  import opened Reachability
  import opened DataModel
  import opened StoreSpec
  import opened StoreInvariant
  import opened StoreHistory
  import opened StoreRuns
  import opened StoreTheorems

  // ----- what a receipt stands for -----

  /** The j-th record of b is bound to its sequence and listed under its batch. */
  predicate ItemBound(items: map<(StreamId, nat), EvidenceId>, rows: map<(StreamId, BatchId, nat), EvidenceId>,
                      b: Batch, j: nat)
    requires j < |b.entries|
  {
    var id := b.entries[j].record.id;
    && (b.stream, b.fromSequence + j) in items && items[(b.stream, b.fromSequence + j)] == id
    && (b.stream, b.id, b.fromSequence + j) in rows && rows[(b.stream, b.id, b.fromSequence + j)] == id
  }

  predicate AllBound(db: Db, b: Batch)
  {
    forall j :: 0 <= j < |b.entries| ==> ItemBound(db.items, db.batchItems, b, j)
  }

  /** The stored receipt is that of b, every record of which is bound. */
  predicate ReceiptOf(db: Db, r: Receipt, b: Batch)
  {
    && ValidBatch(b) && b.databaseId == db.databaseId
    && r == Receipt(db.databaseId, b.stream, b.id, b.hash, b.fromSequence, b.toSequence, |b.entries|, r.acceptedAt, r.inputRevision)
    && AllBound(db, b)
  }

  predicate AcceptedBy(steps: seq<Step>, b: Batch)
  {
    exists i :: 0 <= i < |steps| && steps[i].Accepting? && steps[i].batch == b
  }

  /** Each receipt is that of a batch some step of the run brought. */
  ghost predicate ReceiptsTraced(db: Db, steps: seq<Step>)
  {
    forall k :: k in db.batches ==>
      exists b :: AcceptedBy(steps, b) && k == (b.stream, b.id) && ReceiptOf(db, db.batches[k], b)
  }

  /** Rows only join; none is rebound. */
  predicate RowsJoin(a: Db, b: Db)
  {
    && a.databaseId == b.databaseId
    && (forall k :: k in a.items ==> k in b.items && b.items[k] == a.items[k])
    && (forall k :: k in a.batchItems && (k.0, k.1) in a.batches ==> k in b.batchItems && b.batchItems[k] == a.batchItems[k])
  }

  lemma ReceiptStays(a: Db, b: Db, k: (StreamId, BatchId), of: Batch)
    requires RowsJoin(a, b) && k in a.batches && k == (of.stream, of.id) && ReceiptOf(a, a.batches[k], of)
    ensures ReceiptOf(b, a.batches[k], of)
  {
    forall j | 0 <= j < |of.entries|
      ensures ItemBound(b.items, b.batchItems, of, j)
    {
      assert ItemBound(a.items, a.batchItems, of, j);
    }
  }

  lemma TracedStays(a: Db, b: Db, steps: seq<Step>, step: Step)
    requires ReceiptsTraced(a, steps) && RowsJoin(a, b)
    ensures forall k :: k in a.batches ==>
              exists of :: AcceptedBy(steps + [step], of) && k == (of.stream, of.id) && ReceiptOf(b, a.batches[k], of)
  {
    hide ReceiptOf, RowsJoin;
    forall k | k in a.batches
      ensures exists of :: AcceptedBy(steps + [step], of) && k == (of.stream, of.id) && ReceiptOf(b, a.batches[k], of)
    {
      var of :| AcceptedBy(steps, of) && k == (of.stream, of.id) && ReceiptOf(a, a.batches[k], of);
      var i :| 0 <= i < |steps| && steps[i].Accepting? && steps[i].batch == of;
      assert (steps + [step])[i] == steps[i];
      ReceiptStays(a, b, k, of);
    }
  }

  lemma BoundAsRead(items: map<(StreamId, nat), EvidenceId>, b: Batch, j: nat)
    requires ValidBatch(b) && !SequenceClash(items, b.stream, b.entries) && j < |b.entries|
    ensures var k := (b.stream, b.fromSequence + j);
            k in Bind(items, b.stream, b.entries) && Bind(items, b.stream, b.entries)[k] == b.entries[j].record.id
  {
    hide Bind;
    var k := (b.stream, b.fromSequence + j);
    BindBinds(items, b.stream, b.entries);
    assert k == (b.stream, b.entries[j].sequence);
    if k !in items {
      var i :| 0 <= i < |b.entries| && k == (b.stream, b.entries[i].sequence) &&
               Bind(items, b.stream, b.entries)[k] == b.entries[i].record.id;
      assert i == j;
    }
  }

  lemma {:induction false} ListedAsRead(rows: map<(StreamId, BatchId, nat), EvidenceId>, stream: StreamId, batch: BatchId,
                                        entries: seq<Entry>, from: nat)
    requires forall i :: 0 <= i < |entries| ==> entries[i].sequence == from + i
    ensures forall q :: from <= q < from + |entries| ==>
              (stream, batch, q) in Enlist(rows, stream, batch, entries) &&
              Enlist(rows, stream, batch, entries)[(stream, batch, q)] == entries[q - from].record.id
    ensures forall k :: k in rows && (k.0, k.1) != (stream, batch) ==>
              k in Enlist(rows, stream, batch, entries) && Enlist(rows, stream, batch, entries)[k] == rows[k]
  {
    if entries != [] {
      var front := entries[..|entries| - 1];
      ListedAsRead(rows, stream, batch, front, from);
      forall q | from <= q < from + |entries|
        ensures (stream, batch, q) in Enlist(rows, stream, batch, entries)
        ensures Enlist(rows, stream, batch, entries)[(stream, batch, q)] == entries[q - from].record.id
      {
        if q < from + |front| {
          assert front[q - from] == entries[q - from];
        }
      }
    }
  }

  lemma IngestBinds(db: Db, b: Batch, now: int)
    requires ValidBatch(b) && !SequenceClash(db.items, b.stream, b.entries)
    ensures AllBound(Ingest(db, b, now), b)
  {
    hide Admit, IngestedDeps, IngestedScopes, NextRevision, Bind, Enlist, SequenceClash;
    ListedAsRead(db.batchItems, b.stream, b.id, b.entries, b.fromSequence);
    var db' := Ingest(db, b, now);
    forall j | 0 <= j < |b.entries|
      ensures ItemBound(db'.items, db'.batchItems, b, j)
    {
      BoundAsRead(db.items, b, j);
      assert (b.stream, b.id, b.fromSequence + j) in db'.batchItems;
    }
  }

  lemma IngestJoins(db: Db, b: Batch, now: int)
    requires ValidBatch(b) && (b.stream, b.id) !in db.batches && !SequenceClash(db.items, b.stream, b.entries)
    requires b.databaseId == db.databaseId
    ensures RowsJoin(db, Ingest(db, b, now))
    ensures Ingest(db, b, now).batches == db.batches[(b.stream, b.id) := NewReceipt(db, b, now)]
    ensures ReceiptOf(Ingest(db, b, now), NewReceipt(db, b, now), b)
  {
    IngestBinds(db, b, now);
    hide Admit, IngestedDeps, IngestedScopes, NextRevision, Bind, Enlist, SequenceClash, AllBound;
    BindBinds(db.items, b.stream, b.entries);
    ListedAsRead(db.batchItems, b.stream, b.id, b.entries, b.fromSequence);
  }

  lemma AcceptingTraces(db: Db, version: nat, b: Batch, now: int, steps: seq<Step>)
    requires ReceiptsTraced(db, steps)
    ensures ReceiptsTraced(AcceptSpec(db, version, b, now).0, steps + [Accepting(version, b, now)])
  {
    hide Ingest, ResponseFor, Readable, ReceiptOf, RowsJoin, ValidBatch, SequenceClash;
    var step := Accepting(version, b, now);
    var db' := AcceptSpec(db, version, b, now).0;
    assert RowsJoin(db, db) by { JoinsItself(db); }
    TracedStays(db, db, steps, step);
    if db' != db {
      IngestJoins(db, b, now);
      TracedStays(db, db', steps, step);
      assert (steps + [step])[|steps|] == step;
      assert AcceptedBy(steps + [step], b);
    }
  }

  lemma JoinsItself(db: Db)
    ensures RowsJoin(db, db)
  {
  }

  predicate SameIngestion(a: Db, b: Db)
  {
    a.databaseId == b.databaseId && a.items == b.items && a.batchItems == b.batchItems && a.batches == b.batches
  }

  lemma PublishKeepsIngestion(db: Db, version: nat, w: Work, p: Projection)
    ensures SameIngestion(db, PublishSpec(db, version, w, p).0)
  {
    hide FencePasses, Readable, ValidProjection, InsertFacts, InsertEstimates, DropRows, DropProvenance, NewProvenance,
         PutOutcomes, MarkProcessed, Settle;
    if PublishSpec(db, version, w, p).1 == Published {
      SettleKeepsRows(ReplaceRows(db, w, p).value, w);
    }
  }

  lemma ReprocessKeepsIngestion(db: Db, version: nat)
    ensures SameIngestion(db, ReprocessSpec(db, version).0)
  {
    hide Stage, Readable, ForgiveAll;
    StageIsLocal(db, version);
  }

  /** Only acceptance writes the tables of ingestion. */
  lemma OtherStepsKeepIngestion(w: World, step: Step)
    requires !step.Accepting?
    ensures SameIngestion(w.db, Next(w, step).db)
  {
    hide WorkAt, PublishSpec, ReprocessSpec, Power2, BackOffRows, Within;
    match step
    case Publishing(version, load, p) => PublishKeepsIngestion(w.db, version, load.work, p);
    case Reprocessing(version) => ReprocessKeepsIngestion(w.db, version);
    case _ =>
  }

  lemma NextTraces(w: World, step: Step, steps: seq<Step>)
    requires ReceiptsTraced(w.db, steps)
    ensures ReceiptsTraced(Next(w, step).db, steps + [step])
  {
    if step.Accepting? {
      AcceptingTraces(w.db, step.version, step.batch, step.now, steps);
      hide AcceptSpec, ReceiptsTraced;
    } else {
      OtherStepsKeepIngestion(w, step);
      hide Next, ReceiptOf;
      assert RowsJoin(w.db, Next(w, step).db);
      TracedStays(w.db, Next(w, step).db, steps, step);
    }
  }

  lemma {:induction false} ReceiptsAreTraced(databaseId: string, version: nat, steps: seq<Step>)
    ensures ReceiptsTraced(Run(databaseId, version, steps).db, steps)
  {
    if steps != [] {
      var front := steps[..|steps| - 1];
      assert steps == front + [steps[|steps| - 1]];
      hide Next, ReceiptsTraced;
      ReceiptsAreTraced(databaseId, version, front);
      NextTraces(Run(databaseId, version, front), steps[|steps| - 1], front);
    }
  }

  // ----- the answer -----

  lemma {:induction false} ItemsInOrder(db: Db, stream: StreamId, batch: BatchId, from: nat, count: nat)
    requires forall q :: from <= q < from + count ==> (stream, batch, q) in db.batchItems
    ensures |StatusItems(db, stream, batch, from, count)| == count
    ensures forall q :: from <= q < from + count ==>
              StatusItems(db, stream, batch, from, count)[q - from] == StatusOf(db, db.batchItems[(stream, batch, q)])
  {
    hide StatusOf;
    if count > 0 {
      ItemsInOrder(db, stream, batch, from, count - 1);
    }
  }

  /** The status of a record, spelled out on the tables. */
  predicate StatusTells(db: Db, id: EvidenceId, status: Status)
  {
    && id in db.evidence && db.evidence[id].scope in db.scopes
    && var row := db.scopes[db.evidence[id].scope];
    && status.id == id
    && (status.outcome.Some? <==> row.processed == row.revision && row.generation == db.meta.target)
    && (status.outcome.Some? ==> (db.meta.target, id) in db.outcomes && status.outcome.value == db.outcomes[(db.meta.target, id)])
  }

  /** In a reachable store a record of a clean scope has its outcome. */
  lemma CleanRecordsHaveOutcomes(databaseId: string, version: nat, steps: seq<Step>, id: EvidenceId)
    requires id in Run(databaseId, version, steps).db.evidence
    ensures var db := Run(databaseId, version, steps).db; StatusTells(db, id, StatusOf(db, id))
  {
    var w := Run(databaseId, version, steps);
    var s := w.db.evidence[id].scope;
    RunsKeepWorldInv(databaseId, version, steps);
    assert s in w.db.scopes by {
      assert DerivedOk(w.db);
      assert s in ScopesOf(w.db.evidence);
    }
    if Clean(w.db, s) {
      CleanScopesAreCurrent(databaseId, version, steps, s);
      hide Run, WorldInv;
      ReachableIsClosed(w.db.deps, {s});
      assert id in w.last[s].load.work.records && w.last[s].load.work.records[id].scope == s;
    }
  }

  lemma ReceiptAnswers(db: Db, b: Batch)
    requires (b.stream, b.id) in db.batches && ReceiptOf(db, db.batches[(b.stream, b.id)], b)
    ensures var r := ResponseFor(db, db.batches[(b.stream, b.id)]);
            && |r.items| == |b.entries|
            && forall i :: 0 <= i < |b.entries| ==> r.items[i] == StatusOf(db, b.entries[i].record.id)
  {
    hide StatusOf;
    forall q | b.fromSequence <= q < b.fromSequence + |b.entries|
      ensures (b.stream, b.id, q) in db.batchItems
      ensures db.batchItems[(b.stream, b.id, q)] == b.entries[q - b.fromSequence].record.id
    {
      assert ItemBound(db.items, db.batchItems, b, q - b.fromSequence);
    }
    ItemsInOrder(db, b.stream, b.id, b.fromSequence, |b.entries|);
    forall i | 0 <= i < |b.entries|
      ensures ResponseFor(db, db.batches[(b.stream, b.id)]).items[i] == StatusOf(db, b.entries[i].record.id)
    {
      var q := b.fromSequence + i;
      assert (b.stream, b.id, q) in db.batchItems;
    }
  }

  lemma HashOfReceipt(db: Db, r: Receipt, b: Batch)
    requires ReceiptOf(db, r, b)
    ensures r.hash == b.hash
  {
  }

  /** A batch answered before was the same batch: its request hash is stored with it. */
  lemma AnsweredFromItsReceipt(databaseId: string, version: nat, steps: seq<Step>, v: nat, b: Batch, now: int)
    requires AcceptSpec(Run(databaseId, version, steps).db, v, b, now).1.Ok?
    requires forall i :: 0 <= i < |steps| && steps[i].Accepting? && steps[i].batch.hash == b.hash ==> steps[i].batch == b
    ensures var (db', r) := AcceptSpec(Run(databaseId, version, steps).db, v, b, now);
            && (b.stream, b.id) in db'.batches && ReceiptOf(db', db'.batches[(b.stream, b.id)], b)
            && r == Ok(ResponseFor(db', db'.batches[(b.stream, b.id)]))
  {
    var db := Run(databaseId, version, steps).db;
    ReceiptsAreTraced(databaseId, version, steps);
    hide Run, Ingest, ResponseFor, Readable, ReceiptOf, ValidBatch, SequenceClash;
    if (b.stream, b.id) in db.batches {
      var of :| AcceptedBy(steps, of) && (b.stream, b.id) == (of.stream, of.id) && ReceiptOf(db, db.batches[(b.stream, b.id)], of);
      HashOfReceipt(db, db.batches[(b.stream, b.id)], of);
      assert of == b;
    } else {
      IngestJoins(db, b, now);
    }
  }

  lemma BoundEvidence(db: Db, b: Batch, i: nat)
    requires ReceiptsBacked(db) && AllBound(db, b) && i < |b.entries|
    ensures (b.stream, b.fromSequence + i) in db.items && db.items[(b.stream, b.fromSequence + i)] == b.entries[i].record.id
    ensures b.entries[i].record.id in db.evidence
  {
    assert ItemBound(db.items, db.batchItems, b, i);
    assert db.items[(b.stream, b.fromSequence + i)] in db.items.Values;
  }

  /** The status is that of the record bound to the i-th sequence of b. */
  predicate RecordAnswered(db: Db, b: Batch, i: nat, status: Status)
    requires i < |b.entries|
  {
    && (b.stream, b.fromSequence + i) in db.items
    && db.items[(b.stream, b.fromSequence + i)] == b.entries[i].record.id
    && StatusTells(db, b.entries[i].record.id, status)
  }

  lemma BoundRecordsAreAnswered(databaseId: string, version: nat, steps: seq<Step>, b: Batch)
    requires AllBound(Run(databaseId, version, steps).db, b)
    ensures var db := Run(databaseId, version, steps).db;
            forall i :: 0 <= i < |b.entries| ==> RecordAnswered(db, b, i, StatusOf(db, b.entries[i].record.id))
  {
    RunsKeepWorldInv(databaseId, version, steps);
    assert ReceiptsBacked(Run(databaseId, version, steps).db);
    hide *;
    forall i | 0 <= i < |b.entries|
      ensures var db := Run(databaseId, version, steps).db; RecordAnswered(db, b, i, StatusOf(db, b.entries[i].record.id))
    {
      BoundRecordIsAnswered(databaseId, version, steps, b, i);
    }
  }

  lemma BoundRecordIsAnswered(databaseId: string, version: nat, steps: seq<Step>, b: Batch, i: nat)
    requires AllBound(Run(databaseId, version, steps).db, b) && ReceiptsBacked(Run(databaseId, version, steps).db)
    requires i < |b.entries|
    ensures var db := Run(databaseId, version, steps).db; RecordAnswered(db, b, i, StatusOf(db, b.entries[i].record.id))
  {
    hide Run, StatusTells, StatusOf, AllBound, ReceiptsBacked;
    BoundEvidence(Run(databaseId, version, steps).db, b, i);
    CleanRecordsHaveOutcomes(databaseId, version, steps, b.entries[i].record.id);
  }

  lemma ReceiptBinds(db: Db, r: Receipt, b: Batch)
    requires ReceiptOf(db, r, b)
    ensures AllBound(db, b)
  {
  }

  /** Whatever happened before, an accepted or repeated batch is answered with the
      status of each of its records, in order: pending exactly while the record's scope
      is, and otherwise the outcome stored for the target generation. Requests are
      told apart by their hashes. */
  lemma EveryRecordIsAnswered(databaseId: string, version: nat, steps: seq<Step>, v: nat, b: Batch, now: int)
    requires AcceptSpec(Run(databaseId, version, steps).db, v, b, now).1.Ok?
    requires forall i :: 0 <= i < |steps| && steps[i].Accepting? && steps[i].batch.hash == b.hash ==> steps[i].batch == b
    ensures var (db', r) := AcceptSpec(Run(databaseId, version, steps).db, v, b, now);
            && |r.value.items| == |b.entries|
            && forall i :: 0 <= i < |b.entries| ==> RecordAnswered(db', b, i, r.value.items[i])
  {
    var step := Accepting(v, b, now);
    var db' := AcceptSpec(Run(databaseId, version, steps).db, v, b, now).0;
    assert (steps + [step])[..|steps|] == steps;
    assert db' == Run(databaseId, version, steps + [step]).db;
    AnsweredFromItsReceipt(databaseId, version, steps, v, b, now);
    hide *;
    ReceiptBinds(db', db'.batches[(b.stream, b.id)], b);
    ReceiptAnswers(db', b);
    BoundRecordsAreAnswered(databaseId, version, steps + [step], b);
  }

  /** The receipt answered names the batch's own range, size and hash. A repeated batch
      gets the receipt of its first acceptance, and nothing is written. */
  lemma ReceiptIsTheBatchs(databaseId: string, version: nat, steps: seq<Step>, v: nat, b: Batch, now: int)
    requires AcceptSpec(Run(databaseId, version, steps).db, v, b, now).1.Ok?
    requires forall i :: 0 <= i < |steps| && steps[i].Accepting? && steps[i].batch.hash == b.hash ==> steps[i].batch == b
    ensures var db := Run(databaseId, version, steps).db;
            var (db', r) := AcceptSpec(db, v, b, now);
            var receipt := r.value.receipt;
            && receipt.stream == b.stream && receipt.batch == b.id && receipt.hash == b.hash
            && receipt.databaseId == b.databaseId == db.databaseId
            && receipt.fromSequence == b.fromSequence && receipt.toSequence == b.toSequence && receipt.accepted == |b.entries|
            && (b.stream, b.id) in db'.batches && db'.batches[(b.stream, b.id)] == receipt
            && r.value.generation == db'.meta.target && r.value.inputRevision == db'.meta.inputRevision
            && (if (b.stream, b.id) in db.batches then db' == db
                else receipt.acceptedAt == now && receipt.inputRevision == db'.meta.inputRevision &&
                     db'.meta.inputRevision == db.meta.inputRevision +
                       (if exists i :: 0 <= i < |b.entries| && b.entries[i].record.id !in db.evidence then 1 else 0))
  {
    var db := Run(databaseId, version, steps).db;
    AnsweredFromItsReceipt(databaseId, version, steps, v, b, now);
    AdmitAdds(db.evidence, b.entries);
    if FreshIds(db, b) != {} {
      var id :| id in FreshIds(db, b);
      assert exists i :: 0 <= i < |b.entries| && b.entries[i].record.id == id && id !in db.evidence;
    }
    if i :| 0 <= i < |b.entries| && b.entries[i].record.id !in db.evidence {
      assert b.entries[i].record.id in FreshIds(db, b);
    }
    hide Run, Readable, AllBound, ValidBatch, SequenceClash, FreshIds, IngestedScopes, IngestedDeps, Admit, Bind, Enlist;
  }

  /** A refusal changes nothing and has its own cause; what is not refused has none. */
  lemma RefusedForCause(db: Db, version: nat, b: Batch, now: int)
    requires ValidBatch(b) && Readable(db, version) && b.databaseId == db.databaseId
    ensures var (db', r) := AcceptSpec(db, version, b, now);
            && (r.Err? ==> db' == db)
            && (r == Err(BatchConflict) <==> (b.stream, b.id) in db.batches && db.batches[(b.stream, b.id)].hash != b.hash)
            && (r == Err(RevisionLimit) <==> (b.stream, b.id) !in db.batches && db.meta.inputRevision == SAFE_INTEGER)
            && (r == Err(SequenceConflict) <==>
                  (b.stream, b.id) !in db.batches && db.meta.inputRevision < SAFE_INTEGER &&
                  exists q :: b.fromSequence <= q <= b.toSequence && (b.stream, q) in db.items &&
                              db.items[(b.stream, q)] != b.entries[q - b.fromSequence].record.id)
            && (r.Ok? || r.error in {BatchConflict, RevisionLimit, SequenceConflict})
  {
    hide Ingest, ResponseFor;
    if SequenceClash(db.items, b.stream, b.entries) {
      var i :| 0 <= i < |b.entries| && (b.stream, b.entries[i].sequence) in db.items &&
               db.items[(b.stream, b.entries[i].sequence)] != b.entries[i].record.id;
      var q := b.fromSequence + i;
      assert (b.stream, q) in db.items;
    }
    if q :| b.fromSequence <= q <= b.toSequence && (b.stream, q) in db.items &&
            db.items[(b.stream, q)] != b.entries[q - b.fromSequence].record.id {
      assert b.entries[q - b.fromSequence].sequence == q;
    }
  }
}
