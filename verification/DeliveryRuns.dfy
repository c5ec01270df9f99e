/** The collector's journal against the servers it delivers to. Requests and replies
    may be lost, repeated, reordered or delayed without bound, processes may restart
    between any two events, and other collectors use the same servers meanwhile. */
module DeliveryRuns {
  import opened Basics
  import opened DataModel
  import opened StoreSpec
  import opened StoreInvariant
  import opened Delivery
  import Runs = StoreRuns

  /** Messages are never removed: losing one is never using it, repeating one is
      using it again. Everything else is durable, so a restart changes nothing. */
  datatype System = System(journal: Journal, servers: map<string, Runs.World>,
                           requests: set<Batch>, replies: set<Receipt>)

  datatype Event =
    | Recording(item: Item)
    | Resolving(destination: DestinationId)
    | Preparing(destination: DestinationId, batchId: BatchId)
    | Sending(destination: DestinationId)
    | Serving(server: string, step: Runs.Step)
    | Acking(destination: DestinationId, receipt: Receipt)

  predicate Ours(step: Runs.Step, stream: StreamId)
  {
    step.Accepting? && step.batch.stream == stream
  }

  /** Only requests of this collector carry its stream; any reply may reach any
      acknowledgement. */
  predicate Possible(sys: System, event: Event)
  {
    match event
    case Serving(server, step) =>
      server in sys.servers && (Ours(step, sys.journal.stream) ==> step.batch in sys.requests)
    case Acking(_, receipt) => receipt in sys.replies
    case _ => true
  }

  ghost function Replies(db: Db, step: Runs.Step, stream: StreamId): set<Receipt>
  {
    if Ours(step, stream) then
      var answer := AcceptSpec(db, step.version, step.batch, step.now).1;
      if answer.Ok? then {answer.value.receipt} else {}
    else {}
  }

  ghost function Happen(sys: System, event: Event): System
  {
    if !Possible(sys, event) then sys
    else
      match event
      case Recording(item) => sys.(journal := RecordSpec(sys.journal, item).0)
      case Resolving(d) => sys.(journal := ResolveSpec(sys.journal, d))
      case Preparing(d, id) => sys.(journal := PrepareSpec(sys.journal, d, id).0)
      case Sending(d) =>
        (match PendingOf(sys.journal, d)
         case None => sys
         case Some(id) => sys.(requests := sys.requests + {sys.journal.batches[id].batch}))
      case Serving(server, step) =>
        sys.(servers := sys.servers[server := Runs.Next(sys.servers[server], step)],
             replies := sys.replies + Replies(sys.servers[server].db, step, sys.journal.stream))
      case Acking(d, receipt) => sys.(journal := AckSpec(sys.journal, d, receipt).0)
  }

  ghost function Start(stream: StreamId, version: nat, ids: set<string>): System
  {
    System(Journal(stream, [], map[], map[]), map id | id in ids :: Runs.World(Initial(id, version), {}, map[]), {}, {})
  }

  ghost function Run(stream: StreamId, version: nat, ids: set<string>, events: seq<Event>): System
  {
    if events == [] then Start(stream, version, ids)
    else Happen(Run(stream, version, ids, events[..|events| - 1]), events[|events| - 1])
  }

  // ----- the invariant of every run -----

  /** The last sequence of d's deliveries that the server has taken. */
  ghost function End(j: Journal, d: DestinationId, db: Db): nat
    requires d in j.destinations
  {
    match PendingOf(j, d)
    case Some(id) => if (j.stream, id) in db.batches then j.batches[id].batch.toSequence else j.destinations[d]
    case None => j.destinations[d]
  }

  /** The server maps this stream's sequence s to the evidence of outbox row s. */
  predicate Mirrors(j: Journal, db: Db, s: nat)
  {
    1 <= s <= |j.outbox| && (j.stream, s) in db.items && db.items[(j.stream, s)] == j.outbox[s - 1].record.id
  }

  ghost predicate Reaches(j: Journal, db: Db, d: DestinationId)
    requires d in j.destinations
  {
    forall s: nat :: 1 <= s <= End(j, d, db) ==> Mirrors(j, db, s)
  }

  ghost predicate Explained(j: Journal, db: Db, s: nat)
  {
    exists d :: d in j.destinations && d.databaseId == db.databaseId && s <= End(j, d, db)
  }

  /** Each receipt the server holds for this stream answers a saved request. */
  predicate ReceiptOk(j: Journal, db: Db, id: BatchId)
    requires (j.stream, id) in db.batches
  {
    id in j.batches && j.batches[id].destination.databaseId == db.databaseId &&
    Certifies(j.batches[id].batch, db.batches[(j.stream, id)]) && db.batches[(j.stream, id)].inputRevision <= SAFE_INTEGER
  }

  /** A receipt the collector holds is the one the server stored. */
  predicate Honoured(j: Journal, db: Db, id: BatchId)
    requires id in j.batches
  {
    j.batches[id].destination.databaseId == db.databaseId && j.batches[id].receipt.Some? ==>
      (j.stream, id) in db.batches && db.batches[(j.stream, id)] == j.batches[id].receipt.value
  }

  ghost predicate ServerOk(j: Journal, db: Db)
  {
    && (forall s: nat :: (j.stream, s) in db.items ==> Mirrors(j, db, s) && Explained(j, db, s))
    && (forall d :: d in j.destinations && d.databaseId == db.databaseId ==> Reaches(j, db, d))
    && (forall id :: (j.stream, id) in db.batches ==> ReceiptOk(j, db, id))
    && (forall id :: id in j.batches ==> Honoured(j, db, id))
  }

  predicate RequestOk(j: Journal, b: Batch)
  {
    b.id in j.batches && j.batches[b.id].batch == b
  }

  predicate ReplyOk(sys: System, r: Receipt)
  {
    && r.stream == sys.journal.stream && r.databaseId in sys.servers
    && (r.stream, r.batch) in sys.servers[r.databaseId].db.batches
    && sys.servers[r.databaseId].db.batches[(r.stream, r.batch)] == r
  }

  ghost predicate SystemInv(sys: System)
  {
    && JournalOk(sys.journal)
    && (forall id :: id in sys.servers ==>
          Runs.WorldInv(sys.servers[id]) && sys.servers[id].db.databaseId == id && ServerOk(sys.journal, sys.servers[id].db))
    && (forall b :: b in sys.requests ==> RequestOk(sys.journal, b))
    && (forall r :: r in sys.replies ==> ReplyOk(sys, r))
  }

  // ----- events of the journal -----

  /** The journal grew without acknowledging anything. */
  predicate Extends(j: Journal, j': Journal)
  {
    && j'.stream == j.stream && j.outbox <= j'.outbox
    && (forall d :: d in j.destinations ==> d in j'.destinations && j'.destinations[d] == j.destinations[d])
    && (forall d :: d in j'.destinations && d !in j.destinations ==> j'.destinations[d] == 0)
    && (forall id :: id in j.batches ==> id in j'.batches && j'.batches[id] == j.batches[id])
    && (forall id :: id in j'.batches && id !in j.batches ==> j'.batches[id].receipt.None?)
  }

  lemma EndUnmoved(j: Journal, j': Journal, db: Db, d: DestinationId)
    requires JournalOk(j) && JournalOk(j') && Extends(j, j') && ServerOk(j, db) && d in j'.destinations
    ensures End(j', d, db) == if d in j.destinations then End(j, d, db) else 0
  {
    if PendingOf(j', d).Some? && PendingOf(j', d).value in j.batches {
      assert SavedOk(j, PendingOf(j', d).value);
      assert IsPending(j, d, PendingOf(j', d).value);
    } else if d in j.destinations && PendingOf(j, d).Some? {
      assert IsPending(j', d, PendingOf(j, d).value);
    }
  }

  lemma ServerFollows(j: Journal, j': Journal, db: Db)
    requires JournalOk(j) && JournalOk(j') && Extends(j, j') && ServerOk(j, db)
    ensures ServerOk(j', db)
  {
    hide JournalOk, End;
    forall s: nat | (j.stream, s) in db.items
      ensures Mirrors(j', db, s) && Explained(j', db, s)
    {
      assert Mirrors(j, db, s);
      var d :| d in j.destinations && d.databaseId == db.databaseId && s <= End(j, d, db);
      EndUnmoved(j, j', db, d);
    }
    forall d | d in j'.destinations && d.databaseId == db.databaseId
      ensures Reaches(j', db, d)
    {
      EndUnmoved(j, j', db, d);
      if d in j.destinations {
        assert Reaches(j, db, d);
        assert forall s: nat :: Mirrors(j, db, s) ==> Mirrors(j', db, s);
      }
    }
    forall id | (j.stream, id) in db.batches
      ensures ReceiptOk(j', db, id)
    {
      assert ReceiptOk(j, db, id);
    }
    forall id | id in j'.batches
      ensures Honoured(j', db, id)
    {
      assert id in j.batches ==> Honoured(j, db, id);
    }
  }

  lemma ExtendingKeepsInv(sys: System, j': Journal)
    requires SystemInv(sys) && JournalOk(j') && Extends(sys.journal, j')
    ensures SystemInv(sys.(journal := j'))
  {
    hide JournalOk, ServerOk, Runs.WorldInv;
    forall id | id in sys.servers
      ensures ServerOk(j', sys.servers[id].db)
    {
      ServerFollows(sys.journal, j', sys.servers[id].db);
    }
    forall r | r in sys.replies
      ensures ReplyOk(sys.(journal := j'), r)
    {
      assert ReplyOk(sys, r);
    }
    assert forall b :: RequestOk(sys.journal, b) ==> RequestOk(j', b);
  }

  lemma PrepareExtends(j: Journal, d: DestinationId, id: BatchId)
    ensures Extends(j, PrepareSpec(j, d, id).0)
  {
    hide EncodeNext, NewBatch;
  }

  lemma EndAfterAck(j: Journal, d: DestinationId, r: Receipt, db: Db, e: DestinationId)
    requires JournalOk(j) && AckSpec(j, d, r).0 != j && e in j.destinations
    requires d.databaseId == db.databaseId ==> (j.stream, r.batch) in db.batches
    requires e.databaseId == db.databaseId
    ensures e in AckSpec(j, d, r).0.destinations && End(AckSpec(j, d, r).0, e, db) == End(j, e, db)
  {
    var j', id := AckSpec(j, d, r).0, PendingOf(j, d).value;
    assert SavedOk(j, id);
    assert forall a :: IsPending(j', e, a) ==> IsPending(j, e, a);
    assert e != d ==> forall a :: IsPending(j, e, a) ==> IsPending(j', e, a);
  }

  lemma ServerFollowsAck(j: Journal, d: DestinationId, r: Receipt, db: Db)
    requires JournalOk(j) && ServerOk(j, db) && AckSpec(j, d, r).0 != j
    requires d.databaseId == db.databaseId ==> (j.stream, r.batch) in db.batches && db.batches[(j.stream, r.batch)] == r
    ensures ServerOk(AckSpec(j, d, r).0, db)
  {
    hide JournalOk, End, AckSpec, Certifies, Mirrors;
    var j' := AckSpec(j, d, r).0;
    AckedShape(j, d, r);
    assert forall s: nat :: Mirrors(j, db, s) ==> Mirrors(j', db, s) by { SameMirrors(j, j', db); }
    forall s: nat | (j.stream, s) in db.items
      ensures Mirrors(j', db, s) && Explained(j', db, s)
    {
      assert Mirrors(j, db, s);
      var e :| e in j.destinations && e.databaseId == db.databaseId && s <= End(j, e, db);
      EndAfterAck(j, d, r, db, e);
    }
    forall e | e in j'.destinations && e.databaseId == db.databaseId
      ensures Reaches(j', db, e)
    {
      EndAfterAck(j, d, r, db, e);
      assert Reaches(j, db, e);
    }
    forall k | (j.stream, k) in db.batches
      ensures ReceiptOk(j', db, k)
    {
      assert ReceiptOk(j, db, k);
    }
    forall k | k in j'.batches
      ensures Honoured(j', db, k)
    {
      assert Honoured(j, db, k);
    }
  }

  lemma SameMirrors(j: Journal, j': Journal, db: Db)
    requires j'.outbox == j.outbox && j'.stream == j.stream
    ensures forall s: nat :: Mirrors(j, db, s) <==> Mirrors(j', db, s)
  {
  }

  lemma AckedShape(j: Journal, d: DestinationId, r: Receipt)
    requires JournalOk(j) && AckSpec(j, d, r).0 != j
    ensures var j' := AckSpec(j, d, r).0;
            && j'.outbox == j.outbox && j'.stream == j.stream && j'.destinations.Keys == j.destinations.Keys
            && r.batch in j.batches && j.batches[r.batch].destination == d
            && j'.batches == j.batches[r.batch := j.batches[r.batch].(receipt := Some(r))]
  {
    assert SavedOk(j, PendingOf(j, d).value);
  }

  lemma AcknowledgedBatches(j: Journal, d: DestinationId, r: Receipt)
    requires AckSpec(j, d, r).0 != j
    ensures PendingOf(j, d) == Some(r.batch) || j.batches[PendingOf(j, d).value].batch.id == r.batch
    ensures var id := PendingOf(j, d).value;
            AckSpec(j, d, r).0.batches == j.batches[id := j.batches[id].(receipt := Some(r))] && j.batches[id].destination == d
  {
  }

  /** A receipt that acknowledges something was stored by the server it names. */
  lemma AckedReceipt(sys: System, d: DestinationId, r: Receipt)
    requires SystemInv(sys) && r in sys.replies && AckSpec(sys.journal, d, r).0 != sys.journal
    ensures ReplyOk(sys, r) && r.databaseId == d.databaseId && AckSpec(sys.journal, d, r).0.stream == sys.journal.stream
    ensures JournalOk(AckSpec(sys.journal, d, r).0)
    ensures forall b :: RequestOk(sys.journal, b) ==> RequestOk(AckSpec(sys.journal, d, r).0, b)
  {
    hide ServerOk, Runs.WorldInv;
    AckKeepsJournal(sys.journal, d, r);
    AcknowledgedBatches(sys.journal, d, r);
    assert SavedOk(sys.journal, PendingOf(sys.journal, d).value);
  }

  lemma AckingKeepsInv(sys: System, d: DestinationId, r: Receipt)
    requires SystemInv(sys) && r in sys.replies
    ensures SystemInv(sys.(journal := AckSpec(sys.journal, d, r).0))
  {
    hide JournalOk, ServerOk, Runs.WorldInv, AckSpec;
    var j, j' := sys.journal, AckSpec(sys.journal, d, r).0;
    if j' != j {
      AckedReceipt(sys, d, r);
      forall id | id in sys.servers
        ensures ServerOk(j', sys.servers[id].db)
      {
        ServerFollowsAck(j, d, r, sys.servers[id].db);
      }
      forall q | q in sys.replies
        ensures ReplyOk(sys.(journal := j'), q)
      {
        assert ReplyOk(sys, q);
      }
    }
  }

  // ----- events of a server -----

  /** Nothing of the stream changed in the tables. */
  ghost predicate SameStream(db: Db, db': Db, stream: StreamId)
  {
    && db'.databaseId == db.databaseId
    && (forall s: nat :: (stream, s) in db'.items <==> (stream, s) in db.items)
    && (forall s: nat :: (stream, s) in db.items ==> db'.items[(stream, s)] == db.items[(stream, s)])
    && (forall id: BatchId :: (stream, id) in db'.batches <==> (stream, id) in db.batches)
    && (forall id: BatchId :: (stream, id) in db.batches ==> db'.batches[(stream, id)] == db.batches[(stream, id)])
  }

  lemma OthersLeaveStream(w: Runs.World, step: Runs.Step, stream: StreamId)
    requires !Ours(step, stream)
    ensures SameStream(w.db, Runs.Next(w, step).db, stream)
  {
    match step
    case Accepting(version, batch, now) =>
      OtherAcceptance(w.db, version, batch, now, stream);
    case Loading(root) =>
    case Publishing(version, load, p) =>
      PublishKeepsLedger(w.db, version, load.work, p);
    case Reprocessing(version) =>
      Runs.StageIsLocal(w.db, version);
      hide Stage;
    case Failing(work, now) =>
  }

  lemma OtherAcceptance(db: Db, version: nat, b: Batch, now: int, stream: StreamId)
    requires b.stream != stream
    ensures SameStream(db, AcceptSpec(db, version, b, now).0, stream)
  {
    hide IngestedScopes, IngestedDeps, ResponseFor, Admit, Enlist, Bind, NewReceipt;
    BindBinds(db.items, b.stream, b.entries);
  }

  lemma PublishKeepsLedger(db: Db, version: nat, w: Work, p: Projection)
    ensures var db' := PublishSpec(db, version, w, p).0;
            db'.items == db.items && db'.batches == db.batches && db'.databaseId == db.databaseId
  {
    if ReplaceRows(db, w, p).Some? {
      Runs.SettleKeepsRows(ReplaceRows(db, w, p).value, w);
    }
    hide Settle, FencePasses, Readable, InsertFacts, InsertEstimates;
  }

  lemma SameStreamServerOk(j: Journal, db: Db, db': Db)
    requires ServerOk(j, db) && SameStream(db, db', j.stream)
    ensures ServerOk(j, db')
  {
    assert forall d :: d in j.destinations ==> End(j, d, db') == End(j, d, db);
    hide End;
    forall s: nat | (j.stream, s) in db'.items
      ensures Mirrors(j, db', s) && Explained(j, db', s)
    {
      assert Mirrors(j, db, s) && Explained(j, db, s);
    }
    forall d | d in j.destinations && d.databaseId == db'.databaseId
      ensures Reaches(j, db', d)
    {
      assert Reaches(j, db, d);
      assert forall s: nat :: Mirrors(j, db, s) ==> Mirrors(j, db', s);
    }
    forall id | (j.stream, id) in db'.batches
      ensures ReceiptOk(j, db', id)
    {
      assert ReceiptOk(j, db, id);
    }
    forall id | id in j.batches
      ensures Honoured(j, db', id)
    {
      assert Honoured(j, db, id);
    }
  }

  /** What a server does with one of this collector's own requests. */
  lemma OwnRequest(j: Journal, db: Db, version: nat, b: Batch, now: int)
    requires JournalOk(j) && ServerOk(j, db) && RequestOk(j, b)
    ensures b.stream == j.stream && ValidBatch(b)
    ensures !SequenceClash(db.items, b.stream, b.entries)
    ensures (b.stream, b.id) in db.batches ==> db.batches[(b.stream, b.id)].hash == b.hash && b.databaseId == db.databaseId
    ensures (b.stream, b.id) !in db.batches && b.databaseId == db.databaseId ==> IsPending(j, j.batches[b.id].destination, b.id)
  {
    assert SavedOk(j, b.id);
    forall i | 0 <= i < |b.entries| && (j.stream, b.entries[i].sequence) in db.items
      ensures db.items[(j.stream, b.entries[i].sequence)] == b.entries[i].record.id
    {
      assert Mirrors(j, db, b.entries[i].sequence);
    }
    if (b.stream, b.id) in db.batches {
      assert ReceiptOk(j, db, b.id);
    } else {
      assert Honoured(j, db, b.id);
    }
  }

  predicate Ingested(j: Journal, b: Batch, db: Db, db': Db)
  {
    && db'.databaseId == db.databaseId == b.databaseId
    && db'.items == Bind(db.items, b.stream, b.entries)
    && (b.stream, b.id) in db'.batches
    && db'.batches == db.batches[(b.stream, b.id) := db'.batches[(b.stream, b.id)]]
    && Certifies(b, db'.batches[(b.stream, b.id)]) && db'.batches[(b.stream, b.id)].inputRevision <= SAFE_INTEGER
  }

  lemma IngestBooks(j: Journal, db: Db, b: Batch, now: int)
    requires b.databaseId == db.databaseId && db.meta.inputRevision < SAFE_INTEGER
    ensures Ingested(j, b, db, Ingest(db, b, now))
    ensures Ingest(db, b, now).batches == db.batches[(b.stream, b.id) := NewReceipt(db, b, now)]
  {
    hide IngestedScopes, IngestedDeps, Admit, Enlist, Bind;
    assert Certifies(b, NewReceipt(db, b, now));
    NoNewsNoChange(db, b);
    hide NextRevision;
  }

  lemma EndAfterIngest(j: Journal, db: Db, b: Batch, db': Db, d: DestinationId)
    requires JournalOk(j) && RequestOk(j, b) && Ingested(j, b, db, db') && b.stream == j.stream
    requires IsPending(j, j.batches[b.id].destination, b.id) && d in j.destinations
    requires (b.stream, b.id) !in db.batches
    ensures End(j, d, db') == if d == j.batches[b.id].destination then b.toSequence else End(j, d, db)
    ensures d == j.batches[b.id].destination ==> End(j, d, db) == b.fromSequence - 1
  {
    assert SavedOk(j, b.id);
  }

  lemma OwnEntries(j: Journal, b: Batch)
    requires JournalOk(j) && RequestOk(j, b)
    ensures 1 <= b.fromSequence && b.fromSequence + |b.entries| - 1 == b.toSequence <= |j.outbox|
    ensures forall i :: 0 <= i < |b.entries| ==> b.entries[i] == Entry(b.fromSequence + i, j.outbox[b.fromSequence - 1 + i].record)
  {
    assert SavedOk(j, b.id);
  }

  lemma ItemsMirror(j: Journal, db: Db)
    requires ServerOk(j, db)
    ensures forall s: nat :: (j.stream, s) in db.items ==> Mirrors(j, db, s)
  {
  }

  lemma IngestedItems(j: Journal, db: Db, b: Batch, db': Db)
    requires Ingested(j, b, db, db') && b.stream == j.stream
    ensures forall s: nat :: (j.stream, s) in db.items ==> (j.stream, s) in db'.items && db'.items[(j.stream, s)] == db.items[(j.stream, s)]
    ensures forall s: nat :: (j.stream, s) in db'.items && (j.stream, s) !in db.items ==>
              exists i :: 0 <= i < |b.entries| && s == b.entries[i].sequence && db'.items[(j.stream, s)] == b.entries[i].record.id
    ensures forall i :: 0 <= i < |b.entries| ==> (j.stream, b.entries[i].sequence) in db'.items
  {
    hide Bind;
    BindBinds(db.items, b.stream, b.entries);
  }

  lemma MirrorsAfterIngest(j: Journal, db: Db, b: Batch, db': Db)
    requires JournalOk(j) && ServerOk(j, db) && RequestOk(j, b) && Ingested(j, b, db, db') && b.stream == j.stream
    ensures forall s: nat :: (j.stream, s) in db'.items ==> Mirrors(j, db', s) && ((j.stream, s) in db.items || s <= b.toSequence)
    ensures forall s: nat :: Mirrors(j, db, s) || b.fromSequence <= s <= b.toSequence ==> Mirrors(j, db', s)
  {
    hide JournalOk, ServerOk, RequestOk, Ingested;
    OwnEntries(j, b);
    ItemsMirror(j, db);
    IngestedItems(j, db, b, db');
    forall s: nat | (j.stream, s) in db'.items
      ensures Mirrors(j, db', s) && ((j.stream, s) in db.items || s <= b.toSequence)
    {
      if (j.stream, s) in db.items {
        assert Mirrors(j, db, s);
      }
    }
    forall s: nat | b.fromSequence <= s <= b.toSequence
      ensures (j.stream, s) in db'.items
    {
      assert b.entries[s - b.fromSequence].sequence == s;
    }
  }

  lemma IngestServerOk(j: Journal, db: Db, b: Batch, db': Db)
    requires JournalOk(j) && ServerOk(j, db) && RequestOk(j, b) && Ingested(j, b, db, db') && b.stream == j.stream
    requires IsPending(j, j.batches[b.id].destination, b.id) && (b.stream, b.id) !in db.batches
    ensures ServerOk(j, db')
  {
    MirrorsAfterIngest(j, db, b, db');
    assert SavedOk(j, b.id);
    var target := j.batches[b.id].destination;
    hide JournalOk, End, Mirrors;
    EndAfterIngest(j, db, b, db', target);
    forall s: nat | (j.stream, s) in db'.items
      ensures Explained(j, db', s)
    {
      if (j.stream, s) in db.items {
        assert Explained(j, db, s);
        var d :| d in j.destinations && d.databaseId == db.databaseId && s <= End(j, d, db);
        EndAfterIngest(j, db, b, db', d);
      }
    }
    forall d | d in j.destinations && d.databaseId == db'.databaseId
      ensures Reaches(j, db', d)
    {
      EndAfterIngest(j, db, b, db', d);
      assert Reaches(j, db, d);
    }
    forall id | (j.stream, id) in db'.batches
      ensures ReceiptOk(j, db', id)
    {
      assert (j.stream, id) in db.batches ==> ReceiptOk(j, db, id);
    }
    forall id | id in j.batches
      ensures Honoured(j, db', id)
    {
      assert Honoured(j, db, id);
    }
  }

  lemma AcceptShape(db: Db, version: nat, b: Batch, now: int)
    requires ValidBatch(b) && !SequenceClash(db.items, b.stream, b.entries)
    requires (b.stream, b.id) in db.batches ==> db.batches[(b.stream, b.id)].hash == b.hash && b.databaseId == db.databaseId
    ensures var r := AcceptSpec(db, version, b, now);
            || r == (db, Err(Unreadable))
            || (r == (db, Err(DatabaseMismatch)) && b.databaseId != db.databaseId)
            || ((b.stream, b.id) in db.batches && r.0 == db && r.1.Ok? && r.1.value.receipt == db.batches[(b.stream, b.id)])
            || r == (db, Err(RevisionLimit))
            || ((b.stream, b.id) !in db.batches && r.0 == Ingest(db, b, now) && r.1.Ok? && b.databaseId == db.databaseId &&
                r.1.value.receipt == NewReceipt(db, b, now) && db.meta.inputRevision < SAFE_INTEGER)
  {
    hide StatusItems, Readable, SequenceClash, IngestedScopes, IngestedDeps, NewReceipt;
  }

  lemma OwnServerOk(j: Journal, db: Db, version: nat, b: Batch, now: int)
    requires JournalOk(j) && ServerOk(j, db) && RequestOk(j, b)
    ensures ServerOk(j, AcceptSpec(db, version, b, now).0)
    ensures AcceptSpec(db, version, b, now).0.databaseId == db.databaseId
    ensures forall id :: (j.stream, id) in db.batches ==>
              var kept := AcceptSpec(db, version, b, now).0.batches;
              (j.stream, id) in kept && kept[(j.stream, id)] == db.batches[(j.stream, id)]
    ensures var r := AcceptSpec(db, version, b, now);
            r.1.Ok? ==> (b.stream, b.id) in r.0.batches && r.0.batches[(b.stream, b.id)] == r.1.value.receipt
                        && r.1.value.receipt.batch == b.id && r.1.value.receipt.stream == j.stream == b.stream
                        && r.1.value.receipt.databaseId == db.databaseId
  {
    OwnRequest(j, db, version, b, now);
    AcceptShape(db, version, b, now);
    if (b.stream, b.id) in db.batches {
      assert ReceiptOk(j, db, b.id);
      assert SavedOk(j, b.id);
    }
    assert NewReceipt(db, b, now).batch == b.id && NewReceipt(db, b, now).stream == b.stream
           && NewReceipt(db, b, now).databaseId == db.databaseId;
    hide JournalOk, ServerOk, AcceptSpec, Ingest, NewReceipt, ValidBatch, SequenceClash;
    var db' := AcceptSpec(db, version, b, now).0;
    if db' == Ingest(db, b, now) && (b.stream, b.id) !in db.batches && b.databaseId == db.databaseId
       && db.meta.inputRevision < SAFE_INTEGER {
      IngestBooks(j, db, b, now);
      IngestServerOk(j, db, b, db');
    }
  }

  /** Whatever happens at a server, its replies to this collector stay on record. */
  lemma ServedOk(j: Journal, w: Runs.World, step: Runs.Step)
    requires JournalOk(j) && ServerOk(j, w.db) && (Ours(step, j.stream) ==> RequestOk(j, step.batch))
    ensures ServerOk(j, Runs.Next(w, step).db) && Runs.Next(w, step).db.databaseId == w.db.databaseId
    ensures forall id :: (j.stream, id) in w.db.batches ==>
              (j.stream, id) in Runs.Next(w, step).db.batches &&
              Runs.Next(w, step).db.batches[(j.stream, id)] == w.db.batches[(j.stream, id)]
    ensures forall r :: r in Replies(w.db, step, j.stream) ==>
              r.stream == j.stream && r.databaseId == w.db.databaseId &&
              (r.stream, r.batch) in Runs.Next(w, step).db.batches &&
              Runs.Next(w, step).db.batches[(r.stream, r.batch)] == r
  {
    hide JournalOk, ServerOk, AcceptSpec;
    if Ours(step, j.stream) {
      OwnServerOk(j, w.db, step.version, step.batch, step.now);
    } else {
      OthersLeaveStream(w, step, j.stream);
      SameStreamServerOk(j, w.db, Runs.Next(w, step).db);
    }
  }

  lemma ServingKeepsInv(sys: System, server: string, step: Runs.Step)
    requires SystemInv(sys) && Possible(sys, Serving(server, step))
    ensures SystemInv(Happen(sys, Serving(server, step)))
  {
    hide JournalOk, ServerOk, Runs.WorldInv, Runs.Next, Replies, RequestOk;
    var j, w := sys.journal, sys.servers[server];
    var sys' := Happen(sys, Serving(server, step));
    Runs.NextKeepsWorldInv(w, step);
    ServedOk(j, w, step);
    forall r | r in sys'.replies
      ensures ReplyOk(sys', r)
    {
      if r in sys.replies {
        assert ReplyOk(sys, r);
      }
    }
  }

  // ----- runs -----

  lemma RecordExtends(j: Journal)
    ensures forall item :: Extends(j, RecordSpec(j, item).0)
    ensures forall d :: Extends(j, ResolveSpec(j, d))
  {
    hide Recorded;
  }

  lemma HappenKeepsInv(sys: System, event: Event)
    requires SystemInv(sys)
    ensures SystemInv(Happen(sys, event))
  {
    hide JournalOk, ServerOk, Runs.WorldInv, PrepareSpec, AckSpec, RequestOk, ReplyOk, Extends, RecordSpec, ResolveSpec, Recorded;
    RecordExtends(sys.journal);
    match event
    case Recording(item) =>
      RecordKeepsJournal(sys.journal, item);
      ExtendingKeepsInv(sys, RecordSpec(sys.journal, item).0);
    case Resolving(d) =>
      ResolveKeepsJournal(sys.journal, d);
      ExtendingKeepsInv(sys, ResolveSpec(sys.journal, d));
    case Preparing(d, id) =>
      PrepareKeepsJournal(sys.journal, d, id);
      PrepareExtends(sys.journal, d, id);
      ExtendingKeepsInv(sys, PrepareSpec(sys.journal, d, id).0);
    case Sending(d) =>
      SendingKeepsInv(sys, d);
    case Serving(server, step) =>
      if Possible(sys, event) { ServingKeepsInv(sys, server, step); }
    case Acking(d, receipt) =>
      if Possible(sys, event) { AckingKeepsInv(sys, d, receipt); }
  }

  lemma SentIsSaved(j: Journal, d: DestinationId)
    requires JournalOk(j)
    ensures PendingOf(j, d).Some? ==> PendingOf(j, d).value in j.batches && RequestOk(j, j.batches[PendingOf(j, d).value].batch)
  {
    assert PendingOf(j, d).Some? ==> IsPending(j, d, PendingOf(j, d).value) && SavedOk(j, PendingOf(j, d).value);
  }

  lemma SendingKeepsInv(sys: System, d: DestinationId)
    requires SystemInv(sys)
    ensures SystemInv(Happen(sys, Sending(d)))
  {
    hide JournalOk, ServerOk, Runs.WorldInv, PendingOf, RequestOk;
    var sys' := Happen(sys, Sending(d));
    SentIsSaved(sys.journal, d);
    forall r | r in sys'.replies
      ensures ReplyOk(sys', r)
    {
      assert ReplyOk(sys, r);
    }
  }

  lemma StartInv(stream: StreamId, version: nat, ids: set<string>)
    ensures SystemInv(Start(stream, version, ids))
  {
    forall id | id in ids
      ensures Runs.WorldInv(Runs.World(Initial(id, version), {}, map[]))
    {
      InitialInv(id, version);
    }
  }

  lemma {:induction false} RunsKeepSystemInv(stream: StreamId, version: nat, ids: set<string>, events: seq<Event>)
    ensures SystemInv(Run(stream, version, ids, events))
  {
    if events == [] {
      StartInv(stream, version, ids);
    } else {
      hide SystemInv, Happen;
      RunsKeepSystemInv(stream, version, ids, events[..|events| - 1]);
      HappenKeepsInv(Run(stream, version, ids, events[..|events| - 1]), events[|events| - 1]);
    }
  }
}
