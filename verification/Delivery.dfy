/** The collector's delivery journal: an immutable outbox, at most one request in
    flight for each destination, and a cursor that follows the receipts. */
module Delivery {
  import opened Basics
  import opened DataModel
  import opened BatchEncoding
  import opened StoreSpec

  // Last instant a receipt may carry, with headroom for local time.
  const MAX_TIMESTAMP: int := 253402214399999

  /** An observation: its JSON text and what the server will make of it. */
  datatype Item = Item(record: Record, body: string)

  /** A destination is identified by its endpoint and the database it was bound to. */
  datatype DestinationId = DestinationId(endpoint: string, databaseId: string)

  datatype Saved = Saved(destination: DestinationId, batch: Batch, receipt: Option<Receipt>)

  datatype Journal = Journal(stream: StreamId, outbox: seq<Item>,
                             destinations: map<DestinationId, nat>, batches: map<BatchId, Saved>)

  datatype PrepareError = NoDestination | DuplicateBatchId | NotEncoded(error: EncodeError)

  datatype AckError = UnknownBatch | ReceiptMismatch | AcknowledgementGap

  // ----- the journal's transactions -----

  predicate Recorded(outbox: seq<Item>, body: string)
  {
    exists i :: 0 <= i < |outbox| && outbox[i].body == body
  }

  function RecordSpec(j: Journal, item: Item): (Journal, bool)
  {
    if Recorded(j.outbox, item.body) then (j, false) else (j.(outbox := j.outbox + [item]), true)
  }

  function ResolveSpec(j: Journal, d: DestinationId): Journal
  {
    if d in j.destinations then j else j.(destinations := j.destinations[d := 0])
  }

  predicate IsPending(j: Journal, d: DestinationId, id: BatchId)
  {
    id in j.batches && j.batches[id].destination == d && j.batches[id].receipt.None?
  }

  ghost function PendingOf(j: Journal, d: DestinationId): (r: Option<BatchId>)
    ensures r.Some? ==> IsPending(j, d, r.value)
    ensures r.None? ==> forall id :: !IsPending(j, d, id)
  {
    if id :| IsPending(j, d, id) then Some(id) else None
  }

  function RowsAfter(outbox: seq<Item>, cursor: nat): (rows: seq<Row>)
    ensures |rows| == if cursor < |outbox| then Min(MAX_ENTRIES, |outbox| - cursor) else 0
    ensures forall i :: 0 <= i < |rows| ==> rows[i] == Row(cursor + 1 + i, outbox[cursor + i].body)
  {
    if cursor >= |outbox| then []
    else seq(Min(MAX_ENTRIES, |outbox| - cursor), i requires 0 <= i < |outbox| - cursor => Row(cursor + 1 + i, outbox[cursor + i].body))
  }

  function Entries(outbox: seq<Item>, fromSequence: nat, count: nat): (entries: seq<Entry>)
    requires 1 <= fromSequence && fromSequence - 1 + count <= |outbox|
    ensures |entries| == count
    ensures forall i :: 0 <= i < count ==> entries[i] == Entry(fromSequence + i, outbox[fromSequence - 1 + i].record)
  {
    seq(count, i requires 0 <= i < count => Entry(fromSequence + i, outbox[fromSequence - 1 + i].record))
  }

  function EncodeNext(j: Journal, d: DestinationId, id: BatchId): Result<Encoded, EncodeError>
    requires d in j.destinations
  {
    Encode(Envelope(d.databaseId, j.stream, id, j.destinations[d] + 1), RowsAfter(j.outbox, j.destinations[d]))
  }

  lemma EncodedFits(j: Journal, d: DestinationId, id: BatchId)
    requires d in j.destinations && EncodeNext(j, d, id).Ok?
    ensures var n, cursor := EncodeNext(j, d, id).value.count, j.destinations[d];
            1 <= n <= MAX_ENTRIES && cursor + n <= |j.outbox| && cursor + n <= SAFE_INTEGER
    ensures |EncodeNext(j, d, id).value.body| <= MAX_BODY_BYTES
  {
    hide Request;
    EncodesLongestPrefix(Envelope(d.databaseId, j.stream, id, j.destinations[d] + 1), RowsAfter(j.outbox, j.destinations[d]));
  }

  ghost function NewBatch(j: Journal, d: DestinationId, id: BatchId): Batch
    requires d in j.destinations && EncodeNext(j, d, id).Ok?
  {
    EncodedFits(j, d, id);
    var encoded, cursor := EncodeNext(j, d, id).value, j.destinations[d];
    Batch(d.databaseId, j.stream, id, cursor + 1, cursor + encoded.count,
          Entries(j.outbox, cursor + 1, encoded.count), encoded.body)
  }

  /** The saved request if one is in flight, otherwise a new one for the rows after
      the cursor, otherwise nothing. */
  ghost function PrepareSpec(j: Journal, d: DestinationId, id: BatchId): (Journal, Result<Option<Batch>, PrepareError>)
  {
    match PendingOf(j, d)
    case Some(saved) => (j, Ok(Some(j.batches[saved].batch)))
    case None =>
      if d !in j.destinations then (j, Err(NoDestination))
      else if RowsAfter(j.outbox, j.destinations[d]) == [] then (j, Ok(None))
      else if EncodeNext(j, d, id).Err? then (j, Err(NotEncoded(EncodeNext(j, d, id).error)))
      else if id in j.batches then (j, Err(DuplicateBatchId))
      else
        var batch := NewBatch(j, d, id);
        (j.(batches := j.batches[id := Saved(d, batch, None)]), Ok(Some(batch)))
  }

  /** A receipt certifies exactly the request it answers. */
  predicate Certifies(b: Batch, r: Receipt)
  {
    && r.databaseId == b.databaseId && r.stream == b.stream && r.batch == b.id && r.hash == b.hash
    && r.fromSequence == b.fromSequence && r.toSequence == b.toSequence && r.accepted == |b.entries|
  }

  predicate ValidReceipt(b: Batch, r: Receipt)
  {
    Certifies(b, r) && 0 <= r.acceptedAt <= MAX_TIMESTAMP && r.inputRevision <= SAFE_INTEGER
  }

  ghost function AckSpec(j: Journal, d: DestinationId, r: Receipt): (Journal, Result<(), AckError>)
  {
    match PendingOf(j, d)
    case None =>
      if r.batch !in j.batches || j.batches[r.batch].destination != d then (j, Err(UnknownBatch))
      else if j.batches[r.batch].receipt != Some(r) then (j, Err(ReceiptMismatch))
      else (j, Ok(()))
    case Some(id) =>
      var saved := j.batches[id];
      if !ValidReceipt(saved.batch, r) then (j, Err(ReceiptMismatch))
      else if d !in j.destinations then (j, Err(UnknownBatch))
      else if j.destinations[d] + 1 != saved.batch.fromSequence then (j, Err(AcknowledgementGap))
      else (j.(batches := j.batches[id := saved.(receipt := Some(r))],
               destinations := j.destinations[d := saved.batch.toSequence]), Ok(()))
  }

  // ----- what the journal keeps -----

  predicate SavedOk(j: Journal, id: BatchId)
    requires id in j.batches
  {
    var saved, b := j.batches[id], j.batches[id].batch;
    && b.id == id && b.stream == j.stream && b.databaseId == saved.destination.databaseId
    && ValidBatch(b) && b.toSequence <= |j.outbox| && |b.hash| <= MAX_BODY_BYTES
    && b.entries == Entries(j.outbox, b.fromSequence, |b.entries|)
    && saved.destination in j.destinations
    && (saved.receipt.None? ==> b.fromSequence == j.destinations[saved.destination] + 1)
    && (saved.receipt.Some? ==> b.toSequence <= j.destinations[saved.destination] && ValidReceipt(b, saved.receipt.value))
  }

  /** An acknowledged batch of d that carried sequence s. */
  predicate Acknowledged(j: Journal, d: DestinationId, id: BatchId, s: nat)
  {
    && id in j.batches && j.batches[id].destination == d && j.batches[id].receipt.Some?
    && j.batches[id].batch.fromSequence <= s <= j.batches[id].batch.toSequence
  }

  ghost predicate Covered(j: Journal, d: DestinationId, s: nat)
  {
    exists id :: Acknowledged(j, d, id, s)
  }

  /** Each sequence up to the cursor was acknowledged once, in exactly one batch. */
  ghost predicate Tiled(j: Journal, d: DestinationId)
    requires d in j.destinations
  {
    && (forall s: nat :: 1 <= s <= j.destinations[d] ==> Covered(j, d, s))
    && (forall s, a, b :: Acknowledged(j, d, a, s) && Acknowledged(j, d, b, s) ==> a == b)
  }

  predicate DistinctBodies(outbox: seq<Item>)
  {
    forall i, k :: 0 <= i < k < |outbox| ==> outbox[i].body != outbox[k].body
  }

  ghost predicate JournalOk(j: Journal)
  {
    && DistinctBodies(j.outbox)
    && (forall id :: id in j.batches ==> SavedOk(j, id))
    && (forall d, a, b :: IsPending(j, d, a) && IsPending(j, d, b) ==> a == b)
    && (forall d :: d in j.destinations ==> j.destinations[d] <= |j.outbox| && Tiled(j, d))
  }

  lemma SameTiling(j: Journal, j': Journal, d: DestinationId)
    requires forall s, id :: Acknowledged(j', d, id, s) <==> Acknowledged(j, d, id, s)
    requires d in j'.destinations && (if d in j.destinations then j'.destinations[d] == j.destinations[d] && Tiled(j, d)
                                      else j'.destinations[d] == 0 && forall s, id :: !Acknowledged(j, d, id, s))
    ensures Tiled(j', d)
  {
    forall s: nat | 1 <= s <= j'.destinations[d]
      ensures Covered(j', d, s)
    {
      assert Covered(j, d, s);
    }
  }

  lemma RecordKeepsJournal(j: Journal, item: Item)
    requires JournalOk(j)
    ensures JournalOk(RecordSpec(j, item).0)
  {
    var j' := RecordSpec(j, item).0;
    forall id | id in j'.batches
      ensures SavedOk(j', id)
    {
      assert SavedOk(j, id);
    }
    forall d | d in j'.destinations
      ensures j'.destinations[d] <= |j'.outbox| && Tiled(j', d)
    {
      assert Tiled(j, d);
      forall s: nat | 1 <= s <= j'.destinations[d]
        ensures Covered(j', d, s)
      {
        assert Covered(j, d, s);
        var id :| Acknowledged(j, d, id, s);
        assert Acknowledged(j', d, id, s);
      }
      assert forall s, a :: Acknowledged(j', d, a, s) ==> Acknowledged(j, d, a, s);
    }
    assert forall d, a :: IsPending(j', d, a) ==> IsPending(j, d, a);
  }

  lemma ResolveKeepsJournal(j: Journal, d: DestinationId)
    requires JournalOk(j)
    ensures JournalOk(ResolveSpec(j, d))
  {
    var j' := ResolveSpec(j, d);
    forall id | id in j'.batches
      ensures SavedOk(j', id)
    {
      assert SavedOk(j, id);
    }
    forall e | e in j'.destinations
      ensures j'.destinations[e] <= |j'.outbox| && Tiled(j', e)
    {
      assert e in j.destinations ==> Tiled(j, e);
      assert e !in j.destinations ==> forall s, a :: !Acknowledged(j, e, a, s);
      SameTiling(j, j', e);
    }
    assert forall e, a :: IsPending(j', e, a) ==> IsPending(j, e, a);
  }

  lemma NewBatchOk(j: Journal, d: DestinationId, id: BatchId)
    requires d in j.destinations && EncodeNext(j, d, id).Ok?
    ensures var b := NewBatch(j, d, id);
            && b.id == id && b.stream == j.stream && b.databaseId == d.databaseId
            && ValidBatch(b) && b.toSequence <= |j.outbox| && |b.hash| <= MAX_BODY_BYTES
            && b.fromSequence == j.destinations[d] + 1
            && b.entries == Entries(j.outbox, b.fromSequence, |b.entries|)
  {
    EncodedFits(j, d, id);
    hide EncodeNext;
  }

  lemma PrepareKeepsJournal(j: Journal, d: DestinationId, id: BatchId)
    requires JournalOk(j)
    ensures JournalOk(PrepareSpec(j, d, id).0)
  {
    hide EncodeNext, NewBatch, Tiled;
    var j' := PrepareSpec(j, d, id).0;
    if j' != j {
      NewBatchOk(j, d, id);
      forall k | k in j'.batches
        ensures SavedOk(j', k)
      {
        assert k in j.batches ==> SavedOk(j, k);
      }
      PreparedTiling(j, d, id);
      assert forall e, a :: IsPending(j', e, a) ==> IsPending(j, e, a) || (e == d && a == id);
    }
  }

  lemma PreparedTiling(j: Journal, d: DestinationId, id: BatchId)
    requires JournalOk(j)
    ensures forall e :: e in PrepareSpec(j, d, id).0.destinations ==> Tiled(PrepareSpec(j, d, id).0, e)
  {
    hide EncodeNext, NewBatch, SavedOk;
    var j' := PrepareSpec(j, d, id).0;
    forall e | e in j'.destinations
      ensures Tiled(j', e)
    {
      assert Tiled(j, e);
      SameTiling(j, j', e);
    }
  }

  lemma AckKeepsJournal(j: Journal, d: DestinationId, r: Receipt)
    requires JournalOk(j)
    ensures JournalOk(AckSpec(j, d, r).0)
  {
    var j' := AckSpec(j, d, r).0;
    if j' != j {
      var id := PendingOf(j, d).value;
      assert SavedOk(j, id) && IsPending(j, d, id);
      var b := j.batches[id].batch;
      forall k | k in j'.batches
        ensures SavedOk(j', k)
      {
        assert SavedOk(j, k);
        assert IsPending(j, d, k) ==> k == id;
      }
      forall e | e in j'.destinations
        ensures Tiled(j', e)
      {
        assert Tiled(j, e);
        AckExtends(j, d, r, e);
      }
      assert forall e, a :: IsPending(j', e, a) ==> IsPending(j, e, a);
    }
  }

  lemma AckExtends(j: Journal, d: DestinationId, r: Receipt, e: DestinationId)
    requires JournalOk(j) && AckSpec(j, d, r).0 != j && e in j.destinations && Tiled(j, e)
    ensures Tiled(AckSpec(j, d, r).0, e)
  {
    var j' := AckSpec(j, d, r).0;
    var id := PendingOf(j, d).value;
    assert SavedOk(j, id);
    forall s, a | Acknowledged(j', e, a, s)
      ensures Acknowledged(j, e, a, s) || (a == id && e == d && s > j.destinations[d])
      ensures Acknowledged(j, e, a, s) ==> s <= j.destinations[e]
    {
      assert SavedOk(j, a);
    }
    forall s: nat | 1 <= s <= j'.destinations[e]
      ensures Covered(j', e, s)
    {
      if s <= j.destinations[e] {
        assert Covered(j, e, s);
        var a :| Acknowledged(j, e, a, s);
        assert Acknowledged(j', e, a, s);
      } else {
        assert Acknowledged(j', e, id, s);
      }
    }
  }

  /** Acknowledging the request in flight moves the cursor to the end of that request,
      and never finds a gap; any receipt that does not repeat all of the request's own
      particulars moves nothing. With nothing in flight only the stored receipt of an
      earlier request is welcome again. */
  lemma AckMovesCursor(j: Journal, d: DestinationId, r: Receipt)
    requires JournalOk(j)
    ensures AckSpec(j, d, r).1 != Err(AcknowledgementGap) && AckSpec(j, d, r).0.outbox == j.outbox
    ensures match PendingOf(j, d)
            case None =>
              && AckSpec(j, d, r).0 == j
              && (AckSpec(j, d, r).1.Ok? <==>
                    r.batch in j.batches && j.batches[r.batch].destination == d && j.batches[r.batch].receipt == Some(r))
            case Some(id) =>
              var b := j.batches[id].batch;
              if && (r.databaseId, r.stream, r.batch, r.hash) == (b.databaseId, b.stream, b.id, b.hash)
                 && (r.fromSequence, r.toSequence, r.accepted) == (b.fromSequence, b.toSequence, |b.entries|)
                 && 0 <= r.acceptedAt <= MAX_TIMESTAMP && r.inputRevision <= SAFE_INTEGER
              then && AckSpec(j, d, r).1.Ok? && PendingOf(AckSpec(j, d, r).0, d).None?
                   && AckSpec(j, d, r).0.destinations == j.destinations[d := j.destinations[d] + |b.entries|]
                   && AckSpec(j, d, r).0.batches == j.batches[id := j.batches[id].(receipt := Some(r))]
              else AckSpec(j, d, r) == (j, Err(ReceiptMismatch))
  {
    match PendingOf(j, d)
    case None =>
    case Some(id) =>
      assert SavedOk(j, id) && IsPending(j, d, id);
      var j' := AckSpec(j, d, r).0;
      assert forall a :: IsPending(j', d, a) ==> IsPending(j, d, a);
  }

  // ----- the store -----

  datatype Turn = Turn(batchId: BatchId, answer: Option<Receipt>)

  datatype DeliveryEnd = Drained | NotPrepared(prepare: PrepareError) | NotSubmitted | NotAcknowledged(ack: AckError) | Interrupted

  datatype Delivered = Delivered(journal: Journal, end: DeliveryEnd, batches: nat, accepted: nat)

  function Counted(r: Delivered, batches: nat, accepted: nat): Delivered
  {
    r.(batches := r.batches + batches, accepted := r.accepted + accepted)
  }

  /** Each turn prepares the next request, submits it and acknowledges the answer. */
  ghost function DeliverSpec(j: Journal, d: DestinationId, turns: seq<Turn>): Delivered
    decreases |turns|
  {
    if turns == [] then Delivered(j, Interrupted, 0, 0)
    else
      var (j1, prepared) := PrepareSpec(ResolveSpec(j, d), d, turns[0].batchId);
      if prepared.Err? then Delivered(j1, NotPrepared(prepared.error), 0, 0)
      else if prepared.value.None? then Delivered(j1, Drained, 0, 0)
      else if turns[0].answer.None? then Delivered(j1, NotSubmitted, 0, 0)
      else
        var (j2, acked) := AckSpec(j1, d, turns[0].answer.value);
        if acked.Err? then Delivered(j2, NotAcknowledged(acked.error), 0, 0)
        else Counted(DeliverSpec(j2, d, turns[1..]), 1, |prepared.value.value.entries|)
  }

  class CollectorStore {
    var journal: Journal

    constructor (stream: StreamId)
      ensures journal == Journal(stream, [], map[], map[])
      ensures JournalOk(journal)
    {
      journal := Journal(stream, [], map[], map[]);
    }

    /** Records an observation unless the same one is already held. */
    method Record(item: Item) returns (recorded: bool)
      requires JournalOk(journal)
      modifies this
      ensures (journal, recorded) == RecordSpec(old(journal), item) && JournalOk(journal)
      ensures recorded <==> forall k :: 0 <= k < |old(journal).outbox| ==> old(journal).outbox[k].body != item.body
      ensures journal == old(journal).(outbox := old(journal).outbox + if recorded then [item] else [])
    {
      RecordKeepsJournal(journal, item);
      var i := 0;
      while i < |journal.outbox|
        invariant 0 <= i <= |journal.outbox|
        invariant forall k :: 0 <= k < i ==> journal.outbox[k].body != item.body
      {
        if journal.outbox[i].body == item.body {
          return false;
        }
        i := i + 1;
      }
      journal := journal.(outbox := journal.outbox + [item]);
      recorded := true;
    }

    method ResolveDestination(endpoint: string, databaseId: string) returns (d: DestinationId)
      requires JournalOk(journal)
      modifies this
      ensures d == DestinationId(endpoint, databaseId)
      ensures journal == ResolveSpec(old(journal), d) && JournalOk(journal)
    {
      d := DestinationId(endpoint, databaseId);
      ResolveKeepsJournal(journal, d);
      if d !in journal.destinations {
        journal := journal.(destinations := journal.destinations[d := 0]);
      }
    }

    method FindPending(d: DestinationId) returns (found: Option<BatchId>)
      requires JournalOk(journal)
      ensures found == PendingOf(journal, d)
    {
      var left := journal.batches.Keys;
      while left != {}
        invariant left <= journal.batches.Keys
        invariant forall id :: id in journal.batches.Keys - left ==> !IsPending(journal, d, id)
      {
        var id :| id in left;
        if journal.batches[id].destination == d && journal.batches[id].receipt.None? {
          assert IsPending(journal, d, id);
          return Some(id);
        }
        left := left - {id};
      }
      found := None;
    }

    method Prepare(d: DestinationId, batchId: BatchId) returns (r: Result<Option<Batch>, PrepareError>)
      requires JournalOk(journal)
      modifies this
      ensures (journal, r) == PrepareSpec(old(journal), d, batchId) && JournalOk(journal)
    {
      hide JournalOk, Encode;
      PrepareKeepsJournal(journal, d, batchId);
      var saved := FindPending(d);
      if saved.Some? {
        return Ok(Some(journal.batches[saved.value].batch));
      }
      if d !in journal.destinations {
        return Err(NoDestination);
      }
      var cursor := journal.destinations[d];
      var rows: seq<Row> := [];
      var records: seq<Entry> := [];
      while cursor + |rows| < |journal.outbox| && |rows| < MAX_ENTRIES
        invariant |rows| == |records| <= MAX_ENTRIES
        invariant |rows| <= |RowsAfter(journal.outbox, cursor)|
        invariant rows == RowsAfter(journal.outbox, cursor)[..|rows|]
        invariant |rows| > 0 ==> cursor + |rows| <= |journal.outbox|
        invariant forall i :: 0 <= i < |records| ==> records[i] == Entry(cursor + 1 + i, journal.outbox[cursor + i].record)
        decreases |journal.outbox| - |rows|
      {
        var item := journal.outbox[cursor + |rows|];
        records := records + [Entry(cursor + |rows| + 1, item.record)];
        rows := rows + [Row(cursor + |rows| + 1, item.body)];
      }
      assert rows == RowsAfter(journal.outbox, cursor);
      if rows == [] {
        return Ok(None);
      }
      var encoding := EncodeBatchPrefix(Envelope(d.databaseId, journal.stream, batchId, cursor + 1), rows);
      assert encoding == EncodeNext(journal, d, batchId);
      if encoding.Err? {
        return Err(NotEncoded(encoding.error));
      }
      if batchId in journal.batches {
        return Err(DuplicateBatchId);
      }
      var encoded := encoding.value;
      EncodedFits(journal, d, batchId);
      assert records[..encoded.count] == Entries(journal.outbox, cursor + 1, encoded.count);
      var batch := Batch(d.databaseId, journal.stream, batchId, cursor + 1, cursor + encoded.count,
                         records[..encoded.count], encoded.body);
      journal := journal.(batches := journal.batches[batchId := Saved(d, batch, None)]);
      r := Ok(Some(batch));
    }

    method Ack(d: DestinationId, receipt: Receipt) returns (r: Result<(), AckError>)
      requires JournalOk(journal)
      modifies this
      ensures (journal, r) == AckSpec(old(journal), d, receipt) && JournalOk(journal)
    {
      AckKeepsJournal(journal, d, receipt);
      hide JournalOk, ValidReceipt;
      var saved := FindPending(d);
      if saved.None? {
        if receipt.batch !in journal.batches || journal.batches[receipt.batch].destination != d {
          return Err(UnknownBatch);
        }
        return if journal.batches[receipt.batch].receipt == Some(receipt) then Ok(()) else Err(ReceiptMismatch);
      }
      var pending := journal.batches[saved.value];
      if !ValidReceipt(pending.batch, receipt) {
        return Err(ReceiptMismatch);
      }
      if d !in journal.destinations {
        return Err(UnknownBatch);
      }
      if journal.destinations[d] + 1 != pending.batch.fromSequence {
        return Err(AcknowledgementGap);
      }
      journal := journal.(batches := journal.batches[saved.value := pending.(receipt := Some(receipt))],
                          destinations := journal.destinations[d := pending.batch.toSequence]);
      r := Ok(());
    }

    /** Delivers until nothing is left or something fails. Each turn supplies the random
        batch id and the transport's answer, which may be missing. */
    method PublishRaw(endpoint: string, databaseId: string, turns: seq<Turn>)
        returns (end: DeliveryEnd, batches: nat, accepted: nat)
      requires JournalOk(journal)
      modifies this
      ensures JournalOk(journal)
      ensures Delivered(journal, end, batches, accepted) == DeliverSpec(old(journal), DestinationId(endpoint, databaseId), turns)
    {
      hide JournalOk, PrepareSpec, AckSpec, ResolveSpec, DeliverSpec;
      batches, accepted := 0, 0;
      ghost var d0 := DestinationId(endpoint, databaseId);
      ghost var whole := DeliverSpec(journal, d0, turns);
      assert turns[0..] == turns;
      for i := 0 to |turns|
        invariant JournalOk(journal)
        invariant whole == Counted(DeliverSpec(journal, d0, turns[i..]), batches, accepted)
      {
        DeliverUnfolds(journal, d0, turns[i..]);
        assert turns[i..][0] == turns[i] && turns[i..][1..] == turns[i + 1..];
        var d := ResolveDestination(endpoint, databaseId);
        var prepared := Prepare(d, turns[i].batchId);
        if prepared.Err? {
          end := NotPrepared(prepared.error);
          return;
        }
        if prepared.value.None? {
          end := Drained;
          return;
        }
        if turns[i].answer.None? {
          end := NotSubmitted;
          return;
        }
        var acknowledged := Ack(d, turns[i].answer.value);
        if acknowledged.Err? {
          end := NotAcknowledged(acknowledged.error);
          return;
        }
        batches := batches + 1;
        accepted := accepted + |prepared.value.value.entries|;
      }
      end := Interrupted;
      DeliverUnfolds(journal, d0, turns[|turns|..]);
    }
  }

  // ----- what a delivery loop achieves -----

  lemma DeliverUnfolds(j: Journal, d: DestinationId, turns: seq<Turn>)
    ensures turns == [] ==> DeliverSpec(j, d, turns) == Delivered(j, Interrupted, 0, 0)
    ensures turns != [] ==>
              var (j1, prepared) := PrepareSpec(ResolveSpec(j, d), d, turns[0].batchId);
              DeliverSpec(j, d, turns) ==
                if prepared.Err? then Delivered(j1, NotPrepared(prepared.error), 0, 0)
                else if prepared.value.None? then Delivered(j1, Drained, 0, 0)
                else if turns[0].answer.None? then Delivered(j1, NotSubmitted, 0, 0)
                else
                  var (j2, acked) := AckSpec(j1, d, turns[0].answer.value);
                  if acked.Err? then Delivered(j2, NotAcknowledged(acked.error), 0, 0)
                  else Counted(DeliverSpec(j2, d, turns[1..]), 1, |prepared.value.value.entries|)
  {
    hide PrepareSpec, AckSpec, ResolveSpec;
  }

  /** However the loop ends, the cursor moved by exactly the number of entries counted as
      accepted. It goes on as long as there are turns unless it drained, which leaves
      nothing to deliver, or failed at the first turn it did not count. */
  lemma {:induction false} DeliveryMovesCursor(j: Journal, d: DestinationId, turns: seq<Turn>)
    requires JournalOk(j)
    ensures var r := DeliverSpec(j, d, turns);
            var bound := ResolveSpec(j, d).destinations;
            && JournalOk(r.journal) && r.journal.outbox == j.outbox && d in bound
            && (if turns == [] then r.journal == j && r.accepted == 0
                else r.journal.destinations == bound[d := bound[d] + r.accepted])
            && r.accepted >= r.batches && r.batches <= |turns|
            && (r.end == Interrupted <==> r.batches == |turns|)
            && (r.end == NotSubmitted ==> turns[r.batches].answer.None?)
            && (r.end.NotAcknowledged? ==> turns[r.batches].answer.Some?)
            && (r.end == Drained ==>
                  turns != [] && r.journal.destinations[d] == |r.journal.outbox| && PendingOf(r.journal, d).None?)
    decreases |turns|
  {
    hide JournalOk, PrepareSpec, AckSpec, ResolveSpec, ValidReceipt, DeliverSpec;
    DeliverUnfolds(j, d, turns);
    Resolved(j, d);
    if turns != [] {
      var bound := ResolveSpec(j, d);
      ResolveKeepsJournal(j, d);
      var (j1, prepared) := PrepareSpec(bound, d, turns[0].batchId);
      PrepareKeepsJournal(bound, d, turns[0].batchId);
      if prepared.Err? || prepared.value.None? {
        PreparedNothing(bound, d, turns[0].batchId);
      } else {
        PreparedSomething(bound, d, turns[0].batchId);
        if turns[0].answer.Some? {
          var (j2, acked) := AckSpec(j1, d, turns[0].answer.value);
          AckMovesCursor(j1, d, turns[0].answer.value);
          AckKeepsJournal(j1, d, turns[0].answer.value);
          if acked.Ok? {
            Resolved(j2, d);
            DeliveryMovesCursor(j2, d, turns[1..]);
          }
        }
      }
    }
  }

  lemma Resolved(j: Journal, d: DestinationId)
    ensures d in ResolveSpec(j, d).destinations && ResolveSpec(j, d).outbox == j.outbox
    ensures d in j.destinations ==> ResolveSpec(j, d) == j
  {
  }

  lemma PreparedNothing(j: Journal, d: DestinationId, id: BatchId)
    requires JournalOk(j) && (PrepareSpec(j, d, id).1.Err? || PrepareSpec(j, d, id).1.value.None?)
    ensures PrepareSpec(j, d, id).0 == j
    ensures PrepareSpec(j, d, id).1.Ok? ==> d in j.destinations && j.destinations[d] == |j.outbox| && PendingOf(j, d).None?
  {
    hide EncodeNext, NewBatch;
  }

  /** Whatever Prepare returns is from then on the request in flight. */
  lemma PreparedSomething(j: Journal, d: DestinationId, id: BatchId)
    requires JournalOk(j) && PrepareSpec(j, d, id).1.Ok? && PrepareSpec(j, d, id).1.value.Some?
    ensures var j' := PrepareSpec(j, d, id).0;
            && j'.destinations == j.destinations && j'.outbox == j.outbox
            && PendingOf(j', d).Some? && j'.batches[PendingOf(j', d).value].batch == PrepareSpec(j, d, id).1.value.value
            && |PrepareSpec(j, d, id).1.value.value.entries| >= 1
  {
    hide EncodeNext, NewBatch;
    PrepareKeepsJournal(j, d, id);
    var j' := PrepareSpec(j, d, id).0;
    if j' != j {
      NewBatchOk(j, d, id);
      assert IsPending(j', d, id);
    } else {
      assert SavedOk(j, PendingOf(j, d).value);
    }
  }

  lemma PreparedNew(j: Journal, d: DestinationId, id: BatchId)
    requires PendingOf(j, d).None? && PrepareSpec(j, d, id).1.Ok? && PrepareSpec(j, d, id).1.value.Some?
    ensures d in j.destinations && id !in j.batches && EncodeNext(j, d, id).Ok?
    ensures PrepareSpec(j, d, id) == (j.(batches := j.batches[id := Saved(d, NewBatch(j, d, id), None)]), Ok(Some(NewBatch(j, d, id))))
  {
    hide EncodeNext, NewBatch, RowsAfter, IsPending;
  }

  lemma EncodedIsLongest(j: Journal, d: DestinationId, id: BatchId)
    requires d in j.destinations && EncodeNext(j, d, id).Ok?
    ensures var encoded, cursor := EncodeNext(j, d, id).value, j.destinations[d];
            var e, rows := Envelope(d.databaseId, j.stream, id, cursor + 1), RowsAfter(j.outbox, cursor);
            && encoded.count <= |rows| && encoded.body == Request(e, rows[..encoded.count])
            && forall m :: encoded.count < m <= |rows| ==> !Sendable(e, rows[..m])
  {
    var cursor := j.destinations[d];
    EncodesLongestPrefix(Envelope(d.databaseId, j.stream, id, cursor + 1), RowsAfter(j.outbox, cursor));
    hide Request, Sendable, Encode, Decodable;
  }

  lemma NewBatchIsLongest(j: Journal, d: DestinationId, id: BatchId)
    requires d in j.destinations && EncodeNext(j, d, id).Ok?
    ensures var b, cursor := NewBatch(j, d, id), j.destinations[d];
            var e, rows := Envelope(d.databaseId, j.stream, id, cursor + 1), RowsAfter(j.outbox, cursor);
            && b.databaseId == d.databaseId && b.stream == j.stream && b.id == id
            && b.fromSequence == cursor + 1 && b.toSequence == cursor + |b.entries|
            && 1 <= |b.entries| <= |rows| && b.hash == Request(e, rows[..|b.entries|]) && |b.hash| <= MAX_BODY_BYTES
            && cursor + |b.entries| <= |j.outbox|
            && (forall i :: 0 <= i < |b.entries| ==> b.entries[i] == Entry(cursor + 1 + i, j.outbox[cursor + i].record))
            && (forall m :: |b.entries| < m <= |rows| ==> !Sendable(e, rows[..m]))
  {
    EncodedFits(j, d, id);
    EncodedIsLongest(j, d, id);
    hide Request, Sendable, EncodeNext, RowsAfter;
  }

  /** A new request carries the rows after the cursor, as many as fit, under the cursor's
      next sequence, and its bytes are those of exactly these rows. */
  lemma PreparedIsLongest(j: Journal, d: DestinationId, id: BatchId)
    requires PendingOf(j, d).None? && PrepareSpec(j, d, id).1.Ok? && PrepareSpec(j, d, id).1.value.Some?
    ensures d in j.destinations && id !in j.batches
    ensures var b, cursor := PrepareSpec(j, d, id).1.value.value, j.destinations[d];
            var e, rows := Envelope(d.databaseId, j.stream, id, cursor + 1), RowsAfter(j.outbox, cursor);
            && b.databaseId == d.databaseId && b.stream == j.stream && b.id == id
            && b.fromSequence == cursor + 1 && b.toSequence == cursor + |b.entries|
            && 1 <= |b.entries| <= |rows| && b.hash == Request(e, rows[..|b.entries|]) && |b.hash| <= MAX_BODY_BYTES
            && cursor + |b.entries| <= |j.outbox|
            && (forall i :: 0 <= i < |b.entries| ==> b.entries[i] == Entry(cursor + 1 + i, j.outbox[cursor + i].record))
            && (forall m :: |b.entries| < m <= |rows| ==> !Sendable(e, rows[..m]))
            && PrepareSpec(j, d, id).0 == j.(batches := j.batches[id := Saved(d, b, None)])
  {
    PreparedNew(j, d, id);
    NewBatchIsLongest(j, d, id);
    hide Request, Sendable, Encode, PrepareSpec, NewBatch, RowsAfter, EncodeNext;
  }
}
