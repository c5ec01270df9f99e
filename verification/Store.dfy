/** The data store: its tables as fields, each transaction as a method that either
    commits exactly what StoreSpec says or changes nothing. */
module DataStore {
  import opened Basics
  import opened Reachability
  import opened DataModel
  import opened StoreSpec
  import opened StoreInvariant
  import opened StoreHistory
  import opened Selection

  datatype LoadResult = Found(work: Work) | NoWork | Unavailable

  lemma TouchNothing(scopes: map<Scope, ScopeRow>, revision: nat)
    ensures Touch(scopes, {}, revision) == scopes
  {
  }

  /** The newly revised rows are recognisable by their revision alone. */
  lemma SeedsAreChanged(scopes: map<Scope, ScopeRow>, changed: set<Scope>, revision: nat)
    requires forall s :: s in scopes ==> scopes[s].revision < revision
    ensures (set s | s in Touch(scopes, changed, revision) && Touch(scopes, changed, revision)[s].revision == revision) == changed
  {
  }

  lemma RowsBelowNext(db: Db)
    requires Inv(db)
    ensures forall s :: s in db.scopes ==> db.scopes[s].revision < db.meta.inputRevision + 1
  {
    forall s | s in db.scopes
      ensures db.scopes[s].revision < db.meta.inputRevision + 1
    {
      assert RowOk(db.scopes[s], db.meta.inputRevision, db.meta.target);
    }
  }

  /** Rows a batch contributes, gathered record by record before anything is written. */
  datatype Gathered = Gathered(
    raw: map<EvidenceId, Evidence>,
    changed: set<Scope>,
    deps: set<Edge>,
    items: map<(StreamId, nat), EvidenceId>,
    batchItems: map<(StreamId, BatchId, nat), EvidenceId>)

  predicate GatheredOk(db: Db, b: Batch, n: nat, g: Gathered)
    requires n <= |b.entries|
  {
    var es := b.entries[..n];
    && g.raw.Keys !! db.evidence.Keys
    && db.evidence + g.raw == Admit(db.evidence, es)
    && g.changed == ScopesOf(g.raw)
    && g.deps == DepsOf(g.raw)
    && g.items == Bind(db.items, b.stream, es)
    && g.batchItems == Enlist(db.batchItems, b.stream, b.id, es)
  }

  function GatherOne(db: Db, b: Batch, e: Entry, g: Gathered): Gathered
  {
    var known := e.record.id in db.evidence || e.record.id in g.raw;
    Gathered(
      if known then g.raw else g.raw[e.record.id := e.record.evidence],
      if known then g.changed else g.changed + {e.record.evidence.scope},
      if known then g.deps else g.deps + set p | p in e.record.evidence.parents :: (e.record.evidence.scope, p),
      if (b.stream, e.sequence) in g.items then g.items else g.items[(b.stream, e.sequence) := e.record.id],
      g.batchItems[(b.stream, b.id, e.sequence) := e.record.id])
  }

  lemma PrefixStep(entries: seq<Entry>, n: nat)
    requires n < |entries|
    ensures var es := entries[..n + 1]; es != [] && es[..|es| - 1] == entries[..n] && es[|es| - 1] == entries[n]
  {
  }

  lemma GatheredEvidence(db: Db, raw: map<EvidenceId, Evidence>, entries: seq<Entry>, n: nat)
    requires n < |entries| && raw.Keys !! db.evidence.Keys && db.evidence + raw == Admit(db.evidence, entries[..n])
    ensures var r := entries[n].record;
            var raw' := if r.id in db.evidence || r.id in raw then raw else raw[r.id := r.evidence];
            raw'.Keys !! db.evidence.Keys && db.evidence + raw' == Admit(db.evidence, entries[..n + 1])
  {
    PrefixStep(entries, n);
    var r := entries[n].record;
    assert r.id in Admit(db.evidence, entries[..n]) <==> r.id in db.evidence || r.id in raw;
  }

  lemma GatheredRows(db: Db, b: Batch, n: nat)
    requires n < |b.entries|
    ensures var e, m := b.entries[n], Bind(db.items, b.stream, b.entries[..n]);
            Bind(db.items, b.stream, b.entries[..n + 1]) ==
              (if (b.stream, e.sequence) in m then m else m[(b.stream, e.sequence) := e.record.id])
    ensures var e := b.entries[n];
            Enlist(db.batchItems, b.stream, b.id, b.entries[..n + 1]) ==
              Enlist(db.batchItems, b.stream, b.id, b.entries[..n])[(b.stream, b.id, e.sequence) := e.record.id]
  {
    PrefixStep(b.entries, n);
  }

  lemma GatheredScopes(raw: map<EvidenceId, Evidence>, r: Record)
    requires r.id !in raw
    ensures ScopesOf(raw[r.id := r.evidence]) == ScopesOf(raw) + {r.evidence.scope}
  {
    var raw' := raw[r.id := r.evidence];
    forall s | s in ScopesOf(raw) + {r.evidence.scope}
      ensures s in ScopesOf(raw')
    {
      if s != r.evidence.scope {
        var id :| id in raw && raw[id].scope == s;
        assert raw'[id].scope == s;
      } else {
        assert raw'[r.id].scope == s;
      }
    }
  }

  lemma GatherStep(db: Db, b: Batch, n: nat, g: Gathered)
    requires n < |b.entries| && GatheredOk(db, b, n, g)
    ensures GatheredOk(db, b, n + 1, GatherOne(db, b, b.entries[n], g))
  {
    hide Admit, Bind, Enlist;
    var r := b.entries[n].record;
    GatheredEvidence(db, g.raw, b.entries, n);
    GatheredRows(db, b, n);
    if r.id !in db.evidence && r.id !in g.raw {
      GatheredScopes(g.raw, r);
      GatheredDeps(g.raw, r);
    }
  }

  lemma GatheredDeps(raw: map<EvidenceId, Evidence>, r: Record)
    requires r.id !in raw
    ensures DepsOf(raw[r.id := r.evidence]) == DepsOf(raw) + set p | p in r.evidence.parents :: (r.evidence.scope, p)
  {
    var raw' := raw[r.id := r.evidence];
    var d' := DepsOf(raw) + set p | p in r.evidence.parents :: (r.evidence.scope, p);
    forall e | e in d'
      ensures e in DepsOf(raw')
    {
      if e in DepsOf(raw) {
        var id, p :| id in raw && p in raw[id].parents && e == (raw[id].scope, p);
        assert raw'[id] == raw[id];
      } else {
        assert raw'[r.id] == r.evidence;
      }
    }
  }

  lemma GatheredAll(db: Db, b: Batch, g: Gathered)
    requires GatheredOk(db, b, |b.entries|, g)
    ensures g.raw.Keys == FreshIds(db, b) && g.changed == ChangedScopes(db, b)
    ensures db.deps + g.deps == IngestedDeps(db, b) && db.evidence + g.raw == Admit(db.evidence, b.entries)
    ensures NextRevision(db, b) == (if g.raw.Keys != {} then db.meta.inputRevision + 1 else db.meta.inputRevision)
    ensures g.items == Bind(db.items, b.stream, b.entries)
    ensures g.batchItems == Enlist(db.batchItems, b.stream, b.id, b.entries)
  {
    assert b.entries[..|b.entries|] == b.entries;
    var evidence := Admit(db.evidence, b.entries);
    assert forall id :: id in g.raw ==> evidence[id] == g.raw[id];
    assert g.raw.Keys == FreshIds(db, b);
    forall e | e in g.deps
      ensures e in IngestedDeps(db, b)
    {
      var id, p :| id in g.raw && p in g.raw[id].parents && e == (g.raw[id].scope, p);
      assert evidence[id] == g.raw[id];
    }
    forall e | e in IngestedDeps(db, b) && e !in db.deps
      ensures e in g.deps
    {
      var id, p :| id in FreshIds(db, b) && p in evidence[id].parents && e == (evidence[id].scope, p);
      assert evidence[id] == g.raw[id];
    }
  }

  /** Upserts the changed rows, then revises whatever depends on a row of that revision. */
  method ReviseScopes(before: map<Scope, ScopeRow>, deps: set<Edge>, changed: set<Scope>, isNew: bool, revision: nat,
                      ghost db: Db, ghost b: Batch) returns (scopes: map<Scope, ScopeRow>)
    requires forall s :: s in before ==> before[s].revision < db.meta.inputRevision + 1
    requires before == db.scopes && deps == IngestedDeps(db, b) && changed == ChangedScopes(db, b)
    requires isNew == (FreshIds(db, b) != {}) && revision == NextRevision(db, b)
    ensures scopes == IngestedScopes(db, b)
  {
    hide Touch, Admit, ChangedScopes, IngestedDeps;
    scopes := Touch(before, changed, revision);
    if isNew {
      SeedsAreChanged(before, changed, revision);
      var seeds := set s | s in scopes && scopes[s].revision == revision;
      var affected := Explore(Reverse(deps), seeds);
      scopes := Touch(scopes, affected * scopes.Keys, revision);
    } else {
      IngestedRows(db, b);
      assert AffectedScopes(db, b) * scopes.Keys == {};
      TouchNothing(scopes, revision);
    }
  }

  /** A transaction works on tx, a private copy of the tables; committing stores it back.
      Returning early rolls back. */
  class Store {
    var tables: Db

    constructor (databaseId: string, version: nat)
      ensures tables == Initial(databaseId, version) && Inv(tables)
    {
      tables := Initial(databaseId, version);
      InitialInv(databaseId, version);
    }

    /** Reads the request against the tables; None means a sequence was already bound
        to a different record. */
    method GatherBatch(b: Batch) returns (g: Option<Gathered>)
      ensures g.None? <==> SequenceClash(tables.items, b.stream, b.entries)
      ensures g.Some? ==> GatheredOk(tables, b, |b.entries|, g.value)
    {
      var rows := Gathered(map[], {}, {}, tables.items, tables.batchItems);
      var i := 0;
      assert tables.evidence + rows.raw == tables.evidence;
      while i < |b.entries|
        invariant 0 <= i <= |b.entries|
        invariant GatheredOk(tables, b, i, rows)
        invariant forall j :: 0 <= j < i && (b.stream, b.entries[j].sequence) in tables.items ==>
                    tables.items[(b.stream, b.entries[j].sequence)] == b.entries[j].record.id
      {
        var e := b.entries[i];
        if (b.stream, e.sequence) in tables.items && tables.items[(b.stream, e.sequence)] != e.record.id {
          return None;
        }
        GatherStep(tables, b, i, rows);
        rows := GatherOne(tables, b, e, rows);
        i := i + 1;
      }
      g := Some(rows);
    }

    /** Writes the gathered rows and revises everything that depends on a changed scope. */
    method WriteBatch(b: Batch, g: Gathered, now: int) returns (tx: Db)
      requires forall s :: s in tables.scopes ==> tables.scopes[s].revision < tables.meta.inputRevision + 1
      requires GatheredOk(tables, b, |b.entries|, g)
      ensures tx == Ingest(tables, b, now)
    {
      hide GatheredOk, Touch, Admit, Bind, Enlist, ChangedScopes, IngestedDeps, IngestedScopes, NextRevision;
      GatheredAll(tables, b, g);
      var isNew := g.raw.Keys != {};
      var revision := if isNew then tables.meta.inputRevision + 1 else tables.meta.inputRevision;
      tx := tables.(evidence := tables.evidence + g.raw, deps := tables.deps + g.deps,
                    items := g.items, batchItems := g.batchItems);
      var rows := ReviseScopes(tx.scopes, tx.deps, g.changed, isNew, revision, tables, b);
      var receipt := Receipt(tx.databaseId, b.stream, b.id, b.hash, b.fromSequence, b.toSequence, |b.entries|, now, revision);
      tx := tx.(scopes := rows, batches := tx.batches[(b.stream, b.id) := receipt],
                meta := tx.meta.(inputRevision := revision));
    }

    /** Accepts a batch, replays its receipt, or rejects it without writing. */
    method Accept(version: nat, b: Batch, now: int) returns (r: Result<Response, AcceptError>)
      requires Inv(tables)
      modifies this
      ensures tables == AcceptSpec(old(tables), version, b, now).0
      ensures r == AcceptSpec(old(tables), version, b, now).1
      ensures Inv(tables)
    {
      hide Inv, Ingest, GatheredOk, SequenceClash, ResponseFor, Readable, ValidBatch;
      AcceptKeepsInv(tables, version, b, now);
      if !ValidBatch(b) {
        return Err(InvalidRequest);
      }
      if !Readable(tables, version) {
        return Err(Unreadable);
      }
      if b.databaseId != tables.databaseId {
        return Err(DatabaseMismatch);
      }
      if (b.stream, b.id) in tables.batches {
        var receipt := tables.batches[(b.stream, b.id)];
        if receipt.hash != b.hash {
          return Err(BatchConflict);
        }
        return Ok(ResponseFor(tables, receipt));
      }
      if tables.meta.inputRevision >= SAFE_INTEGER {
        return Err(RevisionLimit);
      }
      var gathered := GatherBatch(b);
      if gathered.None? {
        return Err(SequenceConflict);
      }
      RowsBelowNext(tables);
      var tx := WriteBatch(b, gathered.value, now);
      IngestStoresReceipt(tables, b, now);
      r := Ok(ResponseFor(tx, tx.batches[(b.stream, b.id)]));
      tables := tx;
    }

    /** Selects the oldest eligible component that no claim touches and the allowance
        fits; NoWork means every eligible scope's component is claimed or too large. */
    method LoadWorkExcluding(version: nat, claims: seq<Work>, maxBytes: nat, now: int) returns (r: LoadResult)
      requires Inv(tables)
      ensures r == Unavailable <==> !Readable(tables, version)
      ensures r.Found? ==>
                && Admissible(tables, now, ClaimedScopes(claims), maxBytes, r.work.root)
                && r.work == WorkAt(tables, r.work.root)
                && forall s :: Admissible(tables, now, ClaimedScopes(claims), maxBytes, s) ==>
                     !Before(CandidateOf(tables, s), CandidateOf(tables, r.work.root))
      ensures r.NoWork? ==> forall s :: !Admissible(tables, now, ClaimedScopes(claims), maxBytes, s)
      ensures r.Found? ==>
                && r.work.root in tables.scopes
                && var row := tables.scopes[r.work.root];
                && (row.processed != row.revision || row.generation != tables.meta.target) && row.retryAt <= now
                && (forall i :: 0 <= i < |claims| ==> r.work.scopes.Keys !! claims[i].scopes.Keys)
                && (maxBytes == 0 || r.work.bytes <= maxBytes)
                && r.work.revision == tables.meta.inputRevision && r.work.generation == tables.meta.target
                && (forall s :: s in r.work.scopes ==> s in tables.scopes && r.work.scopes[s] == tables.scopes[s].revision)
                && forall s :: Admissible(tables, now, ClaimedScopes(claims), maxBytes, s) ==>
                     row.revision <= tables.scopes[s].revision &&
                     (row.revision == tables.scopes[s].revision ==> !TextLess(s, r.work.root))
      ensures r.NoWork? ==> forall s :: s in tables.scopes ==>
                var row := tables.scopes[s];
                || (row.processed == row.revision && row.generation == tables.meta.target)
                || row.retryAt > now
                || (exists i :: 0 <= i < |claims| && !(ComponentRows(tables, s).Keys !! claims[i].scopes.Keys))
                || 0 < maxBytes < TotalSize(ComponentEvidence(tables, s))
    {
      hide Inv, Readable, Available, TotalSize, Before, ScanOk, Eligible, Successor, IsPage, After, Undirected;
      if !Readable(tables, version) {
        return Unavailable;
      }
      var claimed := CollectClaims(claims);
      var excluded := claimed;
      var cursor := Candidate("", -1);
      CursorStartsFirst(tables, now, claimed, maxBytes);
      while true
        invariant ScanOk(tables, now, claimed, maxBytes, excluded, cursor)
        decreases |After(tables, now, cursor)|
      {
        var page := NextPage(now, cursor);
        if page == [] {
          ScanEnds(tables, now, claimed, maxBytes, excluded, cursor);
          NothingAdmissible(tables, now, claims, maxBytes);
          return NoWork;
        }
        ghost var start := cursor;
        var i := 0;
        while i < |page|
          invariant 0 <= i <= |page|
          invariant cursor == if i == 0 then start else page[i - 1]
          invariant ScanOk(tables, now, claimed, maxBytes, excluded, cursor)
        {
          PageIsNext(tables, now, start, page, i);
          ghost var previous := cursor;
          cursor := page[i];
          i := i + 1;
          if cursor.scope in excluded {
            SkipExcluded(tables, now, claimed, maxBytes, excluded, previous, cursor);
            continue;
          }
          var work := ReadWork(cursor.scope);
          var blocked := exists m :: m in work.scopes && m in excluded;
          // The whole component is marked, so its members are not examined again.
          ghost var before := excluded;
          excluded := excluded + work.scopes.Keys;
          if !blocked && (maxBytes == 0 || work.bytes <= maxBytes) {
            FoundIsLeast(tables, now, claimed, maxBytes, before, previous, cursor);
            FoundIsDue(tables, now, claims, maxBytes, cursor.scope);
            return Found(work);
          }
          SkipComponent(tables, now, claimed, maxBytes, before, previous, cursor);
        }
        PageShrinks(tables, now, start, page);
      }
    }

    method NextPage(now: int, cursor: Candidate) returns (page: seq<Candidate>)
      ensures IsPage(tables, now, cursor, page)
    {
      WaitingIsEligible(tables, now);
      hide Before, Eligible, Waiting;
      page := CandidatePage(tables.scopes, tables.meta.target, now, cursor, CANDIDATE_PAGE_SIZE);
    }

    /** One component with its rows, records and stored size. */
    method ReadWork(root: Scope) returns (w: Work)
      ensures w == WorkAt(tables, root)
    {
      hide TotalSize, Undirected;
      var members, rows := ReadComponent(tables.scopes, tables.deps, root);
      var records := map id | id in tables.evidence && tables.evidence[id].scope in members :: tables.evidence[id];
      var bytes := SumSizes(records);
      w := Work(tables.meta.inputRevision, tables.meta.target, root, bytes, rows, records);
    }

    /** Publishes an interpretation if the work still describes its component, replacing
        that component's rows of the generation; otherwise nothing is written. */
    method PublishProjection(version: nat, w: Work, p: Projection) returns (r: PublishResult)
      requires Inv(tables)
      modifies this
      ensures tables == PublishSpec(old(tables), version, w, p).0
      ensures r == PublishSpec(old(tables), version, w, p).1
      ensures r != Published ==> tables == old(tables)
      ensures w.root in w.scopes ==> Inv(tables)
    {
      hide Inv, Readable, ValidProjection, DropRows, DropProvenance, NewProvenance, MarkProcessed, Settle,
           InsertFacts, InsertEstimates, PutOutcomes, Undirected;
      if w.root in w.scopes {
        PublishKeepsInv(tables, version, w, p);
      }
      var valid := CheckFacts(p);
      if !valid {
        return Failed(InvalidFact);
      }
      if !Readable(tables, version) {
        return Failed(UnreadableData);
      }
      if tables.meta.target != w.generation {
        return Stale;
      }
      var members, rows := ReadComponent(tables.scopes, tables.deps, w.root);
      assert rows == ComponentRows(tables, w.root);
      var matched := SameRows(rows, w.scopes);
      if !matched {
        return Stale;
      }
      var written := PublishRows(w, p);
      if written.None? {
        return Failed(RowConflict);
      }
      var tx := written.value;
      if tables.meta.revision >= SAFE_INTEGER {
        return Failed(RevisionExhausted);
      }
      tables := Settle(tx, w);
      r := Published;
    }

    /** Deletes the component's old rows, inserts the new ones and marks its scopes. */
    method PublishRows(w: Work, p: Projection) returns (tx: Option<Db>)
      ensures tx == ReplaceRows(tables, w, p)
    {
      hide DropRows, DropProvenance, NewProvenance, MarkProcessed, InsertFacts, InsertEstimates, PutOutcomes;
      var kept := DropProvenance(tables.provenance, tables.facts, w.generation, w.scopes.Keys);
      var facts := WriteFacts(DropRows(tables.facts, w.generation, w.scopes.Keys), w, p.contributions);
      if facts.None? {
        return None;
      }
      var estimates := WriteEstimates(DropRows(tables.estimates, w.generation, w.scopes.Keys), w, p.estimates);
      if estimates.None? {
        return None;
      }
      var added := GatherProvenance(w, p.contributions);
      if kept * added != {} {
        return None;
      }
      var outcomes := WriteOutcomes(tables.outcomes, w, p.outcomes);
      var scopes := MarkScopes(tables.scopes, w);
      tx := Some(tables.(facts := facts.value, estimates := estimates.value, provenance := kept + added,
                         outcomes := outcomes, scopes := scopes));
    }

    /** Stages a rebuild, or reports the one already under way. */
    method Reprocess(version: nat) returns (r: Result<nat, ReprocessError>)
      requires Inv(tables)
      modifies this
      ensures tables == ReprocessSpec(old(tables), version).0
      ensures r == ReprocessSpec(old(tables), version).1
      ensures Inv(tables)
    {
      hide Inv, Readable, ForgiveAll, Activate;
      ReprocessKeepsInv(tables, version);
      if !Readable(tables, version) {
        return Err(UnreadableStore);
      }
      var m, tx := tables.meta, tables;
      TargetIsStored(tables, version);
      if m.target > m.generation {
        if tx.generations[m.target].version == version {
          return Ok(m.target);
        }
        // Never finish an interrupted generation under rules other than its own.
        tx := tx.(generations := tx.generations[m.target := tx.generations[m.target].(state := Retained)]);
      }
      if m.target >= SAFE_INTEGER {
        return Err(GenerationLimit);
      }
      var next := m.target + 1;
      tx := tx.(generations := tx.generations[next := Generation(version, Building)]);
      tx := tx.(meta := tx.meta.(target := next));
      tx := tx.(scopes := ForgiveAll(tx.scopes));
      if tables.scopes == map[] {
        tx := Activate(tx, next);
      }
      tables := tx;
      r := Ok(next);
    }

    /** Opening a store: a target of older rules is not written to; a rebuild under the
        program's own rules is staged instead. */
    method PrepareGeneration(version: nat) returns (r: Result<nat, ReprocessError>)
      requires Inv(tables)
      modifies this
      ensures tables == OpenSpec(old(tables), version).0
      ensures r == OpenSpec(old(tables), version).1
      ensures Inv(tables)
    {
      hide Inv, ReprocessSpec;
      if !Readable(tables, version) {
        return Err(UnreadableStore);
      }
      if tables.generations[tables.meta.target].version == version {
        return Ok(tables.meta.target);
      }
      r := Reprocess(version);
    }

    /** Delays a failed component; scopes revised since stay immediately eligible. */
    method RecordFailure(w: Work, now: int)
      requires Inv(tables)
      modifies this
      ensures tables == FailureSpec(old(tables), w, now)
      ensures Inv(tables)
    {
      hide Inv, Power2;
      FailureKeepsInv(tables, w, now);
      if w.root !in tables.scopes || tables.meta.target != w.generation {
        return;
      }
      var delay := 1000 * Power2(Min(tables.scopes[w.root].attempts, MAX_BACKOFF_EXPONENT));
      var scopes := DelayScopes(tables.scopes, w, now + delay);
      tables := tables.(scopes := scopes);
    }
  }

  lemma TargetIsStored(db: Db, version: nat)
    requires Readable(db, version)
    ensures db.meta.target in db.generations
  {
  }

  method CheckFacts(p: Projection) returns (ok: bool)
    ensures ok <==> ValidProjection(p)
  {
    for i := 0 to |p.contributions|
      invariant forall j :: 0 <= j < i ==> p.contributions[j].fact.valid
    {
      if !p.contributions[i].fact.valid {
        return false;
      }
    }
    for i := 0 to |p.estimates|
      invariant forall j :: 0 <= j < i ==> p.estimates[j].fact.valid
    {
      if !p.estimates[i].fact.valid {
        return false;
      }
    }
    ok := true;
  }

  /** Compares membership and revisions by matching every current row and counting. */
  method SameRows(current: map<Scope, nat>, expected: map<Scope, nat>) returns (same: bool)
    ensures same <==> current == expected
  {
    var matched, count := true, 0;
    var rest := current.Keys;
    while rest != {}
      invariant rest <= current.Keys
      invariant count == |current.Keys| - |rest|
      invariant matched <==> forall s :: s in current.Keys - rest ==> s in expected && expected[s] == current[s]
      decreases rest
    {
      var s :| s in rest;
      if !(s in expected && expected[s] == current[s]) {
        matched := false;
      }
      count := count + 1;
      rest := rest - {s};
    }
    assert |expected| == |expected.Keys|;
    same := matched && count == |expected|;
    if same {
      EqualByCount(current.Keys, expected.Keys);
    }
  }

  lemma EqualByCount(a: set<Scope>, b: set<Scope>)
    requires a <= b && |a| == |b|
    ensures a == b
  {
    if a < b {
      SubsetSmaller(a, b);
    }
  }

  method WriteFacts(rows: map<FactKey, FactRow>, w: Work, cs: seq<Contribution>) returns (r: Option<map<FactKey, FactRow>>)
    ensures r == InsertFacts(rows, w, cs)
  {
    var tx := rows;
    var i := 0;
    while i < |cs|
      invariant 0 <= i <= |cs|
      invariant InsertFacts(rows, w, cs[..i]) == Some(tx)
    {
      assert cs[..i + 1][..i] == cs[..i];
      var k := (w.generation, cs[i].fact.id);
      if k in tx {
        ConflictStays(rows, w, cs, i + 1);
        return None;
      }
      tx := tx[k := FactRow(cs[i].fact.payload, w.revision)];
      i := i + 1;
    }
    assert cs[..i] == cs;
    r := Some(tx);
  }

  lemma {:induction false} ConflictStays(rows: map<FactKey, FactRow>, w: Work, cs: seq<Contribution>, n: nat)
    requires n <= |cs| && InsertFacts(rows, w, cs[..n]).None?
    ensures InsertFacts(rows, w, cs).None?
  {
    if n < |cs| {
      assert cs[..|cs| - 1][..n] == cs[..n];
      ConflictStays(rows, w, cs[..|cs| - 1], n);
    } else {
      assert cs[..n] == cs;
    }
  }

  method WriteEstimates(rows: map<FactKey, EstimateRow>, w: Work, es: seq<Estimate>) returns (r: Option<map<FactKey, EstimateRow>>)
    ensures r == InsertEstimates(rows, w, es)
  {
    var tx := rows;
    var i := 0;
    while i < |es|
      invariant 0 <= i <= |es|
      invariant InsertEstimates(rows, w, es[..i]) == Some(tx)
    {
      assert es[..i + 1][..i] == es[..i];
      var k := (w.generation, es[i].fact.id);
      if k in tx {
        EstimateConflictStays(rows, w, es, i + 1);
        return None;
      }
      tx := tx[k := EstimateRow(es[i].fact.payload, w.revision, es[i].evidence, es[i].code)];
      i := i + 1;
    }
    assert es[..i] == es;
    r := Some(tx);
  }

  lemma {:induction false} EstimateConflictStays(rows: map<FactKey, EstimateRow>, w: Work, es: seq<Estimate>, n: nat)
    requires n <= |es| && InsertEstimates(rows, w, es[..n]).None?
    ensures InsertEstimates(rows, w, es).None?
  {
    if n < |es| {
      assert es[..|es| - 1][..n] == es[..n];
      EstimateConflictStays(rows, w, es[..|es| - 1], n);
    } else {
      assert es[..n] == es;
    }
  }

  method GatherProvenance(w: Work, cs: seq<Contribution>) returns (added: set<(nat, FactId, EvidenceId)>)
    ensures added == NewProvenance(w, cs)
  {
    added := {};
    for i := 0 to |cs|
      invariant added == set j, id | 0 <= j < i && id in cs[j].evidence :: (w.generation, cs[j].fact.id, id)
    {
      added := added + set id | id in cs[i].evidence :: (w.generation, cs[i].fact.id, id);
    }
  }

  method WriteOutcomes(rows: map<(nat, EvidenceId), Outcome>, w: Work, os: seq<(EvidenceId, Outcome)>)
    returns (tx: map<(nat, EvidenceId), Outcome>)
    ensures tx == PutOutcomes(rows, w, os)
  {
    tx := rows;
    for i := 0 to |os|
      invariant tx == PutOutcomes(rows, w, os[..i])
    {
      assert os[..i + 1][..i] == os[..i];
      tx := tx[(w.generation, os[i].0) := os[i].1];
    }
    assert os[..|os|] == os;
  }

  method MarkScopes(scopes: map<Scope, ScopeRow>, w: Work) returns (tx: map<Scope, ScopeRow>)
    ensures tx == MarkProcessed(scopes, w)
  {
    tx := scopes;
    var rest := w.scopes.Keys;
    while rest != {}
      invariant rest <= w.scopes.Keys && tx.Keys == scopes.Keys
      invariant forall s :: s in scopes ==>
                  tx[s] == if s in w.scopes && s !in rest
                           then ScopeRow(scopes[s].revision, w.scopes[s], w.generation, 0, 0, false) else scopes[s]
      decreases rest
    {
      var s :| s in rest;
      if s in tx {
        tx := tx[s := ScopeRow(tx[s].revision, w.scopes[s], w.generation, 0, 0, false)];
      }
      rest := rest - {s};
    }
  }

  method DelayScopes(scopes: map<Scope, ScopeRow>, w: Work, retryAt: int) returns (tx: map<Scope, ScopeRow>)
    requires w.root in scopes
    ensures tx == BackOffRows(scopes, w, retryAt)
  {
    tx := scopes;
    if w.scopes == map[] {
      if tx[w.root].revision <= w.revision {
        tx := tx[w.root := BackOff(tx[w.root], retryAt)];
      }
      return;
    }
    var rest := w.scopes.Keys;
    while rest != {}
      invariant rest <= w.scopes.Keys && tx.Keys == scopes.Keys
      invariant forall s :: s in scopes ==>
                  tx[s] == if s in w.scopes && s !in rest && scopes[s].revision == w.scopes[s]
                           then BackOff(scopes[s], retryAt) else scopes[s]
      decreases rest
    {
      var s :| s in rest;
      if s in tx && tx[s].revision == w.scopes[s] {
        tx := tx[s := BackOff(tx[s], retryAt)];
      }
      rest := rest - {s};
    }
  }

  lemma IngestStoresReceipt(db: Db, b: Batch, now: int)
    ensures (b.stream, b.id) in Ingest(db, b, now).batches
  {
  }
}
