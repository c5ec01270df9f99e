/** What every transaction keeps, and how a later state relates to an earlier one. */
module StoreInvariant {
  import opened Basics
  import opened Reachability
  import opened DataModel
  import opened StoreSpec

  function ScopesOf(evidence: map<EvidenceId, Evidence>): set<Scope>
  {
    set id | id in evidence :: evidence[id].scope
  }

  /** A dependent scope is never less revised than a scope it depends on. */
  predicate Rising(deps: set<Edge>, scopes: map<Scope, ScopeRow>)
  {
    forall e :: e in deps && e.0 in scopes && e.1 in scopes ==> scopes[e.1].revision <= scopes[e.0].revision
  }

  predicate RevisionsRiseDownward(db: Db)
  {
    Rising(db.deps, db.scopes)
  }

  /** Every sequence a receipt covers has its batch row. */
  predicate ReceiptFits(rows: set<(StreamId, BatchId, nat)>, k: (StreamId, BatchId), r: Receipt)
  {
    && r.stream == k.0 && r.batch == k.1
    && forall i :: r.fromSequence <= i < r.fromSequence + r.accepted ==> (k.0, k.1, i) in rows
  }

  predicate ReceiptsBacked(db: Db)
  {
    && (forall k :: k in db.batches ==> ReceiptFits(db.batchItems.Keys, k, db.batches[k]))
    && db.batchItems.Values <= db.evidence.Keys
    && db.items.Values <= db.evidence.Keys
  }

  predicate MetadataOk(db: Db)
  {
    && 1 <= db.meta.generation <= db.meta.target <= SAFE_INTEGER
    && db.meta.inputRevision <= SAFE_INTEGER
    && db.meta.revision <= SAFE_INTEGER
    && ValidGenerationStates(db.generations, db.meta.generation, db.meta.target)
    && (forall g :: g in db.generations ==>
          g <= db.meta.target && (g == db.meta.generation || g == db.meta.target || db.generations[g].state == Retained))
  }

  /** Scope rows and edges are exactly those the evidence gives rise to. */
  predicate DerivedOk(db: Db)
  {
    db.scopes.Keys == ScopesOf(db.evidence) && db.deps == DepsOf(db.evidence)
  }

  predicate RowOk(row: ScopeRow, inputRevision: nat, target: nat)
  {
    1 <= row.revision <= inputRevision && row.processed <= row.revision && row.generation <= target
  }

  predicate RowsOk(db: Db)
  {
    forall s :: s in db.scopes ==> RowOk(db.scopes[s], db.meta.inputRevision, db.meta.target)
  }

  /** A rebuild in progress has something left to do; an empty store has counted
      nothing but its own activations. */
  predicate ProgressOk(db: Db)
  {
    && (db.meta.target > db.meta.generation ==> Pending(db) != {})
    && (db.scopes.Keys == {} ==> db.meta.revision + 1 == db.meta.generation)
  }

  predicate AnalyticsOk(db: Db)
  {
    && (forall k :: k in db.facts ==> k.0 <= db.meta.target)
    && (forall t :: t in db.provenance ==> (t.0, t.1) in db.facts)
  }

  predicate Inv(db: Db)
  {
    MetadataOk(db) && DerivedOk(db) && RowsOk(db) && RevisionsRiseDownward(db) &&
    ProgressOk(db) && AnalyticsOk(db) && ReceiptsBacked(db)
  }

  lemma InitialInv(databaseId: string, version: nat)
    ensures Inv(Initial(databaseId, version))
  {
  }

  // ----- acceptance -----

  /** Admitting only adds; whatever is new comes from the batch. */
  lemma {:induction false} AdmitAdds(evidence: map<EvidenceId, Evidence>, entries: seq<Entry>)
    ensures forall id :: id in evidence ==> id in Admit(evidence, entries) && Admit(evidence, entries)[id] == evidence[id]
    ensures forall i :: 0 <= i < |entries| ==> entries[i].record.id in Admit(evidence, entries)
    ensures forall id :: id in Admit(evidence, entries) && id !in evidence ==>
              exists i :: 0 <= i < |entries| && entries[i].record.id == id &&
                          entries[i].record.evidence == Admit(evidence, entries)[id]
  {
    if entries != [] {
      var front := entries[..|entries| - 1];
      AdmitAdds(evidence, front);
      forall id | id in Admit(evidence, entries) && id !in evidence
        ensures exists i :: 0 <= i < |entries| && entries[i].record.id == id &&
                            entries[i].record.evidence == Admit(evidence, entries)[id]
      {
        if id in Admit(evidence, front) {
          var i :| 0 <= i < |front| && front[i].record.id == id && front[i].record.evidence == Admit(evidence, front)[id];
          assert entries[i] == front[i];
        } else {
          assert entries[|entries| - 1].record.id == id;
        }
      }
      forall i | 0 <= i < |entries|
        ensures entries[i].record.id in Admit(evidence, entries)
      {
        if i < |front| {
          assert entries[i] == front[i];
        }
      }
    }
  }

  lemma {:induction false} BindBinds(items: map<(StreamId, nat), EvidenceId>, stream: StreamId, entries: seq<Entry>)
    ensures forall k :: k in items ==> k in Bind(items, stream, entries) && Bind(items, stream, entries)[k] == items[k]
    ensures forall k :: k in Bind(items, stream, entries) && k !in items ==>
              exists i :: 0 <= i < |entries| && k == (stream, entries[i].sequence) &&
                          Bind(items, stream, entries)[k] == entries[i].record.id
    ensures forall i :: 0 <= i < |entries| ==> (stream, entries[i].sequence) in Bind(items, stream, entries)
  {
    if entries != [] {
      var front := entries[..|entries| - 1];
      BindBinds(items, stream, front);
      forall k | k in Bind(items, stream, entries) && k !in items
        ensures exists i :: 0 <= i < |entries| && k == (stream, entries[i].sequence) &&
                            Bind(items, stream, entries)[k] == entries[i].record.id
      {
        if k in Bind(items, stream, front) {
          var i :| 0 <= i < |front| && k == (stream, front[i].sequence) && Bind(items, stream, front)[k] == front[i].record.id;
          assert entries[i] == front[i];
        } else {
          assert k == (stream, entries[|entries| - 1].sequence);
        }
      }
      forall i | 0 <= i < |entries|
        ensures (stream, entries[i].sequence) in Bind(items, stream, entries)
      {
        if i < |front| {
          assert entries[i] == front[i];
        }
      }
    }
  }

  lemma {:induction false} EnlistLists(rows: map<(StreamId, BatchId, nat), EvidenceId>, stream: StreamId, batch: BatchId, entries: seq<Entry>)
    ensures forall k :: k in rows ==> k in Enlist(rows, stream, batch, entries)
    ensures forall k :: k in Enlist(rows, stream, batch, entries) ==>
              (k in rows && Enlist(rows, stream, batch, entries)[k] == rows[k]) ||
              (k.0 == stream && k.1 == batch &&
               exists i :: 0 <= i < |entries| && k.2 == entries[i].sequence && Enlist(rows, stream, batch, entries)[k] == entries[i].record.id)
    ensures forall i :: 0 <= i < |entries| ==> (stream, batch, entries[i].sequence) in Enlist(rows, stream, batch, entries)
  {
    if entries != [] {
      var front := entries[..|entries| - 1];
      EnlistLists(rows, stream, batch, front);
      var all := Enlist(rows, stream, batch, entries);
      forall k | k in all
        ensures (k in rows && all[k] == rows[k]) ||
                (k.0 == stream && k.1 == batch &&
                 exists i :: 0 <= i < |entries| && k.2 == entries[i].sequence && all[k] == entries[i].record.id)
      {
        if k == (stream, batch, entries[|entries| - 1].sequence) {
          assert all[k] == entries[|entries| - 1].record.id;
        } else if !(k in rows && all[k] == rows[k]) {
          var i :| 0 <= i < |front| && k.2 == front[i].sequence && all[k] == front[i].record.id;
          assert entries[i] == front[i];
        }
      }
      forall i | 0 <= i < |entries|
        ensures (stream, batch, entries[i].sequence) in all
      {
        if i < |front| {
          assert entries[i] == front[i];
        }
      }
    }
  }

  lemma IngestedEvidence(db: Db, b: Batch)
    ensures forall id :: id in db.evidence ==> id in Admit(db.evidence, b.entries) && Admit(db.evidence, b.entries)[id] == db.evidence[id]
  {
    AdmitAdds(db.evidence, b.entries);
  }

  lemma IngestedEdges(db: Db, b: Batch)
    requires db.deps == DepsOf(db.evidence)
    ensures IngestedDeps(db, b) == DepsOf(Admit(db.evidence, b.entries))
  {
    hide Admit;
    IngestedEvidence(db, b);
    var evidence := Admit(db.evidence, b.entries);
    forall e | e in DepsOf(evidence)
      ensures e in IngestedDeps(db, b)
    {
      var id, p :| id in evidence && p in evidence[id].parents && e == (evidence[id].scope, p);
      if id in db.evidence {
        assert e in DepsOf(db.evidence);
      } else {
        assert id in FreshIds(db, b);
      }
    }
    forall e | e in db.deps
      ensures e in DepsOf(evidence)
    {
      var id, p :| id in db.evidence && p in db.evidence[id].parents && e == (db.evidence[id].scope, p);
      assert evidence[id] == db.evidence[id];
    }
  }

  lemma IngestedScopeKeys(db: Db, b: Batch)
    requires db.scopes.Keys == ScopesOf(db.evidence)
    ensures IngestedScopes(db, b).Keys == ScopesOf(Admit(db.evidence, b.entries)) == db.scopes.Keys + ChangedScopes(db, b)
  {
    hide Admit, AffectedScopes;
    IngestedEvidence(db, b);
    var evidence := Admit(db.evidence, b.entries);
    forall s | s in ScopesOf(evidence)
      ensures s in db.scopes.Keys + ChangedScopes(db, b)
    {
      var id :| id in evidence && evidence[id].scope == s;
      if id in db.evidence {
        assert s in ScopesOf(db.evidence);
      } else {
        assert id in FreshIds(db, b);
      }
    }
    forall s | s in db.scopes.Keys
      ensures s in ScopesOf(evidence)
    {
      var id :| id in db.evidence && db.evidence[id].scope == s;
      assert evidence[id].scope == s;
    }
  }

  lemma IngestedDerived(db: Db, b: Batch)
    requires DerivedOk(db)
    ensures IngestedDeps(db, b) == DepsOf(Admit(db.evidence, b.entries))
    ensures IngestedScopes(db, b).Keys == ScopesOf(Admit(db.evidence, b.entries)) == db.scopes.Keys + ChangedScopes(db, b)
  {
    hide Admit, IngestedDeps, IngestedScopes, ChangedScopes;
    IngestedEdges(db, b);
    IngestedScopeKeys(db, b);
  }

  /** Affected rows get the new revision, all others keep theirs. */
  lemma IngestedRows(db: Db, b: Batch)
    ensures ChangedScopes(db, b) <= AffectedScopes(db, b)
    ensures Closed(Reverse(IngestedDeps(db, b)), AffectedScopes(db, b))
    ensures FreshIds(db, b) == {} ==> AffectedScopes(db, b) == {}
    ensures forall s :: s in IngestedScopes(db, b) ==>
              IngestedScopes(db, b)[s] == (if s !in db.scopes then ScopeRow(NextRevision(db, b), 0, 0, 0, 0, false)
                                           else if s in AffectedScopes(db, b) then Renewed(db.scopes[s], NextRevision(db, b))
                                           else db.scopes[s])
    ensures forall s :: s in IngestedScopes(db, b) && s !in db.scopes ==> s in AffectedScopes(db, b)
  {
    ReachableIsClosed(Reverse(IngestedDeps(db, b)), ChangedScopes(db, b));
    if FreshIds(db, b) == {} {
      assert ChangedScopes(db, b) == {};
      ReachableIsLeast(Reverse(IngestedDeps(db, b)), {}, {});
    }
  }

  /** Raising a set that is closed downward keeps revisions rising downward. */
  lemma RaisingKeepsRising(deps: set<Edge>, scopes: map<Scope, ScopeRow>, deps': set<Edge>, scopes': map<Scope, ScopeRow>,
                           affected: set<Scope>, revision: nat)
    requires Rising(deps, scopes) && Closed(Reverse(deps'), affected)
    requires forall e :: e in deps' && e !in deps ==> e.0 in affected
    requires forall s :: s in scopes' && s in affected ==> scopes'[s].revision == revision
    requires forall s :: s in scopes' && s !in affected ==> s in scopes && scopes'[s] == scopes[s]
    requires forall s :: s in scopes ==> scopes[s].revision <= revision
    ensures Rising(deps', scopes')
  {
    forall e | e in deps' && e.0 in scopes' && e.1 in scopes'
      ensures scopes'[e.1].revision <= scopes'[e.0].revision
    {
      assert (e.1, e.0) in Reverse(deps');
    }
  }

  lemma NewEdgesAreAffected(db: Db, b: Batch)
    ensures forall e :: e in IngestedDeps(db, b) && e !in db.deps ==> e.0 in ChangedScopes(db, b)
  {
    hide Admit;
  }

  lemma NoNewsNoChange(db: Db, b: Batch)
    ensures FreshIds(db, b) == {} ==> ChangedScopes(db, b) == {} && NextRevision(db, b) == db.meta.inputRevision
    ensures FreshIds(db, b) != {} ==> NextRevision(db, b) == db.meta.inputRevision + 1
    ensures db.meta.inputRevision <= NextRevision(db, b)
  {
    hide Admit;
  }

  lemma IngestKeepsRows(db: Db, b: Batch)
    requires DerivedOk(db) && RowsOk(db)
    ensures forall s :: s in IngestedScopes(db, b) ==>
              && RowOk(IngestedScopes(db, b)[s], NextRevision(db, b), db.meta.target)
              && (s in AffectedScopes(db, b) ==> IngestedScopes(db, b)[s].revision == NextRevision(db, b))
              && (s !in AffectedScopes(db, b) ==> s in db.scopes && IngestedScopes(db, b)[s] == db.scopes[s])
    ensures forall s :: s in db.scopes ==> db.scopes[s].revision <= NextRevision(db, b)
  {
    hide IngestedScopes, AffectedScopes, ChangedScopes, IngestedDeps, FreshIds, NextRevision;
    IngestedRows(db, b);
    NoNewsNoChange(db, b);
    IngestedDerived(db, b);
    forall s | s in db.scopes
      ensures RowOk(db.scopes[s], db.meta.inputRevision, db.meta.target)
    {
    }
    forall s | s in IngestedScopes(db, b)
      ensures RowOk(IngestedScopes(db, b)[s], NextRevision(db, b), db.meta.target)
    {
      if s !in db.scopes {
        assert s in ChangedScopes(db, b);
        assert FreshIds(db, b) != {};
      }
    }
  }

  lemma IngestKeepsRevisions(db: Db, b: Batch)
    requires DerivedOk(db) && RowsOk(db) && RevisionsRiseDownward(db)
    ensures Rising(IngestedDeps(db, b), IngestedScopes(db, b))
    ensures forall s :: s in IngestedScopes(db, b) ==>
              RowOk(IngestedScopes(db, b)[s], NextRevision(db, b), db.meta.target)
  {
    hide IngestedScopes, AffectedScopes, DerivedOk, Rising, ChangedScopes, IngestedDeps, FreshIds, NextRevision, RowsOk, RowOk;
    IngestedRows(db, b);
    NewEdgesAreAffected(db, b);
    IngestKeepsRows(db, b);
    RaisingKeepsRising(db.deps, db.scopes, IngestedDeps(db, b), IngestedScopes(db, b), AffectedScopes(db, b), NextRevision(db, b));
  }

  lemma IngestKeepsReceipts(db: Db, b: Batch, now: int)
    requires ReceiptsBacked(db) && ValidBatch(b) && (b.stream, b.id) !in db.batches
    ensures ReceiptsBacked(Ingest(db, b, now))
  {
    var evidence := Admit(db.evidence, b.entries);
    var items := Bind(db.items, b.stream, b.entries);
    var rows := Enlist(db.batchItems, b.stream, b.id, b.entries);
    AdmitAdds(db.evidence, b.entries);
    BindBinds(db.items, b.stream, b.entries);
    EnlistLists(db.batchItems, b.stream, b.id, b.entries);
    hide Admit, Bind, Enlist;
    assert items.Values <= evidence.Keys;
    assert rows.Values <= evidence.Keys;
    forall i | b.fromSequence <= i < b.fromSequence + |b.entries|
      ensures (b.stream, b.id, i) in rows
    {
      assert b.entries[i - b.fromSequence].sequence == i;
    }
    assert ReceiptFits(rows.Keys, (b.stream, b.id), NewReceipt(db, b, now));
    forall k | k in db.batches
      ensures ReceiptFits(rows.Keys, k, db.batches[k])
    {
      assert ReceiptFits(db.batchItems.Keys, k, db.batches[k]);
    }
  }

  lemma IngestKeepsProgress(db: Db, b: Batch, now: int)
    requires DerivedOk(db) && RowsOk(db) && ProgressOk(db) && ValidBatch(b)
    ensures ProgressOk(Ingest(db, b, now))
  {
    IngestedDerived(db, b);
    IngestedRows(db, b);
    AdmitAdds(db.evidence, b.entries);
    var db' := Ingest(db, b, now);
    assert b.entries[0].record.id in db'.evidence;
    assert db'.evidence[b.entries[0].record.id].scope in db'.scopes;
    if db.meta.target > db.meta.generation {
      var s :| s in Pending(db);
      assert s in Pending(db');
    }
  }

  lemma IngestKeepsInv(db: Db, b: Batch, now: int)
    requires Inv(db) && ValidBatch(b) && (b.stream, b.id) !in db.batches
    requires db.meta.inputRevision < SAFE_INTEGER
    ensures Inv(Ingest(db, b, now))
  {
    IngestedDerived(db, b);
    IngestKeepsRevisions(db, b);
    assert RevisionsRiseDownward(Ingest(db, b, now)) && RowsOk(Ingest(db, b, now));
    IngestKeepsReceipts(db, b, now);
    IngestKeepsProgress(db, b, now);
    assert MetadataOk(Ingest(db, b, now));
    assert AnalyticsOk(Ingest(db, b, now));
  }

  lemma AcceptKeepsInv(db: Db, version: nat, b: Batch, now: int)
    requires Inv(db)
    ensures Inv(AcceptSpec(db, version, b, now).0)
  {
    if ValidBatch(b) && (b.stream, b.id) !in db.batches && db.meta.inputRevision < SAFE_INTEGER {
      IngestKeepsInv(db, b, now);
    }
    hide Inv, Ingest, ResponseFor, SequenceClash, Readable, ValidBatch;
  }

  // ----- publication -----

  /** Insertion keeps old rows; every new row carries one contribution's fact. */
  lemma {:induction false} InsertedFacts(rows: map<FactKey, FactRow>, w: Work, cs: seq<Contribution>)
    requires InsertFacts(rows, w, cs).Some?
    ensures forall k :: k in rows ==> k in InsertFacts(rows, w, cs).value && InsertFacts(rows, w, cs).value[k] == rows[k]
    ensures forall k :: k in InsertFacts(rows, w, cs).value && k !in rows ==>
              exists i :: 0 <= i < |cs| && k == (w.generation, cs[i].fact.id) &&
                          InsertFacts(rows, w, cs).value[k] == FactRow(cs[i].fact.payload, w.revision)
  {
    if cs != [] {
      var front := cs[..|cs| - 1];
      InsertedFacts(rows, w, front);
      var m, m0 := InsertFacts(rows, w, cs).value, InsertFacts(rows, w, front).value;
      forall k | k in m && k !in rows
        ensures exists i :: 0 <= i < |cs| && k == (w.generation, cs[i].fact.id) && m[k] == FactRow(cs[i].fact.payload, w.revision)
      {
        if k in m0 {
          var i :| 0 <= i < |front| && k == (w.generation, front[i].fact.id) && m0[k] == FactRow(front[i].fact.payload, w.revision);
          assert cs[i] == front[i];
        } else {
          assert k == (w.generation, cs[|cs| - 1].fact.id);
        }
      }
    }
  }

  /** Every contribution of a successful insertion is present under its own key. */
  lemma {:induction false} ContributionsInserted(rows: map<FactKey, FactRow>, w: Work, cs: seq<Contribution>, i: nat)
    requires InsertFacts(rows, w, cs).Some? && i < |cs|
    ensures (w.generation, cs[i].fact.id) !in rows
    ensures (w.generation, cs[i].fact.id) in InsertFacts(rows, w, cs).value
    ensures InsertFacts(rows, w, cs).value[(w.generation, cs[i].fact.id)] == FactRow(cs[i].fact.payload, w.revision)
    ensures forall j :: 0 <= j < i ==> cs[j].fact.id != cs[i].fact.id
  {
    var front := cs[..|cs| - 1];
    InsertedFacts(rows, w, front);
    if i < |front| {
      ContributionsInserted(rows, w, front, i);
      assert forall j :: 0 <= j < |front| ==> front[j] == cs[j];
    } else {
      forall j | 0 <= j < i
        ensures cs[j].fact.id != cs[i].fact.id
      {
        ContributionsInserted(rows, w, front, j);
        assert front[j] == cs[j];
      }
    }
  }

  lemma {:induction false} InsertedEstimates(rows: map<FactKey, EstimateRow>, w: Work, es: seq<Estimate>)
    requires InsertEstimates(rows, w, es).Some?
    ensures var m := InsertEstimates(rows, w, es).value;
            && (forall k :: k in rows ==> k in m && m[k] == rows[k])
            && (forall k :: k in m && k !in rows ==>
                  exists i :: 0 <= i < |es| && k == (w.generation, es[i].fact.id) &&
                              m[k] == EstimateRow(es[i].fact.payload, w.revision, es[i].evidence, es[i].code))
  {
    if es != [] {
      var front := es[..|es| - 1];
      InsertedEstimates(rows, w, front);
      var m, m0 := InsertEstimates(rows, w, es).value, InsertEstimates(rows, w, front).value;
      forall k | k in m && k !in rows
        ensures exists i :: 0 <= i < |es| && k == (w.generation, es[i].fact.id) &&
                            m[k] == EstimateRow(es[i].fact.payload, w.revision, es[i].evidence, es[i].code)
      {
        if k in m0 {
          var i :| 0 <= i < |front| && k == (w.generation, front[i].fact.id) &&
                   m0[k] == EstimateRow(front[i].fact.payload, w.revision, front[i].evidence, front[i].code);
          assert es[i] == front[i];
        } else {
          assert k == (w.generation, es[|es| - 1].fact.id);
        }
      }
    }
  }

  /** Every estimate of a successful insertion is present under its own key. */
  lemma {:induction false} EstimatesInserted(rows: map<FactKey, EstimateRow>, w: Work, es: seq<Estimate>, i: nat)
    requires InsertEstimates(rows, w, es).Some? && i < |es|
    ensures (w.generation, es[i].fact.id) in InsertEstimates(rows, w, es).value
  {
    var front := es[..|es| - 1];
    if i < |front| {
      EstimatesInserted(rows, w, front, i);
      assert front[i] == es[i];
    }
  }

  /** Marking touches only the component, and makes exactly it clean. */
  lemma MarkedRows(db: Db, w: Work)
    requires FencePasses(db, w)
    ensures var m := MarkProcessed(db.scopes, w);
            && m.Keys == db.scopes.Keys
            && (forall s :: s in w.scopes ==> s in m && m[s] == ScopeRow(db.scopes[s].revision, db.scopes[s].revision, db.meta.target, 0, 0, false))
            && (forall s :: s in m && s !in w.scopes ==> m[s] == db.scopes[s])
  {
  }

  lemma ReplaceKeepsRows(db: Db, w: Work, p: Projection)
    requires AnalyticsOk(db) && db.meta.target == w.generation && ReplaceRows(db, w, p).Some?
    ensures AnalyticsOk(ReplaceRows(db, w, p).value)
  {
    var members := w.scopes.Keys;
    var start := DropRows(db.facts, w.generation, members);
    InsertedFacts(start, w, p.contributions);
    var d := ReplaceRows(db, w, p).value;
    forall t | t in d.provenance
      ensures (t.0, t.1) in d.facts
    {
      if t in DropProvenance(db.provenance, db.facts, w.generation, members) {
        assert (t.0, t.1) in start;
      } else {
        var i :| 0 <= i < |p.contributions| && t.0 == w.generation && p.contributions[i].fact.id == t.1;
        ContributionsInserted(start, w, p.contributions, i);
      }
    }
  }

  lemma ReplaceKeepsInv(db: Db, w: Work, p: Projection)
    requires Inv(db) && FencePasses(db, w) && ReplaceRows(db, w, p).Some?
    ensures var d := ReplaceRows(db, w, p).value;
            MetadataOk(d) && DerivedOk(d) && RowsOk(d) && RevisionsRiseDownward(d) && AnalyticsOk(d) && ReceiptsBacked(d)
  {
    ReplaceKeepsRows(db, w, p);
    MarkedRows(db, w);
    var d := ReplaceRows(db, w, p).value;
    assert d == db.(facts := d.facts, estimates := d.estimates, provenance := d.provenance, outcomes := d.outcomes, scopes := MarkProcessed(db.scopes, w));
    hide FencePasses, MarkProcessed, ReplaceRows;
    forall s | s in d.scopes
      ensures RowOk(d.scopes[s], d.meta.inputRevision, d.meta.target)
    {
      assert RowOk(db.scopes[s], db.meta.inputRevision, db.meta.target);
    }
  }

  lemma PublishKeepsInv(db: Db, version: nat, w: Work, p: Projection)
    requires Inv(db) && w.root in w.scopes
    ensures Inv(PublishSpec(db, version, w, p).0)
  {
    if PublishSpec(db, version, w, p).1 == Published {
      ReplaceKeepsInv(db, w, p);
      MarkedRows(db, w);
      var d := ReplaceRows(db, w, p).value;
      assert d.scopes.Keys == db.scopes.Keys && d.meta == db.meta && d.generations == db.generations;
      hide FencePasses, MarkProcessed, ReplaceRows, DerivedOk, RowsOk, RevisionsRiseDownward, AnalyticsOk, ReceiptsBacked;
      SettleKeepsInv(d, w);
    }
  }

  lemma ActivateKeepsMetadata(d: Db)
    requires d.meta.revision < SAFE_INTEGER && MetadataOk(d)
    ensures MetadataOk(Activate(d, d.meta.target))
  {
    var d' := Activate(d, d.meta.target);
    assert d'.generations[d.meta.target].state == Active;
  }

  lemma SettleKeepsInv(d: Db, w: Work)
    requires MetadataOk(d) && DerivedOk(d) && RowsOk(d) && RevisionsRiseDownward(d) && AnalyticsOk(d) && ReceiptsBacked(d)
    requires d.meta.target == w.generation && d.scopes.Keys != {} && d.meta.revision < SAFE_INTEGER
    ensures Inv(Settle(d, w))
  {
    var d' := Settle(d, w);
    if d.meta.generation != w.generation && Pending(d) == {} {
      ActivateKeepsMetadata(d);
    }
    assert d' == d.(meta := d'.meta, generations := d'.generations);
    assert d'.meta.inputRevision == d.meta.inputRevision && d'.meta.target == d.meta.target;
    assert MetadataOk(d') && ProgressOk(d');
    hide Settle, Activate, Pending, MetadataOk, ProgressOk;
    assert DerivedOk(d') && RowsOk(d') && RevisionsRiseDownward(d');
    assert AnalyticsOk(d') && ReceiptsBacked(d');
  }

  /** Rows that differ only in their retry columns are interchangeable here. */
  lemma RetryColumnsAreFree(db: Db, d: Db)
    requires Inv(db) && d == db.(scopes := d.scopes) && d.scopes.Keys == db.scopes.Keys
    requires forall s :: s in d.scopes ==>
               d.scopes[s].revision == db.scopes[s].revision && d.scopes[s].processed == db.scopes[s].processed &&
               d.scopes[s].generation == db.scopes[s].generation
    ensures Inv(d) && Pending(d) == Pending(db)
  {
    assert Pending(d) == Pending(db);
    assert RowsOk(d) && RevisionsRiseDownward(d) && ReceiptsBacked(d);
  }

  lemma OpenKeepsMetadata(db: Db, version: nat)
    requires MetadataOk(db) && db.meta.target < SAFE_INTEGER
    ensures MetadataOk(OpenGeneration(db, version))
  {
  }

  lemma OpenKeepsTables(db: Db, version: nat)
    requires DerivedOk(db) && RowsOk(db) && RevisionsRiseDownward(db) && AnalyticsOk(db) && ReceiptsBacked(db)
    ensures var d := OpenGeneration(db, version);
            && DerivedOk(d) && RowsOk(d) && RevisionsRiseDownward(d) && AnalyticsOk(d) && ReceiptsBacked(d)
            && Pending(d) == db.scopes.Keys
  {
    var d := OpenGeneration(db, version);
    forall s | s in db.scopes
      ensures RowOk(d.scopes[s], d.meta.inputRevision, d.meta.target) && s in Pending(d)
    {
      assert RowOk(db.scopes[s], db.meta.inputRevision, db.meta.target);
    }
  }

  /** These conditions do not look at the active generation or the published revision. */
  lemma ActivationKeepsTables(d: Db)
    requires DerivedOk(d) && RowsOk(d) && RevisionsRiseDownward(d) && AnalyticsOk(d) && ReceiptsBacked(d)
    ensures var d' := Activate(d, d.meta.target);
            DerivedOk(d') && RowsOk(d') && RevisionsRiseDownward(d') && AnalyticsOk(d') && ReceiptsBacked(d')
  {
    var d' := Activate(d, d.meta.target);
    assert d' == d.(meta := d'.meta, generations := d'.generations);
  }

  lemma ForgiveKeepsInv(db: Db)
    requires Inv(db)
    ensures Inv(db.(scopes := ForgiveAll(db.scopes)))
  {
    hide Inv;
    RetryColumnsAreFree(db, db.(scopes := ForgiveAll(db.scopes)));
  }

  lemma EmptyStoreIsIdle(db: Db)
    requires Inv(db) && db.scopes == map[]
    ensures db.meta.target == db.meta.generation && db.meta.revision + 1 == db.meta.generation
  {
    hide DerivedOk, RowsOk, RevisionsRiseDownward, AnalyticsOk, ReceiptsBacked, ValidGenerationStates;
    assert Pending(db) == {};
  }

  lemma OpenCounters(db: Db, version: nat)
    ensures OpenGeneration(db, version).scopes == db.scopes
    ensures OpenGeneration(db, version).meta == db.meta.(target := db.meta.target + 1)
  {
  }

  lemma ActivateCounters(d: Db, g: nat)
    ensures Activate(d, g).scopes == d.scopes
    ensures Activate(d, g).meta == d.meta.(generation := g, revision := d.meta.revision + 1)
  {
  }

  lemma StageKeepsInv(db: Db, version: nat)
    requires Inv(db) && db.meta.target < SAFE_INTEGER
    ensures Inv(Stage(db, version))
  {
    hide MetadataOk, DerivedOk, RowsOk, RevisionsRiseDownward, AnalyticsOk, ReceiptsBacked, OpenGeneration, Activate;
    var forgiven := db.(scopes := ForgiveAll(db.scopes));
    ForgiveKeepsInv(db);
    OpenKeepsMetadata(forgiven, version);
    OpenKeepsTables(forgiven, version);
    OpenCounters(forgiven, version);
    var d := OpenGeneration(forgiven, version);
    if db.scopes == map[] {
      EmptyStoreIsIdle(db);
      ActivateKeepsMetadata(d);
      ActivationKeepsTables(d);
      ActivateCounters(d, d.meta.target);
    } else {
      var s :| s in db.scopes;
      assert s in forgiven.scopes.Keys;
    }
  }

  lemma ReprocessKeepsInv(db: Db, version: nat)
    requires Inv(db)
    ensures Inv(ReprocessSpec(db, version).0)
  {
    if db.meta.target < SAFE_INTEGER {
      StageKeepsInv(db, version);
    }
    hide Inv, Stage;
  }

  lemma FailureKeepsInv(db: Db, w: Work, now: int)
    requires Inv(db)
    ensures Inv(FailureSpec(db, w, now))
    ensures Pending(FailureSpec(db, w, now)) == Pending(db)
  {
    hide Inv, Power2, Pending;
    var d := FailureSpec(db, w, now);
    if d != db {
      assert d == db.(scopes := d.scopes);
      RetryColumnsAreFree(db, d);
    }
  }

  /** A reachable store is only ever refused for having been written by newer rules. */
  lemma OnlyNewerRulesAreRefused(db: Db, version: nat)
    requires Inv(db)
    ensures Readable(db, version) <==> forall g :: g in db.generations ==> db.generations[g].version <= version
  {
  }
}
