/** Whole runs of the data store. Acceptance, loading, publication, rebuilds and
    failures interleave freely: work loaded at any earlier point may be published,
    repeatedly, at any later point. */
module StoreRuns {
  import opened Basics
  import opened Reachability
  import opened DataModel
  import opened StoreSpec
  import opened StoreInvariant
  import opened StoreHistory

  /** Work together with the tables it was read from. */
  datatype Load = Load(at: Db, work: Work)

  datatype Interpretation = Interpretation(load: Load, projection: Projection)

  /** The tables, everything loaded so far, and which interpretation last reached each scope. */
  datatype World = World(db: Db, loads: set<Load>, last: map<Scope, Interpretation>)

  datatype Step =
    | Accepting(version: nat, batch: Batch, now: int)
    | Loading(root: Scope)
    | Publishing(version: nat, load: Load, projection: Projection)
    | Reprocessing(version: nat)
    | Failing(work: Work, now: int)

  /** The outcome a projection records for an evidence id: the last one written. */
  function LookupOutcome(os: seq<(EvidenceId, Outcome)>, id: EvidenceId): Option<Outcome>
  {
    if os == [] then None
    else if os[|os| - 1].0 == id then Some(os[|os| - 1].1)
    else LookupOutcome(os[..|os| - 1], id)
  }

  /** The interpreter reports facts only of sessions it was given, and an outcome
      for every record it was given and for no other. */
  predicate Within(w: Work, p: Projection)
  {
    && (forall i :: 0 <= i < |p.contributions| ==> p.contributions[i].fact.id.scope in w.scopes)
    && (forall i :: 0 <= i < |p.estimates| ==> p.estimates[i].fact.id.scope in w.scopes)
    && (forall i :: 0 <= i < |p.outcomes| ==> p.outcomes[i].0 in w.records)
    && (forall id :: id in w.records ==> LookupOutcome(p.outcomes, id).Some?)
  }

  ghost predicate Enabled(w: World, step: Step)
  {
    match step
    case Loading(root) => root in w.db.scopes
    case Publishing(_, load, projection) => load in w.loads && Within(load.work, projection)
    case _ => true
  }

  ghost function Published'(w: World, version: nat, load: Load, p: Projection): World
  {
    var r := PublishSpec(w.db, version, load.work, p);
    if r.1 == Published
    then World(r.0, w.loads, w.last + map s | s in load.work.scopes :: Interpretation(load, p))
    else w
  }

  /** A step that is not enabled does not happen. */
  ghost function Next(w: World, step: Step): World
  {
    if !Enabled(w, step) then w
    else
      match step
      case Accepting(version, batch, now) => w.(db := AcceptSpec(w.db, version, batch, now).0)
      case Loading(root) => w.(loads := w.loads + {Load(w.db, WorkAt(w.db, root))})
      case Publishing(version, load, p) => Published'(w, version, load, p)
      case Reprocessing(version) => w.(db := ReprocessSpec(w.db, version).0)
      case Failing(work, now) => w.(db := FailureSpec(w.db, work, now))
  }

  ghost function Run(databaseId: string, version: nat, steps: seq<Step>): World
  {
    if steps == [] then World(Initial(databaseId, version), {}, map[])
    else Next(Run(databaseId, version, steps[..|steps| - 1]), steps[|steps| - 1])
  }

  // ----- the invariant of every run -----

  ghost predicate LoadOk(w: World, load: Load)
  {
    && Inv(load.at) && Grows(load.at, w.db)
    && load.work.root in load.at.scopes
    && load.work == WorkAt(load.at, load.work.root)
  }

  /** A scope that was ever processed names the interpretation that did it. */
  ghost predicate ProcessedOk(w: World, s: Scope)
    requires s in w.db.scopes
  {
    w.db.scopes[s].generation != 0 ==>
      && s in w.last
      && w.last[s].load in w.loads
      && s in w.last[s].load.work.scopes
      && w.last[s].load.work.scopes[s] == w.db.scopes[s].processed
      && w.last[s].load.work.generation == w.db.scopes[s].generation
  }

  predicate Reported(i: Interpretation, k: FactKey, row: FactRow)
  {
    exists j :: 0 <= j < |i.projection.contributions| && i.projection.contributions[j].fact.id == k.1 &&
                row == FactRow(i.projection.contributions[j].fact.payload, i.load.work.revision)
  }

  predicate Estimated(i: Interpretation, k: FactKey, row: EstimateRow)
  {
    exists j :: 0 <= j < |i.projection.estimates| && i.projection.estimates[j].fact.id == k.1 &&
                row == EstimateRow(i.projection.estimates[j].fact.payload, i.load.work.revision,
                                   i.projection.estimates[j].evidence, i.projection.estimates[j].code)
  }

  /** The estimates held for s in generation g are exactly those i made of s. */
  predicate EstimatesMatch(estimates: map<FactKey, EstimateRow>, i: Interpretation, g: nat, s: Scope)
  {
    var es := i.projection.estimates;
    && (forall k :: k in estimates && k.0 == g && k.1.scope == s ==> Estimated(i, k, estimates[k]))
    && (forall j :: 0 <= j < |es| && es[j].fact.id.scope == s ==> (g, es[j].fact.id) in estimates)
  }

  /** The rows held for s in generation g are exactly what interpretation i said of s. */
  ghost predicate RowsMatch(db: Db, i: Interpretation, g: nat, s: Scope)
  {
    var cs := i.projection.contributions;
    && (forall k :: k in db.facts && k.0 == g && k.1.scope == s ==> Reported(i, k, db.facts[k]))
    && (forall j :: 0 <= j < |cs| && cs[j].fact.id.scope == s ==> (g, cs[j].fact.id) in db.facts)
    && (forall t: (nat, FactId, EvidenceId) :: t.0 == g && t.1.scope == s ==> (t in db.provenance <==> t in NewProvenance(i.load.work, cs)))
    && (forall id :: id in i.load.work.records && i.load.work.records[id].scope == s ==>
          (g, id) in db.outcomes && LookupOutcome(i.projection.outcomes, id) == Some(db.outcomes[(g, id)]))
    && EstimatesMatch(db.estimates, i, g, s)
  }

  ghost predicate ScopeOk(w: World, s: Scope)
    requires s in w.db.scopes
  {
    w.db.scopes[s].generation != 0 ==>
      && ProcessedOk(w, s)
      && RowsMatch(w.db, w.last[s], w.db.scopes[s].generation, s)
  }

  ghost predicate WorldInv(w: World)
  {
    && Inv(w.db)
    && (forall load :: load in w.loads ==> LoadOk(w, load))
    && (forall s :: s in w.db.scopes ==> ScopeOk(w, s))
  }

  // ----- every step keeps it -----

  /** No scope is processed and no analytics row is rewritten. */
  predicate Carries(db: Db, db': Db)
  {
    && db'.facts == db.facts && db'.estimates == db.estimates
    && db'.provenance == db.provenance && db'.outcomes == db.outcomes
    && forall s :: s in db'.scopes && db'.scopes[s].generation != 0 ==>
         s in db.scopes && db'.scopes[s].generation == db.scopes[s].generation &&
         db'.scopes[s].processed == db.scopes[s].processed
  }

  lemma CarryOver(w: World, db': Db)
    requires WorldInv(w) && Inv(db') && Grows(w.db, db') && Carries(w.db, db')
    ensures WorldInv(w.(db := db'))
  {
    var w' := w.(db := db');
    hide Inv, Grows;
    forall load | load in w'.loads
      ensures LoadOk(w', load)
    {
      assert LoadOk(w, load);
      GrowsTransitive(load.at, w.db, db');
    }
    forall s | s in db'.scopes
      ensures ScopeOk(w', s)
    {
      if db'.scopes[s].generation != 0 {
        assert ScopeOk(w, s);
        assert RowsMatch(db', w.last[s], db'.scopes[s].generation, s);
      }
    }
  }

  lemma IngestCarries(db: Db, b: Batch, now: int)
    ensures Carries(db, Ingest(db, b, now))
  {
    hide IngestedScopes, AffectedScopes, Admit, Bind, Enlist, IngestedDeps, NextRevision;
    IngestedRows(db, b);
  }

  lemma AcceptCarries(db: Db, version: nat, b: Batch, now: int)
    ensures Carries(db, AcceptSpec(db, version, b, now).0)
  {
    hide Ingest, ResponseFor, SequenceClash, Readable, ValidBatch;
    IngestCarries(db, b, now);
  }

  lemma OpenIsLocal(db: Db, version: nat)
    ensures OpenGeneration(db, version) == db.(generations := OpenGeneration(db, version).generations,
                                               meta := db.meta.(target := db.meta.target + 1))
  {
  }

  /** Staging touches generations, counters and retry columns only. */
  lemma StageIsLocal(db: Db, version: nat)
    ensures Stage(db, version) == db.(scopes := ForgiveAll(db.scopes), generations := Stage(db, version).generations,
                                      meta := Stage(db, version).meta)
    ensures Stage(db, version).meta.inputRevision == db.meta.inputRevision
    ensures Stage(db, version).meta.target == db.meta.target + 1
  {
    hide ForgiveAll, OpenGeneration, Activate;
    var forgiven := db.(scopes := ForgiveAll(db.scopes));
    OpenIsLocal(forgiven, version);
    ActivateKeepsRows(OpenGeneration(forgiven, version), db.meta.target + 1);
  }

  lemma ReprocessCarries(db: Db, version: nat)
    ensures Carries(db, ReprocessSpec(db, version).0)
    ensures Grows(db, ReprocessSpec(db, version).0)
  {
    StageIsLocal(db, version);
    hide Grows, Readable, Stage;
    var db' := ReprocessSpec(db, version).0;
    assert db'.scopes.Keys == db.scopes.Keys;
    GrowsWithoutAcceptance(db, db');
  }

  lemma FailureCarries(db: Db, work: Work, now: int)
    ensures Carries(db, FailureSpec(db, work, now))
    ensures Grows(db, FailureSpec(db, work, now))
  {
    hide Power2, Grows;
    var d := FailureSpec(db, work, now);
    if d != db {
      assert d == db.(scopes := d.scopes);
    }
    assert d.scopes.Keys == db.scopes.Keys;
    GrowsWithoutAcceptance(db, d);
  }

  lemma AcceptingKeepsWorldInv(w: World, version: nat, b: Batch, now: int)
    requires WorldInv(w)
    ensures WorldInv(w.(db := AcceptSpec(w.db, version, b, now).0))
  {
    assert Inv(w.db);
    hide *;
    AcceptKeepsInv(w.db, version, b, now);
    AcceptGrows(w.db, version, b, now);
    AcceptCarries(w.db, version, b, now);
    CarryOver(w, AcceptSpec(w.db, version, b, now).0);
  }

  lemma ReprocessingKeepsWorldInv(w: World, version: nat)
    requires WorldInv(w)
    ensures WorldInv(w.(db := ReprocessSpec(w.db, version).0))
  {
    assert Inv(w.db);
    hide *;
    ReprocessKeepsInv(w.db, version);
    ReprocessCarries(w.db, version);
    CarryOver(w, ReprocessSpec(w.db, version).0);
  }

  lemma FailingKeepsWorldInv(w: World, work: Work, now: int)
    requires WorldInv(w)
    ensures WorldInv(w.(db := FailureSpec(w.db, work, now)))
  {
    assert Inv(w.db);
    hide *;
    FailureKeepsInv(w.db, work, now);
    FailureCarries(w.db, work, now);
    CarryOver(w, FailureSpec(w.db, work, now));
  }

  lemma LoadingKeepsWorldInv(w: World, root: Scope)
    requires WorldInv(w) && root in w.db.scopes
    ensures WorldInv(w.(loads := w.loads + {Load(w.db, WorkAt(w.db, root))}))
  {
    var w' := w.(loads := w.loads + {Load(w.db, WorkAt(w.db, root))});
    GrowsWithoutAcceptance(w.db, w.db);
    hide Inv, Grows, WorkAt, RowsMatch;
    assert LoadOk(w', Load(w.db, WorkAt(w.db, root))) by {
      assert WorkAt(w.db, root).root == root by { RootOfWork(w.db, root); }
    }
    forall load | load in w.loads
      ensures LoadOk(w', load)
    {
      assert LoadOk(w, load);
    }
    forall s | s in w'.db.scopes
      ensures ScopeOk(w', s)
    {
      assert ScopeOk(w, s);
    }
  }

  lemma RootOfWork(db: Db, root: Scope)
    ensures WorkAt(db, root).root == root
  {
  }

  lemma {:induction false} OutcomesPut(rows: map<(nat, EvidenceId), Outcome>, w: Work, os: seq<(EvidenceId, Outcome)>)
    ensures forall k :: k in rows ==> k in PutOutcomes(rows, w, os)
    ensures forall k :: k in PutOutcomes(rows, w, os) ==>
              if k.0 == w.generation && LookupOutcome(os, k.1).Some?
              then PutOutcomes(rows, w, os)[k] == LookupOutcome(os, k.1).value
              else k in rows && PutOutcomes(rows, w, os)[k] == rows[k]
    ensures forall id :: LookupOutcome(os, id).Some? ==> (w.generation, id) in PutOutcomes(rows, w, os)
  {
    if os != [] {
      OutcomesPut(rows, w, os[..|os| - 1]);
    }
  }

  lemma {:induction false} LookupFinds(os: seq<(EvidenceId, Outcome)>, id: EvidenceId)
    ensures LookupOutcome(os, id).Some? <==> exists i :: 0 <= i < |os| && os[i].0 == id
  {
    if os != [] {
      var front := os[..|os| - 1];
      LookupFinds(front, id);
      if LookupOutcome(front, id).Some? {
        var i :| 0 <= i < |front| && front[i].0 == id;
        assert os[i].0 == id;
      }
      if exists i :: 0 <= i < |os| && os[i].0 == id && i < |front| {
        var i :| 0 <= i < |os| && os[i].0 == id && i < |front|;
        assert front[i].0 == id;
      }
    }
  }

  /** The loaded records are the accepted ones, each in a scope of the work. */
  predicate WorkConsistent(db: Db, w: Work)
  {
    forall id :: id in w.records ==> id in db.evidence && db.evidence[id] == w.records[id] && w.records[id].scope in w.scopes
  }

  lemma LoadsAreConsistent(w: World, load: Load)
    requires LoadOk(w, load)
    ensures WorkConsistent(w.db, load.work)
    ensures load.work.root in load.work.scopes
  {
    ComponentIsClosed(load.at, load.work.root);
    forall id | id in load.work.records
      ensures load.work.records[id].scope in load.work.scopes
    {
      assert id in load.at.evidence;
      assert load.at.evidence[id].scope in ScopesOf(load.at.evidence);
    }
  }

  lemma PublishedFacts(db: Db, i: Interpretation, s: Scope)
    requires ReplaceRows(db, i.load.work, i.projection).Some? && s in i.load.work.scopes
    ensures var d := ReplaceRows(db, i.load.work, i.projection).value;
            var cs := i.projection.contributions;
            && (forall k :: k in d.facts && k.0 == i.load.work.generation && k.1.scope == s ==> Reported(i, k, d.facts[k]))
            && (forall j :: 0 <= j < |cs| && cs[j].fact.id.scope == s ==> (i.load.work.generation, cs[j].fact.id) in d.facts)
  {
    var w, cs := i.load.work, i.projection.contributions;
    var start := DropRows(db.facts, w.generation, w.scopes.Keys);
    InsertedFacts(start, w, cs);
    forall j | 0 <= j < |cs|
      ensures (w.generation, cs[j].fact.id) in InsertFacts(start, w, cs).value
    {
      ContributionsInserted(start, w, cs, j);
    }
  }

  lemma PublishedEstimates(db: Db, i: Interpretation, s: Scope)
    requires ReplaceRows(db, i.load.work, i.projection).Some? && s in i.load.work.scopes
    ensures EstimatesMatch(ReplaceRows(db, i.load.work, i.projection).value.estimates, i, i.load.work.generation, s)
  {
    var w, es := i.load.work, i.projection.estimates;
    var start := DropRows(db.estimates, w.generation, w.scopes.Keys);
    InsertedEstimates(start, w, es);
    forall j | 0 <= j < |es|
      ensures (w.generation, es[j].fact.id) in InsertEstimates(start, w, es).value
    {
      EstimatesInserted(start, w, es, j);
    }
  }

  lemma PublishLeavesOtherEstimates(db: Db, w: Work, p: Projection, i: Interpretation, g: nat, s: Scope)
    requires ReplaceRows(db, w, p).Some? && Within(w, p) && s !in w.scopes && EstimatesMatch(db.estimates, i, g, s)
    ensures EstimatesMatch(ReplaceRows(db, w, p).value.estimates, i, g, s)
  {
    var estimates, es := ReplaceRows(db, w, p).value.estimates, i.projection.estimates;
    var start := DropRows(db.estimates, w.generation, w.scopes.Keys);
    InsertedEstimates(start, w, p.estimates);
    forall k | k in estimates && k.0 == g && k.1.scope == s
      ensures Estimated(i, k, estimates[k])
    {
      assert k in start;
      assert k in db.estimates && estimates[k] == db.estimates[k];
    }
    forall j | 0 <= j < |es| && es[j].fact.id.scope == s
      ensures (g, es[j].fact.id) in estimates
    {
      assert (g, es[j].fact.id) in start;
    }
  }

  lemma PublishedProvenance(db: Db, i: Interpretation, s: Scope)
    requires AnalyticsOk(db) && ReplaceRows(db, i.load.work, i.projection).Some? && s in i.load.work.scopes
    ensures var d := ReplaceRows(db, i.load.work, i.projection).value;
            forall t: (nat, FactId, EvidenceId) :: t.0 == i.load.work.generation && t.1.scope == s ==>
              (t in d.provenance <==> t in NewProvenance(i.load.work, i.projection.contributions))
  {
  }

  lemma PublishedOutcomes(db: Db, i: Interpretation)
    requires ReplaceRows(db, i.load.work, i.projection).Some? && Within(i.load.work, i.projection)
    ensures var d := ReplaceRows(db, i.load.work, i.projection).value;
            forall id :: id in i.load.work.records ==>
              (i.load.work.generation, id) in d.outcomes &&
              LookupOutcome(i.projection.outcomes, id) == Some(d.outcomes[(i.load.work.generation, id)])
  {
    OutcomesPut(db.outcomes, i.load.work, i.projection.outcomes);
  }

  lemma PublishLeavesOtherRows(db: Db, w: Work, p: Projection, i: Interpretation, g: nat, s: Scope)
    requires ReplaceRows(db, w, p).Some? && Within(w, p) && s !in w.scopes
    requires WorkConsistent(db, w) && WorkConsistent(db, i.load.work)
    requires RowsMatch(db, i, g, s)
    ensures RowsMatch(ReplaceRows(db, w, p).value, i, g, s)
  {
    var d := ReplaceRows(db, w, p).value;
    var start := DropRows(db.facts, w.generation, w.scopes.Keys);
    InsertedFacts(start, w, p.contributions);
    OutcomesPut(db.outcomes, w, p.outcomes);
    forall k | k in d.facts && k.0 == g && k.1.scope == s
      ensures Reported(i, k, d.facts[k])
    {
      assert k in start;
      assert k in db.facts && d.facts[k] == db.facts[k];
    }
    var cs := i.projection.contributions;
    forall j | 0 <= j < |cs| && cs[j].fact.id.scope == s
      ensures (g, cs[j].fact.id) in d.facts
    {
      assert (g, cs[j].fact.id) in start;
    }
    forall id | id in i.load.work.records && i.load.work.records[id].scope == s
      ensures (g, id) in d.outcomes && LookupOutcome(i.projection.outcomes, id) == Some(d.outcomes[(g, id)])
    {
      assert id !in w.records;
      LookupFinds(p.outcomes, id);
      assert LookupOutcome(p.outcomes, id).None?;
      assert (g, id) in db.outcomes;
    }
    OtherProvenance(db, w, p, i, g, s);
    hide EstimatesMatch;
    PublishLeavesOtherEstimates(db, w, p, i, g, s);
  }

  lemma OtherProvenance(db: Db, w: Work, p: Projection, i: Interpretation, g: nat, s: Scope)
    requires ReplaceRows(db, w, p).Some? && Within(w, p) && s !in w.scopes
    ensures forall t: (nat, FactId, EvidenceId) :: t.0 == g && t.1.scope == s ==>
              (t in ReplaceRows(db, w, p).value.provenance <==> t in db.provenance)
  {
  }

  lemma ActivateKeepsRows(d: Db, g: nat)
    ensures Activate(d, g) == d.(meta := Activate(d, g).meta, generations := Activate(d, g).generations)
    ensures Activate(d, g).meta.inputRevision == d.meta.inputRevision && Activate(d, g).meta.target == d.meta.target
  {
  }

  lemma SettleKeepsRows(d: Db, w: Work)
    ensures Settle(d, w) == d.(meta := Settle(d, w).meta, generations := Settle(d, w).generations)
    ensures Settle(d, w).meta.inputRevision == d.meta.inputRevision && Settle(d, w).meta.target == d.meta.target
  {
    hide Pending, Activate;
    ActivateKeepsRows(d, w.generation);
    if d.meta.generation == w.generation {
      assert Settle(d, w) == d.(meta := d.meta.(revision := d.meta.revision + 1));
    } else if Pending(d) == {} {
      assert Settle(d, w) == Activate(d, w.generation);
    } else {
      assert Settle(d, w) == d;
    }
  }

  lemma RowsMatchReadsAnalytics(db: Db, db': Db, i: Interpretation, g: nat, s: Scope)
    requires RowsMatch(db, i, g, s)
    requires db'.facts == db.facts && db'.provenance == db.provenance && db'.outcomes == db.outcomes
    requires db'.estimates == db.estimates
    ensures RowsMatch(db', i, g, s)
  {
    hide EstimatesMatch;
  }

  lemma PublishedRowsMatch(db: Db, i: Interpretation, s: Scope)
    requires AnalyticsOk(db) && ReplaceRows(db, i.load.work, i.projection).Some?
    requires s in i.load.work.scopes && Within(i.load.work, i.projection)
    ensures RowsMatch(ReplaceRows(db, i.load.work, i.projection).value, i, i.load.work.generation, s)
  {
    PublishedFacts(db, i, s);
    PublishedProvenance(db, i, s);
    PublishedOutcomes(db, i);
    PublishedEstimates(db, i, s);
    hide EstimatesMatch, ReplaceRows, NewProvenance, AnalyticsOk, Within;
  }

  /** The state a publication leads to, before and after it settles. */
  ghost predicate PublishedInto(w: World, w': World, i: Interpretation, d: Db)
  {
    && i.load in w.loads && Within(i.load.work, i.projection)
    && FencePasses(w.db, i.load.work) && ReplaceRows(w.db, i.load.work, i.projection) == Some(d)
    && w'.db == d.(meta := w'.db.meta, generations := w'.db.generations)
    && w'.loads == w.loads && w'.last == w.last + map s | s in i.load.work.scopes :: i
  }

  lemma PublishedMemberOk(w: World, w': World, i: Interpretation, d: Db, s: Scope)
    requires WorldInv(w) && PublishedInto(w, w', i, d) && s in i.load.work.scopes
    ensures s in w'.db.scopes && ScopeOk(w', s)
  {
    MarkedRows(w.db, i.load.work);
    PublishedRowsMatch(w.db, i, s) by { assert AnalyticsOk(w.db); }
    assert d.scopes == MarkProcessed(w.db.scopes, i.load.work);
    assert w.db.meta.target == i.load.work.generation;
    assert i.load.work.scopes[s] == w.db.scopes[s].revision;
    hide WorldInv, ReplaceRows, MarkProcessed, FencePasses;
    RowsMatchReadsAnalytics(d, w'.db, i, i.load.work.generation, s);
    hide RowsMatch, Within;
    assert w'.last[s] == i;
  }

  lemma UnmarkedRows(db: Db, i: Interpretation, d: Db, s: Scope)
    requires ReplaceRows(db, i.load.work, i.projection) == Some(d)
    requires s in d.scopes && s !in i.load.work.scopes
    ensures s in db.scopes && d.scopes[s] == db.scopes[s]
  {
  }

  lemma OtherRowsMatch(w: World, w': World, i: Interpretation, d: Db, s: Scope)
    requires WorldInv(w) && PublishedInto(w, w', i, d) && s !in i.load.work.scopes
    requires s in w.db.scopes && w.db.scopes[s].generation != 0
    ensures s in w.last && RowsMatch(w'.db, w.last[s], w.db.scopes[s].generation, s)
  {
    AllLoadsOk(w, i.load);
    AllScopesOk(w, s);
    var g, j := w.db.scopes[s].generation, w.last[s];
    AllLoadsOk(w, j.load);
    assert ReplaceRows(w.db, i.load.work, i.projection) == Some(d) && Within(i.load.work, i.projection);
    assert w'.db.facts == d.facts && w'.db.provenance == d.provenance && w'.db.outcomes == d.outcomes;
    assert w'.db.estimates == d.estimates;
    hide *;
    LoadsAreConsistent(w, i.load);
    LoadsAreConsistent(w, j.load);
    PublishLeavesOtherRows(w.db, i.load.work, i.projection, j, g, s);
    RowsMatchReadsAnalytics(d, w'.db, j, g, s);
  }

  lemma PublishedOtherOk(w: World, w': World, i: Interpretation, d: Db, s: Scope)
    requires WorldInv(w) && PublishedInto(w, w', i, d) && s !in i.load.work.scopes
    requires s in w'.db.scopes
    ensures ScopeOk(w', s)
  {
    UnmarkedRows(w.db, i, d, s);
    AllScopesOk(w, s);
    if w.db.scopes[s].generation != 0 {
      OtherRowsMatch(w, w', i, d, s);
    }
    hide WorldInv, FencePasses, ReplaceRows, RowsMatch, Within;
  }

  lemma AllScopesOk(w: World, s: Scope)
    requires WorldInv(w) && s in w.db.scopes
    ensures ScopeOk(w, s)
  {
  }

  lemma AllLoadsOk(w: World, load: Load)
    requires WorldInv(w) && load in w.loads
    ensures LoadOk(w, load)
  {
  }

  lemma PublishedShape(w: World, version: nat, load: Load, p: Projection)
    requires PublishSpec(w.db, version, load.work, p).1 == Published
    requires load in w.loads && Within(load.work, p)
    ensures ReplaceRows(w.db, load.work, p).Some?
    ensures PublishedInto(w, Published'(w, version, load, p), Interpretation(load, p), ReplaceRows(w.db, load.work, p).value)
    ensures Grows(w.db, Published'(w, version, load, p).db)
  {
    var w' := Published'(w, version, load, p);
    var d := ReplaceRows(w.db, load.work, p).value;
    MarkedRows(w.db, load.work);
    SettleKeepsRows(d, load.work);
    assert d.scopes == MarkProcessed(w.db.scopes, load.work) && d.evidence == w.db.evidence && d.deps == w.db.deps && d.meta == w.db.meta;
    hide ReplaceRows, Settle, FencePasses, MarkProcessed, Within, ValidProjection, Readable;
    GrowsWithoutAcceptance(w.db, w'.db);
  }

  lemma LoadsCarry(w: World, w': World)
    requires WorldInv(w) && w'.loads == w.loads && Grows(w.db, w'.db)
    ensures forall load :: load in w'.loads ==> LoadOk(w', load)
  {
    hide Grows, Inv, WorkAt;
    forall load | load in w'.loads
      ensures LoadOk(w', load)
    {
      AllLoadsOk(w, load);
      GrowsTransitive(load.at, w.db, w'.db);
    }
  }

  lemma PublishedScopesOk(w: World, w': World, i: Interpretation, d: Db)
    requires WorldInv(w) && PublishedInto(w, w', i, d)
    ensures forall s :: s in w'.db.scopes ==> ScopeOk(w', s)
  {
    hide *;
    forall s | s in w'.db.scopes
      ensures ScopeOk(w', s)
    {
      if s in i.load.work.scopes {
        PublishedMemberOk(w, w', i, d, s);
      } else {
        PublishedOtherOk(w, w', i, d, s);
      }
    }
  }

  lemma PublishingKeepsInv(w: World, version: nat, load: Load, p: Projection)
    requires WorldInv(w) && load in w.loads
    ensures Inv(PublishSpec(w.db, version, load.work, p).0)
  {
    assert Inv(w.db);
    AllLoadsOk(w, load);
    hide *;
    LoadsAreConsistent(w, load);
    PublishKeepsInv(w.db, version, load.work, p);
  }

  lemma PublishingKeepsWorldInv(w: World, version: nat, load: Load, p: Projection)
    requires WorldInv(w) && load in w.loads && Within(load.work, p)
    ensures WorldInv(Published'(w, version, load, p))
  {
    var w' := Published'(w, version, load, p);
    hide Inv, PublishSpec, LoadOk, ScopeOk, Within, PublishedInto, Grows, ReplaceRows;
    if PublishSpec(w.db, version, load.work, p).1 == Published {
      PublishedShape(w, version, load, p);
      PublishingKeepsInv(w, version, load, p);
      LoadsCarry(w, w');
      PublishedScopesOk(w, w', Interpretation(load, p), ReplaceRows(w.db, load.work, p).value);
    }
  }

  lemma NextKeepsWorldInv(w: World, step: Step)
    requires WorldInv(w)
    ensures WorldInv(Next(w, step))
  {
    hide WorldInv;
    match step
    case Accepting(version, batch, now) => AcceptingKeepsWorldInv(w, version, batch, now);
    case Loading(root) => if root in w.db.scopes { LoadingKeepsWorldInv(w, root); }
    case Publishing(version, load, p) => if Enabled(w, step) { PublishingKeepsWorldInv(w, version, load, p); }
    case Reprocessing(version) => ReprocessingKeepsWorldInv(w, version);
    case Failing(work, now) => FailingKeepsWorldInv(w, work, now);
  }

  lemma {:induction false} RunsKeepWorldInv(databaseId: string, version: nat, steps: seq<Step>)
    ensures WorldInv(Run(databaseId, version, steps))
  {
    if steps == [] {
      InitialInv(databaseId, version);
    } else {
      RunsKeepWorldInv(databaseId, version, steps[..|steps| - 1]);
      NextKeepsWorldInv(Run(databaseId, version, steps[..|steps| - 1]), steps[|steps| - 1]);
    }
  }
}
