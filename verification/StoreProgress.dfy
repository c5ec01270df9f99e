/** Readers and rebuilds: what is visible at a revision never changes, and a rebuild
    that is started can always be finished. */
module StoreProgress {
  import opened Basics
  import opened Reachability
  import opened DataModel
  import opened StoreSpec
  import opened StoreInvariant
  import opened StoreHistory
  import opened StoreRuns

  // ----- visible history -----

  /** A step either leaves the revision and what readers see alone, or counts the
      revision up; during a rebuild it counts only when it ends the rebuild. */
  predicate VisibleStep(a: Db, b: Db)
  {
    || (b.meta.revision == a.meta.revision && b.meta.generation == a.meta.generation && VisibleRows(b) == VisibleRows(a))
    || (b.meta.revision == a.meta.revision + 1 &&
        (a.meta.generation < a.meta.target ==> b.meta.generation == b.meta.target > a.meta.generation))
  }

  lemma RowsOfOtherGenerations(db: Db, w: Work, p: Projection)
    requires ReplaceRows(db, w, p).Some? && w.generation != db.meta.generation
    ensures VisibleRows(ReplaceRows(db, w, p).value) == VisibleRows(db)
  {
    var d, g := ReplaceRows(db, w, p).value, db.meta.generation;
    var facts, estimates := DropRows(db.facts, w.generation, w.scopes.Keys), DropRows(db.estimates, w.generation, w.scopes.Keys);
    InsertedFacts(facts, w, p.contributions);
    InsertedEstimates(estimates, w, p.estimates);
    assert forall k: FactKey :: k.0 == g ==> (k in d.facts <==> k in db.facts) && (k in d.facts ==> d.facts[k] == db.facts[k]);
    assert forall k: FactKey :: k.0 == g ==> (k in d.estimates <==> k in db.estimates) && (k in d.estimates ==> d.estimates[k] == db.estimates[k]);
    assert forall t: (nat, FactId, EvidenceId) :: t.0 == g ==> (t in d.provenance <==> t in db.provenance);
    SameRowsIn(d.facts, db.facts, g);
    SameRowsIn(d.estimates, db.estimates, g);
    SameEdgesIn(d.provenance, db.provenance, g);
  }

  lemma SameRowsIn<T>(a: map<FactKey, T>, b: map<FactKey, T>, g: nat)
    requires forall k: FactKey :: k.0 == g ==> (k in a <==> k in b) && (k in a ==> a[k] == b[k])
    ensures RowsIn(a, g) == RowsIn(b, g)
  {
    forall id
      ensures id in RowsIn(a, g) <==> id in RowsIn(b, g)
    {
      assert id in RowsIn(a, g) <==> (g, id) in a;
      assert id in RowsIn(b, g) <==> (g, id) in b;
    }
  }

  lemma SameEdgesIn(a: set<(nat, FactId, EvidenceId)>, b: set<(nat, FactId, EvidenceId)>, g: nat)
    requires forall t: (nat, FactId, EvidenceId) :: t.0 == g ==> (t in a <==> t in b)
    ensures EdgesIn(a, g) == EdgesIn(b, g)
  {
    forall u
      ensures u in EdgesIn(a, g) <==> u in EdgesIn(b, g)
    {
      assert u in EdgesIn(a, g) <==> (g, u.0, u.1) in a;
      assert u in EdgesIn(b, g) <==> (g, u.0, u.1) in b;
    }
  }

  lemma PublishIsVisibleStep(db: Db, version: nat, w: Work, p: Projection)
    requires MetadataOk(db)
    ensures VisibleStep(db, PublishSpec(db, version, w, p).0)
  {
    if PublishSpec(db, version, w, p).1 == Published && db.meta.generation != w.generation {
      RowsOfOtherGenerations(db, w, p);
    }
  }

  lemma CarriedIsVisibleStep(a: Db, b: Db)
    requires Carries(a, b) && b.meta.revision == a.meta.revision && b.meta.generation == a.meta.generation
    ensures VisibleStep(a, b)
  {
  }

  lemma ReprocessIsVisibleStep(db: Db, version: nat)
    requires MetadataOk(db) && ProgressOk(db)
    ensures VisibleStep(db, ReprocessSpec(db, version).0)
  {
    hide VisibleRows;
    var b := ReprocessSpec(db, version).0;
    ReprocessCarries(db, version);
    if b.meta.generation == db.meta.generation && b.meta.revision == db.meta.revision {
      CarriedIsVisibleStep(db, b);
    }
  }

  lemma AcceptIsVisibleStep(db: Db, version: nat, b: Batch, now: int)
    ensures VisibleStep(db, AcceptSpec(db, version, b, now).0)
  {
    hide VisibleRows, VisibleStep, Carries, IngestedScopes, ResponseFor, SequenceClash, Readable, ValidBatch;
    AcceptCarries(db, version, b, now);
    CarriedIsVisibleStep(db, AcceptSpec(db, version, b, now).0);
  }

  lemma FailureIsVisibleStep(db: Db, work: Work, now: int)
    ensures VisibleStep(db, FailureSpec(db, work, now))
  {
    hide VisibleRows, VisibleStep, Carries, Power2, BackOffRows;
    FailureCarries(db, work, now);
    CarriedIsVisibleStep(db, FailureSpec(db, work, now));
  }

  lemma StepIsVisibleStep(w: World, step: Step)
    requires WorldInv(w)
    ensures VisibleStep(w.db, Next(w, step).db)
  {
    hide VisibleStep, AcceptSpec, ReprocessSpec, FailureSpec, PublishSpec, WorkAt, Within, MetadataOk, ProgressOk;
    CarriedIsVisibleStep(w.db, w.db) by { ReflexiveCarry(w.db); }
    match step
    case Accepting(version, batch, now) => AcceptIsVisibleStep(w.db, version, batch, now);
    case Loading(root) =>
    case Publishing(version, load, p) => PublishIsVisibleStep(w.db, version, load.work, p);
    case Reprocessing(version) => ReprocessIsVisibleStep(w.db, version);
    case Failing(work, now) => FailureIsVisibleStep(w.db, work, now);
  }

  lemma ReflexiveCarry(db: Db)
    ensures Carries(db, db)
  {
  }

  /** Visible history is a function of the published revision: any two states of one
      run with the same revision show the same facts, estimates and provenance. */
  lemma {:induction false} VisibleHistoryByRevision(databaseId: string, version: nat, steps: seq<Step>, i: nat)
    requires i <= |steps|
    ensures var early, late := Run(databaseId, version, steps[..i]).db, Run(databaseId, version, steps).db;
            && early.meta.revision <= late.meta.revision
            && (early.meta.revision == late.meta.revision ==> VisibleRows(early) == VisibleRows(late))
  {
    hide VisibleRows, Next;
    if i == |steps| {
      assert steps[..i] == steps;
    } else {
      var front := steps[..|steps| - 1];
      assert front[..i] == steps[..i];
      VisibleHistoryByRevision(databaseId, version, front, i);
      RunsKeepWorldInv(databaseId, version, front);
      StepIsVisibleStep(Run(databaseId, version, front), steps[|steps| - 1]);
    }
  }

  /** While a rebuild is in progress no step alters what readers see, until the one
      step that switches the active generation to the target. */
  lemma RebuildIsInvisible(databaseId: string, version: nat, steps: seq<Step>, step: Step)
    requires var db := Run(databaseId, version, steps).db; db.meta.generation < db.meta.target
    ensures var db, db' := Run(databaseId, version, steps).db, Run(databaseId, version, steps + [step]).db;
            || VisibleRows(db') == VisibleRows(db)
            || (db'.meta.generation == db'.meta.target && db'.meta.generation > db.meta.generation &&
                db'.meta.revision == db.meta.revision + 1)
  {
    hide VisibleRows, Next;
    RunsKeepWorldInv(databaseId, version, steps);
    StepIsVisibleStep(Run(databaseId, version, steps), step);
    assert (steps + [step])[..|steps|] == steps;
  }

  // ----- rebuilds finish -----

  /** In every reachable state one generation is active, it is the one readers use, an
      unfinished target is building and has work left, and all others are retained. */
  lemma RebuildNeverSticks(databaseId: string, version: nat, steps: seq<Step>)
    ensures var db := Run(databaseId, version, steps).db;
            && (forall g :: g in db.generations && db.generations[g].state == Active <==> g == db.meta.generation)
            && (forall g :: g in db.generations && g != db.meta.generation && g != db.meta.target ==>
                  db.generations[g].state == Retained)
            && db.meta.generation <= db.meta.target && db.meta.target in db.generations
            && (db.meta.generation < db.meta.target ==>
                  db.generations[db.meta.target].state == Building && Pending(db) != {})
            && (Readable(db, version) <==> forall g :: g in db.generations ==> db.generations[g].version <= version)
  {
    RunsKeepWorldInv(databaseId, version, steps);
    OnlyNewerRulesAreRefused(Run(databaseId, version, steps).db, version);
    hide Run;
  }

  lemma SettleKeepsPending(d: Db, w: Work)
    requires d.meta.target == w.generation
    ensures Pending(Settle(d, w)) == Pending(d)
  {
    SettleKeepsRows(d, w);
    hide Settle;
    PendingReadsScopes(d, Settle(d, w));
  }

  lemma PendingReadsScopes(a: Db, b: Db)
    requires a.scopes == b.scopes && a.meta.target == b.meta.target
    ensures Pending(a) == Pending(b)
  {
  }

  /** Publishing work rooted at a pending scope leaves strictly less to do, and nothing
      that was clean becomes pending. */
  lemma PublicationLowersPending(db: Db, version: nat, w: Work, p: Projection)
    requires PublishSpec(db, version, w, p).1 == Published && w.root in Pending(db)
    ensures Pending(PublishSpec(db, version, w, p).0) < Pending(db)
  {
    var d := ReplaceRows(db, w, p).value;
    MarkedRows(db, w);
    assert d.scopes == MarkProcessed(db.scopes, w) && d.meta == db.meta;
    SettleKeepsPending(d, w);
    ReachableIsClosed(Undirected(db.deps), {w.root});
    assert w.root in ComponentRows(db, w.root);
    assert w.root !in Pending(d);
    assert forall s :: s in Pending(d) ==> s in Pending(db);
  }

  /** Distinct identities, as the interpreter produces them. */
  predicate DistinctFacts(p: Projection)
  {
    && (forall i, j :: 0 <= i < j < |p.contributions| ==> p.contributions[i].fact.id != p.contributions[j].fact.id)
    && (forall i, j :: 0 <= i < j < |p.estimates| ==> p.estimates[i].fact.id != p.estimates[j].fact.id)
  }

  lemma {:induction false} DistinctFactsInsert(rows: map<FactKey, FactRow>, w: Work, cs: seq<Contribution>)
    requires forall i, j :: 0 <= i < j < |cs| ==> cs[i].fact.id != cs[j].fact.id
    requires forall i :: 0 <= i < |cs| ==> (w.generation, cs[i].fact.id) !in rows
    ensures InsertFacts(rows, w, cs).Some?
  {
    if cs != [] {
      DistinctFactsInsert(rows, w, cs[..|cs| - 1]);
      InsertedFacts(rows, w, cs[..|cs| - 1]);
    }
  }

  lemma {:induction false} DistinctEstimatesInsert(rows: map<FactKey, EstimateRow>, w: Work, es: seq<Estimate>)
    requires forall i, j :: 0 <= i < j < |es| ==> es[i].fact.id != es[j].fact.id
    requires forall i :: 0 <= i < |es| ==> (w.generation, es[i].fact.id) !in rows
    ensures InsertEstimates(rows, w, es).Some?
  {
    if es != [] {
      DistinctEstimatesInsert(rows, w, es[..|es| - 1]);
      InsertedEstimates(rows, w, es[..|es| - 1]);
    }
  }

  lemma FreshRowsFit(db: Db, w: Work, p: Projection)
    requires AnalyticsOk(db) && Within(w, p) && DistinctFacts(p)
    ensures ReplaceRows(db, w, p).Some?
  {
    DistinctFactsInsert(DropRows(db.facts, w.generation, w.scopes.Keys), w, p.contributions);
    DistinctEstimatesInsert(DropRows(db.estimates, w.generation, w.scopes.Keys), w, p.estimates);
    assert DropProvenance(db.provenance, db.facts, w.generation, w.scopes.Keys) * NewProvenance(w, p.contributions) == {};
  }

  /** Work published before anything else happens is never refused. */
  lemma FreshWorkPublishes(db: Db, version: nat, root: Scope, p: Projection)
    requires Inv(db) && Readable(db, version) && db.meta.revision < SAFE_INTEGER && root in db.scopes
    requires ValidProjection(p) && Within(WorkAt(db, root), p) && DistinctFacts(p)
    ensures PublishSpec(db, version, WorkAt(db, root), p).1 == Published
  {
    FreshRowsFit(db, WorkAt(db, root), p);
  }
}
