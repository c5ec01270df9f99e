/** Driving the store one component at a time: a single processing step, and draining
    until nothing is eligible. */
module DataEngine {
  import opened Basics
  import opened DataModel
  import opened StoreSpec
  import opened StoreInvariant
  import opened StoreHistory
  import opened StoreRuns
  import opened StoreProgress
  import opened Selection
  import opened DataStore

  // ----- serial processing -----

  type Interpreter = Work -> Projection

  /** Work holds the scope of each of its records, as every loaded component does. */
  predicate WholeWork(w: Work)
  {
    forall id :: id in w.records ==> w.records[id].scope in w.scopes
  }

  /** What interpretation guarantees for every component (proved in Processor.dfy). */
  ghost predicate Conforms(interpret: Interpreter)
  {
    forall w :: WholeWork(w) ==> ValidProjection(interpret(w)) && Within(w, interpret(w)) && DistinctFacts(interpret(w))
  }

  predicate VersionsUpTo(db: Db, version: nat)
  {
    forall g :: g in db.generations ==> db.generations[g].version <= version
  }

  lemma ActivateKeepsVersions(d: Db, g: nat, version: nat)
    requires VersionsUpTo(d, version)
    ensures VersionsUpTo(Activate(d, g), version)
  {
  }

  lemma SettleKeepsVersions(d: Db, w: Work, version: nat)
    requires VersionsUpTo(d, version)
    ensures VersionsUpTo(Settle(d, w), version)
  {
    hide Pending, Activate, VersionsUpTo;
    ActivateKeepsVersions(d, w.generation, version);
    SameVersions(d, d.(meta := d.meta.(revision := d.meta.revision + 1)), version);
  }

  lemma PublishKeepsVersions(db: Db, version: nat, w: Work, p: Projection)
    requires VersionsUpTo(db, version)
    ensures VersionsUpTo(PublishSpec(db, version, w, p).0, version)
  {
    hide Settle, VersionsUpTo, Readable, ValidProjection, FencePasses, InsertFacts, InsertEstimates, DropRows,
         DropProvenance, NewProvenance, PutOutcomes, MarkProcessed;
    if PublishSpec(db, version, w, p).1 == Published {
      var d := ReplaceRows(db, w, p).value;
      SameVersions(db, d, version);
      SettleKeepsVersions(d, w, version);
    }
  }

  lemma SameVersions(a: Db, b: Db, version: nat)
    requires a.generations == b.generations
    ensures VersionsUpTo(a, version) == VersionsUpTo(b, version)
  {
  }

  /** Retry times never move later by publishing. */
  lemma PublishKeepsRetries(db: Db, version: nat, w: Work, p: Projection, now: int)
    requires 0 <= now && forall s :: s in db.scopes ==> db.scopes[s].retryAt <= now
    ensures var db' := PublishSpec(db, version, w, p).0; forall s :: s in db'.scopes ==> db'.scopes[s].retryAt <= now
  {
    hide Settle, Readable, ValidProjection, FencePasses, InsertFacts, InsertEstimates, DropRows,
         DropProvenance, NewProvenance, PutOutcomes;
    if PublishSpec(db, version, w, p).1 == Published {
      SettleKeepsRows(ReplaceRows(db, w, p).value, w);
    }
  }

  /** The oldest eligible component was interpreted and published. */
  ghost predicate WorkedFrom(db: Db, db': Db, version: nat, now: int, interpret: Interpreter, root: Scope)
  {
    && Eligible(db, now, root)
    && (forall s :: Eligible(db, now, s) ==> !Before(CandidateOf(db, s), CandidateOf(db, root)))
    && db' == PublishSpec(db, version, WorkAt(db, root), interpret(WorkAt(db, root))).0
  }

  /** One load, interpretation and publication. A failure is recorded against the work. */
  method ProcessNext(store: Store, version: nat, interpret: Interpreter, now: int) returns (worked: bool, failed: bool)
    requires Inv(store.tables) && VersionsUpTo(store.tables, version) && Conforms(interpret)
    modifies store
    ensures Inv(store.tables) && VersionsUpTo(store.tables, version)
    ensures failed <==> old(store.tables.meta.revision) >= SAFE_INTEGER && exists s :: Eligible(old(store.tables), now, s)
    ensures worked ==> Pending(store.tables) < Pending(old(store.tables))
    ensures !worked && !failed ==> store.tables == old(store.tables) && forall s :: !Eligible(store.tables, now, s)
    ensures worked ==> !failed && exists root :: WorkedFrom(old(store.tables), store.tables, version, now, interpret, root)
    ensures failed ==> store.tables.meta == old(store.tables.meta)
  {
    hide Inv, VersionsUpTo, Before, TotalSize, PublishSpec, Eligible, FailureSpec;
    ghost var db := store.tables;
    ReadableHere(db, version);
    var loaded := store.LoadWorkExcluding(version, [], 0, now);
    AllAvailable(db, now);
    match loaded
    case Found(work) =>
      WorkHasRoot(db, work.root, now);
      LoadedIsWhole(db, work.root);
      PublishKeepsVersions(db, version, work, interpret(work));
      var result := store.PublishProjection(version, work, interpret(work));
      if result.Failed? {
        FreshResult(db, version, work.root, interpret(work));
        FailureKeepsGenerations(db, work, now);
        SameVersions(db, FailureSpec(db, work, now), version);
        store.RecordFailure(work, now);
        return false, true;
      }
      FreshResult(db, version, work.root, interpret(work));
      PublicationLowersPending(db, version, work, interpret(work));
      assert WorkedFrom(db, store.tables, version, now, interpret, work.root);
      return true, false;
    case _ =>
      return false, false;
  }

  lemma LoadedIsWhole(db: Db, root: Scope)
    requires Inv(db)
    ensures WholeWork(WorkAt(db, root))
  {
    assert DerivedOk(db);
    hide Inv, TotalSize;
    forall id | id in WorkAt(db, root).records
      ensures WorkAt(db, root).records[id].scope in WorkAt(db, root).scopes
    {
      assert db.evidence[id].scope in ScopesOf(db.evidence);
    }
  }

  lemma ReadableHere(db: Db, version: nat)
    requires Inv(db) && VersionsUpTo(db, version)
    ensures Readable(db, version)
  {
    OnlyNewerRulesAreRefused(db, version);
  }

  lemma FailureKeepsGenerations(db: Db, w: Work, now: int)
    ensures FailureSpec(db, w, now).generations == db.generations
    ensures FailureSpec(db, w, now).meta == db.meta
  {
  }

  /** Without claims or a byte limit every eligible scope is admissible. */
  lemma AllAvailable(db: Db, now: int)
    ensures forall s :: Admissible(db, now, ClaimedScopes([]), 0, s) <==> Eligible(db, now, s)
  {
    hide Eligible, TotalSize;
    assert ClaimedScopes([]) == {};
  }

  lemma WorkHasRoot(db: Db, root: Scope, now: int)
    requires Eligible(db, now, root)
    ensures root in WorkAt(db, root).scopes && root in Pending(db) && root in db.scopes
  {
    hide TotalSize;
    OwnRow(db, root);
  }

  lemma FreshResult(db: Db, version: nat, root: Scope, p: Projection)
    requires Inv(db) && VersionsUpTo(db, version) && root in db.scopes
    requires ValidProjection(p) && Within(WorkAt(db, root), p) && DistinctFacts(p)
    ensures PublishSpec(db, version, WorkAt(db, root), p).1 ==
            (if db.meta.revision >= SAFE_INTEGER then Failed(RevisionExhausted) else Published)
  {
    ReadableHere(db, version);
    hide Inv, TotalSize;
    FreshRowsFit(db, WorkAt(db, root), p) by { AnalyticsAreOk(db); }
  }

  lemma AnalyticsAreOk(db: Db)
    requires Inv(db)
    ensures AnalyticsOk(db)
  {
  }

  /** Repeats until nothing is eligible. With no acceptance in between this finishes any
      rebuild, unless the published revision has run out. */
  method Drain(store: Store, version: nat, interpret: Interpreter, now: nat) returns (failed: bool)
    requires Inv(store.tables) && VersionsUpTo(store.tables, version) && Conforms(interpret)
    modifies store
    ensures Inv(store.tables)
    ensures !failed ==> forall s :: !Eligible(store.tables, now, s)
    ensures failed ==> store.tables.meta.revision >= SAFE_INTEGER
    ensures !failed && (forall s :: s in old(store.tables).scopes ==> old(store.tables).scopes[s].retryAt <= now) ==>
              Pending(store.tables) == {} && store.tables.meta.generation == store.tables.meta.target
  {
    hide Inv, VersionsUpTo, TotalSize, PublishSpec, Eligible, Before, Conforms;
    ghost var due := forall s :: s in store.tables.scopes ==> store.tables.scopes[s].retryAt <= now;
    while true
      invariant Inv(store.tables) && VersionsUpTo(store.tables, version)
      invariant due ==> forall s :: s in store.tables.scopes ==> store.tables.scopes[s].retryAt <= now
      decreases Pending(store.tables)
    {
      ghost var db := store.tables;
      var worked, stop := ProcessNext(store, version, interpret, now);
      if stop {
        failed := true;
        return;
      }
      if !worked {
        DrainedMeansCurrent(store.tables, now);
        return false;
      }
      if due {
        var root :| WorkedFrom(db, store.tables, version, now, interpret, root);
        PublishKeepsRetries(db, version, WorkAt(db, root), interpret(WorkAt(db, root)), now);
      }
    }
  }

  lemma DrainedMeansCurrent(db: Db, now: int)
    requires Inv(db) && forall s :: !Eligible(db, now, s)
    ensures (forall s :: s in db.scopes ==> db.scopes[s].retryAt <= now) ==>
              Pending(db) == {} && db.meta.generation == db.meta.target
  {
    if forall s :: s in db.scopes ==> db.scopes[s].retryAt <= now {
      assert forall s :: s in Pending(db) ==> Eligible(db, now, s);
      assert Pending(db) == {};
    }
  }
}
