/** What holds in every reachable state of the data store, and along every run. */
module StoreTheorems {
  import opened Basics
  import opened Reachability
  import opened DataModel
  import opened StoreSpec
  import opened StoreInvariant
  import opened StoreHistory
  import opened StoreRuns

  // ----- clean means current -----

  /** The interpretation that last reached s worked from exactly the edges and
      evidence that s's whole ancestry holds in db. */
  ghost predicate InterpretedCurrently(db: Db, i: Interpretation, s: Scope)
  {
    var above := Ancestors(db.deps, s);
    && s in i.load.work.scopes
    && Ancestors(i.load.at.deps, s) == above
    && (forall e: Edge :: e.0 in above ==> (e in i.load.at.deps <==> e in db.deps))
    && (forall id :: id in db.evidence && db.evidence[id].scope in above ==>
          id in i.load.work.records && i.load.work.records[id] == db.evidence[id])
    && (forall id :: id in i.load.work.records && i.load.work.records[id].scope in above ==> id in db.evidence)
  }

  lemma MemberOfWork(at: Db, root: Scope, s: Scope)
    requires Inv(at) && root in at.scopes && s in WorkAt(at, root).scopes
    ensures s in at.scopes && s in Component(at, root)
    ensures WorkAt(at, root).scopes[s] == at.scopes[s].revision <= at.meta.inputRevision
    ensures Ancestors(at.deps, s) <= Component(at, root)
    ensures WorkAt(at, root).records == ComponentEvidence(at, root)
  {
    assert s in ComponentRows(at, root);
    assert RowOk(at.scopes[s], at.meta.inputRevision, at.meta.target);
    ComponentIsClosed(at, root);
  }

  lemma RecordsAreCovered(db: Db, at: Db, root: Scope, s: Scope)
    requires Ancestors(at.deps, s) == Ancestors(db.deps, s) <= Component(at, root)
    requires forall id :: id in at.evidence ==> id in db.evidence && db.evidence[id] == at.evidence[id]
    requires forall id :: id in db.evidence && db.evidence[id].scope in Ancestors(db.deps, s) ==> id in at.evidence
    ensures forall id :: id in db.evidence && db.evidence[id].scope in Ancestors(db.deps, s) ==>
              id in ComponentEvidence(at, root) && ComponentEvidence(at, root)[id] == db.evidence[id]
  {
    hide Ancestors, Component;
  }

  lemma LaterHolds(at: Db, db: Db, w: Work)
    requires Grows(at, db) && WorkConsistent(db, w)
    ensures forall id :: id in w.records ==> id in db.evidence
    ensures forall id :: id in at.evidence ==> id in db.evidence && db.evidence[id] == at.evidence[id]
  {
  }

  /** A scope still at the revision it was loaded with has an unchanged ancestry, and
      its work covered all of it. */
  lemma UnrevisedIsCurrent(db: Db, i: Interpretation, s: Scope)
    requires Inv(db) && Inv(i.load.at) && Grows(i.load.at, db) && i.load.work.root in i.load.at.scopes
    requires i.load.work == WorkAt(i.load.at, i.load.work.root) && WorkConsistent(db, i.load.work)
    requires s in i.load.work.scopes && s in db.scopes && db.scopes[s].revision == i.load.work.scopes[s]
    ensures InterpretedCurrently(db, i, s)
  {
    hide Inv, Grows, WorkAt, Component, ComponentEvidence, Ancestors, WorkConsistent, TotalSize;
    var at, root := i.load.at, i.load.work.root;
    MemberOfWork(at, root, s);
    LaterHolds(at, db, i.load.work);
    AncestryUnchanged(at, db, s);
    RecordsAreCovered(db, at, root, s);
  }

  lemma CleanIsCurrentIn(w: World, s: Scope)
    requires WorldInv(w) && Clean(w.db, s)
    ensures s in w.last && InterpretedCurrently(w.db, w.last[s], s)
    ensures RowsMatch(w.db, w.last[s], w.db.meta.target, s)
  {
    AllScopesOk(w, s);
    assert Inv(w.db) && w.db.meta.target != 0;
    hide WorldInv, RowsMatch;
    var load := w.last[s].load;
    AllLoadsOk(w, load);
    LoadsAreConsistent(w, load);
    assert w.db.scopes[s].revision == load.work.scopes[s];
    hide WorkConsistent, Inv, Grows, WorkAt, InterpretedCurrently;
    UnrevisedIsCurrent(w.db, w.last[s], s);
  }

  /** In every reachable state a clean scope was last interpreted against exactly the
      edges and evidence of its ancestor closure now, and holds exactly what that said. */
  lemma CleanScopesAreCurrent(databaseId: string, version: nat, steps: seq<Step>, s: Scope)
    requires Clean(Run(databaseId, version, steps).db, s)
    ensures var w := Run(databaseId, version, steps);
            && s in w.last
            && InterpretedCurrently(w.db, w.last[s], s)
            && RowsMatch(w.db, w.last[s], w.db.meta.target, s)
  {
    RunsKeepWorldInv(databaseId, version, steps);
    CleanIsCurrentIn(Run(databaseId, version, steps), s);
  }

  /** A status is reported only when it is what that current interpretation said. */
  lemma ReportedStatusIsCurrent(databaseId: string, version: nat, steps: seq<Step>, id: EvidenceId)
    requires StatusOf(Run(databaseId, version, steps).db, id).outcome.Some?
    ensures var w := Run(databaseId, version, steps);
            && id in w.db.evidence && w.db.evidence[id].scope in w.last
            && var i := w.last[w.db.evidence[id].scope];
            && InterpretedCurrently(w.db, i, w.db.evidence[id].scope)
            && StatusOf(w.db, id).outcome == LookupOutcome(i.projection.outcomes, id)
  {
    var w := Run(databaseId, version, steps);
    var s := w.db.evidence[id].scope;
    CleanScopesAreCurrent(databaseId, version, steps, s);
    ReachableIsClosed(w.db.deps, {s});
    assert s in Ancestors(w.db.deps, s);
  }

  /** An ingest revises a known scope exactly when it brings evidence at that scope or
      at something it depends on, however distantly; a revised scope is pending and may
      be tried at once, every other row stays as it was. */
  lemma IngestRevisesExactlyDependents(db: Db, b: Batch, now: int, s: Scope)
    requires Inv(db) && s in db.scopes
    ensures var db' := Ingest(db, b, now);
            && s in db'.scopes
            && (db'.scopes[s].revision != db.scopes[s].revision <==> exists id :: NewAbove(db, db', s, id))
            && (if db'.scopes[s].revision == db.scopes[s].revision then db'.scopes[s] == db.scopes[s]
                else s in Pending(db') &&
                     db'.scopes[s] == ScopeRow(db.meta.inputRevision + 1, db.scopes[s].processed, db.scopes[s].generation, 0, 0, false))
  {
    var db' := Ingest(db, b, now);
    IngestGrows(db, b, now);
    IngestedRows(db, b);
    IngestedDerived(db, b);
    assert RowOk(db.scopes[s], db.meta.inputRevision, db.meta.target);
    assert s in db'.scopes;
    if exists id :: NewAbove(db, db', s, id) {
      var id :| NewAbove(db, db', s, id);
      var x := db'.evidence[id].scope;
      assert id in FreshIds(db, b) && x in ChangedScopes(db, b);
      ReverseReach(IngestedDeps(db, b), s, x);
      ReachableMonotone(Reverse(IngestedDeps(db, b)), Reverse(IngestedDeps(db, b)), {x}, ChangedScopes(db, b));
      assert s in AffectedScopes(db, b);
      NextIsNewer(db, b);
    }
  }

  // ----- the publication fence, over runs -----

  /** Work loaded anywhere earlier in a run passes the fence exactly when no rebuild
      was started since and its component holds exactly the records it was given. */
  lemma FenceIsExact(databaseId: string, version: nat, steps: seq<Step>, load: Load)
    requires load in Run(databaseId, version, steps).loads
    ensures var db := Run(databaseId, version, steps).db;
            FencePasses(db, load.work) <==>
              db.meta.target == load.at.meta.target && ComponentEvidence(db, load.work.root) == load.work.records
  {
    RunsKeepWorldInv(databaseId, version, steps);
    var w := Run(databaseId, version, steps);
    AllLoadsOk(w, load);
    assert Inv(w.db);
    hide WorldInv, Run, Inv, ComponentEvidence;
    if FencePasses(w.db, load.work) {
      FenceMeansUnchanged(load.at, w.db, load.work.root);
    }
    if w.db.meta.target == load.at.meta.target && ComponentEvidence(w.db, load.work.root) == load.work.records {
      UnchangedMeansFencePasses(load.at, w.db, load.work.root);
    }
  }

  /** ... and then the component's members and edges are unchanged as well. */
  lemma FenceHasNoAba(databaseId: string, version: nat, steps: seq<Step>, load: Load)
    requires load in Run(databaseId, version, steps).loads
    requires FencePasses(Run(databaseId, version, steps).db, load.work)
    ensures var db := Run(databaseId, version, steps).db;
            && Component(db, load.work.root) == Component(load.at, load.work.root)
            && (forall e: Edge :: e.0 in Component(db, load.work.root) || e.1 in Component(db, load.work.root) ==>
                  (e in load.at.deps <==> e in db.deps))
  {
    RunsKeepWorldInv(databaseId, version, steps);
    var w := Run(databaseId, version, steps);
    AllLoadsOk(w, load);
    assert Inv(w.db);
    hide WorldInv, Run, Inv;
    FenceMeansUnchanged(load.at, w.db, load.work.root);
  }
}
