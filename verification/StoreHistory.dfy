/** How a state relates to any earlier state of the same store, and what that says
    about interpretations prepared against the earlier one. */
module StoreHistory {
  import opened Basics
  import opened Reachability
  import opened DataModel
  import opened StoreSpec
  import opened StoreInvariant

  /** id is new since a, at s or at something s depends on. */
  ghost predicate NewAbove(a: Db, b: Db, s: Scope, id: EvidenceId)
  {
    id in b.evidence && id !in a.evidence && b.evidence[id].scope in Ancestors(b.deps, s)
  }

  /** A scope not revised since a has, at b, exactly the evidence it had at a. */
  predicate Untouched(a: Db, b: Db, s: Scope)
    requires s in b.scopes
  {
    && s in a.scopes && a.scopes[s].revision == b.scopes[s].revision
    && forall id :: id in b.evidence && b.evidence[id].scope == s ==> id in a.evidence
  }

  /** b is a later state than a. Evidence and edges only grow; a scope whose revision
      is no newer than a is untouched; a revision changes only because of new
      evidence at the scope or above it. */
  ghost predicate Grows(a: Db, b: Db)
  {
    && (forall id :: id in a.evidence ==> id in b.evidence && b.evidence[id] == a.evidence[id])
    && a.deps <= b.deps
    && a.scopes.Keys <= b.scopes.Keys
    && a.meta.inputRevision <= b.meta.inputRevision
    && a.meta.target <= b.meta.target
    && (forall s :: s in b.scopes && b.scopes[s].revision <= a.meta.inputRevision ==> Untouched(a, b, s))
    && (forall s :: s in a.scopes && b.scopes[s].revision != a.scopes[s].revision ==> exists id :: NewAbove(a, b, s, id))
  }

  lemma GrowsTransitive(a: Db, b: Db, c: Db)
    requires Grows(a, b) && Grows(b, c)
    ensures Grows(a, c)
  {
    forall s | s in c.scopes && c.scopes[s].revision <= a.meta.inputRevision
      ensures Untouched(a, c, s)
    {
      assert Untouched(b, c, s);
      assert Untouched(a, b, s);
    }
    forall s | s in a.scopes && c.scopes[s].revision != a.scopes[s].revision
      ensures exists id :: NewAbove(a, c, s, id)
    {
      if c.scopes[s].revision != b.scopes[s].revision {
        var id :| NewAbove(b, c, s, id);
        assert NewAbove(a, c, s, id);
      } else {
        var id :| NewAbove(a, b, s, id);
        ReachableMonotone(b.deps, c.deps, {s}, {s});
        assert NewAbove(a, c, s, id);
      }
    }
  }

  /** Everything but acceptance leaves evidence, edges and revisions alone. */
  lemma GrowsWithoutAcceptance(a: Db, b: Db)
    requires a.evidence == b.evidence && a.deps == b.deps && a.scopes.Keys == b.scopes.Keys
    requires a.meta.inputRevision == b.meta.inputRevision && a.meta.target <= b.meta.target
    requires forall s :: s in b.scopes ==> b.scopes[s].revision == a.scopes[s].revision
    ensures Grows(a, b)
  {
  }

  lemma IngestLeavesOldRevisions(db: Db, b: Batch, s: Scope)
    requires s in IngestedScopes(db, b) && IngestedScopes(db, b)[s].revision <= db.meta.inputRevision
    ensures s in db.scopes && IngestedScopes(db, b)[s].revision == db.scopes[s].revision
    ensures forall id :: id in Admit(db.evidence, b.entries) && Admit(db.evidence, b.entries)[id].scope == s ==> id in db.evidence
  {
    IngestedRows(db, b);
    NextIsNewer(db, b);
    hide IngestedScopes, AffectedScopes, NextRevision;
    forall id | id in Admit(db.evidence, b.entries) && Admit(db.evidence, b.entries)[id].scope == s
      ensures id in db.evidence
    {
      assert id in FreshIds(db, b) ==> s in ChangedScopes(db, b);
    }
  }

  lemma IngestRevisesForCause(db: Db, b: Batch, now: int, s: Scope)
    requires s in db.scopes && s in IngestedScopes(db, b) && IngestedScopes(db, b)[s].revision != db.scopes[s].revision
    ensures exists id :: NewAbove(db, Ingest(db, b, now), s, id)
  {
    IngestedRows(db, b);
    assert s in AffectedScopes(db, b);
    AffectedHasCause(db, b, s);
    var x :| x in ChangedScopes(db, b) && x in Ancestors(IngestedDeps(db, b), s);
    var id :| id in FreshIds(db, b) && Admit(db.evidence, b.entries)[id].scope == x;
    assert NewAbove(db, Ingest(db, b, now), s, id);
  }

  lemma IngestGrows(db: Db, b: Batch, now: int)
    requires DerivedOk(db)
    ensures Grows(db, Ingest(db, b, now))
  {
    hide IngestedScopes, NextRevision, Admit, DerivedOk, FreshIds, ChangedScopes, Ancestors, Bind, Enlist, NewReceipt;
    var db' := Ingest(db, b, now);
    IngestedEvidence(db, b);
    IngestedDerived(db, b);
    NextIsNewer(db, b);
    forall s | s in db'.scopes && db'.scopes[s].revision <= db.meta.inputRevision
      ensures Untouched(db, db', s)
    {
      IngestLeavesOldRevisions(db, b, s);
    }
    forall s | s in db.scopes && db'.scopes[s].revision != db.scopes[s].revision
      ensures exists id :: NewAbove(db, db', s, id)
    {
      IngestRevisesForCause(db, b, now, s);
    }
  }

  lemma NextIsNewer(db: Db, b: Batch)
    ensures FreshIds(db, b) != {} ==> NextRevision(db, b) > db.meta.inputRevision
    ensures NextRevision(db, b) >= db.meta.inputRevision
  {
  }

  lemma AffectedHasCause(db: Db, b: Batch, s: Scope)
    requires s in AffectedScopes(db, b)
    ensures exists x :: x in ChangedScopes(db, b) && x in Ancestors(IngestedDeps(db, b), s)
  {
    ReverseReachSet(IngestedDeps(db, b), ChangedScopes(db, b), s);
  }

  lemma AcceptGrows(db: Db, version: nat, b: Batch, now: int)
    requires Inv(db)
    ensures Grows(db, AcceptSpec(db, version, b, now).0)
  {
    hide Grows, Ingest, Inv, Admit, SequenceClash, ResponseFor, Readable, ValidBatch;
    IngestGrows(db, b, now) by { InvIsDerived(db); }
    GrowsWithoutAcceptance(db, db);
  }

  // ----- what an unchanged revision guarantees -----

  /** Along a chain of dependencies revisions never increase. */
  lemma AncestorsAreOlder(db: Db, s: Scope)
    requires Inv(db) && s in db.scopes
    ensures forall x :: x in Ancestors(db.deps, s) && x in db.scopes ==> db.scopes[x].revision <= db.scopes[s].revision
  {
    var older := set x | x in {s} + Targets(db.deps) && (x in db.scopes ==> db.scopes[x].revision <= db.scopes[s].revision);
    forall e | e in db.deps && e.0 in older
      ensures e.1 in older
    {
      assert e.1 in Targets(db.deps);
      assert e.0 in db.scopes by {
        var id, p :| id in db.evidence && p in db.evidence[id].parents && e == (db.evidence[id].scope, p);
        assert e.0 in ScopesOf(db.evidence);
      }
    }
    ReachableIsLeast(db.deps, {s}, older);
  }

  /** An edge that leaves an untouched scope was there before. */
  lemma EdgesOfUntouched(a: Db, b: Db, e: Edge)
    requires Inv(a) && Inv(b) && Grows(a, b)
    requires e.0 in b.scopes ==> b.scopes[e.0].revision <= a.meta.inputRevision
    ensures e in a.deps <==> e in b.deps
  {
    if e in b.deps {
      var id, p :| id in b.evidence && p in b.evidence[id].parents && e == (b.evidence[id].scope, p);
      assert e.0 in ScopesOf(b.evidence);
      assert Untouched(a, b, e.0);
      assert a.evidence[id] == b.evidence[id];
      assert e in DepsOf(a.evidence);
    }
  }

  /** The heart of invalidation: if a scope's revision is no newer than an earlier
      state, then its whole ancestry, edges and evidence, is what it was then. */
  lemma AncestryUnchanged(a: Db, b: Db, s: Scope)
    requires Inv(a) && Inv(b) && Grows(a, b)
    requires s in b.scopes && b.scopes[s].revision <= a.meta.inputRevision
    ensures Ancestors(a.deps, s) == Ancestors(b.deps, s)
    ensures forall e: Edge :: e.0 in Ancestors(b.deps, s) ==> (e in a.deps <==> e in b.deps)
    ensures forall id :: id in b.evidence && b.evidence[id].scope in Ancestors(b.deps, s) ==> id in a.evidence
  {
    AncestorsAreOlder(b, s);
    forall e: Edge | e.0 in Ancestors(b.deps, s)
      ensures e in b.deps <==> e in a.deps
    {
      EdgesOfUntouched(a, b, e);
    }
    ReachableDependsOnReachedEdges(b.deps, a.deps, {s});
    forall id | id in b.evidence && b.evidence[id].scope in Ancestors(b.deps, s)
      ensures id in a.evidence
    {
      assert b.evidence[id].scope in ScopesOf(b.evidence);
      assert Untouched(a, b, b.evidence[id].scope);
    }
  }

  // ----- the publication fence -----

  lemma ComponentIsClosed(db: Db, root: Scope)
    requires root in db.scopes
    ensures root in Component(db, root)
    ensures forall e :: e in db.deps ==> (e.0 in Component(db, root) <==> e.1 in Component(db, root))
    ensures forall s :: s in Component(db, root) ==> Ancestors(db.deps, s) <= Component(db, root)
  {
    var u := Undirected(db.deps);
    ReachableIsClosed(u, {root});
    forall e | e in db.deps
      ensures e.0 in Component(db, root) <==> e.1 in Component(db, root)
    {
      assert e in u && (e.1, e.0) in Reverse(db.deps) && (e.1, e.0) in u;
    }
    forall s | s in Component(db, root)
      ensures Ancestors(db.deps, s) <= Component(db, root)
    {
      ReachableMonotone(db.deps, u, {s}, {s});
      ReachableTransitive(u, {root}, s);
    }
  }

  lemma FencedMembersAreOld(a: Db, b: Db, root: Scope)
    requires RowsOk(a) && FencePasses(b, WorkAt(a, root))
    ensures forall s :: s in Component(b, root) && s in b.scopes ==> b.scopes[s].revision <= a.meta.inputRevision
  {
    forall s | s in Component(b, root) && s in b.scopes
      ensures b.scopes[s].revision <= a.meta.inputRevision
    {
      assert s in ComponentRows(b, root);
      assert s in ComponentRows(a, root);
      assert RowOk(a.scopes[s], a.meta.inputRevision, a.meta.target);
    }
  }

  lemma OldMembersKeepEvidence(a: Db, b: Db, root: Scope)
    requires DerivedOk(a) && DerivedOk(b) && Grows(a, b) && root in a.scopes
    requires Component(b, root) == Component(a, root)
    requires forall s :: s in Component(b, root) && s in b.scopes ==> b.scopes[s].revision <= a.meta.inputRevision
    ensures ComponentEvidence(b, root) == ComponentEvidence(a, root)
  {
    hide Component;
    forall id | id in b.evidence && b.evidence[id].scope in Component(b, root)
      ensures id in a.evidence
    {
      assert b.evidence[id].scope in ScopesOf(b.evidence);
      assert Untouched(a, b, b.evidence[id].scope);
    }
  }

  /** No ABA: a fence that passes proves the component is, edge for edge and record
      for record, the one that was loaded, whatever was accepted in between. */
  lemma FenceMeansUnchanged(a: Db, b: Db, root: Scope)
    requires Inv(a) && Inv(b) && Grows(a, b) && root in a.scopes
    requires FencePasses(b, WorkAt(a, root))
    ensures Component(b, root) == Component(a, root)
    ensures ComponentEvidence(b, root) == ComponentEvidence(a, root)
    ensures forall e: Edge :: e.0 in Component(b, root) || e.1 in Component(b, root) ==> (e in a.deps <==> e in b.deps)
  {
    FencedMembersAreOld(a, b, root);
    forall e: Edge | e.0 in Component(b, root) || e.1 in Component(b, root)
      ensures e in a.deps <==> e in b.deps
    {
      EdgesOfUntouchedMember(a, b, root, e);
    }
    SameEdgesSameComponent(a, b, root);
    hide Inv, Component;
    OldMembersKeepEvidence(a, b, root) by { InvIsDerived(a); InvIsDerived(b); }
  }

  lemma InvIsDerived(db: Db)
    requires Inv(db)
    ensures DerivedOk(db)
  {
  }

  lemma SameEdgesSameComponent(a: Db, b: Db, root: Scope)
    requires root in a.scopes && root in b.scopes
    requires forall e: Edge :: e.0 in Component(b, root) || e.1 in Component(b, root) ==> (e in a.deps <==> e in b.deps)
    ensures Component(b, root) == Component(a, root)
  {
    forall e: Edge | e.0 in Component(b, root)
      ensures e in Undirected(b.deps) <==> e in Undirected(a.deps)
    {
      assert e in Reverse(b.deps) <==> (e.1, e.0) in b.deps;
      assert e in Reverse(a.deps) <==> (e.1, e.0) in a.deps;
    }
    ReachableDependsOnReachedEdges(Undirected(b.deps), Undirected(a.deps), {root});
  }

  lemma EdgesOfUntouchedMember(a: Db, b: Db, root: Scope, e: Edge)
    requires Inv(a) && Inv(b) && Grows(a, b) && root in b.scopes
    requires forall s :: s in Component(b, root) && s in b.scopes ==> b.scopes[s].revision <= a.meta.inputRevision
    requires e.0 in Component(b, root) || e.1 in Component(b, root)
    ensures e in a.deps <==> e in b.deps
  {
    if e in b.deps {
      ComponentIsClosed(b, root);
      EdgesOfUntouched(a, b, e);
    }
  }

  /** The fence is exact: short of a new target it rejects only work whose component
      really received evidence. Unrelated ingestion cannot starve a component. */
  lemma UnchangedMeansFencePasses(a: Db, b: Db, root: Scope)
    requires Inv(a) && Inv(b) && Grows(a, b) && root in a.scopes
    requires b.meta.target == a.meta.target
    requires ComponentEvidence(b, root) == ComponentEvidence(a, root)
    ensures FencePasses(b, WorkAt(a, root))
  {
    SameEvidenceSameComponent(a, b, root);
    hide Component, ComponentEvidence, Grows, Inv;
    forall s | s in Component(b, root) && s in b.scopes
      ensures s in a.scopes && a.scopes[s].revision == b.scopes[s].revision
    {
      MemberUnrevised(a, b, root, s) by { InvIsDerived(a); InvIsDerived(b); }
    }
    ScopesGrow(a, b);
    assert ComponentRows(a, root) == ComponentRows(b, root);
  }

  lemma ScopesGrow(a: Db, b: Db)
    requires Grows(a, b)
    ensures a.scopes.Keys <= b.scopes.Keys && a.deps <= b.deps
  {
  }

  /** A component that holds the same evidence has the same members. */
  lemma SameEvidenceSameComponent(a: Db, b: Db, root: Scope)
    requires Inv(a) && Inv(b) && Grows(a, b) && root in a.scopes
    requires ComponentEvidence(b, root) == ComponentEvidence(a, root)
    ensures root in b.scopes && Component(b, root) == Component(a, root)
  {
    ScopesGrow(a, b);
    InvIsDerived(a);
    InvIsDerived(b);
    hide Inv, Grows, ComponentEvidence, DerivedOk;
    ComponentIsClosed(a, root);
    ComponentIsClosed(b, root);
    ReachableMonotone(Undirected(a.deps), Undirected(b.deps), {root}, {root});
    var members := Component(a, root);
    assert members <= Component(b, root);
    forall e: Edge | e.0 in members
      ensures e in Undirected(a.deps) <==> e in Undirected(b.deps)
    {
      if e in b.deps {
        EdgeOfSameEvidence(a, b, root, e);
      }
      if (e.1, e.0) in b.deps {
        EdgeOfSameEvidence(a, b, root, (e.1, e.0));
      }
      assert e in Reverse(b.deps) <==> (e.1, e.0) in b.deps;
      assert e in Reverse(a.deps) <==> (e.1, e.0) in a.deps;
    }
    ReachableDependsOnReachedEdges(Undirected(a.deps), Undirected(b.deps), {root});
  }

  lemma EdgeOfSameEvidence(a: Db, b: Db, root: Scope, e: Edge)
    requires DerivedOk(a) && DerivedOk(b) && root in b.scopes
    requires e in b.deps && (e.0 in Component(b, root) || e.1 in Component(b, root))
    requires ComponentEvidence(b, root) == ComponentEvidence(a, root)
    ensures e in a.deps
  {
    ComponentIsClosed(b, root);
    var id, p :| id in b.evidence && p in b.evidence[id].parents && e == (b.evidence[id].scope, p);
    assert id in ComponentEvidence(b, root);
    assert id in ComponentEvidence(a, root) && ComponentEvidence(a, root)[id] == ComponentEvidence(b, root)[id];
    assert e in DepsOf(a.evidence);
  }

  lemma MemberUnrevised(a: Db, b: Db, root: Scope, s: Scope)
    requires DerivedOk(a) && DerivedOk(b) && Grows(a, b) && root in b.scopes
    requires Component(b, root) == Component(a, root) && ComponentEvidence(b, root) == ComponentEvidence(a, root)
    requires s in Component(b, root) && s in b.scopes
    ensures s in a.scopes && a.scopes[s].revision == b.scopes[s].revision
  {
    assert s in ScopesOf(b.evidence);
    var held :| held in b.evidence && b.evidence[held].scope == s;
    assert held in ComponentEvidence(b, root);
    assert held in ComponentEvidence(a, root) && ComponentEvidence(a, root)[held] == ComponentEvidence(b, root)[held];
    assert s in ScopesOf(a.evidence);
    ComponentIsClosed(b, root);
    forall id
      ensures !NewAbove(a, b, s, id)
    {
      if id in b.evidence && b.evidence[id].scope in Ancestors(b.deps, s) {
        assert id in ComponentEvidence(b, root);
        assert id in ComponentEvidence(a, root);
      }
    }
  }
}
