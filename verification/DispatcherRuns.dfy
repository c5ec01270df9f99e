/** The dispatcher over whole runs: two workers interpret and publish in any order while
    evidence keeps arriving and rebuilds are staged. Once arrivals stop, what is in flight
    is published or found stale at most once, and everything pending is drained. */
module DispatcherRuns {
  import opened Basics
  import opened Reachability
  import opened DataModel
  import opened StoreSpec
  import opened StoreInvariant
  import opened StoreRuns
  import opened StoreProgress
  import opened Selection
  import opened DataEngine
  import opened Dispatcher

  datatype PoolStep =
    | Claiming(root: Scope, now: int)
    | Finishing(claim: nat, now: int)
    | Pruning(now: int)
    | Arriving(batch: Batch, now: int)
    | Rebuilding

  ghost predicate Enabled'(p: Pool, step: PoolStep)
  {
    match step
    case Claiming(root, now) => Claimable(p, now, root)
    case Finishing(i, _) => i < |p.claims|
    case _ => true
  }

  /** A worker publishes what it made of its claim, or learns that it is stale, or fails. */
  ghost function Finished(p: Pool, version: nat, interpret: Interpreter, i: nat, now: int): Pool
    requires i < |p.claims|
  {
    var work := p.claims[i];
    var (db, result) := PublishSpec(p.db, version, work, interpret(work));
    Pool(if result.Failed? then FailureSpec(db, work, now) else db,
         Without(p.claims, i),
         if result == Stale then Added(p.delayed, work, now) else p.delayed)
  }

  ghost function Step'(p: Pool, version: nat, interpret: Interpreter, step: PoolStep): Pool
  {
    if !Enabled'(p, step) then p
    else
      match step
      case Claiming(root, _) => p.(claims := p.claims + [WorkAt(p.db, root)])
      case Finishing(i, now) => Finished(p, version, interpret, i, now)
      case Pruning(now) => p.(delayed := StillDelayed(p.delayed, now))
      case Arriving(b, now) => p.(db := AcceptSpec(p.db, version, b, now).0)
      case Rebuilding => p.(db := ReprocessSpec(p.db, version).0)
  }

  ghost function Ran(p: Pool, version: nat, interpret: Interpreter, steps: seq<PoolStep>): Pool
  {
    if steps == [] then p
    else Step'(Ran(p, version, interpret, steps[..|steps| - 1]), version, interpret, steps[|steps| - 1])
  }

  // ----- what every run keeps -----

  /** A claim is whole, and its root still has to be interpreted. */
  predicate ClaimOk(db: Db, w: Work)
  {
    WholeWork(w) && w.root in w.scopes && w.root in Pending(db)
  }

  predicate Bounded(delayed: seq<Delayed>)
  {
    |delayed| <= MAX_DELAYED_COMPONENTS && ScopeCount(delayed) <= MAX_DELAYED_SCOPES
  }

  ghost predicate PoolOk(p: Pool, version: nat)
  {
    && Inv(p.db) && VersionsUpTo(p.db, version)
    && ClaimsOk(p.claims) && Bounded(p.delayed)
    && forall i :: 0 <= i < |p.claims| ==> ClaimOk(p.db, p.claims[i])
  }

  lemma IngestKeepsPending(db: Db, b: Batch, now: int, s: Scope)
    requires Inv(db) && s in Pending(db)
    ensures s in Pending(Ingest(db, b, now))
  {
    assert RowOk(db.scopes[s], db.meta.inputRevision, db.meta.target);
    hide Inv, AffectedScopes, Admit, Bind, Enlist, IngestedDeps, NextRevision, FreshIds, IngestedScopes, ChangedScopes;
    IngestedRows(db, b);
    NoNewsNoChange(db, b);
  }

  lemma ArrivalKeepsPending(db: Db, version: nat, b: Batch, now: int)
    requires Inv(db)
    ensures Pending(db) <= Pending(AcceptSpec(db, version, b, now).0)
  {
    forall s | s in Pending(db)
      ensures s in Pending(Ingest(db, b, now))
    {
      IngestKeepsPending(db, b, now, s);
    }
    AcceptanceCases(db, version, b, now);
    hide Inv, Pending, Ingest, AcceptSpec;
  }

  lemma AcceptanceCases(db: Db, version: nat, b: Batch, now: int)
    ensures AcceptSpec(db, version, b, now).0 == db || AcceptSpec(db, version, b, now).0 == Ingest(db, b, now)
  {
    hide Ingest, ResponseFor, SequenceClash, Readable, ValidBatch;
  }

  lemma RebuildKeepsPending(db: Db, version: nat)
    requires Inv(db)
    ensures Pending(db) <= Pending(ReprocessSpec(db, version).0)
  {
    assert RowsOk(db);
    StageCounters(db, version);
    hide Inv, Stage, Readable;
  }

  lemma StageCounters(db: Db, version: nat)
    ensures Stage(db, version).scopes == ForgiveAll(db.scopes)
    ensures Stage(db, version).meta.target == db.meta.target + 1
  {
    StageIsLocal(db, version);
  }

  lemma ArrivalKeepsVersions(db: Db, version: nat, b: Batch, now: int)
    requires VersionsUpTo(db, version)
    ensures VersionsUpTo(AcceptSpec(db, version, b, now).0, version)
  {
    hide ResponseFor, SequenceClash, Readable, ValidBatch, IngestedScopes, Admit, Bind, Enlist, IngestedDeps;
  }

  lemma RebuildKeepsVersions(db: Db, version: nat)
    requires VersionsUpTo(db, version)
    ensures VersionsUpTo(ReprocessSpec(db, version).0, version)
  {
    hide Readable, ForgiveAll;
  }

  lemma ClaimsStayOk(p: Pool, db': Db)
    requires forall i :: 0 <= i < |p.claims| ==> ClaimOk(p.db, p.claims[i])
    requires Pending(p.db) <= Pending(db')
    ensures forall i :: 0 <= i < |p.claims| ==> ClaimOk(db', p.claims[i])
  {
    hide Pending, WholeWork;
  }

  /** Publishing takes off the pending list exactly scopes of the work. */
  lemma PublicationSparesOthers(db: Db, version: nat, w: Work, p: Projection, s: Scope)
    requires s in Pending(db) && s !in w.scopes
    ensures s in Pending(PublishSpec(db, version, w, p).0)
  {
    hide Readable, ValidProjection, InsertFacts, InsertEstimates, DropRows, DropProvenance, NewProvenance, PutOutcomes, Settle, FencePasses;
    if PublishSpec(db, version, w, p).1 == Published {
      assert PublishSpec(db, version, w, p) == (Settle(ReplaceRows(db, w, p).value, w), Published);
      SettleKeepsRows(ReplaceRows(db, w, p).value, w);
    }
  }

  lemma ClaimingKeepsPool(p: Pool, version: nat, root: Scope, now: int)
    requires PoolOk(p, version) && Claimable(p, now, root)
    ensures PoolOk(p.(claims := p.claims + [WorkAt(p.db, root)]), version)
  {
    var work := WorkAt(p.db, root);
    assert Admissible(p.db, now, Excluded(p), Allowance(p.claims), root) && Eligible(p.db, now, root);
    RootOfWork(p.db, root);
    LoadedIsWhole(p.db, root);
    WorkHasRoot(p.db, root, now);
    hide Inv, VersionsUpTo, WorkAt, Admissible, Eligible, Pending, WholeWork, Bounded;
    AdmittedWorkFits(p.db, now, p.claims + DelayedWorks(p.delayed), Allowance(p.claims), work);
    ClaimFits(p.claims, DelayedWorks(p.delayed), work);
  }

  lemma AddedIsBounded(delayed: seq<Delayed>, work: Work, now: int)
    requires Bounded(delayed)
    ensures Bounded(Added(delayed, work, now))
  {
    var entry := Delayed(work.(records := map[], bytes := 0), now + STALE_RETRY_DELAY);
    assert (delayed + [entry])[..|delayed|] == delayed;
  }

  lemma FinishedDb(p: Pool, version: nat, interpret: Interpreter, i: nat, now: int)
    requires PoolOk(p, version) && i < |p.claims|
    ensures Inv(Finished(p, version, interpret, i, now).db) && VersionsUpTo(Finished(p, version, interpret, i, now).db, version)
    ensures forall j :: 0 <= j < |p.claims| && j != i ==> ClaimOk(Finished(p, version, interpret, i, now).db, p.claims[j])
  {
    var work := p.claims[i];
    var projection := interpret(work);
    assert ClaimOk(p.db, work);
    PublishKeepsInv(p.db, version, work, projection);
    PublishKeepsVersions(p.db, version, work, projection);
    var db := PublishSpec(p.db, version, work, projection).0;
    FailureKeepsInv(db, work, now);
    FailureKeepsGenerations(db, work, now);
    SameVersions(db, FailureSpec(db, work, now), version);
    hide Inv, VersionsUpTo, PublishSpec, FailureSpec, Pending, WholeWork, Bounded;
    forall j | 0 <= j < |p.claims| && j != i
      ensures p.claims[j].root in Pending(db)
    {
      assert ClaimOk(p.db, p.claims[j]);
      assert p.claims[if i < j then i else j].scopes.Keys !! p.claims[if i < j then j else i].scopes.Keys;
      PublicationSparesOthers(p.db, version, work, projection, p.claims[j].root);
    }
  }

  lemma FinishedClaims(db: Db, claims: seq<Work>, i: nat)
    requires i < |claims| && forall j :: 0 <= j < |claims| && j != i ==> ClaimOk(db, claims[j])
    ensures forall j :: 0 <= j < |Without(claims, i)| ==> ClaimOk(db, Without(claims, i)[j])
  {
    hide ClaimOk;
    forall j | 0 <= j < |Without(claims, i)|
      ensures ClaimOk(db, Without(claims, i)[j])
    {
      assert Without(claims, i)[j] == claims[if j < i then j else j + 1];
    }
  }

  lemma FinishedFields(p: Pool, version: nat, interpret: Interpreter, i: nat, now: int)
    requires i < |p.claims| && Bounded(p.delayed)
    ensures Finished(p, version, interpret, i, now).claims == Without(p.claims, i)
    ensures Bounded(Finished(p, version, interpret, i, now).delayed)
  {
    hide PublishSpec, FailureSpec, Bounded, Added;
    AddedIsBounded(p.delayed, p.claims[i], now);
  }

  lemma FinishingKeepsPool(p: Pool, version: nat, interpret: Interpreter, i: nat, now: int)
    requires PoolOk(p, version) && i < |p.claims|
    ensures PoolOk(Finished(p, version, interpret, i, now), version)
  {
    hide Inv, VersionsUpTo, Bounded, ClaimOk, ClaimsOk, Finished, Without;
    FinishedDb(p, version, interpret, i, now);
    FinishedFields(p, version, interpret, i, now);
    WithoutKeepsClaimsOk(p.claims, i);
    FinishedClaims(Finished(p, version, interpret, i, now).db, p.claims, i);
  }

  lemma StepKeepsPool(p: Pool, version: nat, interpret: Interpreter, step: PoolStep)
    requires PoolOk(p, version)
    ensures PoolOk(Step'(p, version, interpret, step), version)
  {
    hide Inv, VersionsUpTo, Pending, ClaimOk, ClaimsOk, Claimable, Finished, AcceptSpec, ReprocessSpec, WorkAt, ScopeCount;
    if Enabled'(p, step) {
      match step
      case Claiming(root, now) => ClaimingKeepsPool(p, version, root, now);
      case Finishing(i, now) => FinishingKeepsPool(p, version, interpret, i, now);
      case Pruning(now) => PruningOnlyDrops(p.delayed, now);
      case Arriving(b, now) =>
        AcceptKeepsInv(p.db, version, b, now);
        ArrivalKeepsVersions(p.db, version, b, now);
        ArrivalKeepsPending(p.db, version, b, now);
        ClaimsStayOk(p, AcceptSpec(p.db, version, b, now).0);
      case Rebuilding =>
        ReprocessKeepsInv(p.db, version);
        RebuildKeepsVersions(p.db, version);
        RebuildKeepsPending(p.db, version);
        ClaimsStayOk(p, ReprocessSpec(p.db, version).0);
    }
  }

  /** Over every interleaving at most two claims are in flight, disjoint and within 32 MiB
      unless there is only one; each is whole and its root is still pending; and what is
      delayed stays within its bounds. */
  lemma {:induction false} RunsKeepPool(p: Pool, version: nat, interpret: Interpreter, steps: seq<PoolStep>)
    requires PoolOk(p, version)
    ensures PoolOk(Ran(p, version, interpret, steps), version)
  {
    if steps != [] {
      RunsKeepPool(p, version, interpret, steps[..|steps| - 1]);
      hide PoolOk, Step';
      StepKeepsPool(Ran(p, version, interpret, steps[..|steps| - 1]), version, interpret, steps[|steps| - 1]);
    }
  }

  // ----- once arrivals stop -----

  predicate Quiet(step: PoolStep)
  {
    !step.Arriving? && !step.Rebuilding?
  }

  /** Claims that would be found stale now. */
  ghost function StaleClaims(db: Db, claims: seq<Work>): nat
  {
    if claims == [] then 0
    else StaleClaims(db, claims[..|claims| - 1]) + if FencePasses(db, claims[|claims| - 1]) then 0 else 1
  }

  /** How many workers can still finish. */
  ghost function Effort(p: Pool): nat
  {
    |Pending(p.db)| + StaleClaims(p.db, p.claims)
  }

  /** Everything a fence looks at is the same. */
  predicate SameFences(a: Db, b: Db)
  {
    && b.deps == a.deps && b.scopes.Keys == a.scopes.Keys && b.meta.target == a.meta.target
    && forall s :: s in a.scopes ==> b.scopes[s].revision == a.scopes[s].revision
  }

  lemma FencesRead(a: Db, b: Db, w: Work)
    requires SameFences(a, b)
    ensures FencePasses(b, w) <==> FencePasses(a, w)
  {
    assert Component(b, w.root) == Component(a, w.root);
    assert ComponentRows(b, w.root) == ComponentRows(a, w.root);
  }

  lemma PublicationKeepsFences(db: Db, version: nat, w: Work, p: Projection)
    ensures SameFences(db, PublishSpec(db, version, w, p).0)
    ensures db.meta.revision <= PublishSpec(db, version, w, p).0.meta.revision
  {
    hide Readable, ValidProjection, InsertFacts, InsertEstimates, DropRows, DropProvenance, NewProvenance, PutOutcomes, FencePasses;
    if PublishSpec(db, version, w, p).1 == Published {
      var d := ReplaceRows(db, w, p).value;
      SettleKeepsRows(d, w);
      ActivateCounters(d, w.generation);
      hide Pending, Activate;
    }
  }

  lemma FailureKeepsFences(db: Db, w: Work, now: int)
    ensures SameFences(db, FailureSpec(db, w, now)) && FailureSpec(db, w, now).meta == db.meta
  {
    hide Power2;
  }

  lemma {:induction false} SameStale(a: Db, b: Db, claims: seq<Work>)
    requires SameFences(a, b)
    ensures StaleClaims(b, claims) == StaleClaims(a, claims)
  {
    if claims != [] {
      SameStale(a, b, claims[..|claims| - 1]);
      FencesRead(a, b, claims[|claims| - 1]);
    }
  }

  lemma {:induction false} StaleWithout(db: Db, claims: seq<Work>, i: nat)
    requires i < |claims|
    ensures StaleClaims(db, claims) == StaleClaims(db, Without(claims, i)) + if FencePasses(db, claims[i]) then 0 else 1
    decreases |claims|
  {
    hide FencePasses;
    var front, rest := claims[..|claims| - 1], Without(claims, i);
    if i < |front| {
      StaleWithout(db, front, i);
      assert rest[..|rest| - 1] == Without(front, i) && rest[|rest| - 1] == claims[|claims| - 1];
    } else {
      assert rest == front;
    }
  }

  /** What becomes of a claim, given that the published revision has not run out: it is
      published unless its component changed, in which case no table does. */
  lemma ClaimOutcome(p: Pool, version: nat, interpret: Interpreter, i: nat)
    requires PoolOk(p, version) && Conforms(interpret) && i < |p.claims| && p.db.meta.revision < SAFE_INTEGER
    ensures var r := PublishSpec(p.db, version, p.claims[i], interpret(p.claims[i]));
            if FencePasses(p.db, p.claims[i]) then r.1 == Published && Pending(r.0) < Pending(p.db)
            else r == (p.db, Stale)
  {
    var work := p.claims[i];
    assert ClaimOk(p.db, work) && WholeWork(work);
    var projection := interpret(work);
    assert ValidProjection(projection) && Within(work, projection) && DistinctFacts(projection);
    ReadableHere(p.db, version);
    AnalyticsAreOk(p.db);
    hide Inv, VersionsUpTo, Conforms, ClaimsOk, Bounded, WholeWork, AnalyticsOk, Within, DistinctFacts, FencePasses, Pending, Readable;
    FreshRowsFit(p.db, work, projection);
    if FencePasses(p.db, work) {
      hide ReplaceRows;
      PublicationLowersPending(p.db, version, work, projection);
    }
  }

  lemma SmallerSet(a: set<Scope>, b: set<Scope>)
    ensures a < b ==> |a| < |b|
  {
    if a < b {
      SubsetSmaller(a, b);
    }
  }

  lemma FinishingLowersEffort(p: Pool, version: nat, interpret: Interpreter, i: nat, now: int)
    requires PoolOk(p, version) && Conforms(interpret) && i < |p.claims| && p.db.meta.revision < SAFE_INTEGER
    ensures Effort(Finished(p, version, interpret, i, now)) < Effort(p)
    ensures p.db.meta.revision <= Finished(p, version, interpret, i, now).db.meta.revision
    ensures SameFences(p.db, Finished(p, version, interpret, i, now).db)
    ensures |Finished(p, version, interpret, i, now).claims| == |p.claims| - 1
    ensures !PublishSpec(p.db, version, p.claims[i], interpret(p.claims[i])).1.Failed?
  {
    ClaimOutcome(p, version, interpret, i);
    var db := PublishSpec(p.db, version, p.claims[i], interpret(p.claims[i])).0;
    PublicationKeepsFences(p.db, version, p.claims[i], interpret(p.claims[i]));
    SameStale(p.db, db, Without(p.claims, i));
    StaleWithout(p.db, p.claims, i);
    SmallerSet(Pending(db), Pending(p.db));
    hide PublishSpec, Pending, FencePasses, PoolOk, SameFences, StaleClaims, Conforms;
  }

  lemma ClaimIsFresh(p: Pool, root: Scope)
    ensures Effort(p.(claims := p.claims + [WorkAt(p.db, root)])) == Effort(p)
  {
    var work := WorkAt(p.db, root);
    assert (p.claims + [work])[..|p.claims|] == p.claims;
    assert FencePasses(p.db, work);
    hide Pending, FencePasses, WorkAt;
  }

  /** A quiet step never adds to what is left, and a worker that finishes takes from it. */
  lemma QuietStep(p: Pool, version: nat, interpret: Interpreter, step: PoolStep)
    requires PoolOk(p, version) && Conforms(interpret) && Quiet(step) && p.db.meta.revision < SAFE_INTEGER
    ensures var q := Step'(p, version, interpret, step);
            && p.db.meta.revision <= q.db.meta.revision
            && (if Enabled'(p, step) && step.Finishing? then Effort(q) < Effort(p) && |q.claims| == |p.claims| - 1
                else Effort(q) == Effort(p) && q.db == p.db &&
                     |q.claims| == |p.claims| + if Enabled'(p, step) && step.Claiming? then 1 else 0)
  {
    hide Effort, Finished, PoolOk, Conforms, SameFences, WorkAt, Claimable, StillDelayed;
    if Enabled'(p, step) {
      match step
      case Finishing(i, now) => FinishingLowersEffort(p, version, interpret, i, now);
      case Claiming(root, _) => ClaimIsFresh(p, root);
      case Pruning(now) => EffortIgnoresDelays(p, StillDelayed(p.delayed, now));
    }
  }

  lemma EffortIgnoresDelays(p: Pool, delayed: seq<Delayed>)
    ensures Effort(p.(delayed := delayed)) == Effort(p)
  {
    hide Pending, StaleClaims;
  }

  lemma RevisionRises(p: Pool, version: nat, interpret: Interpreter, step: PoolStep)
    requires Quiet(step)
    ensures p.db.meta.revision <= Step'(p, version, interpret, step).db.meta.revision
  {
    if Enabled'(p, step) && step.Finishing? {
      var work := p.claims[step.claim];
      PublicationKeepsFences(p.db, version, work, interpret(work));
      FailureKeepsFences(PublishSpec(p.db, version, work, interpret(work)).0, work, step.now);
    }
    hide PublishSpec, FailureSpec, Enabled', SameFences;
  }

  /** How many of the steps were a worker finishing, and how many a claim. */
  ghost function Finishes(p: Pool, version: nat, interpret: Interpreter, steps: seq<PoolStep>): nat
  {
    if steps == [] then 0
    else
      var q, last := Ran(p, version, interpret, steps[..|steps| - 1]), steps[|steps| - 1];
      Finishes(p, version, interpret, steps[..|steps| - 1]) + if Enabled'(q, last) && last.Finishing? then 1 else 0
  }

  ghost function Claims(p: Pool, version: nat, interpret: Interpreter, steps: seq<PoolStep>): nat
  {
    if steps == [] then 0
    else
      var q, last := Ran(p, version, interpret, steps[..|steps| - 1]), steps[|steps| - 1];
      Claims(p, version, interpret, steps[..|steps| - 1]) + if Enabled'(q, last) && last.Claiming? then 1 else 0
  }

  predicate AllQuiet(steps: seq<PoolStep>)
  {
    forall k :: 0 <= k < |steps| ==> Quiet(steps[k])
  }

  predicate Due(db: Db, now: int)
  {
    forall s :: s in db.scopes ==> db.scopes[s].retryAt <= now
  }

  lemma StepKeepsDue(p: Pool, version: nat, interpret: Interpreter, step: PoolStep, now: nat)
    requires PoolOk(p, version) && Conforms(interpret) && Quiet(step) && p.db.meta.revision < SAFE_INTEGER && Due(p.db, now)
    ensures Due(Step'(p, version, interpret, step).db, now)
  {
    if Enabled'(p, step) && step.Finishing? {
      var work := p.claims[step.claim];
      FinishingLowersEffort(p, version, interpret, step.claim, step.now);
      PublishKeepsRetries(p.db, version, work, interpret(work), now);
    }
    hide PublishSpec, FailureSpec, PoolOk, Conforms, SameFences, Claimable, WorkAt;
  }

  /** While nothing arrives, workers finish at most as often as there are pending scopes
      and stale claims; each finishing accounts for one claim. */
  lemma {:induction false} QuietRunsEnd(p: Pool, version: nat, interpret: Interpreter, steps: seq<PoolStep>)
    requires PoolOk(p, version) && Conforms(interpret) && AllQuiet(steps)
    requires Ran(p, version, interpret, steps).db.meta.revision < SAFE_INTEGER
    ensures Finishes(p, version, interpret, steps) + Effort(Ran(p, version, interpret, steps)) <= Effort(p)
    ensures |Ran(p, version, interpret, steps).claims| + Finishes(p, version, interpret, steps)
            == |p.claims| + Claims(p, version, interpret, steps)
    ensures Claims(p, version, interpret, steps) <= Effort(p) + WORKER_COUNT
    ensures forall now: nat :: Due(p.db, now) ==> Due(Ran(p, version, interpret, steps).db, now)
  {
    hide Effort, Step', Enabled', Due, Conforms;
    RunsKeepPool(p, version, interpret, steps);
    assert |Ran(p, version, interpret, steps).claims| <= WORKER_COUNT;
    hide PoolOk;
    if steps != [] {
      var front, last := steps[..|steps| - 1], steps[|steps| - 1];
      var q := Ran(p, version, interpret, front);
      assert Quiet(last) && AllQuiet(front);
      RevisionRises(q, version, interpret, last);
      RunsKeepPool(p, version, interpret, front);
      QuietRunsEnd(p, version, interpret, front);
      QuietStep(q, version, interpret, last);
      forall now: nat | Due(q.db, now)
        ensures Due(Ran(p, version, interpret, steps).db, now)
      {
        StepKeepsDue(q, version, interpret, last, now);
      }
    }
  }

  /** Nothing is in flight or delayed any longer, and nothing can be claimed. */
  ghost predicate AtRest(p: Pool, now: int)
  {
    p.claims == [] && StillDelayed(p.delayed, now) == [] && forall root :: !Claimable(p.(delayed := []), now, root)
  }

  /** As long as something is eligible an idle dispatcher can claim. */
  lemma IdleCanClaim(q: Pool, now: int, s: Scope)
    requires q.claims == [] && q.delayed == [] && Eligible(q.db, now, s)
    ensures exists root :: Claimable(q, now, root)
  {
    assert q.claims + DelayedWorks(q.delayed) == [];
    AllAvailable(q.db, now);
    hide Admissible, Eligible, Pending;
    assert forall x :: Admissible(q.db, now, Excluded(q), Allowance(q.claims), x) <==> Eligible(q.db, now, x);
    EligibleAreScopes(q.db, now);
    var candidates := set x | x in q.db.scopes && Eligible(q.db, now, x) :: CandidateOf(q.db, x);
    assert CandidateOf(q.db, s) in candidates;
    LeastExists(candidates);
    var c :| c in candidates && forall d :: d in candidates ==> d == c || Before(c, d);
    forall x | Eligible(q.db, now, x)
      ensures !Before(CandidateOf(q.db, x), c)
    {
      assert CandidateOf(q.db, x) in candidates;
      BeforeIsStrictOrder(c, CandidateOf(q.db, x), c);
    }
    assert Claimable(q, now, c.scope);
  }

  lemma RestMeansNothingEligible(p: Pool, now: int)
    requires AtRest(p, now)
    ensures forall s :: !Eligible(p.db, now, s)
  {
    hide Eligible, Claimable;
    forall s
      ensures !Eligible(p.db, now, s)
    {
      if Eligible(p.db, now, s) {
        IdleCanClaim(p.(delayed := []), now, s);
      }
    }
  }

  lemma EligibleAreScopes(db: Db, now: int)
    ensures forall s :: Eligible(db, now, s) ==> s in db.scopes
  {
  }

  /** Concurrent draining: once arrivals stop, whatever was in flight or delayed then and
      in whatever order workers finish, the dispatcher comes to rest only when nothing is
      pending and readers see the target generation. */
  lemma ConcurrentDrainFinishes(p: Pool, version: nat, interpret: Interpreter, steps: seq<PoolStep>, now: nat)
    requires PoolOk(p, version) && Conforms(interpret) && AllQuiet(steps) && Due(p.db, now)
    requires Ran(p, version, interpret, steps).db.meta.revision < SAFE_INTEGER
    requires AtRest(Ran(p, version, interpret, steps), now)
    ensures var db := Ran(p, version, interpret, steps).db;
            Pending(db) == {} && db.meta.generation == db.meta.target
  {
    var q := Ran(p, version, interpret, steps);
    RunsKeepPool(p, version, interpret, steps);
    QuietRunsEnd(p, version, interpret, steps);
    assert Inv(q.db);
    hide PoolOk, Ran, Conforms, Inv, Pending;
    RestMeansNothingEligible(q, now);
    DrainedMeansCurrent(q.db, now);
  }

  // ----- limits and delays -----

  /** At any moment of any run at most two components are being worked on; two share no
      scope and hold at most 32 MiB of records together. */
  lemma InFlightLimits(p: Pool, version: nat, interpret: Interpreter, steps: seq<PoolStep>)
    requires PoolOk(p, version)
    ensures var claims := Ran(p, version, interpret, steps).claims;
            && |claims| <= 2
            && (|claims| == 2 ==> claims[0].scopes.Keys !! claims[1].scopes.Keys &&
                                  claims[0].bytes + claims[1].bytes <= 32 * 1024 * 1024)
  {
    RunsKeepPool(p, version, interpret, steps);
    var claims := Ran(p, version, interpret, steps).claims;
    hide Ran;
    if |claims| == 2 {
      assert claims[..1] == [claims[0]];
      assert ClaimedBytes([claims[0]]) == claims[0].bytes;
    }
  }

  /** Before this moment nothing forgets a delay. */
  predicate PrunedBefore(steps: seq<PoolStep>, moment: int)
  {
    forall i :: 0 <= i < |steps| && steps[i].Pruning? ==> steps[i].now < moment
  }

  lemma {:induction false} DelayStays(p: Pool, version: nat, interpret: Interpreter, steps: seq<PoolStep>, d: Delayed)
    requires d in p.delayed && PrunedBefore(steps, d.until)
    ensures d in Ran(p, version, interpret, steps).delayed
  {
    hide Claimable, AcceptSpec, ReprocessSpec, PublishSpec, FailureSpec, WorkAt;
    if steps != [] {
      DelayStays(p, version, interpret, steps[..|steps| - 1], d);
      PruningOnlyDrops(Ran(p, version, interpret, steps[..|steps| - 1]).delayed, d.until - 1);
      StillThere(Ran(p, version, interpret, steps[..|steps| - 1]), version, interpret, steps[|steps| - 1], d);
    }
  }

  lemma StillThere(p: Pool, version: nat, interpret: Interpreter, step: PoolStep, d: Delayed)
    requires d in p.delayed && (step.Pruning? ==> step.now < d.until)
    ensures d in Step'(p, version, interpret, step).delayed
  {
    hide Claimable, AcceptSpec, ReprocessSpec, PublishSpec, FailureSpec, WorkAt, StillDelayed;
    if step.Pruning? {
      PruningOnlyDrops(p.delayed, step.now);
    }
  }

  /** A component found stale is left alone for 250 ms: no claim takes any of its scopes
      until the dispatcher forgets delays at or after that moment, and then it does forget
      this one. */
  lemma StaleIsLeftAlone(p: Pool, version: nat, interpret: Interpreter, i: nat, now: int, steps: seq<PoolStep>, root: Scope, t: int)
    requires i < |p.claims| && PublishSpec(p.db, version, p.claims[i], interpret(p.claims[i])).1 == Stale
    requires |p.delayed| < 128 && p.claims[i].scopes != map[] && ScopeCount(p.delayed) + |p.claims[i].scopes| <= 4096
    requires PrunedBefore(steps, now + 250)
    ensures var q := Ran(Finished(p, version, interpret, i, now), version, interpret, steps);
            && (Enabled'(q, Claiming(root, t)) ==> WorkAt(q.db, root).scopes.Keys !! p.claims[i].scopes.Keys)
            && (forall d :: d in Step'(q, version, interpret, Pruning(t)).delayed ==> t < d.until)
            && exists d :: d in q.delayed && d.until == now + 250 && d.work.scopes == p.claims[i].scopes
  {
    var work := p.claims[i];
    var d := Delayed(work.(records := map[], bytes := 0), now + STALE_RETRY_DELAY);
    var after := Finished(p, version, interpret, i, now);
    assert d in after.delayed by {
      hide PublishSpec, FailureSpec;
    }
    DelayStays(after, version, interpret, steps, d);
    var q := Ran(after, version, interpret, steps);
    hide Ran, Finished, PublishSpec;
    PruningOnlyDrops(q.delayed, t);
    if Claimable(q, t, root) {
      DelayedAreExcluded(q, d);
    }
  }

  lemma DelayedAreExcluded(q: Pool, d: Delayed)
    requires d in q.delayed
    ensures d.work.scopes.Keys <= Excluded(q)
  {
    var k :| 0 <= k < |q.delayed| && q.delayed[k] == d;
    var all := q.claims + DelayedWorks(q.delayed);
    assert all[|q.claims| + k] == d.work;
    assert all[|q.claims| + k] in all;
  }
}
