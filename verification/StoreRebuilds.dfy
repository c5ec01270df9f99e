/** Rebuilds and program versions: what asking for a rebuild leaves behind, and that no
    program ever writes rows into a generation of other rules than its own. */
module StoreRebuilds {
  import opened Basics
  import opened Reachability
  import opened DataModel
  import opened StoreSpec
  import opened StoreInvariant
  import opened StoreHistory
  import opened StoreRuns

  // ----- one request -----

  /** A rebuild under the given rules is under way. */
  predicate RebuildingUnder(db: Db, version: nat)
  {
    db.meta.target in db.generations && db.generations[db.meta.target] == Generation(version, Building)
  }

  /** The next generation is open, nothing was interpreted into it yet, and every scope
      may be tried at once. */
  predicate OpenedNext(db: Db, db': Db, version: nat, g: nat)
  {
    && g == db.meta.target + 1 && g !in db.generations
    && db'.generations.Keys == db.generations.Keys + {g}
    && db'.generations[g].version == version
    && (forall h :: h in db.generations ==> db'.generations[h].version == db.generations[h].version)
    && (forall h :: h in db.generations && db.generations[h].state == Building && h == db.meta.target ==>
          db'.generations[h].state == Retained)
    && db'.scopes.Keys == db.scopes.Keys
    && (forall s :: s in db.scopes ==>
          db'.scopes[s] == ScopeRow(db.scopes[s].revision, db.scopes[s].processed, db.scopes[s].generation, 0, 0, false))
    && (if db.scopes.Keys == {} then
          && db'.generations[g].state == Active && db'.meta.generation == g && db'.meta.revision == db.meta.revision + 1
          && (forall h :: h in db.generations ==> db'.generations[h].state != Active)
        else
          && db'.generations[g].state == Building
          && db'.meta.generation == db.meta.generation && db'.meta.revision == db.meta.revision
          && (forall h :: h in db.generations ==> (db'.generations[h].state == Active <==> db.generations[h].state == Active)))
    && db'.meta.inputRevision == db.meta.inputRevision
    && db' == db.(generations := db'.generations, scopes := db'.scopes, meta := db'.meta)
  }

  lemma StagedGenerations(db: Db, version: nat)
    requires MetadataOk(db) && db.meta.target < SAFE_INTEGER
    requires db.scopes.Keys == {} ==> db.meta.target == db.meta.generation
    ensures var g, d := db.meta.target + 1, Stage(db, version);
            && g !in db.generations
            && d.generations.Keys == db.generations.Keys + {g}
            && d.generations[g] == Generation(version, if db.scopes.Keys == {} then Active else Building)
            && (forall h :: h in db.generations ==>
                  d.generations[h].version == db.generations[h].version &&
                  (d.generations[h].state == Active <==> db.scopes.Keys != {} && db.generations[h].state == Active) &&
                  (h == db.meta.target > db.meta.generation ==> d.generations[h].state == Retained))
  {
    assert db.scopes.Keys == {} <==> db.scopes == map[];
  }

  lemma StagedRows(db: Db, version: nat)
    ensures var d := Stage(db, version);
            && d.scopes == ForgiveAll(db.scopes)
            && d.meta == db.meta.(target := db.meta.target + 1,
                                  generation := if db.scopes.Keys == {} then db.meta.target + 1 else db.meta.generation,
                                  revision := if db.scopes.Keys == {} then db.meta.revision + 1 else db.meta.revision)
            && d == db.(generations := d.generations, scopes := d.scopes, meta := d.meta)
  {
    assert db.scopes.Keys == {} <==> db.scopes == map[];
    hide ForgiveAll;
    var forgiven := db.(scopes := ForgiveAll(db.scopes));
    OpenIsLocal(forgiven, version);
    ActivateKeepsRows(OpenGeneration(forgiven, version), db.meta.target + 1);
    ActivateCounters(OpenGeneration(forgiven, version), db.meta.target + 1);
  }

  lemma StageOpensNext(db: Db, version: nat)
    requires Inv(db) && db.meta.target < SAFE_INTEGER
    ensures OpenedNext(db, Stage(db, version), version, db.meta.target + 1)
  {
    if db.scopes.Keys == {} {
      assert db.scopes == map[];
      EmptyStoreIsIdle(db);
    }
    assert MetadataOk(db);
    hide Inv, Stage;
    StagedGenerations(db, version);
    StagedRows(db, version);
  }

  /** A request answers with a generation of exactly the asking program's rules, and
      makes it the target. It is the one being built if that is of the same rules, and
      then nothing changes; otherwise a new one is opened and one of older rules that
      was being built is retired. */
  lemma RebuildIsOfOwnRules(db: Db, version: nat)
    requires Inv(db) && Readable(db, version) && (db.meta.target < SAFE_INTEGER || RebuildingUnder(db, version))
    ensures var (db', r) := ReprocessSpec(db, version);
            && r.Ok? && r.value == db'.meta.target
            && r.value in db'.generations && db'.generations[r.value].version == version
            && (if RebuildingUnder(db, version) then db' == db else OpenedNext(db, db', version, r.value))
  {
    hide Inv, Stage;
    if !RebuildingUnder(db, version) {
      StageOpensNext(db, version);
      StagedRows(db, version);
    }
  }

  /** It is refused only to older programs, or when the generations have run out. */
  lemma RebuildRefusals(db: Db, version: nat)
    requires Inv(db) && ReprocessSpec(db, version).1.Err?
    ensures ReprocessSpec(db, version).0 == db
    ensures ReprocessSpec(db, version).1.error ==
            if exists g :: g in db.generations && db.generations[g].version > version then UnreadableStore else GenerationLimit
    ensures (exists g :: g in db.generations && db.generations[g].version > version) ||
            (db.meta.target == SAFE_INTEGER && !RebuildingUnder(db, version))
  {
    hide Stage;
    OnlyNewerRulesAreRefused(db, version);
    assert MetadataOk(db);
    hide Inv, Readable, MetadataOk;
    if forall g :: g in db.generations ==> db.generations[g].version <= version {
      RefusedAtLimit(db, version);
    }
  }

  lemma RefusedAtLimit(db: Db, version: nat)
    requires MetadataOk(db) && Readable(db, version) && ReprocessSpec(db, version).1.Err?
    ensures ReprocessSpec(db, version) == (db, Err(GenerationLimit))
    ensures db.meta.target == SAFE_INTEGER && !RebuildingUnder(db, version)
  {
    hide Stage;
  }

  // ----- programs of different versions on one store -----

  /** The store and the version of the program that has it open, if one does. */
  datatype Service = Service(world: World, program: Option<nat>)

  datatype ServiceStep =
    | Opening(version: nat)
    | Working(step: Step)

  /** A program's steps carry its own version. */
  predicate OfProgram(step: Step, version: nat)
  {
    (step.Accepting? || step.Publishing? || step.Reprocessing?) ==> step.version == version
  }

  ghost function Opened(v: Service, version: nat): Service
  {
    var (db', r) := OpenSpec(v.world.db, version);
    if r.Ok? then Service(v.world.(db := db'), Some(version)) else v.(program := None)
  }

  ghost function Serve(v: Service, step: ServiceStep): Service
  {
    match step
    case Opening(version) => Opened(v, version)
    case Working(s) =>
      if v.program.Some? && OfProgram(s, v.program.value) then v.(world := Next(v.world, s)) else v
  }

  /** Programs of any versions take turns on one store, which one of them created. */
  ghost function Served(databaseId: string, version: nat, steps: seq<ServiceStep>): Service
  {
    if steps == [] then Service(Run(databaseId, version, []), Some(version))
    else Serve(Served(databaseId, version, steps[..|steps| - 1]), steps[|steps| - 1])
  }

  ghost predicate ServiceOk(v: Service)
  {
    && WorldInv(v.world)
    && (v.program.Some? ==> v.world.db.generations[v.world.db.meta.target].version == v.program.value)
  }

  /** A generation, once opened, keeps its rules. */
  predicate KeepsRules(a: Db, b: Db)
  {
    forall g :: g in a.generations ==> g in b.generations && b.generations[g].version == a.generations[g].version
  }

  lemma StageKeepsRules(db: Db, version: nat)
    requires Inv(db)
    ensures KeepsRules(db, ReprocessSpec(db, version).0)
  {
    hide Inv, Stage, Readable;
    if ReprocessSpec(db, version).0 != db {
      StageOpensNext(db, version);
    }
  }

  lemma ActivateKeepsRules(d: Db, g: nat)
    ensures KeepsRules(d, Activate(d, g)) && Activate(d, g).meta.target == d.meta.target
  {
  }

  lemma SettleKeepsRules(d: Db, w: Work)
    ensures KeepsRules(d, Settle(d, w)) && Settle(d, w).meta.target == d.meta.target
  {
    hide Pending, Activate, KeepsRules;
    ActivateKeepsRules(d, w.generation);
    RulesReadGenerations(d, d);
    RulesReadGenerations(d, d.(meta := d.meta.(revision := d.meta.revision + 1)));
  }

  lemma RulesReadGenerations(a: Db, b: Db)
    requires a.generations == b.generations
    ensures KeepsRules(a, b)
  {
  }

  lemma PublishKeepsRules(db: Db, version: nat, w: Work, p: Projection)
    ensures KeepsRules(db, PublishSpec(db, version, w, p).0)
    ensures PublishSpec(db, version, w, p).0.meta.target == db.meta.target
  {
    hide FencePasses, Readable, ValidProjection, InsertFacts, InsertEstimates, DropRows, DropProvenance, NewProvenance,
         PutOutcomes, MarkProcessed, Settle;
    if PublishSpec(db, version, w, p).1 == Published {
      SettleKeepsRules(ReplaceRows(db, w, p).value, w);
    }
  }

  lemma AcceptKeepsGenerations(db: Db, version: nat, b: Batch, now: int)
    ensures AcceptSpec(db, version, b, now).0.generations == db.generations
    ensures AcceptSpec(db, version, b, now).0.meta.target == db.meta.target
  {
    hide Readable, ValidBatch, SequenceClash, ResponseFor, Admit, Bind, Enlist, IngestedScopes, IngestedDeps, NextRevision;
  }

  lemma NextKeepsRules(w: World, step: Step)
    requires WorldInv(w)
    ensures KeepsRules(w.db, Next(w, step).db)
    ensures !step.Reprocessing? ==> Next(w, step).db.meta.target == w.db.meta.target
  {
    assert Inv(w.db);
    hide Inv, WorldInv, AcceptSpec, PublishSpec, ReprocessSpec, WorkAt, Within, Power2, BackOffRows;
    match step
    case Accepting(version, b, now) => AcceptKeepsGenerations(w.db, version, b, now);
    case Publishing(version, load, p) => PublishKeepsRules(w.db, version, load.work, p);
    case Reprocessing(version) => StageKeepsRules(w.db, version);
    case _ =>
  }

  lemma RebuiltTarget(db: Db, version: nat)
    requires Inv(db)
    ensures var (db', r) := ReprocessSpec(db, version);
            && (r.Ok? ==> db'.generations[db'.meta.target].version == version)
            && (r.Err? ==> db' == db)
  {
    hide Inv, Stage;
    if r0 :| ReprocessSpec(db, version).1 == Ok(r0) {
      RebuildIsOfOwnRules(db, version);
    }
  }

  /** Opening succeeds with the target of the program's own rules, or leaves the store
      alone; a target already of those rules is left alone too. */
  lemma OpeningSettlesRules(db: Db, version: nat)
    requires Inv(db)
    ensures var (db', r) := OpenSpec(db, version);
            && Inv(db')
            && (r.Ok? ==> r.value == db'.meta.target && db'.generations[db'.meta.target].version == version)
            && (r.Err? || db.generations[db.meta.target].version == version ==> db' == db)
            && (r.Err? <==> (exists g :: g in db.generations && db.generations[g].version > version) ||
                            (db.meta.target == SAFE_INTEGER && db.generations[db.meta.target].version != version))
  {
    OnlyNewerRulesAreRefused(db, version);
    ReprocessKeepsInv(db, version);
    assert MetadataOk(db);
    hide Inv, Stage, Readable;
    RebuiltTarget(db, version);
    if Readable(db, version) && db.meta.target < SAFE_INTEGER {
      RebuildIsOfOwnRules(db, version);
    }
    if ReprocessSpec(db, version).1.Err? {
      RebuildRefusals(db, version);
    }
  }

  lemma OpeningKeepsService(v: Service, version: nat)
    requires ServiceOk(v)
    ensures ServiceOk(Opened(v, version))
  {
    assert Inv(v.world.db);
    hide WorldInv, Inv, ReprocessSpec, Readable;
    OpeningSettlesRules(v.world.db, version);
    ReprocessingKeepsWorldInv(v.world, version);
  }

  lemma WorkingKeepsService(v: Service, step: Step)
    requires ServiceOk(v) && v.program.Some? && OfProgram(step, v.program.value)
    ensures ServiceOk(v.(world := Next(v.world, step)))
  {
    NextKeepsWorldInv(v.world, step);
    NextKeepsRules(v.world, step);
    assert Inv(v.world.db) && MetadataOk(v.world.db);
    hide WorldInv, Inv, MetadataOk;
    if step.Reprocessing? {
      RebuiltTarget(v.world.db, step.version);
      hide ReprocessSpec;
    } else {
      hide Next;
      TargetExists(v.world.db);
    }
  }

  lemma TargetExists(db: Db)
    requires MetadataOk(db)
    ensures db.meta.target in db.generations
  {
  }

  lemma {:induction false} ServicesAreOk(databaseId: string, version: nat, steps: seq<ServiceStep>)
    ensures ServiceOk(Served(databaseId, version, steps))
  {
    if steps == [] {
      RunsKeepWorldInv(databaseId, version, []);
    } else {
      var v, step := Served(databaseId, version, steps[..|steps| - 1]), steps[|steps| - 1];
      ServicesAreOk(databaseId, version, steps[..|steps| - 1]);
      hide ServiceOk, Opened, Next;
      match step
      case Opening(o) => OpeningKeepsService(v, o);
      case Working(s) => if v.program.Some? && OfProgram(s, v.program.value) { WorkingKeepsService(v, s); }
    }
  }

  /** Two maps agree on the keys of generation g. */
  ghost predicate SameAt<K(!new), V>(a: map<(nat, K), V>, b: map<(nat, K), V>, g: nat)
  {
    forall k: (nat, K) :: k.0 == g ==> (k in a <==> k in b) && (k in a ==> a[k] == b[k])
  }

  /** The rows held for generation g are the same. */
  ghost predicate SameGeneration(a: Db, b: Db, g: nat)
  {
    && SameAt(a.facts, b.facts, g) && SameAt(a.estimates, b.estimates, g) && SameAt(a.outcomes, b.outcomes, g)
    && (forall t: (nat, FactId, EvidenceId) :: t.0 == g ==> (t in a.provenance <==> t in b.provenance))
  }

  lemma FactsElsewhere(rows: map<FactKey, FactRow>, w: Work, cs: seq<Contribution>, g: nat)
    requires g != w.generation
    requires InsertFacts(DropRows(rows, w.generation, w.scopes.Keys), w, cs).Some?
    ensures SameAt(rows, InsertFacts(DropRows(rows, w.generation, w.scopes.Keys), w, cs).value, g)
  {
    InsertedFacts(DropRows(rows, w.generation, w.scopes.Keys), w, cs);
    hide InsertFacts;
  }

  lemma EstimatesElsewhere(rows: map<FactKey, EstimateRow>, w: Work, es: seq<Estimate>, g: nat)
    requires g != w.generation
    requires InsertEstimates(DropRows(rows, w.generation, w.scopes.Keys), w, es).Some?
    ensures SameAt(rows, InsertEstimates(DropRows(rows, w.generation, w.scopes.Keys), w, es).value, g)
  {
    InsertedEstimates(DropRows(rows, w.generation, w.scopes.Keys), w, es);
    hide InsertEstimates;
  }

  lemma OutcomesElsewhere(rows: map<(nat, EvidenceId), Outcome>, w: Work, os: seq<(EvidenceId, Outcome)>, g: nat)
    requires g != w.generation
    ensures SameAt(rows, PutOutcomes(rows, w, os), g)
  {
    OutcomesPut(rows, w, os);
    hide PutOutcomes;
  }

  lemma ReplaceWritesOneGeneration(db: Db, w: Work, p: Projection, g: nat)
    requires ReplaceRows(db, w, p).Some? && g != w.generation
    ensures SameGeneration(db, ReplaceRows(db, w, p).value, g)
  {
    hide InsertFacts, InsertEstimates, PutOutcomes, MarkProcessed, SameAt, DropRows;
    FactsElsewhere(db.facts, w, p.contributions, g);
    EstimatesElsewhere(db.estimates, w, p.estimates, g);
    OutcomesElsewhere(db.outcomes, w, p.outcomes, g);
  }

  lemma PublishWritesTarget(db: Db, version: nat, w: Work, p: Projection, g: nat)
    requires g != db.meta.target
    ensures SameGeneration(db, PublishSpec(db, version, w, p).0, g)
  {
    hide Readable, ValidProjection, ReplaceRows, Settle, SameGeneration;
    SameTables(db, db, g);
    if PublishSpec(db, version, w, p).1 == Published {
      var d := ReplaceRows(db, w, p).value;
      ReplaceWritesOneGeneration(db, w, p, g);
      SettleKeepsRows(d, w);
      SameTables(d, Settle(d, w), g);
      SameTrans(db, d, Settle(d, w), g);
    }
  }

  lemma SameTables(a: Db, b: Db, g: nat)
    requires a.facts == b.facts && a.estimates == b.estimates && a.provenance == b.provenance && a.outcomes == b.outcomes
    ensures SameGeneration(a, b, g)
  {
  }

  lemma SameTrans(a: Db, b: Db, c: Db, g: nat)
    requires SameGeneration(a, b, g) && SameGeneration(b, c, g)
    ensures SameGeneration(a, c, g)
  {
  }

  lemma NextWritesTarget(w: World, step: Step, g: nat)
    requires g != w.db.meta.target
    ensures SameGeneration(w.db, Next(w, step).db, g)
  {
    hide AcceptSpec, PublishSpec, ReprocessSpec, FailureSpec, WorkAt, Within, SameGeneration;
    SameTables(w.db, w.db, g);
    match step
    case Accepting(version, b, now) =>
      AcceptCarries(w.db, version, b, now);
      SameTables(w.db, AcceptSpec(w.db, version, b, now).0, g);
    case Loading(root) =>
    case Publishing(version, load, p) => PublishWritesTarget(w.db, version, load.work, p, g);
    case Reprocessing(version) =>
      ReprocessCarries(w.db, version);
      SameTables(w.db, ReprocessSpec(w.db, version).0, g);
    case Failing(work, now) =>
      FailureCarries(w.db, work, now);
      SameTables(w.db, FailureSpec(w.db, work, now), g);
  }

  /** Whichever programs take turns, a step changes the rows of a generation only if
      the program taking it is of that generation's rules, and no generation's rules are
      ever relabelled. */
  lemma NeverWrittenByOtherRules(databaseId: string, version: nat, steps: seq<ServiceStep>, step: ServiceStep, g: nat)
    requires g in Served(databaseId, version, steps).world.db.generations
    ensures var v, v' := Served(databaseId, version, steps), Served(databaseId, version, steps + [step]);
            var db, db' := v.world.db, v'.world.db;
            && g in db'.generations && db'.generations[g].version == db.generations[g].version
            && (SameGeneration(db, db', g) || v.program == Some(db.generations[g].version))
  {
    var v := Served(databaseId, version, steps);
    ServicesAreOk(databaseId, version, steps);
    assert WorldInv(v.world) && Inv(v.world.db);
    assert (steps + [step])[..|steps|] == steps;
    assert Served(databaseId, version, steps + [step]) == Serve(v, step);
    hide Served, WorldInv, Inv, Next, SameGeneration, ReprocessSpec, Readable;
    SameTables(v.world.db, v.world.db, g);
    match step
    case Opening(o) =>
      ReprocessCarries(v.world.db, o);
      SameTables(v.world.db, ReprocessSpec(v.world.db, o).0, g);
      StageKeepsRules(v.world.db, o);
      KeepsOwnRules(v.world.db);
    case Working(s) =>
      NextKeepsRules(v.world, s);
      KeepsOwnRules(v.world.db);
      if g != v.world.db.meta.target {
        NextWritesTarget(v.world, s, g);
      }
  }

  lemma KeepsOwnRules(db: Db)
    ensures KeepsRules(db, db)
  {
  }
}
