/** The transactions of the data store as functions from tables to tables.
    The class in Store.dfy is proved to compute exactly these. */
module StoreSpec {
  import opened Basics
  import opened Reachability
  import opened DataModel

  // ----- metadata -----

  predicate ValidGenerationStates(generations: map<nat, Generation>, generation: nat, target: nat)
  {
    && (forall g :: g in generations && generations[g].state == Active ==> g == generation)
    && generation in generations && generations[generation].state == Active
    && target in generations
    && generations[target].state == (if target > generation then Building else Active)
  }

  /** The guard every transaction starts with. A store written by newer
      interpretation rules is refused. */
  predicate Readable(db: Db, version: nat)
  {
    && 1 <= db.meta.generation <= db.meta.target <= SAFE_INTEGER
    && db.meta.inputRevision <= SAFE_INTEGER
    && db.meta.revision <= SAFE_INTEGER
    && ValidGenerationStates(db.generations, db.meta.generation, db.meta.target)
    && forall g :: g in db.generations ==> db.generations[g].version <= version
  }

  // ----- acceptance -----

  predicate ValidBatch(b: Batch)
  {
    && 1 <= |b.entries| <= MAX_ENTRIES
    && 0 < b.fromSequence <= b.toSequence <= SAFE_INTEGER
    && b.toSequence - b.fromSequence + 1 == |b.entries|
    && forall i :: 0 <= i < |b.entries| ==> b.entries[i].sequence == b.fromSequence + i
  }

  /** Evidence after storing the records not already held; first writer wins. */
  function Admit(evidence: map<EvidenceId, Evidence>, entries: seq<Entry>): map<EvidenceId, Evidence>
  {
    if entries == [] then evidence
    else
      var m := Admit(evidence, entries[..|entries| - 1]);
      var r := entries[|entries| - 1].record;
      if r.id in m then m else m[r.id := r.evidence]
  }

  function Bind(items: map<(StreamId, nat), EvidenceId>, stream: StreamId, entries: seq<Entry>)
    : map<(StreamId, nat), EvidenceId>
  {
    if entries == [] then items
    else
      var m := Bind(items, stream, entries[..|entries| - 1]);
      var e := entries[|entries| - 1];
      if (stream, e.sequence) in m then m else m[(stream, e.sequence) := e.record.id]
  }

  function Enlist(rows: map<(StreamId, BatchId, nat), EvidenceId>, stream: StreamId, batch: BatchId, entries: seq<Entry>)
    : map<(StreamId, BatchId, nat), EvidenceId>
  {
    if entries == [] then rows
    else
      var e := entries[|entries| - 1];
      Enlist(rows, stream, batch, entries[..|entries| - 1])[(stream, batch, e.sequence) := e.record.id]
  }

  predicate SequenceClash(items: map<(StreamId, nat), EvidenceId>, stream: StreamId, entries: seq<Entry>)
  {
    exists i :: 0 <= i < |entries| &&
      (stream, entries[i].sequence) in items &&
      items[(stream, entries[i].sequence)] != entries[i].record.id
  }

  /** The dependency table is determined by the evidence it was derived from. */
  function DepsOf(evidence: map<EvidenceId, Evidence>): set<Edge>
  {
    set id, p | id in evidence && p in evidence[id].parents :: (evidence[id].scope, p)
  }

  function Renewed(row: ScopeRow, revision: nat): ScopeRow
  {
    row.(revision := revision, attempts := 0, retryAt := 0, failed := false)
  }

  function Touch(scopes: map<Scope, ScopeRow>, touched: set<Scope>, revision: nat): map<Scope, ScopeRow>
  {
    map s | s in scopes.Keys + touched ::
      if s !in scopes then ScopeRow(revision, 0, 0, 0, 0, false)
      else if s in touched then Renewed(scopes[s], revision)
      else scopes[s]
  }

  /** A scope together with everything that depends on it, however indirectly. */
  ghost function Descendants(deps: set<Edge>, from: set<Scope>): set<Scope>
  {
    Reachable(Reverse(deps), from)
  }

  ghost function Ancestors(deps: set<Edge>, s: Scope): set<Scope>
  {
    Reachable(deps, {s})
  }

  // Evidence ids a batch would add, the scopes they change, and every scope
  // whose interpretation may change with them.

  function FreshIds(db: Db, b: Batch): set<EvidenceId>
  {
    Admit(db.evidence, b.entries).Keys - db.evidence.Keys
  }

  function ChangedScopes(db: Db, b: Batch): set<Scope>
  {
    var evidence := Admit(db.evidence, b.entries);
    set id | id in FreshIds(db, b) :: evidence[id].scope
  }

  function IngestedDeps(db: Db, b: Batch): set<Edge>
  {
    var evidence := Admit(db.evidence, b.entries);
    db.deps + set id, p | id in FreshIds(db, b) && p in evidence[id].parents :: (evidence[id].scope, p)
  }

  ghost function AffectedScopes(db: Db, b: Batch): set<Scope>
  {
    Descendants(IngestedDeps(db, b), ChangedScopes(db, b))
  }

  function NextRevision(db: Db, b: Batch): nat
  {
    if FreshIds(db, b) == {} then db.meta.inputRevision else db.meta.inputRevision + 1
  }

  ghost function IngestedScopes(db: Db, b: Batch): map<Scope, ScopeRow>
  {
    var touched := Touch(db.scopes, ChangedScopes(db, b), NextRevision(db, b));
    Touch(touched, AffectedScopes(db, b) * touched.Keys, NextRevision(db, b))
  }

  function NewReceipt(db: Db, b: Batch, now: int): Receipt
  {
    Receipt(db.databaseId, b.stream, b.id, b.hash, b.fromSequence, b.toSequence, |b.entries|, now, NextRevision(db, b))
  }

  /** The tables after accepting a batch that is neither a replay nor a conflict. */
  ghost function Ingest(db: Db, b: Batch, now: int): Db
  {
    db.(evidence := Admit(db.evidence, b.entries),
        deps := IngestedDeps(db, b),
        scopes := IngestedScopes(db, b),
        items := Bind(db.items, b.stream, b.entries),
        batchItems := Enlist(db.batchItems, b.stream, b.id, b.entries),
        batches := db.batches[(b.stream, b.id) := NewReceipt(db, b, now)],
        meta := db.meta.(inputRevision := NextRevision(db, b)))
  }

  predicate Clean(db: Db, s: Scope)
  {
    s in db.scopes && db.scopes[s].processed == db.scopes[s].revision && db.scopes[s].generation == db.meta.target
  }

  function Pending(db: Db): set<Scope>
  {
    set s | s in db.scopes && !Clean(db, s)
  }

  /** An outcome is reported only while its scope's interpretation is current. */
  function StatusOf(db: Db, id: EvidenceId): Status
  {
    if id in db.evidence && Clean(db, db.evidence[id].scope) && (db.meta.target, id) in db.outcomes
    then Status(id, Some(db.outcomes[(db.meta.target, id)]))
    else Status(id, None)
  }

  function StatusItems(db: Db, stream: StreamId, batch: BatchId, fromSequence: nat, count: nat): seq<Status>
  {
    if count == 0 then []
    else
      var rest := StatusItems(db, stream, batch, fromSequence, count - 1);
      var key := (stream, batch, fromSequence + count - 1);
      if key in db.batchItems then rest + [StatusOf(db, db.batchItems[key])] else rest
  }

  function ResponseFor(db: Db, receipt: Receipt): Response
  {
    Response(receipt, db.meta.target, db.meta.inputRevision,
             StatusItems(db, receipt.stream, receipt.batch, receipt.fromSequence, receipt.accepted))
  }

  ghost function AcceptSpec(db: Db, version: nat, b: Batch, now: int): (Db, Result<Response, AcceptError>)
  {
    if !ValidBatch(b) then (db, Err(InvalidRequest))
    else if !Readable(db, version) then (db, Err(Unreadable))
    else if b.databaseId != db.databaseId then (db, Err(DatabaseMismatch))
    else if (b.stream, b.id) in db.batches then
      var receipt := db.batches[(b.stream, b.id)];
      if receipt.hash != b.hash then (db, Err(BatchConflict)) else (db, Ok(ResponseFor(db, receipt)))
    else if db.meta.inputRevision >= SAFE_INTEGER then (db, Err(RevisionLimit))
    else if SequenceClash(db.items, b.stream, b.entries) then (db, Err(SequenceConflict))
    else
      var db' := Ingest(db, b, now);
      (db', Ok(ResponseFor(db', db'.batches[(b.stream, b.id)])))
  }

  // ----- selection -----

  ghost function Component(db: Db, root: Scope): set<Scope>
  {
    if root in db.scopes then Reachable(Undirected(db.deps), {root}) else {}
  }

  ghost function ComponentRows(db: Db, root: Scope): map<Scope, nat>
  {
    map s | s in Component(db, root) && s in db.scopes :: db.scopes[s].revision
  }

  ghost function ComponentEvidence(db: Db, root: Scope): map<EvidenceId, Evidence>
  {
    map id | id in db.evidence && db.evidence[id].scope in Component(db, root) :: db.evidence[id]
  }

  ghost function TotalSize(evidence: map<EvidenceId, Evidence>): nat
  {
    if evidence == map[] then 0
    else
      var id :| id in evidence;
      evidence[id].size + TotalSize(evidence - {id})
  }

  ghost function WorkAt(db: Db, root: Scope): Work
  {
    Work(db.meta.inputRevision, db.meta.target, root, TotalSize(ComponentEvidence(db, root)),
         ComponentRows(db, root), ComponentEvidence(db, root))
  }

  predicate Eligible(db: Db, now: int, s: Scope)
  {
    s in Pending(db) && db.scopes[s].retryAt <= now
  }

  // ----- publication -----

  predicate ValidProjection(p: Projection)
  {
    && (forall i :: 0 <= i < |p.contributions| ==> p.contributions[i].fact.valid)
    && (forall i :: 0 <= i < |p.estimates| ==> p.estimates[i].fact.valid)
  }

  function DropRows<T>(rows: map<FactKey, T>, generation: nat, scopes: set<Scope>): map<FactKey, T>
  {
    map k | k in rows && !(k.0 == generation && k.1.scope in scopes) :: rows[k]
  }

  function DropProvenance(edges: set<(nat, FactId, EvidenceId)>, facts: map<FactKey, FactRow>,
                          generation: nat, scopes: set<Scope>): set<(nat, FactId, EvidenceId)>
  {
    set t | t in edges && !(t.0 == generation && (t.0, t.1) in facts && t.1.scope in scopes)
  }

  /** Inserting a key twice violates the primary key and fails. */
  function InsertFacts(rows: map<FactKey, FactRow>, w: Work, cs: seq<Contribution>): Option<map<FactKey, FactRow>>
  {
    if cs == [] then Some(rows)
    else
      var c := cs[|cs| - 1];
      var k := (w.generation, c.fact.id);
      match InsertFacts(rows, w, cs[..|cs| - 1])
      case None => None
      case Some(m) => if k in m then None else Some(m[k := FactRow(c.fact.payload, w.revision)])
  }

  function InsertEstimates(rows: map<FactKey, EstimateRow>, w: Work, es: seq<Estimate>): Option<map<FactKey, EstimateRow>>
  {
    if es == [] then Some(rows)
    else
      var e := es[|es| - 1];
      var k := (w.generation, e.fact.id);
      match InsertEstimates(rows, w, es[..|es| - 1])
      case None => None
      case Some(m) => if k in m then None else Some(m[k := EstimateRow(e.fact.payload, w.revision, e.evidence, e.code)])
  }

  function NewProvenance(w: Work, cs: seq<Contribution>): set<(nat, FactId, EvidenceId)>
  {
    set i, id | 0 <= i < |cs| && id in cs[i].evidence :: (w.generation, cs[i].fact.id, id)
  }

  function PutOutcomes(rows: map<(nat, EvidenceId), Outcome>, w: Work, os: seq<(EvidenceId, Outcome)>)
    : map<(nat, EvidenceId), Outcome>
  {
    if os == [] then rows
    else
      var o := os[|os| - 1];
      PutOutcomes(rows, w, os[..|os| - 1])[(w.generation, o.0) := o.1]
  }

  function MarkProcessed(scopes: map<Scope, ScopeRow>, w: Work): map<Scope, ScopeRow>
  {
    map s | s in scopes ::
      if s in w.scopes then ScopeRow(scopes[s].revision, w.scopes[s], w.generation, 0, 0, false) else scopes[s]
  }

  /** Replaces the component's rows of one generation, or fails on a key clash. */
  function ReplaceRows(db: Db, w: Work, p: Projection): Option<Db>
  {
    var members := w.scopes.Keys;
    var kept := DropProvenance(db.provenance, db.facts, w.generation, members);
    var added := NewProvenance(w, p.contributions);
    match InsertFacts(DropRows(db.facts, w.generation, members), w, p.contributions)
    case None => None
    case Some(facts) =>
      match InsertEstimates(DropRows(db.estimates, w.generation, members), w, p.estimates)
      case None => None
      case Some(estimates) =>
        if kept * added != {} then None
        else Some(db.(facts := facts,
                      estimates := estimates,
                      provenance := kept + added,
                      outcomes := PutOutcomes(db.outcomes, w, p.outcomes),
                      scopes := MarkProcessed(db.scopes, w)))
  }

  function Activate(db: Db, generation: nat): Db
  {
    var retired := map g | g in db.generations ::
      if db.generations[g].state == Active then db.generations[g].(state := Retained) else db.generations[g];
    db.(generations := if generation in retired
                       then retired[generation := retired[generation].(state := Active)] else retired,
        meta := db.meta.(generation := generation, revision := db.meta.revision + 1))
  }

  /** The work still describes its whole component at its revisions and generation. */
  ghost predicate FencePasses(db: Db, w: Work)
  {
    db.meta.target == w.generation && ComponentRows(db, w.root) == w.scopes
  }

  function Settle(db: Db, w: Work): Db
  {
    if db.meta.generation == w.generation then db.(meta := db.meta.(revision := db.meta.revision + 1))
    else if Pending(db) == {} then Activate(db, w.generation)
    else db
  }

  ghost function PublishSpec(db: Db, version: nat, w: Work, p: Projection): (Db, PublishResult)
  {
    if !ValidProjection(p) then (db, Failed(InvalidFact))
    else if !Readable(db, version) then (db, Failed(UnreadableData))
    else if !FencePasses(db, w) then (db, Stale)
    else
      match ReplaceRows(db, w, p)
      case None => (db, Failed(RowConflict))
      case Some(written) =>
        if db.meta.revision >= SAFE_INTEGER then (db, Failed(RevisionExhausted))
        else (Settle(written, w), Published)
  }

  // ----- rebuilds and retries -----

  function ForgiveAll(scopes: map<Scope, ScopeRow>): map<Scope, ScopeRow>
  {
    map s | s in scopes :: scopes[s].(attempts := 0, retryAt := 0, failed := false)
  }

  /** Opens the next generation; an unfinished one of older rules is retired. */
  function OpenGeneration(db: Db, version: nat): Db
  {
    var m := db.meta;
    var kept := if m.target > m.generation && m.target in db.generations
                then db.generations[m.target := db.generations[m.target].(state := Retained)]
                else db.generations;
    db.(generations := kept[m.target + 1 := Generation(version, Building)], meta := m.(target := m.target + 1))
  }

  function Stage(db: Db, version: nat): Db
  {
    var staged := OpenGeneration(db.(scopes := ForgiveAll(db.scopes)), version);
    if db.scopes == map[] then Activate(staged, db.meta.target + 1) else staged
  }

  function ReprocessSpec(db: Db, version: nat): (Db, Result<nat, ReprocessError>)
  {
    if !Readable(db, version) then (db, Err(UnreadableStore))
    else if db.meta.target > db.meta.generation && db.generations[db.meta.target].version == version
    then (db, Ok(db.meta.target))
    else if db.meta.target >= SAFE_INTEGER then (db, Err(GenerationLimit))
    else (Stage(db, version), Ok(db.meta.target + 1))
  }

  /** What a program of one version does to a store it opens: it may write only after
      the target generation is of its own rules. */
  function OpenSpec(db: Db, version: nat): (Db, Result<nat, ReprocessError>)
  {
    if !Readable(db, version) then (db, Err(UnreadableStore))
    else if db.generations[db.meta.target].version == version then (db, Ok(db.meta.target))
    else ReprocessSpec(db, version)
  }

  const MAX_BACKOFF_EXPONENT: nat := 6

  function Power2(n: nat): nat {
    if n == 0 then 1 else 2 * Power2(n - 1)
  }

  function BackOff(row: ScopeRow, retryAt: int): ScopeRow
  {
    row.(attempts := row.attempts + 1, retryAt := retryAt, failed := true)
  }

  /** Rows still at the revision the failed work saw are delayed; newer input is not.
      Work that never learned its component delays its root alone. */
  function BackOffRows(scopes: map<Scope, ScopeRow>, w: Work, retryAt: int): map<Scope, ScopeRow>
  {
    map s | s in scopes ::
      if (if w.scopes == map[] then s == w.root && scopes[s].revision <= w.revision
          else s in w.scopes && scopes[s].revision == w.scopes[s])
      then BackOff(scopes[s], retryAt) else scopes[s]
  }

  function FailureSpec(db: Db, w: Work, now: int): Db
  {
    if w.root !in db.scopes || db.meta.target != w.generation then db
    else
      var retryAt := now + 1000 * Power2(Min(db.scopes[w.root].attempts, MAX_BACKOFF_EXPONENT));
      db.(scopes := BackOffRows(db.scopes, w, retryAt))
  }

  // ----- readers -----

  function RowsIn<T>(rows: map<FactKey, T>, generation: nat): map<FactId, T>
  {
    map k | k in rows && k.0 == generation :: k.1 := rows[k]
  }

  function EdgesIn(edges: set<(nat, FactId, EvidenceId)>, generation: nat): set<(FactId, EvidenceId)>
  {
    set t | t in edges && t.0 == generation :: (t.1, t.2)
  }

  function VisibleRows(db: Db): Visible
  {
    Visible(RowsIn(db.facts, db.meta.generation), RowsIn(db.estimates, db.meta.generation),
            EdgesIn(db.provenance, db.meta.generation))
  }

  /** A freshly created dataset. */
  function Initial(databaseId: string, version: nat): Db
  {
    Db(databaseId, map[], map[], map[], map[], map[], {}, map[], map[], map[], {},
       map[1 := Generation(version, Active)], Metadata(1, 1, 0, 0))
  }
}
