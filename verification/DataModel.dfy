/** Rows of the server's data file, as values. Text identities that the program
    derives by hashing are represented by what they are derived from. */
module DataModel {
  import opened Basics
  import opened Reachability

  type Scope = Node
  type EvidenceId = string
  type StreamId = string
  type BatchId = string
  type Hash = string

  const MAX_ENTRIES: nat := 256

  // ----- ingestion -----

  /** An accepted record: the scope and the parent scopes are functions of its content. */
  datatype Evidence = Evidence(scope: Scope, parents: set<Scope>, size: nat, body: string)

  datatype Record = Record(id: EvidenceId, evidence: Evidence)

  datatype Entry = Entry(sequence: nat, record: Record)

  /** A decoded request; hash stands for the exact request bytes. */
  datatype Batch = Batch(databaseId: string, stream: StreamId, id: BatchId,
                         fromSequence: nat, toSequence: nat, entries: seq<Entry>, hash: Hash)

  datatype Receipt = Receipt(databaseId: string, stream: StreamId, batch: BatchId, hash: Hash,
                             fromSequence: nat, toSequence: nat, accepted: nat,
                             acceptedAt: int, inputRevision: nat)

  datatype Outcome = Outcome(disposition: string, code: string, fact: Option<FactId>)

  /** None reports a record whose interpretation is not current. */
  datatype Status = Status(id: EvidenceId, outcome: Option<Outcome>)

  datatype Response = Response(receipt: Receipt, generation: nat, inputRevision: nat, items: seq<Status>)

  datatype AcceptError =
    | InvalidRequest | Unreadable | DatabaseMismatch | BatchConflict | SequenceConflict | RevisionLimit

  // ----- processing -----

  datatype ScopeRow = ScopeRow(revision: nat, processed: nat, generation: nat,
                               attempts: nat, retryAt: int, failed: bool)

  /** One consistent connected component, as handed to the interpreter. */
  datatype Work = Work(revision: nat, generation: nat, root: Scope, bytes: nat,
                       scopes: map<Scope, nat>, records: map<EvidenceId, Evidence>)

  /** A fact identity contains the session it belongs to, hence its scope. */
  datatype FactId = FactId(scope: Scope, local: string)

  datatype Fact = Fact(id: FactId, valid: bool, payload: string)

  datatype Contribution = Contribution(fact: Fact, evidence: seq<EvidenceId>)

  datatype Estimate = Estimate(fact: Fact, evidence: EvidenceId, code: string)

  datatype Projection = Projection(contributions: seq<Contribution>, estimates: seq<Estimate>,
                                   outcomes: seq<(EvidenceId, Outcome)>)

  datatype FactRow = FactRow(payload: string, inputRevision: nat)

  datatype EstimateRow = EstimateRow(payload: string, inputRevision: nat, evidence: EvidenceId, code: string)

  datatype GenerationState = Building | Active | Retained

  datatype Generation = Generation(version: nat, state: GenerationState)

  datatype Metadata = Metadata(generation: nat, target: nat, inputRevision: nat, revision: nat)

  type FactKey = (nat, FactId)

  datatype PublishError = InvalidFact | UnreadableData | RowConflict | RevisionExhausted

  datatype PublishResult = Published | Stale | Failed(error: PublishError)

  datatype ReprocessError = UnreadableStore | GenerationLimit

  /** All tables of the one dataset. */
  datatype Db = Db(
    databaseId: string,
    evidence: map<EvidenceId, Evidence>,
    items: map<(StreamId, nat), EvidenceId>,
    batches: map<(StreamId, BatchId), Receipt>,
    batchItems: map<(StreamId, BatchId, nat), EvidenceId>,
    scopes: map<Scope, ScopeRow>,
    deps: set<Edge>,
    outcomes: map<(nat, EvidenceId), Outcome>,
    facts: map<FactKey, FactRow>,
    estimates: map<FactKey, EstimateRow>,
    provenance: set<(nat, FactId, EvidenceId)>,
    generations: map<nat, Generation>,
    meta: Metadata)

  /** What readers of the analytics views see: the active generation's rows. */
  datatype Visible = Visible(
    facts: map<FactId, FactRow>,
    estimates: map<FactId, EstimateRow>,
    provenance: set<(FactId, EvidenceId)>)
}
