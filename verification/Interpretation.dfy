/** Turning one component's accepted records into contributions, estimates and one
    outcome for each record. */
module Interpretation {
  import opened Basics
  import opened DataModel
  import opened Candidates
  import opened Ancestry

  /** What parsing made of a record: no usage, unreadable usage, or a candidate. */
  datatype Reading = NoUsage | Unusable | Usable(candidate: Candidate)

  datatype Stored = Stored(id: EvidenceId, reading: Reading)

  function CandidatesOf(stored: seq<Stored>): seq<Candidate>
  {
    if stored == [] then []
    else
      var rest := CandidatesOf(stored[..|stored| - 1]);
      var last := stored[|stored| - 1].reading;
      if last.Usable? then rest + [last.candidate] else rest
  }

  // ----- groups of one fact -----

  predicate FactBefore(a: FactId, b: FactId)
  {
    TextLess(a.scope, b.scope) || (a.scope == b.scope && TextLess(a.local, b.local))
  }

  function FactIds(cs: seq<Candidate>): seq<FactId>
  {
    if cs == [] then []
    else
      var rest := FactIds(cs[..|cs| - 1]);
      if cs[|cs| - 1].usage.id in rest then rest else rest + [cs[|cs| - 1].usage.id]
  }

  function Same(cs: seq<Candidate>, id: FactId): seq<Candidate>
  {
    if cs == [] then []
    else
      var rest := Same(cs[..|cs| - 1], id);
      if cs[|cs| - 1].usage.id == id then rest + [cs[|cs| - 1]] else rest
  }

  predicate Older(a: Candidate, b: Candidate)
  {
    if a.usage.occurredAt != b.usage.occurredAt then a.usage.occurredAt < b.usage.occurredAt
    else TextLess(a.evidence, b.evidence)
  }

  /** All observations of one fact, oldest first. */
  function Group(cs: seq<Candidate>, id: FactId): seq<Candidate>
  {
    Sorted(Same(cs, id), Older)
  }

  function LastClear(g: seq<Candidate>, n: nat): (r: Option<nat>)
    requires n <= |g|
    ensures r.Some? ==> r.value < n && g[r.value].code == ""
    ensures forall i :: 0 <= i < n && g[i].code == "" ==> r.Some? && i <= r.value
  {
    if n == 0 then None else if g[n - 1].code == "" then Some(n - 1) else LastClear(g, n - 1)
  }

  function LastVersion2(g: seq<Candidate>, n: nat): (r: Option<nat>)
    requires n <= |g|
    ensures r.Some? ==> r.value < n && g[r.value].format == "opencode-v2"
    ensures forall i :: 0 <= i < n && g[i].format == "opencode-v2" ==> r.Some? && i <= r.value
  {
    if n == 0 then None else if g[n - 1].format == "opencode-v2" then Some(n - 1) else LastVersion2(g, n - 1)
  }

  /** The newest clear observation speaks for the fact; OpenCode's second format is
      authoritative over its first. */
  function Selected(g: seq<Candidate>): (s: nat)
    requires g != []
    ensures s < |g|
  {
    var clear := LastClear(g, |g|);
    var chosen := if clear.Some? then clear.value else |g| - 1;
    if g[chosen].usage.harness == OpenCode && LastVersion2(g, |g|).Some? then LastVersion2(g, |g|).value else chosen
  }

  /** Locations are enrichment. Claude Code revises a request's counters under one
      identity, so there the occurrence is not compared either. */
  predicate SameUsage(left: Usage, right: Usage)
  {
    left.harness == right.harness && left.counters == right.counters &&
    (left.harness == ClaudeCode || left.occurredAt == right.occurredAt)
  }

  predicate Tolerated(item: Candidate, selected: Candidate)
  {
    || (selected.usage.harness == OpenCode && selected.format == "opencode-v2" && item.format == "opencode-v1")
    || SameUsage(item.usage, selected.usage)
    || (selected.usage.harness == ClaudeCode && selected.usage.request != "" &&
        item.usage.occurredAt != selected.usage.occurredAt)
  }

  /** Two clear observations of one fact disagree. */
  predicate Conflict(g: seq<Candidate>, s: nat)
    requires s < |g|
  {
    exists i :: 0 <= i < |g| && g[i].code == "" && !Tolerated(g[i], g[s])
  }

  function SettledCode(g: seq<Candidate>, s: nat): string
    requires s < |g|
  {
    if Conflict(g, s) then "conflicting_native_identity" else g[s].code
  }

  function OutcomeOf(id: FactId, g: seq<Candidate>, s: nat, conflict: bool, i: nat): Outcome
    requires s < |g| && i < |g|
  {
    var item := g[i];
    if conflict then Outcome("ambiguous", "conflicting_native_identity", Some(id))
    else if item.code == "known_duplicate" then Outcome("duplicate", "", Some(id))
    else if item.code == "stale_snapshot" then Outcome("superseded", "", Some(id))
    else if item.code != "" then Outcome("ambiguous", item.code, Some(id))
    else if i == s then Outcome("processed", "", Some(id))
    else if item.usage.occurredAt < g[s].usage.occurredAt || item.format != g[s].format then Outcome("superseded", "", Some(id))
    else Outcome("duplicate", "", Some(id))
  }

  // ----- the account -----

  datatype Account = Account(outcomes: map<EvidenceId, Outcome>, contributions: seq<Contribution>, estimates: seq<Estimate>)

  /** Facts that fail validation never become candidates. */
  function FactOf(u: Usage): Fact
  {
    Fact(u.id, true, u.counters + u.location)
  }

  function EvidenceOf(g: seq<Candidate>): (ids: seq<EvidenceId>)
    ensures |ids| == |g| && forall i :: 0 <= i < |g| ==> ids[i] == g[i].evidence
  {
    seq(|g|, i requires 0 <= i < |g| => g[i].evidence)
  }

  function NotedOutcomes(outcomes: map<EvidenceId, Outcome>, id: FactId, g: seq<Candidate>, s: nat, conflict: bool, n: nat)
    : map<EvidenceId, Outcome>
    requires s < |g| && n <= |g|
  {
    if n == 0 then outcomes
    else NotedOutcomes(outcomes, id, g, s, conflict, n - 1)[g[n - 1].evidence := OutcomeOf(id, g, s, conflict, n - 1)]
  }

  function Settled(a: Account, id: FactId, g: seq<Candidate>): Account
    requires g != []
  {
    var s := Selected(g);
    var outcomes := NotedOutcomes(a.outcomes, id, g, s, Conflict(g, s), |g|);
    var code := SettledCode(g, s);
    if code == "" then Account(outcomes, a.contributions + [Contribution(FactOf(g[s].usage), EvidenceOf(g))], a.estimates)
    else if code != "known_duplicate" && code != "stale_snapshot" then
      Account(outcomes, a.contributions, a.estimates + [Estimate(FactOf(g[s].usage), g[s].evidence, code)])
    else a.(outcomes := outcomes)
  }

  function SettledAll(a: Account, cs: seq<Candidate>, ids: seq<FactId>): Account
    requires forall k :: 0 <= k < |ids| ==> Group(cs, ids[k]) != []
  {
    if ids == [] then a
    else
      var id := ids[|ids| - 1];
      Settled(SettledAll(a, cs, ids[..|ids| - 1]), id, Group(cs, id))
  }

  function Parsed(stored: seq<Stored>): map<EvidenceId, Outcome>
  {
    if stored == [] then map[]
    else
      var rest := Parsed(stored[..|stored| - 1]);
      var last := stored[|stored| - 1];
      match last.reading
      case NoUsage => rest[last.id := Outcome("context", "", None)]
      case Unusable => rest[last.id := Outcome("ambiguous", "unusable_usage", None)]
      case Usable(_) => rest
  }

  lemma {:induction false} IdsHaveGroups(cs: seq<Candidate>, id: FactId)
    ensures id in FactIds(cs) <==> exists i :: 0 <= i < |cs| && cs[i].usage.id == id
    ensures id in FactIds(cs) <==> Same(cs, id) != []
  {
    if cs != [] {
      var front, last := cs[..|cs| - 1], cs[|cs| - 1];
      IdsHaveGroups(front, id);
      assert cs == front + [last];
      if exists i :: 0 <= i < |cs| && cs[i].usage.id == id && i < |front| {
        var i :| 0 <= i < |cs| && cs[i].usage.id == id && i < |front|;
        assert front[i].usage.id == id;
      }
    }
  }

  lemma GroupHolds(cs: seq<Candidate>, id: FactId)
    ensures |Group(cs, id)| == |Same(cs, id)| && multiset(Group(cs, id)) == multiset(Same(cs, id))
    ensures forall c :: c in Group(cs, id) <==> c in Same(cs, id)
  {
    SortedHolds(Same(cs, id), Older);
    SortedMembers(Same(cs, id), Older);
  }

  /** The identities in the order they are settled. */
  function SettlingOrder(cs: seq<Candidate>): (ids: seq<FactId>)
    ensures forall id :: id in ids <==> id in FactIds(cs)
    ensures forall k :: 0 <= k < |ids| ==> Group(cs, ids[k]) != []
  {
    SortedMembers(FactIds(cs), FactBefore);
    var ids := Sorted(FactIds(cs), FactBefore);
    OrderHasGroups(cs, ids);
    ids
  }

  lemma OrderHasGroups(cs: seq<Candidate>, ids: seq<FactId>)
    requires forall id :: id in ids <==> id in FactIds(cs)
    ensures forall k :: 0 <= k < |ids| ==> Group(cs, ids[k]) != []
  {
    hide Group, FactIds, Same;
    forall k | 0 <= k < |ids|
      ensures Group(cs, ids[k]) != []
    {
      assert ids[k] in ids;
      IdsHaveGroups(cs, ids[k]);
      GroupHolds(cs, ids[k]);
    }
  }

  function AccountOf(stored: seq<Stored>, resolved: seq<Candidate>): Account
  {
    SettledAll(Account(Parsed(stored), [], []), resolved, SettlingOrder(resolved))
  }

  /** The projection of records whose candidates were resolved as given. A record that
      nothing accounts for would keep the empty outcome. */
  function ProjectionOf(stored: seq<Stored>, resolved: seq<Candidate>): Projection
  {
    var a := AccountOf(stored, resolved);
    Projection(a.contributions, a.estimates,
               seq(|stored|, i requires 0 <= i < |stored| =>
                 (stored[i].id, if stored[i].id in a.outcomes then a.outcomes[stored[i].id] else Outcome("", "", None))))
  }
}
