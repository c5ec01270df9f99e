/** Processing one component from its parsed records to its projection, and what that
    gives the store. */
module Processor {
  import opened Basics
  import opened DataModel
  import opened Candidates
  import opened Ancestry
  import opened AncestryResolver
  import opened AncestryTheorems
  import opened Interpretation
  import Theorems = InterpretationTheorems
  import opened StoreSpec
  import opened StoreRuns
  import opened StoreProgress
  import opened DataEngine

  function SessionsIn(cs: seq<Candidate>): seq<Scope>
  {
    if cs == [] then []
    else
      var rest := SessionsIn(cs[..|cs| - 1]);
      var last := cs[|cs| - 1];
      if last.codex.Some? && last.usage.id.scope !in rest then rest + [last.usage.id.scope] else rest
  }

  function SessionOrder(cs: seq<Candidate>): seq<Scope>
  {
    Sorted(SessionsIn(cs), TextLess)
  }

  ghost function ResolvedCandidates(stored: seq<Stored>, entries: seq<SessionMeta>): seq<Candidate>
  {
    Resolved(Env(Merged(entries), CandidatesOf(stored)), SessionOrder(CandidatesOf(stored))).items
  }

  ghost function Interpreted(stored: seq<Stored>, entries: seq<SessionMeta>): Projection
  {
    ProjectionOf(stored, ResolvedCandidates(stored, entries))
  }

  // ----- the steps -----

  method MergeMetadata(entries: seq<SessionMeta>) returns (metadata: map<Scope, Lineage>)
    ensures metadata == Merged(entries)
  {
    metadata := map[];
    var i := 0;
    while i < |entries|
      invariant 0 <= i <= |entries|
      invariant metadata == Merged(entries[..i])
    {
      assert entries[..i + 1][..i] == entries[..i];
      var next := entries[i].data;
      var session := entries[i].session;
      if session in metadata {
        var previous := metadata[session];
        if previous.parent != next.parent || previous.fork != next.fork {
          next := next.(conflict := true);
        }
        next := next.(conflict := next.conflict || previous.conflict);
      }
      metadata := metadata[session := next];
      i := i + 1;
    }
    assert entries[..i] == entries;
  }

  method ReadAll(stored: seq<Stored>) returns (candidates: seq<Candidate>, outcomes: map<EvidenceId, Outcome>)
    ensures candidates == CandidatesOf(stored) && outcomes == Parsed(stored)
  {
    candidates, outcomes := [], map[];
    var i := 0;
    while i < |stored|
      invariant 0 <= i <= |stored|
      invariant candidates == CandidatesOf(stored[..i]) && outcomes == Parsed(stored[..i])
    {
      assert stored[..i + 1][..i] == stored[..i];
      match stored[i].reading {
        case NoUsage => outcomes := outcomes[stored[i].id := Outcome("context", "", None)];
        case Unusable => outcomes := outcomes[stored[i].id := Outcome("ambiguous", "unusable_usage", None)];
        case Usable(candidate) => candidates := candidates + [candidate];
      }
      i := i + 1;
    }
    assert stored[..i] == stored;
  }

  method ListSessions(cs: seq<Candidate>) returns (keys: seq<Scope>)
    ensures keys == SessionsIn(cs)
  {
    keys := [];
    var i := 0;
    while i < |cs|
      invariant 0 <= i <= |cs|
      invariant keys == SessionsIn(cs[..i])
    {
      assert cs[..i + 1][..i] == cs[..i];
      if cs[i].codex.Some? && cs[i].usage.id.scope !in keys {
        keys := keys + [cs[i].usage.id.scope];
      }
      i := i + 1;
    }
    assert cs[..i] == cs;
  }

  method GroupAll(cs: seq<Candidate>) returns (groups: map<FactId, seq<Candidate>>, ids: seq<FactId>)
    ensures ids == FactIds(cs)
    ensures forall id :: id in groups <==> id in ids
    ensures forall id :: id in groups ==> groups[id] == Same(cs, id)
  {
    groups, ids := map[], [];
    var i := 0;
    while i < |cs|
      invariant 0 <= i <= |cs|
      invariant ids == FactIds(cs[..i])
      invariant forall id :: id in groups <==> id in ids
      invariant forall id :: id in groups ==> groups[id] == Same(cs[..i], id)
    {
      assert cs[..i + 1][..i] == cs[..i];
      var id := cs[i].usage.id;
      IdsHaveGroups(cs[..i], id);
      if id in groups {
        groups := groups[id := groups[id] + [cs[i]]];
      } else {
        ids := ids + [id];
        groups := groups[id := [cs[i]]];
      }
      i := i + 1;
    }
    assert cs[..i] == cs;
  }

  method Select(g: seq<Candidate>) returns (s: nat)
    requires g != []
    ensures s == Selected(g)
  {
    s := |g| - 1;
    var i := 0;
    while i < |g|
      invariant 0 <= i <= |g|
      invariant s == (if LastClear(g, i).Some? then LastClear(g, i).value else |g| - 1)
    {
      if g[i].code == "" {
        s := i;
      }
      i := i + 1;
    }
    if g[s].usage.harness == OpenCode {
      i := 0;
      ghost var chosen := s;
      while i < |g|
        invariant 0 <= i <= |g|
        invariant s == if LastVersion2(g, i).Some? then LastVersion2(g, i).value else chosen
      {
        if g[i].format == "opencode-v2" {
          s := i;
        }
        i := i + 1;
      }
    }
  }

  method FindConflict(g: seq<Candidate>, s: nat) returns (conflict: bool)
    requires s < |g|
    ensures conflict == Conflict(g, s)
  {
    conflict := false;
    var i := 0;
    while i < |g|
      invariant 0 <= i <= |g|
      invariant conflict <==> exists k :: 0 <= k < i && g[k].code == "" && !Tolerated(g[k], g[s])
    {
      if g[i].code == "" && !Tolerated(g[i], g[s]) {
        conflict := true;
      }
      i := i + 1;
    }
  }

  method Settle(a: Account, id: FactId, g: seq<Candidate>) returns (b: Account)
    requires g != []
    ensures b == Settled(a, id, g)
  {
    hide Conflict, Tolerated, Selected, OutcomeOf;
    var s := Select(g);
    var conflict := FindConflict(g, s);
    var code := g[s].code;
    if conflict {
      code := "conflicting_native_identity";
    }
    var outcomes := a.outcomes;
    var provenance: seq<EvidenceId> := [];
    var i := 0;
    while i < |g|
      invariant 0 <= i <= |g|
      invariant outcomes == NotedOutcomes(a.outcomes, id, g, s, conflict, i)
      invariant provenance == EvidenceOf(g)[..i]
    {
      outcomes := outcomes[g[i].evidence := OutcomeOf(id, g, s, conflict, i)];
      provenance := provenance + [g[i].evidence];
      i := i + 1;
    }
    assert provenance == EvidenceOf(g);
    b := a.(outcomes := outcomes);
    if code == "" {
      b := b.(contributions := a.contributions + [Contribution(FactOf(g[s].usage), provenance)]);
    } else if code != "known_duplicate" && code != "stale_snapshot" {
      b := b.(estimates := a.estimates + [Estimate(FactOf(g[s].usage), g[s].evidence, code)]);
    }
  }

  method SettleGroups(start: Account, cs: seq<Candidate>) returns (a: Account)
    ensures a == SettledAll(start, cs, SettlingOrder(cs))
  {
    hide Same, FactIds, Settled;
    var groups, found := GroupAll(cs);
    ghost var order := SettlingOrder(cs);
    var ids := Sorted(found, FactBefore);
    a := start;
    var k := 0;
    while k < |ids|
      invariant 0 <= k <= |ids| && ids == order
      invariant Theorems.Groups(cs, order[..k])
      invariant a == SettledAll(start, cs, order[..k])
    {
      assert order[..k + 1][..k] == order[..k];
      assert ids[k] in order;
      var group := Sorted(groups[ids[k]], Older);
      a := Settle(a, ids[k], group);
      k := k + 1;
    }
    assert order[..k] == order;
  }

  /** Interprets a component's records: parse, resolve ancestry, settle each fact. */
  method Process(stored: seq<Stored>, entries: seq<SessionMeta>) returns (p: Projection)
    ensures p == Interpreted(stored, entries)
  {
    hide CandidatesOf, Parsed, SettledAll, Merged, SessionsIn, Resolve, ResolveAll;
    var candidates, outcomes := ReadAll(stored);
    var metadata := MergeMetadata(entries);
    var keys := ListSessions(candidates);
    var items := new Candidate[|candidates|](i requires 0 <= i < |candidates| => candidates[i]);
    assert items[..] == candidates;
    var resolver := new Resolver(metadata, items);
    resolver.ResolveAllSessions(Sorted(keys, TextLess));
    var resolved := items[..];
    assert resolved == ResolvedCandidates(stored, entries);
    var a := SettleGroups(Account(outcomes, [], []), resolved);
    var reported: seq<(EvidenceId, Outcome)> := [];
    ghost var expected := ProjectionOf(stored, resolved).outcomes;
    var i := 0;
    while i < |stored|
      invariant 0 <= i <= |stored|
      invariant reported == expected[..i]
    {
      var id := stored[i].id;
      reported := reported + [(id, if id in a.outcomes then a.outcomes[id] else Outcome("", "", None))];
      i := i + 1;
    }
    p := Projection(a.contributions, a.estimates, reported);
  }

  // ----- ancestry seen in the projection -----

  lemma {:induction false} SessionsListed(cs: seq<Candidate>)
    ensures forall i :: 0 <= i < |cs| && cs[i].codex.Some? ==> cs[i].usage.id.scope in SessionsIn(cs)
  {
    if cs != [] {
      SessionsListed(cs[..|cs| - 1]);
      assert cs == cs[..|cs| - 1] + [cs[|cs| - 1]];
    }
  }

  lemma ResolutionKeepsRecords(stored: seq<Stored>, entries: seq<SessionMeta>)
    ensures SameRecords(CandidatesOf(stored), ResolvedCandidates(stored, entries))
  {
  }

  /** A contribution that a Codex record speaks for comes from a session whose entire
      parent chain is present, free of conflict and ends in a session that is not a fork. */
  lemma CodexContributionsAreRooted(stored: seq<Stored>, entries: seq<SessionMeta>, c: nat)
    requires Theorems.DistinctIds(stored) && Theorems.OwnCandidates(stored)
    requires c < |Interpreted(stored, entries).contributions|
    ensures exists speaker :: speaker in ResolvedCandidates(stored, entries) && speaker.code == "" &&
              Interpreted(stored, entries).contributions[c].fact == FactOf(speaker.usage) &&
              (speaker.codex.Some? ==> Rooted(Merged(entries), speaker.usage.id.scope))
  {
    ResolutionKeepsRecords(stored, entries);
    var cs := ResolvedCandidates(stored, entries);
    Theorems.ContributionsAreUndisputed(stored, cs, c);
    var speaker :| speaker in cs && speaker.code == "" && Interpreted(stored, entries).contributions[c].fact == FactOf(speaker.usage);
    var i :| 0 <= i < |cs| && cs[i] == speaker;
    hide ProjectionOf, CandidatesOf, Rooted, Resolved, Merged;
    if speaker.codex.Some? {
      ClearIsRooted(stored, entries, i);
    }
  }

  lemma ClearIsRooted(stored: seq<Stored>, entries: seq<SessionMeta>, i: nat)
    requires i < |ResolvedCandidates(stored, entries)| == |CandidatesOf(stored)|
    requires ResolvedCandidates(stored, entries)[i].codex.Some? && ResolvedCandidates(stored, entries)[i].code == ""
    ensures Rooted(Merged(entries), ResolvedCandidates(stored, entries)[i].usage.id.scope)
  {
    ResolutionKeepsRecords(stored, entries);
    var cs := CandidatesOf(stored);
    var env, keys := Env(Merged(entries), cs), SessionOrder(cs);
    SessionsListed(cs);
    SortedMembers(SessionsIn(cs), TextLess);
    hide Resolved, CandidatesOf, Merged, Rooted, SessionsIn, Sorted, Inherited;
    ConfirmedOnlyIfRooted(env, keys, i);
    ReplaysAreSuppressed(env, keys, i);
  }

  // ----- what the store may rely on -----

  /** These are the readings of exactly the work's records, each fact in one of its scopes. */
  predicate Reads(w: Work, stored: seq<Stored>)
  {
    && Theorems.DistinctIds(stored) && Theorems.OwnCandidates(stored)
    && (forall i :: 0 <= i < |stored| ==> stored[i].id in w.records)
    && (forall id :: id in w.records ==> exists i :: 0 <= i < |stored| && stored[i].id == id)
    && (forall i :: 0 <= i < |stored| && stored[i].reading.Usable? ==> stored[i].reading.candidate.usage.id.scope in w.scopes)
  }

  /** Every projection is what Process makes of the work's records. */
  ghost predicate Faithful(interpret: Interpreter)
  {
    forall w :: WholeWork(w) ==> exists stored, entries :: Reads(w, stored) && interpret(w) == Interpreted(stored, entries)
  }

  lemma FactScopes(w: Work, stored: seq<Stored>, entries: seq<SessionMeta>)
    requires Reads(w, stored)
    ensures forall i :: 0 <= i < |ResolvedCandidates(stored, entries)| ==>
              ResolvedCandidates(stored, entries)[i].usage.id.scope in w.scopes
  {
    var cs := CandidatesOf(stored);
    var env := Env(Merged(entries), cs);
    Theorems.CandidatesAreRecords(stored);
    ResolutionKeepsRecords(stored, entries);
    hide CandidatesOf, Merged, Resolved;
    forall i | 0 <= i < |cs|
      ensures cs[i].usage.id.scope in w.scopes
    {
      assert Theorems.ReadFrom(stored, cs[i]);
    }
    forall i | 0 <= i < |cs|
      ensures ResolvedCandidates(stored, entries)[i].usage.id.scope in w.scopes
    {
      FactsComeFromRecords(env, SessionOrder(cs), i);
      var k :| 0 <= k < |cs| && cs[k].usage == ResolvedCandidates(stored, entries)[i].usage;
    }
  }

  lemma ContributedScopes(w: Work, stored: seq<Stored>, entries: seq<SessionMeta>)
    requires Reads(w, stored)
    ensures var p := Interpreted(stored, entries);
            && (forall c :: 0 <= c < |p.contributions| ==> p.contributions[c].fact.valid && p.contributions[c].fact.id.scope in w.scopes)
            && (forall e :: 0 <= e < |p.estimates| ==> p.estimates[e].fact.valid && p.estimates[e].fact.id.scope in w.scopes)
  {
    FactScopes(w, stored, entries);
    ResolutionKeepsRecords(stored, entries);
    var cs, p := ResolvedCandidates(stored, entries), Interpreted(stored, entries);
    Theorems.Accounted(stored, cs);
    var ids := SettlingOrder(cs);
    Theorems.JudgedFacts(cs, ids);
    var js := Theorems.Judgements(cs, ids);
    hide AccountOf, SettlingOrder, Theorems.JudgementOn, Theorems.GroupNoted, Theorems.OthersKept, Group, CandidatesOf,
         ResolvedCandidates;
    forall k | 0 <= k < |ids|
      ensures ids[k].scope in w.scopes
    {
      assert ids[k] in ids;
      IdsHaveGroups(cs, ids[k]);
    }
    forall c | 0 <= c < |p.contributions|
      ensures p.contributions[c].fact.valid && p.contributions[c].fact.id.scope in w.scopes
    {
      assert Theorems.ContributedFrom(p.contributions[c], js);
    }
    forall e | 0 <= e < |p.estimates|
      ensures p.estimates[e].fact.valid && p.estimates[e].fact.id.scope in w.scopes
    {
      assert Theorems.EstimatedFrom(p.estimates[e], js);
    }
  }

  /** What the store asks of its interpreter, Process delivers. */
  lemma ProcessConforms(w: Work, stored: seq<Stored>, entries: seq<SessionMeta>)
    requires Reads(w, stored)
    ensures var p := Interpreted(stored, entries); ValidProjection(p) && Within(w, p) && DistinctFacts(p)
  {
    var cs, p := ResolvedCandidates(stored, entries), Interpreted(stored, entries);
    ResolutionKeepsRecords(stored, entries);
    hide ProjectionOf, CandidatesOf, ResolvedCandidates;
    ContributedScopes(w, stored, entries);
    Theorems.OneVerdictPerFact(stored, cs);
    Theorems.EveryRecordAccounted(stored, cs);
    forall id | id in w.records
      ensures LookupOutcome(p.outcomes, id).Some?
    {
      var i :| 0 <= i < |stored| && stored[i].id == id;
      assert p.outcomes[i].0 == id;
      LookupFinds(p.outcomes, id);
    }
  }

  lemma FaithfulConforms(interpret: Interpreter)
    requires Faithful(interpret)
    ensures Conforms(interpret)
  {
    forall w | WholeWork(w)
      ensures ValidProjection(interpret(w)) && Within(w, interpret(w)) && DistinctFacts(interpret(w))
    {
      var stored, entries :| Reads(w, stored) && interpret(w) == Interpreted(stored, entries);
      ProcessConforms(w, stored, entries);
    }
  }
}
