/** Interpretation is fully accounted: one outcome for each record, one verdict for each
    fact, and exactly one processed record behind each contribution. */
module InterpretationTheorems {
  import opened Basics
  import opened DataModel
  import opened Candidates
  import opened Ancestry
  import opened Interpretation

  predicate DistinctIds(stored: seq<Stored>)
  {
    forall i, k :: 0 <= i < k < |stored| ==> stored[i].id != stored[k].id
  }

  /** A candidate belongs to the record it was read from. */
  predicate OwnCandidates(stored: seq<Stored>)
  {
    forall i :: 0 <= i < |stored| && stored[i].reading.Usable? ==> stored[i].reading.candidate.evidence == stored[i].id
  }

  /** Resolution kept the candidates of these records. */
  predicate WellRead(stored: seq<Stored>, resolved: seq<Candidate>)
  {
    DistinctIds(stored) && OwnCandidates(stored) && SameRecords(CandidatesOf(stored), resolved)
  }

  predicate DistinctEvidence(cs: seq<Candidate>)
  {
    forall i, k :: 0 <= i < k < |cs| ==> cs[i].evidence != cs[k].evidence
  }

  // ----- candidates and records -----

  predicate ReadFrom(stored: seq<Stored>, c: Candidate)
  {
    exists i :: 0 <= i < |stored| && stored[i].reading == Usable(c)
  }

  lemma {:induction false} CandidatesAreRecords(stored: seq<Stored>)
    requires OwnCandidates(stored)
    ensures forall k :: 0 <= k < |CandidatesOf(stored)| ==> ReadFrom(stored, CandidatesOf(stored)[k])
    ensures forall i :: 0 <= i < |stored| && stored[i].reading.Usable? ==> stored[i].reading.candidate in CandidatesOf(stored)
    ensures DistinctIds(stored) ==> DistinctEvidence(CandidatesOf(stored))
  {
    if stored != [] {
      var front, last := stored[..|stored| - 1], stored[|stored| - 1];
      CandidatesAreRecords(front);
      var cs := CandidatesOf(front);
      forall k | 0 <= k < |CandidatesOf(stored)|
        ensures ReadFrom(stored, CandidatesOf(stored)[k])
      {
        if k < |cs| {
          assert ReadFrom(front, cs[k]);
          var i :| 0 <= i < |front| && front[i].reading == Usable(cs[k]);
          assert stored[i] == front[i];
        } else {
          assert stored[|front|].reading == Usable(CandidatesOf(stored)[k]);
        }
      }
      forall i | 0 <= i < |stored| && stored[i].reading.Usable?
        ensures stored[i].reading.candidate in CandidatesOf(stored)
      {
        if i < |front| {
          assert front[i] == stored[i];
        }
      }
      assert forall i :: 0 <= i < |front| ==> front[i] == stored[i];
      if DistinctIds(stored) {
        forall k | 0 <= k < |cs|
          ensures cs[k].evidence != last.id
        {
          assert ReadFrom(front, cs[k]);
          var i :| 0 <= i < |front| && front[i].reading == Usable(cs[k]);
          assert stored[i] == front[i] && stored[|front|] == last;
        }
      }
    }
  }

  /** A record of this id offers no usage. */
  predicate Offered(stored: seq<Stored>, id: EvidenceId)
  {
    exists i :: 0 <= i < |stored| && stored[i].id == id && !stored[i].reading.Usable?
  }

  lemma {:induction false} ParsedOutcomes(stored: seq<Stored>)
    requires DistinctIds(stored)
    ensures forall id :: id in Parsed(stored) ==> Offered(stored, id)
    ensures forall i :: 0 <= i < |stored| ==>
              match stored[i].reading
              case NoUsage => stored[i].id in Parsed(stored) && Parsed(stored)[stored[i].id] == Outcome("context", "", None)
              case Unusable => stored[i].id in Parsed(stored) && Parsed(stored)[stored[i].id] == Outcome("ambiguous", "unusable_usage", None)
              case Usable(_) => stored[i].id !in Parsed(stored)
  {
    if stored != [] {
      var front, last := stored[..|stored| - 1], stored[|stored| - 1];
      ParsedOutcomes(front);
      assert stored == front + [last];
      forall id | id in Parsed(stored)
        ensures Offered(stored, id)
      {
        if id in Parsed(front) {
          assert Offered(front, id);
          var i :| 0 <= i < |front| && front[i].id == id && !front[i].reading.Usable?;
          assert stored[i] == front[i];
        } else {
          assert stored[|front|].id == id;
        }
      }
      forall i | 0 <= i < |front|
        ensures stored[i] == front[i] && front[i].id != last.id
      {
        assert stored[|front|] == last;
      }
    }
  }

  // ----- groups -----

  lemma {:induction false} SameMembers(cs: seq<Candidate>, id: FactId)
    ensures forall c :: c in Same(cs, id) <==> c in cs && c.usage.id == id
    ensures DistinctEvidence(cs) ==> DistinctEvidence(Same(cs, id))
  {
    if cs != [] {
      SameMembers(cs[..|cs| - 1], id);
      assert cs == cs[..|cs| - 1] + [cs[|cs| - 1]];
      var rest := Same(cs[..|cs| - 1], id);
      if DistinctEvidence(cs) {
        forall k | 0 <= k < |rest|
          ensures rest[k].evidence != cs[|cs| - 1].evidence
        {
          assert rest[k] in rest;
          assert rest[k] in cs[..|cs| - 1];
        }
      }
    }
  }

  lemma {:induction false} DistinctCounts(cs: seq<Candidate>, c: Candidate)
    requires DistinctEvidence(cs)
    ensures multiset(cs)[c] <= 1
  {
    if cs != [] {
      var front, last := cs[..|cs| - 1], cs[|cs| - 1];
      DistinctCounts(front, c);
      assert cs == front + [last];
      if c == last {
        assert c !in front;
        assert c !in multiset(front);
      }
    }
  }

  lemma SameElementsDistinct(a: seq<Candidate>, b: seq<Candidate>)
    requires DistinctEvidence(a) && multiset(a) == multiset(b)
    ensures DistinctEvidence(b)
  {
    forall i, k | 0 <= i < k < |b|
      ensures b[i].evidence != b[k].evidence
    {
      assert b[i] in multiset(b) && b[k] in multiset(b);
      assert b[i] in a && b[k] in a;
      DistinctCounts(a, b[k]);
      assert b == b[..k] + b[k..];
      assert multiset(b)[b[k]] == multiset(b[..k])[b[k]] + multiset(b[k..])[b[k]];
      assert b[k] == b[k..][0] && multiset(b[k..])[b[k]] >= 1;
      assert b[k] !in multiset(b[..k]);
      assert b[i] == b[..k][i];
      assert b[i] != b[k];
    }
  }

  lemma GroupMembers(cs: seq<Candidate>, id: FactId)
    ensures forall c :: c in Group(cs, id) <==> c in cs && c.usage.id == id
    ensures DistinctEvidence(cs) ==> DistinctEvidence(Group(cs, id))
  {
    GroupHolds(cs, id);
    SameMembers(cs, id);
    if DistinctEvidence(cs) {
      SameElementsDistinct(Same(cs, id), Group(cs, id));
    }
  }

  predicate NoRepeats(ids: seq<FactId>)
  {
    forall i, k :: 0 <= i < k < |ids| ==> ids[i] != ids[k]
  }

  lemma {:induction false} FactIdsDistinct(cs: seq<Candidate>)
    ensures NoRepeats(FactIds(cs))
  {
    if cs != [] {
      FactIdsDistinct(cs[..|cs| - 1]);
    }
  }

  lemma {:induction false} IdCounts(ids: seq<FactId>, id: FactId)
    requires NoRepeats(ids)
    ensures multiset(ids)[id] <= 1
  {
    if ids != [] {
      var front, last := ids[..|ids| - 1], ids[|ids| - 1];
      IdCounts(front, id);
      assert ids == front + [last];
      if id == last {
        assert id !in front;
        assert id !in multiset(front);
      }
    }
  }

  lemma OrderDistinct(cs: seq<Candidate>)
    ensures NoRepeats(SettlingOrder(cs))
  {
    var ids := SettlingOrder(cs);
    FactIdsDistinct(cs);
    SortedHolds(FactIds(cs), FactBefore);
    forall i, k | 0 <= i < k < |ids|
      ensures ids[i] != ids[k]
    {
      IdCounts(FactIds(cs), ids[k]);
      assert ids == ids[..k] + ids[k..];
      assert multiset(ids)[ids[k]] == multiset(ids[..k])[ids[k]] + multiset(ids[k..])[ids[k]];
      assert ids[k] == ids[k..][0] && multiset(ids[k..])[ids[k]] >= 1;
      assert ids[k] !in multiset(ids[..k]);
      assert ids[i] == ids[..k][i];
    }
  }

  // ----- settling: outcomes -----

  function OutcomeIn(cs: seq<Candidate>, id: FactId, i: nat): Outcome
    requires i < |Group(cs, id)|
  {
    var g := Group(cs, id);
    OutcomeOf(id, g, Selected(g), Conflict(g, Selected(g)), i)
  }

  lemma {:induction false} NotedStep(outcomes: map<EvidenceId, Outcome>, id: FactId, g: seq<Candidate>, s: nat, conflict: bool, n: nat)
    requires s < |g| && n <= |g|
    ensures NotedOutcomes(outcomes, id, g, s, conflict, n) ==
            if n == 0 then outcomes
            else NotedOutcomes(outcomes, id, g, s, conflict, n - 1)[g[n - 1].evidence := OutcomeOf(id, g, s, conflict, n - 1)]
  {
  }

  /** None of the first n members is of this record. */
  predicate Unnoted(g: seq<Candidate>, n: nat, e: EvidenceId)
    requires n <= |g|
  {
    forall i :: 0 <= i < n ==> g[i].evidence != e
  }

  lemma UnnotedStep(g: seq<Candidate>, n: nat)
    requires 0 < n <= |g|
    ensures forall e :: Unnoted(g, n, e) ==> Unnoted(g, n - 1, e) && g[n - 1].evidence != e
  {
  }

  lemma {:induction false} OutcomesNoted(outcomes: map<EvidenceId, Outcome>, id: FactId, g: seq<Candidate>, s: nat, conflict: bool, n: nat)
    requires s < |g| && n <= |g| && DistinctEvidence(g)
    ensures var noted := NotedOutcomes(outcomes, id, g, s, conflict, n);
            && (forall i :: 0 <= i < n ==> g[i].evidence in noted && noted[g[i].evidence] == OutcomeOf(id, g, s, conflict, i))
            && (forall e :: e in outcomes ==> e in noted)
            && (forall e :: e in noted && Unnoted(g, n, e) ==> e in outcomes && noted[e] == outcomes[e])
  {
    NotedStep(outcomes, id, g, s, conflict, n);
    hide OutcomeOf, NotedOutcomes, DistinctEvidence, Unnoted;
    if n > 0 {
      OutcomesNoted(outcomes, id, g, s, conflict, n - 1);
      UnnotedStep(g, n);
      var front, noted := NotedOutcomes(outcomes, id, g, s, conflict, n - 1), NotedOutcomes(outcomes, id, g, s, conflict, n);
      forall i | 0 <= i < n
        ensures g[i].evidence in noted && noted[g[i].evidence] == OutcomeOf(id, g, s, conflict, i)
      {
        if i < n - 1 {
          TwoPlaces(g, i, n - 1);
        }
      }
    }
  }

  lemma TwoPlaces(cs: seq<Candidate>, i: nat, k: nat)
    requires DistinctEvidence(cs) && i < k < |cs|
    ensures cs[i].evidence != cs[k].evidence
  {
  }

  predicate Groups(cs: seq<Candidate>, ids: seq<FactId>)
  {
    forall k :: 0 <= k < |ids| ==> Group(cs, ids[k]) != []
  }

  /** Every member of the fact's group has the outcome of its place in the group. */
  predicate GroupNoted(outcomes: map<EvidenceId, Outcome>, cs: seq<Candidate>, id: FactId)
  {
    forall i :: 0 <= i < |Group(cs, id)| ==>
      Group(cs, id)[i].evidence in outcomes && outcomes[Group(cs, id)[i].evidence] == OutcomeIn(cs, id, i)
  }

  /** Records without a candidate keep what parsing said. */
  predicate OthersKept(before: map<EvidenceId, Outcome>, after: map<EvidenceId, Outcome>, cs: seq<Candidate>)
  {
    forall e :: e in before && (forall c :: c in cs ==> c.evidence != e) ==> e in after && after[e] == before[e]
  }

  lemma SettledNotes(a: Account, cs: seq<Candidate>, id: FactId)
    requires Group(cs, id) != [] && DistinctEvidence(cs)
    ensures var after := Settled(a, id, Group(cs, id)).outcomes;
            && GroupNoted(after, cs, id) && OthersKept(a.outcomes, after, cs)
            && (forall other :: other != id && GroupNoted(a.outcomes, cs, other) ==> GroupNoted(after, cs, other))
  {
    var g := Group(cs, id);
    GroupMembers(cs, id);
    SettledIs(a, id, g);
    OutcomesNoted(a.outcomes, id, g, Selected(g), Conflict(g, Selected(g)), |g|);
    NotesStand(a.outcomes, Settled(a, id, g).outcomes, cs, id);
  }

  lemma NotesStand(before: map<EvidenceId, Outcome>, after: map<EvidenceId, Outcome>, cs: seq<Candidate>, id: FactId)
    requires DistinctEvidence(cs) && forall c :: c in Group(cs, id) ==> c in cs
    requires forall e :: e in before && (forall i :: 0 <= i < |Group(cs, id)| ==> Group(cs, id)[i].evidence != e) ==>
               e in after && after[e] == before[e]
    ensures OthersKept(before, after, cs)
    ensures forall other :: other != id && GroupNoted(before, cs, other) ==> GroupNoted(after, cs, other)
  {
    hide Group, OutcomeIn;
    forall other | other != id && GroupNoted(before, cs, other)
      ensures GroupNoted(after, cs, other)
    {
      forall i | 0 <= i < |Group(cs, other)|
        ensures Group(cs, other)[i].evidence in after && after[Group(cs, other)[i].evidence] == OutcomeIn(cs, other, i)
      {
        OtherGroup(cs, other, i, id);
      }
    }
    forall e | e in before && forall c :: c in cs ==> c.evidence != e
      ensures e in after && after[e] == before[e]
    {
      assert forall i :: 0 <= i < |Group(cs, id)| ==> Group(cs, id)[i] in Group(cs, id);
    }
  }

  lemma SettledIs(a: Account, id: FactId, g: seq<Candidate>)
    requires g != []
    ensures Settled(a, id, g).outcomes == NotedOutcomes(a.outcomes, id, g, Selected(g), Conflict(g, Selected(g)), |g|)
  {
  }

  lemma OtherGroup(cs: seq<Candidate>, a: FactId, i: nat, b: FactId)
    requires DistinctEvidence(cs) && a != b && i < |Group(cs, a)|
    ensures forall k :: 0 <= k < |Group(cs, b)| ==> Group(cs, b)[k].evidence != Group(cs, a)[i].evidence
  {
    GroupMembers(cs, a);
    GroupMembers(cs, b);
    hide Group;
    forall k | 0 <= k < |Group(cs, b)|
      ensures Group(cs, b)[k].evidence != Group(cs, a)[i].evidence
    {
      var x, y := Group(cs, a)[i], Group(cs, b)[k];
      assert x in Group(cs, a) && y in Group(cs, b);
      assert x in cs && y in cs && x.usage.id != y.usage.id;
    }
  }

  lemma {:induction false} SettledOutcomes(a: Account, cs: seq<Candidate>, ids: seq<FactId>)
    requires Groups(cs, ids) && NoRepeats(ids) && DistinctEvidence(cs)
    ensures forall k :: 0 <= k < |ids| ==> GroupNoted(SettledAll(a, cs, ids).outcomes, cs, ids[k])
    ensures OthersKept(a.outcomes, SettledAll(a, cs, ids).outcomes, cs)
  {
    if ids != [] {
      var front, id := ids[..|ids| - 1], ids[|ids| - 1];
      SettledOutcomes(a, cs, front);
      SettledAllUnfolds(a, cs, ids);
      hide *;
      var mid := SettledAll(a, cs, front);
      SettledNotes(mid, cs, id);
      forall k | 0 <= k < |ids|
        ensures GroupNoted(SettledAll(a, cs, ids).outcomes, cs, ids[k])
      {
        assert k < |front| ==> front[k] == ids[k];
      }
      KeptTransitive(a.outcomes, mid.outcomes, SettledAll(a, cs, ids).outcomes, cs);
    }
  }

  lemma SettledAllUnfolds(a: Account, cs: seq<Candidate>, ids: seq<FactId>)
    requires Groups(cs, ids) && NoRepeats(ids) && ids != []
    ensures Groups(cs, ids[..|ids| - 1]) && Group(cs, ids[|ids| - 1]) != []
    ensures SettledAll(a, cs, ids) == Settled(SettledAll(a, cs, ids[..|ids| - 1]), ids[|ids| - 1], Group(cs, ids[|ids| - 1]))
    ensures forall k :: 0 <= k < |ids| - 1 ==> ids[k] != ids[|ids| - 1]
  {
    hide Group, Settled;
  }

  lemma KeptTransitive(a: map<EvidenceId, Outcome>, b: map<EvidenceId, Outcome>, c: map<EvidenceId, Outcome>, cs: seq<Candidate>)
    requires OthersKept(a, b, cs) && OthersKept(b, c, cs)
    ensures OthersKept(a, c, cs)
  {
  }

  // ----- settling: contributions and estimates -----

  /** What is decided about one fact. */
  datatype Judgement = Judgement(fact: Fact, code: string, speaker: EvidenceId, evidence: seq<EvidenceId>)

  function JudgementOn(g: seq<Candidate>): Judgement
    requires g != []
  {
    var s := Selected(g);
    Judgement(FactOf(g[s].usage), SettledCode(g, s), g[s].evidence, EvidenceOf(g))
  }

  function Judgements(cs: seq<Candidate>, ids: seq<FactId>): (js: seq<Judgement>)
    requires Groups(cs, ids)
    ensures |js| == |ids| && forall k :: 0 <= k < |ids| ==> js[k] == JudgementOn(Group(cs, ids[k]))
  {
    seq(|ids|, k requires 0 <= k < |ids| => JudgementOn(Group(cs, ids[k])))
  }

  predicate ContributedFrom(c: Contribution, js: seq<Judgement>)
  {
    exists k :: 0 <= k < |js| && js[k].code == "" && c == Contribution(js[k].fact, js[k].evidence)
  }

  predicate EstimatedFrom(e: Estimate, js: seq<Judgement>)
  {
    exists k :: 0 <= k < |js| && Estimable(js[k].code) && e == Estimate(js[k].fact, js[k].speaker, js[k].code)
  }

  /** Usage that was counted before, or that a later snapshot replaced, is not estimated. */
  predicate Estimable(code: string)
  {
    code != "" && code != "known_duplicate" && code != "stale_snapshot"
  }

  predicate EstimatedIn(es: seq<Estimate>, j: Judgement)
  {
    exists i :: 0 <= i < |es| && es[i] == Estimate(j.fact, j.speaker, j.code)
  }

  predicate Contributed(cs: seq<Contribution>, j: Judgement)
  {
    exists i :: 0 <= i < |cs| && cs[i] == Contribution(j.fact, j.evidence)
  }

  /** Contributions and estimates, at most one of either for each fact. */
  predicate ListsOk(a: Account, js: seq<Judgement>)
  {
    && (forall i :: 0 <= i < |a.contributions| ==> ContributedFrom(a.contributions[i], js))
    && (forall i :: 0 <= i < |a.estimates| ==> EstimatedFrom(a.estimates[i], js))
    && (forall k :: 0 <= k < |js| && js[k].code == "" ==> Contributed(a.contributions, js[k]))
    && (forall k :: 0 <= k < |js| && Estimable(js[k].code) ==> EstimatedIn(a.estimates, js[k]))
    && (forall i, l :: 0 <= i < l < |a.contributions| ==> a.contributions[i].fact.id != a.contributions[l].fact.id)
    && (forall i, l :: 0 <= i < l < |a.estimates| ==> a.estimates[i].fact.id != a.estimates[l].fact.id)
  }

  lemma StillContributed(c: Contribution, js: seq<Judgement>, j: Judgement)
    requires ContributedFrom(c, js)
    ensures ContributedFrom(c, js + [j])
    ensures (forall k :: 0 <= k < |js| ==> js[k].fact.id != j.fact.id) ==> c.fact.id != j.fact.id
  {
    var k :| 0 <= k < |js| && js[k].code == "" && c == Contribution(js[k].fact, js[k].evidence);
    assert (js + [j])[k] == js[k];
  }

  lemma StillEstimated(e: Estimate, js: seq<Judgement>, j: Judgement)
    requires EstimatedFrom(e, js)
    ensures EstimatedFrom(e, js + [j])
    ensures (forall k :: 0 <= k < |js| ==> js[k].fact.id != j.fact.id) ==> e.fact.id != j.fact.id
  {
    var k :| 0 <= k < |js| && Estimable(js[k].code) && e == Estimate(js[k].fact, js[k].speaker, js[k].code);
    assert (js + [j])[k] == js[k];
  }

  lemma NewlyJudged(js: seq<Judgement>, j: Judgement)
    ensures j.code == "" ==> ContributedFrom(Contribution(j.fact, j.evidence), js + [j])
    ensures Estimable(j.code) ==> EstimatedFrom(Estimate(j.fact, j.speaker, j.code), js + [j])
  {
    assert (js + [j])[|js|] == j;
  }

  lemma ContributedLater(cs: seq<Contribution>, more: seq<Contribution>, j: Judgement)
    requires Contributed(cs, j)
    ensures Contributed(cs + more, j)
  {
    var i :| 0 <= i < |cs| && cs[i] == Contribution(j.fact, j.evidence);
    assert (cs + more)[i] == cs[i];
  }

  lemma ContributedNow(cs: seq<Contribution>, j: Judgement)
    ensures Contributed(cs + [Contribution(j.fact, j.evidence)], j)
  {
    assert (cs + [Contribution(j.fact, j.evidence)])[|cs|] == Contribution(j.fact, j.evidence);
  }

  lemma EstimatedLater(es: seq<Estimate>, more: seq<Estimate>, j: Judgement)
    requires EstimatedIn(es, j)
    ensures EstimatedIn(es + more, j)
  {
    var i :| 0 <= i < |es| && es[i] == Estimate(j.fact, j.speaker, j.code);
    assert (es + more)[i] == es[i];
  }

  lemma EstimatedNow(es: seq<Estimate>, j: Judgement)
    ensures EstimatedIn(es + [Estimate(j.fact, j.speaker, j.code)], j)
  {
    assert (es + [Estimate(j.fact, j.speaker, j.code)])[|es|] == Estimate(j.fact, j.speaker, j.code);
  }

  lemma AllEstimated(a: Account, js: seq<Judgement>, j: Judgement, b: Account)
    requires ListsOk(a, js)
    requires b.estimates == a.estimates + if Estimable(j.code) then [Estimate(j.fact, j.speaker, j.code)] else []
    ensures forall k :: 0 <= k < |js + [j]| && Estimable((js + [j])[k].code) ==> EstimatedIn(b.estimates, (js + [j])[k])
  {
    hide ContributedFrom, EstimatedFrom, Contributed, EstimatedIn, Estimable;
    forall k | 0 <= k < |js + [j]| && Estimable((js + [j])[k].code)
      ensures EstimatedIn(b.estimates, (js + [j])[k])
    {
      if k < |js| {
        EstimatedLater(a.estimates, if Estimable(j.code) then [Estimate(j.fact, j.speaker, j.code)] else [], js[k]);
      } else {
        EstimatedNow(a.estimates, j);
      }
    }
  }

  lemma ContributedMore(a: Account, js: seq<Judgement>, j: Judgement, b: Account)
    requires ListsOk(a, js) && forall k :: 0 <= k < |js| ==> js[k].fact.id != j.fact.id
    requires b.contributions == if j.code == "" then a.contributions + [Contribution(j.fact, j.evidence)] else a.contributions
    requires b.estimates == a.estimates + if Estimable(j.code) then [Estimate(j.fact, j.speaker, j.code)] else []
    ensures ListsOk(b, js + [j])
  {
    AllEstimated(a, js, j, b);
    hide ContributedFrom, EstimatedFrom, Contributed, EstimatedIn, Estimable;
    NewlyJudged(js, j);
    forall i | 0 <= i < |a.contributions|
      ensures ContributedFrom(a.contributions[i], js + [j]) && a.contributions[i].fact.id != j.fact.id
    {
      StillContributed(a.contributions[i], js, j);
    }
    forall i | 0 <= i < |a.estimates|
      ensures EstimatedFrom(a.estimates[i], js + [j]) && a.estimates[i].fact.id != j.fact.id
    {
      StillEstimated(a.estimates[i], js, j);
    }
    forall k | 0 <= k < |js + [j]| && (js + [j])[k].code == ""
      ensures Contributed(b.contributions, (js + [j])[k])
    {
      if k < |js| {
        ContributedLater(a.contributions, if j.code == "" then [Contribution(j.fact, j.evidence)] else [], js[k]);
        assert a.contributions + [] == a.contributions;
      } else {
        ContributedNow(a.contributions, j);
      }
    }
  }

  lemma SettledLists(a: Account, id: FactId, g: seq<Candidate>)
    requires g != []
    ensures var b, j := Settled(a, id, g), JudgementOn(g);
            && b.contributions == (if j.code == "" then a.contributions + [Contribution(j.fact, j.evidence)] else a.contributions)
            && b.estimates == a.estimates + if Estimable(j.code) then [Estimate(j.fact, j.speaker, j.code)] else []
  {
    hide Selected, Conflict, NotedOutcomes;
  }

  lemma JudgedFact(cs: seq<Candidate>, id: FactId)
    requires Group(cs, id) != []
    ensures JudgementOn(Group(cs, id)).fact.id == id && JudgementOn(Group(cs, id)).fact.valid
  {
    GroupMembers(cs, id);
    var g := Group(cs, id);
    hide Group, Selected, Conflict;
    assert g[Selected(g)] in g;
  }

  lemma {:induction false} SettledAllLists(a: Account, cs: seq<Candidate>, ids: seq<FactId>)
    requires Groups(cs, ids) && NoRepeats(ids) && a.contributions == [] && a.estimates == []
    ensures ListsOk(SettledAll(a, cs, ids), Judgements(cs, ids))
  {
    hide Settled, Group, JudgementOn, ListsOk;
    if ids == [] {
      NothingListed(a);
    } else {
      var front, id := ids[..|ids| - 1], ids[|ids| - 1];
      SettledAllLists(a, cs, front);
      var mid := SettledAll(a, cs, front);
      JudgedDistinct(cs, ids);
      SettledLists(mid, id, Group(cs, id));
      assert Judgements(cs, ids) == Judgements(cs, front) + [JudgementOn(Group(cs, id))];
      ContributedMore(mid, Judgements(cs, front), JudgementOn(Group(cs, id)), SettledAll(a, cs, ids));
    }
  }

  lemma NothingListed(a: Account)
    requires a.contributions == [] && a.estimates == []
    ensures ListsOk(a, [])
  {
  }

  lemma JudgedDistinct(cs: seq<Candidate>, ids: seq<FactId>)
    requires Groups(cs, ids) && NoRepeats(ids) && ids != []
    ensures var js := Judgements(cs, ids[..|ids| - 1]);
            forall k :: 0 <= k < |js| ==> js[k].fact.id != JudgementOn(Group(cs, ids[|ids| - 1])).fact.id
  {
    hide Group, JudgementOn;
    forall k | 0 <= k < |ids|
      ensures JudgementOn(Group(cs, ids[k])).fact.id == ids[k]
    {
      JudgedFact(cs, ids[k]);
    }
  }

  // ----- theorems -----

  ghost predicate AccountOk(stored: seq<Stored>, cs: seq<Candidate>, ids: seq<FactId>, a: Account)
  {
    && DistinctEvidence(cs) && Groups(cs, ids) && NoRepeats(ids) && (forall id :: id in ids <==> id in FactIds(cs))
    && (forall k :: 0 <= k < |ids| ==> GroupNoted(a.outcomes, cs, ids[k]))
    && OthersKept(Parsed(stored), a.outcomes, cs)
    && ListsOk(a, Judgements(cs, ids))
  }

  lemma {:induction false} ResolvedDistinct(stored: seq<Stored>, cs: seq<Candidate>)
    requires WellRead(stored, cs)
    ensures DistinctEvidence(cs)
  {
    CandidatesAreRecords(stored);
    hide CandidatesOf;
  }

  lemma Accounted(stored: seq<Stored>, cs: seq<Candidate>)
    requires WellRead(stored, cs)
    ensures AccountOk(stored, cs, SettlingOrder(cs), AccountOf(stored, cs))
  {
    ResolvedDistinct(stored, cs);
    OrderDistinct(cs);
    hide Group, Parsed, SettledAll, GroupNoted, OthersKept, ListsOk, SettlingOrder;
    var start := Account(Parsed(stored), [], []);
    SettledOutcomes(start, cs, SettlingOrder(cs));
    SettledAllLists(start, cs, SettlingOrder(cs));
  }

  /** The candidate of record i stands at place k of its fact's group. */
  lemma RecordsPlace(stored: seq<Stored>, cs: seq<Candidate>, i: nat) returns (id: FactId, k: nat)
    requires WellRead(stored, cs) && i < |stored| && stored[i].reading.Usable?
    ensures id in FactIds(cs) && k < |Group(cs, id)| && Group(cs, id)[k].evidence == stored[i].id
  {
    CandidatesAreRecords(stored);
    var c := stored[i].reading.candidate;
    var initial := CandidatesOf(stored);
    var j :| 0 <= j < |initial| && initial[j] == c;
    id := cs[j].usage.id;
    IdsHaveGroups(cs, id);
    GroupMembers(cs, id);
    hide Group, CandidatesOf;
    assert cs[j] in Group(cs, id);
    k :| 0 <= k < |Group(cs, id)| && Group(cs, id)[k] == cs[j];
  }

  /** Conversely each member of a group is the candidate of exactly one record. */
  lemma PlacesRecord(stored: seq<Stored>, cs: seq<Candidate>, id: FactId, k: nat) returns (i: nat)
    requires WellRead(stored, cs) && k < |Group(cs, id)|
    ensures i < |stored| && stored[i].reading.Usable? && stored[i].id == Group(cs, id)[k].evidence
  {
    CandidatesAreRecords(stored);
    GroupMembers(cs, id);
    var c := Group(cs, id)[k];
    hide Group, CandidatesOf;
    assert c in Group(cs, id);
    var j :| 0 <= j < |cs| && cs[j] == c;
    assert ReadFrom(stored, CandidatesOf(stored)[j]);
    i :| 0 <= i < |stored| && stored[i].reading == Usable(CandidatesOf(stored)[j]);
  }

  predicate AtPlace(stored: seq<Stored>, cs: seq<Candidate>, i: nat, outcome: Outcome, id: FactId, k: nat)
    requires i < |stored|
  {
    k < |Group(cs, id)| && Group(cs, id)[k].evidence == stored[i].id && outcome == OutcomeIn(cs, id, k)
  }

  lemma AccountNotes(stored: seq<Stored>, cs: seq<Candidate>, id: FactId)
    requires WellRead(stored, cs) && id in FactIds(cs)
    ensures GroupNoted(AccountOf(stored, cs).outcomes, cs, id)
  {
    Accounted(stored, cs);
    var ids := SettlingOrder(cs);
    hide Group, AccountOf, SettlingOrder, ListsOk, OthersKept, GroupNoted, WellRead, DistinctEvidence, FactIds, Judgements;
    var n :| 0 <= n < |ids| && ids[n] == id;
  }

  lemma ProjectedOutcome(stored: seq<Stored>, cs: seq<Candidate>, i: nat)
    requires i < |stored|
    ensures |ProjectionOf(stored, cs).outcomes| == |stored|
    ensures stored[i].id in AccountOf(stored, cs).outcomes ==>
              ProjectionOf(stored, cs).outcomes[i] == (stored[i].id, AccountOf(stored, cs).outcomes[stored[i].id])
  {
    hide AccountOf;
  }

  lemma PlaceDecides(stored: seq<Stored>, cs: seq<Candidate>, i: nat, id: FactId, k: nat)
    requires WellRead(stored, cs) && i < |stored| && id in FactIds(cs)
    requires k < |Group(cs, id)| && Group(cs, id)[k].evidence == stored[i].id
    ensures |ProjectionOf(stored, cs).outcomes| == |stored|
    ensures AtPlace(stored, cs, i, ProjectionOf(stored, cs).outcomes[i].1, id, k)
  {
    hide Group, AccountOf, OutcomeIn, ProjectionOf, WellRead, FactIds;
    AccountNotes(stored, cs, id);
    ProjectedOutcome(stored, cs, i);
  }

  /** Every record gets exactly one outcome, in the records' order: what parsing said if
      it offers no usage, otherwise what its place among the observations of its fact
      decides. */
  lemma EveryRecordAccounted(stored: seq<Stored>, cs: seq<Candidate>)
    requires WellRead(stored, cs)
    ensures var p := ProjectionOf(stored, cs);
            && |p.outcomes| == |stored|
            && (forall i :: 0 <= i < |stored| ==> p.outcomes[i].0 == stored[i].id)
            && (forall i :: 0 <= i < |stored| ==>
                  match stored[i].reading
                  case NoUsage => p.outcomes[i].1 == Outcome("context", "", None)
                  case Unusable => p.outcomes[i].1 == Outcome("ambiguous", "unusable_usage", None)
                  case Usable(_) => exists id, k :: AtPlace(stored, cs, i, p.outcomes[i].1, id, k))
  {
    var p := ProjectionOf(stored, cs);
    Accounted(stored, cs);
    ParsedOutcomes(stored);
    hide Group, AccountOf, SettlingOrder, ListsOk, AtPlace, Parsed, GroupNoted;
    forall i | 0 <= i < |stored|
      ensures match stored[i].reading
              case NoUsage => p.outcomes[i].1 == Outcome("context", "", None)
              case Unusable => p.outcomes[i].1 == Outcome("ambiguous", "unusable_usage", None)
              case Usable(_) => exists id, k :: AtPlace(stored, cs, i, p.outcomes[i].1, id, k)
    {
      if stored[i].reading.Usable? {
        var id, k := RecordsPlace(stored, cs, i);
        PlaceDecides(stored, cs, i, id, k);
      } else {
        NotACandidate(stored, cs, i);
      }
    }
  }

  lemma NotACandidate(stored: seq<Stored>, cs: seq<Candidate>, i: nat)
    requires WellRead(stored, cs) && i < |stored| && !stored[i].reading.Usable?
    ensures forall c :: c in cs ==> c.evidence != stored[i].id
  {
    CandidatesAreRecords(stored);
    hide CandidatesOf;
    forall j | 0 <= j < |cs|
      ensures cs[j].evidence != stored[i].id
    {
      assert ReadFrom(stored, CandidatesOf(stored)[j]);
      var l :| 0 <= l < |stored| && stored[l].reading == Usable(CandidatesOf(stored)[j]);
    }
  }

  /** A fact is contributed, or estimated, or neither, but never twice in any way. */
  lemma OneVerdictPerFact(stored: seq<Stored>, cs: seq<Candidate>)
    requires WellRead(stored, cs)
    ensures var p := ProjectionOf(stored, cs);
            && (forall i, l :: 0 <= i < l < |p.contributions| ==> p.contributions[i].fact.id != p.contributions[l].fact.id)
            && (forall i, l :: 0 <= i < l < |p.estimates| ==> p.estimates[i].fact.id != p.estimates[l].fact.id)
            && (forall i, l :: 0 <= i < |p.contributions| && 0 <= l < |p.estimates| ==>
                  p.contributions[i].fact.id != p.estimates[l].fact.id)
  {
    Accounted(stored, cs);
    var ids, p := SettlingOrder(cs), ProjectionOf(stored, cs);
    JudgedFacts(cs, ids);
    var js := Judgements(cs, ids);
    hide Group, AccountOf, SettlingOrder, JudgementOn, GroupNoted, OthersKept;
    forall i, l | 0 <= i < |p.contributions| && 0 <= l < |p.estimates|
      ensures p.contributions[i].fact.id != p.estimates[l].fact.id
    {
      assert ContributedFrom(p.contributions[i], js) && EstimatedFrom(p.estimates[l], js);
    }
  }

  lemma JudgedFacts(cs: seq<Candidate>, ids: seq<FactId>)
    requires Groups(cs, ids)
    ensures forall k :: 0 <= k < |ids| ==> Judgements(cs, ids)[k].fact.id == ids[k] && Judgements(cs, ids)[k].fact.valid
  {
    hide Group, JudgementOn;
    forall k | 0 <= k < |ids|
      ensures Judgements(cs, ids)[k].fact.id == ids[k] && Judgements(cs, ids)[k].fact.valid
    {
      JudgedFact(cs, ids[k]);
    }
  }

  /** The group's selected member is processed exactly when the fact is contributed, and
      no other member ever is. */
  lemma ProcessedIsSelected(g: seq<Candidate>, id: FactId, k: nat)
    requires k < |g|
    ensures var s := Selected(g);
            OutcomeOf(id, g, s, Conflict(g, s), k).disposition == "processed" <==> k == s && JudgementOn(g).code == ""
    ensures OutcomeOf(id, g, Selected(g), Conflict(g, Selected(g)), k).fact == Some(id)
  {
    hide Selected, Conflict, Tolerated;
  }

  /** The one contribution behind a processed record. */
  predicate Supports(stored: seq<Stored>, p: Projection, i: nat, c: nat)
    requires i < |stored| == |p.outcomes|
  {
    c < |p.contributions| && stored[i].id in p.contributions[c].evidence && p.outcomes[i].1.fact == Some(p.contributions[c].fact.id)
  }

  predicate Processed(p: Projection, i: nat)
    requires i < |p.outcomes|
  {
    p.outcomes[i].1.disposition == "processed"
  }

  lemma FindContribution(stored: seq<Stored>, cs: seq<Candidate>, id: FactId) returns (c: nat)
    requires WellRead(stored, cs) && id in FactIds(cs) && Group(cs, id) != [] && JudgementOn(Group(cs, id)).code == ""
    ensures var p := ProjectionOf(stored, cs);
            c < |p.contributions| && p.contributions[c].fact.id == id && p.contributions[c].evidence == EvidenceOf(Group(cs, id))
  {
    Accounted(stored, cs);
    var ids, p := SettlingOrder(cs), ProjectionOf(stored, cs);
    JudgedFacts(cs, ids);
    var js := Judgements(cs, ids);
    JudgedEvidence(Group(cs, id));
    hide Group, AccountOf, SettlingOrder, JudgementOn, GroupNoted, OthersKept, EvidenceOf;
    var n :| 0 <= n < |ids| && ids[n] == id;
    assert Contributed(p.contributions, js[n]);
    c :| 0 <= c < |p.contributions| && p.contributions[c] == Contribution(js[n].fact, js[n].evidence);
  }

  lemma JudgedEvidence(g: seq<Candidate>)
    requires g != []
    ensures JudgementOn(g).evidence == EvidenceOf(g)
  {
  }

  /** Each processed record supports a contribution of its fact. */
  lemma ProcessedContributes(stored: seq<Stored>, cs: seq<Candidate>, i: nat) returns (c: nat)
    requires WellRead(stored, cs) && i < |stored| && Processed(ProjectionOf(stored, cs), i)
    ensures Supports(stored, ProjectionOf(stored, cs), i, c)
  {
    EveryRecordAccounted(stored, cs);
    hide Group, AccountOf, OutcomeOf, JudgementOn;
    var id, k := RecordsPlace(stored, cs, i);
    PlaceDecides(stored, cs, i, id, k);
    ProcessedIsSelected(Group(cs, id), id, k);
    c := FindContribution(stored, cs, id);
    assert ProjectionOf(stored, cs).contributions[c].evidence[k] == stored[i].id;
  }

  lemma ContributionsGroup(stored: seq<Stored>, cs: seq<Candidate>, c: nat) returns (id: FactId)
    requires WellRead(stored, cs) && c < |ProjectionOf(stored, cs).contributions|
    ensures id in FactIds(cs) && Group(cs, id) != [] && JudgementOn(Group(cs, id)).code == ""
    ensures var contribution := ProjectionOf(stored, cs).contributions[c];
            contribution.fact.id == id && contribution.evidence == EvidenceOf(Group(cs, id)) &&
            contribution.fact == JudgementOn(Group(cs, id)).fact
  {
    Accounted(stored, cs);
    var ids, p := SettlingOrder(cs), ProjectionOf(stored, cs);
    JudgedFacts(cs, ids);
    var js := Judgements(cs, ids);
    hide Group, AccountOf, SettlingOrder, JudgementOn, GroupNoted, OthersKept, EvidenceOf;
    assert ContributedFrom(p.contributions[c], js);
    var n :| 0 <= n < |js| && js[n].code == "" && p.contributions[c] == Contribution(js[n].fact, js[n].evidence);
    id := ids[n];
    JudgedEvidence(Group(cs, id));
  }

  /** Each contribution has one processed record of its fact, and only one. */
  lemma ContributionHasOneProcessed(stored: seq<Stored>, cs: seq<Candidate>, c: nat) returns (i: nat)
    requires WellRead(stored, cs) && c < |ProjectionOf(stored, cs).contributions|
    ensures var p := ProjectionOf(stored, cs);
            && |p.outcomes| == |stored| && i < |stored| && Processed(p, i) && Supports(stored, p, i, c)
            && forall l :: 0 <= l < |stored| && Processed(p, l) && p.outcomes[l].1.fact == Some(p.contributions[c].fact.id) ==> l == i
  {
    EveryRecordAccounted(stored, cs);
    var p := ProjectionOf(stored, cs);
    hide Group, AccountOf, OutcomeOf, JudgementOn, ProjectionOf, Selected;
    var id := ContributionsGroup(stored, cs, c);
    var g := Group(cs, id);
    i := PlacesRecord(stored, cs, id, Selected(g));
    PlaceDecides(stored, cs, i, id, Selected(g));
    ProcessedIsSelected(g, id, Selected(g));
    assert p.contributions[c].evidence[Selected(g)] == stored[i].id;
    forall l | 0 <= l < |stored| && Processed(p, l) && p.outcomes[l].1.fact == Some(id)
      ensures l == i
    {
      assert stored[l].reading.Usable?;
      var other, k := RecordsPlace(stored, cs, l);
      PlaceDecides(stored, cs, l, other, k);
      ProcessedIsSelected(Group(cs, other), other, k);
    }
  }

  /** No record supports two contributions, nor one contribution twice. */
  lemma EvidenceSupportsOnce(stored: seq<Stored>, cs: seq<Candidate>, c: nat, d: nat, m: nat, n: nat)
    requires WellRead(stored, cs) && c < |ProjectionOf(stored, cs).contributions| && d < |ProjectionOf(stored, cs).contributions|
    requires m < |ProjectionOf(stored, cs).contributions[c].evidence| && n < |ProjectionOf(stored, cs).contributions[d].evidence|
    requires ProjectionOf(stored, cs).contributions[c].evidence[m] == ProjectionOf(stored, cs).contributions[d].evidence[n]
    ensures c == d && m == n
  {
    OneVerdictPerFact(stored, cs);
    ResolvedDistinct(stored, cs);
    hide Group, JudgementOn, ProjectionOf;
    var a := ContributionsGroup(stored, cs, c);
    var b := ContributionsGroup(stored, cs, d);
    GroupMembers(cs, a);
    if a != b {
      OtherGroup(cs, a, m, b);
    }
  }

  /** A contribution reports the fact of a clear observation, and no other clear
      observation of that fact disagrees with it. */
  lemma ContributionsAreUndisputed(stored: seq<Stored>, cs: seq<Candidate>, c: nat)
    requires WellRead(stored, cs) && c < |ProjectionOf(stored, cs).contributions|
    ensures var contribution := ProjectionOf(stored, cs).contributions[c];
            exists speaker :: speaker in cs && speaker.code == "" && contribution.fact == FactOf(speaker.usage) &&
              forall other :: other in cs && other.code == "" && other.usage.id == speaker.usage.id ==> Tolerated(other, speaker)
  {
    var id := ContributionsGroup(stored, cs, c);
    var g := Group(cs, id);
    GroupMembers(cs, id);
    hide Group, ProjectionOf, Selected, Tolerated;
    var speaker := g[Selected(g)];
    assert speaker in g;
    assert !Conflict(g, Selected(g)) && speaker.code == "";
    forall other | other in cs && other.code == "" && other.usage.id == speaker.usage.id
      ensures Tolerated(other, speaker)
    {
      assert other in g;
    }
  }
}
