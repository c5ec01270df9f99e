/** Which observation speaks for a fact, and what becomes of each observation, said of the
    resolved candidates themselves: latest first, clear before unclear, and OpenCode's
    second format before its first. */
module Verdicts {
  import opened Basics
  import opened DataModel
  import opened Candidates
  import opened Ancestry
  import opened Interpretation
  import opened InterpretationTheorems

  // ----- the latest of some observations -----

  /** a occurred after b, or together with it under a greater evidence id. */
  predicate Later(a: Candidate, b: Candidate)
  {
    a.usage.occurredAt > b.usage.occurredAt ||
    (a.usage.occurredAt == b.usage.occurredAt && TextLess(b.evidence, a.evidence))
  }

  predicate Observes(cs: seq<Candidate>, id: FactId, c: Candidate)
  {
    c in cs && c.usage.id == id
  }

  /** c is clear and no later clear observation of the fact exists. */
  predicate LatestClear(cs: seq<Candidate>, id: FactId, c: Candidate)
  {
    && Observes(cs, id, c) && c.code == ""
    && forall o :: o in cs && o.usage.id == id && o.code == "" && o != c ==> Later(c, o)
  }

  predicate Latest(cs: seq<Candidate>, id: FactId, c: Candidate)
  {
    && Observes(cs, id, c)
    && forall o :: o in cs && o.usage.id == id && o != c ==> Later(c, o)
  }

  predicate LatestOfVersion2(cs: seq<Candidate>, id: FactId, c: Candidate)
  {
    && Observes(cs, id, c) && c.format == "opencode-v2"
    && forall o :: o in cs && o.usage.id == id && o.format == "opencode-v2" && o != c ==> Later(c, o)
  }

  /** The latest clear observation, or the latest of all when none is clear. */
  predicate Leads(cs: seq<Candidate>, id: FactId, c: Candidate)
  {
    if exists o :: o in cs && o.usage.id == id && o.code == "" then LatestClear(cs, id, c) else Latest(cs, id, c)
  }

  /** The leading observation speaks for the fact, unless it is OpenCode's and the fact
      was also observed in the second format. */
  predicate Speaks(cs: seq<Candidate>, id: FactId, c: Candidate)
  {
    exists lead :: lead in cs && Leads(cs, id, lead) &&
      if lead.usage.harness == OpenCode && exists o :: o in cs && o.usage.id == id && o.format == "opencode-v2"
      then LatestOfVersion2(cs, id, c) else c == lead
  }

  // ----- agreement -----

  /** A clear observation that contradicts the speaker: other counters or another time,
      except that OpenCode's first format may differ from its second, and that Claude
      Code may revise a request's counters at another time. */
  predicate Contradicts(o: Candidate, speaker: Candidate)
  {
    && o.code == ""
    && (o.usage.harness != speaker.usage.harness || o.usage.counters != speaker.usage.counters ||
        (o.usage.harness != ClaudeCode && o.usage.occurredAt != speaker.usage.occurredAt))
    && !(speaker.usage.harness == OpenCode && speaker.format == "opencode-v2" && o.format == "opencode-v1")
    && !(speaker.usage.harness == ClaudeCode && speaker.usage.request != "" && o.usage.occurredAt != speaker.usage.occurredAt)
  }

  predicate Disputed(cs: seq<Candidate>, id: FactId, speaker: Candidate)
  {
    exists o :: o in cs && o.usage.id == id && Contradicts(o, speaker)
  }

  /** What becomes of observation c of a fact that speaker speaks for. */
  function Fate(c: Candidate, speaker: Candidate, disputed: bool): Outcome
  {
    var id := Some(c.usage.id);
    if disputed then Outcome("ambiguous", "conflicting_native_identity", id)
    else if c.code == "known_duplicate" then Outcome("duplicate", "", id)
    else if c.code == "stale_snapshot" then Outcome("superseded", "", id)
    else if c.code != "" then Outcome("ambiguous", c.code, id)
    else if c == speaker then Outcome("processed", "", id)
    else if c.usage.occurredAt < speaker.usage.occurredAt || c.format != speaker.format then Outcome("superseded", "", id)
    else Outcome("duplicate", "", id)
  }

  // ----- the order of a group -----

  lemma LaterIsStrict(a: Candidate, b: Candidate, c: Candidate)
    ensures Later(a, b) ==> !Later(b, a)
    ensures Later(a, b) && Later(b, c) ==> Later(a, c)
    ensures Later(a, c) ==> Later(a, b) || Later(b, c)
    ensures !Later(a, b) && !Later(b, a) ==> a.evidence == b.evidence
  {
    TextLessIrreflexive(a.evidence);
    TextLessTotal(a.evidence, b.evidence);
    TextLessTotal(b.evidence, c.evidence);
    if TextLess(a.evidence, b.evidence) && TextLess(b.evidence, a.evidence) {
      TextLessTransitive(a.evidence, b.evidence, a.evidence);
    }
    if TextLess(c.evidence, b.evidence) && TextLess(b.evidence, a.evidence) {
      TextLessTransitive(c.evidence, b.evidence, a.evidence);
    }
    if TextLess(c.evidence, a.evidence) && TextLess(b.evidence, c.evidence) {
      TextLessTransitive(b.evidence, c.evidence, a.evidence);
    }
    hide TextLess;
  }

  lemma OlderIsStrict()
    ensures StrictOrder(Older)
  {
    hide TextLess;
    forall a, b
      ensures Older(a, b) <==> Later(b, a)
    {
    }
    forall a, b, c
      ensures Older(a, b) ==> !Older(b, a)
      ensures Older(a, b) && Older(b, c) ==> Older(a, c)
      ensures Older(a, c) ==> Older(a, b) || Older(b, c)
    {
      LaterIsStrict(b, a, a);
      LaterIsStrict(c, b, a);
    }
  }

  predicate OldestFirst(g: seq<Candidate>)
  {
    forall i, k :: 0 <= i < k < |g| ==> g[i] != g[k] && Later(g[k], g[i])
  }

  /** A group is its fact's observations, oldest first. */
  lemma GroupIsOldestFirst(cs: seq<Candidate>, id: FactId)
    requires DistinctEvidence(cs)
    ensures OldestFirst(Group(cs, id))
    ensures forall c :: c in Group(cs, id) <==> Observes(cs, id, c)
  {
    GroupMembers(cs, id);
    OlderIsStrict();
    SortedIsOrdered(Same(cs, id), Older);
    var g := Group(cs, id);
    assert Ordered(g, Older);
    hide Group, Same, TextLess;
    forall i, k | 0 <= i < k < |g|
      ensures g[i] != g[k] && Later(g[k], g[i])
    {
      LaterIsStrict(g[k], g[i], g[i]);
      assert !Older(g[k], g[i]);
    }
  }

  /** The member at the last place with a property is the latest with it. */
  lemma LastIsLatest(g: seq<Candidate>, s: nat, o: Candidate)
    requires OldestFirst(g) && s < |g| && o in g && o != g[s]
    requires forall i :: s < i < |g| ==> g[i] != o
    ensures Later(g[s], o)
  {
    var i :| 0 <= i < |g| && g[i] == o;
    assert i < s;
  }

  lemma SelectedLeads(cs: seq<Candidate>, id: FactId)
    requires DistinctEvidence(cs) && Group(cs, id) != []
    ensures var g := Group(cs, id);
            var clear := LastClear(g, |g|);
            Leads(cs, id, g[if clear.Some? then clear.value else |g| - 1])
  {
    GroupIsOldestFirst(cs, id);
    var g := Group(cs, id);
    hide Group, Later;
    var clear := LastClear(g, |g|);
    var s := if clear.Some? then clear.value else |g| - 1;
    assert g[s] in g;
    forall o | o in cs && o.usage.id == id && o != g[s] && (clear.Some? ==> o.code == "")
      ensures Later(g[s], o)
    {
      assert o in g;
      LastIsLatest(g, s, o);
    }
    if o :| o in cs && o.usage.id == id && o.code == "" {
      assert o in g;
    }
  }

  lemma SelectedOfVersion2(cs: seq<Candidate>, id: FactId)
    requires DistinctEvidence(cs) && Group(cs, id) != []
    ensures var g := Group(cs, id);
            var second := LastVersion2(g, |g|);
            && (second.Some? <==> exists o :: o in cs && o.usage.id == id && o.format == "opencode-v2")
            && (second.Some? ==> LatestOfVersion2(cs, id, g[second.value]))
  {
    GroupIsOldestFirst(cs, id);
    var g := Group(cs, id);
    hide Group, Later;
    var second := LastVersion2(g, |g|);
    if o :| o in cs && o.usage.id == id && o.format == "opencode-v2" {
      assert o in g;
    }
    if second.Some? {
      assert g[second.value] in g;
      forall o | o in cs && o.usage.id == id && o.format == "opencode-v2" && o != g[second.value]
        ensures Later(g[second.value], o)
      {
        assert o in g;
        LastIsLatest(g, second.value, o);
      }
    }
  }

  lemma SelectedSpeaks(cs: seq<Candidate>, id: FactId)
    requires DistinctEvidence(cs) && Group(cs, id) != []
    ensures Observes(cs, id, Group(cs, id)[Selected(Group(cs, id))])
    ensures Speaks(cs, id, Group(cs, id)[Selected(Group(cs, id))])
  {
    GroupIsOldestFirst(cs, id);
    SelectedLeads(cs, id);
    SelectedOfVersion2(cs, id);
    var g := Group(cs, id);
    var clear := LastClear(g, |g|);
    var lead := g[if clear.Some? then clear.value else |g| - 1];
    hide Group, LastClear, LastVersion2, Leads, LatestOfVersion2, OldestFirst;
    assert lead in g && g[Selected(g)] in g;
    assert lead in cs;
  }

  lemma ConflictIsDispute(cs: seq<Candidate>, id: FactId)
    requires Group(cs, id) != []
    ensures var g := Group(cs, id); Conflict(g, Selected(g)) <==> Disputed(cs, id, g[Selected(g)])
  {
    GroupMembers(cs, id);
    var g := Group(cs, id);
    var s := Selected(g);
    hide Group, Selected;
    if i :| 0 <= i < |g| && g[i].code == "" && !Tolerated(g[i], g[s]) {
      assert g[i] in g;
      assert Contradicts(g[i], g[s]);
    }
    if o :| o in cs && o.usage.id == id && Contradicts(o, g[s]) {
      assert o in g;
    }
  }

  /** There is never more than one speaker. */
  lemma OneSpeaker(cs: seq<Candidate>, id: FactId, a: Candidate, b: Candidate)
    requires Speaks(cs, id, a) && Speaks(cs, id, b)
    ensures a == b
  {
    hide TextLess;
    var x :| x in cs && Leads(cs, id, x) &&
      if x.usage.harness == OpenCode && exists o :: o in cs && o.usage.id == id && o.format == "opencode-v2"
      then LatestOfVersion2(cs, id, a) else a == x;
    var y :| y in cs && Leads(cs, id, y) &&
      if y.usage.harness == OpenCode && exists o :: o in cs && o.usage.id == id && o.format == "opencode-v2"
      then LatestOfVersion2(cs, id, b) else b == y;
    LaterIsStrict(x, y, x);
    LaterIsStrict(a, b, a);
  }

  // ----- the projection -----

  /** The observations named, oldest first, each once. */
  ghost predicate AllObservations(cs: seq<Candidate>, id: FactId, evidence: seq<EvidenceId>)
  {
    exists g: seq<Candidate> ::
      && |g| == |evidence| && (forall i :: 0 <= i < |g| ==> g[i].evidence == evidence[i])
      && (forall c :: c in g <==> Observes(cs, id, c)) && OldestFirst(g)
  }

  /** The speaker's code, or that the fact is disputed. */
  function VerdictOn(cs: seq<Candidate>, id: FactId, speaker: Candidate): string
  {
    if Disputed(cs, id, speaker) then "conflicting_native_identity" else speaker.code
  }

  function StatedFact(u: Usage): Fact
  {
    Fact(u.id, true, u.counters + u.location)
  }

  lemma JudgedBySpeaker(cs: seq<Candidate>, id: FactId)
    requires DistinctEvidence(cs) && Group(cs, id) != []
    ensures var g := Group(cs, id);
            var speaker, j := g[Selected(g)], JudgementOn(g);
            && Observes(cs, id, speaker) && Speaks(cs, id, speaker)
            && j.fact == StatedFact(speaker.usage) && j.speaker == speaker.evidence
            && j.code == VerdictOn(cs, id, speaker) && AllObservations(cs, id, j.evidence)
  {
    SelectedSpeaks(cs, id);
    ConflictIsDispute(cs, id);
    GroupIsOldestFirst(cs, id);
    hide Group, Selected, Conflict, Speaks, Disputed, OldestFirst;
    var g := Group(cs, id);
    assert EvidenceOf(g) == JudgementOn(g).evidence;
  }

  /** Every contribution is of a fact its speaker states without dispute, in full, with
      all observations of the fact as its evidence. */
  lemma ContributionsAreSpoken(stored: seq<Stored>, cs: seq<Candidate>, c: nat) returns (speaker: Candidate)
    requires WellRead(stored, cs) && c < |ProjectionOf(stored, cs).contributions|
    ensures var contribution := ProjectionOf(stored, cs).contributions[c];
            var id := contribution.fact.id;
            && Observes(cs, id, speaker) && Speaks(cs, id, speaker) && VerdictOn(cs, id, speaker) == ""
            && contribution.fact == StatedFact(speaker.usage) && AllObservations(cs, id, contribution.evidence)
  {
    var id := ContributionsGroup(stored, cs, c);
    ResolvedDistinct(stored, cs);
    JudgedBySpeaker(cs, id);
    JudgedEvidence(Group(cs, id));
    speaker := Group(cs, id)[Selected(Group(cs, id))];
    hide Group, Selected, JudgementOn, ProjectionOf, Speaks, Observes, AllObservations, VerdictOn, WellRead, FactIds, EvidenceOf;
  }

  lemma EstimatesGroup(stored: seq<Stored>, cs: seq<Candidate>, e: nat) returns (id: FactId)
    requires WellRead(stored, cs) && e < |ProjectionOf(stored, cs).estimates|
    ensures id in FactIds(cs) && Group(cs, id) != [] && Estimable(JudgementOn(Group(cs, id)).code)
    ensures var j := JudgementOn(Group(cs, id));
            j.fact.id == id && ProjectionOf(stored, cs).estimates[e] == Estimate(j.fact, j.speaker, j.code)
  {
    Accounted(stored, cs);
    var ids, p := SettlingOrder(cs), ProjectionOf(stored, cs);
    JudgedFacts(cs, ids);
    var js := Judgements(cs, ids);
    hide Group, AccountOf, SettlingOrder, JudgementOn, GroupNoted, OthersKept, EvidenceOf, Estimable;
    assert EstimatedFrom(p.estimates[e], js);
    var n :| 0 <= n < |js| && Estimable(js[n].code) && p.estimates[e] == Estimate(js[n].fact, js[n].speaker, js[n].code);
    id := ids[n];
  }

  /** Every estimate is of a fact whose speaker may not count, for the reason given. */
  lemma EstimatesAreSpoken(stored: seq<Stored>, cs: seq<Candidate>, e: nat) returns (speaker: Candidate)
    requires WellRead(stored, cs) && e < |ProjectionOf(stored, cs).estimates|
    ensures var estimate := ProjectionOf(stored, cs).estimates[e];
            var id := estimate.fact.id;
            && Observes(cs, id, speaker) && Speaks(cs, id, speaker)
            && estimate == Estimate(StatedFact(speaker.usage), speaker.evidence, VerdictOn(cs, id, speaker))
            && estimate.code != "" && estimate.code != "known_duplicate" && estimate.code != "stale_snapshot"
  {
    var id := EstimatesGroup(stored, cs, e);
    ResolvedDistinct(stored, cs);
    JudgedBySpeaker(cs, id);
    speaker := Group(cs, id)[Selected(Group(cs, id))];
    hide Group, Selected, JudgementOn, ProjectionOf, Speaks, Observes, AllObservations, VerdictOn, WellRead, FactIds;
  }

  lemma FindEstimate(stored: seq<Stored>, cs: seq<Candidate>, id: FactId) returns (e: nat)
    requires WellRead(stored, cs) && id in FactIds(cs) && Group(cs, id) != [] && Estimable(JudgementOn(Group(cs, id)).code)
    ensures e < |ProjectionOf(stored, cs).estimates| && ProjectionOf(stored, cs).estimates[e].fact.id == id
  {
    Accounted(stored, cs);
    var ids, p := SettlingOrder(cs), ProjectionOf(stored, cs);
    JudgedFacts(cs, ids);
    var js := Judgements(cs, ids);
    hide Group, AccountOf, SettlingOrder, JudgementOn, GroupNoted, OthersKept, EvidenceOf, Estimable;
    var n :| 0 <= n < |ids| && ids[n] == id;
    assert EstimatedIn(p.estimates, js[n]);
    e :| 0 <= e < |p.estimates| && p.estimates[e] == Estimate(js[n].fact, js[n].speaker, js[n].code);
  }

  ghost predicate IsContributed(p: Projection, id: FactId)
  {
    exists c :: 0 <= c < |p.contributions| && p.contributions[c].fact.id == id
  }

  ghost predicate IsEstimated(p: Projection, id: FactId)
  {
    exists e :: 0 <= e < |p.estimates| && p.estimates[e].fact.id == id
  }

  lemma FactHasGroup(cs: seq<Candidate>, id: FactId, c: Candidate)
    requires Observes(cs, id, c)
    ensures id in FactIds(cs) && Group(cs, id) != []
  {
    GroupMembers(cs, id);
    IdsHaveGroups(cs, id);
    hide Group, Same, FactIds;
    assert c in Group(cs, id);
    var i :| 0 <= i < |cs| && cs[i] == c;
  }

  /** Every observed fact has a speaker. It is contributed if and only if the speaker is
      clear and undisputed, and estimated if and only if the speaker may not count for a
      reason other than that the usage was counted before or replaced. */
  lemma FactsGetTheirVerdict(stored: seq<Stored>, cs: seq<Candidate>, id: FactId, c: Candidate) returns (speaker: Candidate)
    requires WellRead(stored, cs) && Observes(cs, id, c)
    ensures var p, verdict := ProjectionOf(stored, cs), VerdictOn(cs, id, speaker);
            && Observes(cs, id, speaker) && Speaks(cs, id, speaker)
            && (IsContributed(p, id) <==> verdict == "")
            && (IsEstimated(p, id) <==> verdict != "" && verdict != "known_duplicate" && verdict != "stale_snapshot")
  {
    var p := ProjectionOf(stored, cs);
    FactHasGroup(cs, id, c);
    ResolvedDistinct(stored, cs);
    JudgedBySpeaker(cs, id);
    speaker := Group(cs, id)[Selected(Group(cs, id))];
    hide Group, Selected, JudgementOn, ProjectionOf, Speaks, Observes, AllObservations, VerdictOn, WellRead, FactIds;
    if n :| 0 <= n < |p.contributions| && p.contributions[n].fact.id == id {
      var other := ContributionsGroup(stored, cs, n);
    }
    if n :| 0 <= n < |p.estimates| && p.estimates[n].fact.id == id {
      var other := EstimatesGroup(stored, cs, n);
    }
    if JudgementOn(Group(cs, id)).code == "" {
      var n := FindContribution(stored, cs, id);
    } else if Estimable(JudgementOn(Group(cs, id)).code) {
      var n := FindEstimate(stored, cs, id);
    }
  }

  lemma PlacedFate(cs: seq<Candidate>, id: FactId, k: nat)
    requires DistinctEvidence(cs) && k < |Group(cs, id)|
    ensures var g := Group(cs, id);
            && Observes(cs, id, g[k]) && Observes(cs, id, g[Selected(g)]) && Speaks(cs, id, g[Selected(g)])
            && OutcomeIn(cs, id, k) == Fate(g[k], g[Selected(g)], Disputed(cs, id, g[Selected(g)]))
  {
    SelectedSpeaks(cs, id);
    ConflictIsDispute(cs, id);
    GroupIsOldestFirst(cs, id);
    var g := Group(cs, id);
    assert g[k] in g;
    hide Group, Selected, Conflict, Speaks, Disputed, Later;
  }

  /** The outcome of a record that offers usage: what its candidate, the fact's speaker
      and whether the speaker is disputed decide. */
  lemma RecordsMeetTheirFate(stored: seq<Stored>, cs: seq<Candidate>, i: nat) returns (c: Candidate, speaker: Candidate)
    requires WellRead(stored, cs) && i < |stored| && stored[i].reading.Usable?
    ensures c in cs && c.evidence == stored[i].id
    ensures Observes(cs, c.usage.id, speaker) && Speaks(cs, c.usage.id, speaker)
    ensures |ProjectionOf(stored, cs).outcomes| == |stored|
    ensures ProjectionOf(stored, cs).outcomes[i] == (stored[i].id, Fate(c, speaker, Disputed(cs, c.usage.id, speaker)))
  {
    var id, k := RecordsPlace(stored, cs, i);
    EveryRecordAccounted(stored, cs);
    PlaceDecides(stored, cs, i, id, k);
    ResolvedDistinct(stored, cs);
    PlacedFate(cs, id, k);
    c, speaker := Group(cs, id)[k], Group(cs, id)[Selected(Group(cs, id))];
    hide Group, Selected, ProjectionOf, Speaks, Disputed, Fate, OutcomeIn, WellRead, FactIds;
  }

  // ----- the order of the lists -----

  /** By scope and then by name, in text order. */
  predicate FactLess(a: FactId, b: FactId)
  {
    if a.scope != b.scope then TextLess(a.scope, b.scope) else TextLess(a.local, b.local)
  }

  predicate AscendingIds(ids: seq<FactId>)
  {
    forall i, k :: 0 <= i < k < |ids| ==> FactLess(ids[i], ids[k])
  }

  predicate AscendingLists(p: seq<Contribution>, e: seq<Estimate>)
  {
    && (forall i, k :: 0 <= i < k < |p| ==> FactLess(p[i].fact.id, p[k].fact.id))
    && (forall i, k :: 0 <= i < k < |e| ==> FactLess(e[i].fact.id, e[k].fact.id))
  }

  predicate AmongIds(p: seq<Contribution>, e: seq<Estimate>, ids: seq<FactId>)
  {
    (forall i :: 0 <= i < |p| ==> p[i].fact.id in ids) && (forall i :: 0 <= i < |e| ==> e[i].fact.id in ids)
  }

  lemma FactBeforeIsStrict()
    ensures StrictOrder(FactBefore)
  {
    forall a, b, c
      ensures FactBefore(a, b) ==> !FactBefore(b, a)
      ensures FactBefore(a, b) && FactBefore(b, c) ==> FactBefore(a, c)
      ensures FactBefore(a, c) ==> FactBefore(a, b) || FactBefore(b, c)
    {
      FactOrder(a, b, c);
    }
  }

  lemma TextOrder(a: string, b: string, c: string)
    ensures !TextLess(a, a)
    ensures TextLess(a, b) ==> !TextLess(b, a)
    ensures TextLess(a, b) && TextLess(b, c) ==> TextLess(a, c)
    ensures a == b || TextLess(a, b) || TextLess(b, a)
  {
    TextLessIrreflexive(a);
    TextLessTotal(a, b);
    if TextLess(a, b) && TextLess(b, a) {
      TextLessTransitive(a, b, a);
    }
    if TextLess(a, b) && TextLess(b, c) {
      TextLessTransitive(a, b, c);
    }
  }

  lemma FactOrder(a: FactId, b: FactId, c: FactId)
    ensures FactBefore(a, b) ==> !FactBefore(b, a)
    ensures FactBefore(a, b) && FactBefore(b, c) ==> FactBefore(a, c)
    ensures FactBefore(a, c) ==> FactBefore(a, b) || FactBefore(b, c)
  {
    TextOrder(a.scope, b.scope, c.scope);
    TextOrder(b.scope, c.scope, a.scope);
    TextOrder(c.scope, b.scope, a.scope);
    TextOrder(a.scope, c.scope, b.scope);
    TextOrder(a.local, b.local, c.local);
    TextOrder(b.local, c.local, a.local);
    TextOrder(a.local, c.local, b.local);
    hide TextLess;
  }

  lemma SettlingAscends(cs: seq<Candidate>)
    ensures AscendingIds(SettlingOrder(cs))
  {
    FactBeforeIsStrict();
    SortedIsOrdered(FactIds(cs), FactBefore);
    OrderDistinct(cs);
    hide FactIds, TextLess;
    var ids := SettlingOrder(cs);
    assert Ordered(ids, FactBefore);
    hide SettlingOrder;
    forall i, k | 0 <= i < k < |ids|
      ensures FactLess(ids[i], ids[k])
    {
      assert !FactBefore(ids[k], ids[i]) && ids[i] != ids[k];
      TextOrder(ids[i].scope, ids[k].scope, ids[i].scope);
      TextOrder(ids[i].local, ids[k].local, ids[i].local);
    }
  }

  lemma FrontAscends(ids: seq<FactId>)
    requires ids != [] && AscendingIds(ids)
    ensures AscendingIds(ids[..|ids| - 1]) && ids == ids[..|ids| - 1] + [ids[|ids| - 1]]
  {
  }

  /** At most one of each for a fact that is greater than all before it. */
  lemma ListsLonger(p: seq<Contribution>, e: seq<Estimate>, front: seq<FactId>, id: FactId, c: seq<Contribution>, f: seq<Estimate>)
    requires AscendingLists(p, e) && AmongIds(p, e, front) && AscendingIds(front + [id]) && |c| <= 1 && |f| <= 1
    requires (c != [] ==> c[0].fact.id == id) && (f != [] ==> f[0].fact.id == id)
    ensures AscendingLists(p + c, e + f) && AmongIds(p + c, e + f, front + [id])
  {
    hide FactLess;
    forall x | x in front
      ensures FactLess(x, id)
    {
      var i :| 0 <= i < |front| && front[i] == x;
      assert (front + [id])[i] == x && (front + [id])[|front|] == id;
    }
    assert id in front + [id];
  }

  lemma {:induction false} SettledAscending(a: Account, cs: seq<Candidate>, ids: seq<FactId>)
    requires Groups(cs, ids) && NoRepeats(ids) && AscendingIds(ids) && a.contributions == [] && a.estimates == []
    ensures var b := SettledAll(a, cs, ids);
            AscendingLists(b.contributions, b.estimates) && AmongIds(b.contributions, b.estimates, ids)
  {
    if ids != [] {
      var front, id := ids[..|ids| - 1], ids[|ids| - 1];
      SettledAllUnfolds(a, cs, ids);
      FrontAscends(ids);
      hide SettledAll, Settled, Group, JudgementOn, AscendingLists, AmongIds, AscendingIds, Estimable;
      SettledAscending(a, cs, front);
      JudgedFact(cs, id);
      var mid, j := SettledAll(a, cs, front), JudgementOn(Group(cs, id));
      SettledLists(mid, id, Group(cs, id));
      ListsLonger(mid.contributions, mid.estimates, front, id, if j.code == "" then [Contribution(j.fact, j.evidence)] else [],
                  if Estimable(j.code) then [Estimate(j.fact, j.speaker, j.code)] else []);
      assert mid.contributions + [] == mid.contributions;
    }
  }

  /** Contributions and estimates are each listed in ascending order of their facts. */
  lemma ListsAscend(stored: seq<Stored>, cs: seq<Candidate>)
    ensures var p := ProjectionOf(stored, cs); AscendingLists(p.contributions, p.estimates)
  {
    SettlingAscends(cs);
    OrderDistinct(cs);
    hide SettlingOrder, SettledAll, AscendingLists, AscendingIds;
    SettledAscending(Account(Parsed(stored), [], []), cs, SettlingOrder(cs));
  }
}
