/** What becomes of each record of a sound session, said of the session's records in
    their order and of what its parent has proved: the whole table of verdicts, when a
    record counts, and what the session proves in turn. */
module AncestryJudgement {
  import opened Basics
  import opened DataModel
  import opened Tokens
  import opened Candidates
  import opened Ancestry
  import opened AncestryTheorems
  import opened AncestryLocality

  /** Whether the session forks, and the facts its parent has proved by fingerprint. */
  datatype Setting = Setting(fork: bool, above: Proofs)

  function Turn(c: Candidate): string
    requires c.codex.Some?
  {
    c.codex.value.turn
  }

  /** The ancestors' facts that carry the record's fingerprint. */
  function Sources(t: Setting, c: Candidate): map<FactId, Usage>
    requires c.codex.Some?
  {
    var f := c.codex.value.fingerprint;
    if f in t.above then t.above[f] else map[]
  }

  /** The record copies the one fact of the ancestors it matches. */
  predicate Copied(t: Setting, rs: seq<Candidate>, k: nat)
    requires AllCodex(rs) && k < |rs|
  {
    |Sources(t, rs[k])| == 1
  }

  /** The record is the first of its fact that is not copied. */
  predicate Stands(t: Setting, rs: seq<Candidate>, k: nat)
    requires AllCodex(rs) && k < |rs|
  {
    !Copied(t, rs, k) && forall j :: 0 <= j < k && !Copied(t, rs, j) ==> rs[j].usage.id != rs[k].usage.id
  }

  function Value(v: Option<int64>): int
  {
    if v.Some? then v.value as int else 0
  }

  /** b repeats the counters of a. */
  predicate Equals(a: Counts, b: Counts)
  {
    (a.input, a.output, a.reasoning, a.cacheRead, a.total) == (b.input, b.output, b.reasoning, b.cacheRead, b.total)
  }

  /** b counts less than a. */
  predicate Below(b: Counts, a: Counts)
  {
    Value(b.input) + Value(b.output) + Value(b.reasoning) + Value(b.cacheRead) <
    Value(a.input) + Value(a.output) + Value(a.reasoning) + Value(a.cacheRead)
  }

  /** Snapshot j is the last one before k that was not itself set aside; in a fork it must
      be of the same unbroken turn. */
  ghost predicate Precedes(t: Setting, rs: seq<Candidate>, j: nat, k: nat)
    requires AllCodex(rs) && j < k < |rs|
    decreases k, 0
  {
    && rs[j].codex.value.cumulative.Some? && Kept(t, rs, j)
    && (forall i :: j < i < k ==> !Kept(t, rs, i))
    && (t.fork ==> forall i :: j <= i < k && Stands(t, rs, i) ==> Turn(rs[i]) == Turn(rs[k]))
  }

  /** The cumulative counters are exactly those of the snapshot before. */
  ghost predicate Repeats(t: Setting, rs: seq<Candidate>, k: nat)
    requires AllCodex(rs) && k < |rs|
    decreases k, 1
  {
    rs[k].codex.value.cumulative.Some? &&
    exists j :: 0 <= j < k && Precedes(t, rs, j, k) &&
                Equals(rs[j].codex.value.cumulative.value, rs[k].codex.value.cumulative.value)
  }

  /** The cumulative counters fall below those of the snapshot before. */
  ghost predicate Falls(t: Setting, rs: seq<Candidate>, k: nat)
    requires AllCodex(rs) && k < |rs|
    decreases k, 1
  {
    rs[k].codex.value.cumulative.Some? &&
    exists j :: 0 <= j < k && Precedes(t, rs, j, k) &&
                Below(rs[k].codex.value.cumulative.value, rs[j].codex.value.cumulative.value)
  }

  /** A cumulative snapshot that neither repeats nor falls. */
  ghost predicate Kept(t: Setting, rs: seq<Candidate>, k: nat)
    requires AllCodex(rs) && k < |rs|
    decreases k, 2
  {
    Stands(t, rs, k) && rs[k].codex.value.cumulative.Some? && !Repeats(t, rs, k) && !Falls(t, rs, k)
  }

  /** The message is one of the turn: its identity goes on with a colon. */
  predicate OfTurn(message: string, turn: string)
  {
    |message| > |turn| && message[..|turn|] == turn && message[|turn|] == ':'
  }

  /** The record's turn is one in which an ancestor already proved a fact. */
  predicate InAncestorsTurn(t: Setting, c: Candidate)
    requires c.codex.Some?
  {
    t.fork && exists f, id :: f in t.above && id in t.above[f] && OfTurn(t.above[f][id].message, Turn(c))
  }

  /** The verdict on a record that stands. */
  ghost function StandingCode(t: Setting, rs: seq<Candidate>, k: nat): string
    requires AllCodex(rs) && k < |rs|
  {
    if Repeats(t, rs, k) then "known_duplicate"
    else if Falls(t, rs, k) then "stale_snapshot"
    else if rs[k].codex.value.fingerprint == "" then "unverifiable_snapshot"
    else if |Sources(t, rs[k])| > 1 then "ambiguous_parent_fact"
    else if InAncestorsTurn(t, rs[k]) then "uncertain_replay_boundary"
    else rs[k].code
  }

  /** after is what becomes of record k: a copy takes its source's fact; a repeat of a
      fact shares the verdict on its first record, or keeps its own. */
  ghost predicate JudgedAs(t: Setting, rs: seq<Candidate>, k: nat, after: Candidate)
    requires AllCodex(rs) && k < |rs|
  {
    if Copied(t, rs, k) then
      exists id :: id in Sources(t, rs[k]) && after == rs[k].(usage := Sources(t, rs[k])[id], code := "known_duplicate")
    else
      exists j :: 0 <= j <= k && Stands(t, rs, j) && rs[j].usage.id == rs[k].usage.id &&
        after == rs[k].(code := if j == k || StandingCode(t, rs, j) != "" then StandingCode(t, rs, j) else rs[k].code)
  }

  // ----- what is known after m records -----

  ghost predicate OutIs(t: Setting, rs: seq<Candidate>, out: seq<Candidate>)
    requires AllCodex(rs)
  {
    |out| <= |rs| && forall k :: 0 <= k < |out| ==> JudgedAs(t, rs, k, out[k])
  }

  ghost predicate ProvedBy(t: Setting, rs: seq<Candidate>, m: nat, f: string, id: FactId, u: Usage)
    requires AllCodex(rs) && m <= |rs|
  {
    exists j :: 0 <= j < m && Stands(t, rs, j) && StandingCode(t, rs, j) == "" &&
                rs[j].codex.value.fingerprint == f && f != "" && rs[j].usage == u && u.id == id
  }

  /** What was proved above, and the clear standing records under their fingerprints. */
  ghost predicate ProofsAre(t: Setting, rs: seq<Candidate>, m: nat, proofs: Proofs)
    requires AllCodex(rs) && m <= |rs|
  {
    forall f, id, u :: Holds(proofs, f, id, u) <==> Holds(t.above, f, id, u) || ProvedBy(t, rs, m, f, id, u)
  }

  ghost predicate SeenIs(t: Setting, rs: seq<Candidate>, m: nat, seen: map<FactId, string>)
    requires AllCodex(rs) && m <= |rs|
  {
    && (forall j :: 0 <= j < m && Stands(t, rs, j) ==> rs[j].usage.id in seen && seen[rs[j].usage.id] == StandingCode(t, rs, j))
    && (forall id :: id in seen ==> exists j :: 0 <= j < m && Stands(t, rs, j) && rs[j].usage.id == id)
  }

  predicate TurnIs(t: Setting, rs: seq<Candidate>, m: nat, turn: string)
    requires AllCodex(rs) && m <= |rs|
  {
    forall j :: 0 <= j < m && Stands(t, rs, j) && (forall i :: j < i < m ==> !Stands(t, rs, i)) ==> turn == Turn(rs[j])
  }

  /** The snapshot that the next one is compared with, if it is of the same turn. */
  ghost predicate Open(t: Setting, rs: seq<Candidate>, m: nat, j: nat)
    requires AllCodex(rs) && j < m <= |rs|
  {
    && Kept(t, rs, j) && (forall i :: j < i < m ==> !Kept(t, rs, i))
    && (t.fork ==> forall i :: j <= i < m && Stands(t, rs, i) ==> Turn(rs[i]) == Turn(rs[j]))
  }

  ghost predicate PreviousIs(t: Setting, rs: seq<Candidate>, m: nat, previous: Option<Counts>)
    requires AllCodex(rs) && m <= |rs|
  {
    && (forall j :: 0 <= j < m && Open(t, rs, m, j) ==> previous == rs[j].codex.value.cumulative)
    && (previous.Some? ==> exists j :: 0 <= j < m && Open(t, rs, m, j))
  }

  ghost predicate TrailIs(t: Setting, rs: seq<Candidate>, m: nat, r: Trail)
    requires AllCodex(rs) && m <= |rs|
  {
    && |r.out| == m && OutIs(t, rs, r.out) && ProofsAre(t, rs, m, r.proofs) && SeenIs(t, rs, m, r.seen)
    && TurnIs(t, rs, m, r.turn) && PreviousIs(t, rs, m, r.previous)
  }

  /** What is known of a session's records and of the proofs it starts from. */
  predicate SettingOk(t: Setting, rs: seq<Candidate>, s: Scope)
  {
    && AllCodex(rs) && (forall k :: 0 <= k < |rs| ==> rs[k].usage.id.scope == s)
    && Foreign(t.above, s) && (forall f, id :: f in t.above && id in t.above[f] ==> t.above[f][id].id == id)
  }

  // ----- small facts -----

  /** Of the records of a fact that are not copied one stands. */
  lemma {:induction false} FirstStands(t: Setting, rs: seq<Candidate>, k: nat) returns (j: nat)
    requires AllCodex(rs) && k < |rs| && !Copied(t, rs, k)
    ensures j <= k && Stands(t, rs, j) && rs[j].usage.id == rs[k].usage.id
    decreases k
  {
    hide Copied;
    if i :| 0 <= i < k && !Copied(t, rs, i) && rs[i].usage.id == rs[k].usage.id {
      j := FirstStands(t, rs, i);
    } else {
      j := k;
    }
  }

  lemma StandsOnce(t: Setting, rs: seq<Candidate>, j: nat, k: nat)
    requires AllCodex(rs) && j < |rs| && k < |rs| && Stands(t, rs, j) && Stands(t, rs, k) && rs[j].usage.id == rs[k].usage.id
    ensures j == k
  {
  }

  /** Nothing but the proofs from above is inherited. */
  lemma InheritedAreSources(t: Setting, rs: seq<Candidate>, s: Scope, m: nat, proofs: Proofs)
    requires SettingOk(t, rs, s) && m < |rs| && ProofsAre(t, rs, m, proofs)
    ensures Inherited(proofs, rs[m].codex.value.fingerprint, s) == Sources(t, rs[m])
  {
    hide Stands, StandingCode;
    var f := rs[m].codex.value.fingerprint;
    var inherited, sources := Inherited(proofs, f, s), Sources(t, rs[m]);
    forall id | id in inherited
      ensures id in sources && sources[id] == inherited[id]
    {
      assert Holds(proofs, f, id, inherited[id]);
    }
    forall id | id in sources
      ensures id in inherited
    {
      assert Holds(t.above, f, id, sources[id]);
      assert Holds(proofs, f, id, sources[id]);
    }
  }

  lemma SeenMeans(t: Setting, rs: seq<Candidate>, m: nat, seen: map<FactId, string>)
    requires AllCodex(rs) && m < |rs| && SeenIs(t, rs, m, seen) && !Copied(t, rs, m)
    ensures rs[m].usage.id in seen <==> !Stands(t, rs, m)
  {
    hide StandingCode;
    if !Stands(t, rs, m) {
      var j := FirstStands(t, rs, m);
    }
  }

  lemma ReplaysMeans(t: Setting, c: Candidate)
    requires c.codex.Some? && t.fork
    ensures Replays(t.above, Turn(c)) <==> InAncestorsTurn(t, c)
  {
    forall f, id | f in t.above && id in t.above[f]
      ensures Turn(c) + ":" <= t.above[f][id].message <==> OfTurn(t.above[f][id].message, Turn(c))
    {
      PrefixMeans(Turn(c), t.above[f][id].message);
    }
  }

  lemma PrefixMeans(turn: string, message: string)
    ensures turn + ":" <= message <==> OfTurn(message, turn)
  {
    if turn + ":" <= message {
      assert message[..|turn| + 1] == turn + ":";
      assert message[..|turn|] == message[..|turn| + 1][..|turn|];
      assert message[|turn|] == message[..|turn| + 1][|turn|];
    }
    if OfTurn(message, turn) {
      assert message[..|turn| + 1] == turn + ":";
    }
  }

  lemma CountsMean(a: Counts, b: Counts)
    ensures SameCounts(a, b) <==> Equals(a, b)
    ensures SnapshotSum(b) < SnapshotSum(a) <==> Below(b, a)
    ensures Equals(a, b) ==> !Below(b, a)
  {
  }

  // ----- the snapshot before -----

  /** What record m is compared with, given what was open. */
  function Previous(t: Setting, r: Trail, c: Candidate): Option<Counts>
    requires c.codex.Some?
  {
    if t.fork && Turn(c) != r.turn then None else r.previous
  }

  lemma LastStanding(t: Setting, rs: seq<Candidate>, m: nat, j: nat) returns (last: nat)
    requires AllCodex(rs) && j < m <= |rs| && Stands(t, rs, j)
    ensures j <= last < m && Stands(t, rs, last) && forall i :: last < i < m ==> !Stands(t, rs, i)
    decreases m - j
  {
    hide Stands;
    if i :| j < i < m && Stands(t, rs, i) {
      last := LastStanding(t, rs, m, i);
    } else {
      last := j;
    }
  }

  /** What is open precedes the next record, unless a fork begins another turn. */
  lemma OpenPrecedes(t: Setting, rs: seq<Candidate>, m: nat, turn: string, j: nat)
    requires AllCodex(rs) && j < m < |rs| && TurnIs(t, rs, m, turn)
    ensures Precedes(t, rs, j, m) <==> Open(t, rs, m, j) && (t.fork ==> Turn(rs[m]) == turn)
  {
    hide Stands, Repeats, Falls;
    if Kept(t, rs, j) {
      var last := LastStanding(t, rs, m, j);
      assert turn == Turn(rs[last]);
    }
  }

  lemma ComparedWith(t: Setting, rs: seq<Candidate>, m: nat, r: Trail)
    requires AllCodex(rs) && m < |rs| && TurnIs(t, rs, m, r.turn) && PreviousIs(t, rs, m, r.previous)
    ensures forall j :: 0 <= j < m && Precedes(t, rs, j, m) ==> Previous(t, r, rs[m]) == rs[j].codex.value.cumulative
    ensures Previous(t, r, rs[m]).Some? ==> exists j :: 0 <= j < m && Precedes(t, rs, j, m)
  {
    hide Precedes, Open, TurnIs;
    forall j | 0 <= j < m
      ensures Precedes(t, rs, j, m) <==> Open(t, rs, m, j) && (t.fork ==> Turn(rs[m]) == r.turn)
    {
      OpenPrecedes(t, rs, m, r.turn, j);
    }
  }

  /** The comparison decides whether the record repeats or falls. */
  lemma ComparisonDecides(t: Setting, rs: seq<Candidate>, m: nat, r: Trail)
    requires AllCodex(rs) && m < |rs| && TurnIs(t, rs, m, r.turn) && PreviousIs(t, rs, m, r.previous)
    ensures var cumulative, previous := rs[m].codex.value.cumulative, Previous(t, r, rs[m]);
            && (Repeats(t, rs, m) <==> cumulative.Some? && previous.Some? && SameCounts(previous.value, cumulative.value))
            && (Falls(t, rs, m) <==>
                  cumulative.Some? && previous.Some? && SnapshotSum(cumulative.value) < SnapshotSum(previous.value))
  {
    hide TurnIs, PreviousIs, SameCounts, SnapshotSum, Equals, Below, Kept, Stands;
    ComparedWith(t, rs, m, r);
    var cumulative, previous := rs[m].codex.value.cumulative, Previous(t, r, rs[m]);
    if cumulative.Some? && previous.Some? {
      CountsMean(previous.value, cumulative.value);
    }
  }

  // ----- one more record -----

  lemma SeenStays(t: Setting, rs: seq<Candidate>, m: nat, seen: map<FactId, string>)
    requires AllCodex(rs) && m < |rs| && SeenIs(t, rs, m, seen) && !Stands(t, rs, m)
    ensures SeenIs(t, rs, m + 1, seen)
  {
    hide Stands, StandingCode;
  }

  lemma TurnStays(t: Setting, rs: seq<Candidate>, m: nat, turn: string)
    requires AllCodex(rs) && m < |rs| && TurnIs(t, rs, m, turn) && !Stands(t, rs, m)
    ensures TurnIs(t, rs, m + 1, turn)
  {
    hide Stands;
    forall j | 0 <= j < m + 1 && Stands(t, rs, j) && forall i :: j < i < m + 1 ==> !Stands(t, rs, i)
      ensures turn == Turn(rs[j])
    {
      assert j < m;
    }
  }

  lemma PreviousStays(t: Setting, rs: seq<Candidate>, m: nat, previous: Option<Counts>)
    requires AllCodex(rs) && m < |rs| && PreviousIs(t, rs, m, previous) && !Stands(t, rs, m)
    ensures PreviousIs(t, rs, m + 1, previous)
  {
    NotOpened(t, rs, m);
    hide Stands, Open;
  }

  /** A record that does not stand leaves everything but the output as it was. */
  lemma NotStandingKeeps(t: Setting, rs: seq<Candidate>, m: nat, r: Trail)
    requires AllCodex(rs) && m < |rs| && TrailIs(t, rs, m, r) && !Stands(t, rs, m)
    ensures ProofsAre(t, rs, m + 1, r.proofs) && SeenIs(t, rs, m + 1, r.seen)
    ensures TurnIs(t, rs, m + 1, r.turn) && PreviousIs(t, rs, m + 1, r.previous)
  {
    hide OutIs, Stands, ProofsAre, SeenIs, TurnIs, PreviousIs;
    ProofsStay(t, rs, m, r.proofs);
    SeenStays(t, rs, m, r.seen);
    TurnStays(t, rs, m, r.turn);
    PreviousStays(t, rs, m, r.previous);
  }

  lemma ProofsStay(t: Setting, rs: seq<Candidate>, m: nat, proofs: Proofs)
    requires AllCodex(rs) && m < |rs| && ProofsAre(t, rs, m, proofs)
    requires !Stands(t, rs, m) || StandingCode(t, rs, m) != "" || rs[m].codex.value.fingerprint == ""
    ensures ProofsAre(t, rs, m + 1, proofs)
  {
    hide Stands, StandingCode;
    forall f, id, u
      ensures ProvedBy(t, rs, m + 1, f, id, u) <==> ProvedBy(t, rs, m, f, id, u)
    {
    }
  }

  lemma NotOpened(t: Setting, rs: seq<Candidate>, m: nat)
    requires AllCodex(rs) && m < |rs| && !Stands(t, rs, m)
    ensures !Open(t, rs, m + 1, m)
    ensures forall j :: 0 <= j < m ==> (Open(t, rs, m + 1, j) <==> Open(t, rs, m, j))
  {
    hide Stands, Repeats, Falls;
  }

  lemma CopiedOut(t: Setting, rs: seq<Candidate>, m: nat, sources: map<FactId, Usage>)
    requires AllCodex(rs) && m < |rs| && Copied(t, rs, m) && sources == Sources(t, rs[m])
    ensures JudgedAs(t, rs, m, rs[m].(usage := Only(sources), code := "known_duplicate"))
  {
    var id :| id in sources.Keys && Only(sources) == sources[id];
    assert id in Sources(t, rs[m]);
  }

  lemma RepeatOut(t: Setting, rs: seq<Candidate>, m: nat, seen: map<FactId, string>)
    requires AllCodex(rs) && m < |rs| && !Copied(t, rs, m) && !Stands(t, rs, m) && SeenIs(t, rs, m, seen)
    ensures rs[m].usage.id in seen
    ensures JudgedAs(t, rs, m, if seen[rs[m].usage.id] != "" then rs[m].(code := seen[rs[m].usage.id]) else rs[m])
  {
    var j := FirstStands(t, rs, m);
    assert j < m;
    assert seen[rs[m].usage.id] == StandingCode(t, rs, j);
    hide Stands, StandingCode, Copied, SeenIs;
    assert rs[m] == rs[m].(code := rs[m].code);
  }

  lemma StandingOut(t: Setting, rs: seq<Candidate>, m: nat)
    requires AllCodex(rs) && m < |rs| && Stands(t, rs, m)
    ensures JudgedAs(t, rs, m, rs[m].(code := StandingCode(t, rs, m)))
  {
    hide StandingCode;
    assert !Copied(t, rs, m);
  }

  lemma OutLonger(t: Setting, rs: seq<Candidate>, out: seq<Candidate>, c: Candidate)
    requires AllCodex(rs) && |out| < |rs| && OutIs(t, rs, out) && JudgedAs(t, rs, |out|, c)
    ensures OutIs(t, rs, out + [c])
  {
    hide JudgedAs;
  }

  lemma SeenLonger(t: Setting, rs: seq<Candidate>, m: nat, seen: map<FactId, string>)
    requires AllCodex(rs) && m < |rs| && SeenIs(t, rs, m, seen) && Stands(t, rs, m)
    ensures SeenIs(t, rs, m + 1, seen[rs[m].usage.id := StandingCode(t, rs, m)])
  {
    hide StandingCode, Stands;
    forall j | 0 <= j < m && Stands(t, rs, j)
      ensures rs[j].usage.id != rs[m].usage.id
    {
      if rs[j].usage.id == rs[m].usage.id {
        StandsOnce(t, rs, j, m);
      }
    }
  }

  lemma TurnLonger(t: Setting, rs: seq<Candidate>, m: nat)
    requires AllCodex(rs) && m < |rs| && Stands(t, rs, m)
    ensures TurnIs(t, rs, m + 1, Turn(rs[m]))
  {
    hide Stands;
  }

  /** A standing record that is kept is what the next one is compared with; any other
      leaves what it was compared with itself. */
  lemma OpenLonger(t: Setting, rs: seq<Candidate>, m: nat, j: nat)
    requires AllCodex(rs) && j <= m < |rs| && Stands(t, rs, m)
    ensures Open(t, rs, m + 1, j) <==> if Kept(t, rs, m) then j == m else j < m && Precedes(t, rs, j, m)
  {
    KeptStands(t, rs, j);
    hide Stands, Kept;
  }

  lemma KeptStands(t: Setting, rs: seq<Candidate>, j: nat)
    requires AllCodex(rs) && j < |rs|
    ensures Kept(t, rs, j) ==> Stands(t, rs, j) && rs[j].codex.value.cumulative.Some?
  {
  }

  lemma PreviousLonger(t: Setting, rs: seq<Candidate>, m: nat, r: Trail)
    requires AllCodex(rs) && m < |rs| && Stands(t, rs, m) && TurnIs(t, rs, m, r.turn) && PreviousIs(t, rs, m, r.previous)
    ensures PreviousIs(t, rs, m + 1, if Kept(t, rs, m) then rs[m].codex.value.cumulative else Previous(t, r, rs[m]))
  {
    hide Kept, Precedes, Open, TurnIs, Stands, Previous;
    forall j | 0 <= j < m + 1
      ensures Open(t, rs, m + 1, j) <==> if Kept(t, rs, m) then j == m else j < m && Precedes(t, rs, j, m)
    {
      OpenLonger(t, rs, m, j);
    }
    ComparedWith(t, rs, m, r);
    if Kept(t, rs, m) {
      OpenLonger(t, rs, m, m);
    } else if Previous(t, r, rs[m]).Some? {
      var j :| 0 <= j < m && Precedes(t, rs, j, m);
      assert Open(t, rs, m + 1, j);
    }
  }

  lemma ProofsLonger(t: Setting, rs: seq<Candidate>, s: Scope, m: nat, proofs: Proofs)
    requires SettingOk(t, rs, s) && m < |rs| && ProofsAre(t, rs, m, proofs) && Stands(t, rs, m)
    ensures ProofsAre(t, rs, m + 1, Proved(proofs, rs[m].(code := StandingCode(t, rs, m))))
  {
    var c := rs[m].(code := StandingCode(t, rs, m));
    if c.code != "" || c.codex.value.fingerprint == "" {
      NotProved(proofs, c);
      ProofsStay(t, rs, m, proofs);
    } else {
      ProvedShape(proofs, c);
      NotYetProved(t, rs, s, m, proofs);
      hide Stands, StandingCode, Proved, ProofsAre, Foreign;
      var q := Proved(proofs, c);
      forall f, id, u
        ensures Holds(q, f, id, u) <==> Holds(t.above, f, id, u) || ProvedBy(t, rs, m + 1, f, id, u)
      {
        ProvedMore(t, rs, s, m, proofs, q, f, id, u);
      }
      AllProofs(t, rs, m + 1, q);
    }
  }

  lemma AllProofs(t: Setting, rs: seq<Candidate>, m: nat, q: Proofs)
    requires AllCodex(rs) && m <= |rs|
    requires forall f, id, u :: Holds(q, f, id, u) <==> Holds(t.above, f, id, u) || ProvedBy(t, rs, m, f, id, u)
    ensures ProofsAre(t, rs, m, q)
  {
  }

  /** Under its own identity nothing was proved before a standing record. */
  lemma NotYetProved(t: Setting, rs: seq<Candidate>, s: Scope, m: nat, proofs: Proofs)
    requires SettingOk(t, rs, s) && m < |rs| && ProofsAre(t, rs, m, proofs) && Stands(t, rs, m)
    ensures forall f, u :: !Holds(proofs, f, rs[m].usage.id, u)
  {
    hide StandingCode, Stands;
    forall f, u
      ensures !Holds(proofs, f, rs[m].usage.id, u)
    {
      NotProvedBefore(t, rs, m, f, u);
    }
  }

  lemma NotProvedBefore(t: Setting, rs: seq<Candidate>, m: nat, f: string, u: Usage)
    requires AllCodex(rs) && m < |rs| && Stands(t, rs, m)
    ensures !ProvedBy(t, rs, m, f, rs[m].usage.id, u)
  {
    hide StandingCode;
    forall j | 0 <= j < m && Stands(t, rs, j)
      ensures rs[j].usage.id != rs[m].usage.id
    {
      assert !Copied(t, rs, j);
    }
  }

  lemma ProvedMore(t: Setting, rs: seq<Candidate>, s: Scope, m: nat, proofs: Proofs, q: Proofs, f: string, id: FactId, u: Usage)
    requires SettingOk(t, rs, s) && m < |rs| && ProofsAre(t, rs, m, proofs)
    requires Stands(t, rs, m) && StandingCode(t, rs, m) == "" && rs[m].codex.value.fingerprint != ""
    requires forall g, w :: !Holds(proofs, g, rs[m].usage.id, w)
    requires Holds(q, rs[m].codex.value.fingerprint, rs[m].usage.id, rs[m].usage)
    requires forall g, x :: g in q && x in q[g] ==>
               (g == rs[m].codex.value.fingerprint && x == rs[m].usage.id && q[g][x] == rs[m].usage) || Holds(proofs, g, x, q[g][x])
    requires forall g, x :: g in proofs && x in proofs[g] && !(g == rs[m].codex.value.fingerprint && x == rs[m].usage.id) ==>
               Holds(q, g, x, proofs[g][x])
    ensures Holds(q, f, id, u) <==> Holds(t.above, f, id, u) || ProvedBy(t, rs, m + 1, f, id, u)
  {
    hide Stands, StandingCode, Foreign;
    assert Holds(proofs, f, id, u) <==> Holds(t.above, f, id, u) || ProvedBy(t, rs, m, f, id, u);
    assert ProvedBy(t, rs, m + 1, f, id, u) <==>
      ProvedBy(t, rs, m, f, id, u) || (f == rs[m].codex.value.fingerprint && u == rs[m].usage && id == u.id);
  }

  /** One step on a record that stands, once the comparison is known. */
  lemma FollowStanding(x: Session, r: Trail, c: Candidate, previous: Option<Counts>, repeats: bool, falls: bool)
    requires c.codex.Some? && |Inherited(r.proofs, c.codex.value.fingerprint, x.scope)| != 1 && c.usage.id !in r.seen
    requires previous == if x.fork && c.codex.value.turn != r.turn then None else r.previous
    requires repeats <==> c.codex.value.cumulative.Some? && previous.Some? && SameCounts(previous.value, c.codex.value.cumulative.value)
    requires falls <==>
               c.codex.value.cumulative.Some? && previous.Some? && SnapshotSum(c.codex.value.cumulative.value) < SnapshotSum(previous.value)
    ensures var f := Follow(x, r, c);
            var others := |Inherited(r.proofs, c.codex.value.fingerprint, x.scope)|;
            var code := if repeats then "known_duplicate" else if falls then "stale_snapshot"
                        else Judged(c, x.fork, x.parentProofs, x.problem, others);
            var judged := c.(code := code);
            && f.out == r.out + [judged] && f.turn == c.codex.value.turn && f.seen == r.seen[c.usage.id := code]
            && f.previous == (if c.codex.value.cumulative.Some? && !repeats && !falls then c.codex.value.cumulative else previous)
            && f.proofs == (if repeats || falls then r.proofs else Proved(r.proofs, judged))
  {
    hide Inherited, Judged, Proved, SameCounts, SnapshotSum, Only;
  }

  lemma StandingCodeIs(t: Setting, rs: seq<Candidate>, m: nat)
    requires AllCodex(rs) && m < |rs| && Stands(t, rs, m)
    ensures StandingCode(t, rs, m) ==
            if Repeats(t, rs, m) then "known_duplicate" else if Falls(t, rs, m) then "stale_snapshot"
            else Judged(rs[m], t.fork, t.above, "", |Sources(t, rs[m])|)
    ensures Kept(t, rs, m) <==> rs[m].codex.value.cumulative.Some? && !Repeats(t, rs, m) && !Falls(t, rs, m)
  {
    if t.fork {
      ReplaysMeans(t, rs[m]);
    }
    hide Replays, InAncestorsTurn, Repeats, Falls, Stands, Sources;
  }

  /** How a standing record is judged. */
  lemma StandingJudged(t: Setting, rs: seq<Candidate>, s: Scope, m: nat, r: Trail)
    requires AllCodex(rs) && m < |rs| && Stands(t, rs, m) && TurnIs(t, rs, m, r.turn) && PreviousIs(t, rs, m, r.previous)
    requires Inherited(r.proofs, rs[m].codex.value.fingerprint, s) == Sources(t, rs[m])
    requires rs[m].usage.id !in r.seen
    ensures var f := Follow(Session(s, t.fork, t.above, ""), r, rs[m]);
            var judged := rs[m].(code := StandingCode(t, rs, m));
            && f.out == r.out + [judged] && f.turn == Turn(rs[m]) && f.seen == r.seen[rs[m].usage.id := judged.code]
            && f.previous == (if Kept(t, rs, m) then rs[m].codex.value.cumulative else Previous(t, r, rs[m]))
            && f.proofs == Proved(r.proofs, judged)
  {
    assert !Copied(t, rs, m);
    ComparisonDecides(t, rs, m, r);
    StandingCodeIs(t, rs, m);
    hide Inherited, Proved, Repeats, Falls, Stands, TurnIs, PreviousIs, Kept, StandingCode, Follow, Judged, SameCounts, SnapshotSum;
    FollowStanding(Session(s, t.fork, t.above, ""), r, rs[m], Previous(t, r, rs[m]), Repeats(t, rs, m), Falls(t, rs, m));
    var judged := rs[m].(code := StandingCode(t, rs, m));
    if judged.code != "" {
      NotProved(r.proofs, judged);
    }
  }

  lemma StandingFollows(t: Setting, rs: seq<Candidate>, s: Scope, m: nat, r: Trail)
    requires SettingOk(t, rs, s) && m < |rs| && TrailIs(t, rs, m, r) && Stands(t, rs, m)
    ensures TrailIs(t, rs, m + 1, Follow(Session(s, t.fork, t.above, ""), r, rs[m]))
  {
    assert !Copied(t, rs, m);
    hide Follow, Stands, StandingCode, ProofsAre, SeenIs, TurnIs, PreviousIs, OutIs, JudgedAs, Inherited, Sources, Proved, Kept, Previous,
         Foreign, Copied;
    InheritedAreSources(t, rs, s, m, r.proofs);
    SeenMeans(t, rs, m, r.seen);
    StandingJudged(t, rs, s, m, r);
    StandingOut(t, rs, m);
    OutLonger(t, rs, r.out, rs[m].(code := StandingCode(t, rs, m)));
    ProofsLonger(t, rs, s, m, r.proofs);
    SeenLonger(t, rs, m, r.seen);
    TurnLonger(t, rs, m);
    PreviousLonger(t, rs, m, r);
  }

  /** One step on a record that does not stand. */
  lemma FollowOther(x: Session, r: Trail, c: Candidate)
    requires c.codex.Some?
    requires |Inherited(r.proofs, c.codex.value.fingerprint, x.scope)| == 1 || c.usage.id in r.seen
    ensures var inherited := Inherited(r.proofs, c.codex.value.fingerprint, x.scope);
            Follow(x, r, c) ==
            r.(out := r.out + [if |inherited| == 1 then c.(usage := Only(inherited), code := "known_duplicate")
                               else if r.seen[c.usage.id] != "" then c.(code := r.seen[c.usage.id]) else c])
  {
    hide Inherited, Only;
  }

  lemma OthersFollow(t: Setting, rs: seq<Candidate>, s: Scope, m: nat, r: Trail)
    requires SettingOk(t, rs, s) && m < |rs| && TrailIs(t, rs, m, r) && !Stands(t, rs, m)
    ensures TrailIs(t, rs, m + 1, Follow(Session(s, t.fork, t.above, ""), r, rs[m]))
  {
    NotStandingKeeps(t, rs, m, r);
    InheritedAreSources(t, rs, s, m, r.proofs);
    assert Copied(t, rs, m) <==> |Sources(t, rs[m])| == 1;
    hide Stands, StandingCode, ProofsAre, SeenIs, TurnIs, PreviousIs, OutIs, JudgedAs, Inherited, Sources, Foreign, Copied, Only, Follow;
    if Copied(t, rs, m) {
      CopiedOut(t, rs, m, Sources(t, rs[m]));
    } else {
      SeenMeans(t, rs, m, r.seen);
      RepeatOut(t, rs, m, r.seen);
    }
    FollowOther(Session(s, t.fork, t.above, ""), r, rs[m]);
    OutLonger(t, rs, r.out, Follow(Session(s, t.fork, t.above, ""), r, rs[m]).out[m]);
  }

  lemma NothingFollowed(t: Setting, rs: seq<Candidate>)
    requires AllCodex(rs)
    ensures TrailIs(t, rs, 0, Trail([], t.above, None, "", map[]))
  {
  }

  lemma {:induction false} FollowedAll(t: Setting, rs: seq<Candidate>, s: Scope, m: nat)
    requires SettingOk(t, rs, s) && m <= |rs|
    ensures TrailIs(t, rs, m, FollowAll(Session(s, t.fork, t.above, ""), t.above, rs[..m]))
    decreases m
  {
    hide Follow, TrailIs;
    if m == 0 {
      NothingFollowed(t, rs);
    } else {
      assert rs[..m][..m - 1] == rs[..m - 1];
      FollowedAll(t, rs, s, m - 1);
      var r := FollowAll(Session(s, t.fork, t.above, ""), t.above, rs[..m - 1]);
      if Stands(t, rs, m - 1) {
        StandingFollows(t, rs, s, m - 1, r);
      } else {
        OthersFollow(t, rs, s, m - 1, r);
      }
    }
  }

  // ----- a sound session in any resolution -----

  /** What the session's records are judged against. */
  function SettingOf(env: Env, w: Walk, s: Scope): Setting
    requires s in env.metadata
  {
    var m := env.metadata[s];
    Setting(m.fork, if m.fork && m.parent.Some? then ProofsOf(w, m.parent.value) else map[])
  }

  lemma AboveIsDirect(env: Env, keys: seq<Scope>, s: Scope, n: nat)
    requires s in keys && Grounded(env.metadata, s, n) && Undisputed(env.metadata, s, n)
    ensures SettingOf(env, Resolved(env, keys), s) == Setting(n > 0, ProofsAbove(env, s, n))
    ensures SettingOk(SettingOf(env, Resolved(env, keys), s), Records(env, s), s)
  {
    ParentOfGrounded(env, s, n);
    RecordsBelong(env, s);
    if n > 0 {
      hide *;
      SoundParent(env, keys, s, n);
      AboveOfFork(env, keys, s, n);
    } else {
      hide Records, Directly, Resolved, Undisputed;
      RootHasNoneAbove(env, s, n);
    }
  }

  /** A sound fork's parent is resolved, and nothing it proved belongs to the fork. */
  lemma SoundParent(env: Env, keys: seq<Scope>, s: Scope, n: nat)
    requires s in keys && Grounded(env.metadata, s, n) && Undisputed(env.metadata, s, n) && n > 0
    ensures KnownParent(env, s).Some? && KnownParent(env, s) == env.metadata[s].parent
    ensures var w, parent := Resolved(env, keys), KnownParent(env, s).value;
            && parent in w.done && parent in w.proofs && Foreign(w.proofs[parent], s) && Keyed(env, w.proofs[parent])
  {
    var w := Resolved(env, keys);
    assert Rooted(env.metadata, s);
    ParentOfGrounded(env, s, n);
    hide Rooted, Resolved, Grounded, Undisputed, WalkOk, SettledOk;
    ResolvedOk(env, keys);
    WalkSettled(env, w, s);
    WalkSame(env, w);
    SettledBasics(env, w, s);
    ParentIsForeign(env, w, s);
  }

  lemma AboveOfFork(env: Env, keys: seq<Scope>, s: Scope, n: nat)
    requires Grounded(env.metadata, s, n) && Undisputed(env.metadata, s, n) && n > 0
    requires KnownParent(env, s).Some? && KnownParent(env, s) == env.metadata[s].parent
    requires var w, parent := Resolved(env, keys), KnownParent(env, s).value;
             && parent in w.done && parent in w.proofs && Foreign(w.proofs[parent], s) && Keyed(env, w.proofs[parent])
    requires forall k :: 0 <= k < |Records(env, s)| ==> Records(env, s)[k].usage.id.scope == s
    ensures SettingOf(env, Resolved(env, keys), s) == Setting(n > 0, ProofsAbove(env, s, n))
    ensures SettingOk(SettingOf(env, Resolved(env, keys), s), Records(env, s), s)
  {
    WalkJudgesDirectly(env, keys);
    ParentIsDirect(env, Resolved(env, keys), s, n);
    ParentOfGrounded(env, s, n);
    hide Records, Directly, Resolved, Grounded, Undisputed, WalkDirect, ProofsAbove;
  }

  lemma RootHasNoneAbove(env: Env, s: Scope, n: nat)
    requires Grounded(env.metadata, s, n) && n == 0
    ensures ProofsAbove(env, s, n) == map[] && !env.metadata[s].fork
  {
  }

  lemma ParentIsForeign(env: Env, w: Walk, s: Scope)
    requires |w.items| == |env.initial| && WalkOk(env, w) && s in w.done && Problem(w, s) == "" && Forks(env, s)
    ensures KnownParent(env, s).Some?
    ensures var parent := KnownParent(env, s).value;
            && parent in w.done && parent in w.proofs && Foreign(w.proofs[parent], s) && Keyed(env, w.proofs[parent])
  {
    hide WalkOk, Foreign, Keyed, Extended, AddedBy, Rooted, SettledItems, OneOwner, Inherits;
    WalkSettled(env, w, s);
    WalkSettled(env, w, KnownParent(env, s).value);
  }

  lemma ParentIsDirect(env: Env, w: Walk, s: Scope, n: nat)
    requires s in env.metadata && Grounded(env.metadata, s, n) && Undisputed(env.metadata, s, n) && n > 0
    requires WalkDirect(env, w) && env.metadata[s].parent.Some? && env.metadata[s].parent.value in w.done
    ensures ProofsOf(w, env.metadata[s].parent.value) == ProofsAbove(env, s, n)
  {
    hide *;
    ProofsAboveIs(env, s, n);
    var parent := env.metadata[s].parent.value;
    DirectOf(env, w, parent, n - 1);
    DirectProofs(env, w, parent, n - 1);
  }

  lemma ProofsAboveIs(env: Env, s: Scope, n: nat)
    requires Grounded(env.metadata, s, n) && n > 0
    ensures env.metadata[s].parent.Some? && Grounded(env.metadata, env.metadata[s].parent.value, n - 1)
    ensures Undisputed(env.metadata, s, n) ==> Undisputed(env.metadata, env.metadata[s].parent.value, n - 1)
    ensures ProofsAbove(env, s, n) == Directly(env, env.metadata[s].parent.value, n - 1).proofs
  {
  }

  lemma DirectOf(env: Env, w: Walk, s: Scope, n: nat)
    requires WalkDirect(env, w) && s in w.done && Grounded(env.metadata, s, n) && Undisputed(env.metadata, s, n)
    ensures AsDirectly(env, w, s, n)
  {
  }

  lemma RecordsBelong(env: Env, s: Scope)
    ensures forall k :: 0 <= k < |Records(env, s)| ==> Records(env, s)[k].usage.id.scope == s
  {
    OrderMembers(env, env.initial, s);
    var order := Order(env, env.initial, s);
    hide Order;
    forall k | 0 <= k < |Records(env, s)|
      ensures Records(env, s)[k].usage.id.scope == s
    {
      assert order[k] in order;
      assert Belongs(env, order[k], s);
    }
  }

  /** What the direct judgement of the session's chain has come to. */
  lemma DirectTrail(env: Env, keys: seq<Scope>, s: Scope, n: nat)
    requires s in keys && Grounded(env.metadata, s, n) && Undisputed(env.metadata, s, n)
    ensures var t, rs := SettingOf(env, Resolved(env, keys), s), Records(env, s);
            SettingOk(t, rs, s) && TrailIs(t, rs, |rs|, Directly(env, s, n))
  {
    AboveIsDirect(env, keys, s, n);
    var t, rs := SettingOf(env, Resolved(env, keys), s), Records(env, s);
    DirectlyIs(env, s, n);
    hide Records, Directly, Resolved, Grounded, Undisputed, SettingOf, SettingOk, TrailIs;
    FollowedAll(t, rs, s, |rs|);
    assert rs[..|rs|] == rs;
  }

  // ----- theorems -----

  /** In every resolution each record of a sound session gets exactly the verdict of the
      table: a copy is a known duplicate of its source, a repeat shares the verdict on the
      first record of its fact, and that is set aside, unverifiable, ambiguous, uncertain
      or left as it was read, in this order. */
  lemma RecordsAreJudged(env: Env, keys: seq<Scope>, s: Scope, n: nat, i: nat) returns (k: nat)
    requires s in keys && Grounded(env.metadata, s, n) && Undisputed(env.metadata, s, n)
    requires i < |env.initial| && Belongs(env, i, s)
    ensures k < |Records(env, s)| && Records(env, s)[k] == env.initial[i]
    ensures JudgedAs(SettingOf(env, Resolved(env, keys), s), Records(env, s), k, Resolved(env, keys).items[i])
  {
    k := JudgedDirectly(env, keys, s, n, i);
    DirectTrail(env, keys, s, n);
    hide Records, Directly, Resolved, Grounded, Undisputed, SettingOf, JudgedAs, ProofsAre, SeenIs, TurnIs, PreviousIs;
  }

  /** Some snapshot precedes record j and is repeated by it or counts more. */
  ghost predicate SetAside(t: Setting, rs: seq<Candidate>, j: nat)
    requires AllCodex(rs) && j < |rs|
  {
    rs[j].codex.value.cumulative.Some? &&
    exists p :: 0 <= p < j && Precedes(t, rs, p, j) &&
      (Equals(rs[p].codex.value.cumulative.value, rs[j].codex.value.cumulative.value) ||
       Below(rs[j].codex.value.cumulative.value, rs[p].codex.value.cumulative.value))
  }

  /** A record of a sound session counts if and only if it was read without objection, is
      no copy, and the first record of its fact that is no copy, which may be itself, was
      read without objection, has a fingerprint that no ancestor proved, is not set aside,
      and in a fork is of no turn in which an ancestor proved a fact. */
  lemma ClearIff(env: Env, keys: seq<Scope>, s: Scope, n: nat, i: nat) returns (k: nat)
    requires s in keys && Grounded(env.metadata, s, n) && Undisputed(env.metadata, s, n)
    requires i < |env.initial| && Belongs(env, i, s)
    ensures k < |Records(env, s)| && Records(env, s)[k] == env.initial[i]
    ensures var t, rs := SettingOf(env, Resolved(env, keys), s), Records(env, s);
            Resolved(env, keys).items[i].code == "" <==>
              && env.initial[i].code == "" && |Sources(t, env.initial[i])| != 1
              && exists j :: 0 <= j <= k && Stands(t, rs, j) && rs[j].usage.id == env.initial[i].usage.id
                   && rs[j].code == "" && rs[j].codex.value.fingerprint != "" && |Sources(t, rs[j])| == 0
                   && !SetAside(t, rs, j) && !InAncestorsTurn(t, rs[j])
  {
    k := RecordsAreJudged(env, keys, s, n, i);
    var t, rs := SettingOf(env, Resolved(env, keys), s), Records(env, s);
    hide Records, Resolved, Grounded, Undisputed, SettingOf;
    ClearCases(t, rs, k, Resolved(env, keys).items[i]);
  }

  lemma ClearCases(t: Setting, rs: seq<Candidate>, k: nat, after: Candidate)
    requires AllCodex(rs) && k < |rs| && JudgedAs(t, rs, k, after)
    ensures after.code == "" <==>
              && rs[k].code == "" && |Sources(t, rs[k])| != 1
              && exists j :: 0 <= j <= k && Stands(t, rs, j) && rs[j].usage.id == rs[k].usage.id
                   && rs[j].code == "" && rs[j].codex.value.fingerprint != "" && |Sources(t, rs[j])| == 0
                   && !SetAside(t, rs, j) && !InAncestorsTurn(t, rs[j])
  {
    if !Copied(t, rs, k) {
      var j :| 0 <= j <= k && Stands(t, rs, j) && rs[j].usage.id == rs[k].usage.id &&
        after == rs[k].(code := if j == k || StandingCode(t, rs, j) != "" then StandingCode(t, rs, j) else rs[k].code);
      ClearStanding(t, rs, j);
      forall i | 0 <= i <= k && Stands(t, rs, i) && rs[i].usage.id == rs[k].usage.id
        ensures i == j
      {
        StandsOnce(t, rs, i, j);
      }
      hide Stands, StandingCode, SetAside, InAncestorsTurn, Sources;
    }
  }

  lemma ClearStanding(t: Setting, rs: seq<Candidate>, j: nat)
    requires AllCodex(rs) && j < |rs| && Stands(t, rs, j)
    ensures StandingCode(t, rs, j) == "" <==>
              rs[j].code == "" && rs[j].codex.value.fingerprint != "" && |Sources(t, rs[j])| == 0
              && !SetAside(t, rs, j) && !InAncestorsTurn(t, rs[j])
  {
    assert !Copied(t, rs, j);
    hide Stands, Precedes, Equals, Below, InAncestorsTurn, Sources;
  }

  /** A sound session ends with exactly what its parent has proved and, under its
      fingerprint, the fact of each of its records that stands and counts. */
  lemma ProofsAreExact(env: Env, keys: seq<Scope>, s: Scope, n: nat, f: string, id: FactId, u: Usage)
    requires s in keys && Grounded(env.metadata, s, n) && Undisputed(env.metadata, s, n)
    ensures var w := Resolved(env, keys);
            var t, rs := SettingOf(env, w, s), Records(env, s);
            Holds(ProofsOf(w, s), f, id, u) <==>
              Holds(t.above, f, id, u) ||
              (f != "" && id == u.id && exists j :: 0 <= j < |rs| && Stands(t, rs, j) && StandingCode(t, rs, j) == "" &&
                                                  rs[j].codex.value.fingerprint == f && rs[j].usage == u)
  {
    DirectTrail(env, keys, s, n);
    ProofsAreDirect(env, keys, s, n);
    hide Records, Directly, Resolved, Grounded, Undisputed, SettingOf, OutIs, SeenIs, TurnIs, PreviousIs, StandingCode, Stands;
  }

  lemma ProofsAreDirect(env: Env, keys: seq<Scope>, s: Scope, n: nat)
    requires s in keys && Grounded(env.metadata, s, n) && Undisputed(env.metadata, s, n)
    ensures ProofsOf(Resolved(env, keys), s) == Directly(env, s, n).proofs
  {
    hide WalkOk, Directly, Resolved;
    ResolvedOk(env, keys);
    WalkJudgesDirectly(env, keys);
    assert AsDirectly(env, Resolved(env, keys), s, n);
    DirectProofs(env, Resolved(env, keys), s, n);
  }

  /** The facts a record is compared with are those its proper ancestors have proved. */
  lemma SourcesAreAncestors(env: Env, keys: seq<Scope>, s: Scope, n: nat, c: Candidate, id: FactId)
    requires s in keys && Grounded(env.metadata, s, n) && Undisputed(env.metadata, s, n) && c.codex.Some?
    ensures var w := Resolved(env, keys);
            id in Sources(SettingOf(env, w, s), c) <==>
              exists k: nat, a :: k > 0 && Ancestor(env.metadata, s, a, k) && id in ProofsFor(ProofsOf(w, a), c.codex.value.fingerprint)
  {
    var w := Resolved(env, keys);
    assert Rooted(env.metadata, s);
    ResolvedOk(env, keys);
    WalkSettled(env, w, s);
    ParentOfGrounded(env, s, n);
    hide Resolved, Grounded, Undisputed, WalkOk, SettledOk, Rooted, Ancestor;
    WalkSame(env, w);
    SettledBasics(env, w, s);
    if n > 0 {
      ParentIsForeign(env, w, s);
      ParentHasNoProblem(env, w, s);
      AncestorsProved(env, w, s, env.metadata[s].parent.value, c.codex.value.fingerprint, id);
    } else {
      NoAncestors(env, s);
    }
  }

  lemma NoAncestors(env: Env, s: Scope)
    requires !Forks(env, s)
    ensures forall k: nat, a :: k > 0 ==> !Ancestor(env.metadata, s, a, k)
  {
  }

  lemma AncestorsProved(env: Env, w: Walk, s: Scope, parent: Scope, f: string, id: FactId)
    requires WalkOk(env, w) && parent in w.done && Problem(w, parent) == "" && Forks(env, s)
    requires env.metadata[s].parent == Some(parent)
    ensures id in ProofsFor(ProofsOf(w, parent), f) <==>
              exists k: nat, a :: k > 0 && Ancestor(env.metadata, s, a, k) && id in ProofsFor(ProofsOf(w, a), f)
  {
    hide WalkOk;
    if id in ProofsFor(ProofsOf(w, parent), f) {
      assert Ancestor(env.metadata, parent, parent, 0) && Ancestor(env.metadata, s, parent, 1);
    }
    if k: nat, a :| k > 0 && Ancestor(env.metadata, s, a, k) && id in ProofsFor(ProofsOf(w, a), f) {
      ProofsHandedDown(env, w, parent, a, k - 1);
      assert Holds(w.proofs[parent], f, id, w.proofs[a][f][id]);
    }
  }

  lemma ParentHasNoProblem(env: Env, w: Walk, s: Scope)
    requires |w.items| == |env.initial| && WalkOk(env, w) && s in w.done && Problem(w, s) == "" && Forks(env, s)
    ensures KnownParent(env, s).Some? && Problem(w, KnownParent(env, s).value) == ""
  {
    hide WalkOk, Foreign, Keyed, Extended, AddedBy, Rooted, SettledItems, OneOwner, Inherits;
    WalkSettled(env, w, s);
  }

  /** The records are the session's own, each once, in order of time, then of their place
      in the file, then of their evidence id. */
  lemma RecordsInTime(env: Env, s: Scope)
    requires AncestryLocality.DistinctEvidence(env)
    ensures forall c :: c in Records(env, s) <==> exists i :: 0 <= i < |env.initial| && Belongs(env, i, s) && env.initial[i] == c
    ensures forall i, k :: 0 <= i < k < |Records(env, s)| ==>
              var a, b := Records(env, s)[i], Records(env, s)[k];
              || a.usage.occurredAt < b.usage.occurredAt
              || (a.usage.occurredAt == b.usage.occurredAt && a.ordinal < b.ordinal)
              || (a.usage.occurredAt == b.usage.occurredAt && a.ordinal == b.ordinal && TextLess(a.evidence, b.evidence))
  {
    RecordsInOrder(env, s);
    var rs := Records(env, s);
    hide Records, TextLess;
    forall i, k | 0 <= i < k < |rs|
      ensures rs[i].usage.occurredAt < rs[k].usage.occurredAt
           || (rs[i].usage.occurredAt == rs[k].usage.occurredAt && rs[i].ordinal < rs[k].ordinal)
           || (rs[i].usage.occurredAt == rs[k].usage.occurredAt && rs[i].ordinal == rs[k].ordinal && TextLess(rs[i].evidence, rs[k].evidence))
    {
      TextLessTotal(rs[i].evidence, rs[k].evidence);
    }
    forall c
      ensures c in rs <==> exists i :: 0 <= i < |env.initial| && Belongs(env, i, s) && env.initial[i] == c
    {
      assert c in rs <==> c in Own(env, s);
    }
  }
}
