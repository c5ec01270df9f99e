/** Resolution is local: what becomes of a session whose chain is sound depends on the
    metadata and the records of that chain alone, whatever else is resolved with it, in
    whatever order and at whatever positions. */
module AncestryLocality {
  import opened Basics
  import opened DataModel
  import opened Tokens
  import opened Candidates
  import opened Ancestry
  import opened AncestryTheorems

  // ----- one session without positions -----

  /** The judged records of a session so far; seen holds what the first record of each
      fact was judged. */
  datatype Trail = Trail(out: seq<Candidate>, proofs: Proofs, previous: Option<Counts>, turn: string, seen: map<FactId, string>)

  ghost function Follow(t: Session, r: Trail, item: Candidate): Trail
    requires item.codex.Some?
  {
    var w := item.codex.value;
    var inherited := Inherited(r.proofs, w.fingerprint, t.scope);
    if |inherited| == 1 then r.(out := r.out + [item.(usage := Only(inherited), code := "known_duplicate")])
    else if item.usage.id in r.seen then
      r.(out := r.out + [if r.seen[item.usage.id] != "" then item.(code := r.seen[item.usage.id]) else item])
    else
      var previous := if t.fork && w.turn != r.turn then None else r.previous;
      if w.cumulative.Some? && previous.Some? && SameCounts(previous.value, w.cumulative.value) then
        Trail(r.out + [item.(code := "known_duplicate")], r.proofs, previous, w.turn, r.seen[item.usage.id := "known_duplicate"])
      else if w.cumulative.Some? && previous.Some? && SnapshotSum(w.cumulative.value) < SnapshotSum(previous.value) then
        Trail(r.out + [item.(code := "stale_snapshot")], r.proofs, previous, w.turn, r.seen[item.usage.id := "stale_snapshot"])
      else
        var judged := item.(code := Judged(item, t.fork, t.parentProofs, t.problem, |inherited|));
        Trail(r.out + [judged], Proved(r.proofs, judged), if w.cumulative.Some? then w.cumulative else previous, w.turn,
              r.seen[item.usage.id := judged.code])
  }

  predicate AllCodex(records: seq<Candidate>)
  {
    forall k :: 0 <= k < |records| ==> records[k].codex.Some?
  }

  ghost function FollowAll(t: Session, start: Proofs, records: seq<Candidate>): (r: Trail)
    requires AllCodex(records)
    ensures |r.out| == |records|
  {
    if records == [] then Trail([], start, None, "", map[])
    else
      var r := FollowAll(t, start, records[..|records| - 1]);
      assert |Follow(t, r, records[|records| - 1]).out| == |r.out| + 1;
      Follow(t, r, records[|records| - 1])
  }

  /** q and f continue p and r with the same judgement of the record at i. */
  predicate SameJudgement(p: Pass, r: Trail, i: nat, id: FactId, q: Pass, f: Trail)
    requires i < |p.items|
  {
    && |f.out| == |r.out| + 1 && f.out == r.out + [f.out[|r.out|]] && q.items == p.items[i := f.out[|r.out|]]
    && q.proofs == f.proofs && q.previous == f.previous && q.turn == f.turn
    && ((q.seen == p.seen && f.seen == r.seen) || (q.seen == p.seen[id := i] && f.seen == r.seen[id := f.out[|r.out|].code]))
  }

  lemma VisitFollows(t: Session, p: Pass, r: Trail, i: nat)
    requires i < |p.items| && p.items[i].codex.Some?
    requires forall id :: id in p.seen ==> p.seen[id] < |p.items|
    requires p.proofs == r.proofs && p.previous == r.previous && p.turn == r.turn
    requires p.items[i].usage.id in p.seen <==> p.items[i].usage.id in r.seen
    requires p.items[i].usage.id in p.seen ==> p.items[p.seen[p.items[i].usage.id]].code == r.seen[p.items[i].usage.id]
    ensures SameJudgement(p, r, i, p.items[i].usage.id, Visit(t, p, i), Follow(t, r, p.items[i]))
  {
    hide Inherited, Judged, Proved, SameCounts, SnapshotSum, Only;
    assert p.items[i := p.items[i]] == p.items;
  }

  /** The places judged so far hold the judgements, all others are as they were. */
  predicate Placed(items: seq<Candidate>, order: seq<nat>, now: seq<Candidate>, out: seq<Candidate>)
  {
    && |now| == |items| && |out| == |order|
    && (forall k :: 0 <= k < |order| ==> order[k] < |items| && now[order[k]] == out[k])
    && (forall i: nat :: i < |items| && i !in order ==> now[i] == items[i])
  }

  /** Both remember the same facts, and how the first record of each was judged. */
  predicate Remembered(order: seq<nat>, now: seq<Candidate>, places: map<FactId, nat>, codes: map<FactId, string>)
  {
    && places.Keys == codes.Keys
    && forall id :: id in places ==> places[id] in order && places[id] < |now| && now[places[id]].code == codes[id]
  }

  /** The pass has judged the records at the given places as the trail has. */
  predicate Simulates(items: seq<Candidate>, order: seq<nat>, p: Pass, r: Trail)
  {
    && Placed(items, order, p.items, r.out) && Remembered(order, p.items, p.seen, r.seen)
    && p.proofs == r.proofs && p.previous == r.previous && p.turn == r.turn
  }

  lemma PlacedFurther(items: seq<Candidate>, order: seq<nat>, now: seq<Candidate>, out: seq<Candidate>, i: nat, c: Candidate)
    requires Placed(items, order, now, out) && i < |items| && i !in order
    ensures Placed(items, order + [i], now[i := c], out + [c])
  {
    forall k | 0 <= k < |order| + 1
      ensures now[i := c][(order + [i])[k]] == (out + [c])[k]
    {
      if k < |order| {
        assert order[k] in order;
      }
    }
    forall j: nat | j < |items| && j !in order + [i]
      ensures now[i := c][j] == items[j]
    {
      assert (order + [i])[|order|] == i;
      assert j !in order;
    }
  }

  lemma RememberedFurther(order: seq<nat>, now: seq<Candidate>, places: map<FactId, nat>, codes: map<FactId, string>,
                          i: nat, c: Candidate, id: FactId)
    requires Remembered(order, now, places, codes) && i < |now| && i !in order
    ensures Remembered(order + [i], now[i := c], places, codes)
    ensures Remembered(order + [i], now[i := c], places[id := i], codes[id := c.code])
  {
    assert i in order + [i];
  }

  lemma JudgedAlike(items: seq<Candidate>, order: seq<nat>, p: Pass, r: Trail, i: nat, id: FactId, q: Pass, f: Trail)
    requires Simulates(items, order, p, r) && i < |items| && i !in order && SameJudgement(p, r, i, id, q, f)
    ensures Simulates(items, order + [i], q, f)
  {
    hide Placed, Remembered;
    var c := f.out[|r.out|];
    SameLengths(items, order, p, r);
    PlacedFurther(items, order, p.items, r.out, i, c);
    RememberedFurther(order, p.items, p.seen, r.seen, i, c, id);
  }

  lemma SameLengths(items: seq<Candidate>, order: seq<nat>, p: Pass, r: Trail)
    requires Simulates(items, order, p, r)
    ensures |p.items| == |items| && |r.out| == |order|
    ensures forall k :: 0 <= k < |order| ==> order[k] < |items| && p.items[order[k]] == r.out[k]
    ensures forall i: nat :: i < |items| && i !in order ==> p.items[i] == items[i]
    ensures forall id :: id in p.seen ==> id in r.seen && p.seen[id] < |items| && p.items[p.seen[id]].code == r.seen[id]
    ensures p.seen.Keys == r.seen.Keys
  {
  }

  lemma VisitSimulates(t: Session, items: seq<Candidate>, order: seq<nat>, p: Pass, r: Trail, i: nat)
    requires Simulates(items, order, p, r) && i < |items| && i !in order && items[i].codex.Some?
    ensures i < |p.items| && p.items[i].codex.Some? && (forall id :: id in p.seen ==> p.seen[id] < |p.items|)
    ensures Simulates(items, order + [i], Visit(t, p, i), Follow(t, r, items[i]))
  {
    hide Visit, Follow, SameJudgement, Placed, Remembered;
    SameLengths(items, order, p, r);
    VisitFollows(t, p, r, i);
    JudgedAlike(items, order, p, r, i, items[i].usage.id, Visit(t, p, i), Follow(t, r, items[i]));
  }

  function At(items: seq<Candidate>, order: seq<nat>): (records: seq<Candidate>)
    requires Indexes(items, order)
    ensures |records| == |order| && AllCodex(records)
    ensures forall k :: 0 <= k < |order| ==> records[k] == items[order[k]]
  {
    seq(|order|, k requires 0 <= k < |order| => items[order[k]])
  }

  lemma {:induction false} VisitAllSimulates(t: Session, items: seq<Candidate>, start: Proofs, order: seq<nat>)
    requires Indexes(items, order) && Distinct(order)
    ensures Simulates(items, order, VisitAll(t, Pass(items, start, None, "", map[]), order), FollowAll(t, start, At(items, order)))
  {
    hide Visit, Follow, Distinct, Simulates;
    if order == [] {
      NothingSimulated(items, start);
    } else {
      var front, i := order[..|order| - 1], order[|order| - 1];
      NewElement(order);
      FrontIsDistinct(order);
      assert At(items, order)[..|order| - 1] == At(items, front);
      VisitAllSimulates(t, items, start, front);
      assert front + [i] == order && i !in front by {
        assert forall k :: 0 <= k < |front| ==> front[k] in Elements(front);
      }
      VisitSimulates(t, items, front, VisitAll(t, Pass(items, start, None, "", map[]), front),
                     FollowAll(t, start, At(items, front)), i);
    }
  }

  lemma NothingSimulated(items: seq<Candidate>, start: Proofs)
    ensures Simulates(items, [], Pass(items, start, None, "", map[]), Trail([], start, None, "", map[]))
  {
  }

  lemma FrontIsDistinct(order: seq<nat>)
    requires order != [] && Distinct(order)
    ensures Distinct(order[..|order| - 1])
  {
  }

  // ----- a chain without a walk -----

  /** The session's records in the order they are judged. */
  function Records(env: Env, s: Scope): (records: seq<Candidate>)
    ensures AllCodex(records)
  {
    At(env.initial, Order(env, env.initial, s))
  }

  /** A sound session is judged against what its parent, judged likewise, has proved. */
  ghost function Directly(env: Env, s: Scope, n: nat): Trail
    requires Grounded(env.metadata, s, n)
    decreases n, 1
  {
    FollowAll(Session(s, n > 0, ProofsAbove(env, s, n), ""), ProofsAbove(env, s, n), Records(env, s))
  }

  ghost function ProofsAbove(env: Env, s: Scope, n: nat): Proofs
    requires Grounded(env.metadata, s, n)
    decreases n, 0
  {
    if n == 0 then map[] else Directly(env, env.metadata[s].parent.value, n - 1).proofs
  }

  lemma DirectlyIs(env: Env, s: Scope, n: nat)
    requires Grounded(env.metadata, s, n)
    ensures Directly(env, s, n) ==
            FollowAll(Session(s, n > 0, ProofsAbove(env, s, n), ""), ProofsAbove(env, s, n), Records(env, s))
  {
  }

  /** What the walk made of s is what judging its chain directly makes of it. */
  ghost predicate AsDirectly(env: Env, w: Walk, s: Scope, n: nat)
    requires Grounded(env.metadata, s, n)
  {
    var order, r := Order(env, env.initial, s), Directly(env, s, n);
    && |w.items| == |env.initial| && |r.out| == |order|
    && s in w.proofs && w.proofs[s] == r.proofs
    && forall k :: 0 <= k < |order| ==> order[k] < |w.items| && w.items[order[k]] == r.out[k]
  }

  ghost predicate WalkDirect(env: Env, w: Walk)
  {
    forall s, n: nat :: s in w.done && Grounded(env.metadata, s, n) && Undisputed(env.metadata, s, n) ==> AsDirectly(env, w, s, n)
  }

  // ----- the walk judges directly -----

  lemma {:induction false} InsertedSame<T(!new)>(sorted: seq<T>, x: T, before: (T, T) -> bool, other: (T, T) -> bool)
    requires forall y :: y in sorted ==> before(x, y) == other(x, y)
    ensures Inserted(sorted, x, before) == Inserted(sorted, x, other)
  {
    if sorted != [] {
      assert sorted[|sorted| - 1] in sorted;
      InsertedSame(sorted[..|sorted| - 1], x, before, other);
    }
  }

  lemma {:induction false} SortedSame<T(!new)>(s: seq<T>, before: (T, T) -> bool, other: (T, T) -> bool)
    requires forall x, y :: x in s && y in s ==> before(x, y) == other(x, y)
    ensures Sorted<T>(s, before) == Sorted<T>(s, other)
  {
    if s != [] {
      var front := s[..|s| - 1];
      assert forall y :: y in front ==> y in s;
      SortedSame<T>(front, before, other);
      SortedMembers<T>(front, before);
      assert s[|s| - 1] in s;
      forall y | y in Sorted<T>(front, before)
        ensures y in s
      {
        assert y in front;
      }
      InsertedSame<T>(Sorted<T>(front, before), s[|s| - 1], before, other);
    }
  }

  lemma OrderUnmoved(env: Env, items: seq<Candidate>, s: Scope)
    requires SameRecords(env.initial, items)
    requires forall i :: 0 <= i < |items| && Belongs(env, i, s) ==> items[i] == env.initial[i]
    ensures Order(env, items, s) == Order(env, env.initial, s)
    ensures forall k :: 0 <= k < |Order(env, items, s)| ==>
              Order(env, items, s)[k] < |items| && items[Order(env, items, s)[k]] == env.initial[Order(env, items, s)[k]]
  {
    var own := IndexesOf(env.initial, s, |env.initial|);
    forall x, y | x in own && y in own
      ensures EarlierIn(items)(x, y) == EarlierIn(env.initial)(x, y)
    {
    }
    SortedSame<nat>(own, EarlierIn(items), EarlierIn(env.initial));
    var order := Order(env, items, s);
    assert forall k :: 0 <= k < |order| ==> order[k] in order;
  }

  lemma ParentOfGrounded(env: Env, s: Scope, n: nat)
    requires Grounded(env.metadata, s, n)
    ensures s in env.metadata && (Forks(env, s) <==> n > 0)
    ensures n > 0 ==> env.metadata[s].parent.Some? && KnownParent(env, s) == env.metadata[s].parent
    ensures n == 0 ==> KnownParent(env, s).None?
  {
  }

  lemma DirectProofs(env: Env, w: Walk, s: Scope, n: nat)
    requires Grounded(env.metadata, s, n) && AsDirectly(env, w, s, n)
    ensures ProofsOf(w, s) == Directly(env, s, n).proofs
  {
    hide Directly, Order, Grounded;
  }

  lemma StartIsDirect(env: Env, above: Walk, s: Scope, n: nat)
    requires Grounded(env.metadata, s, n) && ProblemAfter(env, above, s) == ""
    requires n > 0 ==>
               !ParentFailed(above, env.metadata[s].parent.value) && ProofsOf(above, env.metadata[s].parent.value) == ProofsAbove(env, s, n)
    ensures InheritedProofs(env, above, s) == ProofsAbove(env, s, n)
    ensures SessionOf(env, above, s) == Session(s, n > 0, ProofsAbove(env, s, n), "")
  {
    ParentOfGrounded(env, s, n);
    hide Directly, ParentFailed, ProblemAfter, Grounded, ProofsOf, Forks, KnownParent;
  }

  lemma ConcludedDirectly(env: Env, above: Walk, s: Scope, n: nat)
    requires WalkOk(env, above) && s !in above.done && SameRecords(env.initial, above.items)
    requires Grounded(env.metadata, s, n) && ProblemAfter(env, above, s) == ""
    requires n > 0 ==> !ParentFailed(above, env.metadata[s].parent.value) && AsDirectly(env, above, env.metadata[s].parent.value, n - 1)
    ensures AsDirectly(env, Conclude(env, above, s), s, n)
  {
    hide WalkOk, ProblemAfter, ParentFailed, AsDirectly, Order, Conclude, VisitAll, FollowAll, InheritedProofs, Simulates, Directly,
         Visited;
    WalkItems(env, above, s);
    if n > 0 {
      DirectProofs(env, above, env.metadata[s].parent.value, n - 1);
    }
    StartIsDirect(env, above, s, n);
    ConcludedShape(env, above, s);
    VisitedIs(env, above, s);
    OrderUnmoved(env, above.items, s);
    OrderIsDistinct(env, above.items, s);
    var order, t := Order(env, above.items, s), SessionOf(env, above, s);
    var start := InheritedProofs(env, above, s);
    VisitAllSimulates(t, above.items, start, order);
    assert At(above.items, order) == Records(env, s);
    DirectlyIs(env, s, n);
    PlacesAgree(env, above.items, order, Visited(env, above, s), Directly(env, s, n), Conclude(env, above, s), s, n);
  }

  lemma PlacesAgree(env: Env, items: seq<Candidate>, order: seq<nat>, p: Pass, r: Trail, w: Walk, s: Scope, n: nat)
    requires Grounded(env.metadata, s, n) && r == Directly(env, s, n) && order == Order(env, env.initial, s)
    requires Simulates(items, order, p, r) && |items| == |env.initial| && w.items == p.items
    requires s in w.proofs && w.proofs[s] == p.proofs
    ensures AsDirectly(env, w, s, n)
  {
    hide Directly, Order, Remembered;
  }

  lemma StaysDirect(env: Env, w: Walk, w': Walk, s: Scope, n: nat)
    requires |w.items| == |w'.items| == |env.initial| && Keeps(env, w, w') && s in w.done
    requires Grounded(env.metadata, s, n) && AsDirectly(env, w, s, n)
    ensures AsDirectly(env, w', s, n)
  {
    var order := Order(env, env.initial, s);
    assert forall k :: 0 <= k < |order| ==> order[k] in order;
    hide Directly, Order, Grounded;
  }

  lemma ConcludeKeepsDirect(env: Env, above: Walk, s: Scope)
    requires Ready(env, above, s) && s !in above.done && SameRecords(env.initial, above.items) && WalkDirect(env, above)
    ensures WalkDirect(env, Conclude(env, above, s))
  {
    hide Conclude, AsDirectly, SettledOk, Grounded, Keeps, Known, Ready;
    var w' := Conclude(env, above, s);
    ReadyWalk(env, above, s);
    ConcludedShape(env, above, s);
    ConcludeKeepsWalk(env, above, s);
    WalkSame(env, above);
    WalkSame(env, w');
    hide WalkOk;
    forall r, n: nat | r in w'.done && Grounded(env.metadata, r, n) && Undisputed(env.metadata, r, n)
      ensures AsDirectly(env, w', r, n)
    {
      if r != s {
        StaysDirect(env, above, w', r, n);
      } else {
        SoundIsDirect(env, above, s, n);
      }
    }
  }

  lemma SoundIsDirect(env: Env, above: Walk, s: Scope, n: nat)
    requires Ready(env, above, s) && s !in above.done && SameRecords(env.initial, above.items) && WalkDirect(env, above)
    requires Grounded(env.metadata, s, n) && Undisputed(env.metadata, s, n)
    ensures AsDirectly(env, Conclude(env, above, s), s, n)
  {
    assert n > 0 ==> KnownParent(env, s) == env.metadata[s].parent && Forks(env, s);
    assert Rooted(env.metadata, s);
    hide Conclude, AsDirectly, SettledOk, Known, KnownParent, ProblemAfter, Rooted, ParentFailed;
    ReadyWalk(env, above, s);
    ProblemIffNotRooted(env, above, s);
    if n > 0 {
      ParentResolved(env, above, s);
      assert AsDirectly(env, above, env.metadata[s].parent.value, n - 1);
    }
    hide WalkOk, Ready;
    ConcludedDirectly(env, above, s, n);
  }

  lemma {:induction false} ResolveKeepsDirect(env: Env, w: Walk, s: Scope)
    requires SameRecords(env.initial, w.items) && WalkOk(env, w) && AllDeeper(env, w, s) && WalkDirect(env, w)
    ensures WalkDirect(env, Resolve(env, w, s))
    decreases |env.metadata.Keys - w.visiting|
  {
    hide WalkOk, Grounded, KnownParent, Conclude, ProblemAfter, Ready, AllDeeper, Keeps, Quiet, AsDirectly;
    if s !in w.done && s !in w.visiting {
      var entered := Entered(w, s);
      EnterKeepsWalk(env, w, s);
      NoProblemYet(env, w, s);
      EnteredDirect(env, w, s);
      var above := entered;
      if KnownParent(env, s).Some? {
        ParentIsDescribed(env, s);
        FewerLeft(env.metadata.Keys, w.visiting, s);
        DeeperStill(env, w, s);
        ResolveKeepsWalk(env, entered, KnownParent(env, s).value);
        ResolveKeepsDirect(env, entered, KnownParent(env, s).value);
        above := Resolve(env, entered, KnownParent(env, s).value);
      }
      hide WalkDirect;
      AboveIsReady(env, w, above, s);
      WalkSame(env, above);
      NotYetDone(env, above, s);
      ConcludeKeepsDirect(env, above, s);
    } else {
      SameProofsDirect(env, w, Resolve(env, w, s));
    }
  }

  /** Only items, proofs and what is done matter. */
  lemma SameProofsDirect(env: Env, w: Walk, w': Walk)
    requires WalkDirect(env, w) && w'.items == w.items && w'.proofs == w.proofs && w'.done == w.done
    ensures WalkDirect(env, w')
  {
    hide Directly, Order, Grounded, Undisputed;
    forall s, n: nat | s in w'.done && Grounded(env.metadata, s, n) && Undisputed(env.metadata, s, n)
      ensures AsDirectly(env, w', s, n)
    {
      assert AsDirectly(env, w, s, n);
    }
  }

  lemma EnteredDirect(env: Env, w: Walk, s: Scope)
    requires WalkOk(env, w) && WalkDirect(env, w) && s !in w.done
    ensures WalkDirect(env, Entered(w, s))
  {
    WalkSame(env, w);
    hide WalkOk, Directly, Order, Grounded, Undisputed;
    forall r, n: nat | r in w.done && Grounded(env.metadata, r, n) && Undisputed(env.metadata, r, n)
      ensures AsDirectly(env, Entered(w, s), r, n)
    {
      assert AsDirectly(env, w, r, n);
    }
  }

  /** The memoised depth-first walk judges every sound session as its chain, followed
      directly from the root down, does. */
  lemma {:induction false} WalkJudgesDirectly(env: Env, keys: seq<Scope>)
    ensures WalkDirect(env, Resolved(env, keys))
  {
    hide WalkOk, Resolve, SettledOk, AsDirectly;
    if keys != [] {
      var front := keys[..|keys| - 1];
      WalkJudgesDirectly(env, front);
      ResolvedOk(env, front);
      ResolveKeepsDirect(env, Resolved(env, front), keys[|keys| - 1]);
    }
  }

  // ----- only the chain matters -----

  /** What the session's records are, without their positions. */
  function Own(env: Env, s: Scope): set<Candidate>
  {
    set i | 0 <= i < |env.initial| && Belongs(env, i, s) :: env.initial[i]
  }

  predicate DistinctEvidence(env: Env)
  {
    forall i, k :: 0 <= i < k < |env.initial| ==> env.initial[i].evidence != env.initial[k].evidence
  }

  /** Both environments say the same of the session and of its ancestors. */
  predicate SameChain(a: Env, b: Env, s: Scope, n: nat)
    requires Grounded(a.metadata, s, n)
    decreases n
  {
    && s in b.metadata && b.metadata[s] == a.metadata[s] && Own(a, s) == Own(b, s)
    && (n > 0 ==> SameChain(a, b, a.metadata[s].parent.value, n - 1))
  }

  lemma EarlierIsStrict(a: Candidate, b: Candidate, c: Candidate)
    ensures Earlier(a, b) ==> !Earlier(b, a)
    ensures Earlier(a, b) && Earlier(b, c) ==> Earlier(a, c)
    ensures Earlier(a, c) ==> Earlier(a, b) || Earlier(b, c)
    ensures !Earlier(a, b) && !Earlier(b, a) ==> a.evidence == b.evidence
  {
    TextLessIrreflexive(a.evidence);
    TextLessTotal(a.evidence, b.evidence);
    TextLessTotal(b.evidence, c.evidence);
    if TextLess(a.evidence, b.evidence) && TextLess(b.evidence, a.evidence) {
      TextLessTransitive(a.evidence, b.evidence, a.evidence);
    }
    if TextLess(a.evidence, b.evidence) && TextLess(b.evidence, c.evidence) {
      TextLessTransitive(a.evidence, b.evidence, c.evidence);
    }
    if TextLess(a.evidence, c.evidence) && TextLess(c.evidence, b.evidence) {
      TextLessTransitive(a.evidence, c.evidence, b.evidence);
    }
    hide TextLess;
  }

  /** The order of the sort on every number, so that it is a strict order. */
  function EarlierAnywhere(items: seq<Candidate>): (nat, nat) -> bool
    requires items != []
  {
    (i: nat, k: nat) => Earlier(items[if i < |items| then i else 0], items[if k < |items| then k else 0])
  }

  lemma EarlierAnywhereIsStrict(items: seq<Candidate>)
    requires items != []
    ensures StrictOrder(EarlierAnywhere(items))
  {
    hide Earlier;
    forall a: nat, b: nat, c: nat
      ensures var before := EarlierAnywhere(items);
              && (before(a, b) ==> !before(b, a))
              && (before(a, b) && before(b, c) ==> before(a, c))
              && (before(a, c) ==> before(a, b) || before(b, c))
    {
      EarlierIsStrict(items[if a < |items| then a else 0], items[if b < |items| then b else 0], items[if c < |items| then c else 0]);
    }
  }

  /** No later record comes before an earlier one, and none comes twice. */
  predicate InOrder(records: seq<Candidate>)
  {
    forall i, k :: 0 <= i < k < |records| ==> !Earlier(records[k], records[i]) && records[i].evidence != records[k].evidence
  }

  lemma OrderIsSorted(env: Env, s: Scope)
    ensures var order := Order(env, env.initial, s);
            forall i, k :: 0 <= i < k < |order| ==>
              order[i] < |env.initial| && order[k] < |env.initial| && order[i] != order[k] &&
              !Earlier(env.initial[order[k]], env.initial[order[i]])
  {
    var own, order := IndexesOf(env.initial, s, |env.initial|), Order(env, env.initial, s);
    OrderIsDistinct(env, env.initial, s);
    assert Indexes(env.initial, order);
    if env.initial != [] {
      EarlierAnywhereIsStrict(env.initial);
      hide Earlier, StrictOrder;
      SortedSame<nat>(own, EarlierIn(env.initial), EarlierAnywhere(env.initial));
      SortedIsOrdered<nat>(own, EarlierAnywhere(env.initial));
      assert order == Sorted<nat>(own, EarlierAnywhere(env.initial));
      hide Order, Sorted, IndexesOf;
      forall i, k | 0 <= i < k < |order|
        ensures !Earlier(env.initial[order[k]], env.initial[order[i]])
      {
        assert !EarlierAnywhere(env.initial)(order[k], order[i]);
      }
    }
  }

  lemma RecordsAreOwn(env: Env, s: Scope, c: Candidate)
    ensures c in Records(env, s) <==> c in Own(env, s)
  {
    OrderMembers(env, env.initial, s);
    hide Order;
    var order := Order(env, env.initial, s);
    if c in Own(env, s) {
      var i :| 0 <= i < |env.initial| && Belongs(env, i, s) && env.initial[i] == c;
      assert i in order;
      var k :| 0 <= k < |order| && order[k] == i;
      assert Records(env, s)[k] == c;
    }
    if c in Records(env, s) {
      var k :| 0 <= k < |order| && Records(env, s)[k] == c;
      assert order[k] in order;
    }
  }

  lemma RecordsInOrder(env: Env, s: Scope)
    requires DistinctEvidence(env)
    ensures InOrder(Records(env, s))
    ensures forall c :: c in Records(env, s) <==> c in Own(env, s)
  {
    forall c
      ensures c in Records(env, s) <==> c in Own(env, s)
    {
      RecordsAreOwn(env, s, c);
    }
    OrderIsSorted(env, s);
    hide Earlier, Order, Own;
  }

  /** An ordered list without repetition is determined by its members. */
  lemma {:induction false} SameMembersSameList(a: seq<Candidate>, b: seq<Candidate>)
    requires InOrder(a) && InOrder(b) && forall c :: c in a <==> c in b
    ensures a == b
  {
    assert a != [] ==> a[0] in a;
    assert b != [] ==> b[0] in b;
    hide InOrder;
    if a != [] {
      SameFirst(a, b);
      forall c
        ensures c in a[1..] <==> c in b[1..]
      {
        RestMembers(a, c);
        RestMembers(b, c);
      }
      RestInOrder(a);
      RestInOrder(b);
      SameMembersSameList(a[1..], b[1..]);
      assert a == [a[0]] + a[1..] && b == [b[0]] + b[1..];
    }
  }

  lemma RestInOrder(a: seq<Candidate>)
    requires a != [] && InOrder(a)
    ensures InOrder(a[1..])
  {
    hide Earlier;
  }

  lemma SameFirst(a: seq<Candidate>, b: seq<Candidate>)
    requires a != [] && b != [] && InOrder(a) && InOrder(b) && a[0] in b && b[0] in a
    ensures a[0] == b[0]
  {
    var j :| 0 <= j < |b| && b[j] == a[0];
    var k :| 0 <= k < |a| && a[k] == b[0];
    EarlierIsStrict(a[0], b[0], a[0]);
    hide Earlier;
  }

  lemma RestMembers(a: seq<Candidate>, c: Candidate)
    requires a != [] && InOrder(a)
    ensures c in a[1..] <==> c in a && c != a[0]
  {
    hide Earlier;
    if c in a && c != a[0] {
      var k :| 0 <= k < |a| && a[k] == c;
      assert a[1..][k - 1] == c;
    }
    if c in a[1..] {
      var k :| 0 <= k < |a[1..]| && a[1..][k] == c;
      assert a[k + 1] == c && a[0].evidence != a[k + 1].evidence;
    }
  }

  lemma {:induction false} ChainIsDirect(a: Env, b: Env, s: Scope, n: nat)
    requires Grounded(a.metadata, s, n) && SameChain(a, b, s, n) && DistinctEvidence(a) && DistinctEvidence(b)
    ensures Grounded(b.metadata, s, n) && Directly(b, s, n) == Directly(a, s, n)
    ensures Undisputed(a.metadata, s, n) ==> Undisputed(b.metadata, s, n)
    ensures Records(a, s) == Records(b, s)
    decreases n
  {
    RecordsInOrder(a, s);
    RecordsInOrder(b, s);
    SameMembersSameList(Records(a, s), Records(b, s));
    hide Records, FollowAll, Own, InOrder, DistinctEvidence;
    if n > 0 {
      ChainIsDirect(a, b, a.metadata[s].parent.value, n - 1);
    }
  }

  /** What becomes of a record of a sound session is decided by its chain alone: the same
      in any two resolutions that agree on the metadata and the records of that chain,
      whatever else they resolve, in whatever order, and wherever the record stands. */
  lemma ResolutionIsLocal(a: Env, aKeys: seq<Scope>, b: Env, bKeys: seq<Scope>, s: Scope, n: nat, i: nat, k: nat)
    requires s in aKeys && s in bKeys && DistinctEvidence(a) && DistinctEvidence(b)
    requires Grounded(a.metadata, s, n) && Undisputed(a.metadata, s, n) && SameChain(a, b, s, n)
    requires i < |a.initial| && k < |b.initial| && Belongs(a, i, s) && Belongs(b, k, s) && a.initial[i].evidence == b.initial[k].evidence
    ensures Resolved(a, aKeys).items[i] == Resolved(b, bKeys).items[k]
    ensures ProofsOf(Resolved(a, aKeys), s) == ProofsOf(Resolved(b, bKeys), s)
  {
    ChainIsDirect(a, b, s, n);
    var x := JudgedDirectly(a, aKeys, s, n, i);
    var y := JudgedDirectly(b, bKeys, s, n, k);
    hide Directly, Resolved, SameChain, Grounded;
    RecordsInOrder(a, s);
    hide Records;
    assert x == y;
  }

  /** The record at place i, found among the session's records. */
  lemma JudgedDirectly(env: Env, keys: seq<Scope>, s: Scope, n: nat, i: nat) returns (k: nat)
    requires s in keys && Grounded(env.metadata, s, n) && Undisputed(env.metadata, s, n)
    requires i < |env.initial| && Belongs(env, i, s)
    ensures k < |Records(env, s)| == |Directly(env, s, n).out| && Records(env, s)[k] == env.initial[i]
    ensures Resolved(env, keys).items[i] == Directly(env, s, n).out[k]
    ensures ProofsOf(Resolved(env, keys), s) == Directly(env, s, n).proofs
  {
    hide Order, WalkOk, Directly, Resolved, Grounded, Undisputed;
    ResolvedOk(env, keys);
    WalkJudgesDirectly(env, keys);
    assert AsDirectly(env, Resolved(env, keys), s, n);
    hide WalkDirect;
    OrderMembers(env, env.initial, s);
    var order := Order(env, env.initial, s);
    assert i in order;
    k :| 0 <= k < |order| && order[k] == i;
  }
}
