/** The resolver as it runs: candidates are updated in place while the walk descends. */
module AncestryResolver {
  import opened Basics
  import opened DataModel
  import opened Tokens
  import opened Candidates
  import opened Ancestry

  class Resolver {
    const env: Env
    const items: array<Candidate>
    var proofs: map<Scope, Proofs>
    var visiting: set<Scope>
    var done: set<Scope>
    var problems: map<Scope, string>

    function State(): Walk
      reads this, items
    {
      Walk(items[..], proofs, visiting, done, problems)
    }

    constructor (metadata: map<Scope, Lineage>, candidates: array<Candidate>)
      ensures env == Env(metadata, candidates[..]) && items == candidates
      ensures State() == Walk(candidates[..], map[], {}, {}, map[])
    {
      env := Env(metadata, candidates[..]);
      items := candidates;
      proofs, visiting, done, problems := map[], {}, {}, map[];
    }

    /** Visits one record: a copy of inherited history, a repeat, a stale snapshot, or
        a candidate that is judged and may become a proof. */
    method VisitItem(t: Session, i: nat, own: Proofs, previous: Option<Counts>, turn: string, seen: map<FactId, nat>)
        returns (own': Proofs, previous': Option<Counts>, turn': string, seen': map<FactId, nat>)
      requires i < items.Length && items[i].codex.Some?
      requires forall id :: id in seen ==> seen[id] < items.Length
      modifies items
      ensures Pass(items[..], own', previous', turn', seen') == Visit(t, Pass(old(items[..]), own, previous, turn, seen), i)
    {
      hide Replays, Inherited, Proved;
      own', previous', turn', seen' := own, previous, turn, seen;
      var item := items[i];
      var candidate := item.codex.value;
      var inherited := Inherited(own, candidate.fingerprint, t.scope);
      if |inherited| == 1 {
        var id :| id in inherited.Keys;
        OnlyOne(inherited, id);
        items[i] := item.(usage := inherited[id], code := "known_duplicate");
        return;
      }
      if item.usage.id in seen {
        var first := items[seen[item.usage.id]];
        if first.code != "" {
          items[i] := item.(code := first.code);
        }
        return;
      }
      seen' := seen[item.usage.id := i];
      if t.fork && candidate.turn != turn {
        previous' := None;
      }
      turn' := candidate.turn;
      if candidate.cumulative.Some? {
        if previous'.Some? && SameCounts(previous'.value, candidate.cumulative.value) {
          items[i] := item.(code := "known_duplicate");
          return;
        }
        if previous'.Some? && SnapshotSum(candidate.cumulative.value) < SnapshotSum(previous'.value) {
          items[i] := item.(code := "stale_snapshot");
          return;
        }
        previous' := candidate.cumulative;
      }
      items[i] := item.(code := Judged(item, t.fork, t.parentProofs, t.problem, |inherited|));
      own' := Proved(own, items[i]);
    }

    method VisitRecords(t: Session, start: Proofs, order: seq<nat>) returns (own: Proofs)
      requires Indexes(items[..], order)
      modifies items
      ensures var end := VisitAll(t, Pass(old(items[..]), start, None, "", map[]), order);
              own == end.proofs && items[..] == end.items
    {
      hide Visit;
      own := start;
      var previous: Option<Counts>, turn: string, seen: map<FactId, nat> := None, "", map[];
      ghost var first := Pass(items[..], start, None, "", map[]);
      var k := 0;
      while k < |order|
        invariant 0 <= k <= |order|
        invariant Pass(items[..], own, previous, turn, seen) == VisitAll(t, first, order[..k])
      {
        ghost var p := VisitAll(t, first, order[..k]);
        assert order[..k + 1][..k] == order[..k];
        assert SameRecords(first.items, p.items);
        own, previous, turn, seen := VisitItem(t, order[k], own, previous, turn, seen);
        k := k + 1;
      }
      assert order[..k] == order;
    }

    method ResolveSession(s: Scope)
      requires SameRecords(env.initial, items[..])
      modifies this`proofs, this`visiting, this`done, this`problems, items
      ensures SameRecords(env.initial, items[..])
      ensures State() == Resolve(env, old(State()), s)
      decreases |env.metadata.Keys - visiting|
    {
      hide VisitAll, Order, SameRecords;
      if s in done {
        return;
      }
      if s in visiting {
        problems := problems[s := "ancestry_cycle"];
        return;
      }
      ghost var before := State();
      visiting := visiting + {s};
      proofs := proofs[s := map[]];
      var parent := KnownParent(env, s);
      if parent.Some? {
        FewerLeft(env.metadata.Keys, before.visiting, s);
        ResolveSession(parent.value);
      }
      ghost var above := State();
      var problem := ProblemAfter(env, State(), s);
      var t := Session(s, Forks(env, s), ParentProofs(env, State(), s), problem);
      var order := Order(env, items[..], s);
      var own := VisitRecords(t, InheritedProofs(env, State(), s), order);
      proofs := proofs[s := own];
      problems := problems[s := problem];
      visiting := visiting - {s};
      done := done + {s};
      ConcludesAs(env, above, s);
      assert State() == Conclude(env, above, s);
    }

    /** Resolves every session that has usage records. */
    method ResolveAllSessions(keys: seq<Scope>)
      requires SameRecords(env.initial, items[..])
      modifies this, items
      ensures State() == ResolveAll(env, old(State()), keys)
    {
      hide Resolve, SameRecords;
      ghost var start := State();
      var k := 0;
      while k < |keys|
        invariant 0 <= k <= |keys|
        invariant SameRecords(env.initial, items[..])
        invariant State() == ResolveAll(env, start, keys[..k])
      {
        assert keys[..k + 1][..k] == keys[..k];
        ResolveSession(keys[k]);
        k := k + 1;
      }
      assert keys[..k] == keys;
    }
  }

  lemma ConcludesAs(env: Env, above: Walk, s: Scope)
    requires SameRecords(env.initial, above.items)
    ensures var end := VisitAll(SessionOf(env, above, s), Pass(above.items, InheritedProofs(env, above, s), None, "", map[]),
                                Order(env, above.items, s));
            Conclude(env, above, s) == Walk(end.items, above.proofs[s := end.proofs], above.visiting - {s}, above.done + {s},
                                            above.problems[s := ProblemAfter(env, above, s)])
  {
  }
}
