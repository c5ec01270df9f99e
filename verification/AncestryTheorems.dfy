/** What resolving the ancestry guarantees on every parent graph, cyclic ones included. */
module AncestryTheorems {
  import opened Basics
  import opened DataModel
  import opened Tokens
  import opened Candidates
  import opened Ancestry

  // ----- proofs -----

  /** The fact was reported by some record before resolution. */
  predicate Known(env: Env, u: Usage)
  {
    exists i :: 0 <= i < |env.initial| && env.initial[i].usage == u
  }

  predicate OneOwner(proofs: Proofs)
  {
    forall f, a, b :: f in proofs && a in proofs[f] && b in proofs[f] ==> proofs[f][a].id.scope == proofs[f][b].id.scope
  }

  predicate Keyed(env: Env, proofs: Proofs)
  {
    forall f, id :: f in proofs && id in proofs[f] ==> proofs[f][id].id == id && Known(env, proofs[f][id])
  }

  predicate Holds(proofs: Proofs, f: string, id: FactId, u: Usage)
  {
    f in proofs && id in proofs[f] && proofs[f][id] == u
  }

  /** Everything proved in a is still proved in b. */
  predicate Extended(a: Proofs, b: Proofs)
  {
    forall f, id :: f in a && id in a[f] ==> Holds(b, f, id, a[f][id])
  }

  /** Whatever b adds to a was proved by session s. */
  predicate AddedBy(a: Proofs, b: Proofs, s: Scope)
  {
    forall f, id :: f in b && id in b[f] ==> Holds(a, f, id, b[f][id]) || b[f][id].id.scope == s
  }

  predicate Foreign(proofs: Proofs, s: Scope)
  {
    forall f, id :: f in proofs && id in proofs[f] ==> proofs[f][id].id.scope != s
  }

  // ----- one session's records -----

  /** A record keeps its fact, unless exactly one fact of another session of the chain
      carries its fingerprint: then it is a copy of that one. */
  ghost predicate FactKept(s: Scope, proofs: Proofs, before: Candidate, after: Candidate)
    requires before.codex.Some?
  {
    var inherited := Inherited(proofs, before.codex.value.fingerprint, s);
    if |inherited| == 1 then after.code == "known_duplicate" && after.usage == Only(inherited) else after.usage == before.usage
  }

  ghost predicate ItemsOk(env: Env, t: Session, start: Pass, p: Pass, visited: set<nat>)
    requires |p.items| == |start.items|
  {
    && (forall i :: 0 <= i < |p.items| && i !in visited ==> p.items[i] == start.items[i])
    && (forall i :: 0 <= i < |p.items| && i in visited ==>
          && (p.items[i].code == "" ==> t.problem == "")
          && start.items[i].codex.Some? && FactKept(t.scope, start.proofs, start.items[i], p.items[i]))
    && (forall i :: 0 <= i < |p.items| ==> Known(env, p.items[i].usage))
    && (forall id :: id in p.seen ==> p.seen[id] in visited && p.seen[id] < |p.items|)
  }

  predicate ProofsOk(env: Env, t: Session, start: Pass, p: Pass)
  {
    && Keyed(env, p.proofs) && OneOwner(p.proofs) && Foreign(start.proofs, t.scope)
    && Extended(start.proofs, p.proofs) && AddedBy(start.proofs, p.proofs, t.scope)
    && (t.problem != "" ==> Foreign(p.proofs, t.scope))
  }

  lemma NothingInherited(proofs: Proofs, fingerprint: string, s: Scope)
    requires |Inherited(proofs, fingerprint, s)| == 0
    ensures forall id :: fingerprint in proofs && id in proofs[fingerprint] ==> proofs[fingerprint][id].id.scope == s
  {
    var inherited := Inherited(proofs, fingerprint, s);
    assert inherited == map[];
    forall id | fingerprint in proofs && id in proofs[fingerprint]
      ensures proofs[fingerprint][id].id.scope == s
    {
      assert id !in inherited;
    }
  }

  lemma NotProved(proofs: Proofs, item: Candidate)
    requires item.codex.Some? && (item.code != "" || item.codex.value.fingerprint == "")
    ensures Proved(proofs, item) == proofs
  {
  }

  lemma ProvedShape(proofs: Proofs, item: Candidate)
    requires item.codex.Some? && item.code == "" && item.codex.value.fingerprint != ""
    ensures var q, f := Proved(proofs, item), item.codex.value.fingerprint;
            && Holds(q, f, item.usage.id, item.usage)
            && (forall g, id :: g in q && id in q[g] ==>
                  (g == f && id == item.usage.id && q[g][id] == item.usage) || Holds(proofs, g, id, q[g][id]))
            && (forall g, id :: g in proofs && id in proofs[g] && !(g == f && id == item.usage.id) ==> Holds(q, g, id, proofs[g][id]))
  {
  }

  /** What was inherited is not displaced: its identities belong to other sessions. */
  lemma ForeignKept(t: Session, start: Proofs, proofs: Proofs, q: Proofs, item: Candidate)
    requires Extended(start, proofs) && Foreign(start, t.scope) && item.usage.id.scope == t.scope && item.codex.Some?
    requires forall f, id :: f in proofs && id in proofs[f] ==> proofs[f][id].id == id
    requires forall g, id :: g in proofs && id in proofs[g] && !(g == item.codex.value.fingerprint && id == item.usage.id) ==>
               Holds(q, g, id, proofs[g][id])
    ensures Extended(start, q)
  {
    forall g, id | g in start && id in start[g]
      ensures Holds(q, g, id, start[g][id])
    {
      assert Holds(proofs, g, id, start[g][id]);
    }
  }

  /** A proof is added only where no other session has one. */
  lemma ProvedKeepsProofs(env: Env, t: Session, start: Pass, p: Pass, q: Pass, item: Candidate)
    requires ProofsOk(env, t, start, p) && item.codex.Some? && q.proofs == Proved(p.proofs, item)
    requires Known(env, item.usage) && item.usage.id.scope == t.scope
    requires item.code == "" ==> t.problem == "" && |Inherited(p.proofs, item.codex.value.fingerprint, t.scope)| == 0
    ensures ProofsOk(env, t, start, q)
  {
    hide Known, Inherited, Proved;
    var f := item.codex.value.fingerprint;
    if item.code != "" || f == "" {
      NotProved(p.proofs, item);
    }
    if item.code == "" && f != "" {
      NothingInherited(p.proofs, f, t.scope);
      ProvedShape(p.proofs, item);
      ForeignKept(t, start.proofs, p.proofs, q.proofs, item);
    }
  }

  lemma VisitKeepsProofs(env: Env, t: Session, start: Pass, p: Pass, i: nat)
    requires ProofsOk(env, t, start, p) && i < |p.items| && p.items[i].codex.Some?
    requires forall id :: id in p.seen ==> p.seen[id] < |p.items|
    requires p.items[i].usage.id.scope == t.scope && Known(env, p.items[i].usage)
    ensures ProofsOk(env, t, start, Visit(t, p, i))
  {
    hide ProofsOk, Known, Inherited, Replays;
    var item, q := p.items[i], Visit(t, p, i);
    if q.proofs == p.proofs {
      SameProofs(env, t, start, p, q);
    } else {
      var others := |Inherited(p.proofs, item.codex.value.fingerprint, t.scope)|;
      ProvedKeepsProofs(env, t, start, p, q, item.(code := Judged(item, t.fork, t.parentProofs, t.problem, others)));
    }
  }

  lemma SameProofs(env: Env, t: Session, start: Pass, p: Pass, q: Pass)
    requires ProofsOk(env, t, start, p) && q.proofs == p.proofs
    ensures ProofsOk(env, t, start, q)
  {
  }

  lemma InheritedFact(env: Env, t: Session, start: Pass, p: Pass, fingerprint: string)
    requires ProofsOk(env, t, start, p) && |Inherited(p.proofs, fingerprint, t.scope)| == 1
    ensures var u := Only(Inherited(p.proofs, fingerprint, t.scope));
            u.id.scope != t.scope && Holds(start.proofs, fingerprint, u.id, u) && Known(env, u)
  {
    var inherited := Inherited(p.proofs, fingerprint, t.scope);
    hide Known;
    var id :| id in inherited.Keys && Only(inherited) == inherited[id];
    assert p.proofs[fingerprint][id].id == id;
  }

  lemma VisitShape(t: Session, p: Pass, i: nat)
    requires i < |p.items| && p.items[i].codex.Some?
    requires forall id :: id in p.seen ==> p.seen[id] < |p.items|
    ensures var q, item := Visit(t, p, i), p.items[i];
            var inherited := Inherited(p.proofs, item.codex.value.fingerprint, t.scope);
            && |q.items| == |p.items| && q.items == p.items[i := q.items[i]]
            && (forall id :: id in q.seen ==> q.seen[id] == i || (id in p.seen && q.seen[id] == p.seen[id]))
            && (if |inherited| == 1 then q.items[i].usage == Only(inherited) && q.items[i].code == "known_duplicate"
                else q.items[i].usage == item.usage)
            && (q.items[i].code == "" && t.problem != "" ==> item.usage.id in p.seen && p.items[p.seen[item.usage.id]].code == "")
  {
    hide Inherited, Replays, Only;
  }

  /** Visiting adds only the session's own facts, so what it inherits stays the same. */
  lemma SameInherited(env: Env, t: Session, start: Pass, p: Pass, f: string)
    requires ProofsOk(env, t, start, p)
    ensures Inherited(p.proofs, f, t.scope) == Inherited(start.proofs, f, t.scope)
  {
    SameForeign(start.proofs, p.proofs, f, t.scope);
  }

  lemma SameForeign(start: Proofs, end: Proofs, f: string, s: Scope)
    requires Foreign(start, s) && Extended(start, end) && AddedBy(start, end, s)
    ensures Inherited(end, f, s) == Inherited(start, f, s)
  {
    var a, b := Inherited(start, f, s), Inherited(end, f, s);
    forall id
      ensures id in a <==> id in b
      ensures id in a && id in b ==> a[id] == b[id]
    {
      assert id in a ==> Holds(end, f, id, start[f][id]);
    }
  }

  lemma VisitKeepsItems(env: Env, t: Session, start: Pass, p: Pass, visited: set<nat>, i: nat)
    requires |p.items| == |start.items| && ItemsOk(env, t, start, p, visited) && ProofsOk(env, t, start, p)
    requires i < |p.items| && p.items[i].codex.Some? && i !in visited
    ensures ItemsOk(env, t, start, Visit(t, p, i), visited + {i})
  {
    hide ProofsOk, Known, Inherited, Visit, Holds, Only;
    var fingerprint := p.items[i].codex.value.fingerprint;
    if |Inherited(p.proofs, fingerprint, t.scope)| == 1 {
      InheritedFact(env, t, start, p, fingerprint);
    }
    SameInherited(env, t, start, p, fingerprint);
    VisitShape(t, p, i);
  }

  lemma VisitKeeps(env: Env, t: Session, start: Pass, p: Pass, visited: set<nat>, i: nat)
    requires |p.items| == |start.items| && ItemsOk(env, t, start, p, visited) && ProofsOk(env, t, start, p)
    requires i < |p.items| && p.items[i].codex.Some? && i !in visited && start.items[i].usage.id.scope == t.scope
    ensures ItemsOk(env, t, start, Visit(t, p, i), visited + {i}) && ProofsOk(env, t, start, Visit(t, p, i))
  {
    hide ProofsOk, Known, Visit, FactKept;
    VisitKeepsItems(env, t, start, p, visited, i);
    VisitKeepsProofs(env, t, start, p, i);
  }

  predicate Distinct(s: seq<nat>)
  {
    forall k, l :: 0 <= k < l < |s| ==> s[k] != s[l]
  }

  function Elements(s: seq<nat>): set<nat>
  {
    set i | i in s
  }

  lemma {:induction false} VisitAllKeeps(env: Env, t: Session, start: Pass, order: seq<nat>)
    requires Indexes(start.items, order) && start.seen == map[] && Distinct(order)
    requires forall i :: i in order ==> start.items[i].usage.id.scope == t.scope
    requires forall i :: 0 <= i < |start.items| ==> Known(env, start.items[i].usage)
    requires ProofsOk(env, t, start, start)
    ensures ItemsOk(env, t, start, VisitAll(t, start, order), Elements(order))
    ensures ProofsOk(env, t, start, VisitAll(t, start, order))
  {
    if order != [] {
      var front, i := order[..|order| - 1], order[|order| - 1];
      VisitAllKeeps(env, t, start, front);
      NewElement(order);
      IndexInOrder(start.items, order);
      hide *;
      VisitKeeps(env, t, start, VisitAll(t, start, front), Elements(front), i);
      VisitAllUnfolds(t, start, order);
    }
  }

  lemma NewElement(order: seq<nat>)
    requires order != [] && Distinct(order)
    ensures Elements(order) == Elements(order[..|order| - 1]) + {order[|order| - 1]}
    ensures order[|order| - 1] !in Elements(order[..|order| - 1]) && order[|order| - 1] in order
  {
  }

  lemma IndexInOrder(items: seq<Candidate>, order: seq<nat>)
    requires Indexes(items, order) && order != []
    ensures order[|order| - 1] < |items| && items[order[|order| - 1]].codex.Some?
  {
  }

  lemma VisitAllUnfolds(t: Session, p: Pass, order: seq<nat>)
    requires Indexes(p.items, order) && order != []
    requires forall id :: id in p.seen ==> p.seen[id] < |p.items|
    ensures Indexes(p.items, order[..|order| - 1])
    ensures VisitAll(t, p, order) == Visit(t, VisitAll(t, p, order[..|order| - 1]), order[|order| - 1])
  {
  }

  lemma {:induction false} IndexesRise(items: seq<Candidate>, s: Scope, n: nat)
    requires n <= |items|
    ensures Distinct(IndexesOf(items, s, n))
  {
    if n > 0 {
      IndexesRise(items, s, n - 1);
    }
  }

  lemma {:induction false} DistinctCounts(s: seq<nat>, x: nat)
    requires Distinct(s)
    ensures multiset(s)[x] <= 1
  {
    if s != [] {
      var front, last := s[..|s| - 1], s[|s| - 1];
      DistinctCounts(front, x);
      assert s == front + [last];
      if x == last {
        assert x !in front;
        assert x !in multiset(front);
      }
    }
  }

  lemma CountsDistinct(s: seq<nat>)
    requires forall x :: multiset(s)[x] <= 1
    ensures Distinct(s)
  {
    forall k, l | 0 <= k < l < |s|
      ensures s[k] != s[l]
    {
      assert s == s[..l] + s[l..];
      assert multiset(s)[s[l]] == multiset(s[..l])[s[l]] + multiset(s[l..])[s[l]];
      assert s[l] == s[l..][0] && multiset(s[l..])[s[l]] >= 1;
      assert s[l] !in multiset(s[..l]);
      assert s[k] == s[..l][k];
    }
  }

  lemma OrderIsDistinct(env: Env, items: seq<Candidate>, s: Scope)
    requires SameRecords(env.initial, items)
    ensures Distinct(Order(env, items, s))
  {
    var own := IndexesOf(env.initial, s, |env.initial|);
    IndexesRise(env.initial, s, |env.initial|);
    SortedHolds<nat>(own, EarlierIn(items));
    forall x
      ensures multiset(Order(env, items, s))[x] <= 1
    {
      DistinctCounts(own, x);
    }
    CountsDistinct(Order(env, items, s));
  }

  // ----- the walk -----

  predicate Belongs(env: Env, i: nat, s: Scope)
    requires i < |env.initial|
  {
    env.initial[i].codex.Some? && env.initial[i].usage.id.scope == s
  }

  /** The parent whose proofs a resolved session builds on. */
  predicate BuildsOn(env: Env, w: Walk, s: Scope, parent: Scope)
    requires s in w.proofs
  {
    && KnownParent(env, s) == Some(parent) && parent in w.done && parent in w.proofs && Problem(w, parent) == ""
    && Extended(w.proofs[parent], w.proofs[s]) && AddedBy(w.proofs[parent], w.proofs[s], s) && Foreign(w.proofs[parent], s)
  }

  /** A session's proofs are its own and at most its parent's. */
  predicate Inherits(env: Env, w: Walk, s: Scope)
    requires s in w.proofs
  {
    || AddedBy(map[], w.proofs[s], s)
    || (KnownParent(env, s).Some? && KnownParent(env, s).value in w.done && KnownParent(env, s).value in w.proofs &&
        Problem(w, KnownParent(env, s).value) == "" && AddedBy(w.proofs[KnownParent(env, s).value], w.proofs[s], s))
  }

  ghost predicate SettledItems(env: Env, w: Walk, s: Scope)
    requires |w.items| == |env.initial| && s in w.proofs
  {
    forall i :: 0 <= i < |w.items| && Belongs(env, i, s) ==>
      && (w.items[i].code == "" ==> Problem(w, s) == "")
      && FactKept(s, w.proofs[s], env.initial[i], w.items[i])
  }

  ghost predicate SettledOk(env: Env, w: Walk, s: Scope)
    requires |w.items| == |env.initial|
  {
    && s in w.proofs && OneOwner(w.proofs[s]) && Keyed(env, w.proofs[s])
    && (Problem(w, s) == "" <==> Rooted(env.metadata, s))
    && (Problem(w, s) != "" ==> Foreign(w.proofs[s], s))
    && (Problem(w, s) == "" && Forks(env, s) ==> KnownParent(env, s).Some? && BuildsOn(env, w, s, KnownParent(env, s).value))
    && (Problem(w, s) == "" && !Forks(env, s) ==> AddedBy(map[], w.proofs[s], s))
    && SettledItems(env, w, s) && Inherits(env, w, s)
  }

  ghost predicate WalkOk(env: Env, w: Walk)
  {
    && SameRecords(env.initial, w.items)
    && (forall i :: 0 <= i < |w.items| ==> Known(env, w.items[i].usage))
    && (forall i :: 0 <= i < |w.items| && (env.initial[i].codex.None? || env.initial[i].usage.id.scope !in w.done) ==>
          w.items[i] == env.initial[i])
    && (forall s :: s in w.problems ==> s in w.done || s in w.visiting)
    && w.done !! w.visiting
    && (forall s :: s in w.done ==> SettledOk(env, w, s))
  }

  /** v lies strictly deeper above its root than s, whenever s has one. */
  ghost predicate Deeper(md: map<Scope, Lineage>, v: Scope, s: Scope)
  {
    forall n: nat :: Grounded(md, s, n) ==> exists m: nat :: m > n && Grounded(md, v, m)
  }

  /** What is resolved stays so. */
  predicate Keeps(env: Env, w: Walk, w': Walk)
    requires |w.items| == |w'.items| == |env.initial|
  {
    && w.done <= w'.done
    && (forall s :: s in w.done ==> Problem(w', s) == Problem(w, s) && s in w.proofs && s in w'.proofs && w'.proofs[s] == w.proofs[s])
    && (forall i :: 0 <= i < |w.items| && env.initial[i].usage.id.scope in w.done ==> w'.items[i] == w.items[i])
  }

  lemma StaysSettled(env: Env, w: Walk, w': Walk, s: Scope)
    requires |w.items| == |w'.items| == |env.initial| && Keeps(env, w, w') && s in w.done && SettledOk(env, w, s)
    ensures SettledOk(env, w', s)
  {
    hide OneOwner, Keyed, Rooted, Foreign, AddedBy, Extended, FactKept, Forks, KnownParent;
    assert w'.proofs[s] == w.proofs[s];
  }

  lemma CycleKeepsWalk(env: Env, w: Walk, s: Scope)
    requires WalkOk(env, w) && s in w.visiting
    ensures WalkOk(env, w.(problems := w.problems[s := "ancestry_cycle"]))
    ensures Keeps(env, w, w.(problems := w.problems[s := "ancestry_cycle"]))
  {
    var w' := w.(problems := w.problems[s := "ancestry_cycle"]);
    hide SettledOk, Known;
    DoneHaveProofs(env, w);
    forall r | r in w'.done
      ensures SettledOk(env, w', r)
    {
      StaysSettled(env, w, w', r);
    }
  }

  lemma DoneHaveProofs(env: Env, w: Walk)
    requires WalkOk(env, w)
    ensures forall s :: s in w.done ==> s in w.proofs
  {
    forall s | s in w.done
      ensures s in w.proofs
    {
      assert SettledOk(env, w, s);
    }
  }

  lemma EnterKeepsWalk(env: Env, w: Walk, s: Scope)
    requires WalkOk(env, w) && s !in w.done && s !in w.visiting
    ensures WalkOk(env, w.(visiting := w.visiting + {s}, proofs := w.proofs[s := map[]]))
    ensures Keeps(env, w, w.(visiting := w.visiting + {s}, proofs := w.proofs[s := map[]]))
  {
    var w' := w.(visiting := w.visiting + {s}, proofs := w.proofs[s := map[]]);
    hide SettledOk, Known;
    DoneHaveProofs(env, w);
    forall r | r in w'.done
      ensures SettledOk(env, w', r)
    {
      StaysSettled(env, w, w', r);
    }
  }

  // ----- concluding a session -----

  /** What a session starts from when its ancestors are resolved. */
  ghost predicate Ready(env: Env, above: Walk, s: Scope)
  {
    && WalkOk(env, above) && s in above.visiting
    && (KnownParent(env, s).Some? ==> KnownParent(env, s).value in above.done || KnownParent(env, s).value in above.visiting)
    && (forall n: nat :: Grounded(env.metadata, s, n) ==> Problem(above, s) == "")
    && (KnownParent(env, s).Some? && KnownParent(env, s).value in above.visiting ==>
          forall n: nat :: !Grounded(env.metadata, s, n))
  }

  /** No session is its own ancestor once a root is reached. */
  lemma {:induction false} RootedHasNoCycle(md: map<Scope, Lineage>, s: Scope, n: nat, a: Scope, k: nat)
    requires Grounded(md, s, n) && Ancestor(md, s, a, k) && k > 0
    ensures a != s && k <= n && Grounded(md, a, n - k)
    decreases k
  {
    if k == 1 {
      assert Ancestor(md, md[s].parent.value, a, 0);
      if a == s {
        GroundedOnce(md, s, n, n - 1);
      }
    } else {
      AncestorGrounded(md, s, n, a, k);
      if a == s {
        GroundedOnce(md, s, n, n - k);
      }
    }
  }

  lemma {:induction false} AncestorGrounded(md: map<Scope, Lineage>, s: Scope, n: nat, a: Scope, k: nat)
    requires Grounded(md, s, n) && Ancestor(md, s, a, k)
    ensures k <= n && Grounded(md, a, n - k)
    decreases k
  {
    if k > 0 {
      AncestorGrounded(md, md[s].parent.value, n - 1, a, k - 1);
    }
  }

  lemma WalkSettled(env: Env, w: Walk, s: Scope)
    requires WalkOk(env, w) && s in w.done
    ensures SettledOk(env, w, s)
  {
  }

  lemma SettledOwner(env: Env, w: Walk, s: Scope, f: string, id: FactId)
    requires |w.items| == |env.initial| && SettledOk(env, w, s) && Problem(w, s) == ""
    requires s in w.proofs && f in w.proofs[s] && id in w.proofs[s][f] && w.proofs[s][f][id].id.scope != s
    ensures Forks(env, s) && KnownParent(env, s).Some? && BuildsOn(env, w, s, KnownParent(env, s).value)
    ensures Holds(w.proofs[KnownParent(env, s).value], f, id, w.proofs[s][f][id])
  {
    hide Rooted, OneOwner, Keyed, Foreign, SettledItems, Extended;
  }

  /** Every owner of a proof is the session itself or one of its ancestors. */
  lemma {:induction false} OwnersOnChain(env: Env, w: Walk, s: Scope, n: nat, f: string, id: FactId) returns (k: nat)
    requires WalkOk(env, w) && s in w.done && Problem(w, s) == "" && Grounded(env.metadata, s, n)
    requires s in w.proofs && f in w.proofs[s] && id in w.proofs[s][f]
    ensures Ancestor(env.metadata, s, w.proofs[s][f][id].id.scope, k)
    decreases n
  {
    hide WalkOk, SettledOk, Extended, AddedBy, Foreign;
    WalkSame(env, w);
    WalkSettled(env, w, s);
    if w.proofs[s][f][id].id.scope == s {
      k := 0;
    } else {
      SettledOwner(env, w, s, f, id);
      var up := OwnersOnChain(env, w, KnownParent(env, s).value, n - 1, f, id);
      k := up + 1;
    }
  }

  lemma OwnersAreElsewhere(env: Env, above: Walk, s: Scope, parent: Scope, f: string, id: FactId)
    requires WalkOk(env, above) && KnownParent(env, s) == Some(parent) && parent in above.done && Problem(above, parent) == ""
    requires parent in above.proofs && Rooted(env.metadata, parent) && f in above.proofs[parent] && id in above.proofs[parent][f]
    ensures above.proofs[parent][f][id].id.scope != s
  {
    hide WalkOk, Undisputed;
    var n: nat :| Grounded(env.metadata, parent, n) && Undisputed(env.metadata, parent, n);
    assert Grounded(env.metadata, s, n + 1);
    var k := OwnersOnChain(env, above, parent, n, f, id);
    assert Ancestor(env.metadata, s, above.proofs[parent][f][id].id.scope, k + 1);
    RootedHasNoCycle(env.metadata, s, n + 1, above.proofs[parent][f][id].id.scope, k + 1);
  }

  lemma SettledBasics(env: Env, w: Walk, s: Scope)
    requires |w.items| == |env.initial| && SettledOk(env, w, s)
    ensures s in w.proofs && OneOwner(w.proofs[s]) && Keyed(env, w.proofs[s])
    ensures Problem(w, s) == "" <==> Rooted(env.metadata, s)
    ensures SettledItems(env, w, s)
  {
    hide Rooted, OneOwner, Keyed, Foreign, SettledItems, Extended, AddedBy;
  }

  /** What is inherited was proved by proper ancestors only. */
  lemma InheritedIsForeign(env: Env, above: Walk, s: Scope)
    requires WalkOk(env, above)
    requires KnownParent(env, s).Some? ==> KnownParent(env, s).value in above.done || KnownParent(env, s).value in above.visiting
    ensures Foreign(InheritedProofs(env, above, s), s)
    ensures OneOwner(InheritedProofs(env, above, s)) && Keyed(env, InheritedProofs(env, above, s))
  {
    hide WalkOk, SettledOk, Rooted, KnownParent, Known;
    if KnownParent(env, s).Some? && !ParentFailed(above, KnownParent(env, s).value) {
      var parent := KnownParent(env, s).value;
      WalkSettled(env, above, parent);
      WalkSame(env, above);
      SettledBasics(env, above, parent);
      forall f, id | f in above.proofs[parent] && id in above.proofs[parent][f]
        ensures above.proofs[parent][f][id].id.scope != s
      {
        OwnersAreElsewhere(env, above, s, parent, f, id);
      }
    }
  }

  lemma WalkSame(env: Env, w: Walk)
    requires WalkOk(env, w)
    ensures SameRecords(env.initial, w.items) && |w.items| == |env.initial|
  {
  }

  /** A session is free of problems exactly when its whole chain is in order. */
  lemma ProblemIffNotRooted(env: Env, above: Walk, s: Scope)
    requires Ready(env, above, s)
    ensures ProblemAfter(env, above, s) == "" <==> Rooted(env.metadata, s)
    ensures ProblemAfter(env, above, s) == "" && Forks(env, s) ==>
              KnownParent(env, s).Some? && !ParentFailed(above, KnownParent(env, s).value)
  {
    if s in env.metadata {
      ParentRooted(env.metadata, s);
    }
    if KnownParent(env, s).Some? && KnownParent(env, s).value in above.done {
      assert SettledOk(env, above, KnownParent(env, s).value);
    }
    if Rooted(env.metadata, s) {
      var n: nat :| Grounded(env.metadata, s, n) && Undisputed(env.metadata, s, n);
      assert Forks(env, s) ==> Grounded(env.metadata, env.metadata[s].parent.value, n - 1);
    }
    hide SettledOk, Rooted;
  }

  ghost predicate EndProofs(env: Env, s: Scope, problem: string, start: Proofs, end: Proofs)
  {
    && Keyed(env, end) && OneOwner(end) && Foreign(start, s) && Extended(start, end) && AddedBy(start, end, s)
    && (problem != "" ==> Foreign(end, s))
  }

  ghost predicate EndItems(env: Env, s: Scope, problem: string, start: Proofs, before: seq<Candidate>, after: seq<Candidate>)
  {
    && |after| == |before| == |env.initial|
    && (forall i :: 0 <= i < |after| ==> Known(env, after[i].usage))
    && (forall i :: 0 <= i < |after| && !Belongs(env, i, s) ==> after[i] == before[i])
    && (forall i :: 0 <= i < |after| && Belongs(env, i, s) ==>
          (after[i].code == "" ==> problem == "") && FactKept(s, start, env.initial[i], after[i]))
  }

  lemma PassMeaning(env: Env, t: Session, start: Pass, end: Pass, order: seq<nat>)
    requires |start.items| == |end.items| == |env.initial|
    requires ItemsOk(env, t, start, end, Elements(order)) && ProofsOk(env, t, start, end)
    requires forall i: nat :: i in order <==> i < |env.initial| && Belongs(env, i, t.scope)
    requires forall i: nat :: i in order ==> start.items[i] == env.initial[i]
    ensures EndProofs(env, t.scope, t.problem, start.proofs, end.proofs)
    ensures EndItems(env, t.scope, t.problem, start.proofs, start.items, end.items)
  {
    hide Known, Keyed, OneOwner, Foreign, Extended, AddedBy, Holds;
    assert forall i: nat :: i in Elements(order) <==> i in order;
  }

  function StartOf(env: Env, above: Walk, s: Scope): Pass
  {
    Pass(above.items, InheritedProofs(env, above, s), None, "", map[])
  }

  lemma VisitedIs(env: Env, above: Walk, s: Scope)
    requires SameRecords(env.initial, above.items)
    ensures Visited(env, above, s) == VisitAll(SessionOf(env, above, s), StartOf(env, above, s), Order(env, above.items, s))
  {
  }

  lemma StartProofs(env: Env, above: Walk, s: Scope)
    ensures StartOf(env, above, s).proofs == InheritedProofs(env, above, s) && StartOf(env, above, s).items == above.items
    ensures StartOf(env, above, s).seen == map[]
    ensures SessionOf(env, above, s).scope == s && SessionOf(env, above, s).problem == ProblemAfter(env, above, s)
  {
  }

  lemma OrderMembers(env: Env, items: seq<Candidate>, s: Scope)
    requires SameRecords(env.initial, items)
    ensures forall i: nat :: i in Order(env, items, s) <==> i < |env.initial| && Belongs(env, i, s)
    ensures Indexes(items, Order(env, items, s)) && |items| == |env.initial|
  {
  }

  lemma ConcludedPass(env: Env, above: Walk, s: Scope)
    requires WalkOk(env, above) && s !in above.done
    requires KnownParent(env, s).Some? ==> KnownParent(env, s).value in above.done || KnownParent(env, s).value in above.visiting
    ensures SameRecords(env.initial, above.items)
    ensures EndProofs(env, s, ProblemAfter(env, above, s), InheritedProofs(env, above, s), Visited(env, above, s).proofs)
    ensures EndItems(env, s, ProblemAfter(env, above, s), InheritedProofs(env, above, s), above.items, Visited(env, above, s).items)
  {
    hide *;
    WalkItems(env, above, s);
    InheritedIsForeign(env, above, s);
    OrderIsDistinct(env, above.items, s);
    OrderMembers(env, above.items, s);
    StartProofs(env, above, s);
    VisitedIs(env, above, s);
    var t, start, order := SessionOf(env, above, s), StartOf(env, above, s), Order(env, above.items, s);
    StartOk(env, t, start);
    BelongsMeans(env, s);
    VisitAllKeeps(env, t, start, order);
    SameLength(start.items, VisitAll(t, start, order).items);
    PassMeaning(env, t, start, VisitAll(t, start, order), order);
  }

  lemma SameLength(a: seq<Candidate>, b: seq<Candidate>)
    requires SameRecords(a, b)
    ensures |a| == |b|
  {
  }

  lemma BelongsMeans(env: Env, s: Scope)
    ensures forall i: nat :: i < |env.initial| && Belongs(env, i, s) ==> env.initial[i].usage.id.scope == s
  {
  }

  lemma StartOk(env: Env, t: Session, start: Pass)
    requires Keyed(env, start.proofs) && OneOwner(start.proofs) && Foreign(start.proofs, t.scope)
    ensures ProofsOk(env, t, start, start)
  {
  }

  lemma WalkItems(env: Env, w: Walk, s: Scope)
    requires WalkOk(env, w) && s !in w.done
    ensures SameRecords(env.initial, w.items)
    ensures forall i :: 0 <= i < |w.items| ==> Known(env, w.items[i].usage)
    ensures forall i :: 0 <= i < |w.items| && Belongs(env, i, s) ==> w.items[i] == env.initial[i]
  {
    hide Known, SettledOk;
  }

  lemma ConcludedShape(env: Env, above: Walk, s: Scope)
    requires SameRecords(env.initial, above.items)
    ensures var w' := Conclude(env, above, s);
            && w'.items == Visited(env, above, s).items && w'.done == above.done + {s} && w'.visiting == above.visiting - {s}
            && w'.proofs == above.proofs[s := Visited(env, above, s).proofs]
            && w'.problems == above.problems[s := ProblemAfter(env, above, s)]
  {
    hide Visited, ProblemAfter;
  }

  lemma ParentOrNothing(env: Env, above: Walk, s: Scope)
    ensures InheritedProofs(env, above, s) ==
            if KnownParent(env, s).Some? && !ParentFailed(above, KnownParent(env, s).value)
            then ProofsOf(above, KnownParent(env, s).value) else map[]
    ensures !Forks(env, s) ==> KnownParent(env, s).None?
  {
  }

  lemma ConcludedBuilds(env: Env, above: Walk, w': Walk, s: Scope, parent: Scope, end: Proofs)
    requires KnownParent(env, s) == Some(parent) && !ParentFailed(above, parent) && parent in above.done && parent in above.proofs
    requires EndProofs(env, s, "", above.proofs[parent], end)
    requires w'.done == above.done + {s} && w'.proofs == above.proofs[s := end] && s !in above.done
    requires w'.problems == above.problems[s := ""]
    ensures BuildsOn(env, w', s, parent)
  {
    hide Extended, AddedBy, Foreign, KnownParent, Keyed, OneOwner;
  }

  lemma ParentResolved(env: Env, above: Walk, s: Scope)
    requires Ready(env, above, s) && KnownParent(env, s).Some? && !ParentFailed(above, KnownParent(env, s).value)
    ensures KnownParent(env, s).value in above.done && KnownParent(env, s).value in above.proofs
  {
    WalkSettled(env, above, KnownParent(env, s).value);
  }

  lemma ReadyWalk(env: Env, above: Walk, s: Scope)
    requires Ready(env, above, s)
    ensures WalkOk(env, above)
    ensures KnownParent(env, s).Some? ==> KnownParent(env, s).value in above.done || KnownParent(env, s).value in above.visiting
  {
  }

  lemma ConcludedIsSettled(env: Env, above: Walk, s: Scope)
    requires Ready(env, above, s) && s !in above.done && SameRecords(env.initial, above.items)
    requires |Conclude(env, above, s).items| == |env.initial|
    ensures SettledOk(env, Conclude(env, above, s), s)
  {
    hide WalkOk, Visited, Known, OneOwner, Keyed, Foreign, Extended, AddedBy, Rooted, ProblemAfter, Ready, BuildsOn, KnownParent,
         Conclude, InheritedProofs, ProofsOf, ParentFailed, Forks, FactKept;
    var w' := Conclude(env, above, s);
    ReadyWalk(env, above, s);
    ConcludedPass(env, above, s);
    ConcludedShape(env, above, s);
    ProblemIffNotRooted(env, above, s);
    ParentOrNothing(env, above, s);
    assert Problem(w', s) == ProblemAfter(env, above, s);
    if ProblemAfter(env, above, s) == "" && Forks(env, s) {
      ParentResolved(env, above, s);
      ProofsPresent(above, KnownParent(env, s).value);
      ConcludedBuilds(env, above, w', s, KnownParent(env, s).value, Visited(env, above, s).proofs);
    }
    ConcludedInherits(env, above, w', s);
    KeptMore(env, s, InheritedProofs(env, above, s), Visited(env, above, s).proofs, w'.items);
  }

  lemma ConcludedInherits(env: Env, above: Walk, w': Walk, s: Scope)
    requires Ready(env, above, s) && s !in above.done && SameRecords(env.initial, above.items)
    requires AddedBy(InheritedProofs(env, above, s), Visited(env, above, s).proofs, s)
    requires w'.done == above.done + {s} && w'.proofs == above.proofs[s := Visited(env, above, s).proofs]
    requires w'.problems == above.problems[s := ProblemAfter(env, above, s)]
    ensures Inherits(env, w', s)
  {
    hide Visited, AddedBy, Ready, ProblemAfter, KnownParent, ProofsOf, ParentFailed, InheritedProofs;
    ParentOrNothing(env, above, s);
    if KnownParent(env, s).Some? && !ParentFailed(above, KnownParent(env, s).value) {
      ParentResolved(env, above, s);
      ProofsPresent(above, KnownParent(env, s).value);
      NoProblemOfParent(above, KnownParent(env, s).value);
    }
  }

  lemma NoProblemOfParent(w: Walk, parent: Scope)
    requires !ParentFailed(w, parent)
    ensures Problem(w, parent) == ""
  {
  }

  lemma ProofsPresent(w: Walk, s: Scope)
    requires s in w.proofs
    ensures ProofsOf(w, s) == w.proofs[s]
  {
  }

  lemma KeptMore(env: Env, s: Scope, start: Proofs, end: Proofs, items: seq<Candidate>)
    requires Foreign(start, s) && Extended(start, end) && AddedBy(start, end, s) && |items| == |env.initial|
    ensures forall i :: 0 <= i < |items| && Belongs(env, i, s) && FactKept(s, start, env.initial[i], items[i]) ==>
              FactKept(s, end, env.initial[i], items[i])
  {
    hide Foreign, Extended, AddedBy, Inherited;
    forall i | 0 <= i < |items| && Belongs(env, i, s)
      ensures FactKept(s, start, env.initial[i], items[i]) ==> FactKept(s, end, env.initial[i], items[i])
    {
      SameForeign(start, end, env.initial[i].codex.value.fingerprint, s);
    }
  }

  lemma ConcludeKeepsWalk(env: Env, above: Walk, s: Scope)
    requires Ready(env, above, s) && s !in above.done && SameRecords(env.initial, above.items)
    ensures WalkOk(env, Conclude(env, above, s)) && Keeps(env, above, Conclude(env, above, s))
  {
    hide SettledOk, Known, Visited, EndProofs, InheritedProofs, Ready, Conclude, FactKept, ProblemAfter, KnownParent;
    ReadyWalk(env, above, s);
    ConcludedPass(env, above, s);
    ConcludedShape(env, above, s);
    DoneHaveProofs(env, above);
    var w' := Conclude(env, above, s);
    assert Keeps(env, above, w');
    ConcludedIsSettled(env, above, s);
    forall r | r in w'.done
      ensures SettledOk(env, w', r)
    {
      if r != s {
        StaysSettled(env, above, w', r);
      }
    }
  }

  // ----- the whole walk -----

  /** Resolving a session that has a root never reports a cycle for those waiting on it. */
  ghost predicate Quiet(env: Env, w: Walk, w': Walk, s: Scope)
  {
    forall n: nat, v :: Grounded(env.metadata, s, n) && v in w.visiting ==> Problem(w', v) == Problem(w, v)
  }

  ghost predicate AllDeeper(env: Env, w: Walk, s: Scope)
  {
    forall v :: v in w.visiting ==> Deeper(env.metadata, v, s)
  }

  function Entered(w: Walk, s: Scope): Walk
  {
    w.(visiting := w.visiting + {s}, proofs := w.proofs[s := map[]])
  }

  lemma KeepsTransitive(env: Env, a: Walk, b: Walk, c: Walk)
    requires |a.items| == |b.items| == |c.items| == |env.initial| && Keeps(env, a, b) && Keeps(env, b, c)
    ensures Keeps(env, a, c)
  {
  }

  lemma ParentGrounded(env: Env, s: Scope, n: nat)
    requires KnownParent(env, s).Some?
    ensures Grounded(env.metadata, KnownParent(env, s).value, n) ==> Grounded(env.metadata, s, n + 1)
    ensures Grounded(env.metadata, s, n) ==> n > 0 && Grounded(env.metadata, KnownParent(env, s).value, n - 1)
  {
  }

  lemma DeeperStill(env: Env, w: Walk, s: Scope)
    requires AllDeeper(env, w, s) && KnownParent(env, s).Some?
    ensures AllDeeper(env, Entered(w, s), KnownParent(env, s).value)
  {
    hide Grounded, KnownParent;
    var parent := KnownParent(env, s).value;
    forall v, n: nat | v in w.visiting + {s} && Grounded(env.metadata, parent, n)
      ensures exists m: nat :: m > n && Grounded(env.metadata, v, m)
    {
      ParentGrounded(env, s, n);
      if v != s {
        assert Deeper(env.metadata, v, s);
      }
    }
  }

  lemma NeverDeeperThanItself(env: Env, w: Walk, s: Scope, n: nat)
    requires AllDeeper(env, w, s) && s in w.visiting
    ensures !Grounded(env.metadata, s, n)
  {
    hide Grounded;
    assert Deeper(env.metadata, s, s);
    forall m: nat | Grounded(env.metadata, s, n) && Grounded(env.metadata, s, m)
      ensures m == n
    {
      GroundedOnce(env.metadata, s, m, n);
    }
  }

  lemma ParentFacts(env: Env, w: Walk, above: Walk, s: Scope, n: nat)
    requires AllDeeper(env, w, s) && above.visiting == w.visiting + {s} && Grounded(env.metadata, s, n)
    requires KnownParent(env, s).Some? && Quiet(env, Entered(w, s), above, KnownParent(env, s).value)
    ensures KnownParent(env, s).value !in above.visiting
    ensures forall v :: v in w.visiting + {s} ==> Problem(above, v) == Problem(w, v)
  {
    hide Grounded, KnownParent, AllDeeper;
    var parent := KnownParent(env, s).value;
    DeeperStill(env, w, s);
    ParentGrounded(env, s, n);
    if parent in above.visiting {
      NeverDeeperThanItself(env, Entered(w, s), parent, n - 1);
    }
    assert forall v :: Problem(Entered(w, s), v) == Problem(w, v);
  }

  lemma AboveIsReady(env: Env, w: Walk, above: Walk, s: Scope)
    requires AllDeeper(env, w, s) && Problem(w, s) == "" && WalkOk(env, above)
    requires above.visiting == w.visiting + {s}
    requires if KnownParent(env, s).Some?
             then Quiet(env, Entered(w, s), above, KnownParent(env, s).value) &&
                  (KnownParent(env, s).value in above.done || KnownParent(env, s).value in above.visiting)
             else above == Entered(w, s)
    ensures Ready(env, above, s) && Quiet(env, w, above, s)
  {
    hide WalkOk, Grounded, KnownParent, AllDeeper;
    forall n: nat | Grounded(env.metadata, s, n)
      ensures KnownParent(env, s).Some? ==> KnownParent(env, s).value !in above.visiting
      ensures forall v :: v in w.visiting + {s} ==> Problem(above, v) == Problem(w, v)
    {
      if KnownParent(env, s).Some? {
        ParentFacts(env, w, above, s, n);
      }
    }
  }

  lemma {:induction false} ResolveKeepsWalk(env: Env, w: Walk, s: Scope)
    requires SameRecords(env.initial, w.items) && WalkOk(env, w) && AllDeeper(env, w, s)
    ensures WalkOk(env, Resolve(env, w, s)) && Keeps(env, w, Resolve(env, w, s))
    ensures if s in w.visiting then Resolve(env, w, s).done == w.done else s in Resolve(env, w, s).done
    ensures Quiet(env, w, Resolve(env, w, s), s)
    decreases |env.metadata.Keys - w.visiting|
  {
    hide WalkOk, Grounded, KnownParent, Conclude, ProblemAfter, Ready, AllDeeper, Keeps, Quiet;
    if s in w.done {
      Unchanged(env, w, s);
    } else if s in w.visiting {
      CycleIsQuiet(env, w, s);
    } else {
      var entered := Entered(w, s);
      EnterKeepsWalk(env, w, s);
      NoProblemYet(env, w, s);
      var above := entered;
      if KnownParent(env, s).Some? {
        ParentIsDescribed(env, s);
        FewerLeft(env.metadata.Keys, w.visiting, s);
        DeeperStill(env, w, s);
        ResolveKeepsWalk(env, entered, KnownParent(env, s).value);
        above := Resolve(env, entered, KnownParent(env, s).value);
        KeepsTransitive(env, w, entered, above);
      }
      AboveIsReady(env, w, above, s);
      WalkSame(env, above);
      NotYetDone(env, above, s);
      ConcludeKeepsWalk(env, above, s);
      ConcludedShape(env, above, s);
      KeepsTransitive(env, w, above, Conclude(env, above, s));
      ConcludeIsQuiet(env, w, above, s);
    }
  }

  lemma Unchanged(env: Env, w: Walk, s: Scope)
    requires WalkOk(env, w)
    ensures Keeps(env, w, w) && Quiet(env, w, w, s) && (s in w.done ==> s !in w.visiting)
  {
    DoneHaveProofs(env, w);
  }

  lemma CycleIsQuiet(env: Env, w: Walk, s: Scope)
    requires WalkOk(env, w) && s in w.visiting && AllDeeper(env, w, s)
    ensures var w' := w.(problems := w.problems[s := "ancestry_cycle"]);
            WalkOk(env, w') && Keeps(env, w, w') && Quiet(env, w, w', s)
  {
    hide WalkOk, Grounded;
    CycleKeepsWalk(env, w, s);
    forall n: nat
      ensures !Grounded(env.metadata, s, n)
    {
      NeverDeeperThanItself(env, w, s, n);
    }
  }

  lemma NoProblemYet(env: Env, w: Walk, s: Scope)
    requires WalkOk(env, w) && s !in w.done && s !in w.visiting
    ensures Problem(w, s) == ""
  {
  }

  lemma ParentIsDescribed(env: Env, s: Scope)
    requires KnownParent(env, s).Some?
    ensures s in env.metadata
  {
  }

  lemma NotYetDone(env: Env, w: Walk, s: Scope)
    requires WalkOk(env, w) && s in w.visiting
    ensures s !in w.done
  {
  }

  lemma ConcludeIsQuiet(env: Env, w: Walk, above: Walk, s: Scope)
    requires SameRecords(env.initial, above.items) && Quiet(env, w, above, s) && s !in w.visiting
    ensures Quiet(env, w, Conclude(env, above, s), s)
  {
    hide Conclude, Grounded;
    ConcludedShape(env, above, s);
  }

  // ----- theorems -----

  function Unresolved(env: Env): Walk
  {
    Walk(env.initial, map[], {}, {}, map[])
  }

  /** The state after resolving the given sessions, in any order. */
  ghost function Resolved(env: Env, keys: seq<Scope>): (r: Walk)
    ensures SameRecords(env.initial, r.items)
  {
    ResolveAll(env, Unresolved(env), keys)
  }

  lemma {:induction false} ResolvedOk(env: Env, keys: seq<Scope>)
    ensures WalkOk(env, Resolved(env, keys)) && Resolved(env, keys).visiting == {}
    ensures forall s :: s in keys ==> s in Resolved(env, keys).done
  {
    if keys == [] {
      UnresolvedOk(env);
    } else {
      ResolvedOk(env, keys[..|keys| - 1]);
      hide WalkOk, Resolve, SettledOk;
      ResolveKeepsWalk(env, Resolved(env, keys[..|keys| - 1]), keys[|keys| - 1]);
    }
  }

  lemma UnresolvedOk(env: Env)
    ensures WalkOk(env, Unresolved(env))
  {
    forall i | 0 <= i < |env.initial|
      ensures Known(env, env.initial[i].usage)
    {
    }
  }

  /** A session resolves without a problem exactly when its entire parent chain is
      present, free of conflict and ends in a session that is not a fork. */
  lemma ResolvesIffRooted(env: Env, keys: seq<Scope>, s: Scope)
    requires s in keys
    ensures Problem(Resolved(env, keys), s) == "" <==> Rooted(env.metadata, s)
  {
    ResolvedOk(env, keys);
    WalkSettled(env, Resolved(env, keys), s);
  }

  /** A Codex record is confirmed only under such a chain. */
  lemma ConfirmedOnlyIfRooted(env: Env, keys: seq<Scope>, i: nat)
    requires i < |env.initial| && env.initial[i].codex.Some? && env.initial[i].usage.id.scope in keys
    requires Resolved(env, keys).items[i].code == ""
    ensures Rooted(env.metadata, env.initial[i].usage.id.scope)
  {
    ResolvedOk(env, keys);
    var s := env.initial[i].usage.id.scope;
    WalkSettled(env, Resolved(env, keys), s);
    SettledBasics(env, Resolved(env, keys), s);
    assert Belongs(env, i, s);
    hide WalkOk, SettledOk, Rooted, FactKept;
  }

  lemma {:induction false} OwnerIsAncestor(env: Env, w: Walk, s: Scope, f: string, id: FactId)
    requires WalkOk(env, w) && s in w.done && s in w.proofs && f in w.proofs[s] && id in w.proofs[s][f]
    ensures OnChain(env.metadata, s, w.proofs[s][f][id].id.scope)
  {
    hide WalkOk, Extended, Foreign, OneOwner, Keyed, BuildsOn, SettledItems, Undisputed;
    WalkSettled(env, w, s);
    var u := w.proofs[s][f][id];
    if u.id.scope == s {
      assert Ancestor(env.metadata, s, s, 0);
    } else {
      var parent := KnownParent(env, s).value;
      assert Holds(w.proofs[parent], f, id, u);
      WalkSame(env, w);
      WalkSettled(env, w, parent);
      SettledBasics(env, w, parent);
      var n: nat :| Grounded(env.metadata, parent, n) && Undisputed(env.metadata, parent, n);
      var k := OwnersOnChain(env, w, parent, n, f, id);
      assert Ancestor(env.metadata, s, u.id.scope, k + 1);
    }
  }

  /** All facts proved under one fingerprint belong to one session, which is the session
      itself or one of its ancestors. */
  lemma OneOwnerPerFingerprint(env: Env, keys: seq<Scope>, s: Scope, f: string)
    requires s in Resolved(env, keys).done
    ensures exists owner ::
              (forall id :: id in ProofsFor(ProofsOf(Resolved(env, keys), s), f) ==>
                 ProofsFor(ProofsOf(Resolved(env, keys), s), f)[id].id.scope == owner) &&
              OnChain(env.metadata, s, owner)
  {
    var w := Resolved(env, keys);
    ResolvedOk(env, keys);
    WalkSettled(env, w, s);
    SettledBasics(env, w, s);
    var facts := ProofsFor(ProofsOf(w, s), f);
    hide WalkOk, SettledOk, Keyed, OnChain;
    var owner := s;
    if facts != map[] {
      var id :| id in facts.Keys;
      owner := facts[id].id.scope;
      OwnerIsAncestor(env, w, s, f, id);
    } else {
      OnOwnChain(env, s);
    }
    assert forall id :: id in facts ==> facts[id].id.scope == owner;
    assert OnChain(env.metadata, s, owner);
  }

  lemma OnOwnChain(env: Env, s: Scope)
    ensures OnChain(env.metadata, s, s)
  {
    assert Ancestor(env.metadata, s, s, 0);
  }

  /** Proofs are handed down a sound chain undiminished. */
  lemma {:induction false} ProofsHandedDown(env: Env, w: Walk, s: Scope, a: Scope, n: nat)
    requires WalkOk(env, w) && s in w.done && Problem(w, s) == "" && Ancestor(env.metadata, s, a, n)
    ensures a in w.done && a in w.proofs && s in w.proofs && Extended(w.proofs[a], w.proofs[s])
    decreases n
  {
    hide WalkOk, AddedBy, Foreign, OneOwner, Keyed, SettledItems, Rooted, Inherits;
    WalkSettled(env, w, s);
    if n > 0 {
      var parent := KnownParent(env, s).value;
      ProofsHandedDown(env, w, parent, a, n - 1);
    }
  }

  /** No fingerprint is ever proved by two sessions of one chain. */
  lemma NeverProvedTwice(env: Env, keys: seq<Scope>, s: Scope, a: Scope, n: nat, f: string, x: FactId, y: FactId)
    requires s in Resolved(env, keys).done && a in Resolved(env, keys).done
    requires n > 0 && Ancestor(env.metadata, s, a, n)
    requires x in ProofsFor(ProofsOf(Resolved(env, keys), s), f) && y in ProofsFor(ProofsOf(Resolved(env, keys), a), f)
    ensures ProofsFor(ProofsOf(Resolved(env, keys), s), f)[x].id.scope != s ||
            ProofsFor(ProofsOf(Resolved(env, keys), a), f)[y].id.scope != a
  {
    var w := Resolved(env, keys);
    ResolvedOk(env, keys);
    WalkSettled(env, w, s);
    hide WalkOk, Keyed, AddedBy, SettledItems, Inherits, Undisputed, BuildsOn, Resolved;
    if w.proofs[s][f][x].id.scope == s {
      var k: nat :| Grounded(env.metadata, s, k) && Undisputed(env.metadata, s, k);
      RootedHasNoCycle(env.metadata, s, k, a, n);
      ProofsHandedDown(env, w, s, a, n);
      assert Holds(w.proofs[s], f, y, w.proofs[a][f][y]);
    }
  }

  /** A record whose fingerprint exactly one fact of its ancestors carries never counts
      again: it ends as a known duplicate of that very fact. Every other record keeps
      the fact it reported. */
  lemma ReplaysAreSuppressed(env: Env, keys: seq<Scope>, i: nat)
    requires i < |env.initial| && env.initial[i].codex.Some? && env.initial[i].usage.id.scope in keys
    ensures var w, before, s := Resolved(env, keys), env.initial[i], env.initial[i].usage.id.scope;
            var copied := Inherited(ProofsOf(w, s), before.codex.value.fingerprint, s);
            if |copied| == 1 then w.items[i].code == "known_duplicate" && w.items[i].usage in copied.Values
            else w.items[i].usage == before.usage
  {
    var w, s := Resolved(env, keys), env.initial[i].usage.id.scope;
    ResolvedOk(env, keys);
    WalkSettled(env, w, s);
    SettledBasics(env, w, s);
    hide WalkOk, SettledOk, Keyed, OneOwner, Resolved, Inherited;
    assert Belongs(env, i, s);
    assert FactKept(s, w.proofs[s], env.initial[i], w.items[i]);
    var copied := Inherited(ProofsOf(w, s), env.initial[i].codex.value.fingerprint, s);
    if |copied| == 1 {
      var id :| id in copied.Keys && Only(copied) == copied[id];
      assert copied[id] in copied.Values;
    }
  }

  /** Resolution changes no identity and invents no fact. */
  lemma FactsComeFromRecords(env: Env, keys: seq<Scope>, i: nat)
    requires i < |env.initial|
    ensures var item := Resolved(env, keys).items[i];
            && Known(env, item.usage) && item.evidence == env.initial[i].evidence && item.format == env.initial[i].format
            && (env.initial[i].codex.None? ==> item == env.initial[i])
  {
    ResolvedOk(env, keys);
    hide SettledOk, Known;
  }
}
