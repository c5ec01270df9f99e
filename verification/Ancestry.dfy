/** Codex sessions may be forked from one another, and a fork replays its parent's
    usage. The resolver walks each session's ancestry depth first, inherits what the
    ancestors have proved, and lets a session confirm only what is not a replay. */
module Ancestry {
  import opened Basics
  import opened DataModel
  import opened Tokens
  import opened Candidates

  // ----- session metadata -----

  /** A reference to a parent session: absent, present but unreadable, or named. */
  datatype Reference = Absent | Unreadable | Named(session: Scope)

  datatype Lineage = Lineage(parent: Option<Scope>, fork: bool, conflict: bool)

  datatype SessionMeta = SessionMeta(session: Scope, data: Lineage)

  /** The reference fields in order of precedence: the last one that is named wins. */
  function FromReferences(subagent: bool, references: seq<Reference>): Lineage
  {
    if references == [] then Lineage(None, subagent, false)
    else
      var m := FromReferences(subagent, references[..|references| - 1]);
      match references[|references| - 1]
      case Absent => m
      case Unreadable => m.(fork := true, conflict := true)
      case Named(session) =>
        Lineage(Some(session), true, m.conflict || (m.parent.Some? && m.parent.value != session))
  }

  /** Sessions described more than once must be described alike. */
  function Merged(entries: seq<SessionMeta>): map<Scope, Lineage>
  {
    if entries == [] then map[]
    else
      var m := Merged(entries[..|entries| - 1]);
      var e := entries[|entries| - 1];
      var clash := e.session in m &&
        (m[e.session].parent != e.data.parent || m[e.session].fork != e.data.fork || m[e.session].conflict);
      m[e.session := e.data.(conflict := e.data.conflict || clash)]
  }

  lemma {:induction false} ReferencesAgree(subagent: bool, references: seq<Reference>)
    ensures var m := FromReferences(subagent, references);
            && (m.fork <==> subagent || exists i :: 0 <= i < |references| && !references[i].Absent?)
            && (m.parent.Some? <==> exists i :: 0 <= i < |references| && references[i].Named?)
            && (m.parent.Some? ==> Named(m.parent.value) in references)
            && (!m.conflict <==> forall i :: 0 <= i < |references| ==>
                  references[i].Absent? || (references[i].Named? && m.parent == Some(references[i].session)))
  {
    if references != [] {
      var front := references[..|references| - 1];
      var last := references[|references| - 1];
      ReferencesAgree(subagent, front);
      assert references == front + [last];
    }
  }

  predicate EntriesAgree(entries: seq<SessionMeta>, session: Scope)
    requires session in Merged(entries)
  {
    var m := Merged(entries)[session];
    forall i :: 0 <= i < |entries| && entries[i].session == session ==> entries[i].data == Lineage(m.parent, m.fork, false)
  }

  /** A session's description is free of conflict exactly when none of its entries is in
      conflict and all of them name the same parent and forking. */
  lemma {:induction false} MergedAgree(entries: seq<SessionMeta>, session: Scope)
    ensures session in Merged(entries) <==> exists i :: 0 <= i < |entries| && entries[i].session == session
    ensures session in Merged(entries) ==>
              exists i :: 0 <= i < |entries| && entries[i].session == session &&
                          entries[i].data.parent == Merged(entries)[session].parent && entries[i].data.fork == Merged(entries)[session].fork
    ensures session in Merged(entries) ==>
              (!Merged(entries)[session].conflict <==> EntriesAgree(entries, session))
  {
    if entries != [] {
      var front := entries[..|entries| - 1];
      var last := entries[|entries| - 1];
      MergedAgree(front, session);
      assert entries == front + [last];
      assert forall i :: 0 <= i < |front| ==> entries[i] == front[i];
      assert last.session == session ==> entries[|front|].session == session;
      if session in Merged(front) {
        var i :| 0 <= i < |front| && front[i].session == session &&
                 front[i].data.parent == Merged(front)[session].parent && front[i].data.fork == Merged(front)[session].fork;
        assert entries[i].session == session;
        if last.session == session && EntriesAgree(entries, session) {
          assert EntriesAgree(front, session);
        }
      }
    }
  }

  // ----- ancestry -----

  /** The chain of parents from s is present and, after n forks, ends in a session that
      is not a fork. */
  predicate Grounded(md: map<Scope, Lineage>, s: Scope, n: nat)
    decreases n
  {
    s in md && if n == 0 then !md[s].fork else md[s].fork && md[s].parent.Some? && Grounded(md, md[s].parent.value, n - 1)
  }

  predicate Undisputed(md: map<Scope, Lineage>, s: Scope, n: nat)
    requires Grounded(md, s, n)
    decreases n
  {
    !md[s].conflict && (n > 0 ==> Undisputed(md, md[s].parent.value, n - 1))
  }

  /** The entire parent chain is present, free of conflict and ends in a non-fork. */
  ghost predicate Rooted(md: map<Scope, Lineage>, s: Scope)
  {
    exists n: nat :: Grounded(md, s, n) && Undisputed(md, s, n)
  }

  /** a is the n-th ancestor of s. */
  predicate Ancestor(md: map<Scope, Lineage>, s: Scope, a: Scope, n: nat)
    decreases n
  {
    if n == 0 then a == s
    else s in md && md[s].fork && md[s].parent.Some? && Ancestor(md, md[s].parent.value, a, n - 1)
  }

  ghost predicate OnChain(md: map<Scope, Lineage>, s: Scope, a: Scope)
  {
    exists n: nat :: Ancestor(md, s, a, n)
  }

  lemma {:induction false} GroundedOnce(md: map<Scope, Lineage>, s: Scope, m: nat, n: nat)
    requires Grounded(md, s, m) && Grounded(md, s, n)
    ensures m == n
    decreases m
  {
    if m > 0 && n > 0 {
      GroundedOnce(md, md[s].parent.value, m - 1, n - 1);
    }
  }

  lemma ParentRooted(md: map<Scope, Lineage>, s: Scope)
    requires s in md
    ensures !md[s].fork ==> (Rooted(md, s) <==> !md[s].conflict)
    ensures md[s].fork ==> (Rooted(md, s) <==> !md[s].conflict && md[s].parent.Some? && Rooted(md, md[s].parent.value))
  {
    if !md[s].fork && !md[s].conflict {
      assert Grounded(md, s, 0) && Undisputed(md, s, 0);
    }
    if md[s].fork && !md[s].conflict && md[s].parent.Some? && Rooted(md, md[s].parent.value) {
      var n: nat :| Grounded(md, md[s].parent.value, n) && Undisputed(md, md[s].parent.value, n);
      assert Grounded(md, s, n + 1) && Undisputed(md, s, n + 1);
    }
    if md[s].fork && Rooted(md, s) {
      var n: nat :| Grounded(md, s, n) && Undisputed(md, s, n);
      assert Grounded(md, md[s].parent.value, n - 1) && Undisputed(md, md[s].parent.value, n - 1);
    }
  }

  // ----- one session's records -----

  type Proofs = map<string, map<FactId, Usage>>

  function ProofsFor(proofs: Proofs, fingerprint: string): map<FactId, Usage>
  {
    if fingerprint in proofs then proofs[fingerprint] else map[]
  }

  /** What some other session of the chain has proved under the fingerprint. */
  function Inherited(proofs: Proofs, fingerprint: string, s: Scope): map<FactId, Usage>
  {
    var facts := ProofsFor(proofs, fingerprint);
    map id | id in facts && facts[id].id.scope != s :: facts[id]
  }

  datatype Pass = Pass(items: seq<Candidate>, proofs: Proofs, previous: Option<Counts>, turn: string, seen: map<FactId, nat>)

  predicate Replays(parentProofs: Proofs, turn: string)
  {
    exists f, id :: f in parentProofs && id in parentProofs[f] && turn + ":" <= parentProofs[f][id].message
  }

  function Judged(item: Candidate, fork: bool, parentProofs: Proofs, problem: string, others: nat): string
    requires item.codex.Some?
  {
    if problem != "" then problem
    else if item.codex.value.fingerprint == "" then "unverifiable_snapshot"
    else if others > 1 then "ambiguous_parent_fact"
    else if fork && Replays(parentProofs, item.codex.value.turn) then "uncertain_replay_boundary"
    else item.code
  }

  predicate SameCounts(a: Counts, b: Counts)
  {
    a.input == b.input && a.output == b.output && a.reasoning == b.reasoning && a.cacheRead == b.cacheRead && a.total == b.total
  }

  function Proved(proofs: Proofs, item: Candidate): Proofs
    requires item.codex.Some?
  {
    var fingerprint := item.codex.value.fingerprint;
    if item.code != "" || fingerprint == "" then proofs
    else proofs[fingerprint := ProofsFor(proofs, fingerprint)[item.usage.id := item.usage]]
  }

  ghost function Only(facts: map<FactId, Usage>): Usage
    requires |facts| == 1
  {
    var id :| id in facts.Keys;
    facts[id]
  }

  lemma OnlyOne(facts: map<FactId, Usage>, id: FactId)
    requires |facts| == 1 && id in facts
    ensures Only(facts) == facts[id]
  {
    var k :| k in facts.Keys && Only(facts) == facts[k];
    assert |facts.Keys - {id}| == 0;
    assert k !in facts.Keys - {id};
  }

  predicate SameRecords(a: seq<Candidate>, b: seq<Candidate>)
  {
    |a| == |b| && forall i :: 0 <= i < |a| ==>
      a[i].evidence == b[i].evidence && a[i].format == b[i].format && a[i].ordinal == b[i].ordinal && a[i].codex == b[i].codex
  }

  /** What is fixed while one session's records are visited. */
  datatype Session = Session(scope: Scope, fork: bool, parentProofs: Proofs, problem: string)

  ghost function Visit(t: Session, p: Pass, i: nat): (r: Pass)
    requires i < |p.items| && p.items[i].codex.Some?
    requires forall id :: id in p.seen ==> p.seen[id] < |p.items|
    ensures SameRecords(p.items, r.items)
    ensures forall id :: id in r.seen ==> r.seen[id] < |r.items|
  {
    var item := p.items[i];
    var w := item.codex.value;
    var inherited := Inherited(p.proofs, w.fingerprint, t.scope);
    if |inherited| == 1 then
      p.(items := p.items[i := item.(usage := Only(inherited), code := "known_duplicate")])
    else if item.usage.id in p.seen then
      var first := p.items[p.seen[item.usage.id]];
      if first.code != "" then p.(items := p.items[i := item.(code := first.code)]) else p
    else
      var seen := p.seen[item.usage.id := i];
      var previous := if t.fork && w.turn != p.turn then None else p.previous;
      if w.cumulative.Some? && previous.Some? && SameCounts(previous.value, w.cumulative.value) then
        Pass(p.items[i := item.(code := "known_duplicate")], p.proofs, previous, w.turn, seen)
      else if w.cumulative.Some? && previous.Some? && SnapshotSum(w.cumulative.value) < SnapshotSum(previous.value) then
        Pass(p.items[i := item.(code := "stale_snapshot")], p.proofs, previous, w.turn, seen)
      else
        var judged := item.(code := Judged(item, t.fork, t.parentProofs, t.problem, |inherited|));
        Pass(p.items[i := judged], Proved(p.proofs, judged),
             if w.cumulative.Some? then w.cumulative else previous, w.turn, seen)
  }

  /** Every index names a Codex record. */
  predicate Indexes(items: seq<Candidate>, order: seq<nat>)
  {
    forall k :: 0 <= k < |order| ==> order[k] < |items| && items[order[k]].codex.Some?
  }

  ghost function VisitAll(t: Session, p: Pass, order: seq<nat>): (r: Pass)
    requires Indexes(p.items, order)
    requires forall id :: id in p.seen ==> p.seen[id] < |p.items|
    ensures SameRecords(p.items, r.items)
    ensures forall id :: id in r.seen ==> r.seen[id] < |r.items|
  {
    if order == [] then p
    else
      var q := VisitAll(t, p, order[..|order| - 1]);
      Visit(t, q, order[|order| - 1])
  }

  // ----- the walk over all sessions -----

  datatype Walk = Walk(items: seq<Candidate>, proofs: map<Scope, Proofs>, visiting: set<Scope>, done: set<Scope>,
                       problems: map<Scope, string>)

  /** The metadata and the candidates before anything was resolved. */
  datatype Env = Env(metadata: map<Scope, Lineage>, initial: seq<Candidate>)

  function Problem(w: Walk, s: Scope): string
  {
    if s in w.problems then w.problems[s] else ""
  }

  function ProofsOf(w: Walk, s: Scope): Proofs
  {
    if s in w.proofs then w.proofs[s] else map[]
  }

  function Forks(env: Env, s: Scope): bool
  {
    s in env.metadata && env.metadata[s].fork
  }

  function KnownParent(env: Env, s: Scope): Option<Scope>
  {
    if Forks(env, s) && env.metadata[s].parent.Some? && env.metadata[s].parent.value in env.metadata
    then env.metadata[s].parent else None
  }

  predicate ParentFailed(w: Walk, parent: Scope)
  {
    Problem(w, parent) != "" || parent in w.visiting
  }

  /** The later check wins; a cycle found on the way down overrides them all. */
  function ProblemAfter(env: Env, w: Walk, s: Scope): string
  {
    if Problem(w, s) != "" then Problem(w, s)
    else if Forks(env, s) && KnownParent(env, s).None? then "missing_parent"
    else if Forks(env, s) && ParentFailed(w, KnownParent(env, s).value) then "unresolved_parent"
    else if s in env.metadata && env.metadata[s].conflict then "conflicting_parent"
    else if s !in env.metadata then "missing_session_context"
    else ""
  }

  function InheritedProofs(env: Env, w: Walk, s: Scope): Proofs
  {
    if KnownParent(env, s).Some? && !ParentFailed(w, KnownParent(env, s).value)
    then ProofsOf(w, KnownParent(env, s).value) else map[]
  }

  /** What the parent has proved; without a parent there is nothing. */
  function ParentProofs(env: Env, w: Walk, s: Scope): Proofs
  {
    if Forks(env, s) && env.metadata[s].parent.Some? then ProofsOf(w, env.metadata[s].parent.value) else map[]
  }

  function IndexesOf(items: seq<Candidate>, s: Scope, n: nat): (r: seq<nat>)
    requires n <= |items|
    ensures Indexes(items, r)
    ensures forall i: nat :: i in r <==> i < n && items[i].codex.Some? && items[i].usage.id.scope == s
  {
    if n == 0 then []
    else
      var rest := IndexesOf(items, s, n - 1);
      if items[n - 1].codex.Some? && items[n - 1].usage.id.scope == s then rest + [n - 1] else rest
  }

  predicate Earlier(a: Candidate, b: Candidate)
  {
    if a.usage.occurredAt != b.usage.occurredAt then a.usage.occurredAt < b.usage.occurredAt
    else if a.ordinal != b.ordinal then a.ordinal < b.ordinal
    else TextLess(a.evidence, b.evidence)
  }

  function EarlierIn(items: seq<Candidate>): (nat, nat) -> bool
  {
    (i: nat, k: nat) => i < |items| && k < |items| && Earlier(items[i], items[k])
  }

  /** The session's records in the order they are visited. */
  function Order(env: Env, items: seq<Candidate>, s: Scope): (r: seq<nat>)
    requires SameRecords(env.initial, items)
    ensures Indexes(items, r) && Indexes(env.initial, r)
    ensures forall i: nat :: i in r <==> i < |items| && env.initial[i].codex.Some? && env.initial[i].usage.id.scope == s
  {
    OrderHolds(env, items, s);
    Sorted<nat>(IndexesOf(env.initial, s, |env.initial|), EarlierIn(items))
  }

  lemma OrderHolds(env: Env, items: seq<Candidate>, s: Scope)
    requires SameRecords(env.initial, items)
    ensures var r := Sorted<nat>(IndexesOf(env.initial, s, |env.initial|), EarlierIn(items));
            && Indexes(items, r) && Indexes(env.initial, r)
            && forall i: nat :: i in r <==> i < |items| && env.initial[i].codex.Some? && env.initial[i].usage.id.scope == s
  {
    hide Sorted, IndexesOf, EarlierIn;
    var own := IndexesOf(env.initial, s, |env.initial|);
    SortedMembers<nat>(own, EarlierIn(items));
    var r := Sorted<nat>(own, EarlierIn(items));
    assert forall k :: 0 <= k < |r| ==> r[k] in r;
  }

  function SessionOf(env: Env, above: Walk, s: Scope): Session
  {
    Session(s, Forks(env, s), ParentProofs(env, above, s), ProblemAfter(env, above, s))
  }

  ghost function Visited(env: Env, above: Walk, s: Scope): (r: Pass)
    requires SameRecords(env.initial, above.items)
    ensures SameRecords(above.items, r.items)
  {
    VisitAll(SessionOf(env, above, s), Pass(above.items, InheritedProofs(env, above, s), None, "", map[]),
             Order(env, above.items, s))
  }

  /** Once its ancestors are resolved, a session's own records are visited. */
  ghost function Conclude(env: Env, above: Walk, s: Scope): (r: Walk)
    requires SameRecords(env.initial, above.items)
    ensures SameRecords(env.initial, r.items) && r.visiting == above.visiting - {s}
  {
    var end := Visited(env, above, s);
    Walk(end.items, above.proofs[s := end.proofs], above.visiting - {s}, above.done + {s},
         above.problems[s := ProblemAfter(env, above, s)])
  }

  lemma FewerLeft(all: set<Scope>, visiting: set<Scope>, s: Scope)
    requires s in all && s !in visiting
    ensures |all - (visiting + {s})| < |all - visiting|
  {
    assert all - (visiting + {s}) == all - visiting - {s};
  }

  ghost function Resolve(env: Env, w: Walk, s: Scope): (r: Walk)
    requires SameRecords(env.initial, w.items)
    ensures SameRecords(env.initial, r.items)
    ensures r.visiting == w.visiting
    decreases |env.metadata.Keys - w.visiting|
  {
    if s in w.done then w
    else if s in w.visiting then w.(problems := w.problems[s := "ancestry_cycle"])
    else
      var entered := w.(visiting := w.visiting + {s}, proofs := w.proofs[s := map[]]);
      if KnownParent(env, s).None? then Conclude(env, entered, s)
      else
        FewerLeft(env.metadata.Keys, w.visiting, s);
        Conclude(env, Resolve(env, entered, KnownParent(env, s).value), s)
  }

  ghost function ResolveAll(env: Env, w: Walk, keys: seq<Scope>): (r: Walk)
    requires SameRecords(env.initial, w.items)
    ensures SameRecords(env.initial, r.items) && r.visiting == w.visiting
  {
    if keys == [] then w
    else Resolve(env, ResolveAll(env, w, keys[..|keys| - 1]), keys[|keys| - 1])
  }
}
