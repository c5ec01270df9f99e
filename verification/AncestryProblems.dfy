/** Why a session is not sound: the reason each resolved session carries. */
module AncestryProblems {
  import opened Basics
  import opened DataModel
  import opened Candidates
  import opened Ancestry
  import opened AncestryTheorems

  /** The parent chain of s leads back to s. */
  ghost predicate OnCycle(md: map<Scope, Lineage>, s: Scope)
  {
    exists k: nat :: k > 0 && Ancestor(md, s, s, k)
  }

  /** The reason, short of a cycle: the session is not described; its parent is not named
      or not described; its parent is not sound; its own descriptions differ. */
  ghost function Reason(md: map<Scope, Lineage>, s: Scope): string
  {
    if s !in md then "missing_session_context"
    else if md[s].fork && (md[s].parent.None? || md[s].parent.value !in md) then "missing_parent"
    else if md[s].fork && !Rooted(md, md[s].parent.value) then "unresolved_parent"
    else if md[s].conflict then "conflicting_parent"
    else ""
  }

  ghost predicate ReasonIs(md: map<Scope, Lineage>, s: Scope, problem: string)
  {
    problem == Reason(md, s) || (problem == "ancestry_cycle" && OnCycle(md, s))
  }

  /** Sessions resolved carry their reason; of those still waiting only a cycle is known. */
  ghost predicate WalkReasons(env: Env, w: Walk)
  {
    && (forall s :: s in w.done ==> ReasonIs(env.metadata, s, Problem(w, s)))
    && (forall s :: s in w.visiting ==> Problem(w, s) == "" || (Problem(w, s) == "ancestry_cycle" && OnCycle(env.metadata, s)))
  }

  /** s is an ancestor of every session that waits for it. */
  ghost predicate AllWaitFor(env: Env, w: Walk, s: Scope)
  {
    forall v :: v in w.visiting ==> exists k: nat :: k > 0 && Ancestor(env.metadata, v, s, k)
  }

  lemma {:induction false} AncestorsParent(md: map<Scope, Lineage>, v: Scope, s: Scope, k: nat, parent: Scope)
    requires Ancestor(md, v, s, k) && s in md && md[s].fork && md[s].parent == Some(parent)
    ensures Ancestor(md, v, parent, k + 1)
    decreases k
  {
    if k == 0 {
      assert Ancestor(md, parent, parent, 0);
    } else {
      AncestorsParent(md, md[v].parent.value, s, k - 1, parent);
    }
  }

  lemma WaitForParent(env: Env, w: Walk, s: Scope)
    requires AllWaitFor(env, w, s) && KnownParent(env, s).Some?
    ensures AllWaitFor(env, Entered(w, s), KnownParent(env, s).value)
  {
    var parent := KnownParent(env, s).value;
    forall v | v in w.visiting + {s}
      ensures exists k: nat :: k > 0 && Ancestor(env.metadata, v, parent, k)
    {
      if v == s {
        assert Ancestor(env.metadata, parent, parent, 0) && Ancestor(env.metadata, s, parent, 1);
      } else {
        var k: nat :| k > 0 && Ancestor(env.metadata, v, s, k);
        AncestorsParent(env.metadata, v, s, k, parent);
        assert k + 1 > 0;
      }
    }
  }

  lemma ConcludedReason(env: Env, above: Walk, s: Scope)
    requires Ready(env, above, s) && WalkReasons(env, above)
    ensures ReasonIs(env.metadata, s, ProblemAfter(env, above, s))
  {
    hide WalkOk, SettledOk, Rooted, OnCycle;
    if Problem(above, s) == "" && KnownParent(env, s).Some? {
      FailedIffNotRooted(env, above, s);
    }
  }

  lemma FailedIffNotRooted(env: Env, above: Walk, s: Scope)
    requires Ready(env, above, s) && KnownParent(env, s).Some?
    ensures ParentFailed(above, KnownParent(env, s).value) <==> !Rooted(env.metadata, KnownParent(env, s).value)
  {
    var parent := KnownParent(env, s).value;
    if parent in above.visiting {
      forall n: nat
        ensures !Grounded(env.metadata, parent, n)
      {
        assert !Grounded(env.metadata, s, n + 1);
      }
    } else {
      assert SettledOk(env, above, parent);
    }
    hide SettledOk;
  }

  lemma ConcludeKeepsReasons(env: Env, above: Walk, s: Scope)
    requires Ready(env, above, s) && s !in above.done && SameRecords(env.initial, above.items) && WalkReasons(env, above)
    ensures WalkReasons(env, Conclude(env, above, s))
  {
    hide Ready, Conclude, ReasonIs, OnCycle, ProblemAfter;
    ConcludedReason(env, above, s);
    ConcludedShape(env, above, s);
  }

  lemma {:induction false} ResolveKeepsReasons(env: Env, w: Walk, s: Scope)
    requires SameRecords(env.initial, w.items) && WalkOk(env, w) && AllDeeper(env, w, s) && AllWaitFor(env, w, s) && WalkReasons(env, w)
    ensures WalkReasons(env, Resolve(env, w, s))
    decreases |env.metadata.Keys - w.visiting|
  {
    hide WalkOk, Grounded, KnownParent, Conclude, ProblemAfter, Ready, AllDeeper, Keeps, Quiet, ReasonIs;
    if s in w.visiting && s !in w.done {
      CycleHasReason(env, w, s);
    } else if s !in w.done {
      var entered := Entered(w, s);
      EnterKeepsWalk(env, w, s);
      NoProblemYet(env, w, s);
      EnteredReasons(env, w, s);
      var above := entered;
      if KnownParent(env, s).Some? {
        ParentIsDescribed(env, s);
        FewerLeft(env.metadata.Keys, w.visiting, s);
        DeeperStill(env, w, s);
        WaitForParent(env, w, s);
        ResolveKeepsWalk(env, entered, KnownParent(env, s).value);
        ResolveKeepsReasons(env, entered, KnownParent(env, s).value);
        above := Resolve(env, entered, KnownParent(env, s).value);
      }
      hide WalkReasons, AllWaitFor;
      AboveIsReady(env, w, above, s);
      WalkSame(env, above);
      NotYetDone(env, above, s);
      ConcludeKeepsReasons(env, above, s);
    }
  }

  lemma CycleHasReason(env: Env, w: Walk, s: Scope)
    requires WalkOk(env, w) && AllWaitFor(env, w, s) && WalkReasons(env, w) && s in w.visiting
    ensures WalkReasons(env, w.(problems := w.problems[s := "ancestry_cycle"]))
  {
    hide ReasonIs, SettledOk;
    assert OnCycle(env.metadata, s);
    hide Ancestor;
  }

  lemma EnteredReasons(env: Env, w: Walk, s: Scope)
    requires WalkReasons(env, w) && Problem(w, s) == ""
    ensures WalkReasons(env, Entered(w, s))
  {
    hide ReasonIs, OnCycle;
  }

  lemma {:induction false} AllReasons(env: Env, keys: seq<Scope>)
    ensures WalkReasons(env, Resolved(env, keys))
  {
    if keys != [] {
      hide WalkOk, Resolve, SettledOk, ReasonIs;
      AllReasons(env, keys[..|keys| - 1]);
      ResolvedOk(env, keys[..|keys| - 1]);
      ResolveKeepsReasons(env, Resolved(env, keys[..|keys| - 1]), keys[|keys| - 1]);
    }
  }

  /** Every resolved session carries the reason it is not sound, or none if it is; only a
      session that is its own ancestor may report the cycle instead. */
  lemma SessionsCarryTheirReason(env: Env, keys: seq<Scope>, s: Scope)
    requires s in keys
    ensures var problem := Problem(Resolved(env, keys), s);
            && (problem == Reason(env.metadata, s) || (problem == "ancestry_cycle" && OnCycle(env.metadata, s)))
            && (Reason(env.metadata, s) == "" <==> Rooted(env.metadata, s))
  {
    AllReasons(env, keys);
    ResolvedOk(env, keys);
    if s in env.metadata {
      ParentRooted(env.metadata, s);
      if env.metadata[s].fork && env.metadata[s].parent.Some? && env.metadata[s].parent.value !in env.metadata {
        assert !Rooted(env.metadata, env.metadata[s].parent.value);
      }
    }
    hide WalkOk, Resolved, Undisputed;
  }
}
