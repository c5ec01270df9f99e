/** Failed work: which rows it delays and for how long, and what may be loaded when. */
module StoreRetries {
  import opened Basics
  import opened DataModel
  import opened StoreSpec

  /** The row is one the failed work saw and that nothing revised since. Work that never
      learned its component stands for its root alone. */
  predicate StillAsLoaded(db: Db, w: Work, s: Scope)
    requires s in db.scopes
  {
    if |w.scopes| == 0 then s == w.root && db.scopes[s].revision <= w.revision
    else s in w.scopes && db.scopes[s].revision == w.scopes[s]
  }

  /** One, two, four, ... up to sixty-four seconds. */
  predicate IsDelay(attempts: nat, delay: int)
  {
    && (attempts == 0 ==> delay == 1000) && (attempts == 1 ==> delay == 2000) && (attempts == 2 ==> delay == 4000)
    && (attempts == 3 ==> delay == 8000) && (attempts == 4 ==> delay == 16000) && (attempts == 5 ==> delay == 32000)
    && (attempts >= 6 ==> delay == 64000)
  }

  lemma DelayIs(attempts: nat)
    ensures IsDelay(attempts, 1000 * Power2(Min(attempts, MAX_BACKOFF_EXPONENT)))
  {
    if attempts >= 6 {
      assert Power2(6) == 2 * Power2(5) && Power2(5) == 2 * Power2(4) && Power2(4) == 2 * Power2(3);
    } else if attempts >= 3 {
      assert Power2(5) == 2 * Power2(4) && Power2(4) == 2 * Power2(3) && Power2(3) == 2 * Power2(2);
    }
  }

  /** s is pending and its retry time has come. */
  predicate DueAt(db: Db, s: Scope, now: int)
  {
    && s in db.scopes && db.scopes[s].retryAt <= now
    && (db.scopes[s].processed != db.scopes[s].revision || db.scopes[s].generation != db.meta.target)
  }

  lemma FailureRows(db: Db, w: Work, now: int, delay: int)
    requires w.root in db.scopes && db.meta.target == w.generation
    requires delay == 1000 * Power2(Min(db.scopes[w.root].attempts, MAX_BACKOFF_EXPONENT))
    ensures var db' := FailureSpec(db, w, now);
            && db' == db.(scopes := db'.scopes) && db'.scopes.Keys == db.scopes.Keys
            && forall s :: s in db.scopes ==>
                 db'.scopes[s] == if StillAsLoaded(db, w, s)
                                  then db.scopes[s].(attempts := db.scopes[s].attempts + 1, retryAt := now + delay, failed := true)
                                  else db.scopes[s]
  {
    hide Power2, Min;
    assert |w.scopes| == 0 <==> w.scopes == map[];
  }

  /** A failure of work on the current target delays exactly the rows still as loaded,
      all by the delay its root has come to, and counts the attempt; they are not due
      before. Every other row stays as due as it was. A failure of work on another
      target, or whose root is unknown, changes nothing. */
  lemma FailureDelaysItsWork(db: Db, w: Work, now: int)
    ensures var db' := FailureSpec(db, w, now);
            if w.root !in db.scopes || db.meta.target != w.generation then db' == db
            else
              && db' == db.(scopes := db'.scopes) && db'.scopes.Keys == db.scopes.Keys
              && exists delay :: IsDelay(db.scopes[w.root].attempts, delay) &&
                   forall s :: s in db.scopes ==>
                     if StillAsLoaded(db, w, s) then
                       && db'.scopes[s] == db.scopes[s].(attempts := db.scopes[s].attempts + 1, retryAt := now + delay, failed := true)
                       && (forall t :: t < now + delay ==> !DueAt(db', s, t))
                       && (DueAt(db, s, now) ==> DueAt(db', s, now + delay))
                     else db'.scopes[s] == db.scopes[s] && forall t :: DueAt(db', s, t) <==> DueAt(db, s, t)
  {
    if w.root in db.scopes && db.meta.target == w.generation {
      var delay := 1000 * Power2(Min(db.scopes[w.root].attempts, MAX_BACKOFF_EXPONENT));
      DelayIs(db.scopes[w.root].attempts);
      hide Power2, Min, FailureSpec, StillAsLoaded;
      FailureRows(db, w, now, delay);
      assert IsDelay(db.scopes[w.root].attempts, delay);
    }
  }

  // ----- failures in a row -----

  datatype Failure = Failure(work: Work, now: int)

  function Failed(db: Db, failures: seq<Failure>): Db
  {
    if failures == [] then db
    else
      var f := failures[|failures| - 1];
      FailureSpec(Failed(db, failures[..|failures| - 1]), f.work, f.now)
  }

  /** Each failure is of work on the target whose root is still as it was loaded. */
  predicate AllOfRoot(db: Db, root: Scope, failures: seq<Failure>)
    requires root in db.scopes
  {
    forall i :: 0 <= i < |failures| ==>
      failures[i].work.root == root && failures[i].work.generation == db.meta.target && StillAsLoaded(db, failures[i].work, root)
  }

  /** How long after the k-th failure the root is tried again. */
  function DelayAfter(db: Db, root: Scope, failures: seq<Failure>, k: nat): int
    requires 1 <= k <= |failures| && root in Failed(db, failures[..k]).scopes
  {
    Failed(db, failures[..k]).scopes[root].retryAt - failures[k - 1].now
  }

  lemma {:induction false} AttemptsAreCounted(db: Db, root: Scope, failures: seq<Failure>)
    requires root in db.scopes && AllOfRoot(db, root, failures)
    ensures var d := Failed(db, failures);
            && d.meta == db.meta && root in d.scopes
            && d.scopes[root].revision == db.scopes[root].revision
            && d.scopes[root].attempts == db.scopes[root].attempts + |failures|
            && (failures != [] ==>
                  IsDelay(db.scopes[root].attempts + |failures| - 1, d.scopes[root].retryAt - failures[|failures| - 1].now))
  {
    if failures != [] {
      var front, f := failures[..|failures| - 1], failures[|failures| - 1];
      AttemptsAreCounted(db, root, front);
      var d := Failed(db, front);
      FailureDelaysItsWork(d, f.work, f.now);
      hide FailureSpec, IsDelay;
      assert StillAsLoaded(d, f.work, root);
    }
  }

  /** Of a root that has not failed before, the first failure delays it by one second,
      and each further one by twice as long as the last, up to sixty-four seconds; from
      then on by sixty-four. */
  lemma DelaysDouble(db: Db, root: Scope, failures: seq<Failure>, k: nat)
    requires root in db.scopes && db.scopes[root].attempts == 0 && AllOfRoot(db, root, failures) && 1 <= k <= |failures|
    ensures root in Failed(db, failures[..k]).scopes && Failed(db, failures[..k]).scopes[root].attempts == k
    ensures k == 1 ==> DelayAfter(db, root, failures, k) == 1000
    ensures k > 1 ==> root in Failed(db, failures[..k - 1]).scopes
    ensures k > 1 ==> DelayAfter(db, root, failures, k) ==
                      if DelayAfter(db, root, failures, k - 1) < 64000 then 2 * DelayAfter(db, root, failures, k - 1) else 64000
  {
    hide Failed;
    AttemptsAreCounted(db, root, failures[..k]);
    if k > 1 {
      AttemptsAreCounted(db, root, failures[..k - 1]);
    }
  }
}
