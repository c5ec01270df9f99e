/** The concurrent dispatcher: at most two claims in flight, kept disjoint and within a
    byte budget, and a bounded list of components to leave alone for a moment after a
    stale publication. Workers finish in any order; the store may change at any time. */
module Dispatcher {
  import opened Basics
  import opened DataModel
  import opened StoreSpec
  import opened StoreInvariant
  import opened Selection
  import opened DataStore

  const WORKER_COUNT: nat := 2
  const MAX_IN_FLIGHT_BYTES: nat := 33554432
  const MAX_DELAYED_COMPONENTS: nat := 128
  const MAX_DELAYED_SCOPES: nat := 4096
  const STALE_RETRY_DELAY: nat := 250

  // ----- delayed stale components -----

  datatype Delayed = Delayed(work: Work, until: int)

  function ScopeCount(entries: seq<Delayed>): nat
  {
    if entries == [] then 0 else ScopeCount(entries[..|entries| - 1]) + |entries[|entries| - 1].work.scopes|
  }

  /** The entries still delayed at a time, in their order. */
  function StillDelayed(entries: seq<Delayed>, now: int): seq<Delayed>
  {
    if entries == [] then []
    else
      var rest := StillDelayed(entries[..|entries| - 1], now);
      if now < entries[|entries| - 1].until then rest + [entries[|entries| - 1]] else rest
  }

  lemma {:induction false} PruningOnlyDrops(entries: seq<Delayed>, now: int)
    ensures |StillDelayed(entries, now)| <= |entries|
    ensures ScopeCount(StillDelayed(entries, now)) <= ScopeCount(entries)
    ensures forall d :: d in StillDelayed(entries, now) <==> d in entries && now < d.until
  {
    if entries != [] {
      var front, last := entries[..|entries| - 1], entries[|entries| - 1];
      PruningOnlyDrops(front, now);
      assert entries == front + [last];
      var rest := StillDelayed(front, now);
      if now < last.until {
        assert (rest + [last])[..|rest|] == rest;
      }
    }
  }

  function DelayedWorks(entries: seq<Delayed>): seq<Work>
  {
    seq(|entries|, i requires 0 <= i < |entries| => entries[i].work)
  }

  /** The component without its records is remembered, unless a limit would be passed. */
  function Added(entries: seq<Delayed>, work: Work, now: int): seq<Delayed>
  {
    if |entries| < MAX_DELAYED_COMPONENTS && work.scopes != map[] && ScopeCount(entries) + |work.scopes| <= MAX_DELAYED_SCOPES
    then entries + [Delayed(work.(records := map[], bytes := 0), now + STALE_RETRY_DELAY)]
    else entries
  }

  class StaleComponents {
    var entries: seq<Delayed>

    ghost predicate Bounded()
      reads this
    {
      |entries| <= MAX_DELAYED_COMPONENTS && ScopeCount(entries) <= MAX_DELAYED_SCOPES
    }

    constructor ()
      ensures Bounded() && entries == []
    {
      entries := [];
    }

    /** Counts the scopes of what is delayed already before it adds another. */
    method Add(work: Work, now: int)
      requires Bounded()
      modifies this
      ensures Bounded()
      ensures entries == Added(old(entries), work, now)
    {
      if |entries| >= MAX_DELAYED_COMPONENTS || work.scopes == map[] {
        return;
      }
      var scopes := |work.scopes|;
      for i := 0 to |entries|
        invariant scopes == |work.scopes| + ScopeCount(entries[..i])
      {
        assert entries[..i + 1][..i] == entries[..i];
        scopes := scopes + |entries[i].work.scopes|;
      }
      assert entries[..|entries|] == entries;
      if scopes > MAX_DELAYED_SCOPES {
        return;
      }
      var entry := Delayed(work.(records := map[], bytes := 0), now + STALE_RETRY_DELAY);
      assert (entries + [entry])[..|entries|] == entries;
      entries := entries + [entry];
    }

    method Prune(now: int)
      requires Bounded()
      modifies this
      ensures Bounded() && entries == StillDelayed(old(entries), now)
    {
      var retained := [];
      for i := 0 to |entries|
        invariant retained == StillDelayed(entries[..i], now)
      {
        assert entries[..i + 1][..i] == entries[..i];
        if now < entries[i].until {
          retained := retained + [entries[i]];
        }
      }
      assert entries[..|entries|] == entries;
      PruningOnlyDrops(entries, now);
      entries := retained;
    }

    /** Claims first, then every delayed component. */
    method Excluding(claims: seq<Work>) returns (excluded: seq<Work>)
      ensures excluded == claims + DelayedWorks(entries)
    {
      excluded := claims;
      for i := 0 to |entries|
        invariant excluded == claims + DelayedWorks(entries[..i])
      {
        assert DelayedWorks(entries[..i + 1]) == DelayedWorks(entries[..i]) + [entries[i].work];
        excluded := excluded + [entries[i].work];
      }
      assert entries[..|entries|] == entries;
    }

    /** The earliest deadline, if anything is delayed. */
    method NextDeadline() returns (deadline: Option<int>)
      ensures deadline.None? <==> entries == []
      ensures deadline.Some? ==>
                && (exists d :: d in entries && d.until == deadline.value)
                && (forall d :: d in entries ==> deadline.value <= d.until)
    {
      deadline := None;
      for i := 0 to |entries|
        invariant deadline.None? <==> i == 0
        invariant deadline.Some? ==>
                    && (exists d :: d in entries && d.until == deadline.value)
                    && (forall j :: 0 <= j < i ==> deadline.value <= entries[j].until)
      {
        if deadline.None? || entries[i].until < deadline.value {
          deadline := Some(entries[i].until);
          assert entries[i] in entries;
        }
      }
    }
  }

  // ----- claims -----

  function ClaimedBytes(claims: seq<Work>): nat
  {
    if claims == [] then 0 else ClaimedBytes(claims[..|claims| - 1]) + claims[|claims| - 1].bytes
  }

  /** The claims in flight respect the number, disjointness and byte limits. */
  predicate ClaimsOk(claims: seq<Work>)
  {
    && |claims| <= WORKER_COUNT
    && (forall i :: 0 <= i < |claims| ==> claims[i].root in claims[i].scopes)
    && (forall i, j :: 0 <= i < j < |claims| ==> claims[i].scopes.Keys !! claims[j].scopes.Keys)
    && (|claims| > 1 ==> ClaimedBytes(claims) <= MAX_IN_FLIGHT_BYTES)
  }

  /** A new claim that avoids every other one and fits what is left keeps the limits. */
  lemma ClaimFits(claims: seq<Work>, extra: seq<Work>, work: Work)
    requires ClaimsOk(claims) && |claims| < WORKER_COUNT && work.root in work.scopes
    requires work.scopes.Keys !! ClaimedScopes(claims + extra)
    requires claims != [] ==> ClaimedBytes(claims) + work.bytes <= MAX_IN_FLIGHT_BYTES
    ensures ClaimsOk(claims + [work])
  {
    var all := claims + [work];
    assert all[..|claims|] == claims;
    forall i | 0 <= i < |claims|
      ensures claims[i].scopes.Keys !! work.scopes.Keys
    {
      forall s | s in claims[i].scopes
        ensures s in ClaimedScopes(claims + extra)
      {
        assert (claims + extra)[i] == claims[i] && s in (claims + extra)[i].scopes;
      }
    }
  }

  /** Disjoint claims have different roots. */
  lemma RootsDiffer(claims: seq<Work>, i: nat, j: nat)
    requires ClaimsOk(claims) && i < |claims| && j < |claims| && claims[i].root == claims[j].root
    ensures i == j
  {
    assert forall a, b :: 0 <= a < b < |claims| ==> claims[a].root !in claims[b].scopes.Keys;
  }

  function Without(claims: seq<Work>, i: nat): seq<Work>
    requires i < |claims|
  {
    claims[..i] + claims[i + 1..]
  }

  lemma WithoutKeepsClaimsOk(claims: seq<Work>, i: nat)
    requires ClaimsOk(claims) && i < |claims|
    ensures ClaimsOk(Without(claims, i))
  {
    var rest := Without(claims, i);
    assert |rest| <= 1;
    assert forall j :: 0 <= j < |rest| ==> rest[j] == claims[if j < i then j else j + 1];
  }

  function Allowance(claims: seq<Work>): nat
  {
    if claims == [] then 0
    else if ClaimedBytes(claims) <= MAX_IN_FLIGHT_BYTES then MAX_IN_FLIGHT_BYTES - ClaimedBytes(claims) else 0
  }

  /** The store's tables and the dispatcher's fields. */
  datatype Pool = Pool(db: Db, claims: seq<Work>, delayed: seq<Delayed>)

  ghost function Excluded(p: Pool): set<Scope>
  {
    ClaimedScopes(p.claims + DelayedWorks(p.delayed))
  }

  /** root is the least admissible candidate, and a worker and bytes are free for it. */
  ghost predicate Claimable(p: Pool, now: int, root: Scope)
  {
    && |p.claims| < WORKER_COUNT && (p.claims != [] ==> ClaimedBytes(p.claims) < MAX_IN_FLIGHT_BYTES)
    && Admissible(p.db, now, Excluded(p), Allowance(p.claims), root)
    && forall s :: Admissible(p.db, now, Excluded(p), Allowance(p.claims), s) ==>
         !Before(CandidateOf(p.db, s), CandidateOf(p.db, root))
  }

  class Dispatcher {
    var claims: seq<Work>
    const delayed: StaleComponents

    ghost predicate Valid()
      reads this, delayed
    {
      ClaimsOk(claims) && delayed.Bounded()
    }

    constructor ()
      ensures Valid() && fresh(delayed) && claims == []
    {
      claims := [];
      delayed := new StaleComponents();
    }

    /** Fills the free worker slots. The store may be in any reachable state, unrelated
        to the one earlier claims were loaded from. */
    method Dispatch(store: Store, version: nat, now: int)
      requires Valid() && Inv(store.tables)
      modifies this
      ensures Valid()
      ensures |old(claims)| <= |claims| && claims[..|old(claims)|] == old(claims)
      ensures forall i :: |old(claims)| <= i < |claims| ==>
                claims[i] == WorkAt(store.tables, claims[i].root) &&
                Claimable(Pool(store.tables, claims[..i], delayed.entries), now, claims[i].root)
      ensures |claims| == WORKER_COUNT || ClaimedBytes(claims) >= MAX_IN_FLIGHT_BYTES || !Readable(store.tables, version) ||
              forall s :: !Admissible(store.tables, now, ClaimedScopes(claims + DelayedWorks(delayed.entries)), Allowance(claims), s)
    {
      hide Inv, Readable, Admissible, WorkAt, Eligible;
      while |claims| < WORKER_COUNT
        invariant ClaimsOk(claims)
        invariant |old(claims)| <= |claims| && claims[..|old(claims)|] == old(claims)
        invariant forall i :: |old(claims)| <= i < |claims| ==>
                    claims[i] == WorkAt(store.tables, claims[i].root) &&
                    Claimable(Pool(store.tables, claims[..i], delayed.entries), now, claims[i].root)
        decreases WORKER_COUNT - |claims|
      {
        var used := UsedBytes(claims);
        var limit := 0;
        if |claims| > 0 {
          if used >= MAX_IN_FLIGHT_BYTES {
            break;
          }
          limit := MAX_IN_FLIGHT_BYTES - used;
        }
        var excluded := delayed.Excluding(claims);
        var loaded := store.LoadWorkExcluding(version, excluded, limit, now);
        if !loaded.Found? {
          break;
        }
        var work := loaded.work;
        AdmittedWorkFits(store.tables, now, excluded, limit, work);
        ClaimFits(claims, excluded[|claims|..], work) by { assert claims + excluded[|claims|..] == excluded; }
        ghost var before := claims;
        assert Claimable(Pool(store.tables, before, delayed.entries), now, work.root);
        claims := claims + [work];
        assert forall i :: 0 <= i <= |before| ==> claims[..i] == before[..i];
      }
    }

    /** A worker finished: exactly its own claim is released, whatever order workers
        finish in, and stale work is set aside for a moment. */
    method Complete(work: Work, failed: bool, published: bool, now: int)
      requires Valid() && work in claims
      modifies this, delayed
      ensures Valid()
      ensures exists i :: 0 <= i < |old(claims)| && old(claims)[i] == work && claims == Without(old(claims), i)
      ensures delayed.entries ==
              if failed || published then old(delayed.entries) else Added(old(delayed.entries), work, now)
    {
      var index := 0;
      while claims[index].root != work.root
        invariant 0 <= index < |claims|
        invariant forall j :: 0 <= j < index ==> claims[j].root != work.root
        decreases |claims| - index
      {
        assert exists j :: index < j < |claims| && claims[j] == work by {
          var j :| 0 <= j < |claims| && claims[j] == work;
        }
        index := index + 1;
      }
      ghost var own :| 0 <= own < |claims| && claims[own] == work;
      RootsDiffer(claims, index, own);
      WithoutKeepsClaimsOk(claims, index);
      ghost var before := claims;
      claims := claims[..index] + claims[index + 1..];
      assert claims == Without(before, index);
      if !failed && !published {
        delayed.Add(work, now);
      }
    }

    /** Forgets delays that have passed. */
    method Tick(now: int)
      requires Valid()
      modifies delayed
      ensures Valid() && delayed.entries == StillDelayed(old(delayed.entries), now)
    {
      delayed.Prune(now);
    }
  }

  method UsedBytes(claims: seq<Work>) returns (used: nat)
    ensures used == ClaimedBytes(claims)
  {
    used := 0;
    for i := 0 to |claims|
      invariant used == ClaimedBytes(claims[..i])
    {
      assert claims[..i + 1][..i] == claims[..i];
      used := used + claims[i].bytes;
    }
    assert claims[..|claims|] == claims;
  }

  lemma AdmittedWorkFits(db: Db, now: int, excluded: seq<Work>, limit: nat, w: Work)
    requires Admissible(db, now, ClaimedScopes(excluded), limit, w.root) && w == WorkAt(db, w.root)
    ensures w.root in w.scopes && w.scopes.Keys !! ClaimedScopes(excluded)
    ensures limit > 0 ==> w.bytes <= limit
  {
    hide TotalSize;
    assert w.root in db.scopes;
    OwnRow(db, w.root);
  }
}
