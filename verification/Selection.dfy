/** Choosing the next component to interpret: the order of candidates, what makes a
    component admissible, and the paged scan over pending scopes. */
module Selection {
  import opened Basics
  import opened Reachability
  import opened DataModel
  import opened StoreSpec
  import opened StoreInvariant
  import opened StoreHistory

  datatype Candidate = Candidate(scope: Scope, revision: int)

  /** Oldest revision first, then text order of the scope. */
  predicate Before(a: Candidate, b: Candidate)
  {
    a.revision < b.revision || (a.revision == b.revision && TextLess(a.scope, b.scope))
  }

  lemma BeforeIsStrictOrder(a: Candidate, b: Candidate, c: Candidate)
    ensures !Before(a, a)
    ensures Before(a, b) && Before(b, c) ==> Before(a, c)
    ensures a == b || Before(a, b) || Before(b, a)
  {
    TextLessIrreflexive(a.scope);
    TextLessTotal(a.scope, b.scope);
    if TextLess(a.scope, b.scope) && TextLess(b.scope, c.scope) {
      TextLessTransitive(a.scope, b.scope, c.scope);
    }
  }

  function CandidateOf(db: Db, s: Scope): Candidate
    requires s in db.scopes
  {
    Candidate(s, db.scopes[s].revision)
  }

  /** The component of s touches no claimed scope and fits the byte allowance. */
  ghost predicate Available(db: Db, claimed: set<Scope>, maxBytes: nat, s: Scope)
  {
    && ComponentRows(db, s).Keys !! claimed
    && (maxBytes == 0 || TotalSize(ComponentEvidence(db, s)) <= maxBytes)
  }

  ghost predicate Admissible(db: Db, now: int, claimed: set<Scope>, maxBytes: nat, s: Scope)
  {
    Eligible(db, now, s) && Available(db, claimed, maxBytes, s)
  }

  lemma {:induction false} LeastExists(candidates: set<Candidate>)
    requires candidates != {}
    ensures exists c :: c in candidates && forall d :: d in candidates ==> d == c || Before(c, d)
  {
    var x :| x in candidates;
    if y :| y in candidates && y != x {
      var rest := candidates - {x};
      assert y in rest;
      LeastExists(rest);
      var c :| c in rest && forall d :: d in rest ==> d == c || Before(c, d);
      BeforeIsStrictOrder(x, c, c);
      if Before(c, x) {
        assert forall d :: d in candidates ==> d == c || Before(c, d);
      } else {
        forall d | d in candidates
          ensures d == x || Before(x, d)
        {
          BeforeIsStrictOrder(x, c, d);
        }
      }
    }
  }

  /** The candidates after a cursor, in order, at most one page of them. */
  method CandidatePage(scopes: map<Scope, ScopeRow>, target: nat, now: int, cursor: Candidate, limit: nat)
    returns (page: seq<Candidate>)
    requires limit > 0
    ensures forall i :: 0 <= i < |page| ==>
              && page[i].scope in scopes && page[i].revision == scopes[page[i].scope].revision
              && Waiting(scopes, target, now, page[i].scope) && Before(cursor, page[i])
    ensures forall i, j :: 0 <= i < j < |page| ==> Before(page[i], page[j])
    ensures forall s :: s in scopes && Waiting(scopes, target, now, s) && Before(cursor, Candidate(s, scopes[s].revision)) ==>
              Candidate(s, scopes[s].revision) in page ||
              (page != [] && Before(page[|page| - 1], Candidate(s, scopes[s].revision)))
  {
    var remaining := set s | s in scopes && Waiting(scopes, target, now, s) && Before(cursor, Candidate(s, scopes[s].revision))
                       :: Candidate(s, scopes[s].revision);
    ghost var all := remaining;
    page := [];
    while remaining != {} && |page| < limit
      invariant remaining <= all
      invariant forall c :: c in all ==> c in remaining || c in page
      invariant forall i :: 0 <= i < |page| ==> page[i] in all
      invariant forall i, j :: 0 <= i < j < |page| ==> Before(page[i], page[j])
      invariant forall i, c :: 0 <= i < |page| && c in remaining ==> Before(page[i], c)
      decreases |remaining|
    {
      LeastExists(remaining);
      var next :| next in remaining && forall d :: d in remaining ==> d == next || Before(next, d);
      page := page + [next];
      remaining := remaining - {next};
    }
    assert forall s :: s in scopes && Waiting(scopes, target, now, s) && Before(cursor, Candidate(s, scopes[s].revision)) ==>
      Candidate(s, scopes[s].revision) in all;
  }

  /** Pending and past its retry time. */
  predicate Waiting(scopes: map<Scope, ScopeRow>, target: nat, now: int, s: Scope)
    requires s in scopes
  {
    (scopes[s].processed != scopes[s].revision || scopes[s].generation != target) && scopes[s].retryAt <= now
  }

  lemma WaitingIsEligible(db: Db, now: int)
    ensures forall s :: s in db.scopes ==> (Waiting(db.scopes, db.meta.target, now, s) <==> Eligible(db, now, s))
  {
  }

  /** Members of one component are available together or not at all. */
  lemma AvailableTogether(db: Db, claimed: set<Scope>, maxBytes: nat, s: Scope, x: Scope)
    requires s in db.scopes && x in ComponentRows(db, s)
    ensures ComponentRows(db, x) == ComponentRows(db, s)
    ensures s in ComponentRows(db, x)
    ensures Available(db, claimed, maxBytes, x) == Available(db, claimed, maxBytes, s)
  {
    SameComponent(db.deps, s, x);
    assert Component(db, x) == Component(db, s);
  }

  // ----- sizes -----

  lemma {:induction false} TotalSizeRemove(evidence: map<EvidenceId, Evidence>, id: EvidenceId)
    requires id in evidence
    ensures TotalSize(evidence) == evidence[id].size + TotalSize(evidence - {id})
    decreases |evidence|
  {
    assert evidence != map[];
    var first :| first in evidence && TotalSize(evidence) == evidence[first].size + TotalSize(evidence - {first});
    if first != id {
      assert |evidence - {first}| < |evidence| by { Shrinks(evidence, first); }
      assert |evidence - {id}| < |evidence| by { Shrinks(evidence, id); }
      TotalSizeRemove(evidence - {first}, id);
      TotalSizeRemove(evidence - {id}, first);
      assert evidence - {first} - {id} == evidence - {id} - {first};
    }
  }

  lemma Shrinks(evidence: map<EvidenceId, Evidence>, id: EvidenceId)
    requires id in evidence
    ensures |evidence - {id}| == |evidence| - 1
  {
    assert (evidence - {id}).Keys == evidence.Keys - {id};
    assert |evidence.Keys| == |evidence| && |(evidence - {id}).Keys| == |evidence - {id}|;
  }

  method SumSizes(evidence: map<EvidenceId, Evidence>) returns (bytes: nat)
    ensures bytes == TotalSize(evidence)
  {
    bytes := 0;
    var rest := evidence;
    while rest.Keys != {}
      invariant bytes + TotalSize(rest) == TotalSize(evidence)
      decreases rest.Keys
    {
      var id :| id in rest.Keys;
      TotalSizeRemove(rest, id);
      bytes := bytes + rest[id].size;
      rest := rest - {id};
    }
    assert rest == map[];
  }

  /** Rows and records of one component, as the store's queries read them. */
  method ReadComponent(scopes: map<Scope, ScopeRow>, deps: set<Edge>, root: Scope)
    returns (members: set<Scope>, rows: map<Scope, nat>)
    ensures members == (if root in scopes then Reachable(Undirected(deps), {root}) else {})
    ensures rows == map s | s in members && s in scopes :: scopes[s].revision
  {
    members := {};
    if root in scopes {
      members := Explore(Undirected(deps), {root});
    }
    rows := map s | s in members && s in scopes :: scopes[s].revision;
  }

  // ----- the scan -----

  const CANDIDATE_PAGE_SIZE: nat := 32

  function ClaimedScopes(claims: seq<Work>): set<Scope>
  {
    set i, s | 0 <= i < |claims| && s in claims[i].scopes :: s
  }

  method CollectClaims(claims: seq<Work>) returns (claimed: set<Scope>)
    ensures claimed == ClaimedScopes(claims)
  {
    claimed := {};
    for i := 0 to |claims|
      invariant claimed == set j, s | 0 <= j < i && s in claims[j].scopes :: s
    {
      claimed := claimed + claims[i].scopes.Keys;
    }
  }

  function After(db: Db, now: int, cursor: Candidate): set<Scope>
  {
    set s | s in db.scopes && Eligible(db, now, s) && Before(cursor, CandidateOf(db, s))
  }

  /** Everything excluded is claimed or a whole unavailable component, and nothing
      available lies at or before the cursor. */
  ghost predicate ScanOk(db: Db, now: int, claimed: set<Scope>, maxBytes: nat, excluded: set<Scope>, cursor: Candidate)
  {
    && claimed <= excluded
    && (forall x :: x in excluded && x !in claimed ==>
          x in db.scopes && !Available(db, claimed, maxBytes, x) && ComponentRows(db, x).Keys <= excluded)
    && (forall s :: s in db.scopes && Eligible(db, now, s) && !Before(cursor, CandidateOf(db, s)) ==>
          !Available(db, claimed, maxBytes, s))
  }

  /** page holds eligible candidates after start, in order and without gaps. */
  predicate IsPage(db: Db, now: int, start: Candidate, page: seq<Candidate>)
  {
    && (forall i :: 0 <= i < |page| ==>
          page[i].scope in db.scopes && page[i] == CandidateOf(db, page[i].scope) && Eligible(db, now, page[i].scope) &&
          Before(start, page[i]))
    && (forall i, j :: 0 <= i < j < |page| ==> Before(page[i], page[j]))
    && (forall s :: s in db.scopes && Eligible(db, now, s) && Before(start, CandidateOf(db, s)) ==>
          CandidateOf(db, s) in page || (page != [] && Before(page[|page| - 1], CandidateOf(db, s))))
  }

  /** next is the first eligible candidate after previous. */
  predicate Successor(db: Db, now: int, previous: Candidate, next: Candidate)
  {
    && next.scope in db.scopes && next == CandidateOf(db, next.scope) && Eligible(db, now, next.scope)
    && Before(previous, next)
    && forall s :: s in db.scopes && Eligible(db, now, s) && Before(previous, CandidateOf(db, s)) ==>
         CandidateOf(db, s) == next || Before(next, CandidateOf(db, s))
  }

  lemma PageIsNext(db: Db, now: int, start: Candidate, page: seq<Candidate>, i: nat)
    requires IsPage(db, now, start, page) && i < |page|
    ensures Successor(db, now, if i == 0 then start else page[i - 1], page[i])
  {
    hide Eligible;
    var previous := if i == 0 then start else page[i - 1];
    forall s | s in db.scopes && Eligible(db, now, s) && Before(previous, CandidateOf(db, s))
      ensures CandidateOf(db, s) == page[i] || Before(page[i], CandidateOf(db, s))
    {
      var c := CandidateOf(db, s);
      BeforeIsStrictOrder(start, previous, c);
      BeforeIsStrictOrder(page[i], page[|page| - 1], c);
      if c in page {
        var j :| 0 <= j < |page| && page[j] == c;
        BeforeIsStrictOrder(c, previous, c);
      }
    }
  }

  lemma PageShrinks(db: Db, now: int, start: Candidate, page: seq<Candidate>)
    requires IsPage(db, now, start, page) && page != []
    ensures |After(db, now, page[|page| - 1])| < |After(db, now, start)|
  {
    hide Eligible;
    var last := page[|page| - 1];
    forall s | s in After(db, now, last)
      ensures s in After(db, now, start)
    {
      BeforeIsStrictOrder(start, last, CandidateOf(db, s));
    }
    BeforeIsStrictOrder(last, last, last);
    assert last.scope in After(db, now, start) && last.scope !in After(db, now, last);
    SubsetSmaller(After(db, now, last), After(db, now, start));
  }

  lemma CursorStartsFirst(db: Db, now: int, claimed: set<Scope>, maxBytes: nat)
    ensures ScanOk(db, now, claimed, maxBytes, claimed, Candidate("", -1))
  {
    hide Available, Eligible;
  }

  lemma ScanEnds(db: Db, now: int, claimed: set<Scope>, maxBytes: nat, excluded: set<Scope>, cursor: Candidate)
    requires ScanOk(db, now, claimed, maxBytes, excluded, cursor) && IsPage(db, now, cursor, [])
    ensures forall s :: !Admissible(db, now, claimed, maxBytes, s)
  {
    hide Available;
  }

  lemma FoundIsLeast(db: Db, now: int, claimed: set<Scope>, maxBytes: nat, excluded: set<Scope>, previous: Candidate, next: Candidate)
    requires ScanOk(db, now, claimed, maxBytes, excluded, previous) && Successor(db, now, previous, next)
    requires ComponentRows(db, next.scope).Keys !! excluded
    requires maxBytes == 0 || TotalSize(ComponentEvidence(db, next.scope)) <= maxBytes
    ensures Admissible(db, now, claimed, maxBytes, next.scope)
    ensures forall s :: Admissible(db, now, claimed, maxBytes, s) ==>
              !Before(CandidateOf(db, s), CandidateOf(db, next.scope))
  {
    hide TotalSize, ComponentRows, ComponentEvidence, Component;
    forall s | Admissible(db, now, claimed, maxBytes, s)
      ensures !Before(CandidateOf(db, s), next)
    {
      BeforeIsStrictOrder(next, CandidateOf(db, s), next);
    }
  }

  lemma OwnRow(db: Db, s: Scope)
    requires s in db.scopes
    ensures s in ComponentRows(db, s)
  {
    ReachableIsClosed(Undirected(db.deps), {s});
  }

  lemma SkippedAdvances(db: Db, now: int, claimed: set<Scope>, maxBytes: nat, excluded: set<Scope>, previous: Candidate, next: Candidate)
    requires ScanOk(db, now, claimed, maxBytes, excluded, previous) && Successor(db, now, previous, next)
    requires !Available(db, claimed, maxBytes, next.scope)
    ensures ScanOk(db, now, claimed, maxBytes, excluded, next)
  {
    hide Available, Eligible, ComponentRows;
    forall s | s in db.scopes && Eligible(db, now, s) && !Before(next, CandidateOf(db, s))
      ensures !Available(db, claimed, maxBytes, s)
    {
      if CandidateOf(db, s) != next {
        assert !Before(previous, CandidateOf(db, s));
      }
    }
  }

  lemma SkipExcluded(db: Db, now: int, claimed: set<Scope>, maxBytes: nat, excluded: set<Scope>, previous: Candidate, next: Candidate)
    requires ScanOk(db, now, claimed, maxBytes, excluded, previous) && Successor(db, now, previous, next)
    requires next.scope in excluded
    ensures ScanOk(db, now, claimed, maxBytes, excluded, next)
  {
    hide ComponentRows, TotalSize;
    OwnRow(db, next.scope);
    SkippedAdvances(db, now, claimed, maxBytes, excluded, previous, next);
  }

  lemma ExcludeMore(db: Db, now: int, claimed: set<Scope>, maxBytes: nat, excluded: set<Scope>, more: set<Scope>, cursor: Candidate)
    requires ScanOk(db, now, claimed, maxBytes, excluded, cursor)
    requires forall x :: x in more ==>
               x in db.scopes && !Available(db, claimed, maxBytes, x) && ComponentRows(db, x).Keys <= more
    ensures ScanOk(db, now, claimed, maxBytes, excluded + more, cursor)
  {
    hide Available, ComponentRows, Eligible, Before;
  }

  lemma SkipComponent(db: Db, now: int, claimed: set<Scope>, maxBytes: nat, excluded: set<Scope>, previous: Candidate, next: Candidate)
    requires ScanOk(db, now, claimed, maxBytes, excluded, previous) && Successor(db, now, previous, next)
    requires next.scope !in excluded
    requires !(ComponentRows(db, next.scope).Keys !! excluded) ||
             !(maxBytes == 0 || TotalSize(ComponentEvidence(db, next.scope)) <= maxBytes)
    ensures ScanOk(db, now, claimed, maxBytes, excluded + ComponentRows(db, next.scope).Keys, next)
  {
    hide ComponentRows, TotalSize, Eligible, Available, ScanOk, Before;
    BlockedIsUnavailable(db, now, claimed, maxBytes, excluded, previous, next);
    SkippedAdvances(db, now, claimed, maxBytes, excluded, previous, next);
    RowsAreScopes(db, next.scope);
    forall x | x in ComponentRows(db, next.scope)
      ensures !Available(db, claimed, maxBytes, x) && ComponentRows(db, x) == ComponentRows(db, next.scope)
    {
      AvailableTogether(db, claimed, maxBytes, next.scope, x);
    }
    ExcludeMore(db, now, claimed, maxBytes, excluded, ComponentRows(db, next.scope).Keys, next);
  }

  lemma RowsAreScopes(db: Db, s: Scope)
    ensures ComponentRows(db, s).Keys <= db.scopes.Keys
  {
  }

  /** A component can only be blocked by a claim: an earlier skipped component that
      shared a member would have been this one. */
  lemma BlockedIsUnavailable(db: Db, now: int, claimed: set<Scope>, maxBytes: nat, excluded: set<Scope>, previous: Candidate, next: Candidate)
    requires ScanOk(db, now, claimed, maxBytes, excluded, previous) && next.scope in db.scopes && next.scope !in excluded
    requires !(ComponentRows(db, next.scope).Keys !! excluded) ||
             !(maxBytes == 0 || TotalSize(ComponentEvidence(db, next.scope)) <= maxBytes)
    ensures !Available(db, claimed, maxBytes, next.scope)
  {
    hide ComponentRows, TotalSize, Eligible;
    var rows := ComponentRows(db, next.scope);
    forall m | m in rows && m in excluded
      ensures m in claimed
    {
      AvailableTogether(db, claimed, maxBytes, next.scope, m);
    }
  }

  /** What the least admissible candidate is, on the tables themselves. */
  lemma FoundIsDue(db: Db, now: int, claims: seq<Work>, maxBytes: nat, found: Scope)
    requires Admissible(db, now, ClaimedScopes(claims), maxBytes, found)
    requires forall s :: Admissible(db, now, ClaimedScopes(claims), maxBytes, s) ==> !Before(CandidateOf(db, s), CandidateOf(db, found))
    ensures found in db.scopes
    ensures var row := db.scopes[found];
            && (row.processed != row.revision || row.generation != db.meta.target) && row.retryAt <= now
            && (forall i :: 0 <= i < |claims| ==> ComponentRows(db, found).Keys !! claims[i].scopes.Keys)
            && (maxBytes == 0 || TotalSize(ComponentEvidence(db, found)) <= maxBytes)
            && forall s :: Admissible(db, now, ClaimedScopes(claims), maxBytes, s) ==>
                 row.revision <= db.scopes[s].revision &&
                 (row.revision == db.scopes[s].revision ==> !TextLess(s, found))
  {
    hide ComponentRows, ComponentEvidence, TotalSize, TextLess;
    forall i | 0 <= i < |claims|
      ensures ComponentRows(db, found).Keys !! claims[i].scopes.Keys
    {
      assert claims[i].scopes.Keys <= ClaimedScopes(claims);
    }
  }

  /** What keeps every due scope from being admissible, on the tables themselves. */
  lemma NothingAdmissible(db: Db, now: int, claims: seq<Work>, maxBytes: nat)
    requires forall s :: !Admissible(db, now, ClaimedScopes(claims), maxBytes, s)
    ensures forall s :: s in db.scopes && Waiting(db.scopes, db.meta.target, now, s) ==>
                (exists i :: 0 <= i < |claims| && !(ComponentRows(db, s).Keys !! claims[i].scopes.Keys)) ||
                0 < maxBytes < TotalSize(ComponentEvidence(db, s))
  {
    hide ComponentRows, ComponentEvidence, TotalSize;
    forall s | s in db.scopes && Waiting(db.scopes, db.meta.target, now, s)
      ensures (exists i :: 0 <= i < |claims| && !(ComponentRows(db, s).Keys !! claims[i].scopes.Keys)) ||
              0 < maxBytes < TotalSize(ComponentEvidence(db, s))
    {
      assert Eligible(db, now, s);
      assert !Admissible(db, now, ClaimedScopes(claims), maxBytes, s);
      assert !Available(db, ClaimedScopes(claims), maxBytes, s);
      if m :| m in ComponentRows(db, s).Keys && m in ClaimedScopes(claims) {
        var i :| 0 <= i < |claims| && m in claims[i].scopes;
        assert m in claims[i].scopes.Keys;
      }
    }
  }
}
