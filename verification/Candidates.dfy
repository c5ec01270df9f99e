/** Usage records after parsing: one candidate for each record whose counters were
    readable, before it is known which of them count. */
module Candidates {
  import opened Basics
  import opened DataModel
  import opened Tokens

  datatype Harness = OpenCode | Pi | ClaudeCode | Codex

  /** One usage fact. Its identity holds its session (as a scope); counters stands for
      everything compared between two observations of it, location for what is not. */
  datatype Usage = Usage(id: FactId, harness: Harness, message: string, request: string,
                         occurredAt: int, counters: string, location: string)

  /** What Codex records add: the native turn, the replay fingerprint ("" when the
      snapshot proves nothing) and the cumulative counters. */
  datatype Witness = Witness(turn: string, fingerprint: string, cumulative: Option<Counts>)

  /** code is "" for a candidate that may count, otherwise why it may not. */
  datatype Candidate = Candidate(evidence: EvidenceId, format: string, ordinal: nat,
                                 usage: Usage, code: string, codex: Option<Witness>)

  // ----- stable sorting, as the library's sort of distinct keys -----

  function Inserted<T>(sorted: seq<T>, x: T, before: (T, T) -> bool): seq<T>
  {
    if sorted == [] || !before(x, sorted[|sorted| - 1]) then sorted + [x]
    else Inserted(sorted[..|sorted| - 1], x, before) + [sorted[|sorted| - 1]]
  }

  function Sorted<T>(s: seq<T>, before: (T, T) -> bool): seq<T>
  {
    if s == [] then [] else Inserted(Sorted(s[..|s| - 1], before), s[|s| - 1], before)
  }

  lemma {:induction false} InsertedHolds<T>(sorted: seq<T>, x: T, before: (T, T) -> bool)
    ensures multiset(Inserted(sorted, x, before)) == multiset(sorted) + multiset{x}
  {
    if !(sorted == [] || !before(x, sorted[|sorted| - 1])) {
      InsertedHolds(sorted[..|sorted| - 1], x, before);
      assert sorted == sorted[..|sorted| - 1] + [sorted[|sorted| - 1]];
    }
  }

  /** Sorting loses nothing and adds nothing. */
  lemma {:induction false} SortedHolds<T>(s: seq<T>, before: (T, T) -> bool)
    ensures multiset(Sorted(s, before)) == multiset(s)
  {
    if s != [] {
      SortedHolds(s[..|s| - 1], before);
      InsertedHolds(Sorted(s[..|s| - 1], before), s[|s| - 1], before);
      assert s == s[..|s| - 1] + [s[|s| - 1]];
    }
  }

  lemma SortedMembers<T>(s: seq<T>, before: (T, T) -> bool)
    ensures |Sorted(s, before)| == |s| && forall x :: x in Sorted(s, before) <==> x in s
  {
    SortedHolds(s, before);
    assert |multiset(Sorted(s, before))| == |multiset(s)|;
    assert forall x :: x in Sorted(s, before) <==> x in multiset(Sorted(s, before));
    assert forall x :: x in s <==> x in multiset(s);
  }

  ghost predicate Ordered<T(!new)>(s: seq<T>, before: (T, T) -> bool)
  {
    forall i, j :: 0 <= i < j < |s| ==> !before(s[j], s[i])
  }

  ghost predicate StrictOrder<T(!new)>(before: (T, T) -> bool)
  {
    && (forall a, b :: before(a, b) ==> !before(b, a))
    && (forall a, b, c :: before(a, b) && before(b, c) ==> before(a, c))
    && (forall a, b, c :: before(a, c) ==> before(a, b) || before(b, c))
  }

  lemma {:induction false} InsertedIsOrdered<T(!new)>(sorted: seq<T>, x: T, before: (T, T) -> bool)
    requires Ordered(sorted, before) && StrictOrder(before)
    ensures Ordered(Inserted(sorted, x, before), before)
  {
    if sorted == [] || !before(x, sorted[|sorted| - 1]) {
      var all := sorted + [x];
      forall i, j | 0 <= i < j < |all|
        ensures !before(all[j], all[i])
      {
        assert j < |sorted| || i == |sorted| - 1 || !before(sorted[|sorted| - 1], sorted[i]);
      }
    } else {
      var front, last := sorted[..|sorted| - 1], sorted[|sorted| - 1];
      InsertedIsOrdered(front, x, before);
      InsertedHolds(front, x, before);
      var placed := Inserted(front, x, before);
      var all := placed + [last];
      forall i, j | 0 <= i < j < |all|
        ensures !before(all[j], all[i])
      {
        if j == |placed| {
          assert placed[i] in multiset(placed);
          assert placed[i] == x || placed[i] in front;
        }
      }
    }
  }

  lemma {:induction false} SortedIsOrdered<T(!new)>(s: seq<T>, before: (T, T) -> bool)
    requires StrictOrder(before)
    ensures Ordered(Sorted(s, before), before)
  {
    if s != [] {
      SortedIsOrdered(s[..|s| - 1], before);
      InsertedIsOrdered(Sorted(s[..|s| - 1], before), s[|s| - 1], before);
    }
  }
}
