/** Token counters as each harness reports them, turned into exclusive components.
    All arithmetic is on 64-bit integers: that it never overflows is part of what is
    checked. */
module Tokens {
  import opened Basics

  const MAX_INT64: int := 0x7fff_ffff_ffff_ffff

  newtype int64 = x: int | -0x8000_0000_0000_0000 <= x <= 0x7fff_ffff_ffff_ffff

  const SAFE_TOTAL: int64 := 9007199254740991

  /** A counter field of a source record: absent, not an integer, or an integer. */
  datatype Field = Missing | Malformed | Integer(value: int64)

  datatype Counts = Counts(input: Option<int64>, output: Option<int64>, reasoning: Option<int64>,
                           cacheRead: Option<int64>, cacheWrite: Option<int64>, total: Option<int64>)

  datatype TokenError = InvalidTokens | MissingTokens | InvalidReasoning

  datatype Diagnostic = NegativeTokens | InclusiveInput | InconsistentTotal | UnusableReasoning

  datatype FactTokens = FactTokens(input: int64, output: int64, reasoning: int64, cacheRead: int64,
                                   cacheWrite: int64, total: int64)

  // ----- values -----

  function Counted(f: Field): Option<int64>
  {
    if f.Integer? then Some(f.value) else None
  }

  function OrZero(v: Option<int64>): int64
  {
    if v.Some? then v.value else 0
  }

  function Amount(v: Option<int64>): int
  {
    OrZero(v) as int
  }

  function Floor(v: Option<int64>): Option<int64>
  {
    if v.Some? && v.value < 0 then Some(0) else v
  }

  predicate Negative(v: Option<int64>)
  {
    v.Some? && v.value < 0
  }

  predicate NonNegative(v: Option<int64>)
  {
    v.Some? ==> v.value >= 0
  }

  function Sum(values: seq<Option<int64>>): int
  {
    if values == [] then 0 else Sum(values[..|values| - 1]) + Amount(values[|values| - 1])
  }

  function ExclusiveSum(c: Counts): int
  {
    Amount(c.input) + Amount(c.output) + Amount(c.reasoning)
    + Amount(c.cacheRead) + Amount(c.cacheWrite)
  }

  predicate AllNonNegative(c: Counts)
  {
    NonNegative(c.input) && NonNegative(c.output) && NonNegative(c.reasoning) && NonNegative(c.cacheRead)
    && NonNegative(c.cacheWrite) && NonNegative(c.total)
  }

  predicate Empty(c: Counts)
  {
    c.input.None? && c.output.None? && c.reasoning.None? && c.cacheRead.None? && c.cacheWrite.None? && c.total.None?
  }

  predicate AnyNegative(c: Counts)
  {
    Negative(c.input) || Negative(c.output) || Negative(c.reasoning) || Negative(c.cacheRead)
    || Negative(c.cacheWrite) || Negative(c.total)
  }

  lemma {:induction false} SumNonNegative(values: seq<Option<int64>>, n: nat)
    requires n <= |values| && forall i :: 0 <= i < |values| ==> NonNegative(values[i])
    ensures 0 <= Sum(values[..n]) <= Sum(values)
    decreases |values|
  {
    if n < |values| {
      var front := values[..|values| - 1];
      SumNonNegative(front, n);
      assert values[..n] == front[..n];
    } else if values != [] {
      SumNonNegative(values[..|values| - 1], |values| - 1);
      assert values[..n] == values && values[..|values| - 1][..|values| - 1] == values[..|values| - 1];
    } else {
      assert values[..n] == [];
    }
  }

  // ----- sums -----

  /** The sum of the present components, or nothing if one is negative or the exact
      sum leaves the 64-bit range. */
  method TokenComponentSum(values: seq<Option<int64>>) returns (r: Option<int64>)
    ensures r.Some? <==> (forall i :: 0 <= i < |values| ==> NonNegative(values[i])) && Sum(values) <= MAX_INT64
    ensures r.Some? ==> r.value as int == Sum(values)
  {
    var total: int64 := 0;
    var i := 0;
    while i < |values|
      invariant 0 <= i <= |values|
      invariant forall k :: 0 <= k < i ==> NonNegative(values[k])
      invariant total as int == Sum(values[..i]) && total >= 0
    {
      assert values[..i + 1][..i] == values[..i];
      if values[i].Some? {
        if values[i].value < 0 {
          return None;
        }
        if values[i].value > 0x7fff_ffff_ffff_ffff - total {
          if forall k :: 0 <= k < |values| ==> NonNegative(values[k]) {
            SumNonNegative(values, i + 1);
          }
          return None;
        }
        total := total + values[i].value;
      }
      i := i + 1;
    }
    assert values[..i] == values;
    r := Some(total);
  }

  method ClampToken(value: Option<int64>, clamped: bool) returns (v: Option<int64>, c: bool)
    ensures v == Floor(value) && c == (clamped || Negative(value))
  {
    if value.None? || value.value >= 0 {
      return value, clamped;
    }
    return Some(0), true;
  }

  method ClampAll(counts: Counts) returns (c: Counts, clamped: bool)
    ensures c == Counts(Floor(counts.input), Floor(counts.output), Floor(counts.reasoning), Floor(counts.cacheRead),
                        Floor(counts.cacheWrite), Floor(counts.total))
    ensures clamped == AnyNegative(counts)
  {
    clamped := false;
    c := counts;
    var v: Option<int64>;
    v, clamped := ClampToken(c.input, clamped);
    c := c.(input := v);
    v, clamped := ClampToken(c.output, clamped);
    c := c.(output := v);
    v, clamped := ClampToken(c.reasoning, clamped);
    c := c.(reasoning := v);
    v, clamped := ClampToken(c.cacheRead, clamped);
    c := c.(cacheRead := v);
    v, clamped := ClampToken(c.cacheWrite, clamped);
    c := c.(cacheWrite := v);
    v, clamped := ClampToken(c.total, clamped);
    c := c.(total := v);
  }

  function LargerInt(left: Option<int64>, right: Option<int64>): Option<int64>
  {
    if left.None? then right
    else if right.None? || left.value >= right.value then left
    else right
  }

  lemma SumOfExtended(values: seq<Option<int64>>, v: Option<int64>)
    ensures Sum(values + [v]) == Sum(values) + Amount(v)
  {
    assert (values + [v])[..|values|] == values;
  }

  lemma SumOfFive(a: Option<int64>, b: Option<int64>, c: Option<int64>, d: Option<int64>, e: Option<int64>)
    ensures Sum([a, b, c, d, e]) == Amount(a) + Amount(b) + Amount(c) + Amount(d) + Amount(e)
    ensures Sum([a, b, c, d]) == Amount(a) + Amount(b) + Amount(c) + Amount(d)
    ensures Sum([a, b]) == Amount(a) + Amount(b)
  {
    hide Sum;
    EmptySum();
    SumOfExtended([], a);
    SumOfExtended([a], b);
    SumOfExtended([a, b], c);
    SumOfExtended([a, b, c], d);
    SumOfExtended([a, b, c, d], e);
    assert [] + [a] == [a] && [a] + [b] == [a, b] && [a, b] + [c] == [a, b, c] && [a, b, c] + [d] == [a, b, c, d]
           && [a, b, c, d] + [e] == [a, b, c, d, e];
  }

  lemma EmptySum()
    ensures Sum([]) == 0
  {
  }

  method SumOfComponents(input: Option<int64>, output: Option<int64>, reasoning: Option<int64>,
                         cacheRead: Option<int64>, cacheWrite: Option<int64>) returns (r: Option<int64>)
    ensures var sum := ExclusiveSum(Counts(input, output, reasoning, cacheRead, cacheWrite, None));
            && (r.Some? <==> NonNegative(input) && NonNegative(output) && NonNegative(reasoning) && NonNegative(cacheRead)
                             && NonNegative(cacheWrite) && sum <= MAX_INT64)
            && (r.Some? ==> r.value as int == sum)
  {
    hide Sum;
    var values := [input, output, reasoning, cacheRead, cacheWrite];
    SumOfFive(input, output, reasoning, cacheRead, cacheWrite);
    r := TokenComponentSum(values);
    assert values[0] == input && values[1] == output && values[2] == reasoning && values[3] == cacheRead && values[4] == cacheWrite;
  }

  /** Takes reasoning out of the output it was reported in, if it fits there. */
  method SeparateReasoning(c: Counts) returns (fits: bool, d: Counts)
    requires NonNegative(c.reasoning) && NonNegative(c.output)
    ensures fits <==> ReasoningFits(c.reasoning, c.output)
    ensures d == c.(output := d.output) && NonNegative(d.output) && (d.output.Some? <==> c.output.Some?)
    ensures if fits then Amount(d.output) + Amount(c.reasoning) == Amount(c.output) else d == c
  {
    if c.reasoning.Some? {
      if c.output.None? || c.reasoning.value > c.output.value {
        return false, c;
      }
      return true, c.(output := Some(c.output.value - c.reasoning.value));
    }
    return true, c;
  }

  // ----- what is remarked on the way -----

  function Remark(remarked: bool, d: Diagnostic): set<Diagnostic>
  {
    if remarked then {d} else {}
  }

  /** A usage with such a remark is estimated as invalid_source_counters; correcting a
      legacy input is no fault of the source. */
  predicate Suspect(remarks: set<Diagnostic>)
  {
    exists d :: d in remarks && d != InclusiveInput
  }

  // ----- Codex -----

  datatype CodexUsage = CodexUsage(input: Field, cachedInput: Field, cacheRead: Field, output: Field, reasoning: Field, total: Field)

  predicate CodexMalformed(u: CodexUsage)
  {
    u.input.Malformed? || u.cachedInput.Malformed? || u.cacheRead.Malformed? || u.output.Malformed?
    || u.reasoning.Malformed? || u.total.Malformed?
  }

  function CodexRaw(u: CodexUsage): Counts
  {
    Counts(Counted(u.input), Counted(u.output), Counted(u.reasoning),
           LargerInt(Counted(u.cachedInput), Counted(u.cacheRead)), None, Counted(u.total))
  }

  /** Reported reasoning is part of a reported output. */
  predicate ReasoningFits(reasoning: Option<int64>, output: Option<int64>)
  {
    reasoning.Some? ==> output.Some? && OrZero(Floor(reasoning)) <= OrZero(Floor(output))
  }

  /** What the components must add up to: the inclusive output, and the inclusive
      input or, where it is larger, the cached part. */
  function CodexTotal(raw: Counts): int
  {
    var input, cached := Amount(Floor(raw.input)), Amount(Floor(raw.cacheRead));
    Amount(Floor(raw.output)) + (if input >= cached then input else cached)
  }

  method CodexComponents(raw: Counts) returns (r: Result<(Counts, set<Diagnostic>), TokenError>)
    requires raw.cacheWrite.None?
    ensures r == Err(InvalidReasoning) <==> !ReasoningFits(raw.reasoning, raw.output)
    ensures r == Err(InvalidTokens) <==> ReasoningFits(raw.reasoning, raw.output) && CodexTotal(raw) > MAX_INT64
    ensures r != Err(MissingTokens)
    ensures r.Ok? ==> CodexConserved(raw, r.value.0) && r.value.1 == Remark(CodexClamped(raw), NegativeTokens)
  {
    hide AnyNegative;
    var counts, clamped := ClampAll(raw);
    var fits: bool;
    fits, counts := SeparateReasoning(counts);
    if !fits {
      return Err(InvalidReasoning);
    }
    if counts.input.Some? && counts.cacheRead.Some? {
      var input: Option<int64>;
      input, clamped := ClampToken(Some(counts.input.value - counts.cacheRead.value), clamped);
      counts := counts.(input := input);
    }
    var total := SumOfComponents(counts.input, counts.output, counts.reasoning, counts.cacheRead, None);
    if total.None? {
      return Err(InvalidTokens);
    }
    r := Ok((counts, Remark(clamped, NegativeTokens)));
  }

  predicate CodexConserved(raw: Counts, c: Counts)
  {
    && AllNonNegative(c) && c.cacheWrite.None?
    && c.reasoning == Floor(raw.reasoning) && c.cacheRead == Floor(raw.cacheRead) && c.total == Floor(raw.total)
    && (c.input.Some? <==> raw.input.Some?) && (c.output.Some? <==> raw.output.Some?)
    && Amount(c.output) + Amount(c.reasoning) == Amount(Floor(raw.output))
    && ExclusiveSum(c) == CodexTotal(raw) <= MAX_INT64
  }

  /** Something was negative, or more was cached than was put in. */
  predicate CodexClamped(raw: Counts)
  {
    AnyNegative(raw) || (raw.input.Some? && raw.cacheRead.Some? && Amount(Floor(raw.input)) < Amount(Floor(raw.cacheRead)))
  }

  /** Cached input is exclusive of input, reasoning of output. Counters are rejected
      exactly when malformed, absent, inconsistent or beyond 64 bits. */
  method CodexTokensFromUsage(u: CodexUsage) returns (r: Result<(Counts, set<Diagnostic>), TokenError>)
    ensures r == Err(MissingTokens) <==> !CodexMalformed(u) && Empty(CodexRaw(u))
    ensures r == Err(InvalidReasoning) <==>
              !CodexMalformed(u) && !Empty(CodexRaw(u)) && !ReasoningFits(CodexRaw(u).reasoning, CodexRaw(u).output)
    ensures r == Err(InvalidTokens) <==>
              CodexMalformed(u) || (!Empty(CodexRaw(u)) && ReasoningFits(CodexRaw(u).reasoning, CodexRaw(u).output)
                                    && CodexTotal(CodexRaw(u)) > MAX_INT64)
    ensures r.Ok? ==> CodexConserved(CodexRaw(u), r.value.0)
    ensures r.Ok? ==> r.value.1 == Remark(CodexClamped(CodexRaw(u)), NegativeTokens)
  {
    hide ReasoningFits, CodexTotal, Empty, CodexMalformed, CodexConserved, LargerInt;
    if CodexMalformed(u) {
      return Err(InvalidTokens);
    }
    var counts := CodexRaw(u);
    if Empty(counts) {
      return Err(MissingTokens);
    }
    r := CodexComponents(counts);
  }

  /** The size by which cumulative snapshots are ordered. Codex counts no cache writes. */
  function SnapshotSum(c: Counts): int
  {
    Amount(c.input) + Amount(c.output) + Amount(c.reasoning) + Amount(c.cacheRead)
  }

  /** Adding it up in 64 bits never overflows. */
  function CodexSum(c: Counts): (s: int64)
    requires AllNonNegative(c) && ExclusiveSum(c) <= MAX_INT64
    ensures s as int == SnapshotSum(c)
  {
    OrZero(c.input) + OrZero(c.output) + OrZero(c.reasoning) + OrZero(c.cacheRead)
  }

  // ----- Pi -----

  datatype SourceUsage = SourceUsage(input: Field, output: Field, reasoning: Field, cacheRead: Field, cacheWrite: Field, total: Field)

  predicate AnyMalformed(u: SourceUsage)
  {
    u.input.Malformed? || u.output.Malformed? || u.reasoning.Malformed? || u.cacheRead.Malformed?
    || u.cacheWrite.Malformed? || u.total.Malformed?
  }

  function Raw(u: SourceUsage): Counts
  {
    Counts(Counted(u.input), Counted(u.output), Counted(u.reasoning), Counted(u.cacheRead), Counted(u.cacheWrite), Counted(u.total))
  }

  /** Input, inclusive output and cache, as if none contained another. */
  function Apart(raw: Counts): int
  {
    Amount(Floor(raw.input)) + Amount(Floor(raw.output)) + Amount(Floor(raw.cacheRead)) + Amount(Floor(raw.cacheWrite))
  }

  function Cached(raw: Counts): int
  {
    Amount(Floor(raw.cacheRead)) + Amount(Floor(raw.cacheWrite))
  }

  /** A total that only fits if the input already contains the cached tokens. */
  predicate LegacyInclusive(raw: Counts)
  {
    var cached := Cached(raw);
    && raw.total.Some? && raw.input.Some? && cached > 0
    && Amount(Floor(raw.total)) != Apart(raw)
    && Amount(Floor(raw.input)) >= cached
    && Amount(Floor(raw.total)) == Amount(Floor(raw.input)) + Amount(Floor(raw.output))
  }

  predicate TotalSurvives(raw: Counts)
  {
    raw.total.Some? && (Amount(Floor(raw.total)) == Apart(raw) || LegacyInclusive(raw))
  }

  function TotalRemarks(raw: Counts): set<Diagnostic>
  {
    Remark(LegacyInclusive(raw), InclusiveInput) + Remark(raw.total.Some? && !TotalSurvives(raw), InconsistentTotal)
  }

  function PiRemarks(raw: Counts): set<Diagnostic>
  {
    Remark(AnyNegative(raw), NegativeTokens) + TotalRemarks(raw) +
    Remark(!ReasoningFits(raw.reasoning, raw.output), UnusableReasoning)
  }

  /** A source total that survives is the exact sum of the five components. */
  predicate PiConserved(raw: Counts, c: Counts)
  {
    && AllNonNegative(c)
    && c.reasoning == (if ReasoningFits(raw.reasoning, raw.output) then Floor(raw.reasoning) else None)
    && Amount(c.output) + Amount(c.reasoning) == Amount(Floor(raw.output))
    && c.cacheRead == Floor(raw.cacheRead) && c.cacheWrite == Floor(raw.cacheWrite)
    && (c.input.Some? <==> raw.input.Some?) && (c.output.Some? <==> raw.output.Some?)
    && Amount(c.input) == Amount(Floor(raw.input)) - (if LegacyInclusive(raw) then Cached(raw) else 0)
    && (c.total.Some? <==> TotalSurvives(raw))
    && (c.total.Some? ==> c.total == Floor(raw.total) && Amount(c.total) == ExclusiveSum(c))
    && ExclusiveSum(c) <= MAX_INT64
  }

  /** Clamped counters mean what they say. */
  lemma NothingToClamp(c: Counts)
    requires AllNonNegative(c)
    ensures Cached(c) == Amount(c.cacheRead) + Amount(c.cacheWrite) >= 0
    ensures Apart(c) == Amount(c.input) + Amount(c.output) + Cached(c)
    ensures LegacyInclusive(c) <==>
              c.total.Some? && c.input.Some? && Cached(c) > 0 && Amount(c.total) != Apart(c) &&
              Amount(c.input) >= Cached(c) && Amount(c.total) == Amount(c.input) + Amount(c.output)
    ensures TotalSurvives(c) <==> c.total.Some? && (Amount(c.total) == Apart(c) || LegacyInclusive(c))
  {
  }

  /** Settles the total against the components, reading the input as inclusive of the
      cache only where nothing else explains the total. */
  method SettlePiTotal(counts: Counts) returns (r: Option<Counts>, remarks: set<Diagnostic>)
    requires AllNonNegative(counts)
    ensures remarks == TotalRemarks(counts) || r.None?
    ensures r.Some? <==> Apart(counts) <= MAX_INT64
    ensures r.Some? ==>
              && AllNonNegative(r.value) && r.value == counts.(input := r.value.input, total := r.value.total)
              && (r.value.total.Some? ==> r.value.total == counts.total && Amount(r.value.total) == Apart(r.value))
              && (r.value.total.Some? <==> TotalSurvives(counts))
              && (r.value.input.Some? <==> counts.input.Some?)
              && Amount(r.value.input) == Amount(counts.input) - (if LegacyInclusive(counts) then Cached(counts) else 0)
  {
    hide Floor, Apart, Cached, LegacyInclusive, TotalSurvives;
    NothingToClamp(counts);
    var componentTotal := SumOfComponents(counts.input, counts.output, None, counts.cacheRead, counts.cacheWrite);
    if componentTotal.None? {
      return None, {};
    }
    if counts.total.Some? && counts.total.value != componentTotal.value {
      var cacheTotal := SumOfComponents(None, None, None, counts.cacheRead, counts.cacheWrite);
      var inclusiveTotal := SumOfComponents(counts.input, counts.output, None, None, None);
      if cacheTotal.Some? && inclusiveTotal.Some? && cacheTotal.value > 0 && counts.input.Some?
         && counts.input.value >= cacheTotal.value && counts.total.value == inclusiveTotal.value {
        var apart := counts.(input := Some(counts.input.value - cacheTotal.value));
        NothingToClamp(apart);
        return Some(apart), {InclusiveInput};
      }
      return Some(counts.(total := None)), {InconsistentTotal};
    }
    r, remarks := Some(counts), {};
  }

  lemma ClampingKeepsMeaning(raw: Counts, c: Counts)
    requires c == Counts(Floor(raw.input), Floor(raw.output), Floor(raw.reasoning), Floor(raw.cacheRead),
                         Floor(raw.cacheWrite), Floor(raw.total))
    ensures AllNonNegative(c) && Apart(c) == Apart(raw) && Cached(c) == Cached(raw)
    ensures LegacyInclusive(c) == LegacyInclusive(raw) && TotalSurvives(c) == TotalSurvives(raw)
    ensures ReasoningFits(c.reasoning, c.output) == ReasoningFits(raw.reasoning, raw.output)
  {
    assert forall v :: Floor(Floor(v)) == Floor(v) && NonNegative(Floor(v));
    hide Floor;
  }

  method PiComponents(raw: Counts) returns (r: Option<Counts>, remarks: set<Diagnostic>)
    ensures r.Some? <==> Apart(raw) <= MAX_INT64
    ensures r.Some? ==> PiConserved(raw, r.value) && remarks == PiRemarks(raw)
  {
    hide AnyNegative, LegacyInclusive, TotalSurvives;
    var counts, clamped := ClampAll(raw);
    ClampingKeepsMeaning(raw, counts);
    var settled, totalRemarks := SettlePiTotal(counts);
    if settled.None? {
      return None, {};
    }
    var fits, separated := SeparateReasoning(settled.value);
    r := Some(if fits then separated else separated.(reasoning := None));
    remarks := Remark(clamped, NegativeTokens) + totalRemarks + Remark(!fits, UnusableReasoning);
  }

  method PiTokensFromUsage(u: SourceUsage) returns (r: Result<(Counts, set<Diagnostic>), TokenError>)
    ensures r == Err(MissingTokens) <==> !AnyMalformed(u) && Empty(Raw(u))
    ensures r == Err(InvalidTokens) <==> AnyMalformed(u) || (!Empty(Raw(u)) && Apart(Raw(u)) > MAX_INT64)
    ensures r != Err(InvalidReasoning)
    ensures r.Ok? ==> PiConserved(Raw(u), r.value.0) && r.value.1 == PiRemarks(Raw(u))
  {
    hide AnyMalformed, Empty, Raw, Apart, PiConserved, PiRemarks;
    if AnyMalformed(u) {
      return Err(InvalidTokens);
    }
    var counts := Raw(u);
    if Empty(counts) {
      return Err(MissingTokens);
    }
    var components, remarks := PiComponents(counts);
    r := if components.None? then Err(InvalidTokens) else Ok((components.value, remarks));
  }

  /** A usage goes without suspicion exactly when no counter was negative, its reasoning
      was part of its output, and its total, if it reported one, is the sum of what was
      made of it. */
  lemma SuspicionIsExact(raw: Counts, c: Counts)
    requires PiConserved(raw, c)
    ensures !Suspect(PiRemarks(raw)) <==>
              !AnyNegative(raw) && ReasoningFits(raw.reasoning, raw.output) &&
              (raw.total.Some? ==> c.total.Some? && Amount(raw.total) == ExclusiveSum(c))
  {
    hide ReasoningFits, LegacyInclusive, TotalSurvives, ExclusiveSum;
    assert InconsistentTotal in PiRemarks(raw) <==> raw.total.Some? && c.total.None?;
    assert NegativeTokens in PiRemarks(raw) <==> AnyNegative(raw);
    assert UnusableReasoning in PiRemarks(raw) <==> !ReasoningFits(raw.reasoning, raw.output);
  }

  // ----- Claude Code -----

  method ClaudeCodeTokensFromUsage(u: SourceUsage) returns (r: Result<(Counts, set<Diagnostic>), TokenError>)
    ensures r == Err(MissingTokens) <==> !AnyMalformed(u) && Empty(Raw(u))
    ensures r == Err(InvalidTokens) <==> AnyMalformed(u)
    ensures r != Err(InvalidReasoning)
    ensures r.Ok? ==> AllNonNegative(r.value.0) && r.value.1 == Remark(AnyNegative(Raw(u)), NegativeTokens)
    ensures r.Ok? ==> r.value.0 == Counts(Floor(Raw(u).input), Floor(Raw(u).output), Floor(Raw(u).reasoning),
                                          Floor(Raw(u).cacheRead), Floor(Raw(u).cacheWrite), Floor(Raw(u).total))
  {
    if AnyMalformed(u) {
      return Err(InvalidTokens);
    }
    var counts := Raw(u);
    if Empty(counts) {
      return Err(MissingTokens);
    }
    var clamped: bool;
    counts, clamped := ClampAll(counts);
    r := Ok((counts, Remark(clamped, NegativeTokens)));
  }

  /** The parts of an observed fact that settling its counters rewrites. */
  class RawFact {
    var counts: Counts

    constructor (c: Counts)
      ensures counts == c
    {
      counts := c;
    }

    /** Makes output exclusive of reasoning; a total survives only if it is the exact sum. */
    method FinalizeClaudeCode() returns (ok: bool, remarks: set<Diagnostic>)
      requires AllNonNegative(counts)
      modifies this
      ensures AllNonNegative(counts)
      ensures Amount(counts.output) + Amount(counts.reasoning) == Amount(old(counts).output)
      ensures counts.reasoning == (if ReasoningFits(old(counts).reasoning, old(counts).output) then old(counts).reasoning else None)
      ensures counts.output.Some? <==> old(counts).output.Some?
      ensures counts.input == old(counts).input && counts.cacheRead == old(counts).cacheRead && counts.cacheWrite == old(counts).cacheWrite
      ensures ok <==> ExclusiveSum(counts) <= MAX_INT64
      ensures ok ==> (counts.total.Some? <==> old(counts).total.Some? && old(counts).total.value as int == ExclusiveSum(counts))
      ensures ok && counts.total.Some? ==> counts.total.value as int == ExclusiveSum(counts)
      ensures ok ==> remarks == Remark(!ReasoningFits(old(counts).reasoning, old(counts).output), UnusableReasoning) +
                                Remark(old(counts).total.Some? && counts.total.None?, InconsistentTotal)
    {
      var fits, separated := SeparateReasoning(counts);
      remarks := Remark(!fits, UnusableReasoning);
      counts := if fits then separated else separated.(reasoning := None);
      var componentTotal := SumOfComponents(counts.input, counts.output, counts.reasoning, counts.cacheRead, counts.cacheWrite);
      if componentTotal.None? {
        return false, {};
      }
      if counts.total.Some? && counts.total.value != componentTotal.value {
        counts := counts.(total := None);
        remarks := remarks + {InconsistentTotal};
      }
      ok := true;
    }
  }

  // ----- acceptance -----

  function Values(components: seq<int64>): int
  {
    if components == [] then 0 else Values(components[..|components| - 1]) + components[|components| - 1] as int
  }

  lemma {:induction false} ValuesGrow(components: seq<int64>, n: nat)
    requires n <= |components| && forall i :: 0 <= i < |components| ==> components[i] >= 0
    ensures Values(components[..n]) <= Values(components)
    decreases |components|
  {
    if n < |components| {
      ValuesGrow(components[..|components| - 1], n);
      assert components[..n] == components[..|components| - 1][..n];
    } else {
      assert components[..n] == components;
    }
  }

  /** Components are in range one by one and together, and the total is their sum. */
  method ValidateTokens(components: seq<int64>, total: int64) returns (ok: bool)
    ensures ok <==> (forall i :: 0 <= i < |components| ==> components[i] >= 0) &&
                    Values(components) <= SAFE_TOTAL as int && total as int == Values(components)
  {
    var sum: int64 := 0;
    var i := 0;
    while i < |components|
      invariant 0 <= i <= |components|
      invariant forall k :: 0 <= k < i ==> components[k] >= 0
      invariant sum as int == Values(components[..i]) && 0 <= sum <= SAFE_TOTAL
    {
      assert components[..i + 1][..i] == components[..i];
      if !(0 <= components[i] <= SAFE_TOTAL) || components[i] > SAFE_TOTAL - sum {
        if forall k :: 0 <= k < |components| ==> components[k] >= 0 {
          ValuesGrow(components, i + 1);
        }
        return false;
      }
      sum := sum + components[i];
      i := i + 1;
    }
    assert components[..i] == components;
    ok := 0 <= total <= SAFE_TOTAL && total == sum;
  }

  function FactSum(f: FactTokens): int
  {
    f.input as int + f.output as int + f.reasoning as int + f.cacheRead as int + f.cacheWrite as int
  }

  method ValidateFact(f: FactTokens) returns (ok: bool)
    ensures ok <==> f.input >= 0 && f.output >= 0 && f.reasoning >= 0 && f.cacheRead >= 0 && f.cacheWrite >= 0 &&
                    FactSum(f) <= SAFE_TOTAL as int && f.total as int == FactSum(f)
  {
    hide Values;
    var components := [f.input, f.output, f.reasoning, f.cacheRead, f.cacheWrite];
    ValuesOfFive(f);
    ok := ValidateTokens(components, f.total);
    assert components[0] == f.input && components[1] == f.output && components[2] == f.reasoning
           && components[3] == f.cacheRead && components[4] == f.cacheWrite;
  }

  /** A fact is produced exactly when its five components are non-negative and their
      exact sum is at most 2^53 - 1; that sum is its total. */
  method AcceptTokens(c: Counts) returns (r: Option<FactTokens>)
    ensures r.Some? <==> NonNegative(c.input) && NonNegative(c.output) && NonNegative(c.reasoning) && NonNegative(c.cacheRead)
                         && NonNegative(c.cacheWrite) && ExclusiveSum(c) <= SAFE_TOTAL as int
    ensures r.Some? ==>
              && FactSum(r.value) == ExclusiveSum(c) == r.value.total as int
              && r.value.input == OrZero(c.input) && r.value.output == OrZero(c.output) && r.value.reasoning == OrZero(c.reasoning)
              && r.value.cacheRead == OrZero(c.cacheRead) && r.value.cacheWrite == OrZero(c.cacheWrite)
  {
    hide Sum;
    var total := SumOfComponents(c.input, c.output, c.reasoning, c.cacheRead, c.cacheWrite);
    if total.None? {
      return None;
    }
    var f := FactTokens(OrZero(c.input), OrZero(c.output), OrZero(c.reasoning), OrZero(c.cacheRead), OrZero(c.cacheWrite), total.value);
    var valid := ValidateFact(f);
    r := if valid then Some(f) else None;
  }

  lemma ValuesOfExtended(components: seq<int64>, c: int64)
    ensures Values(components + [c]) == Values(components) + c as int
  {
    assert (components + [c])[..|components|] == components;
  }

  lemma ValuesOfFive(f: FactTokens)
    ensures Values([f.input, f.output, f.reasoning, f.cacheRead, f.cacheWrite]) == FactSum(f)
  {
    NoValues();
    hide Values;
    ValuesOfExtended([], f.input);
    ValuesOfExtended([f.input], f.output);
    ValuesOfExtended([f.input, f.output], f.reasoning);
    ValuesOfExtended([f.input, f.output, f.reasoning], f.cacheRead);
    ValuesOfExtended([f.input, f.output, f.reasoning, f.cacheRead], f.cacheWrite);
    assert [] + [f.input] == [f.input] && [f.input] + [f.output] == [f.input, f.output]
           && [f.input, f.output] + [f.reasoning] == [f.input, f.output, f.reasoning]
           && [f.input, f.output, f.reasoning] + [f.cacheRead] == [f.input, f.output, f.reasoning, f.cacheRead]
           && [f.input, f.output, f.reasoning, f.cacheRead] + [f.cacheWrite]
              == [f.input, f.output, f.reasoning, f.cacheRead, f.cacheWrite];
  }

  lemma NoValues()
    ensures Values([]) == 0
  {
  }
}
