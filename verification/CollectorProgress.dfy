/** The registry that keeps collection attempts and their measurements, and the rules by
    which it accepts them. */
module CollectorProgress {
  import opened Basics
  import opened CaptureReporter

  const LEASE_MS: int := 15000
  const TERMINAL_RETENTION_MS: int := 300000
  const MAX_ATTEMPTS: nat := 32

  datatype RegistryError = Invalid | Missing | Conflict | Busy

  datatype Operation = Begin | Heartbeat | Update | Finish | OtherOperation

  datatype Stage = NoStage | StageWaiting | Capturing | Submitting | Accepted | StageFailed | StageInterrupted | OtherStage

  datatype Message = Message(operation: Operation, attempt: string, stage: Stage, harnesses: map<string, string>,
                             batches: int, entries: int, pendingKnown: bool, pending: int, errorCode: string)

  datatype Attempt = Attempt(stage: Stage, harnesses: map<string, string>, batches: int, entries: int, pendingKnown: bool,
                             pending: int, errorCode: string, startedAt: int, updatedAt: int, expiresAt: int, finishedAt: int)

  type Captures = map<string, Capture>

  datatype Tables = Tables(attempts: map<string, Attempt>, captures: map<string, Captures>)

  // ----- validity -----

  predicate ValidHarness(h: string)
  {
    h == "codex" || h == "opencode" || h == "claude-code" || h == "pi"
  }

  predicate LowerHex(s: string)
  {
    forall i :: 0 <= i < |s| ==> 'a' <= s[i] <= 'f' || '0' <= s[i] <= '9'
  }

  predicate AttemptId(s: string)
  {
    || (|s| == 32 && LowerHex(s))
    || (|s| == 36 && s[8] == s[13] == s[18] == s[23] == '-' &&
        LowerHex(s[..8]) && LowerHex(s[9..13]) && LowerHex(s[14..18]) && LowerHex(s[19..23]) && LowerHex(s[24..]))
  }

  predicate Terminal(stage: Stage)
  {
    stage == Accepted || stage == StageFailed || stage == StageInterrupted
  }

  predicate Counter(n: int)
  {
    0 <= n <= SAFE_INTEGER
  }

  predicate ValidMessage(m: Message)
  {
    && AttemptId(m.attempt) && Counter(m.batches) && Counter(m.entries) && Counter(m.pending) && (!m.pendingKnown ==> m.pending == 0)
    && (forall h :: h in m.harnesses ==> ValidHarness(h) && m.harnesses[h] in {"waiting", "running", "complete", "failed", "skipped"})
    && m.errorCode in {"", "collection_failed", "submission_failed", "cancelled", "publisher_lost"}
    && match m.operation
       case Begin => (m.stage == NoStage || m.stage == StageWaiting) && m.batches == 0 && m.entries == 0 && m.errorCode == ""
       case Heartbeat =>
         m.stage == NoStage && m.harnesses == map[] && m.batches == 0 && m.entries == 0 && !m.pendingKnown && m.pending == 0 && m.errorCode == ""
       case Update => (m.stage == StageWaiting || m.stage == Capturing || m.stage == Submitting) && m.errorCode == ""
       case Finish => Terminal(m.stage) && (m.stage == Accepted <==> m.errorCode == "")
       case OtherOperation => false
  }

  predicate CaptureTerminal(p: Phase)
  {
    p == Complete || p == Failed || p == Interrupted
  }

  predicate Counts(c: Capture)
  {
    && Counter(c.total) && Counter(c.checked) && Counter(c.captured) && Counter(c.unmodified) && Counter(c.failed)
    && Counter(c.quarantined) && Counter(c.active)
    && c.checked == c.captured + c.unmodified + c.failed + c.quarantined
    && (c.totalKnown ==> c.checked + c.active <= c.total)
    && (!c.totalKnown ==> c.total == 0 && c.checked == 0 && c.active == 0)
  }

  predicate ValidCapture(h: string, c: Capture)
  {
    && ValidHarness(h) && Counts(c)
    && match c.phase
       case Discovering => !c.totalKnown
       case Waiting => c.totalKnown && c.active == 0
       case Reading => c.totalKnown && c.active > 0
       case Saving => c.totalKnown
       case Complete => c.totalKnown && c.checked == c.total && c.failed == 0 && c.quarantined == 0 && c.active == 0
       case Failed => c.active == 0
       case Interrupted => c.active == 0
  }

  /** A cancellation may override a failure that counted the same. */
  predicate Cancelled(previous: Capture, c: Capture)
  {
    && previous.phase == Failed && c.phase == Interrupted && c.checked == previous.checked && c.captured == previous.captured
    && c.unmodified == previous.unmodified && c.failed == previous.failed && c.quarantined == previous.quarantined
  }

  /** The measurement may follow the previous one of the same harness. */
  predicate Follows(previous: Capture, c: Capture)
  {
    && (CaptureTerminal(previous.phase) ==> Cancelled(previous, c))
    && (previous.totalKnown ==> c.totalKnown && previous.total == c.total)
    && c.captured >= previous.captured && c.unmodified >= previous.unmodified
    && c.failed >= previous.failed && c.quarantined >= previous.quarantined
  }

  // ----- the registry's steps -----

  function FinishedCapture(c: Capture, stage: Stage): Capture
  {
    if CaptureTerminal(c.phase) then c else c.(phase := if stage == StageFailed then Failed else Interrupted, active := 0)
  }

  function FinishedCaptures(captures: Captures, stage: Stage): Captures
  {
    map h | h in captures :: FinishedCapture(captures[h], stage)
  }

  predicate LeaseOver(a: Attempt, now: int)
  {
    !Terminal(a.stage) && now >= a.expiresAt
  }

  function Lapsed(a: Attempt, now: int): Attempt
  {
    if LeaseOver(a, now)
    then a.(stage := StageInterrupted, errorCode := "publisher_lost", finishedAt := a.expiresAt, updatedAt := a.expiresAt)
    else a
  }

  predicate Forgotten(a: Attempt, now: int)
  {
    Terminal(Lapsed(a, now).stage) && now - Lapsed(a, now).finishedAt >= TERMINAL_RETENTION_MS
  }

  /** Leases that ran out interrupt their attempts; old terminal attempts are forgotten. */
  function Expired(t: Tables, now: int): Tables
  {
    Tables(map id | id in t.attempts && !Forgotten(t.attempts[id], now) :: Lapsed(t.attempts[id], now),
           map id | id in t.captures && !(id in t.attempts && Forgotten(t.attempts[id], now)) ::
             if id in t.attempts && LeaseOver(t.attempts[id], now) then FinishedCaptures(t.captures[id], StageInterrupted)
             else t.captures[id])
  }

  function CapturesOf(t: Tables, id: string): Captures
  {
    if id in t.captures then t.captures[id] else map[]
  }

  function UpdateSpec(t: Tables, id: string, h: string, c: Capture, now: int): (Tables, Option<RegistryError>)
  {
    if !AttemptId(id) || !ValidCapture(h, c) then (t, Some(Invalid))
    else
      var e := Expired(t, now);
      if id !in e.attempts then (e, Some(Missing))
      else if Terminal(e.attempts[id].stage) then (e, Some(Conflict))
      else if h in CapturesOf(e, id) && !Follows(CapturesOf(e, id)[h], c) then (e, Some(Conflict))
      else (e.(captures := e.captures[id := CapturesOf(e, id)[h := c]]), None)
  }

  function InterruptedAttempt(a: Attempt, now: int): Attempt
  {
    if Terminal(a.stage) then a
    else a.(stage := StageInterrupted, errorCode := "publisher_lost", updatedAt := now, finishedAt := now)
  }

  function InterruptSpec(t: Tables, now: int): Tables
  {
    Tables(map id | id in t.attempts :: InterruptedAttempt(t.attempts[id], now),
           map id | id in t.captures ::
             if id in t.attempts && !Terminal(t.attempts[id].stage) then FinishedCaptures(t.captures[id], StageInterrupted)
             else t.captures[id])
  }

  /** A terminal attempt none of the others finished before. */
  predicate Oldest(t: Tables, id: string)
  {
    && id in t.attempts && Terminal(t.attempts[id].stage)
    && forall other :: other in t.attempts && Terminal(t.attempts[other].stage) ==>
         t.attempts[id].finishedAt <= t.attempts[other].finishedAt
  }

  function Without(t: Tables, id: string): Tables
  {
    Tables(t.attempts - {id}, t.captures - {id})
  }

  function Amended(a: Attempt, m: Message, now: int): Attempt
  {
    var b :=
      if m.operation == Heartbeat then a
      else a.(stage := if m.stage != NoStage then m.stage else a.stage, harnesses := m.harnesses, batches := m.batches,
              entries := m.entries, pendingKnown := m.pendingKnown, pending := m.pending, errorCode := m.errorCode);
    b.(updatedAt := now, expiresAt := now + LEASE_MS, finishedAt := if m.operation == Finish then now else b.finishedAt)
  }

  function Stored(t: Tables, m: Message, a: Attempt): Tables
  {
    Tables(t.attempts[m.attempt := a],
           if m.operation == Finish && m.attempt in t.captures
           then t.captures[m.attempt := FinishedCaptures(t.captures[m.attempt], a.stage)] else t.captures)
  }

  function NewAttempt(now: int): Attempt
  {
    Attempt(StageWaiting, map[], 0, 0, false, 0, "", now, 0, 0, 0)
  }

  predicate Decreases(a: Attempt, m: Message)
  {
    m.operation != Heartbeat && (m.batches < a.batches || m.entries < a.entries)
  }

  /** What a message does. Where several attempts finished first, any of them may make
      room for a new one. */
  ghost predicate Applies(t: Tables, m: Message, now: int, t': Tables, error: Option<RegistryError>)
  {
    if !ValidMessage(m) then t' == t && error == Some(Invalid)
    else
      var e := Expired(t, now);
      if m.operation == Begin then
        if m.attempt in e.attempts then t' == e && error == Some(Conflict)
        else if |e.attempts| < MAX_ATTEMPTS then t' == Stored(e, m, Amended(NewAttempt(now), m, now)) && error == None
        else if forall id :: id in e.attempts ==> !Terminal(e.attempts[id].stage) then t' == e && error == Some(Busy)
        else error == None && exists id :: Oldest(e, id) && t' == Stored(Without(e, id), m, Amended(NewAttempt(now), m, now))
      else if m.attempt !in e.attempts then t' == e && error == Some(Missing)
      else if Terminal(e.attempts[m.attempt].stage) then t' == e && error == Some(Conflict)
      else if Decreases(e.attempts[m.attempt], m) then t' == e && error == Some(Conflict)
      else t' == Stored(e, m, Amended(e.attempts[m.attempt], m, now)) && error == None
  }

  // ----- what the registry keeps -----

  predicate CapturesOk(a: Attempt, captures: Captures)
  {
    forall h :: h in captures ==> ValidCapture(h, captures[h]) && (Terminal(a.stage) ==> CaptureTerminal(captures[h].phase))
  }

  /** Bounded, and a terminal attempt holds only terminal measurements. */
  predicate TablesOk(t: Tables)
  {
    && |t.attempts| <= MAX_ATTEMPTS && t.captures.Keys <= t.attempts.Keys
    && forall id :: id in t.captures ==> CapturesOk(t.attempts[id], t.captures[id])
  }

  lemma FinishingIsOk(h: string, c: Capture, stage: Stage)
    requires ValidCapture(h, c)
    ensures ValidCapture(h, FinishedCapture(c, stage)) && CaptureTerminal(FinishedCapture(c, stage).phase)
  {
  }

  lemma FinishedAreOk(a: Attempt, b: Attempt, captures: Captures, stage: Stage)
    requires CapturesOk(a, captures)
    ensures CapturesOk(b, FinishedCaptures(captures, stage))
  {
    hide ValidCapture, FinishedCapture;
    forall h | h in captures
      ensures ValidCapture(h, FinishedCapture(captures[h], stage)) && CaptureTerminal(FinishedCapture(captures[h], stage).phase)
    {
      FinishingIsOk(h, captures[h], stage);
    }
  }

  lemma FewerKeys<V>(a: map<string, V>, keys: set<string>)
    requires keys <= a.Keys
    ensures |keys| <= |a|
  {
    assert |a.Keys - keys| + |keys| == |a.Keys| by { assert (a.Keys - keys) + keys == a.Keys; }
    assert |a.Keys| == |a|;
  }

  lemma ExpiryKeepsTables(t: Tables, now: int)
    requires TablesOk(t)
    ensures TablesOk(Expired(t, now))
  {
    hide FinishedCaptures, CapturesOk, Forgotten;
    var e := Expired(t, now);
    FewerKeys(t.attempts, e.attempts.Keys);
    assert |e.attempts| == |e.attempts.Keys|;
    forall id | id in e.captures
      ensures CapturesOk(e.attempts[id], e.captures[id])
    {
      if LeaseOver(t.attempts[id], now) {
        FinishedAreOk(t.attempts[id], e.attempts[id], t.captures[id], StageInterrupted);
      }
    }
  }

  lemma UpdateKeepsTables(t: Tables, id: string, h: string, c: Capture, now: int)
    requires TablesOk(t)
    ensures TablesOk(UpdateSpec(t, id, h, c, now).0)
  {
    hide ValidCapture, Follows, Expired;
    ExpiryKeepsTables(t, now);
  }

  lemma InterruptingKeepsTables(t: Tables, now: int)
    requires TablesOk(t)
    ensures TablesOk(InterruptSpec(t, now))
    ensures forall id :: id in InterruptSpec(t, now).attempts ==> Terminal(InterruptSpec(t, now).attempts[id].stage)
  {
    hide FinishedCaptures, CapturesOk;
    var e := InterruptSpec(t, now);
    assert e.attempts.Keys == t.attempts.Keys && |e.attempts| == |e.attempts.Keys|;
    forall id | id in e.captures
      ensures CapturesOk(e.attempts[id], e.captures[id])
    {
      if !Terminal(t.attempts[id].stage) {
        FinishedAreOk(t.attempts[id], e.attempts[id], t.captures[id], StageInterrupted);
      }
    }
  }

  lemma StoringKeepsTables(t: Tables, m: Message, a: Attempt)
    requires TablesOk(t) && (m.attempt in t.attempts || |t.attempts| < MAX_ATTEMPTS)
    requires m.operation == Finish || !Terminal(a.stage)
    ensures TablesOk(Stored(t, m, a))
  {
    hide FinishedCaptures, ValidCapture;
    var s := Stored(t, m, a);
    assert s.attempts.Keys == t.attempts.Keys + {m.attempt};
    assert |s.attempts| == |s.attempts.Keys| && |t.attempts| == |t.attempts.Keys|;
    if m.attempt in t.attempts {
      assert s.attempts.Keys == t.attempts.Keys;
    }
    if m.operation == Finish && m.attempt in t.captures {
      FinishedAreOk(t.attempts[m.attempt], a, t.captures[m.attempt], a.stage);
    }
  }

  lemma RemovingKeepsTables(t: Tables, id: string)
    requires TablesOk(t) && id in t.attempts
    ensures TablesOk(Without(t, id)) && |Without(t, id).attempts| < MAX_ATTEMPTS && id !in Without(t, id).attempts
  {
    var r := Without(t, id);
    assert r.attempts.Keys == t.attempts.Keys - {id};
    assert |r.attempts| == |r.attempts.Keys| && |t.attempts| == |t.attempts.Keys|;
  }

  lemma ApplyKeepsTables(t: Tables, m: Message, now: int, t': Tables, error: Option<RegistryError>)
    requires TablesOk(t) && Applies(t, m, now, t', error)
    ensures TablesOk(t')
  {
    hide Expired, TablesOk, Stored, AttemptId, Without;
    if ValidMessage(m) {
      ExpiryKeepsTables(t, now);
      var e := Expired(t, now);
      if error == None {
        var a := if m.operation == Begin then NewAttempt(now) else e.attempts[m.attempt];
        if m.operation == Begin && |e.attempts| >= MAX_ATTEMPTS {
          var id :| Oldest(e, id) && t' == Stored(Without(e, id), m, Amended(a, m, now));
          RemovingKeepsTables(e, id);
          StoringKeepsTables(Without(e, id), m, Amended(a, m, now));
        } else {
          StoringKeepsTables(e, m, Amended(a, m, now));
        }
      }
    }
  }

  // ----- the registry -----

  class Registry {
    var tables: Tables

    constructor ()
      ensures tables == Tables(map[], map[]) && TablesOk(tables)
    {
      tables := Tables(map[], map[]);
    }

    /** Ends an attempt's measurements that are still going on. */
    method FinishCapture(id: string, stage: Stage)
      modifies this
      ensures tables == if id in old(tables).captures
                        then old(tables).(captures := old(tables).captures[id := FinishedCaptures(old(tables).captures[id], stage)])
                        else old(tables)
    {
      hide FinishedCapture;
      if id !in tables.captures {
        return;
      }
      ghost var before := tables.captures[id];
      var left := tables.captures[id].Keys;
      var captures := tables.captures[id];
      while left != {}
        invariant left <= before.Keys && captures.Keys == before.Keys
        invariant forall h :: h in before ==> captures[h] == if h in left then before[h] else FinishedCapture(before[h], stage)
      {
        var h :| h in left;
        captures := captures[h := FinishedCapture(captures[h], stage)];
        left := left - {h};
      }
      assert captures == FinishedCaptures(before, stage);
      tables := tables.(captures := tables.captures[id := captures]);
    }

    method ExpireOne(id: string, now: int)
      requires id in tables.attempts
      modifies this
      ensures tables == ExpiredOne(old(tables), id, now)
    {
      hide FinishedCaptures;
      var attempt := tables.attempts[id];
      ghost var a, before := attempt, tables;
      if !Terminal(attempt.stage) && now >= attempt.expiresAt {
        attempt := attempt.(stage := StageInterrupted, errorCode := "publisher_lost",
                            finishedAt := attempt.expiresAt, updatedAt := attempt.expiresAt);
        tables := tables.(attempts := tables.attempts[id := attempt]);
        FinishCapture(id, attempt.stage);
      }
      assert attempt == Lapsed(a, now) && tables.attempts == before.attempts[id := attempt];
      if Terminal(attempt.stage) && now - attempt.finishedAt >= TERMINAL_RETENTION_MS {
        tables := Tables(tables.attempts - {id}, tables.captures - {id});
        assert tables.attempts == before.attempts - {id};
        assert tables.captures == before.captures - {id};
      }
    }

    method Expire(now: int)
      modifies this
      ensures tables == Expired(old(tables), now)
    {
      hide FinishedCaptures, Forgotten, Lapsed, LeaseOver, ExpiredBut, Expired, ExpiredOne;
      ghost var before := tables;
      var left := tables.attempts.Keys;
      NothingExpiredYet(before, now);
      while left != {}
        invariant left <= before.attempts.Keys && ExpiredBut(tables, before, now, left)
      {
        var id :| id in left;
        ExpiredStep(tables, before, now, left, id);
        ExpireOne(id, now);
        left := left - {id};
      }
      AllExpired(tables, before, now);
    }

    method UpdateCapture(id: string, h: string, c: Capture, now: int) returns (error: Option<RegistryError>)
      requires TablesOk(tables)
      modifies this
      ensures (tables, error) == UpdateSpec(old(tables), id, h, c, now) && TablesOk(tables)
    {
      hide ValidCapture, Expired, TablesOk, Follows, AttemptId;
      UpdateKeepsTables(tables, id, h, c, now);
      if !AttemptId(id) || !ValidCapture(h, c) {
        return Some(Invalid);
      }
      Expire(now);
      if id !in tables.attempts {
        return Some(Missing);
      }
      if Terminal(tables.attempts[id].stage) {
        return Some(Conflict);
      }
      var measurements: Captures := if id in tables.captures then tables.captures[id] else map[];
      if h in measurements && !Follows(measurements[h], c) {
        return Some(Conflict);
      }
      tables := tables.(captures := tables.captures[id := measurements[h := c]]);
      error := None;
    }

    /** The terminal attempt that finished first, if any. */
    method FindOldest() returns (oldest: Option<string>)
      ensures oldest.None? <==> forall id :: id in tables.attempts ==> !Terminal(tables.attempts[id].stage)
      ensures oldest.Some? ==> Oldest(tables, oldest.value)
    {
      oldest := None;
      var left := tables.attempts.Keys;
      while left != {}
        invariant left <= tables.attempts.Keys
        invariant oldest.None? ==> forall id :: id in tables.attempts && id !in left ==> !Terminal(tables.attempts[id].stage)
        invariant oldest.Some? ==>
                    oldest.value in tables.attempts && Terminal(tables.attempts[oldest.value].stage) &&
                    forall id :: id in tables.attempts && id !in left && Terminal(tables.attempts[id].stage) ==>
                      tables.attempts[oldest.value].finishedAt <= tables.attempts[id].finishedAt
      {
        var id :| id in left;
        var candidate := tables.attempts[id];
        if Terminal(candidate.stage) && (oldest.None? || candidate.finishedAt < tables.attempts[oldest.value].finishedAt) {
          oldest := Some(id);
        }
        left := left - {id};
      }
    }

    method Apply(m: Message, now: int) returns (error: Option<RegistryError>)
      requires TablesOk(tables)
      modifies this
      ensures Applies(old(tables), m, now, tables, error) && TablesOk(tables)
    {
      hide Expired, TablesOk, AttemptId, Oldest, FinishedCaptures;
      ghost var before := tables;
      if !ValidMessage(m) {
        return Some(Invalid);
      }
      ExpiryKeepsTables(tables, now);
      Expire(now);
      ghost var e := tables;
      var attempt: Attempt;
      if m.operation == Begin {
        if m.attempt in tables.attempts {
          return Some(Conflict);
        }
        if |tables.attempts| >= MAX_ATTEMPTS {
          var oldest := FindOldest();
          if oldest.None? {
            return Some(Busy);
          }
          tables := Tables(tables.attempts - {oldest.value}, tables.captures - {oldest.value});
          assert Oldest(e, oldest.value) && tables == Without(e, oldest.value);
        }
        attempt := NewAttempt(now);
      } else {
        if m.attempt !in tables.attempts {
          return Some(Missing);
        }
        attempt := tables.attempts[m.attempt];
        if Terminal(attempt.stage) || Decreases(attempt, m) {
          return Some(Conflict);
        }
      }
      ghost var room := tables;
      attempt := Amended(attempt, m, now);
      if m.operation == Finish {
        FinishCapture(m.attempt, attempt.stage);
      }
      tables := tables.(attempts := tables.attempts[m.attempt := attempt]);
      assert tables == Stored(room, m, attempt);
      assert Applies(before, m, now, tables, None);
      ApplyKeepsTables(before, m, now, tables, None);
      error := None;
    }

    method InterruptOne(id: string, now: int)
      requires id in tables.attempts
      modifies this
      ensures tables == InterruptedOne(old(tables), id, now)
    {
      hide FinishedCaptures;
      var attempt := tables.attempts[id];
      if Terminal(attempt.stage) {
        return;
      }
      attempt := attempt.(stage := StageInterrupted, errorCode := "publisher_lost", updatedAt := now, finishedAt := now);
      tables := tables.(attempts := tables.attempts[id := attempt]);
      FinishCapture(id, attempt.stage);
    }

    method InterruptAll(now: int)
      requires TablesOk(tables)
      modifies this
      ensures tables == InterruptSpec(old(tables), now) && TablesOk(tables)
    {
      hide FinishedCaptures, TablesOk, InterruptedBut, InterruptedOne, InterruptSpec;
      ghost var before := tables;
      InterruptingKeepsTables(tables, now);
      NothingInterruptedYet(before, now);
      var left := tables.attempts.Keys;
      while left != {}
        invariant left <= before.attempts.Keys && InterruptedBut(tables, before, now, left)
      {
        var id :| id in left;
        InterruptedStep(tables, before, now, left, id);
        InterruptOne(id, now);
        left := left - {id};
      }
      AllInterrupted(tables, before, now);
    }
  }

  // ----- loops over attempts -----

  function ExpiredOne(t: Tables, id: string, now: int): Tables
    requires id in t.attempts
  {
    var a := t.attempts[id];
    if Forgotten(a, now) then Tables(t.attempts - {id}, t.captures - {id})
    else Tables(t.attempts[id := Lapsed(a, now)],
                if LeaseOver(a, now) && id in t.captures then t.captures[id := FinishedCaptures(t.captures[id], StageInterrupted)]
                else t.captures)
  }

  /** The attempts in left have not been looked at yet. */
  predicate ExpiredBut(cur: Tables, t: Tables, now: int, left: set<string>)
  {
    && (forall id :: id in cur.attempts.Keys + t.attempts.Keys ==>
          (id in cur.attempts <==> id in t.attempts && (id in left || !Forgotten(t.attempts[id], now))))
    && (forall id :: id in cur.attempts ==> cur.attempts[id] == if id in left then t.attempts[id] else Lapsed(t.attempts[id], now))
    && (forall id :: id in cur.captures.Keys + t.captures.Keys ==>
          (id in cur.captures <==> id in t.captures && (id in left || !(id in t.attempts && Forgotten(t.attempts[id], now)))))
    && (forall id :: id in cur.captures ==>
          cur.captures[id] == if id !in left && id in t.attempts && LeaseOver(t.attempts[id], now)
                              then FinishedCaptures(t.captures[id], StageInterrupted) else t.captures[id])
  }

  lemma NothingExpiredYet(t: Tables, now: int)
    ensures ExpiredBut(t, t, now, t.attempts.Keys)
  {
    hide Forgotten, Lapsed, FinishedCaptures;
  }

  lemma ExpiredStep(cur: Tables, t: Tables, now: int, left: set<string>, id: string)
    requires ExpiredBut(cur, t, now, left) && id in left && left <= t.attempts.Keys
    ensures id in cur.attempts && ExpiredBut(ExpiredOne(cur, id, now), t, now, left - {id})
  {
    hide Forgotten, Lapsed, LeaseOver, FinishedCaptures;
    assert id in cur.attempts.Keys + t.attempts.Keys;
  }

  lemma AllExpired(cur: Tables, t: Tables, now: int)
    requires ExpiredBut(cur, t, now, {})
    ensures cur == Expired(t, now)
  {
    hide Forgotten, Lapsed, LeaseOver, FinishedCaptures;
    var e := Expired(t, now);
    forall id
      ensures id in cur.attempts <==> id in e.attempts
      ensures id in cur.captures <==> id in e.captures
    {
      assert id in t.attempts ==> id in cur.attempts.Keys + t.attempts.Keys;
      assert id in t.captures ==> id in cur.captures.Keys + t.captures.Keys;
      assert id in cur.attempts ==> id in cur.attempts.Keys + t.attempts.Keys;
      assert id in cur.captures ==> id in cur.captures.Keys + t.captures.Keys;
    }
    assert cur.attempts == e.attempts;
    assert cur.captures == e.captures;
  }

  function InterruptedOne(t: Tables, id: string, now: int): Tables
    requires id in t.attempts
  {
    var a := t.attempts[id];
    if Terminal(a.stage) then t
    else Tables(t.attempts[id := InterruptedAttempt(a, now)],
                if id in t.captures then t.captures[id := FinishedCaptures(t.captures[id], StageInterrupted)] else t.captures)
  }

  /** The attempts in left have not been interrupted yet. */
  predicate InterruptedBut(cur: Tables, t: Tables, now: int, left: set<string>)
  {
    && cur.attempts.Keys == t.attempts.Keys && cur.captures.Keys == t.captures.Keys
    && (forall id :: id in t.attempts ==>
          cur.attempts[id] == if id in left then t.attempts[id] else InterruptedAttempt(t.attempts[id], now))
    && (forall id :: id in t.captures ==>
          cur.captures[id] == if id !in left && id in t.attempts && !Terminal(t.attempts[id].stage)
                              then FinishedCaptures(t.captures[id], StageInterrupted) else t.captures[id])
  }

  lemma NothingInterruptedYet(t: Tables, now: int)
    ensures InterruptedBut(t, t, now, t.attempts.Keys)
  {
  }

  lemma InterruptedStep(cur: Tables, t: Tables, now: int, left: set<string>, id: string)
    requires InterruptedBut(cur, t, now, left) && id in left && left <= t.attempts.Keys
    ensures id in cur.attempts && InterruptedBut(InterruptedOne(cur, id, now), t, now, left - {id})
  {
    hide FinishedCaptures;
  }

  lemma AllInterrupted(cur: Tables, t: Tables, now: int)
    requires InterruptedBut(cur, t, now, {})
    ensures cur == InterruptSpec(t, now)
  {
    hide FinishedCaptures;
    assert cur.attempts == InterruptSpec(t, now).attempts;
    assert cur.captures == InterruptSpec(t, now).captures;
  }
}
