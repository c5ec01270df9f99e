/** What becomes of one attempt: when its lease and its memory end, what a message makes
    of it, and that it only ever advances. */
module AttemptTheorems {
  import opened Basics
  import opened CaptureReporter
  import opened CollectorProgress
  import opened ProgressTheorems

  // ----- time -----

  /** A measurement as its attempt ends: what was still going on ends with it. */
  predicate EndedAs(before: Capture, after: Capture, failed: bool)
  {
    if before.phase in {Complete, Failed, Interrupted} then after == before
    else after == before.(phase := if failed then Failed else Interrupted, active := 0)
  }

  predicate AllEnded(before: Captures, after: Captures, failed: bool)
  {
    after.Keys == before.Keys && forall h :: h in before ==> EndedAs(before[h], after[h], failed)
  }

  lemma FinishedIsEnded(captures: Captures, stage: Stage)
    ensures AllEnded(captures, FinishedCaptures(captures, stage), stage == StageFailed)
  {
  }

  /** An attempt that goes on is untouched before its lease ends, interrupted as of that
      end for five minutes after it, and then gone with its measurements; an ended one is
      untouched for five minutes and then gone. */
  lemma AttemptsExpire(t: Tables, now: int, id: string)
    requires id in t.attempts
    ensures var a, e := t.attempts[id], Expired(t, now);
            if a.stage in {Accepted, StageFailed, StageInterrupted} then
              if now < a.finishedAt + 5 * 60 * 1000 then id in e.attempts && e.attempts[id] == a && CapturesOf(e, id) == CapturesOf(t, id)
              else id !in e.attempts && id !in e.captures
            else if now < a.expiresAt then
              id in e.attempts && e.attempts[id] == a && CapturesOf(e, id) == CapturesOf(t, id)
            else if now < a.expiresAt + 5 * 60 * 1000 then
              && id in e.attempts
              && e.attempts[id] == a.(stage := StageInterrupted, errorCode := "publisher_lost",
                                      finishedAt := a.expiresAt, updatedAt := a.expiresAt)
              && AllEnded(CapturesOf(t, id), CapturesOf(e, id), false)
            else id !in e.attempts && id !in e.captures
  {
    FinishedIsEnded(CapturesOf(t, id), StageInterrupted);
    hide FinishedCaptures, AllEnded;
    assert AllEnded(map[], map[], false) by { NothingEnded(); }
  }

  lemma NothingEnded()
    ensures AllEnded(map[], map[], false)
  {
  }

  // ----- messages -----

  /** The attempt goes on and its lease has not run out. */
  predicate Alive(t: Tables, id: string, now: int)
  {
    && id in t.attempts && t.attempts[id].stage !in {Accepted, StageFailed, StageInterrupted}
    && now < t.attempts[id].expiresAt
  }

  /** A valid message to a living attempt is refused only if it takes back acknowledged
      batches or entries. Otherwise the attempt says what the message says, holds a lease
      of fifteen seconds from now, and if it is finished its measurements end with it. */
  lemma MessageAmends(t: Tables, m: Message, now: int, t': Tables, error: Option<RegistryError>)
    requires Applies(t, m, now, t', error) && ValidMessage(m) && m.operation != Begin && Alive(t, m.attempt, now)
    ensures m.attempt in t'.attempts
    ensures var a, b := t.attempts[m.attempt], t'.attempts[m.attempt];
            if m.operation != Heartbeat && (m.batches < a.batches || m.entries < a.entries)
            then error == Some(Conflict) && b == a && CapturesOf(t', m.attempt) == CapturesOf(t, m.attempt)
            else
              && error == None && b.startedAt == a.startedAt && b.updatedAt == now && b.expiresAt == now + 15000
              && (if m.operation == Heartbeat
                  then b == a.(updatedAt := now, expiresAt := now + 15000)
                  else (b.stage, b.harnesses, b.batches, b.entries, b.pendingKnown, b.pending, b.errorCode) ==
                       (m.stage, m.harnesses, m.batches, m.entries, m.pendingKnown, m.pending, m.errorCode))
              && (if m.operation == Finish
                  then b.finishedAt == now &&
                       AllEnded(CapturesOf(t, m.attempt), CapturesOf(t', m.attempt), m.stage == StageFailed)
                  else b.finishedAt == a.finishedAt && CapturesOf(t', m.attempt) == CapturesOf(t, m.attempt))
  {
    AttemptsExpire(t, now, m.attempt);
    var e := Expired(t, now);
    StoringIsLocal(e, m, Amended(t.attempts[m.attempt], m, now), m.attempt);
    FinishedIsEnded(CapturesOf(e, m.attempt), m.stage);
    NothingEnded();
    hide Expired, FinishedCaptures, AllEnded, AttemptId;
    if m.operation == Finish && error == None && m.attempt !in e.captures {
      EmptyEnds(m.stage == StageFailed);
    }
  }

  lemma EmptyEnds(failed: bool)
    ensures AllEnded(map[], map[], failed)
  {
  }

  /** A message to an attempt that has ended or is not known changes nothing but expiry. */
  lemma DeadAttemptRefuses(t: Tables, m: Message, now: int, t': Tables, error: Option<RegistryError>)
    requires Applies(t, m, now, t', error) && ValidMessage(m) && m.operation != Begin && !Alive(t, m.attempt, now)
    ensures t' == Expired(t, now)
    ensures error == Some(if m.attempt in t'.attempts then Conflict else Missing)
  {
    if m.attempt in t.attempts {
      AttemptsExpire(t, now, m.attempt);
    }
    hide Expired, AttemptId, Stored, Amended;
  }

  /** A new attempt waits, with a lease of fifteen seconds and without measurements,
      provided its id is free and fewer than 32 attempts are known or one of them has
      ended; then one that none finished before makes room. */
  lemma BeginOpens(t: Tables, m: Message, now: int, t': Tables, error: Option<RegistryError>)
    requires TablesOk(t) && Applies(t, m, now, t', error) && ValidMessage(m) && m.operation == Begin
    ensures var e := Expired(t, now);
            && (error == Some(Conflict) <==> m.attempt in e.attempts)
            && (error == Some(Busy) <==>
                  m.attempt !in e.attempts && |e.attempts| >= 32 &&
                  forall id :: id in e.attempts ==> e.attempts[id].stage !in {Accepted, StageFailed, StageInterrupted})
            && (error.Some? ==> t' == e && error.value in {Conflict, Busy})
            && (error == None ==>
                  && m.attempt in t'.attempts && CapturesOf(t', m.attempt) == map[]
                  && t'.attempts[m.attempt] == Attempt(StageWaiting, m.harnesses, 0, 0, m.pendingKnown, m.pending, "", now, now, now + 15000, 0)
                  && |e.attempts.Keys - t'.attempts.Keys| == (if |e.attempts| < 32 then 0 else 1)
                  && (forall id :: id in e.attempts && id !in t'.attempts ==> Oldest(e, id)))
  {
    var e := Expired(t, now);
    ExpiryKeepsTables(t, now);
    NewAttemptIs(m, now);
    var a := Amended(NewAttempt(now), m, now);
    BeginRefuses(t, m, now, t', error);
    if m.attempt !in e.attempts {
      RoomIsEnough(e, m, a);
      forall id | Oldest(e, id)
        ensures Opened(e, Stored(Without(e, id), m, a), m.attempt, a)
        ensures e.attempts.Keys - Stored(Without(e, id), m, a).attempts.Keys == {id}
      {
        RoomIsMade(e, id, m, a);
      }
    }
    hide Expired, AttemptId, Amended, NewAttempt, Stored, Without, TablesOk, ValidMessage, CapturesOf, Oldest, Terminal;
    if error == None && |e.attempts| >= MAX_ATTEMPTS {
      var id :| Oldest(e, id) && t' == Stored(Without(e, id), m, a);
      assert |{id}| == 1;
    }
  }

  lemma BeginRefuses(t: Tables, m: Message, now: int, t': Tables, error: Option<RegistryError>)
    requires Applies(t, m, now, t', error) && ValidMessage(m) && m.operation == Begin
    ensures var e := Expired(t, now);
            && (error == Some(Conflict) <==> m.attempt in e.attempts)
            && (error == Some(Busy) <==>
                  m.attempt !in e.attempts && |e.attempts| >= 32 &&
                  forall id :: id in e.attempts ==> e.attempts[id].stage !in {Accepted, StageFailed, StageInterrupted})
            && (error.Some? ==> t' == e && error.value in {Conflict, Busy})
  {
    hide Expired, AttemptId, Amended, NewAttempt, Stored, Without, Oldest;
  }

  /** The new attempt is stored and holds no measurements. */
  predicate Opened(e: Tables, t': Tables, id: string, a: Attempt)
  {
    id in t'.attempts && t'.attempts[id] == a && CapturesOf(t', id) == map[]
  }

  lemma NewAttemptIs(m: Message, now: int)
    requires ValidMessage(m) && m.operation == Begin
    ensures Amended(NewAttempt(now), m, now) ==
            Attempt(StageWaiting, m.harnesses, 0, 0, m.pendingKnown, m.pending, "", now, now, now + 15000, 0)
  {
    hide AttemptId;
  }

  lemma RoomIsEnough(e: Tables, m: Message, a: Attempt)
    requires TablesOk(e) && m.operation == Begin && m.attempt !in e.attempts
    ensures Opened(e, Stored(e, m, a), m.attempt, a) && e.attempts.Keys - Stored(e, m, a).attempts.Keys == {}
  {
    hide CapturesOk;
  }

  lemma RoomIsMade(e: Tables, other: string, m: Message, a: Attempt)
    requires TablesOk(e) && m.operation == Begin && m.attempt !in e.attempts && Oldest(e, other)
    ensures Opened(e, Stored(Without(e, other), m, a), m.attempt, a)
    ensures e.attempts.Keys - Stored(Without(e, other), m, a).attempts.Keys == {other}
  {
    hide CapturesOk;
  }

  // ----- over stories -----

  /** b is the same attempt later: what was acknowledged stays, and an ended one stays. */
  predicate Advances(a: Attempt, b: Attempt)
  {
    && b.startedAt == a.startedAt && a.batches <= b.batches && a.entries <= b.entries
    && (a.stage in {Accepted, StageFailed, StageInterrupted} ==> b == a)
  }

  predicate BeginsAnew(call: Call, id: string)
  {
    call.Applying? && call.message.operation == Begin && call.message.attempt == id
  }

  lemma ExpiryAdvances(t: Tables, now: int, id: string)
    ensures id in Expired(t, now).attempts ==> id in t.attempts && Advances(t.attempts[id], Expired(t, now).attempts[id])
  {
    if id in t.attempts {
      AttemptsExpire(t, now, id);
    }
    hide FinishedCaptures;
  }

  lemma StoringAdvances(e: Tables, m: Message, a: Attempt, other: string, id: string)
    requires m.attempt != id
    ensures id in Stored(e, m, a).attempts ==> id in e.attempts && Stored(e, m, a).attempts[id] == e.attempts[id]
    ensures id in Stored(Without(e, other), m, a).attempts ==>
              id in e.attempts && Stored(Without(e, other), m, a).attempts[id] == e.attempts[id]
  {
    hide FinishedCaptures;
  }

  lemma OwnMessageAdvances(e: Tables, m: Message, now: int, id: string)
    requires m.attempt == id && id in e.attempts && !Terminal(e.attempts[id].stage) && !Decreases(e.attempts[id], m)
    ensures var t' := Stored(e, m, Amended(e.attempts[id], m, now)); id in t'.attempts && Advances(e.attempts[id], t'.attempts[id])
  {
    hide FinishedCaptures;
  }

  lemma MessageAdvances(t: Tables, m: Message, now: int, t': Tables, error: Option<RegistryError>, id: string)
    requires Applies(t, m, now, t', error) && !(m.operation == Begin && m.attempt == id)
    ensures id in t'.attempts ==> id in t.attempts && Advances(t.attempts[id], t'.attempts[id])
  {
    ExpiryAdvances(t, now, id);
    var e := Expired(t, now);
    if m.attempt == id && id in e.attempts && !Terminal(e.attempts[id].stage) && !Decreases(e.attempts[id], m) {
      OwnMessageAdvances(e, m, now, id);
    }
    forall a, other | m.attempt != id
      ensures id in Stored(e, m, a).attempts ==> id in e.attempts && Stored(e, m, a).attempts[id] == e.attempts[id]
      ensures id in Stored(Without(e, other), m, a).attempts ==>
                id in e.attempts && Stored(Without(e, other), m, a).attempts[id] == e.attempts[id]
    {
      StoringAdvances(e, m, a, other, id);
    }
    hide Expired, Stored, Without, Amended, Decreases, NewAttempt, Oldest, ValidMessage;
  }

  lemma CallAdvances(t: Tables, call: Call, now: int, t': Tables, id: string)
    requires Happens(t, call, now, t') && !BeginsAnew(call, id)
    ensures id in t'.attempts ==> id in t.attempts && Advances(t.attempts[id], t'.attempts[id])
  {
    ExpiryAdvances(t, now, id);
    hide Expired, Applies, FinishedCaptures, Follows, ValidCapture, AttemptId;
    match call
    case Applying(m) =>
      var error :| Applies(t, m, now, t', error);
      MessageAdvances(t, m, now, t', error, id);
    case _ =>
  }

  lemma AdvancesTransitive(a: Attempt, b: Attempt, c: Attempt)
    requires Advances(a, b) && Advances(b, c)
    ensures Advances(a, c)
  {
  }

  /** Over any calls, an attempt that is not begun anew keeps its start, never takes back
      what was acknowledged, and once ended is never changed again. */
  lemma {:induction false} AttemptsOnlyAdvance(states: seq<Tables>, calls: seq<(Call, int)>, id: string, i: nat, k: nat)
    requires Story(states, calls) && i <= k < |states|
    requires forall l :: i <= l < k ==> !BeginsAnew(calls[l].0, id)
    ensures id in states[k].attempts ==> id in states[i].attempts && Advances(states[i].attempts[id], states[k].attempts[id])
    decreases k
  {
    hide Happens, Advances, TablesOk;
    if i == k {
      Itself(states, id, i);
    } else {
      AttemptsOnlyAdvance(states, calls, id, i, k - 1);
      CallAdvances(states[k - 1], calls[k - 1].0, calls[k - 1].1, states[k], id);
      if id in states[k].attempts {
        AdvancesTransitive(states[i].attempts[id], states[k - 1].attempts[id], states[k].attempts[id]);
      }
    }
  }

  lemma Itself(states: seq<Tables>, id: string, i: nat)
    requires i < |states|
    ensures id in states[i].attempts ==> Advances(states[i].attempts[id], states[i].attempts[id])
  {
  }

  // ----- what is stored of an attempt -----

  /** Bounded counters, known names and states, an error exactly for what did not
      succeed, a lease of fifteen seconds while it goes on and an end once it ended. */
  predicate RowOk(a: Attempt)
  {
    && 0 <= a.batches <= SAFE_INTEGER && 0 <= a.entries <= SAFE_INTEGER && 0 <= a.pending <= SAFE_INTEGER
    && (!a.pendingKnown ==> a.pending == 0)
    && (forall h :: h in a.harnesses ==>
          h in {"codex", "opencode", "claude-code", "pi"} &&
          a.harnesses[h] in {"waiting", "running", "complete", "failed", "skipped"})
    && a.errorCode in {"", "collection_failed", "submission_failed", "cancelled", "publisher_lost"}
    && (if a.stage in {StageWaiting, Capturing, Submitting}
        then a.errorCode == "" && a.finishedAt == 0 && a.expiresAt == a.updatedAt + 15000
        else a.stage in {Accepted, StageFailed, StageInterrupted} && (a.errorCode == "" <==> a.stage == Accepted) &&
             a.finishedAt == a.updatedAt)
  }

  predicate RowsOk(t: Tables)
  {
    forall id :: id in t.attempts ==> AttemptId(id) && RowOk(t.attempts[id])
  }

  lemma ExpiryKeepsRow(t: Tables, now: int, id: string)
    requires RowsOk(t) && id in Expired(t, now).attempts
    ensures AttemptId(id) && RowOk(Expired(t, now).attempts[id])
  {
    AttemptsExpire(t, now, id);
    hide FinishedCaptures, AttemptId;
  }

  lemma AmendedIsOk(a: Attempt, m: Message, now: int)
    requires RowOk(a) && ValidMessage(m) && !Terminal(a.stage) && m.operation != Begin
    ensures RowOk(Amended(a, m, now))
  {
    hide AttemptId;
  }

  lemma NewIsOk(m: Message, now: int)
    requires ValidMessage(m) && m.operation == Begin
    ensures RowOk(Amended(NewAttempt(now), m, now))
  {
    hide AttemptId;
  }

  lemma MessageKeepsRows(t: Tables, m: Message, now: int, t': Tables, error: Option<RegistryError>)
    requires RowsOk(t) && Applies(t, m, now, t', error)
    ensures RowsOk(t')
  {
    var e := Expired(t, now);
    forall id | id in e.attempts
      ensures AttemptId(id) && RowOk(e.attempts[id])
    {
      ExpiryKeepsRow(t, now, id);
    }
    if ValidMessage(m) {
      MessageHasId(m);
      if m.operation == Begin {
        NewIsOk(m, now);
        StoredKeepsRows(e, m, Amended(NewAttempt(now), m, now));
      } else if m.attempt in e.attempts && !Terminal(e.attempts[m.attempt].stage) {
        AmendedIsOk(e.attempts[m.attempt], m, now);
        StoredKeepsRows(e, m, Amended(e.attempts[m.attempt], m, now));
      }
    }
    hide Expired, RowOk, AttemptId, Amended, ValidMessage, NewAttempt, Stored, Without, Oldest, Decreases;
  }

  lemma StoredKeepsRows(e: Tables, m: Message, a: Attempt)
    requires RowsOk(e) && AttemptId(m.attempt) && RowOk(a)
    ensures RowsOk(Stored(e, m, a)) && forall other :: RowsOk(Stored(Without(e, other), m, a))
  {
    hide RowOk, AttemptId, FinishedCaptures;
  }

  lemma MessageHasId(m: Message)
    requires ValidMessage(m)
    ensures AttemptId(m.attempt)
  {
    hide AttemptId;
  }

  lemma CallKeepsRows(t: Tables, call: Call, now: int, t': Tables)
    requires RowsOk(t) && Happens(t, call, now, t')
    ensures RowsOk(t')
  {
    forall id | id in Expired(t, now).attempts
      ensures AttemptId(id) && RowOk(Expired(t, now).attempts[id])
    {
      ExpiryKeepsRow(t, now, id);
    }
    hide Expired, Applies, FinishedCaptures, Follows, ValidCapture, AttemptId;
    match call
    case Applying(m) =>
      var error :| Applies(t, m, now, t', error);
      MessageKeepsRows(t, m, now, t', error);
    case _ =>
  }

  /** Whatever is called, every stored attempt is well formed, if the first ones were. */
  lemma {:induction false} StoriesKeepRows(states: seq<Tables>, calls: seq<(Call, int)>, k: nat)
    requires Story(states, calls) && k < |states| && RowsOk(states[0])
    ensures RowsOk(states[k])
    decreases k
  {
    hide Happens, TablesOk, RowsOk;
    if k > 0 {
      StoriesKeepRows(states, calls, k - 1);
      CallKeepsRows(states[k - 1], calls[k - 1].0, calls[k - 1].1, states[k]);
    }
  }

  /** An update or a finish is valid if and only if what it would store is well formed,
      and going on for the one and ended for the other. */
  lemma ValidIffStorable(m: Message, now: int)
    requires m.operation == Update || m.operation == Finish
    ensures var row := Attempt(m.stage, m.harnesses, m.batches, m.entries, m.pendingKnown, m.pending, m.errorCode,
                               now, now, now + 15000, if m.operation == Finish then now else 0);
            ValidMessage(m) <==>
              AttemptId(m.attempt) && RowOk(row) &&
              (m.stage in {Accepted, StageFailed, StageInterrupted} <==> m.operation == Finish)
  {
    hide AttemptId;
  }

  // ----- measurements over stories -----

  /** b is a later measurement of the same harness: results never fall, a known total
      stays, and an ended measurement stays, unless its failure turns out a cancellation. */
  predicate MeasuresOn(a: Capture, b: Capture)
  {
    && a.captured <= b.captured && a.unmodified <= b.unmodified && a.failed <= b.failed && a.quarantined <= b.quarantined
    && (a.totalKnown ==> b.totalKnown && b.total == a.total)
    && (a.phase in {Complete, Failed, Interrupted} ==>
          b == a ||
          (a.phase == Failed && b.phase == Interrupted &&
           (b.checked, b.captured, b.unmodified, b.failed, b.quarantined) ==
           (a.checked, a.captured, a.unmodified, a.failed, a.quarantined)))
  }

  /** What is held of harness h goes on in t', as long as the attempt is known there. */
  predicate HeldOn(t: Tables, t': Tables, id: string, h: string)
  {
    h in CapturesOf(t, id) && id in t.attempts && id in t'.attempts ==>
      h in CapturesOf(t', id) && MeasuresOn(CapturesOf(t, id)[h], CapturesOf(t', id)[h])
  }

  lemma EndingMeasuresOn(before: Captures, after: Captures, failed: bool, h: string)
    requires AllEnded(before, after, failed) && h in before
    ensures h in after && MeasuresOn(before[h], after[h])
  {
  }

  lemma ExpiryHolds(t: Tables, now: int, id: string, h: string)
    ensures HeldOn(t, Expired(t, now), id, h)
  {
    if id in t.attempts && h in CapturesOf(t, id) {
      AttemptsExpire(t, now, id);
      hide Expired, FinishedCaptures, CapturesOf, AllEnded;
      if AllEnded(CapturesOf(t, id), CapturesOf(Expired(t, now), id), false) {
        EndingMeasuresOn(CapturesOf(t, id), CapturesOf(Expired(t, now), id), false, h);
      }
    }
  }

  lemma StoringHolds(e: Tables, m: Message, a: Attempt, other: string, id: string, h: string)
    requires m.attempt != id || (id in e.attempts && m.operation != Begin)
    ensures HeldOn(e, Stored(e, m, a), id, h)
    ensures m.attempt != id ==> HeldOn(e, Stored(Without(e, other), m, a), id, h)
  {
    if m.attempt == id && m.operation == Finish && id in e.captures && h in e.captures[id] {
      FinishedIsEnded(e.captures[id], a.stage);
      EndingMeasuresOn(e.captures[id], FinishedCaptures(e.captures[id], a.stage), a.stage == StageFailed, h);
    }
    hide FinishedCaptures, AllEnded;
  }

  lemma HeldTransitive(a: Tables, b: Tables, c: Tables, id: string, h: string)
    requires HeldOn(a, b, id, h) && HeldOn(b, c, id, h) && (id in c.attempts ==> id in b.attempts)
    ensures HeldOn(a, c, id, h)
  {
    hide CapturesOf;
  }

  lemma MessageHolds(t: Tables, m: Message, now: int, t': Tables, error: Option<RegistryError>, id: string, h: string)
    requires Applies(t, m, now, t', error) && !(m.operation == Begin && m.attempt == id)
    ensures HeldOn(t, t', id, h)
  {
    var e := Expired(t, now);
    ExpiryHolds(t, now, id, h);
    HeldItself(t, id, h);
    forall a, other | m.attempt != id || (id in e.attempts && m.operation != Begin)
      ensures HeldOn(t, Stored(e, m, a), id, h)
      ensures m.attempt != id ==> HeldOn(t, Stored(Without(e, other), m, a), id, h)
    {
      StoringHolds(e, m, a, other, id, h);
      StoredKeys(e, m, a, other, id);
      HeldTransitive(t, e, Stored(e, m, a), id, h);
      if m.attempt != id {
        HeldTransitive(t, e, Stored(Without(e, other), m, a), id, h);
      }
    }
    hide Expired, Stored, Without, Amended, Decreases, NewAttempt, Oldest, ValidMessage, HeldOn;
  }

  lemma HeldItself(t: Tables, id: string, h: string)
    ensures HeldOn(t, t, id, h)
  {
  }

  lemma StoredKeys(e: Tables, m: Message, a: Attempt, other: string, id: string)
    ensures m.attempt != id || id in e.attempts ==> id in Stored(e, m, a).attempts ==> id in e.attempts
    ensures m.attempt != id ==> id in Stored(Without(e, other), m, a).attempts ==> id in e.attempts
  {
    hide FinishedCaptures;
  }

  lemma UpdateHolds(t: Tables, id: string, h: string, c: Capture, now: int, own: string, k: string)
    ensures HeldOn(t, UpdateSpec(t, id, h, c, now).0, own, k)
  {
    var e := Expired(t, now);
    ExpiryHolds(t, now, own, k);
    HeldItself(t, own, k);
    HeldItself(e, own, k);
    hide Expired, ValidCapture, AttemptId;
    var t' := UpdateSpec(t, id, h, c, now).0;
    if t' != t && t' != e {
      assert HeldOn(e, t', own, k);
      HeldTransitive(t, e, t', own, k);
    }
  }

  lemma CallHolds(t: Tables, call: Call, now: int, t': Tables, id: string, h: string)
    requires Happens(t, call, now, t') && !BeginsAnew(call, id)
    ensures HeldOn(t, t', id, h)
  {
    match call
    case Updating(own, harness, c) => UpdateHolds(t, own, harness, c, now, id, h);
    case Applying(m) =>
      var error :| Applies(t, m, now, t', error);
      MessageHolds(t, m, now, t', error, id, h);
    case Interrupting => InterruptionHolds(t, now, id, h);
    case Reading => ExpiryHolds(t, now, id, h);
  }

  lemma InterruptionHolds(t: Tables, now: int, id: string, h: string)
    ensures HeldOn(t, InterruptSpec(t, now), id, h)
  {
    if id in t.captures && h in t.captures[id] {
      FinishedIsEnded(t.captures[id], StageInterrupted);
      EndingMeasuresOn(t.captures[id], FinishedCaptures(t.captures[id], StageInterrupted), false, h);
    }
    hide FinishedCaptures, AllEnded;
  }

  /** Over any calls, what is held of a harness under an attempt not begun anew is never
      lost while the attempt is known, and only measures on. */
  lemma {:induction false} MeasurementsOnlyAdvance(states: seq<Tables>, calls: seq<(Call, int)>, id: string, h: string, i: nat, k: nat)
    requires Story(states, calls) && i <= k < |states|
    requires forall l :: i <= l < k ==> !BeginsAnew(calls[l].0, id)
    requires h in CapturesOf(states[i], id) && id in states[i].attempts && id in states[k].attempts
    ensures h in CapturesOf(states[k], id) && MeasuresOn(CapturesOf(states[i], id)[h], CapturesOf(states[k], id)[h])
    decreases k
  {
    hide Happens, TablesOk, CapturesOf, Advances;
    if i < k {
      CallAdvances(states[k - 1], calls[k - 1].0, calls[k - 1].1, states[k], id);
      MeasurementsOnlyAdvance(states, calls, id, h, i, k - 1);
      CallHolds(states[k - 1], calls[k - 1].0, calls[k - 1].1, states[k], id, h);
    }
  }

  /** What a stored measurement says adds up: the results make up what was checked, which
      with what is being read stays within a known total; it is complete only when
      everything was checked without failure, and reads only while something is read. */
  predicate AddsUp(h: string, c: Capture)
  {
    && h in {"codex", "opencode", "claude-code", "pi"}
    && 0 <= c.total <= SAFE_INTEGER && 0 <= c.active <= SAFE_INTEGER
    && c.captured >= 0 && c.unmodified >= 0 && c.failed >= 0 && c.quarantined >= 0
    && c.checked == c.captured + c.unmodified + c.failed + c.quarantined <= SAFE_INTEGER
    && (if c.totalKnown then c.checked + c.active <= c.total && c.phase != Discovering
        else (c.total, c.checked, c.active) == (0, 0, 0) && c.phase in {Discovering, Failed, Interrupted})
    && (c.phase == Phase.Reading ==> c.active > 0) && (c.phase !in {Phase.Reading, Saving} ==> c.active == 0)
    && (c.phase == Complete ==> c.checked == c.total && c.failed + c.quarantined == 0)
  }

  lemma ValidIffAddsUp(h: string, c: Capture)
    ensures ValidCapture(h, c) <==> AddsUp(h, c)
  {
  }

  /** Whatever is called, every stored measurement adds up. */
  lemma StoredMeasurementsAddUp(states: seq<Tables>, calls: seq<(Call, int)>, k: nat, id: string, h: string)
    requires Story(states, calls) && k < |states| && h in CapturesOf(states[k], id)
    ensures id in states[k].attempts && AddsUp(h, CapturesOf(states[k], id)[h])
  {
    StoriesKeepTables(states, calls, k);
    hide Happens, ValidCapture, AddsUp, Story;
    ValidIffAddsUp(h, CapturesOf(states[k], id)[h]);
  }
}
