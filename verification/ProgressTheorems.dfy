/** Whatever a capture publishes, in whatever order its readers and its writer run and
    whatever else happens to the registry meanwhile, is accepted exactly while the
    attempt lives. */
module ProgressTheorems {
  import opened Basics
  import opened CaptureReporter
  import opened CollectorProgress
  import opened ProgressRuns

  predicate Named(names: seq<string>)
  {
    (forall i :: 0 <= i < |names| ==> ValidHarness(names[i])) && (forall i, k :: 0 <= i < k < |names| ==> names[i] != names[k])
  }

  // ----- what is published -----

  predicate Indexed(p: Producer)
  {
    forall j :: 0 <= j < |p.emitted| ==> p.emitted[j].0 < |p.states|
  }

  lemma {:induction false} StoppedIndexed(states: seq<Measurement>, interrupted: bool, n: nat)
    requires n <= |states|
    ensures forall j :: 0 <= j < |StoppedEvents(states, interrupted, n)| ==> StoppedEvents(states, interrupted, n)[j].0 < n
  {
    if n > 0 {
      StoppedIndexed(states, interrupted, n - 1);
    }
  }

  lemma NextIndexed(p: Producer, step: Step)
    requires JobsOk(p) && Indexed(p)
    ensures Indexed(Next(p, step))
  {
    hide Finalized, Discovered, ReadingChanged, SavingStarted;
    forall states: seq<Measurement>, interrupted: bool | |states| == |p.states|
      ensures forall j :: 0 <= j < |StoppedEvents(states, interrupted, |p.states|)| ==>
                StoppedEvents(states, interrupted, |p.states|)[j].0 < |p.states|
    {
      StoppedIndexed(states, interrupted, |p.states|);
    }
  }

  lemma {:induction false} RunsIndexed(harnesses: nat, steps: seq<Step>)
    ensures Indexed(Run(harnesses, steps))
  {
    if steps != [] {
      var p := Run(harnesses, steps[..|steps| - 1]);
      RunsIndexed(harnesses, steps[..|steps| - 1]);
      hide Next;
      NextIndexed(p, steps[|steps| - 1]);
    }
  }

  /** Every measurement ever published is valid for its harness and may follow the one
      published before it. */
  lemma EveryMeasurementIsValid(harnesses: nat, steps: seq<Step>, names: seq<string>, j: nat)
    requires Named(names) && |names| == harnesses && j < |Run(harnesses, steps).emitted|
    ensures var (i, c) := Run(harnesses, steps).emitted[j];
            i < harnesses && ValidCapture(names[i], c) && MayFollow(Last(Run(harnesses, steps).emitted, j, i), c)
  {
    RunsKeepProducer(harnesses, steps);
    RunsIndexed(harnesses, steps);
    hide Run, Counts, Follows, StateOk;
    var p := Run(harnesses, steps);
    assert EmissionsOk(p.emitted) && p.emitted[j].0 < |p.states|;
  }

  // ----- what the registry makes of it -----

  predicate Live(t: Tables, id: string, now: int)
  {
    AttemptId(id) && id in t.attempts && !Terminal(t.attempts[id].stage) && now < t.attempts[id].expiresAt
  }

  /** The attempt's measurements are the last ones published among the first n. */
  predicate Registered(t: Tables, id: string, names: seq<string>, emitted: seq<Emission>, n: nat)
    requires n <= |emitted|
  {
    forall i :: 0 <= i < |names| ==>
      match Last(emitted, n, i)
      case None => names[i] !in CapturesOf(t, id)
      case Some(c) => names[i] in CapturesOf(t, id) && CapturesOf(t, id)[names[i]] == c
  }

  lemma LiveUnexpired(t: Tables, id: string, now: int)
    requires Live(t, id, now)
    ensures id in Expired(t, now).attempts && Expired(t, now).attempts[id] == t.attempts[id]
    ensures CapturesOf(Expired(t, now), id) == CapturesOf(t, id)
  {
    hide FinishedCaptures;
  }

  lemma UpdateAccepted(t: Tables, id: string, h: string, c: Capture, now: int)
    requires Live(t, id, now) && ValidCapture(h, c) && (h in CapturesOf(t, id) ==> Follows(CapturesOf(t, id)[h], c))
    ensures var (after, error) := UpdateSpec(t, id, h, c, now);
            error == None && after.attempts == Expired(t, now).attempts && CapturesOf(after, id) == CapturesOf(t, id)[h := c]
    ensures id in UpdateSpec(t, id, h, c, now).0.attempts && UpdateSpec(t, id, h, c, now).0.attempts[id] == t.attempts[id]
  {
    LiveUnexpired(t, id, now);
    hide Expired, ValidCapture, Follows;
  }

  /** The next measurement of a capture is accepted by a registry that holds the ones
      before it, and replaces its harness's measurement alone. */
  lemma MeasurementAccepted(harnesses: nat, steps: seq<Step>, names: seq<string>, j: nat, t: Tables, id: string, now: int)
    requires Named(names) && |names| == harnesses && j < |Run(harnesses, steps).emitted|
    requires Live(t, id, now) && Registered(t, id, names, Run(harnesses, steps).emitted, j)
    ensures var (i, c) := Run(harnesses, steps).emitted[j];
            && i < harnesses && UpdateSpec(t, id, names[i], c, now).1 == None
            && Registered(UpdateSpec(t, id, names[i], c, now).0, id, names, Run(harnesses, steps).emitted, j + 1)
            && id in UpdateSpec(t, id, names[i], c, now).0.attempts
            && UpdateSpec(t, id, names[i], c, now).0.attempts[id] == t.attempts[id]
  {
    hide ValidCapture, Follows, UpdateSpec, Run, Live;
    EveryMeasurementIsValid(harnesses, steps, names, j);
    var (i, c) := Run(harnesses, steps).emitted[j];
    UpdateAccepted(t, id, names[i], c, now);
  }

  // ----- the registry over whole runs -----

  datatype Call = Updating(id: string, harness: string, capture: Capture) | Applying(message: Message) | Interrupting | Reading

  /** One call at a time, at any instants; where the choice is free any outcome counts. */
  ghost predicate Happens(t: Tables, call: Call, now: int, t': Tables)
  {
    match call
    case Updating(id, h, c) => t' == UpdateSpec(t, id, h, c, now).0
    case Applying(m) => exists error :: Applies(t, m, now, t', error)
    case Interrupting => t' == InterruptSpec(t, now)
    case Reading => t' == Expired(t, now)
  }

  /** Calls one after another from any tables; times need not rise. */
  ghost predicate Story(states: seq<Tables>, calls: seq<(Call, int)>)
  {
    && |states| == |calls| + 1 && TablesOk(states[0])
    && forall k :: 0 <= k < |calls| ==> Happens(states[k], calls[k].0, calls[k].1, states[k + 1])
  }

  lemma HappeningKeepsTables(t: Tables, call: Call, now: int, t': Tables)
    requires TablesOk(t) && Happens(t, call, now, t')
    ensures TablesOk(t')
  {
    hide TablesOk, UpdateSpec, InterruptSpec, Expired, Applies;
    match call
    case Updating(id, h, c) => UpdateKeepsTables(t, id, h, c, now);
    case Applying(m) =>
      var error :| Applies(t, m, now, t', error);
      ApplyKeepsTables(t, m, now, t', error);
    case Interrupting => InterruptingKeepsTables(t, now);
    case Reading => ExpiryKeepsTables(t, now);
  }

  /** In every story there are at most 32 attempts, every stored measurement is valid,
      and a terminal attempt holds terminal measurements only. */
  lemma {:induction false} StoriesKeepTables(states: seq<Tables>, calls: seq<(Call, int)>, k: nat)
    requires Story(states, calls) && k < |states|
    ensures TablesOk(states[k])
    decreases k
  {
    hide Happens;
    if k > 0 {
      StoriesKeepTables(states, calls, k - 1);
      HappeningKeepsTables(states[k - 1], calls[k - 1].0, calls[k - 1].1, states[k]);
    }
  }

  // ----- a capture among all other calls -----

  predicate Measures(call: Call, id: string)
  {
    call.Updating? && call.id == id
  }

  /** How many of the calls measure the attempt. */
  function Measured(calls: seq<(Call, int)>, id: string, n: nat): (m: nat)
    requires n <= |calls|
    ensures m <= n
  {
    if n == 0 then 0 else Measured(calls, id, n - 1) + if Measures(calls[n - 1].0, id) then 1 else 0
  }

  /** What measures the attempt is what was published, in that order. */
  predicate Reports(calls: seq<(Call, int)>, id: string, names: seq<string>, emitted: seq<Emission>)
  {
    && (forall j :: 0 <= j < |emitted| ==> emitted[j].0 < |names|)
    && Measured(calls, id, |calls|) <= |emitted|
    && forall k :: 0 <= k < |calls| && Measures(calls[k].0, id) ==>
         var j := Measured(calls, id, k);
         j < |emitted| && calls[k].0 == Updating(id, names[emitted[j].0], emitted[j].1)
  }

  predicate Ongoing(t: Tables, id: string)
  {
    id in t.attempts && !Terminal(t.attempts[id].stage)
  }

  /** Whatever a living attempt holds of a harness is the last one published. */
  predicate HeldAreLast(t: Tables, id: string, names: seq<string>, emitted: seq<Emission>, n: nat)
    requires n <= |emitted|
  {
    Ongoing(t, id) ==>
      forall i :: 0 <= i < |names| && names[i] in CapturesOf(t, id) ==> Last(emitted, n, i) == Some(CapturesOf(t, id)[names[i]])
  }

  /** An attempt that still goes on after expiry was alive, and is as it was. */
  lemma SurvivesExpiry(t: Tables, id: string, now: int)
    ensures Ongoing(Expired(t, now), id) ==> Ongoing(t, id) && now < t.attempts[id].expiresAt
    ensures Ongoing(t, id) && now < t.attempts[id].expiresAt ==> Ongoing(Expired(t, now), id)
    ensures Ongoing(Expired(t, now), id) ==>
              Expired(t, now).attempts[id] == t.attempts[id] && CapturesOf(Expired(t, now), id) == CapturesOf(t, id)
  {
    hide FinishedCaptures;
  }

  /** A measurement is accepted exactly while its attempt lives. */
  lemma AcceptedIffLive(t: Tables, id: string, h: string, c: Capture, now: int)
    requires AttemptId(id) && ValidCapture(h, c)
    requires Ongoing(t, id) && h in CapturesOf(t, id) ==> Follows(CapturesOf(t, id)[h], c)
    ensures UpdateSpec(t, id, h, c, now).1 == None <==> Live(t, id, now)
    ensures !Live(t, id, now) ==> !Ongoing(UpdateSpec(t, id, h, c, now).0, id)
    ensures Live(t, id, now) ==> CapturesOf(UpdateSpec(t, id, h, c, now).0, id) == CapturesOf(t, id)[h := c]
  {
    hide AttemptId, ValidCapture, Follows, Expired;
    SurvivesExpiry(t, id, now);
  }

  /** The call finishes the attempt, or all of them. */
  predicate Ends(call: Call, id: string)
  {
    call.Interrupting? || (call.Applying? && call.message.operation == Finish && call.message.attempt == id)
  }

  predicate Beats(call: Call, id: string)
  {
    call.Applying? && call.message.operation == Heartbeat && call.message.attempt == id && ValidMessage(call.message)
  }

  lemma StoringIsLocal(e: Tables, m: Message, a: Attempt, id: string)
    ensures m.attempt == id ==> id in Stored(e, m, a).attempts && Stored(e, m, a).attempts[id] == a
    ensures m.attempt != id ==> (id in Stored(e, m, a).attempts <==> id in e.attempts)
    ensures m.attempt != id && id in e.attempts ==> Stored(e, m, a).attempts[id] == e.attempts[id]
    ensures m.attempt != id || m.operation != Finish ==> CapturesOf(Stored(e, m, a), id) == CapturesOf(e, id)
  {
    hide FinishedCaptures;
  }

  lemma RemovingIsLocal(e: Tables, other: string, id: string)
    ensures other != id ==> CapturesOf(Without(e, other), id) == CapturesOf(e, id)
    ensures id in Without(e, other).attempts <==> id in e.attempts && id != other
    ensures id in Without(e, other).attempts ==> Without(e, other).attempts[id] == e.attempts[id]
    ensures e.captures.Keys <= e.attempts.Keys && id !in Without(e, other).attempts ==> CapturesOf(Without(e, other), id) == map[]
  {
  }

  lemma BeginLeavesMeasurements(t: Tables, m: Message, now: int, t': Tables, error: Option<RegistryError>, id: string)
    requires TablesOk(t) && Applies(t, m, now, t', error) && m.operation == Begin && ValidMessage(m)
    ensures Ongoing(t', id) ==> CapturesOf(t', id) == map[] || CapturesOf(t', id) == CapturesOf(Expired(t, now), id)
    ensures Ongoing(t', id) && CapturesOf(t', id) != map[] ==> Ongoing(Expired(t, now), id)
  {
    ExpiryKeepsTables(t, now);
    var e := Expired(t, now);
    assert e.captures.Keys <= e.attempts.Keys;
    forall o, a: Attempt
      ensures m.attempt != id && Ongoing(Stored(Without(e, o), m, a), id) ==>
                Ongoing(e, id) && CapturesOf(Stored(Without(e, o), m, a), id) == CapturesOf(e, id)
      ensures m.attempt == id && id !in e.attempts ==> CapturesOf(Stored(Without(e, o), m, a), id) == map[]
    {
      StoringIsLocal(Without(e, o), m, a, id);
      RemovingIsLocal(e, o, id);
    }
    forall a: Attempt
      ensures m.attempt != id && Ongoing(Stored(e, m, a), id) ==>
                Ongoing(e, id) && CapturesOf(Stored(e, m, a), id) == CapturesOf(e, id)
      ensures m.attempt == id && id !in e.attempts ==> CapturesOf(Stored(e, m, a), id) == map[]
    {
      StoringIsLocal(e, m, a, id);
    }
    hide Expired, Stored, Without, Amended, NewAttempt, Oldest, TablesOk, CapturesOf, Ongoing, ValidMessage;
    assert m.attempt !in e.attempts || t' == e;
  }

  lemma MessageLeavesMeasurements(t: Tables, m: Message, now: int, t': Tables, error: Option<RegistryError>, id: string)
    requires TablesOk(t) && Applies(t, m, now, t', error)
    ensures Ongoing(t', id) ==> CapturesOf(t', id) == map[] || (Ongoing(t, id) && CapturesOf(t', id) == CapturesOf(t, id))
  {
    SurvivesExpiry(t, id, now);
    if ValidMessage(m) && m.operation == Begin {
      BeginLeavesMeasurements(t, m, now, t', error, id);
    } else if ValidMessage(m) {
      var e := Expired(t, now);
      forall a: Attempt
        ensures Ongoing(Stored(e, m, a), id) && !(m.operation == Finish && m.attempt == id) ==>
                  CapturesOf(Stored(e, m, a), id) == CapturesOf(e, id)
        ensures Ongoing(Stored(e, m, a), id) && m.attempt != id ==> Ongoing(e, id)
      {
        StoringIsLocal(e, m, a, id);
      }
      FinishingEnds(e, m, now, id);
      hide Expired, Stored, Amended, TablesOk, CapturesOf, ValidMessage;
    }
  }

  lemma FinishingEnds(e: Tables, m: Message, now: int, id: string)
    ensures m.operation == Finish && m.attempt == id && ValidMessage(m) && id in e.attempts ==>
              !Ongoing(Stored(e, m, Amended(e.attempts[id], m, now)), id)
  {
    hide FinishedCaptures;
  }

  /** Any other call leaves the measurements of an attempt that goes on afterwards, unless
      it began just now and has none. */
  lemma OtherCallLeavesMeasurements(t: Tables, call: Call, now: int, t': Tables, id: string)
    requires TablesOk(t) && Happens(t, call, now, t') && !Measures(call, id)
    ensures Ongoing(t', id) ==> CapturesOf(t', id) == map[] || (Ongoing(t, id) && CapturesOf(t', id) == CapturesOf(t, id))
  {
    SurvivesExpiry(t, id, now);
    hide Expired, FinishedCaptures, Applies, TablesOk, ValidCapture, AttemptId, Follows;
    if call.Applying? {
      var error :| Applies(t, call.message, now, t', error);
      MessageLeavesMeasurements(t, call.message, now, t', error, id);
    }
  }

  /** The same attempt with the same measurements. */
  predicate SameAttempt(t: Tables, t': Tables, id: string)
  {
    id in t.attempts && id in t'.attempts && t'.attempts[id] == t.attempts[id] && CapturesOf(t', id) == CapturesOf(t, id)
  }

  lemma StoringElsewhere(e: Tables, m: Message, a: Attempt, id: string)
    requires id in e.attempts && m.attempt != id
    ensures SameAttempt(e, Stored(e, m, a), id)
    ensures forall other :: other != id ==> SameAttempt(e, Stored(Without(e, other), m, a), id)
  {
    StoringIsLocal(e, m, a, id);
    forall other | other != id
      ensures SameAttempt(e, Stored(Without(e, other), m, a), id)
    {
      StoringIsLocal(Without(e, other), m, a, id);
      RemovingIsLocal(e, other, id);
    }
  }

  lemma OwnMessage(e: Tables, m: Message, now: int, id: string)
    requires Ongoing(e, id) && m.attempt == id && m.operation != Finish && ValidMessage(m)
    ensures var t' := Stored(e, m, Amended(e.attempts[id], m, now));
            m.operation != Begin ==>
              Ongoing(t', id) && CapturesOf(t', id) == CapturesOf(e, id) && t'.attempts[id].expiresAt == now + LEASE_MS
  {
    StoringIsLocal(e, m, Amended(e.attempts[id], m, now), id);
    hide Stored, CapturesOf;
  }

  lemma MessageKeepsAlive(t: Tables, m: Message, now: int, t': Tables, error: Option<RegistryError>, id: string)
    requires Applies(t, m, now, t', error) && Live(t, id, now) && !(m.operation == Finish && m.attempt == id)
    ensures Ongoing(t', id) && CapturesOf(t', id) == CapturesOf(t, id)
    ensures t'.attempts[id].expiresAt == t.attempts[id].expiresAt || t'.attempts[id].expiresAt == now + LEASE_MS
    ensures m.operation == Heartbeat && m.attempt == id && ValidMessage(m) ==> t'.attempts[id].expiresAt == now + LEASE_MS
  {
    SurvivesExpiry(t, id, now);
    var e := Expired(t, now);
    if m.attempt == id {
      if ValidMessage(m) {
        OwnMessage(e, m, now, id);
      }
      hide Expired, ValidMessage, Stored, Amended, CapturesOf, AttemptId;
    } else {
      forall a: Attempt
        ensures SameAttempt(e, Stored(e, m, a), id)
        ensures forall other :: Oldest(e, other) ==> SameAttempt(e, Stored(Without(e, other), m, a), id)
      {
        StoringElsewhere(e, m, a, id);
      }
      hide Expired, ValidMessage, Stored, Amended, CapturesOf, AttemptId, NewAttempt, Oldest;
    }
  }

  /** While it lives, an attempt survives every call that does not end it, with its
      measurements; its lease stays or is renewed, and a heartbeat renews it. */
  lemma OtherCallKeepsAlive(t: Tables, call: Call, now: int, t': Tables, id: string)
    requires Happens(t, call, now, t') && Live(t, id, now) && !Measures(call, id) && !Ends(call, id)
    ensures Ongoing(t', id) && CapturesOf(t', id) == CapturesOf(t, id)
    ensures t'.attempts[id].expiresAt == t.attempts[id].expiresAt || t'.attempts[id].expiresAt == now + LEASE_MS
    ensures Beats(call, id) ==> t'.attempts[id].expiresAt == now + LEASE_MS
  {
    SurvivesExpiry(t, id, now);
    hide Expired, FinishedCaptures, Applies, ValidCapture, AttemptId, Follows, ValidMessage;
    if call.Applying? {
      var error :| Applies(t, call.message, now, t', error);
      MessageKeepsAlive(t, call.message, now, t', error, id);
    }
  }

  lemma AnyCallKeepsAlive(t: Tables, call: Call, now: int, t': Tables, id: string)
    requires Happens(t, call, now, t') && Live(t, id, now) && !Ends(call, id)
    ensures Ongoing(t', id)
    ensures t'.attempts[id].expiresAt == t.attempts[id].expiresAt || t'.attempts[id].expiresAt == now + LEASE_MS
    ensures Beats(call, id) ==> t'.attempts[id].expiresAt == now + LEASE_MS
  {
    if Measures(call, id) {
      SurvivesExpiry(t, id, now);
      hide Expired, ValidCapture, Follows;
    } else {
      hide Happens;
      OtherCallKeepsAlive(t, call, now, t', id);
    }
  }

  // ----- the whole capture -----

  lemma {:induction false} MeasuredRises(calls: seq<(Call, int)>, id: string, k: nat, n: nat)
    requires k <= n <= |calls|
    ensures Measured(calls, id, k) <= Measured(calls, id, n)
    decreases n
  {
    if k < n {
      MeasuredRises(calls, id, k, n - 1);
    }
  }

  /** The next measurement replaces its own harness's and no other. */
  lemma ReplacedIsLast(t: Tables, t': Tables, id: string, names: seq<string>, emitted: seq<Emission>, j: nat)
    requires Named(names) && j < |emitted| && emitted[j].0 < |names| && HeldAreLast(t, id, names, emitted, j)
    requires Ongoing(t, id) && CapturesOf(t', id) == CapturesOf(t, id)[names[emitted[j].0] := emitted[j].1]
    ensures HeldAreLast(t', id, names, emitted, j + 1)
  {
    hide CapturesOf, Ongoing;
  }

  lemma MeasuringStep(harnesses: nat, steps: seq<Step>, names: seq<string>, t: Tables, now: int, id: string, j: nat)
    requires Named(names) && |names| == harnesses && AttemptId(id)
    requires j < |Run(harnesses, steps).emitted| && HeldAreLast(t, id, names, Run(harnesses, steps).emitted, j)
    requires Run(harnesses, steps).emitted[j].0 < |names|
    ensures var (i, c) := Run(harnesses, steps).emitted[j];
            && (UpdateSpec(t, id, names[i], c, now).1 == None <==> Live(t, id, now))
            && HeldAreLast(UpdateSpec(t, id, names[i], c, now).0, id, names, Run(harnesses, steps).emitted, j + 1)
  {
    EveryMeasurementIsValid(harnesses, steps, names, j);
    var (i, c) := Run(harnesses, steps).emitted[j];
    hide Run, UpdateSpec, ValidCapture, Follows, AttemptId;
    AcceptedIffLive(t, id, names[i], c, now);
    hide Named, CapturesOf;
    if Live(t, id, now) {
      ReplacedIsLast(t, UpdateSpec(t, id, names[i], c, now).0, id, names, Run(harnesses, steps).emitted, j);
    }
  }

  /** One call of a story keeps what a living attempt holds of the capture, and a
      measurement is accepted exactly if the attempt is alive. */
  lemma HeldStep(harnesses: nat, steps: seq<Step>, names: seq<string>, t: Tables, call: Call, now: int, t': Tables, id: string, j: nat)
    requires Named(names) && |names| == harnesses && AttemptId(id) && TablesOk(t) && Happens(t, call, now, t')
    requires j <= |Run(harnesses, steps).emitted| && HeldAreLast(t, id, names, Run(harnesses, steps).emitted, j)
    requires Measures(call, id) ==>
               j < |Run(harnesses, steps).emitted| && Run(harnesses, steps).emitted[j].0 < |names| &&
               call == Updating(id, names[Run(harnesses, steps).emitted[j].0], Run(harnesses, steps).emitted[j].1)
    ensures HeldAreLast(t', id, names, Run(harnesses, steps).emitted, if Measures(call, id) then j + 1 else j)
    ensures Measures(call, id) ==> (UpdateSpec(t, id, call.harness, call.capture, now).1 == None <==> Live(t, id, now))
  {
    if Measures(call, id) {
      hide TablesOk, Run;
      MeasuringStep(harnesses, steps, names, t, now, id, j);
    } else {
      hide Run, TablesOk, Happens, AttemptId;
      OtherCallLeavesMeasurements(t, call, now, t', id);
    }
  }

  lemma NothingHeld(t: Tables, id: string, names: seq<string>, emitted: seq<Emission>)
    requires CapturesOf(t, id) == map[]
    ensures HeldAreLast(t, id, names, emitted, 0)
  {
  }

  lemma {:induction false} HeldThroughout(harnesses: nat, steps: seq<Step>, names: seq<string>,
                                          states: seq<Tables>, calls: seq<(Call, int)>, id: string, k: nat)
    requires Named(names) && |names| == harnesses && AttemptId(id) && Story(states, calls) && k <= |calls|
    requires CapturesOf(states[0], id) == map[] && Reports(calls, id, names, Run(harnesses, steps).emitted)
    ensures Measured(calls, id, k) <= |Run(harnesses, steps).emitted|
    ensures HeldAreLast(states[k], id, names, Run(harnesses, steps).emitted, Measured(calls, id, k))
    decreases k
  {
    hide Run, Happens, TablesOk, HeldAreLast, Named, AttemptId;
    MeasuredRises(calls, id, k, |calls|);
    NothingHeld(states[0], id, names, Run(harnesses, steps).emitted);
    if k > 0 {
      HeldThroughout(harnesses, steps, names, states, calls, id, k - 1);
      StoriesKeepTables(states, calls, k - 1);
      HeldStep(harnesses, steps, names, states[k - 1], calls[k - 1].0, calls[k - 1].1, states[k], id, Measured(calls, id, k - 1));
    }
  }

  /** Whatever else is called in between, whenever and by whomever, each measurement of
      a capture is accepted if and only if its attempt is alive at that moment. */
  lemma AcceptedExactlyWhileLive(harnesses: nat, steps: seq<Step>, names: seq<string>,
                                 states: seq<Tables>, calls: seq<(Call, int)>, id: string, k: nat)
    requires Named(names) && |names| == harnesses && AttemptId(id) && Story(states, calls) && k < |calls|
    requires CapturesOf(states[0], id) == map[] && Reports(calls, id, names, Run(harnesses, steps).emitted)
    requires Measures(calls[k].0, id)
    ensures UpdateSpec(states[k], id, calls[k].0.harness, calls[k].0.capture, calls[k].1).1 == None <==>
            Live(states[k], id, calls[k].1)
  {
    HeldThroughout(harnesses, steps, names, states, calls, id, k);
    StoriesKeepTables(states, calls, k);
    hide Run, Happens, TablesOk, HeldAreLast, Named, AttemptId, UpdateSpec, Live;
    HeldStep(harnesses, steps, names, states[k], calls[k].0, calls[k].1, states[k + 1], id, Measured(calls, id, k));
  }

  /** No call ends the attempt, and each comes before the lease held at that moment. */
  predicate KeptAlive(states: seq<Tables>, calls: seq<(Call, int)>, id: string)
    requires |states| == |calls| + 1
  {
    forall k :: 0 <= k < |calls| ==>
      !Ends(calls[k].0, id) && (id in states[k].attempts ==> calls[k].1 < states[k].attempts[id].expiresAt)
  }

  lemma SameRegistered(t: Tables, t': Tables, id: string, names: seq<string>, emitted: seq<Emission>, n: nat)
    requires n <= |emitted| && Registered(t, id, names, emitted, n) && CapturesOf(t', id) == CapturesOf(t, id)
    ensures Registered(t', id, names, emitted, n)
  {
    hide CapturesOf;
  }

  /** One call while the attempt lives: a measurement is accepted, any other call changes
      nothing of the attempt's measurements. */
  lemma AliveStep(harnesses: nat, steps: seq<Step>, names: seq<string>, t: Tables, call: Call, now: int, t': Tables, id: string, j: nat)
    requires Named(names) && |names| == harnesses && Live(t, id, now) && Happens(t, call, now, t') && !Ends(call, id)
    requires j <= |Run(harnesses, steps).emitted| && Registered(t, id, names, Run(harnesses, steps).emitted, j)
    requires Measures(call, id) ==>
               j < |Run(harnesses, steps).emitted| && Run(harnesses, steps).emitted[j].0 < |names| &&
               call == Updating(id, names[Run(harnesses, steps).emitted[j].0], Run(harnesses, steps).emitted[j].1)
    ensures Ongoing(t', id)
    ensures if Measures(call, id)
            then UpdateSpec(t, id, call.harness, call.capture, now).1 == None &&
                 Registered(t', id, names, Run(harnesses, steps).emitted, j + 1)
            else Registered(t', id, names, Run(harnesses, steps).emitted, j)
  {
    AnyCallKeepsAlive(t, call, now, t', id);
    hide Run, UpdateSpec, AttemptId, Named, Registered, Ongoing;
    if Measures(call, id) {
      MeasurementAccepted(harnesses, steps, names, j, t, id, now);
    } else {
      OtherCallKeepsAlive(t, call, now, t', id);
      SameRegistered(t, t', id, names, Run(harnesses, steps).emitted, j);
    }
  }

  lemma NothingRegistered(t: Tables, id: string, names: seq<string>, emitted: seq<Emission>)
    requires CapturesOf(t, id) == map[]
    ensures Registered(t, id, names, emitted, 0)
  {
  }

  /** A whole capture under an attempt that is kept alive, among any other calls: no
      measurement is refused, and at every moment the registry holds each harness's last
      one, and nothing of a harness that published none. */
  lemma {:induction false} CaptureRefinesRegistry(harnesses: nat, steps: seq<Step>, names: seq<string>,
                                                  states: seq<Tables>, calls: seq<(Call, int)>, id: string, k: nat)
    requires Named(names) && |names| == harnesses && AttemptId(id) && Story(states, calls) && k <= |calls|
    requires Ongoing(states[0], id) && CapturesOf(states[0], id) == map[]
    requires Reports(calls, id, names, Run(harnesses, steps).emitted) && KeptAlive(states, calls, id)
    ensures Ongoing(states[k], id) && Measured(calls, id, k) <= |Run(harnesses, steps).emitted|
    ensures Registered(states[k], id, names, Run(harnesses, steps).emitted, Measured(calls, id, k))
    ensures forall m :: 0 <= m < k && Measures(calls[m].0, id) ==>
              UpdateSpec(states[m], id, calls[m].0.harness, calls[m].0.capture, calls[m].1).1 == None
    decreases k
  {
    hide Run, UpdateSpec, TablesOk, AttemptId, Named, Registered, CapturesOf, Happens;
    MeasuredRises(calls, id, k, |calls|);
    NothingRegistered(states[0], id, names, Run(harnesses, steps).emitted);
    if k > 0 {
      CaptureRefinesRegistry(harnesses, steps, names, states, calls, id, k - 1);
      var t, call, now, t', j := states[k - 1], calls[k - 1].0, calls[k - 1].1, states[k], Measured(calls, id, k - 1);
      assert Live(t, id, now);
      AliveStep(harnesses, steps, names, t, call, now, t', id, j);
    }
  }

  // ----- keeping an attempt alive -----

  /** Begun or renewed at start, and a heartbeat less than a lease ago at every call. */
  predicate Beating(calls: seq<(Call, int)>, id: string, start: int)
  {
    && (forall k :: 0 <= k < |calls| ==> start <= calls[k].1 && !Ends(calls[k].0, id))
    && (forall l, k :: 0 <= l < k < |calls| ==> calls[l].1 <= calls[k].1)
    && forall k :: 0 <= k < |calls| ==>
         calls[k].1 < start + LEASE_MS || exists l :: 0 <= l < k && Beats(calls[l].0, id) && calls[k].1 < calls[l].1 + LEASE_MS
  }

  /** Calls in the order of time with timely heartbeats among them keep an attempt alive,
      whatever else they do. */
  lemma {:induction false} HeartbeatsKeepAlive(states: seq<Tables>, calls: seq<(Call, int)>, id: string, start: int, n: nat)
    requires Story(states, calls) && AttemptId(id) && Beating(calls, id, start) && n <= |calls|
    requires Ongoing(states[0], id) && states[0].attempts[id].expiresAt == start + LEASE_MS
    ensures Ongoing(states[n], id) && states[n].attempts[id].expiresAt >= start + LEASE_MS
    ensures forall l :: 0 <= l < n && Beats(calls[l].0, id) ==> states[n].attempts[id].expiresAt >= calls[l].1 + LEASE_MS
    ensures n == |calls| ==> KeptAlive(states, calls, id)
    decreases n
  {
    hide Happens, TablesOk, AttemptId, ValidMessage;
    if n > 0 {
      HeartbeatsKeepAlive(states, calls, id, start, n - 1);
      assert Live(states[n - 1], id, calls[n - 1].1);
      AnyCallKeepsAlive(states[n - 1], calls[n - 1].0, calls[n - 1].1, states[n], id);
    }
    if n == |calls| {
      forall k | 0 <= k < n
        ensures id in states[k].attempts && calls[k].1 < states[k].attempts[id].expiresAt
      {
        HeartbeatsKeepAlive(states, calls, id, start, k);
      }
    }
  }
}
