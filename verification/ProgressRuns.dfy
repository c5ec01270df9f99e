/** A whole capture, with its concurrent readers and its single writer, against the
    registry that follows it. */
module ProgressRuns {
  import opened Basics
  import opened CaptureReporter
  import opened CollectorProgress

  datatype JobStage = Queued | BeingRead | ReadDone | Finalised

  datatype Job = Job(harness: nat, stage: JobStage)

  datatype RunStage = Finding(next: nat) | Running | Over

  /** The reporter's states, every source as a job, and the job the writer is saving. */
  datatype Producer = Producer(states: seq<Measurement>, jobs: seq<Job>, stage: RunStage, writing: Option<nat>,
                               emitted: seq<Emission>)

  datatype Discovery = Unsupported | NotDiscovered(interrupted: bool) | Sources(count: nat)

  datatype Step =
    | Discover(result: Discovery)
    | BeginReading
    | NoDirectory(interrupted: bool)
    | StartRead(job: nat)
    | EndRead(job: nat)
    | StartSave(job: nat)
    | Finalise(job: nat, outcome: Outcome)
    | End(cancelled: bool)

  function Emit(p: Producer, i: nat, m: Measurement): Producer
    requires i < |p.states|
  {
    p.(states := p.states[i := m], emitted := p.emitted + [(i, m.event)])
  }

  function StopAll(p: Producer, interrupted: bool): Producer
  {
    p.(states := StoppedStates(p.states, interrupted),
       emitted := p.emitted + StoppedEvents(p.states, interrupted, |p.states|), stage := Over)
  }

  function NewJobs(i: nat, count: nat): (jobs: seq<Job>)
    ensures |jobs| == count && forall k :: 0 <= k < count ==> jobs[k] == Job(i, Queued)
  {
    seq(count, _ => Job(i, Queued))
  }

  predicate At(p: Producer, k: nat, stage: JobStage)
  {
    p.stage == Running && k < |p.jobs| && p.jobs[k].stage == stage
  }

  /** Counts stay within what a measurement may carry. */
  predicate Enabled(p: Producer, step: Step)
  {
    match step
    case Discover(result) => p.stage.Finding? && p.stage.next < |p.states| && (result.Sources? ==> result.count <= SAFE_INTEGER)
    case BeginReading => p.stage == Finding(|p.states|) && p.jobs != []
    case NoDirectory(_) => p.stage == Finding(|p.states|) && p.jobs != []
    case StartRead(k) => At(p, k, Queued)
    case EndRead(k) => At(p, k, BeingRead)
    case StartSave(k) => At(p, k, ReadDone) && (p.writing.None? || p.writing == Some(k))
    case Finalise(k, _) => At(p, k, ReadDone) && (p.writing.None? || p.writing == Some(k))
    case End(cancelled) =>
      p.stage == Running && p.writing.None? &&
      forall k :: 0 <= k < |p.jobs| ==> p.jobs[k].stage == Finalised || (cancelled && p.jobs[k].stage == Queued)
  }

  function Discovering'(p: Producer, i: nat, result: Discovery): Producer
    requires i < |p.states|
  {
    var started := Emit(p, i, InPhase(p.states[i], Discovering));
    match result
    case Unsupported => StopAll(Emit(started, i, InPhase(started.states[i], Failed)), false)
    case NotDiscovered(interrupted) =>
      Emit(started, i, InPhase(started.states[i], StopPhase(interrupted))).(stage := Finding(i + 1))
    case Sources(count) =>
      Emit(started, i, Discovered(started.states[i], count)).(stage := Finding(i + 1), jobs := p.jobs + NewJobs(i, count))
  }

  /** A job enters a stage and its harness reports the change. */
  function Advance(p: Producer, k: nat, stage: JobStage, m: Measurement): Producer
    requires k < |p.jobs| && p.jobs[k].harness < |p.states|
  {
    Emit(p, p.jobs[k].harness, m).(jobs := p.jobs[k := p.jobs[k].(stage := stage)])
  }

  predicate JobsOk(p: Producer)
  {
    forall k :: 0 <= k < |p.jobs| ==> p.jobs[k].harness < |p.states|
  }

  function Next(p: Producer, step: Step): Producer
    requires JobsOk(p)
  {
    if !Enabled(p, step) then p
    else
      match step
      case Discover(result) => Discovering'(p, p.stage.next, result)
      case BeginReading => p.(stage := Running)
      case NoDirectory(interrupted) => StopAll(p, interrupted)
      case StartRead(k) => Advance(p, k, BeingRead, ReadingChanged(p.states[p.jobs[k].harness], true))
      case EndRead(k) => Advance(p, k, ReadDone, ReadingChanged(p.states[p.jobs[k].harness], false))
      case StartSave(k) => Advance(p, k, ReadDone, SavingStarted(p.states[p.jobs[k].harness])).(writing := Some(k))
      case Finalise(k, outcome) =>
        Advance(p, k, Finalised, Finalized(p.states[p.jobs[k].harness], outcome)).(writing := None)
      case End(cancelled) => if cancelled then StopAll(p, true) else p.(stage := Over)
  }

  function Start(harnesses: nat): Producer
  {
    Producer(seq(harnesses, _ => BLANK), [], Finding(0), None, [])
  }

  ghost function Run(harnesses: nat, steps: seq<Step>): (p: Producer)
    ensures JobsOk(p)
  {
    if steps == [] then Start(harnesses)
    else
      var p := Run(harnesses, steps[..|steps| - 1]);
      NextKeepsJobs(p, steps[|steps| - 1]);
      Next(p, steps[|steps| - 1])
  }

  lemma NextKeepsJobs(p: Producer, step: Step)
    requires JobsOk(p)
    ensures JobsOk(Next(p, step)) && |Next(p, step).states| == |p.states|
  {
  }

  // ----- counting jobs -----

  function Count(jobs: seq<Job>, i: nat, stages: set<JobStage>): nat
  {
    if jobs == [] then 0
    else Count(jobs[..|jobs| - 1], i, stages) + if jobs[|jobs| - 1].harness == i && jobs[|jobs| - 1].stage in stages then 1 else 0
  }

  const EVERY: set<JobStage> := {Queued, BeingRead, ReadDone, Finalised}

  lemma {:induction false} CountMoved(jobs: seq<Job>, k: nat, stage: JobStage, i: nat, stages: set<JobStage>)
    requires k < |jobs|
    ensures var moved := jobs[k := jobs[k].(stage := stage)];
            Count(moved, i, stages) == Count(jobs, i, stages)
              + (if jobs[k].harness == i && stage in stages then 1 else 0)
              - (if jobs[k].harness == i && jobs[k].stage in stages then 1 else 0)
    decreases |jobs|
  {
    var moved := jobs[k := jobs[k].(stage := stage)];
    var n := |jobs| - 1;
    if k < n {
      CountMoved(jobs[..n], k, stage, i, stages);
      assert moved[..n] == jobs[..n][k := jobs[..n][k].(stage := stage)];
    } else {
      assert moved[..n] == jobs[..n];
    }
  }

  lemma {:induction false} CountAdded(jobs: seq<Job>, i: nat, count: nat, h: nat, stages: set<JobStage>)
    ensures Count(jobs + NewJobs(i, count), h, stages) == Count(jobs, h, stages) + (if h == i && Queued in stages then count else 0)
    decreases count
  {
    var more := jobs + NewJobs(i, count);
    if count == 0 {
      assert more == jobs;
    } else {
      CountAdded(jobs, i, count - 1, h, stages);
      assert more[..|more| - 1] == jobs + NewJobs(i, count - 1);
    }
  }

  /** Jobs being read and finalised ones are different jobs; a read one is neither. */
  lemma {:induction false} CountParts(jobs: seq<Job>, i: nat)
    ensures Count(jobs, i, {BeingRead}) + Count(jobs, i, {Finalised}) + Count(jobs, i, {Queued, ReadDone}) == Count(jobs, i, EVERY)
  {
    if jobs != [] {
      CountParts(jobs[..|jobs| - 1], i);
    }
  }

  lemma {:induction false} CountOne(jobs: seq<Job>, k: nat, i: nat, stages: set<JobStage>)
    requires k < |jobs| && jobs[k].harness == i && jobs[k].stage in stages
    ensures Count(jobs, i, stages) >= 1
    decreases |jobs|
  {
    if k < |jobs| - 1 {
      CountOne(jobs[..|jobs| - 1], k, i, stages);
    }
  }

  lemma {:induction false} CountNone(jobs: seq<Job>, i: nat, stages: set<JobStage>)
    requires forall k :: 0 <= k < |jobs| && jobs[k].harness == i ==> jobs[k].stage !in stages
    ensures Count(jobs, i, stages) == 0
  {
    if jobs != [] {
      assert forall k :: 0 <= k < |jobs| - 1 ==> jobs[..|jobs| - 1][k] == jobs[k];
      CountNone(jobs[..|jobs| - 1], i, stages);
    }
  }

  // ----- what every run keeps -----

  /** The last measurement published of harness i among the first n. */
  function Last(emitted: seq<Emission>, n: nat, i: nat): Option<Capture>
    requires n <= |emitted|
  {
    if n == 0 then None else if emitted[n - 1].0 == i then Some(emitted[n - 1].1) else Last(emitted, n - 1, i)
  }

  lemma {:induction false} LastOfPrefix(a: seq<Emission>, b: seq<Emission>, n: nat, i: nat)
    requires n <= |a| <= |b| && a == b[..|a|]
    ensures Last(a, n, i) == Last(b, n, i)
    decreases n
  {
    if n > 0 {
      LastOfPrefix(a, b, n - 1, i);
    }
  }

  /** A measurement any known harness may report. */
  predicate Sound(c: Capture)
  {
    ValidCapture("codex", c)
  }

  predicate MayFollow(previous: Option<Capture>, c: Capture)
  {
    previous.Some? ==> Follows(previous.value, c)
  }

  predicate EmissionsOk(emitted: seq<Emission>)
  {
    forall j :: 0 <= j < |emitted| ==> Sound(emitted[j].1) && MayFollow(Last(emitted, j, emitted[j].0), emitted[j].1)
  }

  /** The counters of a discovered harness are its jobs. */
  predicate CountersOk(p: Producer, i: nat)
    requires i < |p.states|
  {
    var e := p.states[i].event;
    && e.total == Count(p.jobs, i, EVERY) <= SAFE_INTEGER
    && e.active == Count(p.jobs, i, {BeingRead}) && e.checked == Count(p.jobs, i, {Finalised})
    && e.checked == e.captured + e.unmodified + e.failed + e.quarantined
    && e.captured >= 0 && e.unmodified >= 0 && e.failed >= 0 && e.quarantined >= 0
  }

  predicate StateOk(p: Producer, i: nat)
    requires i < |p.states|
  {
    var m := p.states[i];
    && (p.stage.Finding? && i >= p.stage.next ==>
          m == BLANK && Last(p.emitted, |p.emitted|, i).None? && Count(p.jobs, i, EVERY) == 0)
    && (p.stage.Finding? && i < p.stage.next ==> Last(p.emitted, |p.emitted|, i) == Some(m.event))
    && (p.stage == Running ==> Last(p.emitted, |p.emitted|, i) == Some(m.event))
    && (!m.event.totalKnown ==> Count(p.jobs, i, EVERY) == 0)
    && (m.event.totalKnown && p.stage != Over ==> CountersOk(p, i) && m.event.phase == WorkPhase(m))
    && (p.stage.Finding? ==> !m.saving && m.event.active == 0 && m.event.checked == 0)
    && (p.stage == Running && m.saving ==> p.writing.Some? && p.writing.value < |p.jobs| && p.jobs[p.writing.value].harness == i)
  }

  predicate ProducerOk(p: Producer)
  {
    && JobsOk(p) && EmissionsOk(p.emitted)
    && (p.stage.Finding? ==> p.stage.next <= |p.states| && p.writing.None? && forall k :: 0 <= k < |p.jobs| ==> p.jobs[k].stage == Queued)
    && (forall i :: 0 <= i < |p.states| ==> StateOk(p, i))
    && (p.stage == Running && p.writing.Some? ==> p.writing.value < |p.jobs| && p.jobs[p.writing.value].stage == ReadDone)
  }

  lemma EmittingIsOk(emitted: seq<Emission>, i: nat, c: Capture)
    requires EmissionsOk(emitted) && Sound(c) && MayFollow(Last(emitted, |emitted|, i), c)
    ensures EmissionsOk(emitted + [(i, c)])
    ensures forall h :: Last(emitted + [(i, c)], |emitted| + 1, h) == if h == i then Some(c) else Last(emitted, |emitted|, h)
  {
    hide Sound, Follows;
    var more := emitted + [(i, c)];
    forall j, h: nat | 0 <= j <= |emitted|
      ensures Last(more, j, h) == Last(emitted, j, h)
    {
      LastOfPrefix(emitted, more, j, h);
    }
  }

  // ----- working on jobs -----

  lemma WorkIsSound(m: Measurement)
    requires var e := m.event;
             && e.totalKnown && 0 <= e.checked && 0 <= e.active && e.checked + e.active <= e.total <= SAFE_INTEGER
             && e.checked == e.captured + e.unmodified + e.failed + e.quarantined
             && e.captured >= 0 && e.unmodified >= 0 && e.failed >= 0 && e.quarantined >= 0
    ensures Sound(m.event.(phase := WorkPhase(m)))
  {
  }

  /** A harness with an unfinalised job has not ended, and is discovered. */
  lemma StillWorking(p: Producer, k: nat)
    requires ProducerOk(p) && p.stage == Running && k < |p.jobs| && p.jobs[k].stage != Finalised
    ensures p.jobs[k].harness < |p.states|
    ensures var m := p.states[p.jobs[k].harness];
            && m.event.totalKnown && m.event.checked < m.event.total && !CaptureTerminal(m.event.phase)
            && CountersOk(p, p.jobs[k].harness)
  {
    var i := p.jobs[k].harness;
    assert StateOk(p, i);
    CountOne(p.jobs, k, i, EVERY);
    CountParts(p.jobs, i);
    if p.jobs[k].stage == BeingRead {
      CountOne(p.jobs, k, i, {BeingRead});
    } else {
      CountOne(p.jobs, k, i, {Queued, ReadDone});
    }
  }

  predicate Grown(a: Capture, b: Capture)
  {
    a.totalKnown && b.totalKnown && b.total == a.total && b.captured >= a.captured && b.unmodified >= a.unmodified && b.failed >= a.failed
    && b.quarantined >= a.quarantined
  }

  predicate WritingOk(p: Producer)
  {
    && (p.writing.Some? ==> p.writing.value < |p.jobs| && p.jobs[p.writing.value].stage == ReadDone)
    && forall i :: 0 <= i < |p.states| && p.states[i].saving ==>
         p.writing.Some? && p.writing.value < |p.jobs| && p.jobs[p.writing.value].harness == i
  }

  lemma CountersOkIsWithin(p: Producer, i: nat)
    requires i < |p.states| && CountersOk(p, i)
    ensures p.states[i].event.checked + p.states[i].event.active <= p.states[i].event.total
  {
    CountParts(p.jobs, i);
  }

  lemma OthersUnmoved(p: Producer, q: Producer, k: nat, stage: JobStage, h: nat)
    requires k < |p.jobs| && q.jobs == p.jobs[k := p.jobs[k].(stage := stage)] && h != p.jobs[k].harness
    requires h < |p.states| == |q.states| && q.states[h] == p.states[h]
    ensures CountersOk(q, h) == CountersOk(p, h) && Count(q.jobs, h, EVERY) == Count(p.jobs, h, EVERY)
  {
    CountMoved(p.jobs, k, stage, h, EVERY);
    CountMoved(p.jobs, k, stage, h, {BeingRead});
    CountMoved(p.jobs, k, stage, h, {Finalised});
    hide Count;
  }

  lemma AdvanceKeeps(p: Producer, k: nat, stage: JobStage, m: Measurement, q: Producer)
    requires ProducerOk(p) && p.stage == Running && k < |p.jobs| && p.jobs[k].stage != Finalised
    requires q == Advance(p, k, stage, m).(writing := q.writing) && WritingOk(q)
    requires CountersOk(q, p.jobs[k].harness) && Grown(p.states[p.jobs[k].harness].event, m.event) && m.event.phase == WorkPhase(m)
    ensures ProducerOk(q)
  {
    var i := p.jobs[k].harness;
    StillWorking(p, k);
    CountersOkIsWithin(q, i);
    WorkIsSound(m);
    assert StateOk(p, i);
    hide Count, Sound, EmissionsOk;
    assert m.event == m.event.(phase := WorkPhase(m));
    EmittingIsOk(p.emitted, i, m.event);
    forall h | 0 <= h < |q.states|
      ensures StateOk(q, h)
    {
      assert StateOk(p, h);
      if h != i {
        OthersUnmoved(p, q, k, stage, h);
      }
    }
  }

  lemma JobMoves(p: Producer, k: nat, stage: JobStage)
    requires k < |p.jobs|
    ensures var moved, i := p.jobs[k := p.jobs[k].(stage := stage)], p.jobs[k].harness;
            && Count(moved, i, EVERY) == Count(p.jobs, i, EVERY)
            && Count(moved, i, {BeingRead}) == Count(p.jobs, i, {BeingRead})
                 + (if stage == BeingRead then 1 else 0) - (if p.jobs[k].stage == BeingRead then 1 else 0)
            && Count(moved, i, {Finalised}) == Count(p.jobs, i, {Finalised})
                 + (if stage == Finalised then 1 else 0) - (if p.jobs[k].stage == Finalised then 1 else 0)
  {
    var i := p.jobs[k].harness;
    CountMoved(p.jobs, k, stage, i, EVERY);
    CountMoved(p.jobs, k, stage, i, {BeingRead});
    CountMoved(p.jobs, k, stage, i, {Finalised});
    hide Count;
  }

  lemma WritingHeld(p: Producer)
    requires ProducerOk(p) && p.stage == Running
    ensures WritingOk(p)
  {
    forall i | 0 <= i < |p.states| && p.states[i].saving
      ensures p.writing.Some? && p.writing.value < |p.jobs| && p.jobs[p.writing.value].harness == i
    {
      assert StateOk(p, i);
    }
  }

  /** The job's harness before the step, and who is saving what. */
  lemma JobStepFacts(p: Producer, k: nat)
    requires ProducerOk(p) && p.stage == Running && k < |p.jobs| && p.jobs[k].stage != Finalised
    ensures JobsOk(p) && WritingOk(p) && CountersOk(p, p.jobs[k].harness) && p.states[p.jobs[k].harness].event.totalKnown
  {
    StillWorking(p, k);
    WritingHeld(p);
  }

  lemma ReadStepKeeps(p: Producer, k: nat, started: bool)
    requires ProducerOk(p) && Enabled(p, if started then StartRead(k) else EndRead(k))
    ensures ProducerOk(Next(p, if started then StartRead(k) else EndRead(k)))
  {
    hide ProducerOk, Count, StateOk;
    JobStepFacts(p, k);
    var stage := if started then BeingRead else ReadDone;
    JobMoves(p, k, stage);
    AdvanceKeeps(p, k, stage, ReadingChanged(p.states[p.jobs[k].harness], started), Next(p, if started then StartRead(k) else EndRead(k)));
  }

  lemma SaveStepKeeps(p: Producer, k: nat)
    requires ProducerOk(p) && Enabled(p, StartSave(k))
    ensures ProducerOk(Next(p, StartSave(k)))
  {
    hide ProducerOk, Count, StateOk;
    JobStepFacts(p, k);
    JobMoves(p, k, ReadDone);
    AdvanceKeeps(p, k, ReadDone, SavingStarted(p.states[p.jobs[k].harness]), Next(p, StartSave(k)));
  }

  lemma FinaliseStepKeeps(p: Producer, k: nat, outcome: Outcome)
    requires ProducerOk(p) && Enabled(p, Finalise(k, outcome))
    ensures ProducerOk(Next(p, Finalise(k, outcome)))
  {
    hide ProducerOk, Count, StateOk;
    JobStepFacts(p, k);
    JobMoves(p, k, Finalised);
    AdvanceKeeps(p, k, Finalised, Finalized(p.states[p.jobs[k].harness], outcome), Next(p, Finalise(k, outcome)));
  }

  // ----- stopping -----

  /** Every harness that stops early is idle, and its last measurement is its state. */
  predicate Stoppable(p: Producer, i: nat, interrupted: bool)
    requires i < |p.states|
  {
    var m := p.states[i];
    Unfinished(m, interrupted) ==>
      && Last(p.emitted, |p.emitted|, i) == Some(m.event) && CountersOk(p, i) && m.event.active == 0 && !m.saving
      && m.event.phase == WorkPhase(m)
  }

  lemma StopFollows(p: Producer, i: nat, interrupted: bool)
    requires i < |p.states| && Stoppable(p, i, interrupted) && Unfinished(p.states[i], interrupted)
    ensures var c := StoppedState(p.states[i], interrupted).event; Sound(c) && Follows(p.states[i].event, c)
  {
    CountersOkIsWithin(p, i);
    hide Count;
  }

  lemma {:induction false} StoppingIsOk(p: Producer, interrupted: bool, n: nat)
    requires n <= |p.states| && EmissionsOk(p.emitted) && forall i :: 0 <= i < |p.states| ==> Stoppable(p, i, interrupted)
    ensures var more := p.emitted + StoppedEvents(p.states, interrupted, n);
            && EmissionsOk(more)
            && forall h: nat :: n <= h ==> Last(more, |more|, h) == Last(p.emitted, |p.emitted|, h)
  {
    hide EmissionsOk, Follows, Sound, CountersOk;
    if n == 0 {
      assert p.emitted + [] == p.emitted;
    } else {
      StoppingIsOk(p, interrupted, n - 1);
      var more := p.emitted + StoppedEvents(p.states, interrupted, n - 1);
      if Unfinished(p.states[n - 1], interrupted) {
        StopFollows(p, n - 1, interrupted);
        var c := StoppedState(p.states[n - 1], interrupted).event;
        EmittingIsOk(more, n - 1, c);
        assert p.emitted + StoppedEvents(p.states, interrupted, n) == more + [(n - 1, c)];
      }
    }
  }

  lemma StopAllKeeps(p: Producer, interrupted: bool)
    requires JobsOk(p) && EmissionsOk(p.emitted) && forall i :: 0 <= i < |p.states| ==> Stoppable(p, i, interrupted)
    requires forall i :: 0 <= i < |p.states| && !p.states[i].event.totalKnown ==> Count(p.jobs, i, EVERY) == 0
    ensures ProducerOk(StopAll(p, interrupted))
  {
    StoppingIsOk(p, interrupted, |p.states|);
    hide EmissionsOk, Count, Stoppable;
  }

  lemma EndKeeps(p: Producer, cancelled: bool)
    requires ProducerOk(p) && Enabled(p, End(cancelled))
    ensures ProducerOk(Next(p, End(cancelled)))
  {
    forall i | 0 <= i < |p.states|
      ensures Stoppable(p, i, true)
      ensures !p.states[i].event.totalKnown ==> Count(p.jobs, i, EVERY) == 0
    {
      assert StateOk(p, i);
      CountNone(p.jobs, i, {BeingRead});
    }
    hide Count, EmissionsOk, Stoppable;
    if cancelled {
      StopAllKeeps(p, true);
    } else {
      forall i | 0 <= i < |p.states|
        ensures StateOk(p.(stage := Over), i)
      {
        assert StateOk(p, i);
      }
    }
  }

  lemma NoDirectoryKeeps(p: Producer, interrupted: bool)
    requires ProducerOk(p) && Enabled(p, NoDirectory(interrupted))
    ensures ProducerOk(Next(p, NoDirectory(interrupted)))
  {
    forall i | 0 <= i < |p.states|
      ensures Stoppable(p, i, interrupted)
      ensures !p.states[i].event.totalKnown ==> Count(p.jobs, i, EVERY) == 0
    {
      assert StateOk(p, i);
    }
    hide Count, EmissionsOk, Stoppable;
    StopAllKeeps(p, interrupted);
  }

  lemma BeginKeeps(p: Producer)
    requires ProducerOk(p) && Enabled(p, BeginReading)
    ensures ProducerOk(Next(p, BeginReading))
  {
    hide Count, EmissionsOk, Last, WorkPhase;
    var q := Next(p, BeginReading);
    forall i | 0 <= i < |q.states|
      ensures StateOk(q, i)
    {
      assert StateOk(p, i);
    }
  }

  // ----- discovery -----

  lemma BlankIsSound()
    ensures Sound(BLANK.event)
  {
  }

  lemma SoundParts(c: Capture)
    requires Counts(c)
    requires (c.phase == Waiting && c.totalKnown && c.active == 0) || (c.phase == Failed && c.active == 0) || (c.phase == Interrupted && c.active == 0)
             || (c.phase == Complete && c.totalKnown && c.checked == c.total && c.failed == 0 && c.quarantined == 0 && c.active == 0)
    ensures Sound(c)
  {
    hide Counts;
  }

  lemma DiscoveredIsSound(total: nat)
    requires total <= SAFE_INTEGER
    ensures var m := Discovered(BLANK, total); Sound(m.event) && Follows(BLANK.event, m.event) && m.event.phase == WorkPhase(m)
  {
    hide Sound;
    var m := Discovered(BLANK, total);
    assert m == Measurement(Capture(if total == 0 then Complete else Waiting, true, total, 0, 0, 0, 0, 0, 0), false);
    SoundParts(m.event);
  }

  lemma StoppedIsSound(interrupted: bool)
    ensures var m := InPhase(BLANK, StopPhase(interrupted)); Sound(m.event) && Follows(BLANK.event, m.event)
  {
    hide Sound;
    var m := InPhase(BLANK, StopPhase(interrupted));
    assert m == Measurement(Capture(StopPhase(interrupted), false, 0, 0, 0, 0, 0, 0, 0), false);
    SoundParts(m.event);
  }

  lemma FreshState(p: Producer, i: nat)
    requires ProducerOk(p) && p.stage == Finding(i) && i < |p.states|
    ensures p.states[i] == BLANK && Last(p.emitted, |p.emitted|, i).None? && Count(p.jobs, i, EVERY) == 0 && EmissionsOk(p.emitted)
    ensures InPhase(BLANK, Discovering) == BLANK
  {
    assert StateOk(p, i);
    hide Count, EmissionsOk;
  }

  /** The first two measurements of a harness. */
  lemma FirstEmissions(p: Producer, i: nat, m: Measurement)
    requires EmissionsOk(p.emitted) && i < |p.states| && p.states[i] == BLANK && Last(p.emitted, |p.emitted|, i).None?
    requires Sound(m.event) && Follows(BLANK.event, m.event)
    ensures var q := Emit(Emit(p, i, BLANK), i, m);
            && EmissionsOk(q.emitted) && q.states == p.states[i := m]
            && forall h: nat :: Last(q.emitted, |q.emitted|, h) == if h == i then Some(m.event) else Last(p.emitted, |p.emitted|, h)
  {
    hide EmissionsOk, Sound, Follows, Last;
    BlankIsSound();
    var once := p.emitted + [(i, BLANK.event)];
    EmittingIsOk(p.emitted, i, BLANK.event);
    assert Last(once, |once|, i) == Some(BLANK.event);
    EmittingIsOk(once, i, m.event);
  }

  lemma OtherStateKept(p: Producer, q: Producer, i: nat, h: nat)
    requires h < |p.states| == |q.states| && h != i && StateOk(p, h) && p.stage == Finding(i) && q.stage == Finding(i + 1)
    requires q.states[h] == p.states[h] && Last(q.emitted, |q.emitted|, h) == Last(p.emitted, |p.emitted|, h)
    requires forall stages :: Count(q.jobs, h, stages) == Count(p.jobs, h, stages)
    ensures StateOk(q, h)
  {
    hide Count, Last, WorkPhase;
  }

  lemma SourcesKeep(p: Producer, i: nat, count: nat)
    requires ProducerOk(p) && p.stage == Finding(i) && i < |p.states| && count <= SAFE_INTEGER
    ensures ProducerOk(Next(p, Discover(Sources(count))))
  {
    hide EmissionsOk, Sound, Follows, Count, StateOk, Last, Discovered;
    var m := Discovered(BLANK, count);
    var q := Next(p, Discover(Sources(count)));
    FreshState(p, i);
    DiscoveredIsSound(count);
    FirstEmissions(p, i, m);
    assert q == Emit(Emit(p, i, BLANK), i, m).(stage := Finding(i + 1), jobs := p.jobs + NewJobs(i, count));
    forall h | 0 <= h < |q.states|
      ensures StateOk(q, h)
    {
      assert StateOk(p, h);
      forall stages
        ensures Count(q.jobs, h, stages) == Count(p.jobs, h, stages) + if h == i && Queued in stages then count else 0
      {
        CountAdded(p.jobs, i, count, h, stages);
      }
      if h == i {
        NothingMoved(q.jobs, i);
        FoundState(q, i, count);
      } else {
        OtherStateKept(p, q, i, h);
      }
    }
  }

  lemma FoundState(q: Producer, i: nat, count: nat)
    requires i < |q.states| && q.states[i] == Discovered(BLANK, count) && q.stage == Finding(i + 1) && count <= SAFE_INTEGER
    requires Last(q.emitted, |q.emitted|, i) == Some(q.states[i].event)
    requires Count(q.jobs, i, EVERY) == count && Count(q.jobs, i, {BeingRead}) == 0 && Count(q.jobs, i, {Finalised}) == 0
    ensures StateOk(q, i)
  {
    hide Count, Last;
  }

  lemma NothingMoved(jobs: seq<Job>, i: nat)
    requires forall k :: 0 <= k < |jobs| ==> jobs[k].stage == Queued
    ensures Count(jobs, i, {BeingRead}) == 0 && Count(jobs, i, {Finalised}) == 0
  {
    CountNone(jobs, i, {BeingRead});
    CountNone(jobs, i, {Finalised});
  }

  lemma NotDiscoveredKeeps(p: Producer, i: nat, interrupted: bool)
    requires ProducerOk(p) && p.stage == Finding(i) && i < |p.states|
    ensures ProducerOk(Next(p, Discover(NotDiscovered(interrupted))))
  {
    hide EmissionsOk, Sound, Follows, Count, StateOk, Last;
    var m := InPhase(BLANK, StopPhase(interrupted));
    var q := Next(p, Discover(NotDiscovered(interrupted)));
    FreshState(p, i);
    StoppedIsSound(interrupted);
    FirstEmissions(p, i, m);
    assert q == Emit(Emit(p, i, BLANK), i, m).(stage := Finding(i + 1));
    forall h | 0 <= h < |q.states|
      ensures StateOk(q, h)
    {
      assert StateOk(p, h);
      if h == i {
        LostState(q, i, interrupted);
      } else {
        OtherStateKept(p, q, i, h);
      }
    }
  }

  lemma LostState(q: Producer, i: nat, interrupted: bool)
    requires i < |q.states| && q.states[i] == InPhase(BLANK, StopPhase(interrupted)) && q.stage == Finding(i + 1)
    requires Last(q.emitted, |q.emitted|, i) == Some(q.states[i].event) && Count(q.jobs, i, EVERY) == 0
    ensures StateOk(q, i)
  {
    hide Count, Last;
  }

  lemma FoundIsStoppable(p: Producer, q: Producer, i: nat, h: nat)
    requires h < |p.states| == |q.states| && h != i && StateOk(p, h) && p.stage == Finding(i) && q.jobs == p.jobs
    requires q.states[h] == p.states[h] && Last(q.emitted, |q.emitted|, h) == Last(p.emitted, |p.emitted|, h)
    ensures Stoppable(q, h, false) && (!q.states[h].event.totalKnown ==> Count(q.jobs, h, EVERY) == 0)
  {
    hide Count, Last, WorkPhase;
  }

  lemma UnsupportedKeeps(p: Producer, i: nat)
    requires ProducerOk(p) && p.stage == Finding(i) && i < |p.states|
    ensures ProducerOk(Next(p, Discover(Unsupported)))
  {
    hide EmissionsOk, Sound, Follows, Count, StateOk, Last, Stoppable;
    var m := InPhase(BLANK, Failed);
    FreshState(p, i);
    StoppedIsSound(false);
    FirstEmissions(p, i, m);
    var q := Emit(Emit(p, i, BLANK), i, m);
    forall h | 0 <= h < |q.states|
      ensures Stoppable(q, h, false)
      ensures !q.states[h].event.totalKnown ==> Count(q.jobs, h, EVERY) == 0
    {
      assert StateOk(p, h);
      if h == i {
        UnknownIsStoppable(q, i);
      } else {
        FoundIsStoppable(p, q, i, h);
      }
    }
    StopAllKeeps(q, false);
  }

  lemma UnknownIsStoppable(q: Producer, i: nat)
    requires i < |q.states| && !q.states[i].event.totalKnown
    ensures Stoppable(q, i, false)
  {
  }

  // ----- runs -----

  lemma NextKeepsProducer(p: Producer, step: Step)
    requires ProducerOk(p)
    ensures ProducerOk(Next(p, step))
  {
    hide StateOk, EmissionsOk, Count;
    if Enabled(p, step) {
      match step
      case Discover(Sources(count)) => SourcesKeep(p, p.stage.next, count);
      case Discover(NotDiscovered(interrupted)) => NotDiscoveredKeeps(p, p.stage.next, interrupted);
      case Discover(Unsupported) => UnsupportedKeeps(p, p.stage.next);
      case BeginReading => BeginKeeps(p);
      case NoDirectory(interrupted) => NoDirectoryKeeps(p, interrupted);
      case End(cancelled) => EndKeeps(p, cancelled);
      case StartRead(k) => ReadStepKeeps(p, k, true);
      case EndRead(k) => ReadStepKeeps(p, k, false);
      case StartSave(k) => SaveStepKeeps(p, k);
      case Finalise(k, outcome) => FinaliseStepKeeps(p, k, outcome);
    }
  }

  lemma {:induction false} RunsKeepProducer(harnesses: nat, steps: seq<Step>)
    ensures ProducerOk(Run(harnesses, steps)) && |Run(harnesses, steps).states| == harnesses
  {
    if steps != [] {
      var p := Run(harnesses, steps[..|steps| - 1]);
      RunsKeepProducer(harnesses, steps[..|steps| - 1]);
      hide ProducerOk, Next;
      NextKeepsJobs(p, steps[|steps| - 1]);
      NextKeepsProducer(p, steps[|steps| - 1]);
    }
  }
}
