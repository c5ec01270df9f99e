/** The measurements a capture reports: one state for each harness, changed by concurrent
    readers and a single writer under one lock, and published after every change. */
module CaptureReporter {
  import opened Basics

  datatype Phase = Discovering | Waiting | Reading | Saving | Complete | Failed | Interrupted

  /** Checked counts finalized sources; total means something only once it is known. */
  datatype Capture = Capture(phase: Phase, totalKnown: bool, total: int, checked: int, captured: int, unmodified: int,
                             failed: int, quarantined: int, active: int)

  datatype Measurement = Measurement(event: Capture, saving: bool)

  const BLANK := Measurement(Capture(Discovering, false, 0, 0, 0, 0, 0, 0, 0), false)

  // ----- the changes -----

  function WorkPhase(m: Measurement): Phase
  {
    if m.saving then Saving
    else if m.event.active > 0 then Reading
    else if m.event.checked < m.event.total then Waiting
    else if m.event.failed > 0 || m.event.quarantined > 0 then Failed
    else Complete
  }

  function InPhase(m: Measurement, phase: Phase): Measurement
  {
    m.(event := m.event.(phase := phase))
  }

  function Working(m: Measurement): Measurement
  {
    InPhase(m, WorkPhase(m))
  }

  function Discovered(m: Measurement, total: nat): Measurement
  {
    m.(event := m.event.(totalKnown := true, total := total, phase := if total == 0 then Complete else Waiting))
  }

  function ReadingChanged(m: Measurement, started: bool): Measurement
  {
    Working(m.(event := m.event.(active := m.event.active + if started then 1 else -1)))
  }

  function SavingStarted(m: Measurement): Measurement
  {
    Working(m.(saving := true))
  }

  datatype Outcome = Quarantined | Erred | Found(count: nat)

  function Finalized(m: Measurement, outcome: Outcome): Measurement
  {
    var e := m.event.(checked := m.event.checked + 1);
    var counted :=
      match outcome
      case Quarantined => e.(quarantined := e.quarantined + 1)
      case Erred => e.(failed := e.failed + 1)
      case Found(count) => if count > 0 then e.(captured := e.captured + 1) else e.(unmodified := e.unmodified + 1);
    Working(Measurement(counted, false))
  }

  function StopPhase(interrupted: bool): Phase
  {
    if interrupted then Interrupted else Failed
  }

  predicate Unfinished(m: Measurement, interrupted: bool)
  {
    m.event.totalKnown && (m.event.checked < m.event.total || (interrupted && m.event.failed > 0))
  }

  /** Sources with a result. */
  function Results(c: Capture): int
  {
    c.captured + c.unmodified + c.failed + c.quarantined
  }

  predicate NoneShrank(before: Capture, c: Capture)
  {
    c.captured >= before.captured && c.unmodified >= before.unmodified && c.failed >= before.failed && c.quarantined >= before.quarantined
  }

  /** What is published: the harness by its index, and its measurement. */
  type Emission = (nat, Capture)

  class Reporter {
    var states: seq<Measurement>
    var emitted: seq<Emission>

    constructor (harnesses: nat)
      ensures |states| == harnesses && emitted == [] && forall i :: 0 <= i < harnesses ==> states[i] == BLANK
    {
      states := seq(harnesses, _ => BLANK);
      emitted := [];
    }

    /** Applies a change and publishes the result, as one step under the lock. */
    method Publish(index: nat, m: Measurement)
      requires index < |states|
      modifies this
      ensures states == old(states)[index := m] && emitted == old(emitted) + [(index, m.event)]
    {
      states := states[index := m];
      emitted := emitted + [(index, m.event)];
    }

    method ReportDiscovering(index: nat)
      requires index < |states|
      modifies this
      ensures var m := InPhase(old(states)[index], Discovering);
              states == old(states)[index := m] && emitted == old(emitted) + [(index, m.event)]
    {
      Publish(index, InPhase(states[index], Discovering));
    }

    method ReportDiscovered(index: nat, total: nat)
      requires index < |states|
      modifies this
      ensures var m := Discovered(old(states)[index], total);
              states == old(states)[index := m] && emitted == old(emitted) + [(index, m.event)]
      ensures var c := states[index].event; c.totalKnown && c.total == total && (c.phase == Complete <==> total == 0)
    {
      var m := states[index];
      m := m.(event := m.event.(totalKnown := true, total := total, phase := Waiting));
      if total == 0 {
        m := InPhase(m, Complete);
      }
      Publish(index, m);
    }

    method ReportReading(index: nat, started: bool)
      requires index < |states|
      modifies this
      ensures var m := ReadingChanged(old(states)[index], started);
              states == old(states)[index := m] && emitted == old(emitted) + [(index, m.event)]
      ensures var c := states[index].event;
              c.active == old(states)[index].event.active + (if started then 1 else -1) &&
              (!old(states)[index].saving ==> (c.phase == Reading <==> c.active > 0))
    {
      var m := states[index];
      if started {
        m := m.(event := m.event.(active := m.event.active + 1));
      } else {
        m := m.(event := m.event.(active := m.event.active - 1));
      }
      Publish(index, Working(m));
    }

    method ReportSaving(index: nat)
      requires index < |states|
      modifies this
      ensures var m := SavingStarted(old(states)[index]);
              states == old(states)[index := m] && emitted == old(emitted) + [(index, m.event)]
      ensures states[index].event == old(states)[index].event.(phase := Saving)
    {
      Publish(index, Working(states[index].(saving := true)));
    }

    method ReportFinalized(index: nat, outcome: Outcome)
      requires index < |states|
      modifies this
      ensures var m := Finalized(old(states)[index], outcome);
              states == old(states)[index := m] && emitted == old(emitted) + [(index, m.event)]
      ensures var before, c := old(states)[index].event, states[index].event;
              && c.checked == before.checked + 1 && Results(c) == Results(before) + 1 && NoneShrank(before, c)
              && (c.quarantined > before.quarantined <==> outcome.Quarantined?)
              && (c.failed > before.failed <==> outcome.Erred?)
              && (c.captured > before.captured <==> outcome.Found? && outcome.count > 0)
              && (c.phase == Complete ==> c.active <= 0 && c.checked >= c.total && c.failed <= 0 && c.quarantined <= 0)
    {
      var m := states[index].(saving := false);
      m := m.(event := m.event.(checked := m.event.checked + 1));
      match outcome {
        case Quarantined => m := m.(event := m.event.(quarantined := m.event.quarantined + 1));
        case Erred => m := m.(event := m.event.(failed := m.event.failed + 1));
        case Found(count) =>
          if count > 0 {
            m := m.(event := m.event.(captured := m.event.captured + 1));
          } else {
            m := m.(event := m.event.(unmodified := m.event.unmodified + 1));
          }
      }
      Publish(index, Working(m));
    }

    method ReportStopped(index: nat, interrupted: bool)
      requires index < |states|
      modifies this
      ensures var m := InPhase(old(states)[index], StopPhase(interrupted));
              states == old(states)[index := m] && emitted == old(emitted) + [(index, m.event)]
      ensures states[index].event == old(states)[index].event.(phase := if interrupted then Interrupted else Failed)
    {
      Publish(index, InPhase(states[index], StopPhase(interrupted)));
    }

    /** Ends every harness that still has unchecked sources; an interruption also overrides
        failures. */
    method ReportStoppedUnfinished(interrupted: bool)
      modifies this
      ensures states == StoppedStates(old(states), interrupted)
      ensures emitted == old(emitted) + StoppedEvents(old(states), interrupted, |old(states)|)
      ensures forall i :: 0 <= i < |states| ==>
                states[i] == old(states)[i].(event := old(states)[i].event.(phase := states[i].event.phase)) &&
                (Unfinished(old(states)[i], interrupted) ==> states[i].event.phase == StopPhase(interrupted))
    {
      ghost var before, published := states, emitted;
      var index := 0;
      while index < |states|
        invariant 0 <= index <= |states| == |before|
        invariant forall i :: 0 <= i < |states| ==> states[i] == if i < index then StoppedState(before[i], interrupted) else before[i]
        invariant emitted == published + StoppedEvents(before, interrupted, index)
      {
        if Unfinished(states[index], interrupted) {
          Publish(index, InPhase(states[index], StopPhase(interrupted)));
        }
        index := index + 1;
      }
    }
  }

  function StoppedState(m: Measurement, interrupted: bool): Measurement
  {
    if Unfinished(m, interrupted) then InPhase(m, StopPhase(interrupted)) else m
  }

  function StoppedStates(states: seq<Measurement>, interrupted: bool): (r: seq<Measurement>)
    ensures |r| == |states| && forall i :: 0 <= i < |states| ==> r[i] == StoppedState(states[i], interrupted)
  {
    seq(|states|, i requires 0 <= i < |states| => StoppedState(states[i], interrupted))
  }

  function StoppedEvents(states: seq<Measurement>, interrupted: bool, n: nat): seq<Emission>
    requires n <= |states|
  {
    if n == 0 then []
    else
      var rest := StoppedEvents(states, interrupted, n - 1);
      if Unfinished(states[n - 1], interrupted) then rest + [(n - 1, StoppedState(states[n - 1], interrupted).event)] else rest
  }
}
