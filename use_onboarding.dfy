/**
 * The first-visit onboarding of `useOnboarding`: a step number and an active
 * flag that starts true. Moving on and completing a step both advance the
 * step by one; skipping hides the onboarding for good and keeps the step.
 *
 * The transitions are given as a pure function on states (`Step`), proved
 * about over any sequence of events, and performed in place by the class
 * `Onboarding`.
 */
module UseOnboarding {

  datatype State = State(currentStep: int, isActive: bool)

  /** Step 0, shown. */
  const Initial: State := State(0, true)

  /** The three callbacks of the hook. */
  datatype Event = Next | Skip | Complete

  /** The state after one callback. */
  function Step(s: State, e: Event): (t: State) {
    match e
    case Next => s.(currentStep := s.currentStep + 1)
    case Skip => s.(isActive := false)
    case Complete => s.(currentStep := s.currentStep + 1)
  }

  /** The state after a sequence of callbacks, applied left to right. */
  function Run(s: State, events: seq<Event>): (t: State)
    decreases |events|
  {
    if events == [] then s else Run(Step(s, events[0]), events[1..])
  }

  /** The number of callbacks that advance the step (every one but a skip). */
  function Advances(events: seq<Event>): (n: nat)
    ensures n <= |events|
  {
    if events == [] then 0 else (if events[0] == Skip then 0 else 1) + Advances(events[1..])
  }

  /** Completing a step has the same effect as moving on. */
  lemma CompleteIsNext(s: State, before: seq<Event>, after: seq<Event>)
    ensures Run(s, before + [Complete] + after) == Run(s, before + [Next] + after)
  {
    RunSplit(s, before, Complete, after);
    RunSplit(s, before, Next, after);
  }

  /** Running `before`, one event, then `after`. */
  lemma {:induction false} RunSplit(s: State, before: seq<Event>, e: Event, after: seq<Event>)
    ensures Run(s, before + [e] + after) == Run(Step(Run(s, before), e), after)
    decreases |before|
  {
    if before == [] {
      assert before + [e] + after == [e] + after;
      assert ([e] + after)[1..] == after;
    } else {
      assert (before + [e] + after)[1..] == before[1..] + [e] + after;
      RunSplit(Step(s, before[0]), before[1..], e, after);
    }
  }

  /** The step grows by exactly one for every callback other than a skip. */
  lemma {:induction false} StepCount(s: State, events: seq<Event>)
    ensures Run(s, events).currentStep == s.currentStep + Advances(events)
    decreases |events|
  {
    if events != [] {
      StepCount(Step(s, events[0]), events[1..]);
    }
  }

  /** The onboarding stays shown exactly as long as it was shown and nobody skipped it. */
  lemma {:induction false} ActiveUntilSkipped(s: State, events: seq<Event>)
    ensures Run(s, events).isActive <==> s.isActive && Skip !in events
    decreases |events|
  {
    if events != [] {
      ActiveUntilSkipped(Step(s, events[0]), events[1..]);
      assert Skip in events <==> events[0] == Skip || Skip in events[1..];
    }
  }

  /** Once hidden, no callback shows the onboarding again. */
  lemma NeverReactivated(s: State, events: seq<Event>)
    requires !s.isActive
    ensures !Run(s, events).isActive
  {
    ActiveUntilSkipped(s, events);
  }

  /** From the start, the state is fixed by how many callbacks advanced and whether any skipped. */
  lemma FromInitial(events: seq<Event>)
    ensures Run(Initial, events) == State(Advances(events), Skip !in events)
  {
    StepCount(Initial, events);
    ActiveUntilSkipped(Initial, events);
  }

  /** The onboarding state held by the hook. */
  class Onboarding {
    var currentStep: int
    var isActive: bool

    function Snapshot(): (snap: State)
      reads this
    {
      State(currentStep, isActive)
    }

    constructor ()
      ensures Snapshot() == Initial
    {
      currentStep := 0;
      isActive := true;
    }

    /** `nextStep`. */
    method NextStep()
      modifies this
      ensures Snapshot() == Step(old(Snapshot()), Next)
    {
      currentStep := currentStep + 1;
    }

    /** `skipOnboarding`. */
    method SkipOnboarding()
      modifies this
      ensures Snapshot() == Step(old(Snapshot()), Skip)
    {
      isActive := false;
    }

    /** `completeStep`. */
    method CompleteStep()
      modifies this
      ensures Snapshot() == Step(old(Snapshot()), Complete)
    {
      currentStep := currentStep + 1;
    }
  }
}
