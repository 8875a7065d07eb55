/**
 * The guided tutorial of `useTutorial`: a step number and an active flag,
 * changed by starting, ending, and moving one step forward or back. Moving
 * back never goes below step 0; moving forward has no upper bound.
 *
 * The transitions are given as a pure function on states (`Step`), proved
 * about over any sequence of events, and performed in place by the class
 * `Tutorial`.
 */
module UseTutorial {
  import opened Numbers

  datatype State = State(currentStep: int, isActive: bool)

  /** Step 0, not shown. */
  const Initial: State := State(0, false)

  /** The four callbacks of the hook. */
  datatype Event = Start | End | Next | Prev

  /** The state after one callback. */
  function Step(s: State, e: Event): (t: State) {
    match e
    case Start => State(0, true)
    case End => State(0, false)
    case Next => s.(currentStep := s.currentStep + 1)
    case Prev => s.(currentStep := Max(0, s.currentStep - 1))
  }

  /** The state after a sequence of callbacks, applied left to right. */
  function Run(s: State, events: seq<Event>): (t: State)
    decreases |events|
  {
    if events == [] then s else Run(Step(s, events[0]), events[1..])
  }

  /** Running two sequences one after the other is running their concatenation. */
  lemma {:induction false} RunAppend(s: State, first: seq<Event>, second: seq<Event>)
    ensures Run(s, first + second) == Run(Run(s, first), second)
    decreases |first|
  {
    if first == [] {
      assert first + second == second;
    } else {
      assert (first + second)[1..] == first[1..] + second;
      RunAppend(Step(s, first[0]), first[1..], second);
    }
  }

  /** From a step that is not negative, no sequence of callbacks reaches a negative step. */
  lemma {:induction false} RunNeverNegative(s: State, events: seq<Event>)
    requires s.currentStep >= 0
    ensures Run(s, events).currentStep >= 0
    decreases |events|
  {
    if events != [] {
      RunNeverNegative(Step(s, events[0]), events[1..]);
    }
  }

  /** Going back undoes going forward. */
  lemma PrevUndoesNext(s: State)
    requires s.currentStep >= 0
    ensures Run(s, [Next, Prev]) == s
  {
    assert [Next, Prev][1..] == [Prev];
  }

  /** Going forward undoes going back, except at step 0, where going back does nothing. */
  lemma NextUndoesPrev(s: State)
    ensures s.currentStep > 0 ==> Run(s, [Prev, Next]) == s
    ensures s.currentStep <= 0 ==> Run(s, [Prev]) == s.(currentStep := 0)
  {
    assert [Prev, Next][1..] == [Next];
  }

  /** Forward and back never show or hide the tutorial. */
  lemma {:induction false} NavigationKeepsActivity(s: State, events: seq<Event>)
    requires forall i :: 0 <= i < |events| ==> events[i] == Next || events[i] == Prev
    ensures Run(s, events).isActive == s.isActive
    decreases |events|
  {
    if events != [] {
      NavigationKeepsActivity(Step(s, events[0]), events[1..]);
    }
  }

  /** `k` steps forward from any state add exactly `k` to the step and nothing else. */
  lemma {:induction false} ForwardSteps(s: State, k: nat)
    ensures Run(s, seq(k, _ => Next)) == s.(currentStep := s.currentStep + k)
    decreases k
  {
    if k > 0 {
      var events := seq(k, _ => Next);
      assert events == [Next] + seq(k - 1, _ => Next);
      ForwardSteps(Step(s, Next), k - 1);
    }
  }

  /** Starting forgets the past: after a start, the same callbacks give the same state whatever came before. */
  lemma StartForgets(s1: State, s2: State, events: seq<Event>)
    ensures Run(s1, [Start] + events) == Run(s2, [Start] + events)
  {
    assert ([Start] + events)[1..] == events;
  }

  /** Ending always returns to the initial state. */
  lemma EndResets(s: State, events: seq<Event>)
    ensures Run(s, events + [End]) == Initial
  {
    RunAppend(s, events, [End]);
  }

  /** The tutorial state held by the hook. */
  class Tutorial {
    var currentStep: int
    var isActive: bool

    function Snapshot(): (snap: State)
      reads this
    {
      State(currentStep, isActive)
    }

    /** The step is never negative. */
    ghost predicate Valid()
      reads this
    {
      currentStep >= 0
    }

    constructor ()
      ensures Snapshot() == Initial && Valid()
    {
      currentStep := 0;
      isActive := false;
    }

    /** `startTutorial`. */
    method StartTutorial()
      modifies this
      ensures Snapshot() == Step(old(Snapshot()), Start) && Valid()
    {
      currentStep := 0;
      isActive := true;
    }

    /** `endTutorial`. */
    method EndTutorial()
      modifies this
      ensures Snapshot() == Step(old(Snapshot()), End) && Valid()
    {
      isActive := false;
      currentStep := 0;
    }

    /** `nextStep`. */
    method NextStep()
      modifies this
      ensures Snapshot() == Step(old(Snapshot()), Next)
      ensures old(Valid()) ==> Valid()
    {
      currentStep := currentStep + 1;
    }

    /** `prevStep`. */
    method PrevStep()
      modifies this
      ensures Snapshot() == Step(old(Snapshot()), Prev) && Valid()
    {
      currentStep := Max(0, currentStep - 1);
    }
  }
}
