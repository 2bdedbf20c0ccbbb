/** The slideshow: a title slide, one slide per step and a conclusion
    slide, walked by a bounded counter. */
module PresentationMode {
  import opened Records

  /** `steps.length + 2`. */
  function TotalSlides(steps: seq<Step>): nat {
    |steps| + 2
  }

  /** The `nextSlide` update of the counter. */
  function NextSlide(total: nat, current: nat): nat {
    if current < total - 1 then current + 1 else current
  }

  /** The `prevSlide` update of the counter. */
  function PrevSlide(current: nat): nat {
    if current > 0 then current - 1 else current
  }

  /** Next and previous keep the counter among the slides, and each is a
      no-op exactly when its button is disabled. */
  lemma StepsStayInRange(total: nat, current: nat)
    requires current < total
    ensures NextSlide(total, current) < total && PrevSlide(current) < total
    ensures NextSlide(total, current) == current <==> current == total - 1
    ensures PrevSlide(current) == current <==> current == 0
  {
  }

  /** Going forward and back again returns to the same slide, and so does
      going back and forward again. */
  lemma NextPrevRoundTrip(total: nat, current: nat)
    requires current < total
    ensures current < total - 1 ==> PrevSlide(NextSlide(total, current)) == current
    ensures current > 0 ==> NextSlide(total, PrevSlide(current)) == current
  {
  }

  /** What `renderSlide` shows. */
  datatype Slide = TitleSlide | StepSlide(number: nat, step: Step) | ConclusionSlide

  /** The slide shown at position `current`: the title first, then step
      `current` (counted from 1), and the conclusion after the last step. */
  function Classify(steps: seq<Step>, current: nat): (s: Slide)
    ensures s.TitleSlide? <==> current == 0
    ensures s.StepSlide? <==> 1 <= current <= |steps|
    ensures s.ConclusionSlide? <==> current > |steps|
    ensures s.StepSlide? ==> s.number == current && s.step == steps[current - 1]
  {
    if current == 0 then TitleSlide
    else if current <= |steps| then StepSlide(current, steps[current - 1])
    else ConclusionSlide
  }

  /** Every step is shown on exactly one slide, and the last slide is the
      conclusion. */
  lemma EveryStepOnItsSlide(steps: seq<Step>)
    ensures forall i :: 0 <= i < |steps| ==> Classify(steps, i + 1) == StepSlide(i + 1, steps[i])
    ensures forall c :: 0 <= c < TotalSlides(steps) && Classify(steps, c).StepSlide? ==>
      Classify(steps, c).step == steps[c - 1]
    ensures Classify(steps, TotalSlides(steps) - 1) == ConclusionSlide
  {
  }

  class Slideshow {
    const steps: seq<Step>
    /** The `currentSlide` state. */
    var current: nat

    ghost predicate Valid()
      reads this
    {
      current < TotalSlides(steps)
    }

    constructor (steps: seq<Step>)
      ensures Valid() && this.steps == steps && current == 0
    {
      this.steps := steps;
      current := 0;
    }

    /** The Next button. */
    method Next()
      requires Valid()
      modifies this
      ensures Valid() && current == NextSlide(TotalSlides(steps), old(current))
    {
      if current < TotalSlides(steps) - 1 {
        current := current + 1;
      }
    }

    /** The Previous button. */
    method Prev()
      requires Valid()
      modifies this
      ensures Valid() && current == PrevSlide(old(current))
    {
      if current > 0 {
        current := current - 1;
      }
    }

    /** A click on progress dot `i`; there is one dot per slide. */
    method JumpTo(i: nat)
      requires Valid() && i < TotalSlides(steps)
      modifies this
      ensures Valid() && current == i
    {
      current := i;
    }

    /** The slide on screen. */
    function Showing(): (s: Slide)
      requires Valid()
      reads this
      ensures s.TitleSlide? <==> current == 0
      ensures s.StepSlide? ==> 1 <= current <= |steps| && s.step == steps[current - 1]
      ensures s.ConclusionSlide? <==> current == TotalSlides(steps) - 1
    {
      Classify(steps, current)
    }
  }
}
