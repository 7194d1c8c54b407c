/** The reduced-motion switch of
    client/src/components/AccessibilityControls.tsx: a flag that each
    click flips, mirrored by the `reduced-motion` class on the document
    body. */
module Accessibility {

  const ReducedMotionClass := "reduced-motion"

  /** The flag and the body's class list (as a set). */
  datatype View = View(reducedMotion: bool, bodyClasses: set<string>)

  /** `toggleReducedMotion`: flip the flag; add the class when it was off,
      remove it when it was on. Afterwards the class is present exactly
      when the flag is on, whatever the body held before, and no other
      class changes. */
  function Toggled(v: View): (r: View)
    ensures r.reducedMotion == !v.reducedMotion
    ensures ReducedMotionClass in r.bodyClasses <==> r.reducedMotion
    ensures r.bodyClasses - {ReducedMotionClass} == v.bodyClasses - {ReducedMotionClass}
  {
    View(!v.reducedMotion,
         if !v.reducedMotion then v.bodyClasses + {ReducedMotionClass}
         else v.bodyClasses - {ReducedMotionClass})
  }

  /** The view after `n` clicks. */
  function ToggledTimes(v: View, n: nat): View
  {
    if n == 0 then v else Toggled(ToggledTimes(v, n - 1))
  }

  /** Starting with the class present exactly when the flag is on, after
      any number of clicks the class is present exactly when the flag is
      on, the flag is on after an odd number of clicks from off, and no
      other class is touched. */
  lemma {:induction false} ClassTracksFlag(v: View, n: nat)
    requires (ReducedMotionClass in v.bodyClasses) == v.reducedMotion
    ensures var w := ToggledTimes(v, n);
      (ReducedMotionClass in w.bodyClasses) == w.reducedMotion &&
      w.reducedMotion == (v.reducedMotion != (n % 2 == 1)) &&
      w.bodyClasses - {ReducedMotionClass} == v.bodyClasses - {ReducedMotionClass}
  {
    if n > 0 {
      ClassTracksFlag(v, n - 1);
    }
  }

  /** Even over a body that already carries the class, the first click
      turns the flag on with the class present, and from then on the class
      mirrors the flag. */
  lemma FirstClickSynchronises(classes: set<string>, n: nat)
    requires n >= 1
    ensures var w := ToggledTimes(View(false, classes), n);
      (ReducedMotionClass in w.bodyClasses) == w.reducedMotion &&
      w.reducedMotion == (n % 2 == 1)
  {
    var v1 := ToggledTimes(View(false, classes), 1);
    assert ToggledTimes(View(false, classes), 0) == View(false, classes);
    assert v1 == View(true, classes + {ReducedMotionClass});
    ClassTracksFlag(v1, n - 1);
    ToggledTimesShift(View(false, classes), n - 1);
  }

  /** `n` clicks after the first lead to the same view as `n + 1` clicks. */
  lemma {:induction false} ToggledTimesShift(v: View, n: nat)
    ensures ToggledTimes(Toggled(v), n) == ToggledTimes(v, n + 1)
  {
    if n > 0 {
      ToggledTimesShift(v, n - 1);
    }
  }

  class AccessibilityControls {
    var reducedMotion: bool
    var bodyClasses: set<string>

    function State(): View
      reads this
    {
      View(reducedMotion, bodyClasses)
    }

    /** Mounting over a body with classes `classes`; the flag starts off. */
    constructor (classes: set<string>)
      ensures State() == View(false, classes)
    {
      reducedMotion := false;
      bodyClasses := classes;
    }

    /** The button's click handler. */
    method ToggleReducedMotion()
      modifies this
      ensures State() == Toggled(old(State()))
    {
      var wasOn := reducedMotion;
      reducedMotion := !wasOn;
      if !wasOn {
        bodyClasses := bodyClasses + {ReducedMotionClass};
      } else {
        bodyClasses := bodyClasses - {ReducedMotionClass};
      }
    }
  }
}
