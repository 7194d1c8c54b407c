/** The boot progress bar of client/src/components/BootSequence.tsx: an
    interval raises the progress by 5 per tick; the first tick that finds
    it at 100 or more clears the interval and schedules the completion
    callback. The effect depends on `onComplete`, so a render with a new
    callback clears the interval and sets a fresh one, keeping progress. */
module Boot {

  /** Progress, whether the interval is still set, and how many completion
      callbacks have been scheduled. */
  datatype Bar = Bar(progress: nat, intervalActive: bool, scheduled: nat)

  /** On mount: progress 0, interval set. */
  const Initial := Bar(0, true, 0)

  /** One firing of the interval: progress never falls below where it was
      (unless it exceeded 100), a multiple of 5 up to 100 stays one, and at
      most one completion is added, exactly when the interval is cleared. */
  function AfterTick(b: Bar): (r: Bar)
    requires b.intervalActive
    ensures b.progress <= r.progress || b.progress > 100
    ensures b.progress <= 100 && b.progress % 5 == 0 ==> r.progress <= 100 && r.progress % 5 == 0
    ensures b.scheduled <= r.scheduled <= b.scheduled + 1
    ensures r.scheduled == b.scheduled + 1 <==> !r.intervalActive
  {
    if b.progress >= 100 then Bar(100, false, b.scheduled + 1)
    else b.(progress := b.progress + 5)
  }

  /** The effect re-runs because `onComplete` changed: the old interval
      is cleared and a new one set; progress and scheduled completions are
      kept. */
  function Rerun(b: Bar): (r: Bar)
    ensures r.intervalActive && r.progress == b.progress && r.scheduled == b.scheduled
  {
    b.(intervalActive := true)
  }

  /** The bar after `n` interval periods from mount, with no re-run of the
      effect; once cleared, the interval fires no more. */
  function Ticks(n: nat): (r: Bar)
    ensures r.progress <= 100 && r.progress % 5 == 0
  {
    if n == 0 then Initial
    else
      var b := Ticks(n - 1);
      if b.intervalActive then AfterTick(b) else b
  }

  /** What holds of the bar whatever the order of ticks and re-runs:
      progress a multiple of 5 and at most 100, and completion scheduled
      only once progress is 100. */
  predicate Inv(b: Bar)
  {
    b.progress <= 100 && b.progress % 5 == 0 && (b.scheduled > 0 ==> b.progress == 100)
  }

  /** A tick below 100 adds exactly 5 and schedules nothing; a tick at 100
      keeps 100, clears the interval and schedules one more completion; a
      re-run changes only the interval; both keep the invariant. */
  lemma TickKeepsInv(b: Bar)
    requires Inv(b) && b.intervalActive
    ensures Inv(AfterTick(b)) && Inv(Rerun(b))
    ensures b.progress < 100 ==> AfterTick(b) == b.(progress := b.progress + 5)
    ensures b.progress == 100 ==> AfterTick(b) == Bar(100, false, b.scheduled + 1)
  {
  }

  /** A re-run while the interval is still set changes nothing. A re-run
      after the interval was cleared at 100 sets a new interval whose first
      tick schedules the completion callback a second time. */
  lemma RerunAfterClear(b: Bar)
    ensures b.intervalActive ==> Rerun(b) == b
    ensures Inv(b) && !b.intervalActive && b.scheduled > 0 ==>
            AfterTick(Rerun(b)) == b.(scheduled := b.scheduled + 1)
    ensures AfterTick(Rerun(Ticks(21))).scheduled == 2
  {
    TicksClosedForm(21);
  }

  /** Twenty ticks reach 100; the twenty-first schedules completion and
      clears the interval; nothing happens after that. */
  lemma {:induction false} TicksClosedForm(n: nat)
    ensures Ticks(n) == if n <= 20 then Bar(5 * n, true, 0) else Bar(100, false, 1)
  {
    if n > 0 {
      TicksClosedForm(n - 1);
    }
  }

  /** Without a re-run, the bar after any number of periods satisfies the
      invariant, completion is scheduled at most once, and it is scheduled
      from the twenty-first period on. */
  lemma TicksInv(n: nat)
    ensures Inv(Ticks(n)) && Ticks(n).scheduled <= 1
    ensures Ticks(n).scheduled == 1 <==> n >= 21
  {
    TicksClosedForm(n);
  }

  /** The component's state. `completed` counts completion callbacks that
      have run; `mounted` is false once the component has unmounted. */
  class BootSequence {
    var progress: nat
    var intervalActive: bool
    var scheduled: nat
    var completed: nat
    var mounted: bool

    function State(): Bar
      reads this
    {
      Bar(progress, intervalActive, scheduled)
    }

    ghost predicate Valid()
      reads this
    {
      Inv(State()) && completed <= scheduled
    }

    /** Mounting: progress 0, interval set. */
    constructor ()
      ensures Valid() && State() == Initial && completed == 0 && mounted
    {
      progress, intervalActive, scheduled, completed, mounted := 0, true, 0, 0, true;
    }

    /** The interval callback. */
    method Tick()
      requires Valid() && intervalActive
      modifies this`progress, this`intervalActive, this`scheduled
      ensures Valid() && completed == old(completed)
      ensures State() == AfterTick(old(State()))
    {
      if progress >= 100 {
        intervalActive := false;
        scheduled := scheduled + 1;
        progress := 100;
      } else {
        progress := progress + 5;
      }
    }

    /** The scheduled completion timeout fires and calls `onComplete`. */
    method CompletionFires()
      requires Valid() && completed < scheduled
      modifies this`completed
      ensures Valid() && completed == old(completed) + 1
    {
      completed := completed + 1;
    }

    /** A render with a new `onComplete` re-runs the effect: its cleanup
        clears the interval and the effect sets a new one. */
    method RerunEffect()
      requires Valid() && mounted
      modifies this`intervalActive
      ensures Valid() && State() == Rerun(old(State()))
    {
      intervalActive := true;
    }

    /** Unmounting clears the interval (a completion already scheduled
        still fires). */
    method Unmount()
      requires Valid()
      modifies this`intervalActive, this`mounted
      ensures Valid() && !intervalActive && !mounted
    {
      intervalActive, mounted := false, false;
    }
  }
}
