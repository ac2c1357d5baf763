/** The shape shared by the driver loops: a counter runs from a start value
    towards a bound, and each pass, while a per-pass running flag holds,
    advances a state and records what the pass produced. The training loop
    over steps (bounded by `max_steps`, left when the interrupt handler
    clears `running`) and the loop over episodes (`range(episodes)`, never
    left early) are both of this shape. */
module Schedule {
  /** Passes s, s + 1, ... of the loop: the final state and the records of
      the passes taken, in order. */
  function Run<T, L>(step: (T, nat) -> (T, L), x: T, s: nat, bound: int, running: nat -> bool): (T, seq<L>)
    decreases bound - s
  {
    if s >= bound || !running(s) then (x, [])
    else
      var next := step(x, s);
      var rest := Run(step, next.0, s + 1, bound, running);
      (rest.0, [next.1] + rest.1)
  }

  /** Part way through a run: `done` are the records of the passes taken and
      the run from `x` at pass `s` produces the rest of `whole`. */
  ghost predicate Progress<T, L>(step: (T, nat) -> (T, L), whole: (T, seq<L>), done: seq<L>, x: T, s: nat,
                                 bound: int, running: nat -> bool)
  {
    done + Run(step, x, s, bound, running).1 == whole.1 && Run(step, x, s, bound, running).0 == whole.0
  }

  /** The flag holds at passes s .. s + n - 1. */
  predicate RanThrough(running: nat -> bool, s: nat, n: nat)
  {
    forall t :: s <= t < s + n ==> running(t)
  }

  // ---------------------------------------------------------------------
  // Properties

  /** A run from `s` takes at most `bound - s` passes, none when `s` is
      already at the bound, and exactly `bound - s` when the flag never
      clears. */
  lemma {:induction false} RunLength<T, L>(step: (T, nat) -> (T, L), x: T, s: nat, bound: int, running: nat -> bool)
    ensures var n := |Run(step, x, s, bound, running).1|;
      (s < bound ==> n <= bound - s) && (s >= bound ==> n == 0) &&
      ((forall t :: running(t)) && s <= bound ==> n == bound - s)
    decreases bound - s
  {
    if s < bound && running(s) {
      RunLength(step, step(x, s).0, s + 1, bound, running);
    }
  }

  /** Every pass taken found the flag set, and unless the bound ended the
      run, the next check found it cleared. */
  lemma {:induction false} RunStopsAtFlag<T, L>(step: (T, nat) -> (T, L), x: T, s: nat, bound: int, running: nat -> bool)
    ensures var n := |Run(step, x, s, bound, running).1|;
      RanThrough(running, s, n) && (s + n < bound ==> !running(s + n))
    decreases bound - s
  {
    if s < bound && running(s) {
      var next := step(x, s);
      RunStopsAtFlag(step, next.0, s + 1, bound, running);
      var m := |Run(step, next.0, s + 1, bound, running).1|;
      assert |Run(step, x, s, bound, running).1| == m + 1;
      forall t | s <= t < s + m + 1
        ensures running(t)
      {
        if t > s {
          assert s + 1 <= t < s + 1 + m;
        }
      }
    }
  }

  /** A property every single pass gives its record holds of every record
      of the run. */
  lemma {:induction false} RunAll<T, L>(step: (T, nat) -> (T, L), x: T, s: nat, bound: int, running: nat -> bool,
                                        p: L -> bool)
    requires forall y, t :: p(step(y, t).1)
    ensures forall i :: 0 <= i < |Run(step, x, s, bound, running).1| ==> p(Run(step, x, s, bound, running).1[i])
    decreases bound - s
  {
    if s < bound && running(s) {
      var next := step(x, s);
      RunAll(step, next.0, s + 1, bound, running, p);
    }
  }

  /** The run from a pass whose flag is cleared takes no pass. */
  lemma RunStopped<T, L>(step: (T, nat) -> (T, L), x: T, s: nat, bound: int, running: nat -> bool)
    requires s >= bound || !running(s)
    ensures Run(step, x, s, bound, running) == (x, [])
  {
  }

  /** At the start nothing is done. */
  lemma ProgressStart<T, L>(step: (T, nat) -> (T, L), x: T, s: nat, bound: int, running: nat -> bool)
    ensures Progress(step, Run(step, x, s, bound, running), [], x, s, bound, running)
  {
    assert [] + Run(step, x, s, bound, running).1 == Run(step, x, s, bound, running).1;
  }

  /** Taking pass `s` moves its record from the rest of the run to the
      records done. */
  lemma ProgressAdvance<T, L>(step: (T, nat) -> (T, L), whole: (T, seq<L>), done: seq<L>, x: T, s: nat,
                              bound: int, running: nat -> bool)
    requires Progress(step, whole, done, x, s, bound, running) && s < bound && running(s)
    ensures Progress(step, whole, done + [step(x, s).1], step(x, s).0, s + 1, bound, running)
  {
    var next := step(x, s);
    var rest := Run(step, next.0, s + 1, bound, running).1;
    assert done + ([next.1] + rest) == (done + [next.1]) + rest;
  }

  /** Once the loop condition fails, the records done are the whole run. */
  lemma ProgressFinished<T, L>(step: (T, nat) -> (T, L), whole: (T, seq<L>), done: seq<L>, x: T, s: nat,
                               bound: int, running: nat -> bool)
    requires Progress(step, whole, done, x, s, bound, running) && (s >= bound || !running(s))
    ensures done == whole.1 && x == whole.0
  {
    assert done + [] == done;
  }
}
