/** Checking many images at once: one goroutine per image, a semaphore of four, and a context that may be
    cancelled at any moment, as steps of those goroutines. */
module RegistryCheck {
  import opened Common
  import opened ImageDigests

  const SLOTS := 4

  /** Before its select, inside the lookup, after it but still holding its slot, and returned. */
  datatype Goroutine = Waiting | Looking | Leaving | Finished

  /** `sem` is the number of tokens in the semaphore channel. */
  datatype Check = Check(images: seq<string>, index: Index, cancelled: bool, sem: nat,
                         goroutines: seq<Goroutine>, results: seq<Option<CheckResult>>)

  datatype Step = Acquire(i: nat) | GiveUp(i: nat) | Cancel | Look(i: nat, remote: Remote) | Release(i: nat)

  function Start(images: seq<string>, index: Index): Check {
    Check(images, index, false, 0, seq(|images|, _ => Waiting), seq(|images|, _ => None))
  }

  predicate Sized(c: Check) { |c.goroutines| == |c.images| == |c.results| }

  predicate Enabled(c: Check, step: Step)
    requires Sized(c)
  {
    match step
    case Acquire(i) => i < |c.images| && c.goroutines[i] == Waiting && c.sem < SLOTS
    case GiveUp(i) => i < |c.images| && c.goroutines[i] == Waiting && c.cancelled
    case Cancel => !c.cancelled
    case Look(i, _) => i < |c.images| && c.goroutines[i] == Looking
    case Release(i) => i < |c.images| && c.goroutines[i] == Leaving && c.sem > 0
  }

  function After(c: Check, step: Step): (d: Check)
    requires Sized(c) && Enabled(c, step)
    ensures Sized(d) && d.images == c.images && d.index == c.index
  {
    match step
    case Acquire(i) => c.(sem := c.sem + 1, goroutines := c.goroutines[i := Looking])
    case GiveUp(i) =>
      c.(goroutines := c.goroutines[i := Finished], results := c.results[i := Some(Failure(c.images[i], Cancelled))])
    case Cancel => c.(cancelled := true)
    case Look(i, remote) =>
      c.(goroutines := c.goroutines[i := Leaving],
         results := c.results[i := Some(Checked(c.images[i], c.index, remote))])
    case Release(i) => c.(sem := c.sem - 1, goroutines := c.goroutines[i := Finished])
  }

  ghost predicate IsRun(c: Check, steps: seq<Step>)
    requires Sized(c)
    decreases |steps|
  {
    steps == [] || (Enabled(c, steps[0]) && IsRun(After(c, steps[0]), steps[1..]))
  }

  ghost function Final(c: Check, steps: seq<Step>): (d: Check)
    requires Sized(c) && IsRun(c, steps)
    ensures Sized(d) && d.images == c.images && d.index == c.index
    decreases |steps|
  {
    if steps == [] then c else Final(After(c, steps[0]), steps[1..])
  }

  function Holds(g: Goroutine): nat { if g == Looking || g == Leaving then 1 else 0 }

  /** How many goroutines are between taking and returning a token. */
  function Holders(gs: seq<Goroutine>): nat {
    if gs == [] then 0 else Holds(gs[0]) + Holders(gs[1..])
  }

  lemma {:induction false} HoldersUpdate(gs: seq<Goroutine>, i: nat, g: Goroutine)
    requires i < |gs|
    ensures Holders(gs[i := g]) + Holds(gs[i]) == Holders(gs) + Holds(g)
    ensures Holders(gs) >= Holds(gs[i])
  {
    var next := gs[i := g];
    if i == 0 {
      assert next[1..] == gs[1..];
    } else {
      HoldersUpdate(gs[1..], i - 1, g);
      assert next[1..] == gs[1..][i - 1 := g];
    }
  }

  lemma {:induction false} NobodyHolds(gs: seq<Goroutine>)
    requires forall i | 0 <= i < |gs| :: Holds(gs[i]) == 0
    ensures Holders(gs) == 0
  {
    if gs != [] { NobodyHolds(gs[1..]); }
  }

  /** A result a goroutine may leave for its image. */
  ghost predicate Answers(res: CheckResult, image: string, index: Index, cancelled: bool) {
    (cancelled && res == Failure(image, Cancelled)) || exists remote :: res == Checked(image, index, remote)
  }

  ghost predicate SlotIsRight(c: Check, i: nat)
    requires Sized(c) && i < |c.images|
  {
    if c.goroutines[i] == Waiting || c.goroutines[i] == Looking then c.results[i] == None
    else c.results[i].Some? && Answers(c.results[i].value, c.images[i], c.index, c.cancelled)
  }

  ghost predicate Inv(c: Check) {
    && Sized(c)
    && c.sem == Holders(c.goroutines) <= SLOTS
    && forall i | 0 <= i < |c.images| :: SlotIsRight(c, i)
  }

  lemma StartInv(images: seq<string>, index: Index)
    ensures Inv(Start(images, index))
  {
    NobodyHolds(Start(images, index).goroutines);
  }

  lemma StepKeepsTokens(c: Check, step: Step)
    requires Inv(c) && Enabled(c, step)
    ensures After(c, step).sem == Holders(After(c, step).goroutines) <= SLOTS
  {
    if step.Cancel? { return; }
    HoldersUpdate(c.goroutines, step.i, After(c, step).goroutines[step.i]);
  }

  lemma StepKeepsSlot(c: Check, step: Step, i: nat)
    requires Inv(c) && Enabled(c, step) && i < |c.images|
    ensures SlotIsRight(After(c, step), i)
  {
    assert SlotIsRight(c, i);
    if c.results[i].Some? && c.cancelled {
      assert Answers(c.results[i].value, c.images[i], c.index, true);
    }
  }

  lemma {:induction false} RunKeepsInv(c: Check, steps: seq<Step>)
    requires Inv(c) && IsRun(c, steps)
    ensures Inv(Final(c, steps))
    decreases |steps|
  {
    if steps != [] {
      var next := After(c, steps[0]);
      StepKeepsTokens(c, steps[0]);
      forall i | 0 <= i < |c.images| ensures SlotIsRight(next, i) { StepKeepsSlot(c, steps[0], i); }
      RunKeepsInv(next, steps[1..]);
    }
  }

  predicate Done(c: Check) { forall i | 0 <= i < |c.goroutines| :: c.goroutines[i] == Finished }

  /** Until all have returned somebody can move without waiting for a cancellation. */
  lemma NoDeadlock(c: Check) returns (step: Step)
    requires Inv(c) && !Done(c)
    ensures Enabled(c, step) && step != Cancel
  {
    if i :| 0 <= i < |c.images| && c.goroutines[i] == Looking { return Look(i, Refused("")); }
    if i :| 0 <= i < |c.images| && c.goroutines[i] == Leaving {
      HoldersUpdate(c.goroutines, i, Finished);
      return Release(i);
    }
    NobodyHolds(c.goroutines);
    var i :| 0 <= i < |c.images| && c.goroutines[i] != Finished;
    return Acquire(i);
  }

  function StepsLeft(g: Goroutine): nat {
    match g
    case Waiting => 3
    case Looking => 2
    case Leaving => 1
    case Finished => 0
  }

  function Work(gs: seq<Goroutine>): nat {
    if gs == [] then 0 else StepsLeft(gs[0]) + Work(gs[1..])
  }

  lemma {:induction false} WorkUpdate(gs: seq<Goroutine>, i: nat, g: Goroutine)
    requires i < |gs|
    ensures Work(gs[i := g]) + StepsLeft(gs[i]) == Work(gs) + StepsLeft(g)
  {
    var next := gs[i := g];
    if i == 0 {
      assert next[1..] == gs[1..];
    } else {
      WorkUpdate(gs[1..], i - 1, g);
      assert next[1..] == gs[1..][i - 1 := g];
    }
  }

  lemma {:induction false} AllWaiting(gs: seq<Goroutine>)
    requires forall i | 0 <= i < |gs| :: gs[i] == Waiting
    ensures Work(gs) == 3 * |gs|
  {
    if gs != [] { AllWaiting(gs[1..]); }
  }

  function Total(c: Check): nat { Work(c.goroutines) + if c.cancelled then 0 else 1 }

  lemma {:induction false} RunsAreShort(c: Check, steps: seq<Step>)
    requires Sized(c) && IsRun(c, steps)
    ensures |steps| + Total(Final(c, steps)) <= Total(c)
    decreases |steps|
  {
    if steps != [] {
      var next := After(c, steps[0]);
      if !steps[0].Cancel? { WorkUpdate(c.goroutines, steps[0].i, next.goroutines[steps[0].i]); }
      RunsAreShort(next, steps[1..]);
    }
  }

  // ---- The check as a whole ------------------------------------------------------------------------------

  /** In every reachable state at most four lookups are under way, and with fewer any waiting one may begin. */
  lemma AtMostFourLookups(images: seq<string>, index: Index, steps: seq<Step>)
    requires IsRun(Start(images, index), steps)
    ensures var c := Final(Start(images, index), steps);
            && Holders(c.goroutines) <= 4
            && forall i: nat | i < |images| && c.goroutines[i] == Waiting ::
                 Enabled(c, Acquire(i)) <==> Holders(c.goroutines) < 4
  {
    StartInv(images, index);
    RunKeepsInv(Start(images, index), steps);
  }

  /** Every interleaving is bounded, and one that can go no further has finished. */
  lemma CheckTerminates(images: seq<string>, index: Index, steps: seq<Step>)
    requires IsRun(Start(images, index), steps)
    ensures |steps| <= 3 * |images| + 1
    ensures var c := Final(Start(images, index), steps);
            Done(c) || exists step :: Enabled(c, step) && step != Cancel
  {
    StartInv(images, index);
    RunKeepsInv(Start(images, index), steps);
    RunsAreShort(Start(images, index), steps);
    AllWaiting(Start(images, index).goroutines);
    var c := Final(Start(images, index), steps);
    if !Done(c) { var step := NoDeadlock(c); }
  }

  /** When all have returned, slot i holds a result for image i: the lookup's, or "cancelled" if the context
      was cancelled. */
  lemma EverySlotIsFilled(images: seq<string>, index: Index, steps: seq<Step>, i: nat)
    requires IsRun(Start(images, index), steps) && i < |images|
    requires Done(Final(Start(images, index), steps))
    ensures var c := Final(Start(images, index), steps);
            && c.results[i].Some? && c.results[i].value.image == images[i]
            && Answers(c.results[i].value, images[i], index, c.cancelled)
  {
    hide Final, IsRun;
    StartInv(images, index);
    RunKeepsInv(Start(images, index), steps);
    assert SlotIsRight(Final(Start(images, index), steps), i);
  }

  // ---- Results are lookups -------------------------------------------------------------------------------

  /** What a step leaves in slot i, if it is the one that fills it. */
  predicate Fills(step: Step, i: nat) { (step.Look? || step.GiveUp?) && step.i == i }

  function Filled(images: seq<string>, index: Index, step: Step): CheckResult
    requires (step.Look? || step.GiveUp?) && step.i < |images|
  {
    match step
    case Look(i, remote) => Checked(images[i], index, remote)
    case GiveUp(i) => CheckResult(images[i], "", "", false, Cancelled)
  }

  /** A filled slot keeps its result, and no later step fills it. */
  lemma {:induction false} FilledStays(c: Check, steps: seq<Step>, i: nat)
    requires Sized(c) && IsRun(c, steps) && i < |c.images|
    requires c.goroutines[i] == Leaving || c.goroutines[i] == Finished
    ensures Final(c, steps).results[i] == c.results[i]
    ensures forall j | 0 <= j < |steps| :: !Fills(steps[j], i)
    decreases |steps|
  {
    if steps != [] {
      FilledStays(After(c, steps[0]), steps[1..], i);
      forall j | 0 <= j < |steps| ensures !Fills(steps[j], i) {
        if j > 0 { assert steps[j] == steps[1..][j - 1]; }
      }
    }
  }

  /** A slot whose goroutine has not looked yet is filled by exactly one step of a run that finishes it. */
  lemma {:induction false} OneStepFills(c: Check, steps: seq<Step>, i: nat) returns (j: nat)
    requires Sized(c) && IsRun(c, steps) && i < |c.images|
    requires c.goroutines[i] == Waiting || c.goroutines[i] == Looking
    requires Final(c, steps).goroutines[i] == Finished
    ensures j < |steps| && Fills(steps[j], i)
    ensures Final(c, steps).results[i] == Some(Filled(c.images, c.index, steps[j]))
    ensures forall k | 0 <= k < |steps| && Fills(steps[k], i) :: k == j
    decreases |steps|
  {
    var next, rest := After(c, steps[0]), steps[1..];
    if Fills(steps[0], i) {
      j := 0;
      FilledStays(next, rest, i);
      forall k | 0 < k < |steps| ensures !Fills(steps[k], i) {
        assert steps[k] == rest[k - 1];
      }
    } else {
      var k := OneStepFills(next, rest, i);
      j := k + 1;
      forall m | 0 <= m < |steps| && Fills(steps[m], i) ensures m == j {
        if m > 0 { assert steps[m] == rest[m - 1]; }
      }
    }
  }

  /** When all have returned, slot i holds what the one lookup of image i found at the registry, or that it was
      cancelled, if that is what happened to it. */
  lemma {:induction false} ResultsAreLookups(images: seq<string>, index: Index, steps: seq<Step>, i: nat)
    returns (j: nat)
    requires IsRun(Start(images, index), steps) && i < |images|
    requires Done(Final(Start(images, index), steps))
    ensures j < |steps| && Fills(steps[j], i) && forall k | 0 <= k < |steps| && Fills(steps[k], i) :: k == j
    ensures Final(Start(images, index), steps).results[i] == Some(Filled(images, index, steps[j]))
  {
    j := OneStepFills(Start(images, index), steps, i);
  }
}
