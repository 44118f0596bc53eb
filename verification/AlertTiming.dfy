/** When alerts open and close, told from the history of observations alone. */
module AlertTiming {
  import opened Common
  import opened AlertKeys
  import opened AlertSafety
  import opened AlertAutomaton

  function LookOf(e: KeyEvent): Option<Sight> {
    match e
    case Eval(x) => Some(x)
    case Crash(last) => last
    case Nothing => None
  }

  /** Since when the condition has been seen at every evaluation, if it was at the last one. */
  function HeldSince(trace: seq<KeyEvent>): Option<Time> {
    if trace == [] then None else
      var before := HeldSince(trace[..|trace| - 1]);
      match trace[|trace| - 1]
      case Eval(x) => if x.hold.None? then None else if before.Some? then before else Some(x.now)
      case Crash(_) => None
      case Nothing => before
  }

  /** Since when the condition has been missing at every evaluation, if it was at the last one. */
  function MissingSince(trace: seq<KeyEvent>): Option<Time> {
    if trace == [] then None else
      var before := MissingSince(trace[..|trace| - 1]);
      match trace[|trace| - 1]
      case Eval(x) => if x.hold.Some? then None else if before.Some? then before else Some(x.now)
      case Crash(_) => None
      case Nothing => before
  }

  /** The phase is a function of which of the two statuses holds and of the history of sightings. */
  lemma {:induction false} PhaseFromHistory(trace: seq<KeyEvent>)
    ensures var p := KeyRun(trace);
      if IsFiring(p)
      then p == match MissingSince(trace) case Some(t) => Clearing(t) case None => Alerting
      else p == match HeldSince(trace) case Some(t) => Pending(t) case None => Idle
  {
    if trace != [] { PhaseFromHistory(trace[..|trace| - 1]); }
  }

  /** An evaluation opens an alert exactly when the condition is there, has been at every evaluation
      for the hold time, and the store accepts the row. */
  lemma OpensExactlyWhenHeld(trace: seq<KeyEvent>, x: Sight)
    requires !IsFiring(KeyRun(trace))
    ensures IsFiring(Step(KeyRun(trace), x)) <==>
      x.ok && x.hold.Some? && x.now - HeldSince(trace + [Eval(x)]).value >= x.hold.value
  {
    PhaseFromHistory(trace);
    assert (trace + [Eval(x)])[..|trace|] == trace;
  }

  /** An evaluation closes an alert exactly when the condition is missing, has been at every evaluation
      for the debounce time, and the store accepts the update. */
  lemma ClosesExactlyWhenMissing(trace: seq<KeyEvent>, x: Sight)
    requires IsFiring(KeyRun(trace))
    ensures !IsFiring(Step(KeyRun(trace), x)) <==>
      x.ok && x.hold.None? && x.now - MissingSince(trace + [Eval(x)]).value >= x.debounce
  {
    PhaseFromHistory(trace);
    assert (trace + [Eval(x)])[..|trace|] == trace;
  }

  // The same with indices into the trace.

  ghost predicate FiringAt(trace: seq<KeyEvent>, i: nat)
    requires i <= |trace|
  {
    IsFiring(KeyRun(trace[..i]))
  }

  ghost predicate Opens(trace: seq<KeyEvent>, i: nat) {
    i < |trace| && !FiringAt(trace, i) && FiringAt(trace, i + 1)
  }

  ghost predicate Closes(trace: seq<KeyEvent>, i: nat) {
    i < |trace| && FiringAt(trace, i) && !FiringAt(trace, i + 1)
  }

  /** An evaluation that did (or did not) see the condition. */
  predicate Saw(e: KeyEvent, present: bool) {
    LookOf(e).Some? && LookOf(e).value.hold.Some? == present
  }

  /** Events `a` to `i` all agree: complete evaluations that saw the condition present (or absent),
      starting with one; the last may be cut short by a crash. */
  ghost predicate Stretch(trace: seq<KeyEvent>, a: nat, i: nat, present: bool) {
    && a <= i < |trace|
    && (forall m | a <= m < i :: trace[m].Nothing? || (trace[m].Eval? && Saw(trace[m], present)))
    && Saw(trace[a], present) && Saw(trace[i], present)
  }

  lemma StepOf(trace: seq<KeyEvent>, i: nat)
    requires i < |trace|
    ensures KeyRun(trace[..i + 1]) == KeyStep(KeyRun(trace[..i]), trace[i])
  {
    assert trace[..i + 1][..i] == trace[..i];
  }

  /** The start of the run HeldSince speaks of. */
  lemma {:induction false} HeldFrom(trace: seq<KeyEvent>, n: nat) returns (a: nat)
    requires n <= |trace| && HeldSince(trace[..n]).Some?
    ensures a < n && trace[a].Eval? && Saw(trace[a], true) && trace[a].x.now == HeldSince(trace[..n]).value
    ensures forall m | a <= m < n :: trace[m].Nothing? || (trace[m].Eval? && Saw(trace[m], true))
  {
    assert trace[..n][..n - 1] == trace[..n - 1];
    if HeldSince(trace[..n - 1]).Some? {
      a := HeldFrom(trace, n - 1);
    } else {
      a := n - 1;
    }
  }

  lemma {:induction false} MissingFrom(trace: seq<KeyEvent>, n: nat) returns (a: nat)
    requires n <= |trace| && MissingSince(trace[..n]).Some?
    ensures a < n && trace[a].Eval? && Saw(trace[a], false) && trace[a].x.now == MissingSince(trace[..n]).value
    ensures forall m | a <= m < n :: trace[m].Nothing? || (trace[m].Eval? && Saw(trace[m], false))
  {
    assert trace[..n][..n - 1] == trace[..n - 1];
    if MissingSince(trace[..n - 1]).Some? {
      a := MissingFrom(trace, n - 1);
    } else {
      a := n - 1;
    }
  }

  function At(trace: seq<KeyEvent>, i: nat): Sight
    requires i < |trace| && LookOf(trace[i]).Some?
  {
    LookOf(trace[i]).value
  }

  /** Every opening, crashes or not, ends a stretch of sightings at least the hold time long. */
  lemma OpeningEndsAHold(trace: seq<KeyEvent>, i: nat) returns (a: nat)
    requires Opens(trace, i)
    ensures Stretch(trace, a, i, true)
    ensures At(trace, i).now - At(trace, a).now >= At(trace, i).hold.value
  {
    StepOf(trace, i);
    PhaseFromHistory(trace[..i]);
    if HeldSince(trace[..i]).Some? { a := HeldFrom(trace, i); } else { a := i; }
  }

  /** Every closing ends a stretch of evaluations without the condition at least the debounce long. */
  lemma ClosingEndsAnAbsence(trace: seq<KeyEvent>, i: nat) returns (a: nat)
    requires Closes(trace, i)
    ensures Stretch(trace, a, i, false)
    ensures At(trace, i).now - At(trace, a).now >= At(trace, i).debounce
  {
    StepOf(trace, i);
    PhaseFromHistory(trace[..i]);
    if MissingSince(trace[..i]).Some? { a := MissingFrom(trace, i); } else { a := i; }
  }

  lemma {:induction false} ClosesBetween(trace: seq<KeyEvent>, i: nat, j: nat) returns (m: nat)
    requires i <= j <= |trace| && FiringAt(trace, i) && !FiringAt(trace, j)
    ensures i <= m < j && Closes(trace, m)
    decreases j - i
  {
    if FiringAt(trace, i + 1) { m := ClosesBetween(trace, i + 1, j); } else { m := i; }
  }

  /** No reading lies more than `slack` before an earlier one; 0 when the clock never steps back. */
  ghost predicate StepsBackAtMost(trace: seq<KeyEvent>, slack: int) {
    forall i, j | 0 <= i < j < |trace| && LookOf(trace[i]).Some? && LookOf(trace[j]).Some? ::
      At(trace, i).now <= At(trace, j).now + slack
  }

  /** Between two openings lie an absence of at least the debounce and then a hold. */
  lemma OpeningsFrame(trace: seq<KeyEvent>, i: nat, j: nat) returns (a: nat, m: nat, b: nat)
    requires i < j && Opens(trace, i) && Opens(trace, j)
    ensures i < a <= m < b <= j
    ensures Closes(trace, m)
    ensures Stretch(trace, a, m, false) && At(trace, m).now - At(trace, a).now >= At(trace, m).debounce
    ensures Stretch(trace, b, j, true) && At(trace, j).now - At(trace, b).now >= At(trace, j).hold.value
  {
    m := ClosesBetween(trace, i + 1, j);
    a := ClosingEndsAnAbsence(trace, m);
    b := OpeningEndsAHold(trace, j);
    StepOf(trace, i);
  }

  /** Two openings are at least debounce plus hold time apart, less twice the largest step back. */
  lemma OpeningsAreSpaced(trace: seq<KeyEvent>, i: nat, j: nat, debounce: int, slack: int)
    requires i < j && Opens(trace, i) && Opens(trace, j) && StepsBackAtMost(trace, slack) && slack >= 0
    requires forall m | 0 <= m < |trace| && LookOf(trace[m]).Some? :: At(trace, m).debounce == debounce
    ensures LookOf(trace[i]).Some? && Saw(trace[j], true)
    ensures At(trace, j).now - At(trace, i).now >= debounce + At(trace, j).hold.value - 2 * slack
  {
    StepOf(trace, i);
    var a, m, b := OpeningsFrame(trace, i, j);
  }

  // Back to the engine: the firing rows of a key follow its trace.

  lemma RowsFollowTrace(events: seq<Event>, k: Key, i: nat)
    requires Feasible(events) && i <= |events|
    ensures HasFiringRow(Run(events[..i]).rows, k) <==> FiringAt(Trace(events, k), i)
  {
    FeasiblePrefix(events, i);
    RunRefinesKeyRun(events[..i], k);
    Safety(events[..i]);
    FiringRowIsFiringPhase(Run(events[..i]), k);
    assert Trace(events, k)[..i] == Trace(events[..i], k);
  }

  /** A key's alert row appears only after a hold and goes only after an absence, over every run with
      store failures, crashes and restarts; `i` is the event that changes the table. */
  lemma {:induction false} RowChangesAreEarned(events: seq<Event>, k: Key, i: nat) returns (a: nat)
    requires Feasible(events) && i < |events|
    requires HasFiringRow(Run(events[..i]).rows, k) != HasFiringRow(Run(events[..i + 1]).rows, k)
    ensures var trace, opening := Trace(events, k), !HasFiringRow(Run(events[..i]).rows, k);
      && Stretch(trace, a, i, opening)
      && At(trace, i).now - At(trace, a).now >= if opening then At(trace, i).hold.value else At(trace, i).debounce
  {
    RowsFollowTrace(events, k, i);
    RowsFollowTrace(events, k, i + 1);
    if HasFiringRow(Run(events[..i]).rows, k) {
      a := ClosingEndsAnAbsence(Trace(events, k), i);
    } else {
      a := OpeningEndsAHold(Trace(events, k), i);
    }
  }

  /** The time at which the evaluation of an event ran. */
  function ClockOf(e: Event): Option<Time> {
    match e
    case Evaluate(env, _) => Some(env.now)
    case CrashInEvaluate(env, _, _) => Some(env.now)
    case _ => None
  }

  /** The clock readings of a run, in the order the evaluations ran, step back by at most `slack`, and the debounce
      setting stays. A reading is taken before the lock, so even a monotone clock has the slack of the wait. */
  ghost predicate SteadyClock(events: seq<Event>, debounce: int, slack: int) {
    && (forall m, n | 0 <= m < n < |events| && ClockOf(events[m]).Some? && ClockOf(events[n]).Some? ::
          ClockOf(events[m]).value <= ClockOf(events[n]).value + slack)
    && (forall m | 0 <= m < |events| && ClockOf(events[m]).Some? :: events[m].env.debounce == debounce)
  }

  lemma LookIsTheClock(events: seq<Event>, k: Key, i: nat)
    requires i < |events| && LookOf(Trace(events, k)[i]).Some?
    ensures ClockOf(events[i]) == Some(At(Trace(events, k), i).now)
    ensures At(Trace(events, k), i) == SightOf(events[i].env, k)
  {}

  lemma SteadyTrace(events: seq<Event>, k: Key, debounce: int, slack: int)
    requires SteadyClock(events, debounce, slack)
    ensures StepsBackAtMost(Trace(events, k), slack)
    ensures forall m | 0 <= m < |events| && LookOf(Trace(events, k)[m]).Some? ::
              At(Trace(events, k), m).debounce == debounce
  {
    var trace := Trace(events, k);
    forall m | 0 <= m < |events| && LookOf(trace[m]).Some?
      ensures ClockOf(events[m]) == Some(At(trace, m).now) && At(trace, m).debounce == debounce
    {
      LookIsTheClock(events, k, m);
    }
  }

  ghost predicate RowOpens(events: seq<Event>, k: Key, i: nat) {
    && i < |events|
    && !HasFiringRow(Run(events[..i]).rows, k) && HasFiringRow(Run(events[..i + 1]).rows, k)
  }

  lemma RowOpensInTrace(events: seq<Event>, k: Key, i: nat)
    requires Feasible(events) && RowOpens(events, k, i)
    ensures Opens(Trace(events, k), i)
  {
    RowsFollowTrace(events, k, i);
    RowsFollowTrace(events, k, i + 1);
  }

  /** Two rows of one key are opened at least debounce plus hold time apart, restarts included, less twice the
      largest step back of the readings. */
  lemma {:induction false} RowOpeningsAreSpaced(
    events: seq<Event>, k: Key, i: nat, j: nat, debounce: int, slack: int)
    requires Feasible(events) && i < j && SteadyClock(events, debounce, slack) && slack >= 0
    requires RowOpens(events, k, i) && RowOpens(events, k, j)
    ensures ClockOf(events[i]).Some? && ClockOf(events[j]).Some? && k in events[j].env.active
    ensures ClockOf(events[j]).value - ClockOf(events[i]).value
         >= debounce + events[j].env.active[k].holdFor - 2 * slack
  {
    RowOpensInTrace(events, k, i);
    RowOpensInTrace(events, k, j);
    SteadyTrace(events, k, debounce, slack);
    OpeningsAreSpaced(Trace(events, k), i, j, debounce, slack);
    LookIsTheClock(events, k, i);
    LookIsTheClock(events, k, j);
  }

  /** A rule without hold time may fire again at the very next evaluation after it resolved: nothing
      but the hold time gates a second opening. */
  lemma RefireNeedsOnlyTheHold(trace: seq<KeyEvent>, i: nat, x: Sight)
    requires Closes(trace, i) && i + 1 == |trace| && x.hold.Some? && x.ok
    ensures IsFiring(KeyRun(trace + [Eval(x)])) <==> x.hold.value <= 0
  {
    StepOf(trace, i);
    PhaseFromHistory(trace);
    assert trace[..i + 1] == trace && (trace + [Eval(x)])[..|trace|] == trace;
    var a := ClosingEndsAnAbsence(trace, i);
  }
}
